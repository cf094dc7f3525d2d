/** Real-world-asset collection (`get_rwa_assets`): the `assets` lists of
    the CosmWasm query endpoints, concatenated in endpoint order, then
    deduplicated by `id`, keeping the first asset with each id. */
module Rwa {
  import opened Base
  import opened Json

  /** `COSMWASM_CONTRACTS`, queried in this order. */
  const Contracts: seq<string> := ["https://rwa-cosmwasm1.com/query", "https://rwa-cosmwasm2.com/query"]

  /** What the request to one endpoint produced: the request raised, or an
      HTTP status with the decoded body (`None` when `resp.json()`
      raised). */
  datatype Reply = RequestFailed | Http(status: int, body: Option<Json>)

  /** What `assets.extend(data.get("assets", []))` adds for one endpoint.
      Every failure inside the `try` (no answer, a status other than 200,
      an undecodable body, a body that is not an object, an `assets` value
      that cannot be iterated) adds nothing. */
  function EndpointAssets(reply: Reply): (r: seq<Json>)
    ensures r != [] ==> reply.Http? && reply.status == 200 && reply.body.Some? && reply.body.value.JObj?
    ensures reply.Http? && reply.status == 200 && reply.body.Some? && reply.body.value.JObj? ==>
      var v := Lookup(reply.body.value.fields, "assets");
      && (v.None? ==> r == [])
      && (v.Some? && v.value.JArr? ==> r == v.value.items)
  {
    match reply
    case RequestFailed => []
    case Http(status, body) =>
      if status != 200 || body.None? then []
      else
        match GetOr(body.value, "assets", JArr([]))
        case Raises => []
        case Returns(v) =>
          match Iterate(v)
          case Raises => []
          case Returns(xs) => xs
  }

  /** The collected list, one reply per endpoint in `Contracts` order. */
  function CollectAssets(replies: seq<Reply>): (r: seq<Json>)
    ensures forall x :: x in r <==> exists i :: 0 <= i < |replies| && x in EndpointAssets(replies[i])
    decreases |replies|
  {
    if replies == [] then []
    else
      var rest := CollectAssets(replies[1..]);
      assert forall i :: 1 <= i < |replies| ==> replies[i] == replies[1..][i - 1];
      EndpointAssets(replies[0]) + rest
  }

  /** Collection is concatenation: the assets of earlier endpoints come
      first. */
  lemma {:induction false} CollectAppend(a: seq<Reply>, b: seq<Reply>)
    ensures CollectAssets(a + b) == CollectAssets(a) + CollectAssets(b)
    decreases |a|
  {
    if a == [] {
      assert a + b == b;
    } else {
      assert (a + b)[1..] == a[1..] + b;
      CollectAppend(a[1..], b);
    }
  }

  /** A failed endpoint contributes nothing, wherever it stands. */
  lemma FailedEndpointAddsNothing(a: seq<Reply>, b: seq<Reply>)
    ensures CollectAssets(a + [RequestFailed] + b) == CollectAssets(a + b)
  {
    CollectAppend(a + [RequestFailed], b);
    CollectAppend(a, [RequestFailed]);
    CollectAppend(a, b);
  }

  /** An endpoint answering 200 with `{"assets": [...]}` contributes exactly
      that list; with any other status it contributes nothing. */
  lemma AssetListReply(xs: seq<Json>, status: int)
    ensures EndpointAssets(Http(status, Some(JObj([("assets", JArr(xs))])))) == if status == 200 then xs else []
  {
    LookupOne("assets", JArr(xs), "assets");
  }

  /** A successful reply with an `assets` list in front of any other
      members contributes exactly that list. */
  lemma AssetsFirstReply(xs: seq<Json>, more: seq<(string, Json)>)
    ensures EndpointAssets(Http(200, Some(JObj([("assets", JArr(xs))] + more)))) == xs
  {
    var fields := [("assets", JArr(xs))] + more;
    assert fields[0] == ("assets", JArr(xs));
  }

  /** An asset's `id` as a member of a Python set. Integers, floats and
      bools compare (and hash) by numeric value, so they share one kind of
      key; a missing `id` and an explicit `null` are the same key. */
  datatype Key = NoId | NumId(n: real) | TextId(s: string)

  /** `asset.get("id")` as a set key. It raises when the asset is not a
      dict (`AttributeError`) or the id is a list or a dict (unhashable). */
  function IdKey(asset: Json): (r: Py<Key>)
    ensures r.Raises? <==> !asset.JObj? || (Lookup(asset.fields, "id").Some? && (Lookup(asset.fields, "id").value.JArr? || Lookup(asset.fields, "id").value.JObj?))
  {
    match asset
    case JObj(fields) =>
      (match Lookup(fields, "id")
       case None => Returns(NoId)
       case Some(JNull) => Returns(NoId)
       case Some(JBool(b)) => Returns(NumId(if b then 1.0 else 0.0))
       case Some(JInt(i)) => Returns(NumId(i as real))
       case Some(JFloat(x)) => Returns(NumId(x))
       case Some(JStr(s)) => Returns(TextId(s))
       case Some(_) => Raises)
    case _ => Raises
  }

  /** A missing `id` and `"id": null` collide, and so do `1`, `1.0` and
      `true`: the set in the loop treats them as one id. */
  lemma SharedKeys()
    ensures IdKey(JObj([])) == IdKey(JObj([("id", JNull)])) == Returns(NoId)
    ensures IdKey(JObj([("id", JInt(1))])) == IdKey(JObj([("id", JFloat(1.0))])) == IdKey(JObj([("id", JBool(true))]))
  {
    LookupOne("id", JNull, "id");
    LookupOne("id", JInt(1), "id");
    LookupOne("id", JFloat(1.0), "id");
    LookupOne("id", JBool(true), "id");
  }

  /** The keys of all assets, or `Raises` when any asset's key raises. */
  function KeysOf(assets: seq<Json>): (r: Py<seq<Key>>)
    ensures r.Returns? <==> forall i :: 0 <= i < |assets| ==> IdKey(assets[i]).Returns?
    ensures r.Returns? ==> |r.value| == |assets| && forall i :: 0 <= i < |assets| ==> r.value[i] == IdKey(assets[i]).value
    decreases |assets|
  {
    if assets == [] then Returns([])
    else
      var n := |assets| - 1;
      assert forall i :: 0 <= i < n ==> assets[..n][i] == assets[i];
      match KeysOf(assets[..n])
      case Raises => Raises
      case Returns(ks) =>
        match IdKey(assets[n])
        case Raises => Raises
        case Returns(k) => Returns(ks + [k])
  }

  /** No key before position `i` equals the key at `i`. */
  predicate IsFirst(keys: seq<Key>, i: nat)
    requires i < |keys|
  {
    forall j :: 0 <= j < i ==> keys[j] != keys[i]
  }

  /** Being first is decided by the prefix up to and including `i`. */
  lemma IsFirstInPrefix(keys: seq<Key>, n: nat, i: nat)
    requires i < n <= |keys|
    ensures IsFirst(keys[..n], i) <==> IsFirst(keys, i)
  {
    assert forall j :: 0 <= j <= i ==> keys[..n][j] == keys[j];
  }

  /** The key at `i` is new iff it is not in the prefix before it. */
  lemma IsFirstIff(keys: seq<Key>, i: nat)
    requires i < |keys|
    ensures IsFirst(keys, i) <==> keys[i] !in keys[..i]
  {
    if keys[i] in keys[..i] {
      var j :| 0 <= j < i && keys[..i][j] == keys[i];
      assert keys[j] == keys[i];
    }
  }

  /** The positions of the first occurrence of each key, in increasing
      order. */
  function Firsts(keys: seq<Key>): (r: seq<nat>)
    ensures forall a :: 0 <= a < |r| ==> r[a] < |keys|
    ensures forall a, b :: 0 <= a < b < |r| ==> r[a] < r[b]
    ensures forall i :: 0 <= i < |keys| ==> (i in r <==> IsFirst(keys, i))
    decreases |keys|
  {
    if keys == [] then []
    else
      var n := |keys| - 1;
      var p := Firsts(keys[..n]);
      IsFirstIff(keys, n);
      assert forall i :: 0 <= i < n ==> (IsFirst(keys[..n], i) <==> IsFirst(keys, i)) by {
        forall i | 0 <= i < n {
          IsFirstInPrefix(keys, n, i);
        }
      }
      if keys[n] in keys[..n] then p else p + [n]
  }

  /** The elements of `xs` at the positions `idx`. */
  function Select<T>(xs: seq<T>, idx: seq<nat>): (r: seq<T>)
    requires forall a :: 0 <= a < |idx| ==> idx[a] < |xs|
    ensures |r| == |idx|
  {
    seq(|idx|, a requires 0 <= a < |idx| => xs[idx[a]])
  }

  /** The deduplication loop of `get_rwa_assets`: the first asset with each
      id, in input order; it raises when some asset is not a dict or has
      an unhashable id. */
  function Dedup(assets: seq<Json>): (r: Py<seq<Json>>)
    ensures r.Raises? <==> exists i :: 0 <= i < |assets| && IdKey(assets[i]).Raises?
  {
    match KeysOf(assets)
    case Raises => Raises
    case Returns(ks) => Returns(Select(assets, Firsts(ks)))
  }

  /** Each asset of `out` is an asset of `all` that no earlier asset of
      `all` shares its id with. */
  predicate KeptFirsts(all: seq<Json>, out: seq<Json>) {
    forall a :: 0 <= a < |out| ==>
      exists i :: 0 <= i < |all| && out[a] == all[i] && forall j :: 0 <= j < i ==> IdKey(all[j]) != IdKey(all[i])
  }

  /** Every id of `all` is the id of some asset of `out`. */
  predicate CoversIds(all: seq<Json>, out: seq<Json>) {
    forall i :: 0 <= i < |all| ==> exists a :: 0 <= a < |out| && IdKey(out[a]) == IdKey(all[i])
  }

  /** `get_rwa_assets()`, given each endpoint's reply: it raises when some
      collected asset is not a dict or has an unhashable id; otherwise it
      keeps the first collected asset of each id. */
  function GetRwaAssets(replies: seq<Reply>): (r: Py<seq<Json>>)
    ensures var all := CollectAssets(replies);
      r.Raises? <==> exists i :: 0 <= i < |all| && IdKey(all[i]).Raises?
    ensures r.Returns? ==> |r.value| <= |CollectAssets(replies)|
    ensures r.Returns? ==> forall x :: x in r.value ==> x in CollectAssets(replies)
    ensures r.Returns? ==> KeptFirsts(CollectAssets(replies), r.value)
    ensures r.Returns? ==> KeysOf(r.value).Returns? && Distinct(KeysOf(r.value).value)
    ensures r.Returns? ==> CoversIds(CollectAssets(replies), r.value)
  {
    var all := CollectAssets(replies);
    match Dedup(all)
    case Raises => Raises
    case Returns(kept) => DedupFacts(all); Returns(kept)
  }

  /** The facts about one deduplication that `GetRwaAssets` promises. */
  lemma DedupFacts(assets: seq<Json>)
    requires Dedup(assets).Returns?
    ensures |Dedup(assets).value| <= |assets| && (forall x :: x in Dedup(assets).value ==> x in assets)
    ensures KeptFirsts(assets, Dedup(assets).value)
    ensures KeysOf(Dedup(assets).value).Returns? && Distinct(KeysOf(Dedup(assets).value).value)
    ensures CoversIds(assets, Dedup(assets).value)
  {
    DedupKeepsElements(assets);
    DedupFirstEach(assets);
    DedupDistinct(assets);
    DedupCovers(assets);
  }

  /** Deduplication only drops assets. */
  lemma DedupKeepsElements(assets: seq<Json>)
    ensures Dedup(assets).Returns? ==> |Dedup(assets).value| <= |assets|
    ensures Dedup(assets).Returns? ==> forall x :: x in Dedup(assets).value ==> x in assets
  {
    if Dedup(assets).Raises? {
      return;
    }
    var idx := Firsts(KeysOf(assets).value);
    var out := Dedup(assets).value;
    IncreasingBounded(idx, |assets|);
    forall x | x in out
      ensures x in assets
    {
      var a :| 0 <= a < |out| && out[a] == x;
      assert assets[idx[a]] == x;
    }
  }

  /** A strictly increasing sequence of positions below `n` has at most
      `n` entries. */
  lemma {:induction false} IncreasingBounded(idx: seq<nat>, n: nat)
    requires forall a :: 0 <= a < |idx| ==> idx[a] < n
    requires forall a, b :: 0 <= a < b < |idx| ==> idx[a] < idx[b]
    ensures |idx| <= n
    decreases n
  {
    if idx != [] {
      var m := |idx| - 1;
      assert forall a :: 0 <= a < m ==> idx[..m][a] == idx[a] && idx[a] < idx[m];
      IncreasingBounded(idx[..m], idx[m]);
    }
  }

  /** The positions `0 .. n-1`. */
  function Range(n: nat): (r: seq<nat>)
    ensures |r| == n && forall a :: 0 <= a < n ==> r[a] == a
  {
    seq(n, a requires 0 <= a < n => a)
  }

  /** Pairwise distinct keys. */
  predicate Distinct(keys: seq<Key>) {
    forall a, b :: 0 <= a < b < |keys| ==> keys[a] != keys[b]
  }

  /** When no key repeats, every position is a first occurrence. */
  lemma {:induction false} FirstsOfDistinct(keys: seq<Key>)
    requires Distinct(keys)
    ensures Firsts(keys) == Range(|keys|)
    decreases |keys|
  {
    if keys != [] {
      var n := |keys| - 1;
      assert Distinct(keys[..n]);
      FirstsOfDistinct(keys[..n]);
      IsFirstIff(keys, n);
      assert Range(n) + [n] == Range(n + 1);
    }
  }

  /** Every key has a first occurrence at or before any occurrence. */
  lemma {:induction false} FirstOccurrence(keys: seq<Key>, i: nat) returns (j: nat)
    requires i < |keys|
    ensures j <= i && keys[j] == keys[i] && IsFirst(keys, j)
    decreases i
  {
    if !IsFirst(keys, i) {
      var m :| 0 <= m < i && keys[m] == keys[i];
      j := FirstOccurrence(keys, m);
    } else {
      j := i;
    }
  }

  /** The keys of the deduplicated list are the selected keys. */
  lemma KeysOfSelect(assets: seq<Json>, ks: seq<Key>, idx: seq<nat>)
    requires KeysOf(assets) == Returns(ks)
    requires forall a :: 0 <= a < |idx| ==> idx[a] < |assets|
    ensures KeysOf(Select(assets, idx)) == Returns(Select(ks, idx))
  {
    var out := Select(assets, idx);
    forall a | 0 <= a < |out|
      ensures IdKey(out[a]) == Returns(Select(ks, idx)[a])
    {
      assert out[a] == assets[idx[a]];
    }
    var r := KeysOf(out);
    assert r.Returns?;
    assert r.value == Select(ks, idx);
  }

  /** No two assets of the result share an id. */
  lemma DedupDistinct(assets: seq<Json>)
    requires Dedup(assets).Returns?
    ensures KeysOf(Dedup(assets).value).Returns?
    ensures Distinct(KeysOf(Dedup(assets).value).value)
  {
    var ks := KeysOf(assets).value;
    var idx := Firsts(ks);
    KeysOfSelect(assets, ks, idx);
    var outKeys := Select(ks, idx);
    forall a, b | 0 <= a < b < |outKeys|
      ensures outKeys[a] != outKeys[b]
    {
      assert idx[b] in idx;
      assert IsFirst(ks, idx[b]);
    }
  }

  /** The result is the input with some assets left out, order kept; an
      asset is kept exactly when no earlier asset has its id. */
  lemma DedupSubsequence(assets: seq<Json>) returns (idx: seq<nat>)
    requires Dedup(assets).Returns?
    ensures |idx| == |Dedup(assets).value|
    ensures forall a :: 0 <= a < |idx| ==> idx[a] < |assets| && Dedup(assets).value[a] == assets[idx[a]]
    ensures forall a, b :: 0 <= a < b < |idx| ==> idx[a] < idx[b]
    ensures forall i :: 0 <= i < |assets| ==>
      (i in idx <==> forall j :: 0 <= j < i ==> IdKey(assets[j]) != IdKey(assets[i]))
  {
    var ks := KeysOf(assets).value;
    idx := Firsts(ks);
    forall i | 0 <= i < |assets|
      ensures i in idx <==> forall j :: 0 <= j < i ==> IdKey(assets[j]) != IdKey(assets[i])
    {
      if !IsFirst(ks, i) {
        var j :| 0 <= j < i && ks[j] == ks[i];
        assert IdKey(assets[j]) == IdKey(assets[i]);
      }
    }
  }

  /** Each kept asset is the first asset with its id. */
  lemma DedupFirstEach(assets: seq<Json>)
    requires Dedup(assets).Returns?
    ensures forall a :: 0 <= a < |Dedup(assets).value| ==>
      exists i :: 0 <= i < |assets| && Dedup(assets).value[a] == assets[i] && forall j :: 0 <= j < i ==> IdKey(assets[j]) != IdKey(assets[i])
  {
    var idx := DedupSubsequence(assets);
    forall a | 0 <= a < |Dedup(assets).value|
      ensures exists i :: 0 <= i < |assets| && Dedup(assets).value[a] == assets[i] && forall j :: 0 <= j < i ==> IdKey(assets[j]) != IdKey(assets[i])
    {
      assert idx[a] in idx;
    }
  }

  /** Every id of the input occurs in the result. */
  lemma DedupCovers(assets: seq<Json>)
    requires Dedup(assets).Returns?
    ensures forall i :: 0 <= i < |assets| ==> exists a :: 0 <= a < |Dedup(assets).value| && IdKey(Dedup(assets).value[a]) == IdKey(assets[i])
  {
    var ks := KeysOf(assets).value;
    var idx := Firsts(ks);
    var out := Dedup(assets).value;
    forall i | 0 <= i < |assets|
      ensures exists a :: 0 <= a < |out| && IdKey(out[a]) == IdKey(assets[i])
    {
      var j := FirstOccurrence(ks, i);
      assert j in idx;
      var a :| 0 <= a < |idx| && idx[a] == j;
      assert out[a] == assets[j];
      assert IdKey(assets[j]) == Returns(ks[j]) == IdKey(assets[i]);
    }
  }

  /** Deduplicating a deduplicated list changes nothing. */
  lemma DedupIdempotent(assets: seq<Json>)
    requires Dedup(assets).Returns?
    ensures Dedup(Dedup(assets).value) == Dedup(assets)
  {
    var out := Dedup(assets).value;
    DedupDistinct(assets);
    var outKeys := KeysOf(out).value;
    FirstsOfDistinct(outKeys);
    DedupOfKeys(out, outKeys);
    assert Select(out, Range(|out|)) == out;
  }

  /** One more asset extends the keys by its own key. */
  lemma KeysOfStep(assets: seq<Json>, i: nat, ks: seq<Key>, k: Key)
    requires i < |assets| && KeysOf(assets[..i]) == Returns(ks) && IdKey(assets[i]) == Returns(k)
    ensures KeysOf(assets[..i + 1]) == Returns(ks + [k])
  {
    assert assets[..i + 1][..i] == assets[..i];
  }

  /** One more key adds its position iff the key is new. */
  lemma FirstsStep(ks: seq<Key>, k: Key)
    ensures Firsts(ks + [k]) == if k in ks then Firsts(ks) else Firsts(ks) + [|ks|]
  {
    assert (ks + [k])[..|ks|] == ks;
    assert (ks + [k])[|ks|] == k;
  }

  /** Positions below `n` select the same elements from any longer
      prefix. */
  lemma SelectPrefix<T>(xs: seq<T>, idx: seq<nat>, n: nat)
    requires n < |xs| && forall a :: 0 <= a < |idx| ==> idx[a] < n
    ensures Select(xs[..n + 1], idx) == Select(xs[..n], idx)
  {
  }

  /** Selecting one more position appends that element. */
  lemma SelectSnoc<T>(xs: seq<T>, idx: seq<nat>, i: nat)
    requires i < |xs| && forall a :: 0 <= a < |idx| ==> idx[a] < |xs|
    ensures Select(xs, idx + [i]) == Select(xs, idx) + [xs[i]]
  {
  }

  /** Moving the loop one asset further: the selection over the longer
      prefix is the old one, plus the new element when its position was
      added. */
  lemma SelectExtend<T>(xs: seq<T>, p: seq<nat>, n: nat, q: seq<nat>)
    requires n < |xs| && forall a :: 0 <= a < |p| ==> p[a] < n
    requires q == p || q == p + [n]
    ensures Select(xs[..n + 1], q) == Select(xs[..n], p) + (if q == p then [] else [xs[n]])
  {
    SelectPrefix(xs, p, n);
    if q != p {
      SelectSnoc(xs[..n + 1], p, n);
    }
  }

  /** `Dedup` is determined by the keys: it raises at an asset whose key
      raises, and otherwise selects the first occurrences. */
  lemma DedupOfKeys(assets: seq<Json>, ks: seq<Key>)
    requires KeysOf(assets) == Returns(ks)
    ensures Dedup(assets) == Returns(Select(assets, Firsts(ks)))
  {
  }

  lemma DedupRaisesAt(assets: seq<Json>, i: nat)
    requires i < |assets| && IdKey(assets[i]).Raises?
    ensures Dedup(assets) == Raises
  {
  }

  /** The deduplication loop as written, with `seen` and `unique_assets`. */
  method DedupLoop(assets: seq<Json>) returns (r: Py<seq<Json>>)
    ensures r == Dedup(assets)
  {
    var seen: set<Key> := {};
    var unique: seq<Json> := [];
    ghost var ks: seq<Key> := [];
    var i := 0;
    while i < |assets|
      invariant 0 <= i <= |assets|
      invariant KeysOf(assets[..i]) == Returns(ks)
      invariant |ks| == i
      invariant forall k :: k in seen <==> k in ks
      invariant unique == Select(assets[..i], Firsts(ks))
    {
      var key := IdKey(assets[i]);
      if key.Raises? {
        DedupRaisesAt(assets, i);
        return Raises;
      }
      KeysOfStep(assets, i, ks, key.value);
      FirstsStep(ks, key.value);
      SelectExtend(assets, Firsts(ks), i, Firsts(ks + [key.value]));
      if key.value !in seen {
        unique := unique + [assets[i]];
        seen := seen + {key.value};
      }
      ks := ks + [key.value];
      i := i + 1;
    }
    assert assets[..|assets|] == assets;
    DedupOfKeys(assets, ks);
    r := Returns(unique);
  }
}
