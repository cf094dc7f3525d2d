/** Selection of the endpoint list (`ENDPOINTS`): a comma-separated
    override wins when it names at least one endpoint; otherwise the
    network flag picks the built-in mainnet or testnet list. The two
    environment variables are parameters; `None` means unset. */
module Endpoints {
  import opened Base
  import opened Text

  const TestnetEndpoints: seq<string> := ["https://api.xion-testnet-2.burnt.com"]

  const MainnetEndpoints: seq<string> := [
    "https://api.mainnet.xion.burnt.com",
    "https://xion-rest.publicnode.com",
    "https://xion-mainnet-rest.chainlayer.network",
    "https://xion-mainnet-api.bigdipper.live",
    "https://xion-mainnet-api.customnode.com"
  ]

  /** The normalised network flag: unset means "mainnet"; the value is
      stripped and lower-cased. */
  function NetworkName(networkEnv: Option<string>): string {
    LowerAscii(Strip(networkEnv.GetOr("mainnet")))
  }

  /** The built-in list for the network flag. */
  function DefaultEndpoints(networkEnv: Option<string>): (r: seq<string>)
    ensures r == MainnetEndpoints || r == TestnetEndpoints
  {
    if NetworkName(networkEnv) == "mainnet" then MainnetEndpoints else TestnetEndpoints
  }

  /** Neither built-in list is empty or holds an empty entry. */
  lemma BuiltInListsNamed()
    ensures |MainnetEndpoints| > 0 && forall i :: 0 <= i < |MainnetEndpoints| ==> MainnetEndpoints[i] != ""
    ensures |TestnetEndpoints| > 0 && forall i :: 0 <= i < |TestnetEndpoints| ==> TestnetEndpoints[i] != ""
  {
    assert forall i :: 0 <= i < |MainnetEndpoints| ==> |MainnetEndpoints[i]| > 10;
    assert |TestnetEndpoints[0]| > 10;
  }

  /** The non-empty entries, in order, each as often as it occurs. */
  function KeepNonEmpty(xs: seq<string>): (r: seq<string>)
    ensures forall x :: x in r <==> x in xs && x != ""
    ensures forall x :: multiset(r)[x] == if x == "" then 0 else multiset(xs)[x]
    decreases |xs|
  {
    if xs == [] then []
    else
      assert forall i :: 1 <= i < |xs| ==> xs[i] == xs[1..][i - 1];
      assert xs == [xs[0]] + xs[1..];
      (if xs[0] != "" then [xs[0]] else []) + KeepNonEmpty(xs[1..])
  }

  /** The filter keeps the order: it distributes over concatenation. */
  lemma {:induction false} KeepNonEmptyAppend(xs: seq<string>, ys: seq<string>)
    ensures KeepNonEmpty(xs + ys) == KeepNonEmpty(xs) + KeepNonEmpty(ys)
    decreases |xs|
  {
    if xs == [] {
      assert xs + ys == ys;
    } else {
      assert (xs + ys)[0] == xs[0];
      assert (xs + ys)[1..] == xs[1..] + ys;
      KeepNonEmptyAppend(xs[1..], ys);
    }
  }

  /** Each piece stripped. */
  function StripAll(pieces: seq<string>): (r: seq<string>)
    ensures |r| == |pieces| && forall i :: 0 <= i < |pieces| ==> r[i] == Strip(pieces[i])
  {
    seq(|pieces|, i requires 0 <= i < |pieces| => Strip(pieces[i]))
  }

  /** The stripped, non-empty pieces, in order. */
  function StrippedItems(pieces: seq<string>): (r: seq<string>)
    ensures forall i :: 0 <= i < |r| ==> r[i] != ""
  {
    var r := KeepNonEmpty(StripAll(pieces));
    assert forall i :: 0 <= i < |r| ==> r[i] in r;
    r
  }

  /** Every entry is its own strip. */
  predicate AllStripped(xs: seq<string>) {
    forall i :: 0 <= i < |xs| ==> Strip(xs[i]) == xs[i]
  }

  /** An item is the strip of some piece. */
  lemma StrippedItemOrigin(pieces: seq<string>, i: nat) returns (j: nat)
    requires i < |StrippedItems(pieces)|
    ensures j < |pieces| && StrippedItems(pieces)[i] == Strip(pieces[j])
  {
    var r := StrippedItems(pieces);
    assert r[i] in r;
    var ys := StripAll(pieces);
    assert r[i] in ys;
    j :| 0 <= j < |ys| && ys[j] == r[i];
  }

  /** Every item is already stripped. */
  lemma StrippedItemsStripped(pieces: seq<string>)
    ensures AllStripped(StrippedItems(pieces))
  {
    var r := StrippedItems(pieces);
    forall i | 0 <= i < |r|
      ensures Strip(r[i]) == r[i]
    {
      var j := StrippedItemOrigin(pieces, i);
      StripIdempotent(pieces[j]);
    }
  }

  /** No item has a comma when no piece has one. */
  lemma StrippedItemsCommaFree(pieces: seq<string>)
    requires forall i :: 0 <= i < |pieces| ==> ',' !in pieces[i]
    ensures forall i :: 0 <= i < |StrippedItems(pieces)| ==> ',' !in StrippedItems(pieces)[i]
  {
    var r := StrippedItems(pieces);
    forall i | 0 <= i < |r|
      ensures ',' !in r[i]
    {
      var j := StrippedItemOrigin(pieces, i);
      StripKeepsChars(pieces[j]);
    }
  }

  /** There is an item iff some piece is not all whitespace. */
  lemma StrippedItemsNonEmpty(pieces: seq<string>)
    ensures |StrippedItems(pieces)| > 0 <==> SomePieceVisible(pieces)
  {
    var r := StrippedItems(pieces);
    var ys := StripAll(pieces);
    if |r| > 0 {
      var j := StrippedItemOrigin(pieces, 0);
      assert Visible(pieces[j]);
    }
    if SomePieceVisible(pieces) {
      var j :| 0 <= j < |pieces| && Visible(pieces[j]);
      assert ys[j] in ys && ys[j] != "";
      assert ys[j] in r;
    }
  }

  /** The endpoints an override value names: non-empty, stripped and free
      of commas. */
  function OverrideItems(overrideEnv: Option<string>): (r: seq<string>)
    ensures forall i :: 0 <= i < |r| ==> r[i] != "" && ',' !in r[i]
    ensures AllStripped(r)
  {
    match overrideEnv
    case None => []
    case Some(text) =>
      var pieces := Split(Strip(text), ',');
      StrippedItemsStripped(pieces);
      StrippedItemsCommaFree(pieces);
      StrippedItems(pieces)
  }

  /** `ENDPOINTS`: the override's items, or else the network's list. */
  function SelectEndpoints(networkEnv: Option<string>, overrideEnv: Option<string>): (r: seq<string>)
    ensures |r| > 0
    ensures forall i :: 0 <= i < |r| ==> r[i] != ""
  {
    var items := OverrideItems(overrideEnv);
    BuiltInListsNamed();
    if items != [] then items else DefaultEndpoints(networkEnv)
  }

  /** A character that names part of an endpoint: neither a separator nor
      whitespace. */
  predicate HasVisible(s: string) {
    exists i :: 0 <= i < |s| && s[i] != ',' && !IsSpace(s[i])
  }

  lemma HasVisibleCons(s: string)
    requires s != []
    ensures HasVisible(s) <==> (s[0] != ',' && !IsSpace(s[0])) || HasVisible(s[1..])
  {
    if HasVisible(s) {
      var i :| 0 <= i < |s| && s[i] != ',' && !IsSpace(s[i]);
      if i > 0 { assert s[1..][i - 1] == s[i]; }
    }
    if HasVisible(s[1..]) {
      var i :| 0 <= i < |s[1..]| && s[1..][i] != ',' && !IsSpace(s[1..][i]);
      assert s[i + 1] == s[1..][i];
    }
  }

  /** A piece that is not all whitespace. */
  predicate Visible(x: string) {
    Strip(x) != ""
  }

  /** Some piece is not all whitespace. */
  predicate SomePieceVisible(pieces: seq<string>) {
    exists j :: 0 <= j < |pieces| && Visible(pieces[j])
  }

  /** An existential over `[x] + xs` splits into `x` and the rest. */
  lemma ExistsCons<T>(x: T, xs: seq<T>, p: T -> bool)
    ensures (exists j :: 0 <= j < |[x] + xs| && p(([x] + xs)[j])) <==> p(x) || exists j :: 0 <= j < |xs| && p(xs[j])
  {
    var all := [x] + xs;
    assert all[0] == x;
    if exists j :: 0 <= j < |all| && p(all[j]) {
      var j :| 0 <= j < |all| && p(all[j]);
      if j > 0 { assert all[j] == xs[j - 1]; }
    }
    if exists j :: 0 <= j < |xs| && p(xs[j]) {
      var j :| 0 <= j < |xs| && p(xs[j]);
      assert all[j + 1] == xs[j];
    }
  }

  lemma SomePieceVisibleCons(x: string, pieces: seq<string>)
    ensures SomePieceVisible([x] + pieces) <==> Visible(x) || SomePieceVisible(pieces)
  {
    ExistsCons(x, pieces, Visible);
  }

  lemma StripConsNonEmpty(c: char, t: string)
    ensures Visible([c] + t) <==> !IsSpace(c) || Visible(t)
  {
    var s := [c] + t;
    StripEmptyIff(s);
    StripEmptyIff(t);
    assert forall i :: 1 <= i < |s| ==> s[i] == t[i - 1];
    if Strip(t) != "" {
      var i :| 0 <= i < |t| && !IsSpace(t[i]);
      assert s[i + 1] == t[i];
    }
  }

  lemma {:induction false} SplitHasVisible(s: string)
    ensures SomePieceVisible(Split(s, ',')) <==> HasVisible(s)
    decreases |s|
  {
    if s == [] {
      assert Split(s, ',') == [""];
      assert SomePieceVisible([""]) <==> Visible("") || SomePieceVisible([]) by {
        SomePieceVisibleCons("", []);
      }
    } else {
      var rest := Split(s[1..], ',');
      SplitHasVisible(s[1..]);
      HasVisibleCons(s);
      if s[0] == ',' {
        assert Split(s, ',') == [""] + rest;
        SomePieceVisibleCons("", rest);
      } else {
        assert Split(s, ',') == [[s[0]] + rest[0]] + rest[1..];
        assert rest == [rest[0]] + rest[1..];
        SomePieceVisibleCons([s[0]] + rest[0], rest[1..]);
        SomePieceVisibleCons(rest[0], rest[1..]);
        StripConsNonEmpty(s[0], rest[0]);
      }
    }
  }

  /** A slice with only whitespace around it has a visible character iff
      the whole text has one. */
  lemma SliceHasVisible(s: string, t: string, lo: nat)
    requires lo + |t| <= |s| && t == s[lo..lo + |t|]
    requires forall i :: 0 <= i < lo ==> IsSpace(s[i])
    requires forall i :: lo + |t| <= i < |s| ==> IsSpace(s[i])
    ensures HasVisible(t) <==> HasVisible(s)
  {
    if HasVisible(s) {
      var i :| 0 <= i < |s| && s[i] != ',' && !IsSpace(s[i]);
      assert t[i - lo] == s[i];
    }
    if HasVisible(t) {
      var i :| 0 <= i < |t| && t[i] != ',' && !IsSpace(t[i]);
      assert s[lo + i] == t[i];
    }
  }

  lemma StripHasVisible(s: string)
    ensures HasVisible(Strip(s)) <==> HasVisible(s)
  {
    var lo := StripBounds(s);
    SliceHasVisible(s, Strip(s), lo);
  }

  /** The override takes precedence exactly when it holds a character that
      is neither a comma nor whitespace. */
  lemma OverrideWinsIff(networkEnv: Option<string>, overrideText: string)
    ensures HasVisible(overrideText) ==>
              SelectEndpoints(networkEnv, Some(overrideText)) == OverrideItems(Some(overrideText))
    ensures !HasVisible(overrideText) ==>
              SelectEndpoints(networkEnv, Some(overrideText)) == DefaultEndpoints(networkEnv)
  {
    var t := Strip(overrideText);
    var pieces := Split(t, ',');
    SplitHasVisible(t);
    StrippedItemsNonEmpty(pieces);
    StripHasVisible(overrideText);
    assert OverrideItems(Some(overrideText)) == StrippedItems(pieces);
  }

  /** The override round trip: joining the split pieces gives back the
      stripped override text. */
  lemma OverrideSplitLosesNothing(overrideText: string)
    ensures Join(Split(Strip(overrideText), ','), ',') == Strip(overrideText)
  {
    JoinSplit(Strip(overrideText), ',');
  }

  /** Lower-casing leaves text without upper-case ASCII letters alone. */
  lemma LowerAsciiOfLower(m: string)
    requires forall i :: 0 <= i < |m| ==> !('A' <= m[i] <= 'Z')
    ensures LowerAscii(m) == m
  {
  }

  /** An unset flag normalises to "mainnet". */
  lemma UnsetFlagIsMainnet()
    ensures NetworkName(None) == "mainnet"
  {
    var m := "mainnet";
    StripUnpadded(m);
    LowerAsciiOfLower(m);
  }

  /** An unset override and an unset flag select the mainnet list. */
  lemma UnsetSelectsMainnet()
    ensures SelectEndpoints(None, None) == MainnetEndpoints
  {
    UnsetFlagIsMainnet();
    assert OverrideItems(None) == [];
  }

  lemma TrimPaddedFlag(m: string, t: string, u: string)
    requires m == " MainNet\n" && t == "MainNet\n" && u == "MainNet"
    ensures TrimStart(m) == t && TrimEnd(t) == u
  {
    assert IsSpace(m[0]);
    assert m[1..] == t;
    assert !IsSpace(t[0]);
    assert t[..7] == u;
  }

  /** The flag is compared after stripping and lower-casing. */
  lemma PaddedUpperCaseFlagIsMainnet()
    ensures NetworkName(Some(" MainNet\n")) == "mainnet"
  {
    var u := "MainNet";
    TrimPaddedFlag(" MainNet\n", "MainNet\n", u);
    assert LowerAscii(u) == "mainnet" by {
      assert LowerChar('M') == 'm' && LowerChar('N') == 'n';
      assert forall i :: 0 <= i < |u| ==> LowerAscii(u)[i] == LowerChar(u[i]);
    }
  }

  /** A flag set to the empty string is not "mainnet": the testnet list. */
  lemma EmptyFlagSelectsTestnet()
    ensures SelectEndpoints(Some(""), None) == TestnetEndpoints
  {
    assert NetworkName(Some("")) == "";
  }
}
