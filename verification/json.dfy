/** Decoded JSON values and the Python operations the resolver applies to
    them. Every rule here follows what CPython does with the objects that
    `json.loads` builds, because the resolver's branches depend on it:
    truthiness, `dict.get`, what a `for` loop visits, `in`, `int(...)`. */
module Json {
  import opened Base
  import opened Text

  /** A decoded JSON value. An object keeps its members in document order,
      and lookup takes the first member with the key (`json.loads` keeps the
      last of a repeated key; node replies do not repeat keys). */
  datatype Json =
    | JNull
    | JBool(b: bool)
    | JInt(i: int)
    | JFloat(r: real)
    | JStr(s: string)
    | JArr(items: seq<Json>)
    | JObj(fields: seq<(string, Json)>)

  /** Python's `bool(v)`. */
  predicate Truthy(v: Json) {
    match v
    case JNull => false
    case JBool(b) => b
    case JInt(i) => i != 0
    case JFloat(r) => r != 0.0
    case JStr(s) => s != ""
    case JArr(items) => items != []
    case JObj(fields) => fields != []
  }

  /** Python's `a or b`. */
  function Or(a: Json, b: Json): Json {
    if Truthy(a) then a else b
  }

  /** The value stored under `key`, if any. */
  function Lookup(fields: seq<(string, Json)>, key: string): Option<Json>
    decreases |fields|
  {
    if fields == [] then None
    else if fields[0].0 == key then Some(fields[0].1)
    else Lookup(fields[1..], key)
  }

  /** A key no member carries is absent. */
  lemma {:induction false} LookupAbsent(fields: seq<(string, Json)>, key: string)
    requires forall j :: 0 <= j < |fields| ==> fields[j].0 != key
    ensures Lookup(fields, key).None?
    decreases |fields|
  {
    if fields != [] {
      assert forall j :: 0 <= j < |fields[1..]| ==> fields[1..][j] == fields[j + 1];
      LookupAbsent(fields[1..], key);
    }
  }

  /** Lookup in a one-member object. */
  lemma LookupOne(k: string, v: Json, key: string)
    ensures Lookup([(k, v)], key) == if k == key then Some(v) else None
  {
    if k != key {
      assert [(k, v)][1..] == [];
    }
  }

  /** Lookup in a two-member object. */
  lemma LookupTwo(k1: string, v1: Json, k2: string, v2: Json, key: string)
    ensures Lookup([(k1, v1), (k2, v2)], key) ==
      if k1 == key then Some(v1) else if k2 == key then Some(v2) else None
  {
    if k1 != key {
      assert [(k1, v1), (k2, v2)][1..] == [(k2, v2)];
      LookupOne(k2, v2, key);
    }
  }

  /** `v.get(key, default)`; raises (`AttributeError`) unless `v` is a dict. */
  function GetOr(v: Json, key: string, default: Json): (r: Py<Json>)
    ensures r.Returns? <==> v.JObj?
  {
    match v
    case JObj(fields) => Returns(Lookup(fields, key).GetOr(default))
    case _ => Raises
  }

  /** `v.get(key)`. */
  function Get(v: Json, key: string): Py<Json> {
    GetOr(v, key, JNull)
  }

  /** The elements Python's `for x in v` visits: the items of a list, the
      one-character strings of a string, the keys of a dict. Anything else
      raises `TypeError`. */
  function Iterate(v: Json): (r: Py<seq<Json>>)
    ensures r.Returns? <==> (v.JArr? || v.JStr? || v.JObj?)
    ensures r.Returns? ==> (|r.value| == 0 <==> !Truthy(v))
    ensures r.Returns? && !v.JArr? ==> forall i :: 0 <= i < |r.value| ==> r.value[i].JStr?
  {
    match v
    case JArr(items) => Returns(items)
    case JStr(s) => Returns(seq(|s|, i requires 0 <= i < |s| => JStr([s[i]])))
    case JObj(fields) => Returns(seq(|fields|, i requires 0 <= i < |fields| => JStr(fields[i].0)))
    case _ => Raises
  }

  /** `int(str(v))`, with `None` for the `ValueError`. An integer comes
      back unchanged (`IntOfStrOfInteger` shows the route through its text
      agrees); the text of `None`, a bool, a float, a list or a dict never
      spells an integer (`NonNumericTextRejected` checks the first three). */
  function IntOfStr(v: Json): Option<int> {
    match v
    case JStr(s) => ParseInt(s)
    case JInt(i) => Some(i)
    case _ => None
  }

  /** Text that starts and ends with visible characters, the first of
      which is neither a sign nor a digit, is rejected by `int()`. */
  lemma LetterFirstRejected(t: string)
    requires |t| > 0 && !IsSpace(t[0]) && !IsSpace(t[|t| - 1])
    requires t[0] != '+' && t[0] != '-' && !IsDigit(t[0])
    ensures ParseInt(t) == None
  {
    StripUnpadded(t);
  }

  /** `str(None)`, `str(True)` and `str(False)` are rejected by `int()`. */
  lemma NonNumericTextRejected(t: string)
    requires t == "None" || t == "True" || t == "False"
    ensures ParseInt(t) == None
  {
    assert t[0] in {'N', 'T', 'F'} && t[|t| - 1] == 'e';
    LetterFirstRejected(t);
  }

  /** `int(str(...))` recovers every integer, whether it arrives as a JSON
      number or as its decimal text. */
  lemma IntOfStrOfInteger(i: int)
    ensures IntOfStr(JStr(IntToString(i))) == Some(i)
  {
    ParseIntShowInt(i);
  }

  /** Reading a JSON integer directly agrees with reading its text. */
  lemma IntOfStrOfNumber(i: int)
    ensures IntOfStr(JInt(i)) == ParseInt(IntToString(i))
  {
    ParseIntShowInt(i);
  }

  /** Python's `int(v)`: integers as they are, bools as 0 or 1, floats
      truncated toward zero, text parsed; `None` for the exception raised
      on anything else. */
  function ToInt(v: Json): Option<int> {
    match v
    case JInt(i) => Some(i)
    case JBool(b) => Some(if b then 1 else 0)
    case JFloat(r) => Some(if r >= 0.0 then r.Floor else -((-r).Floor))
    case JStr(s) => ParseInt(s)
    case _ => None
  }

  /** Python's `key in v` for a string `key`: membership among a dict's
      keys, equality with a list item, a substring of a string; `TypeError`
      for anything else. */
  function In(key: string, v: Json): (r: Py<bool>)
    ensures r.Returns? <==> (v.JArr? || v.JStr? || v.JObj?)
  {
    match v
    case JObj(fields) => Returns(Lookup(fields, key).Some?)
    case JArr(items) => Returns(JStr(key) in items)
    case JStr(s) => Returns(Contains(s, key))
    case _ => Raises
  }
}
