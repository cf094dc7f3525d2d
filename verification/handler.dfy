/** The decision logic of the `/validate` page (`validate_html`): the
    invalid-address short-circuit, the explorer fallback when the resolver
    found nothing, which scraped rows count towards the XION balance, and
    the result/status mapping. The resolver's answer and the scraper's
    outcome are given values. */
module Handler {
  import opened Base
  import opened Text
  import opened Address
  import opened Sums
  import opened Resolver

  /** One scraped explorer row; the scraper only emits rows whose symbol
      and amount are non-empty stripped texts. */
  datatype AssetRow = AssetRow(symbol: string, amount: string)

  /** What `get_xion_explorer_assets` did: raised, or returned its rows. */
  datatype Scrape = ScrapeRaised | Scraped(rows: seq<AssetRow>)

  /** The context the page is rendered with. Balances are exact reals:
      float rounding and the `'{uxion_val} XION'` formatting are not
      modelled. */
  datatype Page =
    | InvalidPage(address: string, result: string, status: string, score: int)
    | ResultPage(
        result: string,
        status: string,
        debugReason: string,
        endpoint: Option<string>,
        address: string,
        balance: real,
        txCount: int,
        failedTxs: int,
        anomaly: bool,
        balances: seq<BalanceRow>,
        fallbackAssets: Option<seq<AssetRow>>)

  /** The resolver's "uxion" figure, in XION. */
  function Uxion(info: WalletInfo): real {
    info.total as real / 1000000.0
  }

  /** The fallback fires only when the resolver reports no balance and no
      transactions. */
  predicate FallbackFires(info: WalletInfo) {
    Uxion(info) == 0.0 && info.txCount == 0
  }

  /** The row filter: "XION" occurs in the symbol, and the amount with ","
      and "." removed is a non-empty run of digits. */
  predicate Counts(row: AssetRow) {
    Contains(row.symbol, "XION") && IsAllDigits(RemoveChar(RemoveChar(row.amount, ','), '.'))
  }

  function Pow10(n: nat): (r: nat)
    ensures r > 0
  {
    if n == 0 then 1 else 10 * Pow10(n - 1)
  }

  /** The position of the first `c` in `t`. */
  function IndexOf(t: string, c: char): (k: nat)
    requires c in t
    ensures k < |t| && t[k] == c && c !in t[..k]
    decreases |t|
  {
    if t[0] == c then 0
    else
      var k := IndexOf(t[1..], c);
      assert t[..k + 1] == [t[0]] + t[1..][..k];
      k + 1
  }

  predicate DigitsOrDots(t: string) {
    forall i :: 0 <= i < |t| ==> IsDigit(t[i]) || t[i] == '.'
  }

  /** Some character is a digit. */
  predicate HasDigit(t: string) {
    exists i :: 0 <= i < |t| && IsDigit(t[i])
  }

  /** `float(t)` for a text of digits and dots holding at least one digit:
      its decimal value, or `None` for the `ValueError` raised when there
      are two dots or more. */
  function ParseDecimal(t: string): (r: Option<real>)
    requires DigitsOrDots(t) && HasDigit(t)
    ensures r.None? <==> multiset(t)['.'] > 1
  {
    if multiset(t)['.'] > 1 then None
    else if '.' !in t then
      Some(DigitsValue(t) as real)
    else
      var k := IndexOf(t, '.');
      assert t == t[..k] + [t[k]] + t[k + 1..];
      assert multiset(t)['.'] == multiset(t[..k])['.'] + 1 + multiset(t[k + 1..])['.'];
      assert multiset(t[k + 1..])['.'] == 0;
      Some(DecimalOf(t[..k], t[k + 1..]))
  }

  /** Digits, possibly none. */
  predicate Digits(s: string) {
    forall i :: 0 <= i < |s| ==> IsDigit(s[i])
  }

  /** The number written `ip.fp`. */
  function DecimalOf(ip: string, fp: string): real
    requires Digits(ip) && Digits(fp)
  {
    DigitsValue(ip) as real + DigitsValue(fp) as real / Pow10(|fp|) as real
  }

  /** What one row contributes to the comprehension: skipped (`None`),
      a value, or the exception of `float(...)`, raised when the counted
      amount without its commas has two dots or more. */
  function RowValue(row: AssetRow): (r: Py<Option<real>>)
    ensures r == Returns(None) <==> !Counts(row)
    ensures r.Raises? <==> Counts(row) && multiset(RemoveChar(row.amount, ','))['.'] > 1
  {
    if !Counts(row) then Returns(None)
    else
      var t := RemoveChar(row.amount, ',');
      assert DigitsOrDots(t) && HasDigit(t) by {
        DigitsOrDotsAfterFilter(row.amount);
      }
      match ParseDecimal(t)
      case None => Raises
      case Some(v) => Returns(Some(v))
  }

  /** The rows the filter keeps, in order. */
  function CountedRows(rows: seq<AssetRow>): (r: seq<AssetRow>)
    ensures forall i :: 0 <= i < |r| ==> Counts(r[i])
    decreases |rows|
  {
    if rows == [] then []
    else (if Counts(rows[0]) then [rows[0]] else []) + CountedRows(rows[1..])
  }

  /** `vals` are the values of the rows `counted`, one each, in order. */
  predicate ValuesOf(vals: seq<real>, counted: seq<AssetRow>) {
    |vals| == |counted| && forall i :: 0 <= i < |vals| ==> RowValue(counted[i]) == Returns(Some(vals[i]))
  }

  /** A row in front adds its value, if it has one, in front. */
  lemma ValuesOfCons(row: AssetRow, v: Option<real>, vs: seq<real>, counted: seq<AssetRow>)
    requires RowValue(row) == Returns(v) && ValuesOf(vs, counted)
    ensures ValuesOf((if v.Some? then [v.value] else []) + vs, (if Counts(row) then [row] else []) + counted)
  {
    if v.Some? {
      var vals, rows := [v.value] + vs, [row] + counted;
      forall i | 0 <= i < |vals|
        ensures RowValue(rows[i]) == Returns(Some(vals[i]))
      {
        if i > 0 {
          assert vals[i] == vs[i - 1] && rows[i] == counted[i - 1];
        }
      }
    } else {
      assert [] + vs == vs && [] + counted == counted;
    }
  }

  /** Some row of a non-empty list raises iff the first one does or some
      later one does. */
  lemma SomeRowRaisesCons(rows: seq<AssetRow>)
    requires rows != []
    ensures (exists i :: 0 <= i < |rows| && RowValue(rows[i]).Raises?) <==>
      RowValue(rows[0]).Raises? || exists i :: 0 <= i < |rows[1..]| && RowValue(rows[1..][i]).Raises?
  {
    assert forall i :: 1 <= i < |rows| ==> rows[i] == rows[1..][i - 1];
  }

  /** The `uxion_balances` comprehension: it raises iff some row raises,
      and otherwise holds one value per counted row, in order. */
  function XionValues(rows: seq<AssetRow>): (r: Py<seq<real>>)
    ensures r.Raises? <==> exists i :: 0 <= i < |rows| && RowValue(rows[i]).Raises?
    ensures r.Returns? ==> ValuesOf(r.value, CountedRows(rows))
    decreases |rows|
  {
    if rows == [] then Returns([])
    else
      SomeRowRaisesCons(rows);
      match RowValue(rows[0])
      case Raises => Raises
      case Returns(v) =>
        match XionValues(rows[1..])
        case Raises => Raises
        case Returns(vs) =>
          ValuesOfCons(rows[0], v, vs, CountedRows(rows[1..]));
          Returns((if v.Some? then [v.value] else []) + vs)
  }

  function SumReals(xs: seq<real>): real
    decreases |xs|
  {
    if xs == [] then 0.0 else xs[0] + SumReals(xs[1..])
  }

  /** The balance and `fallback_assets` after the fallback block. */
  function Fallback(info: WalletInfo, scrape: Scrape): (Option<seq<AssetRow>>, real) {
    if !FallbackFires(info) then (None, Uxion(info))
    else
      match scrape
      case ScrapeRaised => (None, Uxion(info))
      case Scraped(rows) =>
        if rows == [] then (Some(rows), Uxion(info))
        else
          match XionValues(rows)
          case Raises => (None, Uxion(info))
          case Returns(vals) => (Some(rows), if vals != [] then SumReals(vals) else Uxion(info))
  }

  /** `validate_html(wallet_addr)`, with `info` the answer of
      `get_wallet_info(wallet_addr)` and `scrape` the explorer outcome. The
      address check is the pattern as written. */
  function ValidateHtml(addr: string, info: WalletInfo, scrape: Scrape): (page: Page)
    ensures !ValidateWalletAddressAsWritten(addr) ==>
      page == InvalidPage(addr, "Invalid address format (xion1…)", "invalid_address", 1)
    ensures ValidateWalletAddressAsWritten(addr) ==>
      && page.ResultPage?
      && (page.result == "OK" <==> info.status in {StatusOk, StatusPartial})
      && (page.result != "OK" ==> page.result == page.status)
      && page.status == StatusName(info.status)
      && page.debugReason != ""
      && (info.debugReason != "" ==> page.debugReason == info.debugReason)
      && page.endpoint == info.endpoint && page.address == info.address
      && page.anomaly == info.anomaly
      && page.txCount == info.txCount
      && page.failedTxs == info.failedTxs
      && page.balances == info.balances
      && (!FallbackFires(info) ==> page.balance == Uxion(info) && page.fallbackAssets.None?)
  {
    if !ValidateWalletAddressAsWritten(addr) then
      InvalidPage(addr, "Invalid address format (xion1…)", "invalid_address", 1)
    else
      var (assets, balance) := Fallback(info, scrape);
      var debug :=
        if info.debugReason != "" then info.debugReason
        else if info.reason.Some? && info.reason.value != "" then info.reason.value
        else "-";
      ResultPage(
        if info.status in {StatusOk, StatusPartial} then "OK" else StatusName(info.status),
        StatusName(info.status), debug, info.endpoint, info.address, balance,
        info.txCount, info.failedTxs, info.anomaly, info.balances, assets)
  }

  /** The page with the intended address check: a text that fails it
      gets the invalid-address page; every other address is rendered as by
      `ValidateHtml`. */
  function ValidateHtmlIntended(addr: string, info: WalletInfo, scrape: Scrape): (page: Page)
    ensures page.InvalidPage? <==> !ValidateWalletAddress(addr)
    ensures !ValidateWalletAddress(addr) ==>
      page == InvalidPage(addr, "Invalid address format (xion1…)", "invalid_address", 1)
    ensures ValidateWalletAddress(addr) ==> page == ValidateHtml(addr, info, scrape)
  {
    AsWrittenAdmitsTrailingNewline(addr);
    if !ValidateWalletAddress(addr) then
      InvalidPage(addr, "Invalid address format (xion1…)", "invalid_address", 1)
    else ValidateHtml(addr, info, scrape)
  }

  /** The two pages differ only for texts that end in a newline. */
  lemma ValidateHtmlIntendedAgrees(addr: string, info: WalletInfo, scrape: Scrape)
    requires addr == [] || addr[|addr| - 1] != '\n'
    ensures ValidateHtmlIntended(addr, info, scrape) == ValidateHtml(addr, info, scrape)
  {
    AsWrittenAdmitsTrailingNewline(addr);
  }

  /** `"xion1" + 20×"q" + "\n"` gets a result page as written, and the
      invalid-address page with the intended check. */
  lemma NewlineAddressRendered(info: WalletInfo, scrape: Scrape)
    ensures ValidateHtml("xion1qqqqqqqqqqqqqqqqqqqq\n", info, scrape).ResultPage?
    ensures ValidateHtmlIntended("xion1qqqqqqqqqqqqqqqqqqqq\n", info, scrape).InvalidPage?
  {
    TrailingNewlineCounterexample();
  }

  // ---------------------------------------------------------------
  // Properties
  // ---------------------------------------------------------------

  /** After removing `c`, a character is present iff it was present and is
      not `c`. */
  lemma RemoveCharMembership(s: string, c: char, x: char)
    ensures x in RemoveChar(s, c) <==> x in s && x != c
  {
    assert x in RemoveChar(s, c) <==> x in multiset(RemoveChar(s, c));
    assert x in s <==> x in multiset(s);
  }

  /** The amount filter, without the removals: a row's amount passes iff
      it holds a digit and nothing but digits, commas and dots. */
  lemma AmountFilterIff(a: string)
    ensures IsAllDigits(RemoveChar(RemoveChar(a, ','), '.')) <==>
      (exists i :: 0 <= i < |a| && IsDigit(a[i]))
      && (forall i :: 0 <= i < |a| ==> IsDigit(a[i]) || a[i] == ',' || a[i] == '.')
  {
    var t := RemoveChar(RemoveChar(a, ','), '.');
    forall x
      ensures x in t <==> x in a && x != ',' && x != '.'
    {
      RemoveCharMembership(RemoveChar(a, ','), '.', x);
      RemoveCharMembership(a, ',', x);
    }
    DigitsAfterRemoval(a, t);
  }

  /** When `t` holds exactly the characters of `a` other than ',' and '.',
      `t` is a non-empty digit string iff `a` holds a digit and nothing but
      digits, commas and dots. */
  lemma DigitsAfterRemoval(a: string, t: string)
    requires forall x :: x in t <==> x in a && x != ',' && x != '.'
    ensures IsAllDigits(t) <==>
      (exists i :: 0 <= i < |a| && IsDigit(a[i]))
      && (forall i :: 0 <= i < |a| ==> IsDigit(a[i]) || a[i] == ',' || a[i] == '.')
  {
    if IsAllDigits(t) {
      assert t[0] in t;
      assert exists i :: 0 <= i < |a| && a[i] == t[0];
      forall i | 0 <= i < |a|
        ensures IsDigit(a[i]) || a[i] == ',' || a[i] == '.'
      {
        if a[i] != ',' && a[i] != '.' {
          assert a[i] in t;
        }
      }
    }
    if (exists i :: 0 <= i < |a| && IsDigit(a[i]))
       && (forall i :: 0 <= i < |a| ==> IsDigit(a[i]) || a[i] == ',' || a[i] == '.') {
      var i :| 0 <= i < |a| && IsDigit(a[i]);
      assert a[i] in t;
      forall j | 0 <= j < |t|
        ensures IsDigit(t[j])
      {
        assert t[j] in t;
      }
    }
  }

  /** What `float` receives in a counted row is digits and dots. */
  lemma DigitsOrDotsAfterFilter(a: string)
    requires IsAllDigits(RemoveChar(RemoveChar(a, ','), '.'))
    ensures DigitsOrDots(RemoveChar(a, ',')) && HasDigit(RemoveChar(a, ','))
  {
    AmountFilterIff(a);
    var t := RemoveChar(a, ',');
    var d :| 0 <= d < |a| && IsDigit(a[d]);
    RemoveCharMembership(a, ',', a[d]);
    var e :| 0 <= e < |t| && t[e] == a[d];
    forall j | 0 <= j < |t|
      ensures IsDigit(t[j]) || t[j] == '.'
    {
      assert t[j] in t;
      RemoveCharMembership(a, ',', t[j]);
    }
  }

  /** The explorer balance replaces the resolver's exactly when the
      fallback fires, the scrape succeeds, no counted amount fails to
      parse, and at least one row counts. */
  lemma BalanceReplacedIff(addr: string, info: WalletInfo, scrape: Scrape)
    requires ValidateWalletAddressAsWritten(addr)
    ensures var page := ValidateHtml(addr, info, scrape);
      (FallbackFires(info) && scrape.Scraped? && XionValues(scrape.rows).Returns? && XionValues(scrape.rows).value != [])
      ==> page.balance == SumReals(XionValues(scrape.rows).value)
    ensures var page := ValidateHtml(addr, info, scrape);
      !(FallbackFires(info) && scrape.Scraped? && XionValues(scrape.rows).Returns? && XionValues(scrape.rows).value != [])
      ==> page.balance == Uxion(info)
  {
  }

  /** Some row counts iff the comprehension keeps a value (when it does
      not raise). */
  lemma ValuesNonEmptyIff(rows: seq<AssetRow>)
    requires XionValues(rows).Returns?
    ensures XionValues(rows).value != [] <==> exists i :: 0 <= i < |rows| && Counts(rows[i])
  {
    CountedRowsNonEmpty(rows);
  }

  /** Some row is kept iff some row counts. */
  lemma {:induction false} CountedRowsNonEmpty(rows: seq<AssetRow>)
    ensures CountedRows(rows) != [] <==> exists i :: 0 <= i < |rows| && Counts(rows[i])
    decreases |rows|
  {
    if rows != [] {
      CountedRowsNonEmpty(rows[1..]);
      assert forall i :: 0 <= i < |rows[1..]| ==> rows[1..][i] == rows[i + 1];
      if !Counts(rows[0]) {
        assert forall i :: 1 <= i < |rows| ==> rows[i] == rows[1..][i - 1];
      }
    }
  }

  /** A failure inside the fallback (the scraper raising, or a counted
      amount such as "1.2.3" that `float` rejects) keeps the balance and
      leaves `fallback_assets` as `None`. */
  lemma FallbackErrorKeepsBalance(addr: string, info: WalletInfo, scrape: Scrape)
    requires ValidateWalletAddressAsWritten(addr) && FallbackFires(info)
    requires scrape.ScrapeRaised? || (scrape.rows != [] && XionValues(scrape.rows).Raises?)
    ensures ValidateHtml(addr, info, scrape).balance == Uxion(info)
    ensures ValidateHtml(addr, info, scrape).fallbackAssets.None?
  {
  }

  /** Removing a character commutes with concatenation. */
  lemma {:induction false} RemoveCharAppend(x: string, y: string, c: char)
    ensures RemoveChar(x + y, c) == RemoveChar(x, c) + RemoveChar(y, c)
    decreases |x|
  {
    if x != [] {
      var head := if x[0] == c then [] else [x[0]];
      assert (x + y)[0] == x[0];
      assert (x + y)[1..] == x[1..] + y;
      RemoveCharAppend(x[1..], y, c);
      assert RemoveChar(x + y, c) == head + RemoveChar(x[1..] + y, c);
      assert RemoveChar(x, c) == head + RemoveChar(x[1..], c);
    } else {
      assert x + y == y;
    }
  }

  /** The value of a concatenated digit run: the head shifted by the
      length of the tail, plus the tail. */
  lemma {:induction false} DigitsValueAppend(x: string, y: string)
    requires IsAllDigits(x) && (y == [] || IsAllDigits(y))
    ensures forall i :: 0 <= i < |x + y| ==> IsDigit((x + y)[i])
    ensures DigitsValue(x + y) == DigitsValue(x) * Pow10(|y|) + DigitsValue(y)
    decreases |y|
  {
    if y == [] {
      assert x + y == x;
    } else {
      var y' := y[..|y| - 1];
      var d := y[|y| - 1];
      assert IsDigit(d);
      assert (x + y)[..|x + y| - 1] == x + y';
      assert (x + y)[|x + y| - 1] == d;
      DigitsValueAppend(x, y');
      var a, p, head, tail := DigitsValue(x), Pow10(|y'|), DigitsValue(x + y'), DigitsValue(y');
      assert head == a * p + tail;
      assert DigitsValue(x + y) == 10 * head + DigitValue(d);
      assert DigitsValue(y) == 10 * tail + DigitValue(d);
      assert Pow10(|y|) == 10 * p;
      MulAssoc(10, a, p);
      assert a * Pow10(|y|) == a * (10 * p);
    }
  }

  lemma MulAssoc(a: int, b: int, c: int)
    ensures a * (b * c) == b * (a * c)
  {
  }

  /** The number written by the digit groups `x` and `y`, in that order. */
  function GroupedValue(x: string, y: string): nat
    requires IsAllDigits(x) && IsAllDigits(y)
  {
    DigitsValue(x) * Pow10(|y|) + DigitsValue(y)
  }

  /** An amount with a thousands separator, such as "12,500", counts with
      the value of its digits: the comma is dropped before `float`. */
  lemma SeparatedDigitsRow(symbol: string, x: string, y: string)
    requires Contains(symbol, "XION") && IsAllDigits(x) && IsAllDigits(y)
    ensures XionValues([AssetRow(symbol, x + "," + y)]) == Returns([GroupedValue(x, y) as real])
  {
    var amount, xy := x + "," + y, x + y;
    DigitsValueAppend(x, y);
    assert IsAllDigits(xy);
    assert ',' !in x && ',' !in y;
    CommaDropped(x, y);
    DigitsAfterCommas(symbol, amount, xy);
    assert DigitsValue(xy) == GroupedValue(x, y);
    CountedRow(AssetRow(symbol, amount), GroupedValue(x, y) as real);
  }

  /** An amount whose comma-free form is a digit run counts with the value
      of that run. */
  lemma DigitsAfterCommas(symbol: string, amount: string, digits: string)
    requires Contains(symbol, "XION") && IsAllDigits(digits) && RemoveChar(amount, ',') == digits
    ensures RowValue(AssetRow(symbol, amount)) == Returns(Some(DigitsValue(digits) as real))
  {
    assert ',' !in digits;
    RemoveCharAbsent(digits, ',');
    SameWithoutCommas(AssetRow(symbol, amount), AssetRow(symbol, digits));
    PlainDigitsValue(AssetRow(symbol, digits));
  }

  /** One counted row with value `v` makes the comprehension `[v]`. */
  lemma CountedRow(row: AssetRow, v: real)
    requires RowValue(row) == Returns(Some(v))
    ensures XionValues([row]) == Returns([v])
  {
    SingleRow(row);
  }

  /** An amount with a thousands separator and a fraction, such as
      "12,500.00", counts with its decimal value. */
  lemma SeparatedDecimalRow(symbol: string, x: string, y: string, z: string)
    requires Contains(symbol, "XION") && IsAllDigits(x) && IsAllDigits(y) && IsAllDigits(z)
    ensures Digits(x + y)
    ensures RowValue(AssetRow(symbol, x + "," + y + "." + z)) == Returns(Some(DecimalOf(x + y, z)))
    ensures XionValues([AssetRow(symbol, x + "," + y + "." + z)]) == Returns([DecimalOf(x + y, z)])
  {
    var amount, w := x + "," + y + "." + z, y + "." + z;
    assert amount == x + "," + w;
    assert ',' !in x && ',' !in w;
    CommaDropped(x, w);
    assert x + w == (x + y) + "." + z;
    DigitsValueAppend(x, y);
    DecimalRow(symbol, amount, x + y, z);
  }

  /** An amount whose comma-free form is "<digits>.<digits>" counts with
      its decimal value. */
  lemma DecimalRow(symbol: string, amount: string, ip: string, fp: string)
    requires Contains(symbol, "XION") && IsAllDigits(ip) && IsAllDigits(fp)
    requires RemoveChar(amount, ',') == ip + "." + fp
    ensures RowValue(AssetRow(symbol, amount)) == Returns(Some(DecimalOf(ip, fp)))
    ensures XionValues([AssetRow(symbol, amount)]) == Returns([DecimalOf(ip, fp)])
  {
    var t := ip + "." + fp;
    DecimalValue(ip, fp);
    assert '.' !in ip && '.' !in fp;
    CharDropped(ip, fp, '.');
    assert "." == ['.'];
    DigitsValueAppend(ip, fp);
    assert IsAllDigits(RemoveChar(t, '.'));
    CountedDecimal(AssetRow(symbol, amount), t, DecimalOf(ip, fp));
    CountedRow(AssetRow(symbol, amount), DecimalOf(ip, fp));
  }

  /** A counted row whose comma-free amount `float` reads as `v`
      contributes `v`. */
  lemma CountedDecimal(row: AssetRow, t: string, v: real)
    requires Counts(row) && RemoveChar(row.amount, ',') == t
    requires DigitsOrDots(t) && HasDigit(t) && ParseDecimal(t) == Some(v)
    ensures RowValue(row) == Returns(Some(v))
  {
  }

  /** A symbol without the letter 'X' never counts. */
  lemma {:induction false} NoLeadingLetter(s: string, sub: string)
    requires |sub| > 0 && sub[0] !in s
    ensures !Contains(s, sub)
    decreases |s|
  {
    if s != [] {
      assert s[0] != sub[0];
      assert !StartsWith(s, sub);
      assert forall c :: c in s[1..] ==> c in s;
      NoLeadingLetter(s[1..], sub);
    }
  }

  /** The "OTHER" row is skipped. */
  lemma OtherSkipped()
    ensures !Counts(AssetRow("OTHER", "3"))
  {
    var s := "OTHER";
    assert forall i :: 0 <= i < |s| ==> s[i] != 'X';
    NoLeadingLetter(s, "XION");
  }

  /** A counted row followed by a skipped one contributes just its
      value. */
  lemma CountedThenSkipped(a: AssetRow, b: AssetRow, v: real)
    requires RowValue(a) == Returns(Some(v)) && !Counts(b)
    ensures XionValues([a, b]) == Returns([v])
  {
    assert RowValue(b) == Returns(None);
    SingleRow(b);
    assert XionValues([b]) == Returns([]);
    assert [a, b][0] == a && [a, b][1..] == [b];
    assert [v] + [] == [v];
  }

  /** The digit groups of "12,500.00" read as 12500.0. */
  lemma TwelveThousandFiveHundredDigits()
    ensures Digits("12" + "500") && DecimalOf("12" + "500", "00") == 12500.0
  {
    var x, y, z := "12", "500", "00";
    assert IsAllDigits(x) && IsAllDigits(y) && IsAllDigits(z);
    assert DigitsValue(x) == 12 by {
      assert x[..1] == "1" && "1"[..0] == [];
    }
    assert DigitsValue(y) == 500 by {
      assert y[..2] == "50" && "50"[..1] == "5" && "5"[..0] == [];
    }
    assert DigitsValue(z) == 0 by {
      assert z[..1] == "0" && "0"[..0] == [];
    }
    DigitsValueAppend(x, y);
    assert Pow10(3) == 1000;
  }

  /** "12,500.00" in a "XION" row contributes 12500.0. */
  lemma TwelveThousandFiveHundred()
    ensures RowValue(AssetRow("XION", "12,500.00")) == Returns(Some(12500.0))
  {
    ContainsAt("XION", "XION", 0);
    var x, y, z := "12", "500", "00";
    assert IsAllDigits(x) && IsAllDigits(y) && IsAllDigits(z);
    assert x + "," + y + "." + z == "12,500.00";
    SeparatedDecimalRow("XION", x, y, z);
    TwelveThousandFiveHundredDigits();
  }

  /** The documented explorer rows "12,500.00" (XION) and "3" (OTHER)
      give the values [12500.0]: the second row does not count. */
  lemma DocumentedExplorerRows()
    ensures XionValues([AssetRow("XION", "12,500.00"), AssetRow("OTHER", "3")]) == Returns([12500.0])
  {
    TwelveThousandFiveHundred();
    OtherSkipped();
    CountedThenSkipped(AssetRow("XION", "12,500.00"), AssetRow("OTHER", "3"), 12500.0);
  }

  /** A wallet the resolver found empty shows the explorer's XION amount
      and all scraped rows; the anomaly flag is the resolver's, unchanged. */
  lemma ExplorerBalanceShown(addr: string, info: WalletInfo)
    requires ValidateWalletAddressAsWritten(addr) && FallbackFires(info)
    ensures var rows := [AssetRow("XION", "12,500.00"), AssetRow("OTHER", "3")];
      var page := ValidateHtml(addr, info, Scraped(rows));
      page.balance == 12500.0 && page.fallbackAssets == Some(rows) && page.anomaly == info.anomaly
  {
    DocumentedFallback(info);
  }

  /** The fallback block on the documented rows. */
  lemma DocumentedFallback(info: WalletInfo)
    requires FallbackFires(info)
    ensures var rows := [AssetRow("XION", "12,500.00"), AssetRow("OTHER", "3")];
      Fallback(info, Scraped(rows)) == (Some(rows), 12500.0)
  {
    var rows := [AssetRow("XION", "12,500.00"), AssetRow("OTHER", "3")];
    DocumentedExplorerRows();
    FallbackOfValues(info, rows, [12500.0]);
    assert SumReals([12500.0]) == 12500.0;
  }

  /** Scraped rows whose comprehension keeps some values replace the
      balance with their sum. */
  lemma FallbackOfValues(info: WalletInfo, rows: seq<AssetRow>, vals: seq<real>)
    requires FallbackFires(info) && rows != [] && XionValues(rows) == Returns(vals) && vals != []
    ensures Fallback(info, Scraped(rows)) == (Some(rows), SumReals(vals))
  {
  }

  /** Removing `c` from `x + [c] + y` leaves `x + y` when neither part
      holds it. */
  lemma CharDropped(x: string, y: string, c: char)
    requires c !in x && c !in y
    ensures RemoveChar(x + [c] + y, c) == x + y
  {
    var head := x + [c];
    RemoveCharAppend(head, y, c);
    RemoveCharAppend(x, [c], c);
    RemoveCharAbsent(x, c);
    RemoveCharAbsent(y, c);
    assert RemoveChar([c], c) == [] by {
      assert [c][1..] == [];
    }
    assert RemoveChar(head, c) == x + [] == x;
  }

  /** Removing the commas from `x + "," + y` leaves `x + y` when neither
      part holds one. */
  lemma CommaDropped(x: string, y: string)
    requires ',' !in x && ',' !in y
    ensures RemoveChar(x + "," + y, ',') == x + y
  {
    assert "," == [','];
    CharDropped(x, y, ',');
  }

  /** `float` of "<digits>.<digits>": the integer part plus the fraction
      scaled by the length of the fractional digits. */
  lemma DecimalValue(ip: string, fp: string)
    requires IsAllDigits(ip) && IsAllDigits(fp)
    ensures DigitsOrDots(ip + "." + fp) && HasDigit(ip + "." + fp)
    ensures ParseDecimal(ip + "." + fp) == Some(DecimalOf(ip, fp))
  {
    var t := ip + "." + fp;
    var n := |ip|;
    assert t[n] == '.' && t[..n] == ip && t[n + 1..] == fp;
    assert t[0] == ip[0];
    SingleDot(t, n);
  }

  /** With one dot, at `k`, between two digit runs, `float` reads the digits before it as
      the integer part and those after it as the fraction. */
  lemma SingleDot(t: string, k: nat)
    requires k < |t| && t[k] == '.'
    requires IsAllDigits(t[..k]) && IsAllDigits(t[k + 1..])
    ensures DigitsOrDots(t) && HasDigit(t)
    ensures ParseDecimal(t) == Some(DecimalOf(t[..k], t[k + 1..]))
  {
    var ip, fp := t[..k], t[k + 1..];
    assert t[0] == ip[0];
    assert t == ip + ['.'] + fp;
    assert '.' !in ip && '.' !in fp;
    assert multiset(t)['.'] == 1 by {
      assert multiset(t) == multiset(ip) + multiset{'.'} + multiset(fp);
    }
    var i := IndexOf(t, '.');
    assert i == k;
  }

  /** A row's contribution depends on its amount only through the amount
      with its commas removed. */
  lemma SameWithoutCommas(r1: AssetRow, r2: AssetRow)
    requires r1.symbol == r2.symbol && RemoveChar(r1.amount, ',') == RemoveChar(r2.amount, ',')
    ensures RowValue(r1) == RowValue(r2)
  {
  }

  /** Two dots at different positions make a count of at least two. */
  lemma TwoDotsCount(t: string, i: nat, j: nat)
    requires i < j < |t| && t[i] == '.' && t[j] == '.'
    ensures multiset(t)['.'] >= 2
  {
    assert t == t[..j] + t[j..];
    assert t[..j][i] == '.';
    assert t[j..][0] == '.';
    assert multiset(t) == multiset(t[..j]) + multiset(t[j..]);
  }

  /** A counted row whose amount has no comma and two dots or more makes
      `float` raise. */
  lemma RowRaisesOnDots(row: AssetRow)
    requires Counts(row) && ',' !in row.amount && multiset(row.amount)['.'] >= 2
    ensures RowValue(row).Raises?
  {
    RemoveCharAbsent(row.amount, ',');
  }

  /** One raising row makes the comprehension raise. */
  lemma SingleRowRaises(row: AssetRow)
    requires RowValue(row).Raises?
    ensures XionValues([row]).Raises?
  {
    assert [row][0] == row;
  }

  /** An amount of digits and at least two dots (such as "1.2.3") passes
      the filter, then `float` raises. */
  lemma TwoDotsRaise(symbol: string, amount: string, i: nat, j: nat)
    requires Contains(symbol, "XION")
    requires DigitsOrDots(amount) && (exists k :: 0 <= k < |amount| && IsDigit(amount[k]))
    requires i < j < |amount| && amount[i] == '.' && amount[j] == '.'
    ensures Counts(AssetRow(symbol, amount))
    ensures XionValues([AssetRow(symbol, amount)]).Raises?
  {
    var row := AssetRow(symbol, amount);
    AmountFilterIff(amount);
    assert ',' !in amount;
    TwoDotsCount(amount, i, j);
    RowRaisesOnDots(row);
    SingleRowRaises(row);
  }

  /** The text "1.2.3" in a "XION" row. */
  lemma OneDotTwoDotThree(symbol: string, amount: string)
    requires symbol == "XION" && amount == "1.2.3"
    ensures Counts(AssetRow(symbol, amount))
    ensures XionValues([AssetRow(symbol, amount)]).Raises?
  {
    ContainsAt(symbol, "XION", 0);
    assert IsDigit(amount[0]);
    TwoDotsRaise(symbol, amount, 1, 3);
  }

  /** A plain run of digits in a XION row counts with its integer value. */
  lemma PlainDigitsRow(symbol: string, amount: string)
    requires Contains(symbol, "XION") && IsAllDigits(amount)
    ensures XionValues([AssetRow(symbol, amount)]) == Returns([DigitsValue(amount) as real])
  {
    var row := AssetRow(symbol, amount);
    PlainDigitsValue(row);
    SingleRow(row);
  }

  lemma PlainDigitsValue(row: AssetRow)
    requires Contains(row.symbol, "XION") && IsAllDigits(row.amount)
    ensures RowValue(row) == Returns(Some(DigitsValue(row.amount) as real))
  {
    var amount := row.amount;
    assert ',' !in amount && '.' !in amount;
    RemoveCharAbsent(amount, ',');
    RemoveCharAbsent(amount, '.');
    assert Counts(row);
    assert multiset(amount)['.'] == 0;
    assert ParseDecimal(amount) == Some(DigitsValue(amount) as real);
  }

  /** The comprehension over one row. */
  lemma SingleRow(row: AssetRow)
    ensures XionValues([row]) ==
      match RowValue(row)
      case Raises => Raises
      case Returns(v) => Returns(if v.Some? then [v.value] else [])
  {
    assert [row][1..] == [];
    assert XionValues([row][1..]) == Returns([]);
    match RowValue(row)
    case Raises =>
    case Returns(v) =>
      var here := if v.Some? then [v.value] else [];
      assert here + [] == here;
  }

  lemma {:induction false} RemoveCharAbsent(s: string, c: char)
    requires c !in s
    ensures RemoveChar(s, c) == s
    decreases |s|
  {
    if s != [] {
      RemoveCharAbsent(s[1..], c);
    }
  }

  /** The fallback never touches what the resolver reported besides the
      balance: the page is the same for every scrape in everything else. */
  lemma FallbackOnlyChangesBalance(addr: string, info: WalletInfo, s1: Scrape, s2: Scrape)
    requires ValidateWalletAddressAsWritten(addr)
    ensures var p1 := ValidateHtml(addr, info, s1);
      var p2 := ValidateHtml(addr, info, s2);
      && p1.result == p2.result && p1.status == p2.status && p1.debugReason == p2.debugReason
      && p1.endpoint == p2.endpoint && p1.address == p2.address
      && p1.txCount == p2.txCount && p1.failedTxs == p2.failedTxs
      && p1.anomaly == p2.anomaly && p1.balances == p2.balances
  {
  }
}
