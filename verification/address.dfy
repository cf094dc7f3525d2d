/** The address shape check (`validate_wallet_address`): the prefix
    `xion1` followed by 20 to 90 characters from `[0-9a-z]`. It is a
    relaxed bech32 shape, not a checksum test. */
module Address {
  import opened Text

  const Prefix: string := "xion1"
  const MinBody: nat := 20
  const MaxBody: nat := 90

  predicate IsBodyChar(c: char) {
    ('0' <= c <= '9') || ('a' <= c <= 'z')
  }

  /** The `k` characters after the prefix are all body characters. */
  predicate BodyRun(a: string, k: nat)
    requires |Prefix| + k <= |a|
  {
    forall i :: |Prefix| <= i < |Prefix| + k ==> IsBodyChar(a[i])
  }

  /** Where Python's `$` (no MULTILINE flag) matches: at the end of the
      text, or just before a newline that ends it. */
  predicate DollarAt(a: string, p: nat) {
    p == |a| || (p + 1 == |a| && a[p] == '\n')
  }

  /** `bool(address) and bool(ADDR_RE.match(address))` exactly as written:
      `re.match` anchors at the start, `{20,90}` may stop at any length in
      range, and `$` also matches before a final newline. */
  predicate ValidateWalletAddressAsWritten(a: string) {
    && |a| > 0
    && StartsWith(a, Prefix)
    && exists k: nat :: MinBody <= k <= MaxBody && |Prefix| + k <= |a| && BodyRun(a, k) && DollarAt(a, |Prefix| + k)
  }

  /** The intended check: the whole text is the prefix and the body. */
  predicate ValidateWalletAddress(a: string) {
    && |a| > 0
    && StartsWith(a, Prefix)
    && exists k: nat :: MinBody <= k <= MaxBody && |Prefix| + k == |a| && BodyRun(a, k)
  }

  /** An address is accepted iff it starts with `xion1`, is 25 to 95
      characters long, and every character after the prefix is a digit or
      a lower-case ASCII letter. */
  lemma ValidAddressShape(a: string)
    ensures ValidateWalletAddress(a) <==>
      && 25 <= |a| <= 95
      && a[..5] == "xion1"
      && forall i :: 5 <= i < |a| ==> IsBodyChar(a[i])
  {
    if 25 <= |a| <= 95 && a[..5] == "xion1" && forall i :: 5 <= i < |a| ==> IsBodyChar(a[i]) {
      var k: nat := |a| - 5;
      assert BodyRun(a, k);
    }
  }

  /** The written pattern accepts exactly the intended addresses plus the
      same addresses followed by one newline. */
  lemma AsWrittenAdmitsTrailingNewline(a: string)
    ensures ValidateWalletAddressAsWritten(a) <==>
      || ValidateWalletAddress(a)
      || (|a| > 0 && a[|a| - 1] == '\n' && ValidateWalletAddress(a[..|a| - 1]))
  {
    if ValidateWalletAddressAsWritten(a) {
      var k: nat :| MinBody <= k <= MaxBody && |Prefix| + k <= |a| && BodyRun(a, k) && DollarAt(a, |Prefix| + k);
      if |Prefix| + k + 1 == |a| {
        var b := a[..|a| - 1];
        assert StartsWith(b, Prefix);
        assert BodyRun(b, k);
      }
    }
    if |a| > 0 && a[|a| - 1] == '\n' && ValidateWalletAddress(a[..|a| - 1]) {
      var b := a[..|a| - 1];
      var k: nat :| MinBody <= k <= MaxBody && |Prefix| + k == |b| && BodyRun(b, k);
      assert BodyRun(a, k);
      assert DollarAt(a, |Prefix| + k);
    }
  }

  /** A concrete text the written pattern lets through. */
  lemma TrailingNewlineCounterexample()
    ensures ValidateWalletAddressAsWritten("xion1qqqqqqqqqqqqqqqqqqqq\n")
    ensures !ValidateWalletAddress("xion1qqqqqqqqqqqqqqqqqqqq\n")
  {
    var a := "xion1qqqqqqqqqqqqqqqqqqqq\n";
    assert BodyRun(a, 20);
    assert DollarAt(a, 25);
    ValidAddressShape(a);
    assert !IsBodyChar(a[25]);
  }
}
