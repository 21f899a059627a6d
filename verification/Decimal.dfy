/** Decimal printing and parsing of cursors: Go's `strconv.FormatInt(n, 10)` and
    `strconv.ParseInt(s, 10, 64)`, and the cursor parameter built on it. */
module Decimal {
  import opened Wrappers
  import opened Text

  const MAX_INT64: int := 0x7FFF_FFFF_FFFF_FFFF

  predicate IsDigit(c: char) {
    '0' <= c <= '9'
  }

  predicate AllDigits(s: string) {
    s != [] && forall c | c in s :: IsDigit(c)
  }

  function DigitChar(d: nat): (c: char)
    requires d < 10
    ensures IsDigit(c) && c as int - '0' as int == d
  {
    ('0' as int + d) as char
  }

  function FormatNat(n: nat): (s: string)
    ensures AllDigits(s)
  {
    if n < 10 then [DigitChar(n)] else FormatNat(n / 10) + [DigitChar(n % 10)]
  }

  function FormatInt(n: int): string {
    if n < 0 then "-" + FormatNat(-n) else FormatNat(n)
  }

  function DigitsValue(s: string): nat
    requires forall c | c in s :: IsDigit(c)
  {
    if s == [] then 0
    else
      var last := s[|s| - 1];
      assert IsDigit(last);
      10 * DigitsValue(s[..|s| - 1]) + (last as int - '0' as int)
  }

  /** An optional sign, then at least one digit, then the range of `int64`. */
  function ParseInt(s: string): (r: Option<int>)
    ensures r.Some? ==> -MAX_INT64 - 1 <= r.value <= MAX_INT64
  {
    var negative := s != [] && s[0] == '-';
    var digits := if s != [] && (s[0] == '-' || s[0] == '+') then s[1..] else s;
    if !AllDigits(digits) then None
    else
      var n: int := DigitsValue(digits);
      if negative then (if n <= MAX_INT64 + 1 then Some(-n) else None)
      else if n <= MAX_INT64 then Some(n) else None
  }

  lemma {:induction false} FormatNatValue(n: nat)
    ensures DigitsValue(FormatNat(n)) == n
  {
    if n >= 10 {
      FormatNatValue(n / 10);
      var s := FormatNat(n);
      assert s[..|s| - 1] == FormatNat(n / 10);
    }
  }

  /** A cursor survives the trip through its decimal form. */
  lemma ParseFormat(n: int)
    requires -MAX_INT64 - 1 <= n <= MAX_INT64
    ensures ParseInt(FormatInt(n)) == Some(n)
  {
    var m: nat := if n < 0 then -n else n;
    FormatNatValue(m);
    var s := FormatInt(n);
    if n < 0 {
      assert s[1..] == FormatNat(m);
    } else {
      assert IsDigit(FormatNat(m)[0]);
    }
  }

  lemma ParseNat(n: nat)
    ensures ParseInt(FormatInt(n)) == if n <= MAX_INT64 then Some(n) else None
  {
    FormatNatValue(n);
    assert IsDigit(FormatNat(n)[0]);
  }

  /** A cursor parameter: trimmed, decimal, and not negative. */
  function ParseCursor(raw: string): Option<int> {
    match ParseInt(TrimSpace(raw))
    case None => None
    case Some(n) => if n < 0 then None else Some(n)
  }

  ghost predicate AllSpace(s: string) {
    forall i | 0 <= i < |s| :: IsSpace(s[i])
  }

  lemma {:induction false} TrimPadding(before: string, s: string, after: string)
    requires AllSpace(before) && AllSpace(after) && IsTrimmed(s) && s != ""
    ensures TrimSpace(before + s + after) == s
    decreases |before| + |after|
  {
    var all := before + s + after;
    if before != "" {
      assert all[1..] == before[1..] + s + after;
      TrimPadding(before[1..], s, after);
    } else if after != "" {
      var n := |after| - 1;
      assert all[0] == s[0] && all[..|all| - 1] == before + s + after[..n] && all[|all| - 1] == after[n];
      TrimPadding(before, s, after[..n]);
    } else {
      assert all == s;
    }
  }

  lemma FormatIsTrimmed(n: int)
    ensures FormatInt(n) != "" && IsTrimmed(FormatInt(n))
  {
    var m: nat := if n < 0 then -n else n;
    var s := FormatNat(m);
    assert IsDigit(s[0]) && IsDigit(s[|s| - 1]);
  }

  /** A printed number between any white space is read as a cursor exactly when it is not negative. */
  lemma ParseCursorFormat(before: string, n: int, after: string)
    requires AllSpace(before) && AllSpace(after) && -MAX_INT64 - 1 <= n <= MAX_INT64
    ensures ParseCursor(before + FormatInt(n) + after) == if n < 0 then None else Some(n)
  {
    FormatIsTrimmed(n);
    TrimPadding(before, FormatInt(n), after);
    ParseFormat(n);
  }
}
