/**
 * Integers as PHP writes and reads them: the decimal form of a 64-bit
 * integer, and `filter_var($s, FILTER_VALIDATE_INT)` (no flags, no range
 * options), which is what the `integer` validation rule applies.
 */
module PhpInt {
  import opened Wrappers

  const MinInt: int := -0x8000_0000_0000_0000
  const MaxInt: int := 0x7FFF_FFFF_FFFF_FFFF

  /** The range of a PHP integer on a 64-bit platform. */
  predicate InRange(n: int) {
    MinInt <= n <= MaxInt
  }

  predicate IsDigit(c: char) {
    '0' <= c <= '9'
  }

  predicate AllDigits(s: string) {
    forall i :: 0 <= i < |s| ==> IsDigit(s[i])
  }

  function DigitValue(c: char): (d: nat)
    requires IsDigit(c)
    ensures d < 10
  {
    c as int - '0' as int
  }

  function DigitChar(d: nat): (c: char)
    requires d < 10
    ensures IsDigit(c) && DigitValue(c) == d
  {
    ('0' as int + d) as char
  }

  /** The decimal digits of `n`, most significant first, with no leading zero. */
  function ShowNat(n: nat): (s: string)
    ensures |s| > 0 && AllDigits(s)
    ensures s[0] == '0' <==> n == 0
    ensures n == 0 ==> s == "0"
  {
    if n < 10 then [DigitChar(n)] else ShowNat(n / 10) + [DigitChar(n % 10)]
  }

  /** `(string) $n` for an integer `$n`. */
  function ShowInt(n: int): string {
    if n < 0 then "-" + ShowNat(-n) else ShowNat(n)
  }

  /** The number a run of decimal digits denotes (0 for the empty run). */
  function DigitsValue(s: string): nat
    requires AllDigits(s)
  {
    if s == [] then 0 else DigitsValue(s[..|s| - 1]) * 10 + DigitValue(s[|s| - 1])
  }

  /** The characters the integer filter strips from both ends (unlike `trim`, it keeps NUL). */
  predicate IsFilterSpace(c: char) {
    c == ' ' || c == '\t' || c == '\r' || c == '\U{0B}' || c == '\n'
  }

  function TrimStart(s: string): (r: string)
    ensures |r| <= |s| && r == s[|s| - |r|..]
    ensures r != [] ==> !IsFilterSpace(r[0])
  {
    if s != [] && IsFilterSpace(s[0]) then TrimStart(s[1..]) else s
  }

  function TrimEnd(s: string): (r: string)
    ensures |r| <= |s| && r == s[..|r|]
    ensures r != [] ==> !IsFilterSpace(r[|r| - 1])
  {
    if s != [] && IsFilterSpace(s[|s| - 1]) then TrimEnd(s[..|s| - 1]) else s
  }

  /**
   * `filter_var($s, FILTER_VALIDATE_INT)`: surrounding filter spaces are
   * ignored; then an optional sign and either a lone `0` or a digit run that
   * starts with 1 to 9; the value must fit a PHP integer.
   */
  function ParseInt(s: string): (r: Option<int>)
    ensures r.Some? ==> InRange(r.value)
  {
    ParseSigned(TrimEnd(TrimStart(s)))
  }

  /** The filter after trimming: an optional sign, then the magnitude. */
  function ParseSigned(t: string): (r: Option<int>)
    ensures r.Some? ==> InRange(r.value)
  {
    if t == [] then None
    else if t[0] == '-' then ParseMagnitude(t[1..], true)
    else if t[0] == '+' then ParseMagnitude(t[1..], false)
    else ParseMagnitude(t, false)
  }

  /** A lone `0`, or a digit run starting with 1 to 9 whose signed value fits a PHP integer. */
  function ParseMagnitude(digits: string, negative: bool): (r: Option<int>)
    ensures r.Some? ==> InRange(r.value)
  {
    if digits == "0" then Some(0)
    else if digits != [] && '1' <= digits[0] <= '9' && AllDigits(digits) then
      var n: int := if negative then -(DigitsValue(digits) as int) else DigitsValue(digits);
      if InRange(n) then Some(n) else None
    else None
  }

  lemma {:induction false} DigitsValueShowNat(n: nat)
    ensures DigitsValue(ShowNat(n)) == n
  {
    if n >= 10 {
      var s := ShowNat(n);
      assert s[..|s| - 1] == ShowNat(n / 10);
      DigitsValueShowNat(n / 10);
    }
  }

  /** A digit run that starts with 1 to 9 is the decimal form of the number it denotes. */
  lemma {:induction false} ShowNatDigitsValue(d: string)
    requires d != [] && AllDigits(d) && '1' <= d[0] <= '9'
    ensures DigitsValue(d) >= 1
    ensures ShowNat(DigitsValue(d)) == d
  {
    var last := d[|d| - 1];
    assert DigitChar(DigitValue(last)) == last;
    if |d| > 1 {
      var p := d[..|d| - 1];
      ShowNatDigitsValue(p);
      var n := DigitsValue(d);
      assert n == DigitsValue(p) * 10 + DigitValue(last);
      assert n / 10 == DigitsValue(p) && n % 10 == DigitValue(last);
      assert d == p + [last];
    }
  }

  /**
   * The trimmed texts the filter accepts for `n`: its decimal form, a `+`
   * before the decimal form of a non-negative value, or `-0`.
   */
  predicate IntegerText(t: string, n: int) {
    || t == ShowInt(n)
    || (n >= 0 && t == "+" + ShowNat(n))
    || (n == 0 && t == "-0")
  }

  /** Whatever the filter accepts after trimming is an integer text of the value it yields. */
  lemma ParseSignedAccepted(t: string)
    requires ParseSigned(t).Some?
    ensures IntegerText(t, ParseSigned(t).value)
  {
    var n := ParseSigned(t).value;
    var m := if t[0] == '-' || t[0] == '+' then t[1..] else t;
    assert t[0] == '-' || t[0] == '+' ==> t == [t[0]] + m;
    if m != "0" {
      ShowNatDigitsValue(m);
    }
  }

  /** Every integer text of an in-range value passes the filter as that value. */
  lemma ParseSignedIntegerText(t: string, n: int)
    requires InRange(n) && IntegerText(t, n)
    ensures ParseSigned(t) == Some(n)
  {
    if t == ShowInt(n) {
      if n < 0 {
        assert t[0] == '-' && t[1..] == ShowNat(-n);
        ParseShowNat(-n, true);
      } else {
        assert t[0] != '-' && t[0] != '+';
        ParseShowNat(n, false);
      }
    } else if n >= 0 && t == "+" + ShowNat(n) {
      assert t[0] == '+' && t[1..] == ShowNat(n);
      ParseShowNat(n, false);
    } else {
      assert t[0] == '-' && t[1..] == "0";
    }
  }

  /**
   * The filter accepts a string as `n` exactly when `n` is a PHP integer and
   * the string, stripped of filter spaces, is an integer text of `n`: no
   * leading zeros, no inner spaces, no second sign, no overflow.
   */
  lemma ParseIntAccepts(s: string, n: int)
    ensures ParseInt(s) == Some(n) <==> InRange(n) && IntegerText(TrimEnd(TrimStart(s)), n)
  {
    var t := TrimEnd(TrimStart(s));
    if ParseInt(s) == Some(n) {
      ParseSignedAccepted(t);
    }
    if InRange(n) && IntegerText(t, n) {
      ParseSignedIntegerText(t, n);
    }
  }

  /** A digit run denotes the number it was written from, so the magnitude reads back. */
  lemma ParseShowNat(m: nat, negative: bool)
    requires InRange(if negative then -(m as int) else m)
    ensures ParseMagnitude(ShowNat(m), negative) == Some(if negative then -(m as int) else m)
  {
    if m != 0 {
      DigitsValueShowNat(m);
    }
  }

  /** A single digit 1 to 9 passes the filter as its value (`true` converts to the string "1"). */
  lemma ParseDigit(c: char)
    requires '1' <= c <= '9'
    ensures ParseInt([c]) == Some(DigitValue(c))
  {
    var t := [c];
    ShowNatDigitsValue(t);
    assert DigitsValue(t) == DigitValue(c) by {
      assert t[..0] == [];
    }
    ParseShowInt(DigitValue(c));
  }

  /** Every PHP integer passes the integer filter as its own decimal form, and reads back as itself. */
  lemma ParseShowInt(n: int)
    requires InRange(n)
    ensures ParseInt(ShowInt(n)) == Some(n)
  {
    var s := ShowInt(n);
    var d := if n < 0 then ShowNat(-n) else ShowNat(n);
    assert s[|s| - 1] == d[|d| - 1] && IsDigit(d[|d| - 1]);
    assert s[0] == '-' || IsDigit(s[0]);
    assert !IsFilterSpace(s[0]) && !IsFilterSpace(s[|s| - 1]);
    assert TrimStart(s) == s;
    assert TrimEnd(s) == s;
    if n < 0 {
      assert s[0] == '-' && s[1..] == ShowNat(-n);
      ParseShowNat(-n, true);
    } else {
      assert s[0] != '-' && s[0] != '+';
      ParseShowNat(n, false);
    }
  }
}
