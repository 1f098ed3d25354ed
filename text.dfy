/** The two text routines the list page relies on to read its query string:
    `strconv.ParseInt(s, 10, 64)`, whose value is used even when it reports an
    error, and `strings.TrimSpace`. */
module Text {

  const MaxInt64: int := 0x7fff_ffff_ffff_ffff
  const MinInt64: int := -0x8000_0000_0000_0000
  const MaxUint64: int := 0xffff_ffff_ffff_ffff

  predicate IsDigit(c: char) {
    '0' <= c <= '9'
  }

  function DigitOf(c: char): nat
    requires IsDigit(c)
  {
    c as int - '0' as int
  }

  function DigitChar(d: nat): (c: char)
    requires d < 10
    ensures IsDigit(c) && DigitOf(c) == d
  {
    ('0' as int + d) as char
  }

  /** How the digit loop of `strconv.ParseUint(s, 10, 64)` ends. */
  datatype Scan = Scanned(n: int) | SyntaxError | RangeError

  /** The digit loop of `ParseUint`, continuing from the value `n` read so far:
      a character that is not a decimal digit is a syntax error, and a value
      that would pass 2^64 - 1 is a range error at once, before the rest of the
      string is looked at. */
  function ScanDigits(s: string, n: nat): (r: Scan)
    requires n <= MaxUint64
    ensures r.Scanned? ==> n <= r.n <= MaxUint64
    decreases |s|
  {
    if s == [] then Scanned(n)
    else if !IsDigit(s[0]) then SyntaxError
    else if n >= MaxUint64 / 10 + 1 then RangeError
    else if n * 10 + DigitOf(s[0]) > MaxUint64 then RangeError
    else ScanDigits(s[1..], n * 10 + DigitOf(s[0]))
  }

  /** Every character of `s` is a decimal digit. */
  predicate AllDigits(s: string) {
    forall i | 0 <= i < |s| :: IsDigit(s[i])
  }

  /** `s` without its leading sign, if it has one. */
  function Unsigned(s: string): (u: string)
    ensures u == s || (s != [] && (s[0] == '+' || s[0] == '-') && u == s[1..])
    ensures s != [] && (s[0] == '+' || s[0] == '-') ==> u == s[1..]
  {
    if s != [] && (s[0] == '+' || s[0] == '-') then s[1..] else s
  }

  /** The value `strconv.ParseInt(s, 10, 64)` returns, whatever its error: 0 on
      a syntax error (empty input, a lone sign, any other character than an
      optional leading sign and decimal digits), and the nearest int64 bound
      when the number is out of range. */
  function ParseIntValue(s: string): (v: int)
    ensures MinInt64 <= v <= MaxInt64
    ensures Unsigned(s) == [] ==> v == 0
    ensures Unsigned(s) != [] && AllDigits(Unsigned(s)) ==>
      var x: int := if s[0] == '-' then -(DigitsValue(Unsigned(s), 0) as int) else DigitsValue(Unsigned(s), 0);
      v == if x > MaxInt64 then MaxInt64 else if x < MinInt64 then MinInt64 else x
  {
    if s == [] then 0
    else
      var neg := s[0] == '-';
      var digits := Unsigned(s);
      var scan := if digits == [] then SyntaxError else ScanDigits(digits, 0);
      ScanOfDigits(digits, 0);
      match scan
      case SyntaxError => 0
      case RangeError => if neg then MinInt64 else MaxInt64
      case Scanned(n) =>
        if !neg && n > MaxInt64 then MaxInt64
        else if neg && n > -MinInt64 then MinInt64
        else if neg then -n
        else n
  }

  /** Scanning digits alone never meets a syntax error; it ends with their
      value, or with a range error exactly when that value needs more than 64
      bits. */
  lemma {:induction false} ScanOfDigits(s: string, acc: nat)
    requires acc <= MaxUint64
    ensures AllDigits(s) ==> ScanDigits(s, acc) != SyntaxError
    ensures AllDigits(s) && ScanDigits(s, acc).Scanned? ==> ScanDigits(s, acc).n == DigitsValue(s, acc)
    ensures AllDigits(s) && ScanDigits(s, acc).RangeError? ==> DigitsValue(s, acc) > MaxUint64
    decreases |s|
  {
    if s != [] && AllDigits(s) {
      var next := acc * 10 + DigitOf(s[0]);
      assert AllDigits(s[1..]) by {
        forall i | 0 <= i < |s| - 1 ensures IsDigit(s[1..][i]) {
          assert s[1..][i] == s[i + 1];
        }
      }
      DigitsValueGrows(s[1..], next);
      if next <= MaxUint64 {
        ScanOfDigits(s[1..], next);
      }
    }
  }

  /** The decimal form of a natural number, without sign or leading zeros. */
  function Decimal(n: nat): (s: string)
    ensures |s| >= 1 && forall i | 0 <= i < |s| :: IsDigit(s[i])
  {
    if n < 10 then [DigitChar(n)] else Decimal(n / 10) + [DigitChar(n % 10)]
  }

  /** The number the digits `s` spell, read after the value `acc`. */
  function DigitsValue(s: string, acc: nat): nat
    requires forall i | 0 <= i < |s| :: IsDigit(s[i])
    decreases |s|
  {
    if s == [] then acc else DigitsValue(s[1..], acc * 10 + DigitOf(s[0]))
  }

  lemma {:induction false} DigitsValueAppend(a: string, c: char, acc: nat)
    requires forall i | 0 <= i < |a| :: IsDigit(a[i])
    requires IsDigit(c)
    ensures forall i | 0 <= i < |a + [c]| :: IsDigit((a + [c])[i])
    ensures DigitsValue(a + [c], acc) == DigitsValue(a, acc) * 10 + DigitOf(c)
    decreases |a|
  {
    if a != [] {
      assert (a + [c])[1..] == a[1..] + [c];
      DigitsValueAppend(a[1..], c, acc * 10 + DigitOf(a[0]));
    }
  }

  lemma {:induction false} DigitsValueGrows(s: string, acc: nat)
    requires forall i | 0 <= i < |s| :: IsDigit(s[i])
    ensures DigitsValue(s, acc) >= acc
    decreases |s|
  {
    if s != [] {
      DigitsValueGrows(s[1..], acc * 10 + DigitOf(s[0]));
    }
  }

  /** Reading the decimal form of `n` gives `n`. */
  lemma {:induction false} DecimalValue(n: nat)
    ensures DigitsValue(Decimal(n), 0) == n
  {
    if n >= 10 {
      DecimalValue(n / 10);
      DigitsValueAppend(Decimal(n / 10), DigitChar(n % 10), 0);
    }
  }

  /** `ParseInt` reads back every int64 written in decimal, with or without a
      leading sign; with a minus sign that includes -2^63, whose digits alone
      are out of range. */
  lemma ParseIntOfDecimal(n: nat)
    requires n <= MaxInt64 + 1
    ensures n <= MaxInt64 ==> ParseIntValue(Decimal(n)) == n
    ensures n <= MaxInt64 ==> ParseIntValue("+" + Decimal(n)) == n
    ensures ParseIntValue("-" + Decimal(n)) == -(n as int)
  {
    var d := Decimal(n);
    DecimalValue(n);
    assert AllDigits(d);
    assert Unsigned(d) == d by {
      assert IsDigit(d[0]);
    }
    ParseIntOutOfRange(d);
    assert Unsigned("-" + d) == d;
    assert Unsigned("+" + d) == d;
  }

  /** Digits worth more than 2^63 - 1 read as the largest int64, with or
      without a plus sign, and after a minus sign digits worth more than 2^63
      read as the smallest. */
  lemma ParseIntOutOfRange(s: string)
    requires s != [] && AllDigits(s)
    ensures DigitsValue(s, 0) > MaxInt64 ==> ParseIntValue(s) == MaxInt64 && ParseIntValue("+" + s) == MaxInt64
    ensures DigitsValue(s, 0) > -MinInt64 ==> ParseIntValue("-" + s) == MinInt64
  {
    assert Unsigned("-" + s) == s;
    assert Unsigned("+" + s) == s;
  }

  /** Whatever its length, a string whose digits, after an optional sign, meet
      a character that is not a digit before their value passes 2^64 - 1 reads
      as 0. */
  lemma ParseIntJunkAfterDigits(s: string, j: nat)
    requires j < |Unsigned(s)| && !IsDigit(Unsigned(s)[j])
    requires AllDigits(Unsigned(s)[..j]) && DigitsValue(Unsigned(s)[..j], 0) <= MaxUint64
    ensures ParseIntValue(s) == 0
  {
    ScanStopsAtJunk(Unsigned(s), 0, j);
  }

  /** The scan meets the non-digit at `j` while the digits before it still fit
      in 64 bits, so it ends with a syntax error. */
  lemma {:induction false} ScanStopsAtJunk(s: string, acc: nat, j: nat)
    requires acc <= MaxUint64
    requires j < |s| && !IsDigit(s[j])
    requires AllDigits(s[..j]) && DigitsValue(s[..j], acc) <= MaxUint64
    ensures ScanDigits(s, acc) == SyntaxError
    decreases j
  {
    if j > 0 {
      var next := acc * 10 + DigitOf(s[0]);
      assert s[..j][0] == s[0];
      assert s[..j][1..] == s[1..][..j - 1];
      DigitsValueGrows(s[1..][..j - 1], next);
      ScanStopsAtJunk(s[1..], next, j - 1);
    }
  }

  /** Up to 19 characters can never overflow, so such a string holding any
      character other than a leading sign and digits reads as 0. */
  lemma {:induction false} ShortScanIsNotRange(s: string, acc: nat, bound: nat)
    requires acc < bound && bound * Pow10(|s|) <= MaxUint64 + 1
    ensures ScanDigits(s, acc) != RangeError
    decreases |s|
  {
    if s != [] && IsDigit(s[0]) {
      var next := acc * 10 + DigitOf(s[0]);
      var rest := Pow10(|s| - 1);
      assert Pow10(|s|) == 10 * rest;
      MulAssoc(bound, 10, rest);
      MulMono(1, rest, bound * 10);
      MulMono(acc + 1, bound, 10);
      assert next < bound * 10 <= MaxUint64 + 1;
      ShortScanIsNotRange(s[1..], next, bound * 10);
    }
  }

  lemma MulMono(a: nat, b: nat, c: nat)
    requires a <= b
    ensures a * c <= b * c
  {
  }

  lemma MulAssoc(a: int, b: int, c: int)
    ensures a * (b * c) == (a * b) * c
  {
  }

  function Pow10(k: nat): (p: nat)
    ensures p >= 1
    ensures k >= 1 ==> p >= 10
  {
    if k == 0 then 1 else 10 * Pow10(k - 1)
  }

  /** A string of at most 19 characters with some
      character that is not a digit there, reads as 0. */
  lemma ParseIntRejectsJunk(s: string, i: nat)
    requires |s| <= 19 && i < |s|
    requires !IsDigit(s[i]) && (i > 0 || (s[0] != '+' && s[0] != '-'))
    ensures ParseIntValue(s) == 0
  {
    var digits := if s[0] == '+' || s[0] == '-' then s[1..] else s;
    if digits != [] {
      assert |digits| <= 19;
      Pow10Bound(|digits|);
      ShortScanIsNotRange(digits, 0, 1);
      JunkIsSyntax(digits, 0, if s[0] == '+' || s[0] == '-' then i - 1 else i);
    }
  }

  lemma Pow10Bound(k: nat)
    requires k <= 19
    ensures Pow10(k) <= MaxUint64 + 1
  {
    Pow10Monotone(k, 19);
    assert Pow10(1) == 10;
    assert Pow10(2) == 100;
    assert Pow10(3) == 1000;
    assert Pow10(4) == 10000;
    assert Pow10(5) == 100000;
    assert Pow10(6) == 1000000;
    assert Pow10(7) == 10000000;
    assert Pow10(8) == 100000000;
    assert Pow10(9) == 1000000000;
    assert Pow10(10) == 10000000000;
    assert Pow10(11) == 100000000000;
    assert Pow10(12) == 1000000000000;
    assert Pow10(13) == 10000000000000;
    assert Pow10(14) == 100000000000000;
    assert Pow10(15) == 1000000000000000;
    assert Pow10(16) == 10000000000000000;
    assert Pow10(17) == 100000000000000000;
    assert Pow10(18) == 1000000000000000000;
    assert Pow10(19) == 10000000000000000000;
  }

  lemma {:induction false} Pow10Monotone(a: nat, b: nat)
    requires a <= b
    ensures Pow10(a) <= Pow10(b)
    decreases b
  {
    if a < b {
      Pow10Monotone(a, b - 1);
    }
  }

  /** A scan that meets a non-digit and does not overflow first is a syntax
      error. */
  lemma {:induction false} JunkIsSyntax(s: string, acc: nat, i: nat)
    requires acc <= MaxUint64
    requires i < |s| && !IsDigit(s[i])
    requires ScanDigits(s, acc) != RangeError
    ensures ScanDigits(s, acc) == SyntaxError
    decreases |s|
  {
    if IsDigit(s[0]) {
      JunkIsSyntax(s[1..], acc * 10 + DigitOf(s[0]), i - 1);
    }
  }

  // ---------------------------------------------------------------------------
  // strings.TrimSpace
  // ---------------------------------------------------------------------------

  /** `unicode.IsSpace`: the ASCII spaces, U+0085, U+00A0 and the other
      characters Unicode marks White_Space. */
  predicate IsSpace(c: char) {
    var x := c as int;
    || x == 0x09 || x == 0x0A || x == 0x0B || x == 0x0C || x == 0x0D || x == 0x20
    || x == 0x85 || x == 0xA0 || x == 0x1680 || (0x2000 <= x <= 0x200A)
    || x == 0x2028 || x == 0x2029 || x == 0x202F || x == 0x205F || x == 0x3000
  }

  /** Leading white space removed. */
  function TrimLeft(s: string): (r: string)
    ensures |r| <= |s| && r == s[|s| - |r|..]
    ensures forall i | 0 <= i < |s| - |r| :: IsSpace(s[i])
    ensures r == [] || !IsSpace(r[0])
  {
    if s != [] && IsSpace(s[0]) then TrimLeft(s[1..]) else s
  }

  /** Trailing white space removed. */
  function TrimRight(s: string): (r: string)
    ensures |r| <= |s| && r == s[..|r|]
    ensures forall i | |r| <= i < |s| :: IsSpace(s[i])
    ensures r == [] || !IsSpace(r[|r| - 1])
  {
    if s != [] && IsSpace(s[|s| - 1]) then TrimRight(s[..|s| - 1]) else s
  }

  /** `strings.TrimSpace`: the part of `s` between its leading and trailing
      white space. */
  function TrimSpace(s: string): (r: string)
    ensures exists i, j :: (0 <= i <= j <= |s| && r == s[i..j]
      && (forall k | 0 <= k < i :: IsSpace(s[k]))
      && (forall k | j <= k < |s| :: IsSpace(s[k])))
    ensures r == [] || (!IsSpace(r[0]) && !IsSpace(r[|r| - 1]))
  {
    var left := TrimLeft(s);
    var r := TrimRight(left);
    var i := |s| - |left|;
    assert r == s[i..i + |r|];
    r
  }

  /** The trimmed text is empty exactly when every character is white space. */
  lemma TrimSpaceEmpty(s: string)
    ensures TrimSpace(s) == [] <==> forall k | 0 <= k < |s| :: IsSpace(s[k])
  {

  }
}
