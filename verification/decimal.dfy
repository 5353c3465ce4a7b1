/**
 * Decimal text and the JavaScript/Python string-number conversions the
 * dashboard relies on, over exact `real`s:
 *  - `ToFixed(x, d)`  models `Number.prototype.toFixed(d)` (ECMA-262,
 *    section 21.1.3.3) for |x| < 1e21 as exact round-half-up of |x| with a
 *    "-" prefix for x < 0;
 *  - `ParseFloat(s)` models the global `parseFloat` (ECMA-262, section
 *    19.2.4): leading white space, an optional sign, then the longest
 *    decimal literal prefix (digits, at most one '.', at least one digit,
 *    then an optional exponent part such as "e6" or "E-2");
 *  - `NumberOf(s)` models the string-to-number coercion `Number(s)` that
 *    `isNaN` applies, for the decimal forms only: the trimmed text is empty
 *    (giving 0) or must be one whole decimal literal, exponent included;
 *  - `Trim`, `TrimStart`, `Upper` model `String.prototype.trim` and
 *    `toUpperCase` (the latter on ASCII letters).
 */
module Decimal {
  import opened Wrappers

  /** The ECMAScript WhiteSpace and LineTerminator code points. */
  predicate IsSpace(c: char) {
    c == ' ' || c == '\t' || c == '\n' || c == '\r' || c == '\U{0B}' || c == '\U{0C}'
    || c == '\U{A0}' || c == '\U{1680}' || ('\U{2000}' <= c <= '\U{200A}')
    || c == '\U{2028}' || c == '\U{2029}' || c == '\U{202F}' || c == '\U{205F}'
    || c == '\U{3000}' || c == '\U{FEFF}'
  }

  function TrimStart(s: string): (t: string)
    ensures |t| <= |s| && t == s[|s| - |t|..]
    ensures t != [] ==> !IsSpace(t[0])
  {
    if s != [] && IsSpace(s[0]) then TrimStart(s[1..]) else s
  }

  function TrimEnd(s: string): (t: string)
    ensures |t| <= |s| && t == s[..|t|]
    ensures t != [] ==> !IsSpace(t[|t| - 1])
  {
    if s != [] && IsSpace(s[|s| - 1]) then TrimEnd(s[..|s| - 1]) else s
  }

  /** `String.prototype.trim`: white space removed at both ends. */
  function Trim(s: string): (t: string)
    ensures t != [] ==> !IsSpace(t[0]) && !IsSpace(t[|t| - 1])
  {
    TrimEnd(TrimStart(s))
  }

  lemma TrimStartOfTrimmed(s: string)
    requires s != [] && !IsSpace(s[0])
    ensures TrimStart(s) == s
  {
  }

  lemma TrimOfTrimmed(s: string)
    requires s != [] ==> !IsSpace(s[0]) && !IsSpace(s[|s| - 1])
    ensures Trim(s) == s
  {
  }

  function UpperChar(c: char): char {
    if 'a' <= c <= 'z' then (c as int - 32) as char else c
  }

  /** `String.prototype.toUpperCase` on ASCII letters. */
  function Upper(s: string): (u: string)
    ensures |u| == |s| && forall i | 0 <= i < |s| :: u[i] == UpperChar(s[i])
  {
    seq(|s|, i requires 0 <= i < |s| => UpperChar(s[i]))
  }

  /** No ASCII lower-case letter occurs in `s`. */
  predicate NoLowerCase(s: string) {
    forall i | 0 <= i < |s| :: !('a' <= s[i] <= 'z')
  }

  lemma UpperOfNoLowerCase(s: string)
    requires NoLowerCase(s)
    ensures Upper(s) == s
  {
  }

  lemma UpperTake(s: string, k: nat)
    requires k <= |s|
    ensures Upper(s)[..k] == Upper(s[..k])
  {
    var a, b := Upper(s)[..k], Upper(s[..k]);
    assert forall i | 0 <= i < k :: a[i] == UpperChar(s[i]) == b[i];
  }

  lemma UpperDrop(s: string, k: nat)
    requires k <= |s|
    ensures Upper(s)[k..] == Upper(s[k..])
  {
    var a, b := Upper(s)[k..], Upper(s[k..]);
    assert forall i | 0 <= i < |a| :: a[i] == UpperChar(s[k + i]) == b[i];
  }

  lemma {:induction false} TrimStartUpper(s: string)
    ensures TrimStart(Upper(s)) == Upper(TrimStart(s))
  {
    if s != [] {
      assert IsSpace(UpperChar(s[0])) == IsSpace(s[0]);
      if IsSpace(s[0]) {
        UpperDrop(s, 1);
        TrimStartUpper(s[1..]);
      }
    }
  }

  lemma {:induction false} TrimEndUpper(s: string)
    ensures TrimEnd(Upper(s)) == Upper(TrimEnd(s))
  {
    if s != [] {
      assert IsSpace(UpperChar(s[|s| - 1])) == IsSpace(s[|s| - 1]);
      if IsSpace(s[|s| - 1]) {
        UpperTake(s, |s| - 1);
        TrimEndUpper(s[..|s| - 1]);
      }
    }
  }

  /** Upper-casing and trimming commute. */
  lemma TrimUpper(s: string)
    ensures Trim(Upper(s)) == Upper(Trim(s))
  {
    TrimStartUpper(s);
    TrimEndUpper(TrimStart(s));
  }

  predicate IsDigit(c: char) { '0' <= c <= '9' }

  predicate AllDigits(s: string) { forall i | 0 <= i < |s| :: IsDigit(s[i]) }

  function DigitValue(c: char): nat
    requires IsDigit(c)
  {
    c as int - '0' as int
  }

  function DigitChar(k: nat): (c: char)
    requires k < 10
    ensures IsDigit(c) && DigitValue(c) == k
  {
    ('0' as int + k) as char
  }

  function Pow10(d: nat): (p: nat)
    ensures p >= 1
  {
    if d == 0 then 1 else 10 * Pow10(d - 1)
  }

  /** The value of a string of decimal digits, most significant first. */
  function DigitsValue(s: string): nat
    requires AllDigits(s)
  {
    if s == [] then 0 else DigitsValue(s[..|s| - 1]) * 10 + DigitValue(s[|s| - 1])
  }

  /** The shortest decimal spelling of `n`. */
  function NatDigits(n: nat): (s: string)
    ensures |s| >= 1 && AllDigits(s)
  {
    if n < 10 then [DigitChar(n)] else NatDigits(n / 10) + [DigitChar(n % 10)]
  }

  function Zeros(k: nat): (z: string)
    ensures |z| == k && AllDigits(z)
  {
    seq(k, _ => '0')
  }

  /** `s` with leading zeros added until it is at least `w` long. */
  function Pad(s: string, w: nat): (t: string)
    requires AllDigits(s)
    ensures AllDigits(t) && |t| >= w && |t| >= |s|
  {
    if |s| >= w then s else Zeros(w - |s|) + s
  }

  /**
   * The digits of m / 10^d with exactly d digits after the point (no point
   * when d == 0) and at least one digit before it.
   */
  function UnsignedFixed(m: nat, d: nat): string {
    var z := FixedDigits(m, d);
    if d == 0 then z else z[..|z| - d] + "." + z[|z| - d..]
  }

  /** The digits of m, zero-padded to at least d + 1 of them. */
  function FixedDigits(m: nat, d: nat): (z: string)
    ensures AllDigits(z) && |z| >= d + 1
  {
    Pad(NatDigits(m), d + 1)
  }

  function Abs(x: real): real { if x < 0.0 then -x else x }

  /** The integer n nearest to x * 10^d; of two, the larger one. */
  function RoundHalfUp(x: real, d: nat): nat
    requires x >= 0.0
  {
    var p := Pow10(d) as real;
    assert x * p >= 0.0;
    (x * p + 0.5).Floor
  }

  /** `x.toFixed(d)`. */
  function ToFixed(x: real, d: nat): string {
    var u := UnsignedFixed(RoundHalfUp(Abs(x), d), d);
    if x < 0.0 then "-" + u else u
  }

  /** The number that `ToFixed(x, d)` spells. */
  function FixedValue(x: real, d: nat): real {
    var v := RoundHalfUp(Abs(x), d) as real / Pow10(d) as real;
    if x < 0.0 then -v else v
  }

  /** How many digits `s` starts with. */
  function LeadingDigits(s: string): (k: nat)
    ensures k <= |s| && AllDigits(s[..k])
    ensures k < |s| ==> !IsDigit(s[k])
  {
    if s != [] && IsDigit(s[0]) then
      var k := 1 + LeadingDigits(s[1..]);
      assert s[..k] == [s[0]] + s[1..][..k - 1];
      k
    else 0
  }

  /** A scanned numeric prefix: how many characters it takes and its value. */
  datatype Scan = Scan(length: nat, value: real)

  /**
   * The longest decimal literal without an exponent at the start of `s`:
   * digits, then optionally '.' and more digits, with at least one digit in all.
   */
  function ScanDecimal(s: string): (r: Option<Scan>)
    ensures r.Some? ==> 0 < r.value.length <= |s| && r.value.value >= 0.0
  {
    var i := LeadingDigits(s);
    if i < |s| && s[i] == '.' then
      var rest := s[i + 1..];
      var j := LeadingDigits(rest);
      if i + j == 0 then None
      else
        Some(Scan(i + 1 + j, DigitsValue(s[..i]) as real + DigitsValue(rest[..j]) as real / Pow10(j) as real))
    else if i == 0 then None
    else Some(Scan(i, DigitsValue(s[..i]) as real))
  }

  /** An exponent part: how many characters it takes and the power of ten it stands for. */
  datatype Exponent = Exponent(length: nat, power: int)

  /** The exponent part at the start of `s`: 'e' or 'E', an optional sign, then at least one digit. */
  function ScanExponent(s: string): (r: Option<Exponent>)
    ensures r.Some? ==> 2 <= r.value.length <= |s| && IsDigit(s[r.value.length - 1])
  {
    if |s| >= 2 && (s[0] == 'e' || s[0] == 'E') then
      var signed := s[1] == '+' || s[1] == '-';
      var digits := if signed then s[2..] else s[1..];
      var k := LeadingDigits(digits);
      if k == 0 then None
      else
        assert s[(if signed then 2 else 1) + k - 1] == digits[..k][k - 1];
        var e: int := DigitsValue(digits[..k]);
        Some(Exponent((if signed then 2 else 1) + k, if s[1] == '-' then -e else e))
    else None
  }

  /** `v` times ten to the power `p`. */
  function Scale(v: real, p: int): (w: real)
    ensures v >= 0.0 ==> w >= 0.0
  {
    if p >= 0 then v * Pow10(p) as real else v / Pow10(-p) as real
  }

  /**
   * The longest unsigned decimal literal at the start of `s`, as the
   * StrUnsignedDecimalLiteral grammar of ECMA-262 spells it (less
   * "Infinity"): a decimal literal, then an optional exponent part.
   */
  function ScanUnsigned(s: string): (r: Option<Scan>)
    ensures r.Some? ==> 0 < r.value.length <= |s| && r.value.value >= 0.0
  {
    match ScanDecimal(s)
    case None => None
    case Some(m) =>
      match ScanExponent(s[m.length..])
      case None => Some(m)
      case Some(x) => Some(Scan(m.length + x.length, Scale(m.value, x.power)))
  }

  /** A decimal literal that runs to the end of the text has no exponent after it. */
  lemma {:induction false} WholeDecimal(s: string, v: real)
    requires ScanDecimal(s) == Some(Scan(|s|, v))
    ensures ScanUnsigned(s) == Some(Scan(|s|, v))
  {
    assert s[|s|..] == [];
  }

  /** A decimal literal not followed by an exponent part is the whole unsigned literal. */
  lemma {:induction false} DecimalWithoutExponent(s: string, n: nat, v: real)
    requires ScanDecimal(s) == Some(Scan(n, v)) && ScanExponent(s[n..]) == None
    ensures ScanUnsigned(s) == Some(Scan(n, v))
  {
  }

  /** A scanned literal ends in a digit or a point. */
  lemma {:induction false} ScanUnsignedLast(s: string)
    requires ScanUnsigned(s).Some?
    ensures var n := ScanUnsigned(s).value.length; IsDigit(s[n - 1]) || s[n - 1] == '.'
  {
    var m := ScanDecimal(s).value;
    var rest := s[m.length..];
    if ScanExponent(rest).None? {
      ScanDecimalChars(s);
    } else {
      var x := ScanExponent(rest).value;
      assert s[m.length + x.length - 1] == rest[x.length - 1];
    }
  }

  /** A decimal literal is made of digits and '.'. */
  lemma {:induction false} ScanDecimalChars(s: string)
    requires ScanDecimal(s).Some?
    ensures forall i | 0 <= i < ScanDecimal(s).value.length :: IsDigit(s[i]) || s[i] == '.'
  {
    var i := LeadingDigits(s);
    assert forall k | 0 <= k < i :: s[k] == s[..i][k];
    if i < |s| && s[i] == '.' {
      var rest := s[i + 1..];
      var j := LeadingDigits(rest);
      assert forall k | i < k < i + 1 + j :: s[k] == rest[..j][k - i - 1];
    }
  }

  /** An optional '+' or '-' followed by an unsigned decimal literal. */
  function ScanSigned(t: string): Option<Scan> {
    if t != [] && (t[0] == '-' || t[0] == '+') then
      match ScanUnsigned(t[1..])
      case None => None
      case Some(sc) => Some(Scan(sc.length + 1, if t[0] == '-' then -sc.value else sc.value))
    else ScanUnsigned(t)
  }

  /** `parseFloat(s)`; `None` stands for NaN. */
  function ParseFloat(s: string): Option<real> {
    match ScanSigned(TrimStart(s))
    case None => None
    case Some(sc) => Some(sc.value)
  }

  /** `Number(s)` for decimal text; `None` stands for NaN. */
  function NumberOf(s: string): Option<real> {
    var t := Trim(s);
    if t == [] then Some(0.0)
    else
      match ScanSigned(t)
      case Some(sc) => if sc.length == |t| then Some(sc.value) else None
      case None => None
  }

  // ---------------------------------------------------------------------
  // Upper-casing changes no scan: it leaves digits, points and signs alone,
  // and the exponent mark may be 'e' or 'E'.

  lemma {:induction false} LeadingDigitsUpper(s: string)
    ensures LeadingDigits(Upper(s)) == LeadingDigits(s)
  {
    if s != [] && IsDigit(s[0]) {
      UpperDrop(s, 1);
      LeadingDigitsUpper(s[1..]);
    }
  }

  /** The first k characters of `s` are digits, and upper-casing keeps them. */
  lemma {:induction false} UpperKeepsDigits(s: string, k: nat)
    requires k <= |s| && AllDigits(s[..k])
    ensures Upper(s)[..k] == s[..k]
  {
    UpperTake(s, k);
    UpperOfNoLowerCase(s[..k]);
  }

  /** Two texts with the same leading digits read alike as a run of digits. */
  predicate SameDigitRun(a: string, b: string) {
    LeadingDigits(a) == LeadingDigits(b) && a[..LeadingDigits(a)] == b[..LeadingDigits(b)]
  }

  lemma {:induction false} DigitRunUpper(s: string)
    ensures SameDigitRun(Upper(s), s)
  {
    LeadingDigitsUpper(s);
    UpperKeepsDigits(s, LeadingDigits(s));
  }

  lemma {:induction false} ScanDecimalAgree(a: string, b: string)
    requires SameDigitRun(a, b)
    requires var i := LeadingDigits(a); (i < |a| && a[i] == '.') == (i < |b| && b[i] == '.')
    requires var i := LeadingDigits(a); i < |a| && a[i] == '.' ==> SameDigitRun(a[i + 1..], b[i + 1..])
    ensures ScanDecimal(a) == ScanDecimal(b)
  {
  }

  lemma {:induction false} ScanDecimalUpper(s: string)
    ensures ScanDecimal(Upper(s)) == ScanDecimal(s)
  {
    var u := Upper(s);
    var i := LeadingDigits(s);
    DigitRunUpper(s);
    assert i < |s| ==> u[i] == UpperChar(s[i]);
    if i < |s| && s[i] == '.' {
      assert u[i + 1..] == Upper(s[i + 1..]) by {
        UpperDrop(s, i + 1);
      }
      DigitRunUpper(s[i + 1..]);
    }
    ScanDecimalAgree(u, s);
  }

  lemma {:induction false} ScanExponentAgree(a: string, b: string)
    requires |a| == |b|
    requires |a| >= 2 ==> (a[0] == 'e' || a[0] == 'E') == (b[0] == 'e' || b[0] == 'E')
    requires |a| >= 2 ==> (a[1] == '+') == (b[1] == '+') && (a[1] == '-') == (b[1] == '-')
    requires |a| >= 2 ==> var n := if a[1] == '+' || a[1] == '-' then 2 else 1; SameDigitRun(a[n..], b[n..])
    ensures ScanExponent(a) == ScanExponent(b)
  {
  }

  lemma {:induction false} ScanExponentUpper(s: string)
    ensures ScanExponent(Upper(s)) == ScanExponent(s)
  {
    var u := Upper(s);
    if |s| >= 2 {
      var n := if s[1] == '+' || s[1] == '-' then 2 else 1;
      assert u[0] == UpperChar(s[0]) && u[1] == UpperChar(s[1]);
      assert u[n..] == Upper(s[n..]) by {
        UpperDrop(s, n);
      }
      DigitRunUpper(s[n..]);
    }
    ScanExponentAgree(u, s);
  }

  lemma {:induction false} ScanUnsignedAgree(a: string, b: string)
    requires ScanDecimal(a) == ScanDecimal(b)
    requires ScanDecimal(a).Some? ==> var n := ScanDecimal(a).value.length; ScanExponent(a[n..]) == ScanExponent(b[n..])
    ensures ScanUnsigned(a) == ScanUnsigned(b)
  {
  }

  lemma {:induction false} ScanUnsignedUpper(s: string)
    ensures ScanUnsigned(Upper(s)) == ScanUnsigned(s)
  {
    ScanDecimalUpper(s);
    if ScanDecimal(s).Some? {
      var n := ScanDecimal(s).value.length;
      assert Upper(s)[n..] == Upper(s[n..]) by {
        UpperDrop(s, n);
      }
      ScanExponentUpper(s[n..]);
    }
    ScanUnsignedAgree(Upper(s), s);
  }

  lemma {:induction false} ScanSignedAgree(a: string, b: string)
    requires (a != []) == (b != [])
    requires a != [] ==> (a[0] == '+') == (b[0] == '+') && (a[0] == '-') == (b[0] == '-')
    requires a != [] ==> ScanUnsigned(a[1..]) == ScanUnsigned(b[1..])
    requires ScanUnsigned(a) == ScanUnsigned(b)
    ensures ScanSigned(a) == ScanSigned(b)
  {
  }

  /** `parseFloat` and `Number` read upper- and lower-case exponent marks alike. */
  lemma {:induction false} ScanSignedUpper(t: string)
    ensures ScanSigned(Upper(t)) == ScanSigned(t)
  {
    var u := Upper(t);
    if t != [] {
      assert u[0] == UpperChar(t[0]);
      assert ScanUnsigned(u[1..]) == ScanUnsigned(t[1..]) by {
        UpperDrop(t, 1);
        ScanUnsignedUpper(t[1..]);
      }
    }
    assert ScanUnsigned(u) == ScanUnsigned(t) by {
      ScanUnsignedUpper(t);
    }
    ScanSignedAgree(u, t);
  }

  // ---------------------------------------------------------------------
  // Digit strings

  lemma {:induction false} DigitsValueConcat(a: string, b: string)
    requires AllDigits(a) && AllDigits(b)
    ensures AllDigits(a + b)
    ensures DigitsValue(a + b) == DigitsValue(a) * Pow10(|b|) + DigitsValue(b)
    decreases |b|
  {
    if b == [] {
      assert a + b == a;
    } else {
      var b' := b[..|b| - 1];
      var l := DigitValue(b[|b| - 1]);
      assert (a + b)[..|a + b| - 1] == a + b';
      assert (a + b)[|a + b| - 1] == b[|b| - 1];
      DigitsValueConcat(a, b');
      var x, y, p := DigitsValue(a), DigitsValue(b'), Pow10(|b'|);
      assert DigitsValue(a + b) == DigitsValue(a + b') * 10 + l;
      assert DigitsValue(b) == y * 10 + l;
      assert Pow10(|b|) == 10 * p;
      MulRegroup(x, p, y, l);
    }
  }

  lemma MulRegroup(x: int, p: int, y: int, l: int)
    ensures (x * p + y) * 10 + l == x * (10 * p) + (y * 10 + l)
  {
  }

  lemma {:induction false} ZerosValue(k: nat)
    ensures DigitsValue(Zeros(k)) == 0
  {
    if k > 0 {
      assert Zeros(k)[..k - 1] == Zeros(k - 1);
      ZerosValue(k - 1);
    }
  }

  lemma {:induction false} PadValue(s: string, w: nat)
    requires AllDigits(s)
    ensures DigitsValue(Pad(s, w)) == DigitsValue(s)
  {
    if |s| < w {
      DigitsValueConcat(Zeros(w - |s|), s);
      ZerosValue(w - |s|);
    }
  }

  lemma {:induction false} NatDigitsValue(n: nat)
    ensures DigitsValue(NatDigits(n)) == n
  {
    if n >= 10 {
      var s := NatDigits(n);
      assert s[..|s| - 1] == NatDigits(n / 10);
      NatDigitsValue(n / 10);
    }
  }

  lemma {:induction false} LeadingDigitsConcat(a: string, b: string)
    requires AllDigits(a)
    requires b != [] ==> !IsDigit(b[0])
    ensures LeadingDigits(a + b) == |a|
  {
    if a == [] {
      assert a + b == b;
    } else {
      assert (a + b)[1..] == a[1..] + b;
      LeadingDigitsConcat(a[1..], b);
    }
  }

  // ---------------------------------------------------------------------
  // toFixed / parseFloat round trip

  lemma SplitQuotient(a: real, b: real, p: real)
    requires p > 0.0
    ensures a + b / p == (a * p + b) / p
  {
  }

  /** A nonempty digit string is one whole unsigned literal worth its digits. */
  lemma {:induction false} ScanDigits(z: string)
    requires AllDigits(z) && z != []
    ensures ScanUnsigned(z) == Some(Scan(|z|, DigitsValue(z) as real))
  {
    LeadingDigitsConcat(z, []);
    assert z + [] == z;
    assert z[..|z|] == z;
    WholeDecimal(z, DigitsValue(z) as real);
  }

  /** Digits, a point and digits form one whole unsigned literal. */
  lemma {:induction false} ScanPointed(a: string, b: string)
    requires AllDigits(a) && AllDigits(b) && a != []
    ensures ScanUnsigned(a + "." + b)
      == Some(Scan(|a| + 1 + |b|, DigitsValue(a) as real + DigitsValue(b) as real / Pow10(|b|) as real))
  {
    var s := a + "." + b;
    var v := DigitsValue(a) as real + DigitsValue(b) as real / Pow10(|b|) as real;
    assert ScanDecimal(s) == Some(Scan(|s|, v)) by {
      assert s == a + ("." + b);
      LeadingDigitsConcat(a, "." + b);
      assert s[|a|] == '.';
      assert s[..|a|] == a;
      assert s[|a| + 1..] == b;
      LeadingDigitsConcat(b, []);
      assert b + [] == b;
      ScanWithPoint(s, |a|, |b|, a, b);
    }
    WholeDecimal(s, v);
  }

  /** A literal whose digits run up to a point, with only digits after it. */
  lemma {:induction false} ScanWithPoint(s: string, i: nat, j: nat, whole: string, fraction: string)
    requires i > 0 && i + 1 + j == |s| && LeadingDigits(s) == i && s[i] == '.'
    requires s[..i] == whole && s[i + 1..] == fraction && LeadingDigits(fraction) == j
    ensures ScanDecimal(s)
      == Some(Scan(i + 1 + j, DigitsValue(whole) as real + DigitsValue(fraction) as real / Pow10(j) as real))
  {
    assert fraction[..j] == fraction;
    var v := DigitsValue(whole) as real + DigitsValue(fraction) as real / Pow10(j) as real;
    var r := ScanDecimal(s);
    assert r.Some? && r.value.length == i + 1 + j && r.value.value == v;
    assert r.value == Scan(i + 1 + j, v);
  }

  lemma {:induction false} FixedDigitsValue(m: nat, d: nat)
    ensures DigitsValue(FixedDigits(m, d)) == m
  {
    NatDigitsValue(m);
    PadValue(NatDigits(m), d + 1);
  }

  /** With d > 0, `UnsignedFixed` puts a point before the last d digits; the result scans as m / 10^d. */
  lemma {:induction false} ScanFixedPointed(m: nat, d: nat)
    requires d > 0
    ensures var s := UnsignedFixed(m, d);
      s != [] && IsDigit(s[0]) && IsDigit(s[|s| - 1])
      && ScanUnsigned(s) == Some(Scan(|s|, m as real / Pow10(d) as real))
  {
    var z := FixedDigits(m, d);
    FixedDigitsValue(m, d);
    var a, b := z[..|z| - d], z[|z| - d..];
    assert z == a + b;
    var s := a + "." + b;
    assert UnsignedFixed(m, d) == s;
    assert s[0] == a[0] && s[|s| - 1] == b[|b| - 1];
    DigitsValueConcat(a, b);
    ScanPointed(a, b);
    PointArith(m, DigitsValue(a), DigitsValue(b), Pow10(d));
  }

  /** With d == 0, `UnsignedFixed` is the digits of m and scans as m. */
  lemma {:induction false} ScanFixedWhole(m: nat)
    ensures var s := UnsignedFixed(m, 0);
      s != [] && IsDigit(s[0]) && IsDigit(s[|s| - 1])
      && ScanUnsigned(s) == Some(Scan(|s|, m as real))
  {
    var z := FixedDigits(m, 0);
    FixedDigitsValue(m, 0);
    assert UnsignedFixed(m, 0) == z;
    assert IsDigit(z[0]) && IsDigit(z[|z| - 1]);
    ScanDigits(z);
  }

  lemma DivOne(x: real, p: nat)
    requires p == 1
    ensures x / p as real == x
  {
  }

  lemma PointArith(m: nat, x: nat, y: nat, p: nat)
    requires p >= 1 && m == x * p + y
    ensures x as real + y as real / p as real == m as real / p as real
  {
    assert m as real == x as real * p as real + y as real;
    SplitQuotient(x as real, y as real, p as real);
  }

  /** The text `UnsignedFixed` produces is one whole unsigned literal worth m / 10^d. */
  lemma {:induction false} ScanUnsignedFixed(m: nat, d: nat)
    ensures var s := UnsignedFixed(m, d);
      s != [] && IsDigit(s[0]) && IsDigit(s[|s| - 1])
      && ScanUnsigned(s) == Some(Scan(|s|, m as real / Pow10(d) as real))
  {
    if d == 0 {
      ScanFixedWhole(m);
      assert Pow10(d) == 1;
      DivOne(m as real, Pow10(d));
    } else {
      ScanFixedPointed(m, d);
    }
  }

  lemma DropSign(u: string)
    ensures ("-" + u)[1..] == u
  {
  }

  lemma {:induction false} ScanNegated(u: string, v: real)
    requires ScanUnsigned(u) == Some(Scan(|u|, v))
    ensures ScanSigned("-" + u) == Some(Scan(|u| + 1, -v))
  {
    DropSign(u);
  }

  lemma {:induction false} ScanUnsignedIsSigned(u: string, v: real)
    requires u != [] && IsDigit(u[0])
    requires ScanUnsigned(u) == Some(Scan(|u|, v))
    ensures ScanSigned(u) == Some(Scan(|u|, v))
  {
  }

  /** A signed `UnsignedFixed` text scans, as a whole, to its signed value. */
  lemma {:induction false} ScanSignedFixed(negative: bool, m: nat, d: nat)
    ensures var u := UnsignedFixed(m, d);
      var v := m as real / Pow10(d) as real;
      var s := if negative then "-" + u else u;
      ScanSigned(s) == Some(Scan(|s|, if negative then -v else v))
  {
    var u := UnsignedFixed(m, d);
    var v := m as real / Pow10(d) as real;
    ScanUnsignedFixed(m, d);
    if negative {
      ScanNegated(u, v);
    } else {
      ScanUnsignedIsSigned(u, v);
    }
  }

  /** `toFixed` output scans, as a whole, to `FixedValue`. */
  lemma {:induction false} ScanToFixed(x: real, d: nat)
    ensures ScanSigned(ToFixed(x, d)) == Some(Scan(|ToFixed(x, d)|, FixedValue(x, d)))
  {
    var m := RoundHalfUp(Abs(x), d);
    var u := UnsignedFixed(m, d);
    var v := m as real / Pow10(d) as real;
    assert ToFixed(x, d) == if x < 0.0 then "-" + u else u;
    assert FixedValue(x, d) == if x < 0.0 then -v else v;
    ScanSignedFixed(x < 0.0, m, d);
  }

  /** `toFixed` output starts with '-' or a digit and ends with a digit. */
  lemma {:induction false} ToFixedEnds(x: real, d: nat)
    ensures var s := ToFixed(x, d);
      s != [] && IsDigit(s[|s| - 1])
      && (if x < 0.0 then s[0] == '-' else IsDigit(s[0]))
  {
    var m := RoundHalfUp(Abs(x), d);
    var u := UnsignedFixed(m, d);
    UnsignedFixedEnds(m, d);
    var s := ToFixed(x, d);
    if x < 0.0 {
      assert s == "-" + u;
      assert s[|s| - 1] == u[|u| - 1];
    } else {
      assert s == u;
    }
  }

  /** `UnsignedFixed` text starts and ends with a digit. */
  lemma UnsignedFixedEnds(m: nat, d: nat)
    ensures var u := UnsignedFixed(m, d);
      u != [] && IsDigit(u[0]) && IsDigit(u[|u| - 1])
  {
    var z := FixedDigits(m, d);
    if d > 0 {
      var u := z[..|z| - d] + "." + z[|z| - d..];
      assert u[0] == z[0] && u[|u| - 1] == z[|z| - 1];
    }
  }

  /** `toFixed` output is digits and '.', after a '-' when x < 0. */
  lemma {:induction false} ToFixedChars(x: real, d: nat)
    ensures var s := ToFixed(x, d);
      forall i | 0 <= i < |s| :: IsDigit(s[i]) || s[i] == '.' || (i == 0 && x < 0.0 && s[i] == '-')
  {
    var m := RoundHalfUp(Abs(x), d);
    var u := UnsignedFixed(m, d);
    UnsignedFixedChars(m, d);
    if x < 0.0 {
      var s := "-" + u;
      assert forall i | 1 <= i < |s| :: s[i] == u[i - 1];
    }
  }

  lemma UnsignedFixedChars(m: nat, d: nat)
    ensures var u := UnsignedFixed(m, d);
      forall i | 0 <= i < |u| :: IsDigit(u[i]) || u[i] == '.'
  {
    var z := FixedDigits(m, d);
    if d > 0 {
      var u := z[..|z| - d] + "." + z[|z| - d..];
      assert forall i | 0 <= i < |z| - d :: u[i] == z[i];
      assert forall i | |z| - d < i < |u| :: u[i] == z[i - 1];
    }
  }

  /** Text that ends in something other than a digit or '.' is not a number. */
  lemma NumberOfNonDigitEnd(t: string)
    requires t != [] && !IsSpace(t[0]) && !IsSpace(t[|t| - 1])
    requires !IsDigit(t[|t| - 1]) && t[|t| - 1] != '.'
    ensures NumberOf(t) == None
  {
    TrimOfTrimmed(t);
    if t[0] == '-' || t[0] == '+' {
      if ScanUnsigned(t[1..]).Some? {
        ScanUnsignedLast(t[1..]);
        assert |t| >= 2 ==> t[1..][|t| - 2] == t[|t| - 1];
      }
    } else if ScanUnsigned(t).Some? {
      ScanUnsignedLast(t);
    }
  }

  /** Trimmed text whose literal stops before its end is not a number for `Number`. */
  lemma {:induction false} PartialScan(t: string, n: nat, v: real)
    requires t != [] && !IsSpace(t[0]) && !IsSpace(t[|t| - 1])
    requires ScanSigned(t) == Some(Scan(n, v)) && n < |t|
    ensures NumberOf(t) == None
  {
    TrimOfTrimmed(t);
  }

  /** Trimmed text scanned to its end is one number for both `Number` and `parseFloat`. */
  lemma WholeScan(t: string, v: real)
    requires t != [] && !IsSpace(t[0]) && !IsSpace(t[|t| - 1])
    requires ScanSigned(t) == Some(Scan(|t|, v))
    ensures NumberOf(t) == Some(v) && ParseFloat(t) == Some(v)
  {
    TrimOfTrimmed(t);
    TrimStartOfTrimmed(t);
  }

  /**
   * `parseFloat` stops at the first character that cannot continue the
   * literal: digits followed by anything that is neither a digit, a point
   * nor an exponent part read as the digits' value.
   */
  lemma {:induction false} ParseFloatDigitPrefix(digits: string, rest: string)
    requires digits != [] && AllDigits(digits)
    requires rest != [] ==> !IsDigit(rest[0]) && rest[0] != '.'
    requires ScanExponent(rest) == None
    ensures ParseFloat(digits + rest) == Some(DigitsValue(digits) as real)
  {
    var t := digits + rest;
    LeadingDigitsConcat(digits, rest);
    assert t[..|digits|] == digits;
    var r := ScanDecimal(t);
    assert r.Some? && r.value.length == |digits| && r.value.value == DigitsValue(digits) as real;
    assert t[|digits|..] == rest;
    DecimalWithoutExponent(t, |digits|, DigitsValue(digits) as real);
    TrimStartOfTrimmed(t);
  }

  /** An unsigned exponent part reads as the power its digits spell. */
  lemma {:induction false} ScanExponentDigits(mark: char, power: string, rest: string)
    requires mark == 'e' || mark == 'E'
    requires power != [] && AllDigits(power)
    requires rest != [] ==> !IsDigit(rest[0])
    ensures ScanExponent([mark] + power + rest) == Some(Exponent(1 + |power|, DigitsValue(power)))
  {
    var e := [mark] + power + rest;
    assert e[1..] == power + rest;
    LeadingDigitsConcat(power, rest);
    assert e[1..][..|power|] == power;
  }

  /** Digits and an unsigned exponent part form one unsigned literal worth the digits times 10^power. */
  lemma {:induction false} ScanExponentLiteral(digits: string, mark: char, power: string, rest: string)
    requires digits != [] && AllDigits(digits)
    requires mark == 'e' || mark == 'E'
    requires power != [] && AllDigits(power)
    requires rest != [] ==> !IsDigit(rest[0])
    ensures ScanUnsigned(digits + [mark] + power + rest)
      == Some(Scan(|digits| + 1 + |power|, Scale(DigitsValue(digits) as real, DigitsValue(power))))
  {
    var e := [mark] + power + rest;
    assert digits + [mark] + power + rest == digits + e;
    var x := Exponent(1 + |power|, DigitsValue(power));
    assert ScanUnsigned(digits + e) == Some(Scan(|digits| + x.length, Scale(DigitsValue(digits) as real, x.power))) by {
      assert ScanExponent(e) == Some(x) by {
        ScanExponentDigits(mark, power, rest);
      }
      assert e[0] == mark;
      DecimalThenExponent(digits, e, x);
    }
  }

  /** Digits, then an exponent part: the digits' value scaled by its power of ten. */
  lemma {:induction false} DecimalThenExponent(digits: string, e: string, x: Exponent)
    requires digits != [] && AllDigits(digits)
    requires e != [] && !IsDigit(e[0]) && e[0] != '.'
    requires ScanExponent(e) == Some(x)
    ensures ScanUnsigned(digits + e) == Some(Scan(|digits| + x.length, Scale(DigitsValue(digits) as real, x.power)))
  {
    var t := digits + e;
    assert ScanDecimal(t) == Some(Scan(|digits|, DigitsValue(digits) as real)) by {
      DigitsBeforeMark(digits, e);
    }
    assert ScanExponent(t[|digits|..]) == Some(x) by {
      assert t[|digits|..] == e;
    }
    DecimalWithExponent(t, |digits|, DigitsValue(digits) as real, x);
  }

  /** A decimal literal followed by an exponent part. */
  lemma {:induction false} DecimalWithExponent(s: string, n: nat, v: real, x: Exponent)
    requires ScanDecimal(s) == Some(Scan(n, v)) && n <= |s|
    requires ScanExponent(s[n..]) == Some(x)
    ensures ScanUnsigned(s) == Some(Scan(n + x.length, Scale(v, x.power)))
  {
  }

  /** Digits followed by something other than a digit or a point are a decimal literal of their own. */
  lemma {:induction false} DigitsBeforeMark(digits: string, e: string)
    requires digits != [] && AllDigits(digits)
    requires e != [] && !IsDigit(e[0]) && e[0] != '.'
    ensures ScanDecimal(digits + e) == Some(Scan(|digits|, DigitsValue(digits) as real))
  {
    var t := digits + e;
    LeadingDigitsConcat(digits, e);
    assert t[..|digits|] == digits;
    assert t[|digits|] == e[0];
  }

  /**
   * Digits followed by an exponent part read as the digits' value scaled by
   * that power of ten: `parseFloat("12e5")` is 1200000, and so is
   * `parseFloat("12E5px")`.
   */
  lemma {:induction false} ParseFloatExponent(digits: string, mark: char, power: string, rest: string)
    requires digits != [] && AllDigits(digits)
    requires mark == 'e' || mark == 'E'
    requires power != [] && AllDigits(power)
    requires rest != [] ==> !IsDigit(rest[0])
    ensures ParseFloat(digits + [mark] + power + rest) == Some(Scale(DigitsValue(digits) as real, DigitsValue(power)))
  {
    var t := digits + [mark] + power + rest;
    ScanExponentLiteral(digits, mark, power, rest);
    assert t[0] == digits[0];
    TrimStartOfTrimmed(t);
  }

  /**
   * Both parseFloat and Number read x.toFixed(d) back as x rounded half-up
   * to d decimals: the text is one whole decimal literal.
   */
  lemma {:induction false} ToFixedReadsBack(x: real, d: nat)
    ensures NumberOf(ToFixed(x, d)) == Some(FixedValue(x, d))
    ensures ParseFloat(ToFixed(x, d)) == Some(FixedValue(x, d))
  {
    var s := ToFixed(x, d);
    assert s != [] && !IsSpace(s[0]) && !IsSpace(s[|s| - 1]) by {
      ToFixedEnds(x, d);
    }
    assert ScanSigned(s) == Some(Scan(|s|, FixedValue(x, d))) by {
      ScanToFixed(x, d);
    }
    WholeScan(s, FixedValue(x, d));
  }

  /** Rounding to d decimals moves a number by at most half a unit in the last place. */
  lemma {:induction false} FixedValueError(x: real, d: nat)
    ensures Abs(FixedValue(x, d) - x) <= 0.5 / Pow10(d) as real
  {
    var p := Pow10(d) as real;
    var a := Abs(x);
    var m := RoundHalfUp(a, d) as real;
    RoundHalfUpBounds(a, d);
    HalfUnitBound(a, m, p);
  }

  lemma RoundHalfUpBounds(a: real, d: nat)
    requires a >= 0.0
    ensures var m := RoundHalfUp(a, d) as real;
      m <= a * Pow10(d) as real + 0.5 < m + 1.0
  {
  }

  lemma HalfUnitBound(a: real, m: real, p: real)
    requires p > 0.0 && m <= a * p + 0.5 < m + 1.0
    ensures -0.5 / p <= m / p - a <= 0.5 / p
  {
    assert m / p <= (a * p + 0.5) / p;
    assert (a * p - 0.5) / p <= m / p;
  }

}
