/**
 * The numeric shorthand codec of the prediction form
 * (src/assets/components/PredictionForm.js): `formatShorthand` displays a
 * number as "39.43M", "713K" or "17.80", and `parseShorthand` reads text
 * such as "39m" or " 713K " back into a number.
 *
 * A form field holds a JavaScript value: a number, NaN or a string.
 */
module Shorthand {
  import opened Wrappers
  import opened Decimal

  datatype Value = Num(n: real) | NaN | Text(s: string)

  /** JavaScript truthiness: 0, NaN and "" are falsy. */
  predicate Truthy(v: Value) {
    match v
    case Num(n) => n != 0.0
    case NaN => false
    case Text(s) => s != []
  }

  /** `parseFloat(v)`; `None` stands for NaN. */
  function ParseFloatValue(v: Value): Option<real> {
    match v
    case Num(n) => Some(n)
    case NaN => None
    case Text(s) => ParseFloat(s)
  }

  /** `Number(v)`, the coercion behind `isNaN(v)` and `v > 0`; `None` stands for NaN. */
  function ToNumber(v: Value): Option<real> {
    match v
    case Num(n) => Some(n)
    case NaN => None
    case Text(s) => NumberOf(s)
  }

  /** A number, or NaN for `None`. */
  function FromNumber(o: Option<real>): Value {
    match o
    case Some(n) => Num(n)
    case None => NaN
  }

  const Thousand: real := 1000.0
  const Million: real := 1000000.0
  const Billion: real := 1000000000.0

  /** The display text of a number: the first threshold met, largest first. */
  function FormatNumber(n: real): string {
    if n >= Billion then ToFixed(n / Billion, 2) + "B"
    else if n >= Million then ToFixed(n / Million, 2) + "M"
    else if n >= Thousand then ToFixed(n / Thousand, 0) + "K"
    else ToFixed(n, 2)
  }

  /**
   * `formatShorthand(num)`: the value itself or text, and non-empty text for
   * a truthy value that `parseFloat` reads.
   */
  function FormatShorthand(v: Value): (r: Value)
    ensures r == v || r.Text?
    ensures Truthy(v) && ParseFloatValue(v).Some? ==> r.Text? && r.s != []
  {
    if !Truthy(v) then Text("")
    else
      match ParseFloatValue(v)
      case None => v
      case Some(n) =>
        FormatNumberNonEmpty(n);
        Text(FormatNumber(n))
  }

  lemma FormatNumberNonEmpty(n: real)
    ensures FormatNumber(n) != []
  {
    ToFixedEnds(n, 2);
  }

  predicate IsSuffixLetter(c: char) {
    c == 'K' || c == 'M' || c == 'B'
  }

  function Multiplier(c: char): (k: real)
    requires IsSuffixLetter(c)
    ensures k >= Thousand
  {
    if c == 'K' then Thousand else if c == 'M' then Million else Billion
  }

  /** `s` matches `/^([\d.]+)([KMB])$/`. */
  predicate IsShorthand(s: string) {
    |s| >= 2 && IsSuffixLetter(s[|s| - 1])
    && forall i | 0 <= i < |s| - 1 :: IsDigit(s[i]) || s[i] == '.'
  }

  /** `parseFloat(num) * multiplier`. */
  function Scaled(o: Option<real>, k: real): Value {
    match o
    case Some(x) => Num(x * k)
    case None => NaN
  }

  /**
   * `parseShorthand(str)`. Whatever the input, the result is a number, NaN
   * or the empty string, never other text.
   */
  function ParseShorthand(str: string): (r: Value)
    ensures r.Text? ==> r.s == ""
  {
    if str == "" then Text("") else ParseNormalized(Trim(Upper(str)))
  }

  /** `parseShorthand` once its input is upper-cased and trimmed to `s`. */
  function ParseNormalized(s: string): (r: Value)
    ensures r.Text? ==> r.s == ""
  {
    if NumberOf(s).Some? then FromNumber(ParseFloat(s))
    else if IsShorthand(s) then Scaled(ParseFloat(s[..|s| - 1]), Multiplier(s[|s| - 1]))
    else
      match ParseFloat(s)
      case Some(x) => if x != 0.0 then Num(x) else Text("")
      case None => Text("")
  }

  /** Text with no lower-case letter and no white space at its ends is already normalised. */
  lemma Normalized(t: string)
    requires t != [] && NoLowerCase(t) && !IsSpace(t[0]) && !IsSpace(t[|t| - 1])
    ensures ParseShorthand(t) == ParseNormalized(t)
  {
    UpperOfNoLowerCase(t);
    TrimOfTrimmed(t);
  }

  /** Normalised text matching the shorthand pattern is scaled by its suffix. */
  lemma NormalizedSuffixed(t: string)
    requires IsShorthand(t)
    ensures ParseNormalized(t) == Scaled(ParseFloat(t[..|t| - 1]), Multiplier(t[|t| - 1]))
  {
    NumberOfNonDigitEnd(t);
  }

  /** Normalised text that is one number is read as that number. */
  lemma NormalizedNumber(t: string, v: real)
    requires NumberOf(t) == Some(v) && ParseFloat(t) == Some(v)
    ensures ParseNormalized(t) == Num(v)
  {
  }

  /** Normalised text that only `parseFloat` reads, as v, is v, or "" when v is 0. */
  lemma NormalizedPrefix(t: string, v: real)
    requires NumberOf(t) == None && !IsShorthand(t) && ParseFloat(t) == Some(v)
    ensures ParseNormalized(t) == if v == 0.0 then Text("") else Num(v)
  {
  }

  /**
   * Normalised text whose leading literal, n characters long, is worth v: a
   * number when the literal is all of it, and otherwise what `parseFloat`
   * reads, or "" when that is 0.
   */
  lemma {:induction false} LiteralNormalized(t: string, n: nat, v: real)
    requires t != [] && !IsSpace(t[0]) && !IsSpace(t[|t| - 1])
    requires ScanSigned(t) == Some(Scan(n, v)) && n <= |t|
    requires n < |t| ==> !IsShorthand(t)
    ensures ParseNormalized(t) == if v == 0.0 && n < |t| then Text("") else Num(v)
  {
    if n == |t| {
      WholeScan(t, v);
      NormalizedNumber(t, v);
    } else {
      PartialScan(t, n, v);
      TrimStartOfTrimmed(t);
      NormalizedPrefix(t, v);
    }
  }

  /** Text matching the shorthand pattern is read as its prefix times its multiplier. */
  lemma ShorthandText(t: string)
    requires IsShorthand(t)
    ensures ParseShorthand(t) == Scaled(ParseFloat(t[..|t| - 1]), Multiplier(t[|t| - 1]))
  {
    assert NoLowerCase(t);
    Normalized(t);
    NormalizedSuffixed(t);
  }

  /** Text with neither white space at its ends nor lower-case letters, that is one number. */
  lemma NumberText(t: string, v: real)
    requires t != [] && NoLowerCase(t) && !IsSpace(t[0]) && !IsSpace(t[|t| - 1])
    requires NumberOf(t) == Some(v) && ParseFloat(t) == Some(v)
    ensures ParseShorthand(t) == Num(v)
  {
    Normalized(t);
    NormalizedNumber(t, v);
  }

  // ---------------------------------------------------------------------
  // formatShorthand

  /** Falsy input is shown as "", and input that does not parse is shown unchanged. */
  lemma FormatShorthandNonNumeric(v: Value)
    requires !Truthy(v) || ParseFloatValue(v).None?
    ensures FormatShorthand(v) == if Truthy(v) then v else Text("")
  {
  }

  /**
   * The suffix is chosen by comparing n itself, largest threshold first:
   * "B" exactly when n >= 1e9, "M" exactly when 1e6 <= n < 1e9, "K" exactly
   * when 1e3 <= n < 1e6, and no suffix (a final digit) exactly when n < 1e3.
   */
  lemma FormatShorthandSuffix(n: real)
    requires n != 0.0
    ensures FormatShorthand(Num(n)).Text?
    ensures var t := FormatShorthand(Num(n)).s;
      t != []
      && (t[|t| - 1] == 'B' <==> n >= Billion)
      && (t[|t| - 1] == 'M' <==> Million <= n < Billion)
      && (t[|t| - 1] == 'K' <==> Thousand <= n < Million)
      && (IsDigit(t[|t| - 1]) <==> n < Thousand)
  {
    if n < Thousand {
      ToFixedEnds(n, 2);
    }
  }

  /** A negative number is never given a suffix: it is "-" and two decimals. */
  lemma NegativeHasNoSuffix(n: real)
    requires n < 0.0
    ensures FormatShorthand(Num(n)) == Text(ToFixed(n, 2))
    ensures var t := ToFixed(n, 2); t[0] == '-' && IsDigit(t[|t| - 1])
  {
    ToFixedEnds(n, 2);
  }

  // ---------------------------------------------------------------------
  // parseShorthand

  /** Suffixed text: the digits-and-dots prefix times the suffix's multiplier. */
  lemma {:induction false} ParseShorthandSuffixed(str: string, prefix: string, c: char)
    requires Trim(str) == prefix + [c]
    requires prefix != [] && forall i | 0 <= i < |prefix| :: IsDigit(prefix[i]) || prefix[i] == '.'
    requires IsSuffixLetter(UpperChar(c))
    ensures ParseShorthand(str) == Scaled(ParseFloat(prefix), Multiplier(UpperChar(c)))
  {
    var t := SuffixedNormalForm(str, prefix, c);
    NormalizedSuffixed(t);
  }

  lemma {:induction false} SuffixedNormalForm(str: string, prefix: string, c: char) returns (t: string)
    requires Trim(str) == prefix + [c]
    requires prefix != [] && forall i | 0 <= i < |prefix| :: IsDigit(prefix[i]) || prefix[i] == '.'
    requires IsSuffixLetter(UpperChar(c))
    ensures str != []
    ensures t == Trim(Upper(str))
    ensures IsShorthand(t)
    ensures t[..|t| - 1] == prefix
    ensures t[|t| - 1] == UpperChar(c)
  {
    t := prefix + [UpperChar(c)];
    assert t[..|t| - 1] == prefix;
    UpperOfNoLowerCase(prefix);
    UpperAppend(prefix, c);
    assert Upper(Trim(str)) == t;
    TrimUpper(str);
  }

  lemma UpperAppend(s: string, c: char)
    ensures Upper(s + [c]) == Upper(s) + [UpperChar(c)]
  {
  }

  /**
   * Text that is, once trimmed, one decimal literal is read as that number;
   * the literal may carry an exponent part in either case ("1e6").
   */
  lemma {:induction false} ParseShorthandPlain(str: string, v: real)
    requires Trim(str) != []
    requires ScanSigned(Trim(str)) == Some(Scan(|Trim(str)|, v))
    ensures ParseShorthand(str) == Num(v)
  {
    UpperLiteral(Trim(str), v);
    TrimUpper(str);
    assert str != "";
  }

  /** A whole decimal literal, upper-cased, reads as its value. */
  lemma {:induction false} UpperLiteral(t: string, v: real)
    requires t != [] && !IsSpace(t[0]) && !IsSpace(t[|t| - 1])
    requires ScanSigned(t) == Some(Scan(|t|, v))
    ensures ParseNormalized(Upper(t)) == Num(v)
  {
    var u := Upper(t);
    ScanSignedUpper(t);
    assert IsSpace(UpperChar(t[0])) == IsSpace(t[0]);
    assert IsSpace(UpperChar(t[|t| - 1])) == IsSpace(t[|t| - 1]);
    ScannedNormalized(u, v);
  }

  /** A whole decimal literal with no white space at its ends reads as its value. */
  lemma {:induction false} ScannedNormalized(t: string, v: real)
    requires t != [] && !IsSpace(t[0]) && !IsSpace(t[|t| - 1])
    requires ScanSigned(t) == Some(Scan(|t|, v))
    ensures ParseNormalized(t) == Num(v)
  {
    WholeScan(t, v);
    NormalizedNumber(t, v);
  }

  /** Upper- and lower-case spellings are read alike. */
  lemma ParseShorthandIgnoresCase(a: string, b: string)
    requires Upper(a) == Upper(b)
    ensures ParseShorthand(a) == ParseShorthand(b)
  {
    assert |a| == |Upper(a)| == |b|;
  }

  lemma {:induction false} ParseFloatDigits(z: string)
    requires z != [] && AllDigits(z)
    ensures ParseFloat(z) == Some(DigitsValue(z) as real)
  {
    ScanDigits(z);
    TrimStartOfTrimmed(z);
  }

  /**
   * A run of digits followed by one K, M or B in either case, with any
   * white space around it, is the digits' value times 1e3, 1e6 or 1e9.
   */
  lemma {:induction false} ParseShorthandDigits(str: string, digits: string, c: char)
    requires Trim(str) == digits + [c]
    requires digits != [] && AllDigits(digits)
    requires IsSuffixLetter(UpperChar(c))
    ensures ParseShorthand(str) == Scaled(Some(DigitsValue(digits) as real), Multiplier(UpperChar(c)))
  {
    ParseFloatDigits(digits);
    ParseShorthandSuffixed(str, digits, c);
  }

  /** Falsy input is read as "". */
  lemma ParseShorthandEmpty()
    ensures ParseShorthand("") == Text("")
  {
  }

  /**
   * Text that, once trimmed, starts with neither a digit, a point nor a
   * sign has no numeric prefix and is read as "".
   */
  lemma ParseShorthandNoNumber(str: string)
    requires Trim(str) != []
    requires var c := UpperChar(Trim(str)[0]); !IsDigit(c) && c != '.' && c != '+' && c != '-'
    ensures ParseShorthand(str) == Text("")
  {
    TrimUpper(str);
    assert str != "";
    NoNumberNormalized(Upper(Trim(str)));
  }

  lemma NoNumberNormalized(t: string)
    requires t != [] && !IsSpace(t[0]) && !IsSpace(t[|t| - 1])
    requires !IsDigit(t[0]) && t[0] != '.' && t[0] != '+' && t[0] != '-'
    ensures ParseNormalized(t) == Text("")
  {
    TrimStartOfTrimmed(t);
    TrimOfTrimmed(t);
    assert ScanUnsigned(t) == None;
  }

  /**
   * Text that trims to a run of digits followed by anything else that is
   * neither a single suffix letter nor an exponent part is read as the
   * digits' value by `parseFloat`, and as "" when that value is 0: "12abc"
   * is 12, "00Q" is "".
   */
  lemma {:induction false} ParseShorthandDigitPrefix(str: string, digits: string, rest: string)
    requires Trim(str) == digits + rest
    requires digits != [] && AllDigits(digits)
    requires rest != [] && !IsDigit(rest[0]) && rest[0] != '.'
    requires ScanExponent(rest) == None
    requires !(|rest| == 1 && IsSuffixLetter(UpperChar(rest[0])))
    ensures ParseShorthand(str)
      == if DigitsValue(digits) == 0 then Text("") else Num(DigitsValue(digits) as real)
  {
    var u := Upper(rest);
    var t := digits + u;
    assert Upper(digits + rest) == t by {
      assert forall i | 0 <= i < |digits| :: UpperChar(digits[i]) == digits[i];
      assert forall i | |digits| <= i < |t| :: t[i] == UpperChar(rest[i - |digits|]);
    }
    TrimUpper(str);
    assert str != "";
    ScanExponentUpper(rest);
    DigitPrefixNormalized(t, digits, u);
  }

  lemma {:induction false} DigitPrefixNormalized(t: string, digits: string, u: string)
    requires t == digits + u && t != [] && !IsSpace(t[|t| - 1])
    requires digits != [] && AllDigits(digits)
    requires u != [] && !IsDigit(u[0]) && u[0] != '.'
    requires ScanExponent(u) == None
    requires !(|u| == 1 && IsSuffixLetter(u[0]))
    ensures ParseNormalized(t)
      == if DigitsValue(digits) == 0 then Text("") else Num(DigitsValue(digits) as real)
  {
    var v := DigitsValue(digits) as real;
    assert t[0] == digits[0];
    assert ScanSigned(t) == Some(Scan(|digits|, v)) by {
      DigitsBeforeMark(digits, u);
      assert t[|digits|..] == u;
      DecimalWithoutExponent(t, |digits|, v);
    }
    assert !IsShorthand(t) by {
      if |u| > 1 {
        assert t[|digits|] == u[0];
      }
    }
    LiteralNormalized(t, |digits|, v);
  }

  /**
   * Text that trims to digits, an exponent mark in either case, more digits
   * and then anything but another digit is read through its exponent by
   * `Number` or `parseFloat`: "1e6" and "1e6k" are both 1000000.
   */
  lemma {:induction false} ParseShorthandExponent(str: string, digits: string, mark: char, power: string, rest: string)
    requires Trim(str) == digits + [mark] + power + rest
    requires digits != [] && AllDigits(digits)
    requires UpperChar(mark) == 'E'
    requires power != [] && AllDigits(power)
    requires rest != [] ==> !IsDigit(rest[0])
    ensures var v := Scale(DigitsValue(digits) as real, DigitsValue(power));
      ParseShorthand(str) == if v == 0.0 && rest != [] then Text("") else Num(v)
  {
    var v := Scale(DigitsValue(digits) as real, DigitsValue(power));
    assert ParseNormalized(Trim(Upper(str))) == if v == 0.0 && rest != [] then Text("") else Num(v) by {
      var u := Upper(rest);
      UpperExponentTrimmed(str, digits, mark, power, rest);
      var t := Trim(Upper(str));
      assert !IsSpace(t[|t| - 1]);
      ExponentNormalized(t, digits, power, u);
    }
    assert str != "";
  }

  /** Upper-casing and trimming the text of an exponent literal leaves digits, "E", digits and the upper-cased tail. */
  lemma {:induction false} UpperExponentTrimmed(str: string, digits: string, mark: char, power: string, rest: string)
    requires Trim(str) == digits + [mark] + power + rest
    requires AllDigits(digits) && AllDigits(power) && UpperChar(mark) == 'E'
    requires rest != [] ==> !IsDigit(rest[0])
    ensures Trim(Upper(str)) == digits + ['E'] + power + Upper(rest)
    ensures rest != [] ==> !IsDigit(Upper(rest)[0])
  {
    assert Trim(Upper(str)) == digits + ['E'] + power + Upper(rest) by {
      UpperExponentText(digits, mark, power, rest);
      TrimUpper(str);
    }
    if rest != [] {
      assert Upper(rest)[0] == UpperChar(rest[0]);
    }
  }

  /** Upper-casing digits, an exponent mark and more digits changes only the mark and the tail. */
  lemma {:induction false} UpperExponentText(digits: string, mark: char, power: string, rest: string)
    requires AllDigits(digits) && AllDigits(power) && UpperChar(mark) == 'E'
    ensures Upper(digits + [mark] + power + rest) == digits + ['E'] + power + Upper(rest)
  {
    var s := digits + [mark] + power + rest;
    var t := digits + ['E'] + power + Upper(rest);
    var k := |digits| + 1 + |power|;
    assert forall i | 0 <= i < |digits| :: s[i] == digits[i] == t[i];
    assert s[|digits|] == mark && t[|digits|] == 'E';
    assert forall i | |digits| < i < k :: s[i] == power[i - |digits| - 1] == t[i];
    assert forall i | k <= i < |t| :: s[i] == rest[i - k] && t[i] == UpperChar(rest[i - k]);
  }

  lemma {:induction false} ExponentNormalized(t: string, digits: string, power: string, u: string)
    requires t == digits + ['E'] + power + u && !IsSpace(t[|t| - 1])
    requires digits != [] && AllDigits(digits)
    requires power != [] && AllDigits(power)
    requires u != [] ==> !IsDigit(u[0])
    ensures var v := Scale(DigitsValue(digits) as real, DigitsValue(power));
      ParseNormalized(t) == if v == 0.0 && u != [] then Text("") else Num(v)
  {
    var v := Scale(DigitsValue(digits) as real, DigitsValue(power));
    var n := |digits| + 1 + |power|;
    ExponentLiteral(t, digits, power, u);
    LiteralNormalized(t, n, v);
  }

  /** The literal of digits, "E" and digits at the start of `t`, and why `t` is no shorthand. */
  lemma {:induction false} ExponentLiteral(t: string, digits: string, power: string, u: string)
    requires t == digits + ['E'] + power + u
    requires digits != [] && AllDigits(digits)
    requires power != [] && AllDigits(power)
    requires u != [] ==> !IsDigit(u[0])
    ensures !IsSpace(t[0])
    ensures ScanSigned(t) == Some(Scan(|digits| + 1 + |power|, Scale(DigitsValue(digits) as real, DigitsValue(power))))
    ensures |digits| + 1 + |power| < |t| ==> !IsShorthand(t)
  {
    assert t[0] == digits[0];
    ScanExponentLiteral(digits, 'E', power, u);
    assert t[|digits|] == 'E';
  }

  /** "1e6k" is 1000000: `parseFloat` reads the exponent and stops before the "K". */
  lemma ExponentExample()
    ensures ParseShorthand("1e6k") == Num(1000000.0)
  {
    var str := "1e6k";
    assert Trim(str) == "1" + ['e'] + "6" + "k" by {
      TrimOfTrimmed(str);
    }
    assert Scale(DigitsValue("1") as real, DigitsValue("6")) == 1000000.0 by {
      assert DigitsValue("1") == 1 && DigitsValue("6") == 6;
      assert Pow10(6) == 1000000;
    }
    ParseShorthandExponent(str, "1", 'e', "6", "k");
  }

  // ---------------------------------------------------------------------
  // Round trip

  /** The number that the shorthand display of n stands for. */
  function ShownValue(n: real): real {
    if n >= Billion then FixedValue(n / Billion, 2) * Billion
    else if n >= Million then FixedValue(n / Million, 2) * Million
    else if n >= Thousand then FixedValue(n / Thousand, 0) * Thousand
    else FixedValue(n, 2)
  }

  /** Half a unit in the last displayed place, for the range n falls in. */
  function ShownError(n: real): real {
    if n >= Billion then 5000000.0
    else if n >= Million then 5000.0
    else if n >= Thousand then 500.0
    else 0.005
  }

  /** Digits and dots followed by a suffix letter are read as the prefix times the multiplier. */
  lemma SuffixedText(u: string, c: char)
    requires u != [] && forall i | 0 <= i < |u| :: IsDigit(u[i]) || u[i] == '.'
    requires IsSuffixLetter(c)
    ensures ParseShorthand(u + [c]) == Scaled(ParseFloat(u), Multiplier(c))
  {
    var t := u + [c];
    assert t[..|t| - 1] == u;
    ShorthandText(t);
  }

  lemma {:induction false} ParseSuffixedFixed(q: real, d: nat, c: char)
    requires q >= 0.0 && IsSuffixLetter(c)
    ensures ParseShorthand(ToFixed(q, d) + [c]) == Scaled(Some(FixedValue(q, d)), Multiplier(c))
  {
    ToFixedChars(q, d);
    ToFixedEnds(q, d);
    ToFixedReadsBack(q, d);
    SuffixedText(ToFixed(q, d), c);
  }

  lemma {:induction false} ParsePlainFixed(n: real, d: nat)
    ensures ParseShorthand(ToFixed(n, d)) == Num(FixedValue(n, d))
  {
    PlainFixedText(n, d);
    ToFixedReadsBack(n, d);
    NumberText(ToFixed(n, d), FixedValue(n, d));
  }

  /** `toFixed` output has no lower-case letter and no white space at its ends. */
  lemma {:induction false} PlainFixedText(n: real, d: nat)
    ensures ToFixed(n, d) != [] && NoLowerCase(ToFixed(n, d))
    ensures !IsSpace(ToFixed(n, d)[0]) && !IsSpace(ToFixed(n, d)[|ToFixed(n, d)| - 1])
  {
    ToFixedChars(n, d);
    ToFixedEnds(n, d);
  }

  /**
   * Reading back the display of a non-zero number gives the displayed
   * rounded quotient times the suffix's multiplier.
   */
  lemma {:induction false} ShorthandRoundTrip(n: real)
    requires n != 0.0
    ensures FormatShorthand(Num(n)).Text?
    ensures ParseShorthand(FormatShorthand(Num(n)).s) == Num(ShownValue(n))
  {
    if n >= Thousand {
      var q, d, c := SuffixBranch(n);
      ParseSuffixedFixed(q, d, c);
    } else {
      assert FormatShorthand(Num(n)) == Text(ToFixed(n, 2));
      assert ShownValue(n) == FixedValue(n, 2);
      ParsePlainFixed(n, 2);
    }
  }

  /** A non-zero number is displayed as its `FormatNumber` text. */
  lemma FormatShorthandOfNumber(n: real)
    requires n != 0.0
    ensures FormatShorthand(Num(n)) == Text(FormatNumber(n))
  {
  }

  /** For n >= 1e3 the display is some quotient q to d decimals plus a suffix. */
  lemma SuffixBranch(n: real) returns (q: real, d: nat, c: char)
    requires n >= Thousand
    ensures q >= 1.0 && IsSuffixLetter(c)
    ensures FormatShorthand(Num(n)) == Text(ToFixed(q, d) + [c])
    ensures Num(ShownValue(n)) == Scaled(Some(FixedValue(q, d)), Multiplier(c))
  {
    FormatShorthandOfNumber(n);
    if n >= Billion {
      q, d, c := BillionBranch(n);
    } else if n >= Million {
      q, d, c := MillionBranch(n);
    } else {
      q, d, c := ThousandBranch(n);
    }
  }

  lemma BillionBranch(n: real) returns (q: real, d: nat, c: char)
    requires n >= Billion
    ensures q >= 1.0 && c == 'B' && IsSuffixLetter(c)
    ensures FormatNumber(n) == ToFixed(q, d) + [c]
    ensures Num(ShownValue(n)) == Scaled(Some(FixedValue(q, d)), Multiplier(c))
  {
    q, d, c := n / Billion, 2, 'B';
    assert FormatNumber(n) == ToFixed(q, d) + "B";
    assert ShownValue(n) == FixedValue(q, d) * Billion;
    assert Multiplier(c) == Billion;
  }

  lemma MillionBranch(n: real) returns (q: real, d: nat, c: char)
    requires Million <= n < Billion
    ensures q >= 1.0 && c == 'M' && IsSuffixLetter(c)
    ensures FormatNumber(n) == ToFixed(q, d) + [c]
    ensures Num(ShownValue(n)) == Scaled(Some(FixedValue(q, d)), Multiplier(c))
  {
    q, d, c := n / Million, 2, 'M';
    assert FormatNumber(n) == ToFixed(q, d) + "M";
    assert ShownValue(n) == FixedValue(q, d) * Million;
    assert Multiplier(c) == Million;
  }

  lemma ThousandBranch(n: real) returns (q: real, d: nat, c: char)
    requires Thousand <= n < Million
    ensures q >= 1.0 && c == 'K' && IsSuffixLetter(c)
    ensures FormatNumber(n) == ToFixed(q, d) + [c]
    ensures Num(ShownValue(n)) == Scaled(Some(FixedValue(q, d)), Multiplier(c))
  {
    q, d, c := n / Thousand, 0, 'K';
    assert Multiplier(c) == Thousand;
  }

  lemma ScaledError(v: real, q: real, k: real, e: real)
    requires k > 0.0 && Abs(v - q) <= e
    ensures Abs(v * k - q * k) <= e * k
  {
    assert v * k - q * k == (v - q) * k;
  }

  /** The displayed value is off by at most half a unit in its last place. */
  lemma {:induction false} ShownValueError(n: real)
    ensures Abs(ShownValue(n) - n) <= ShownError(n)
  {
    assert Pow10(0) == 1 && Pow10(2) == 100;
    if n >= Billion {
      FixedValueError(n / Billion, 2);
      ScaledError(FixedValue(n / Billion, 2), n / Billion, Billion, 0.005);
    } else if n >= Million {
      FixedValueError(n / Million, 2);
      ScaledError(FixedValue(n / Million, 2), n / Million, Million, 0.005);
    } else if n >= Thousand {
      FixedValueError(n / Thousand, 0);
      ScaledError(FixedValue(n / Thousand, 0), n / Thousand, Thousand, 0.5);
    } else {
      FixedValueError(n, 2);
    }
  }

  /** "K" is shown without decimals: 1499 reads back as 1000. */
  lemma KiloRoundingExample()
    ensures ShownValue(1499.0) == 1000.0
  {
    assert Pow10(0) == 1;
    assert RoundHalfUp(1.499, 0) == 1;
  }
}
