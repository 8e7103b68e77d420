/**
 * The slice of JavaScript value semantics that the dashboard's handlers rely on:
 * values held in table rows, strict equality, truthiness, `parseFloat`,
 * number-to-string conversion and `String.prototype.includes`.
 *
 * Numbers are modelled as integers; NaN is a value of its own.
 */
module JsValues {

  /** A value held in a row. A property that is absent reads as Undefined. */
  datatype Value = Undefined | Num(n: int) | Str(s: string) | NaN

  /** A plain JavaScript object: property name to value. */
  type Object = map<string, Value>

  /** `o[key]`: an absent property reads as undefined. */
  function Get(o: Object, key: string): Value {
    if key in o then o[key] else Undefined
  }

  /** `a === b`: NaN is equal to nothing, not even to itself. */
  predicate StrictEq(a: Value, b: Value) {
    match (a, b)
    case (Undefined, Undefined) => true
    case (Num(x), Num(y)) => x == y
    case (Str(x), Str(y)) => x == y
    case _ => false
  }

  /** `a !== b` */
  predicate StrictNe(a: Value, b: Value) {
    !StrictEq(a, b)
  }

  /** Strict equality is identity on every value except NaN. */
  lemma StrictEqIsIdentityExceptNaN(a: Value, b: Value)
    ensures StrictEq(a, b) <==> a == b && a != NaN
  {
  }

  /** The values that pass `!v`: undefined, NaN, 0 and the empty string are falsy. */
  predicate Truthy(v: Value) {
    match v
    case Undefined => false
    case NaN => false
    case Num(n) => n != 0
    case Str(s) => s != ""
  }

  predicate IsDigit(c: char) {
    '0' <= c <= '9'
  }

  /**
   * What `parseFloat` skips before the number: the WhiteSpace and LineTerminator
   * characters of ECMAScript (sections 12.2 and 12.3 of ECMA-262): tab, vertical
   * tab, form feed, space, no-break space, the byte order mark, the other space
   * separators of Unicode category Zs, and line feed, carriage return, line
   * separator and paragraph separator.
   */
  predicate IsSpace(c: char) {
    || c == '\t' || c == '\n' || c == '\U{000B}' || c == '\U{000C}' || c == '\r'
    || c == ' ' || c == '\U{00A0}' || c == '\U{1680}' || '\U{2000}' <= c <= '\U{200A}'
    || c == '\U{2028}' || c == '\U{2029}' || c == '\U{202F}' || c == '\U{205F}'
    || c == '\U{3000}' || c == '\U{FEFF}'
  }

  predicate AllDigits(s: string) {
    forall i :: 0 <= i < |s| ==> IsDigit(s[i])
  }

  function DigitValue(c: char): (d: nat)
    requires IsDigit(c)
    ensures d < 10
  {
    (c as int) - ('0' as int)
  }

  function DigitChar(d: nat): (c: char)
    requires d < 10
    ensures IsDigit(c) && DigitValue(c) == d
  {
    ('0' as int + d) as char
  }

  /** The length of the longest run of decimal digits at the start of `s`. */
  function DigitRun(s: string): (n: nat)
    ensures n <= |s|
    ensures AllDigits(s[..n])
    ensures n < |s| ==> !IsDigit(s[n])
  {
    if s == [] || !IsDigit(s[0]) then 0 else 1 + DigitRun(s[1..])
  }

  /** The number a string of decimal digits denotes, most significant digit first. */
  function DigitsValue(ds: string): nat
    requires AllDigits(ds)
  {
    if ds == [] then 0 else 10 * DigitsValue(ds[..|ds| - 1]) + DigitValue(ds[|ds| - 1])
  }

  /** `s` without its leading white space. */
  function TrimStart(s: string): (t: string)
    ensures |t| <= |s| && t == s[|s| - |t|..]
    ensures t != [] ==> !IsSpace(t[0])
  {
    if s != [] && IsSpace(s[0]) then TrimStart(s[1..]) else s
  }

  /**
   * `parseFloat` on a string, integer part only: leading white space is skipped,
   * an optional sign is read, then the longest run of digits; with no digit at
   * all the result is NaN. Whatever follows the digits is ignored.
   */
  function ParseNumber(s: string): (v: Value)
    ensures v.Num? || v == NaN
  {
    ParseTrimmed(TrimStart(s))
  }

  /** Reads an optional sign and the digits that follow it from text with no leading white space. */
  function ParseTrimmed(t: string): (v: Value)
    ensures v.Num? || v == NaN
  {
    var signed := t != [] && (t[0] == '-' || t[0] == '+');
    var u := if signed then t[1..] else t;
    var n := DigitRun(u);
    if n == 0 then NaN
    else if signed && t[0] == '-' then Num(-(DigitsValue(u[..n]) as int))
    else Num(DigitsValue(u[..n]))
  }

  /** `parseFloat(v)`: a number stays itself, a string is parsed, anything else is NaN. */
  function ParseFloat(v: Value): (r: Value)
    ensures r.Num? || r == NaN
    ensures v.Num? ==> r == v
    ensures v == Undefined ==> r == NaN
  {
    match v
    case Num(n) => Num(n)
    case Str(s) => ParseNumber(s)
    case _ => NaN
  }

  /** The decimal text of a natural number, without leading zeros. */
  function ShowNat(n: nat): (s: string)
    ensures s != [] && AllDigits(s)
    ensures s[0] != '0' || n == 0
  {
    if n < 10 then [DigitChar(n)] else ShowNat(n / 10) + [DigitChar(n % 10)]
  }

  /** `String(n)` for an integer. */
  function ShowInt(i: int): string {
    if i < 0 then "-" + ShowNat(-i) else ShowNat(i)
  }

  /** Reading back the digits `ShowNat` writes gives the number again. */
  lemma {:induction false} ShowNatValue(n: nat)
    ensures DigitsValue(ShowNat(n)) == n
  {
    if n >= 10 {
      var s := ShowNat(n);
      assert s[..|s| - 1] == ShowNat(n / 10);
      ShowNatValue(n / 10);
    }
  }

  /** A string made only of digits is one digit run. */
  lemma {:induction false} DigitRunOfDigits(s: string)
    requires AllDigits(s)
    ensures DigitRun(s) == |s|
  {
    if s != [] {
      DigitRunOfDigits(s[1..]);
    }
  }

  /** A non-empty digit string parses to the number it denotes. */
  lemma ParseDigits(ds: string)
    requires ds != [] && AllDigits(ds)
    ensures ParseNumber(ds) == Num(DigitsValue(ds))
  {
    var c := ds[0];
    assert IsDigit(c) && c != '-' && c != '+';
    assert !IsSpace(c);
    assert TrimStart(ds) == ds;
    DigitRunOfDigits(ds);
    assert ds[..|ds|] == ds;
  }

  /** A minus sign before a non-empty digit string negates the number. */
  lemma ParseNegatedDigits(ds: string)
    requires ds != [] && AllDigits(ds)
    ensures ParseNumber("-" + ds) == Num(-(DigitsValue(ds) as int))
  {
    var s := "-" + ds;
    assert s[0] == '-' && !IsSpace(s[0]);
    assert TrimStart(s) == s;
    assert s[1..] == ds;
    DigitRunOfDigits(ds);
    assert ds[..|ds|] == ds;
  }

  /** Leading white space does not change what `parseFloat` reads. */
  lemma LeadingSpaceIgnored(c: char, s: string)
    requires IsSpace(c)
    ensures ParseNumber([c] + s) == ParseNumber(s)
  {
    var t := [c] + s;
    assert t[0] == c && t[1..] == s;
    assert TrimStart(t) == TrimStart(s);
  }

  /** A no-break space before a digit is skipped: `parseFloat("\u00A05")` is 5. */
  lemma NoBreakSpaceThenDigit()
    ensures ParseNumber("\U{00A0}5") == Num(5)
  {
    LeadingSpaceIgnored('\U{00A0}', "5");
    assert "\U{00A0}5" == ['\U{00A0}'] + "5";
    ParseDigits("5");
  }

  /** `parseFloat` reads back the decimal text of a natural number. */
  lemma ParseShowNat(n: nat)
    ensures ParseNumber(ShowNat(n)) == Num(n)
  {
    ShowNatValue(n);
    ParseDigits(ShowNat(n));
  }

  /** `parseFloat` reads back a minus sign and the decimal text of a natural number. */
  lemma ParseShowNegated(n: nat)
    ensures ParseNumber("-" + ShowNat(n)) == Num(-(n as int))
  {
    ShowNatValue(n);
    ParseNegatedDigits(ShowNat(n));
  }

  /** `parseFloat(String(i)) === i` for every integer. */
  lemma ParseShowRoundTrip(i: int)
    ensures ParseNumber(ShowInt(i)) == Num(i)
  {
    if i < 0 {
      var m: nat := -i;
      ParseShowNegated(m);
      assert ShowInt(i) == "-" + ShowNat(m);
    } else {
      ParseShowNat(i);
    }
  }

  /** Converting a value to a string, as a property key and in a template literal do. */
  function ToStr(v: Value): string {
    match v
    case Undefined => "undefined"
    case NaN => "NaN"
    case Num(n) => ShowInt(n)
    case Str(s) => s
  }

  /** `s.includes(pat)`: `pat` occurs in `s` at some position. */
  predicate Includes(s: string, pat: string) {
    (|pat| <= |s| && s[..|pat|] == pat) || (s != [] && Includes(s[1..], pat))
  }

  /** `pat` occurs in `s` starting at index `i`. */
  predicate OccursAt(s: string, pat: string, i: int) {
    0 <= i <= |s| - |pat| && s[i..i + |pat|] == pat
  }

  /** `includes` holds exactly when the pattern occurs at some index. */
  lemma {:induction false} IncludesAt(s: string, pat: string)
    ensures Includes(s, pat) <==> exists i :: OccursAt(s, pat, i)
  {
    if Includes(s, pat) {
      if |pat| <= |s| && s[..|pat|] == pat {
        assert OccursAt(s, pat, 0);
      } else {
        IncludesAt(s[1..], pat);
        var i :| OccursAt(s[1..], pat, i);
        assert s[i + 1..i + 1 + |pat|] == s[1..][i..i + |pat|];
        assert OccursAt(s, pat, i + 1);
      }
    }
    if exists i :: OccursAt(s, pat, i) {
      var i :| OccursAt(s, pat, i);
      if i > 0 {
        assert s[1..][i - 1..i - 1 + |pat|] == s[i..i + |pat|];
        assert OccursAt(s[1..], pat, i - 1);
        IncludesAt(s[1..], pat);
      } else {
        assert s[..|pat|] == s[0..0 + |pat|];
      }
    }
  }

  /** A pattern whose first character does not occur in `s` is not included in it. */
  lemma NotIncludedWithoutFirstChar(s: string, pat: string)
    requires pat != [] && pat[0] !in s
    ensures !Includes(s, pat)
  {
    IncludesAt(s, pat);
    forall i ensures !OccursAt(s, pat, i) {
      if 0 <= i <= |s| - |pat| {
        assert s[i..i + |pat|][0] == s[i];
      }
    }
  }
}
