/**
 * The JavaScript conversions the delay form relies on, over the values its
 * fields can hold: `null`, the text an input event delivers, or a number.
 * `String.prototype.trim`, `String(v)`, `Number(v)` and `Boolean(v)` are given
 * for exactly those values.
 */
module Coercion {
  import opened Decimal

  /** A JavaScript number, restricted to whole numbers and NaN. */
  datatype Number = Finite(value: int) | NaN

  /** What a field of the form may hold. */
  datatype Value = Null | Str(text: string) | Num(number: Number)

  /** JavaScript's WhiteSpace and LineTerminator characters, the ones `trim` and `Number` skip. */
  predicate IsWhitespace(c: char) {
    c == '\t' || c == '\n' || c == '\U{000B}' || c == '\U{000C}' || c == '\r' || c == ' '
    || c == '\U{00A0}' || c == '\U{1680}' || '\U{2000}' <= c <= '\U{200A}'
    || c == '\U{2028}' || c == '\U{2029}' || c == '\U{202F}' || c == '\U{205F}'
    || c == '\U{3000}' || c == '\U{FEFF}'
  }

  predicate NoWhitespace(s: string) {
    forall i :: 0 <= i < |s| ==> !IsWhitespace(s[i])
  }

  /** `s` without its leading white space. */
  function TrimStart(s: string): (r: string)
    ensures |r| <= |s| && r == s[|s| - |r|..]
    ensures forall i :: 0 <= i < |s| - |r| ==> IsWhitespace(s[i])
    ensures r == [] || !IsWhitespace(r[0])
  {
    if s != [] && IsWhitespace(s[0]) then TrimStart(s[1..]) else s
  }

  /** `s` without its trailing white space. */
  function TrimEnd(s: string): (r: string)
    ensures |r| <= |s| && r == s[..|r|]
    ensures forall i :: |r| <= i < |s| ==> IsWhitespace(s[i])
    ensures r == [] || !IsWhitespace(r[|r| - 1])
  {
    if s != [] && IsWhitespace(s[|s| - 1]) then TrimEnd(s[..|s| - 1]) else s
  }

  /** `s.trim()`. */
  function Trim(s: string): (t: string) {
    TrimEnd(TrimStart(s))
  }

  /** Trimming leaves nothing exactly when the string is all white space. */
  lemma TrimEmpty(s: string)
    ensures Trim(s) == [] <==> forall i :: 0 <= i < |s| ==> IsWhitespace(s[i])
  {
    var t := TrimStart(s);
    if Trim(s) == [] {
      assert t == [];
    }
  }

  /** A string without white space is its own trim. */
  lemma TrimNoWhitespace(s: string)
    requires NoWhitespace(s)
    ensures Trim(s) == s
  {
    if s != [] {
      assert !IsWhitespace(s[0]);
      assert TrimStart(s) == s;
      assert !IsWhitespace(s[|s| - 1]);
    }
  }

  /** `String(v)`. */
  function ToStr(v: Value): (s: string) {
    match v
    case Null => "null"
    case Str(s) => s
    case Num(Finite(n)) => DecimalString(n)
    case Num(NaN) => "NaN"
  }

  /** The text of a number never trims to nothing. */
  lemma NumberTextNotBlank(n: Number)
    ensures Trim(ToStr(Num(n))) != []
  {
    var s := ToStr(Num(n));
    assert !IsWhitespace(s[0]);
    TrimEmpty(s);
  }

  /** `Number(s)` for a string: optional sign and decimal digits between white space. */
  function StringToNumber(s: string): (n: Number) {
    var t := Trim(s);
    if t == [] then Finite(0)
    else if AllDigits(t) then Finite(DigitsValue(t))
    else if |t| > 1 && t[0] == '+' && AllDigits(t[1..]) then Finite(DigitsValue(t[1..]))
    else if |t| > 1 && t[0] == '-' && AllDigits(t[1..]) then Finite(-(DigitsValue(t[1..]) as int))
    else NaN
  }

  /** `Number(String(n))` is `n`: the decimal text of an integer reads back as that integer. */
  lemma NumberOfDecimalString(n: int)
    ensures StringToNumber(DecimalString(n)) == Finite(n)
  {
    var s := DecimalString(n);
    var m: nat := if n < 0 then -n else n;
    var digits := NaturalString(m);
    NaturalStringRoundTrip(m);
    if n >= 0 {
      assert s == digits;
    } else {
      assert s == "-" + digits && s[1..] == digits;
      assert !IsDigit(s[0]);
    }
    assert NoWhitespace(s) by {
      forall i | 0 <= i < |s|
        ensures !IsWhitespace(s[i])
      {
        if n >= 0 || i > 0 {
          assert IsDigit(s[i]);
        }
      }
    }
    TrimNoWhitespace(s);
  }

  /** `Number(v)`. */
  function ToNumber(v: Value): (n: Number) {
    match v
    case Null => Finite(0)
    case Str(s) => StringToNumber(s)
    case Num(n) => n
  }

  /** `Boolean(v)`. */
  predicate Truthy(v: Value) {
    match v
    case Null => false
    case Str(s) => s != ""
    case Num(Finite(n)) => n != 0
    case Num(NaN) => false
  }

  /** A numeral for a number that is at least zero: digits, '+' and digits, or '-' and only zeros. */
  predicate NonNegativeNumeral(t: string) {
    || (t != [] && AllDigits(t))
    || (|t| > 1 && t[0] == '+' && AllDigits(t[1..]))
    || (|t| > 1 && t[0] == '-' && AllDigits(t[1..]) && forall i :: 1 <= i < |t| ==> t[i] == '0')
  }

  /** A non-blank string converts to a finite number at least zero exactly when its
      trimmed text is a non-negative numeral. */
  lemma NonNegativeNumberIff(s: string)
    requires Trim(s) != []
    ensures (StringToNumber(s).Finite? && StringToNumber(s).value >= 0) <==> NonNegativeNumeral(Trim(s))
  {
    var t := Trim(s);
    if |t| > 1 && t[0] == '-' && AllDigits(t[1..]) {
      assert !IsDigit(t[0]);
      DigitsValueZero(t[1..]);
      assert forall i :: 1 <= i < |t| ==> t[i] == t[1..][i - 1];
    }
  }
}
