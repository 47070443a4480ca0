/**
 * The PHP values the plugin passes to its logger and die handlers, with the three PHP
 * operations it applies to them: `is_scalar`, `empty`, the `(int)` cast, and `serialize`.
 */
module PhpValues {
  import opened Wrappers
  import opened PhpStrings

  /**
   * A PHP value. Arrays and objects are opaque: the model keeps only what the plugin
   * looks at (whether an array is empty) and the text `serialize()` produces for them.
   */
  datatype Value =
    | Null
    | Bool(b: bool)
    | Int(i: int)
    | Str(s: string)
    | Array(size: nat, serialized: string)
    | Object(serialized: string)

  /** `is_scalar($v)`. */
  predicate IsScalar(v: Value): (b: bool)
    ensures b <==> !(v.Null? || v.Array? || v.Object?)
  {
    v.Bool? || v.Int? || v.Str?
  }

  /** `empty($v)`: null, false, 0, `''`, `'0'` and the empty array. */
  predicate IsEmpty(v: Value) {
    match v
    case Null => true
    case Bool(b) => !b
    case Int(i) => i == 0
    case Str(s) => IsEmptyString(s)
    case Array(n, _) => n == 0
    case Object(_) => false
  }

  // ---------------------------------------------------------------- the (int) cast

  /** The whitespace PHP skips before a leading-numeric string. */
  predicate IsNumericSpace(c: char) {
    c == ' ' || c == '\t' || c == '\n' || c == '\r' || c == '\U{0B}' || c == '\U{0C}'
  }

  function SkipSpace(s: string): (r: string)
    ensures |r| <= |s| && r == s[|s| - |r|..]
    ensures r == [] || !IsNumericSpace(r[0])
  {
    if s != [] && IsNumericSpace(s[0]) then SkipSpace(s[1..]) else s
  }

  /** `(int) $s` for a string: leading whitespace, an optional sign, then the digits that follow. */
  function IntCastString(s: string): int {
    var t := SkipSpace(s);
    if t != [] && t[0] == '-' then -(ParseDecimal(DigitPrefix(t[1..])) as int)
    else if t != [] && t[0] == '+' then ParseDecimal(DigitPrefix(t[1..]))
    else ParseDecimal(DigitPrefix(t))
  }

  /** `(int) $v` for a scalar. */
  function IntCast(v: Value): int
    requires IsScalar(v)
  {
    match v
    case Bool(b) => if b then 1 else 0
    case Int(i) => i
    case Str(s) => IntCastString(s)
  }

  /**
   * A string casts to a negative integer exactly when, after leading whitespace, it has a
   * minus sign followed by digits that are not all zero (so `'-1'` does, `'-0'` and `'abc'` do not).
   */
  lemma IntCastStringNegative(s: string)
    ensures IntCastString(s) < 0 <==>
      var t := SkipSpace(s);
      t != [] && t[0] == '-' && HasNonZeroDigit(DigitPrefix(t[1..]))
  {
    var t := SkipSpace(s);
    if t != [] && t[0] == '-' {
      ParseDecimalPositive(DigitPrefix(t[1..]));
    }
  }

  // ---------------------------------------------------------------- serialize

  /** `serialize($v)`. A string is written `s:<byte length>:"<text>";`. */
  function Serialize(v: Value): string {
    match v
    case Null => "N;"
    case Bool(b) => "b:" + (if b then "1" else "0") + ";"
    case Int(i) => "i:" + IntToDecimal(i) + ";"
    case Str(s) => "s:" + NatToDecimal(Utf8Length(s)) + ":\"" + s + "\";"
    case Array(_, text) => text
    case Object(text) => text
  }

  /**
   * `unserialize()` restricted to one string value: the header `s:<digits>:"`, the
   * trailer `";`, and a declared byte length that matches the text in between.
   */
  function UnserializeString(t: string): (r: Option<string>)
    ensures r.Some? ==> |r.value| + 7 <= |t| && t[|t| - |r.value| - 2..|t| - 2] == r.value
  {
    if |t| < 2 || t[0] != 's' || t[1] != ':' then None
    else
      var digits := DigitPrefix(t[2..]);
      if digits == [] then None
      else
        var text := QuotedText(t[2 + |digits|..]);
        if text.Some? && ParseDecimal(digits) == Utf8Length(text.value) then text else None
  }

  /** The text of `:"<text>";`. */
  function QuotedText(tail: string): (r: Option<string>)
    ensures r.Some? ==> |r.value| + 4 == |tail| && tail[2..|tail| - 2] == r.value
  {
    var n := |tail|;
    if n < 4 || tail[0] != ':' || tail[1] != '"' || tail[n - 2] != '"' || tail[n - 1] != ';' then None
    else Some(tail[2..n - 2])
  }

  lemma QuotedTextOf(s: string)
    ensures QuotedText(":\"" + s + "\";") == Some(s)
  {
    var q := ":\"" + s + "\";";
    var n := |q|;
    assert q[0] == ':' && q[1] == '"';
    assert q[n - 2] == '"' && q[n - 1] == ';';
    assert q[2..n - 2] == s;
  }

  /** `unserialize(serialize($s)) === $s` for every string. */
  lemma StringRoundTrip(s: string)
    ensures UnserializeString(Serialize(Str(s))) == Some(s)
  {
    var d := NatToDecimal(Utf8Length(s));
    var rest := ":\"" + s + "\";";
    var t := "s:" + (d + rest);
    assert Serialize(Str(s)) == t;
    assert t[0] == 's' && t[1] == ':';
    assert t[2..] == d + rest;
    DigitPrefixOfDigits(d, rest);
    assert t[2 + |d|..] == rest;
    QuotedTextOf(s);
    DecimalRoundTrip(Utf8Length(s));
  }

  /** The serialized form of a string is its text plus a fixed header and trailer. */
  lemma SerializedStringLength(s: string)
    ensures |Serialize(Str(s))| == |s| + |NatToDecimal(Utf8Length(s))| + 6
  {
  }
}
