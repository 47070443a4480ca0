/**
 * `esc_log`: how the plugin turns any value into the detail field of a log line.
 * The value is serialized, cut to 200 characters, every maximal run of characters of
 * Unicode general category C (control, format, private use, unassigned) is replaced by
 * one inverted question mark, and the result is wrapped as ` (` ... `)`.
 */
module LogEscape {
  import opened Wrappers
  import opened PhpStrings
  import opened PhpValues

  /** The longest serialized text `esc_log` keeps, in characters. */
  const MaxDetail: nat := 200

  /** U+00BF, whose UTF-8 encoding is the two bytes 0xC2 0xBF. */
  const Mark: char := '\U{BF}'

  /**
   * Membership in Unicode general category C, as PCRE's `\p{C}` tests it: all of Cc,
   * the common Cf characters, all of Co and the noncharacters of Cn. Surrogates (Cs)
   * are not Unicode scalar values and so never occur in a `string`.
   */
  predicate IsOther(c: char): (b: bool)
    ensures c == '\n' || c == '\r' || c == '\t' || c == '\0' ==> b
    ensures ' ' <= c <= '~' ==> !b
  {
    var v := c as int;
    v < 0x20 || (0x7F <= v < 0xA0) || v == 0xAD
    || (0x600 <= v && (v % 0x1_0000 >= 0xFFFE || InRanges(v, UpperOtherRanges)))
  }

  /** The category-C code points from U+0600 up, as inclusive ranges. */
  const UpperOtherRanges: seq<(int, int)> := [
    (0x600, 0x605), (0x61C, 0x61C), (0x6DD, 0x6DD), (0x70F, 0x70F), (0x180E, 0x180E),
    (0x200B, 0x200F), (0x202A, 0x202E), (0x2060, 0x2064), (0x2066, 0x206F),
    (0xE000, 0xF8FF), (0xFDD0, 0xFDEF), (0xFEFF, 0xFEFF), (0xFFF9, 0xFFFB),
    (0x110BD, 0x110BD), (0xE0001, 0xE007F), (0xF_0000, 0x10_FFFF)
  ]

  predicate InRanges(v: int, ranges: seq<(int, int)>) {
    exists k :: 0 <= k < |ranges| && ranges[k].0 <= v <= ranges[k].1
  }

  /** `s` holds no category-C character: it prints on one line. */
  predicate Printable(s: string) {
    forall i :: 0 <= i < |s| ==> !IsOther(s[i])
  }

  lemma PrintableConcat(a: string, b: string)
    requires Printable(a) && Printable(b)
    ensures Printable(a + b)
  {
  }

  /** Decimal digits are printable. */
  lemma DigitsPrintable(d: string)
    requires AllDigits(d)
    ensures Printable(d)
  {
  }

  /** `s` without its leading run of category-C characters. */
  function DropOthers(s: string): (r: string)
    ensures |r| <= |s|
    ensures r == [] || !IsOther(r[0])
  {
    if s != [] && IsOther(s[0]) then DropOthers(s[1..]) else s
  }

  /** What `DropOthers` removes is a run of category-C characters, and what it keeps is a suffix. */
  lemma {:induction false} DropOthersSuffix(s: string)
    ensures DropOthers(s) == s[|s| - |DropOthers(s)|..]
    ensures forall i :: 0 <= i < |s| - |DropOthers(s)| ==> IsOther(s[i])
  {
    if s != [] && IsOther(s[0]) {
      DropOthersSuffix(s[1..]);
    }
  }

  /**
   * `preg_replace('/[^\P{C}]+/u', "\xC2\xBF", $s)`: every maximal run of category-C
   * characters becomes one `Mark`; everything else is kept in order.
   */
  function Sanitize(s: string): (r: string)
    ensures |r| <= |s|
    decreases |s|
  {
    if s == [] then []
    else if IsOther(s[0]) then [Mark] + Sanitize(DropOthers(s[1..]))
    else [s[0]] + Sanitize(s[1..])
  }

  /** No category-C character survives sanitizing. */
  lemma {:induction false} SanitizePrintable(s: string)
    ensures Printable(Sanitize(s))
    decreases |s|
  {
    if s != [] {
      if IsOther(s[0]) {
        SanitizePrintable(DropOthers(s[1..]));
      } else {
        SanitizePrintable(s[1..]);
      }
    }
  }

  /** Text without category-C characters passes through unchanged. */
  lemma {:induction false} SanitizeKeepsPrintable(s: string)
    requires Printable(s)
    ensures Sanitize(s) == s
  {
    if s != [] {
      assert !IsOther(s[0]);
      SanitizeKeepsPrintable(s[1..]);
    }
  }

  /** A non-empty run of category-C characters collapses to a single mark. */
  lemma SanitizeRun(s: string)
    requires s != [] && forall i :: 0 <= i < |s| ==> IsOther(s[i])
    ensures Sanitize(s) == [Mark]
  {
    DropOthersSuffix(s[1..]);
  }

  lemma {:induction false} DropOthersAppend(a: string, b: string)
    ensures DropOthers(a + b) == if DropOthers(a) != [] then DropOthers(a) + b else DropOthers(b)
  {
    if a == [] {
      assert a + b == b;
    } else if IsOther(a[0]) {
      assert (a + b)[1..] == a[1..] + b;
      DropOthersAppend(a[1..], b);
    }
  }

  /**
   * Sanitizing distributes over a concatenation whenever the two halves do not split a
   * run of category-C characters. Together with `SanitizeRun` and the fact that printable
   * characters are kept, this pins down the replacement of every maximal run.
   */
  lemma {:induction false} SanitizeConcat(a: string, b: string)
    requires a == [] || b == [] || !IsOther(a[|a| - 1]) || !IsOther(b[0])
    ensures Sanitize(a + b) == Sanitize(a) + Sanitize(b)
    decreases |a|, 2
  {
    if a == [] {
      assert a + b == b;
    } else if !IsOther(a[0]) {
      assert (a + b)[1..] == a[1..] + b;
      SanitizeConcat(a[1..], b);
    } else {
      SanitizeConcatRun(a, b);
    }
  }

  /** The case of `SanitizeConcat` where `a` starts with a category-C character. */
  lemma {:induction false} SanitizeConcatRun(a: string, b: string)
    requires a != [] && IsOther(a[0])
    requires b == [] || !IsOther(a[|a| - 1]) || !IsOther(b[0])
    ensures Sanitize(a + b) == Sanitize(a) + Sanitize(b)
    decreases |a|, 1
  {
    if b == [] {
      assert a + b == a;
    } else if DropOthers(a[1..]) != [] {
      SanitizeRunThenText(a, b);
    } else {
      SanitizeRunThenB(a, b);
    }
  }

  /** `a` is a run followed by more text: the rest of `a` absorbs `b`. */
  lemma {:induction false} SanitizeRunThenText(a: string, b: string)
    requires a != [] && IsOther(a[0]) && DropOthers(a[1..]) != []
    requires b == [] || !IsOther(a[|a| - 1]) || !IsOther(b[0])
    ensures Sanitize(a + b) == Sanitize(a) + Sanitize(b)
    decreases |a|, 0
  {
    var rest := DropOthers(a[1..]);
    SanitizeRunAppend(a, b);
    DropOthersLast(a[1..]);
    SanitizeConcat(rest, b);
    var x, y := Sanitize(rest), Sanitize(b);
    assert Sanitize(a) == [Mark] + x;
    assert Sanitize(a + b) == [Mark] + (x + y);
  }

  /** The run that opens `a` is replaced, and what follows it in `a` is still followed by `b`. */
  lemma SanitizeRunAppend(a: string, b: string)
    requires a != [] && IsOther(a[0]) && DropOthers(a[1..]) != []
    ensures Sanitize(a) == [Mark] + Sanitize(DropOthers(a[1..]))
    ensures Sanitize(a + b) == [Mark] + Sanitize(DropOthers(a[1..]) + b)
  {
    SanitizeOtherHead(a, b);
    DropOthersAppend(a[1..], b);
  }

  /** What `DropOthers` keeps, when anything, ends where its input ends. */
  lemma DropOthersLast(s: string)
    requires DropOthers(s) != []
    ensures DropOthers(s)[|DropOthers(s)| - 1] == s[|s| - 1]
  {
    DropOthersSuffix(s);
  }

  /** `a` is nothing but a run, so `b` must open with a kept character. */
  lemma {:induction false} SanitizeRunThenB(a: string, b: string)
    requires a != [] && IsOther(a[0]) && DropOthers(a[1..]) == []
    requires b != [] && (!IsOther(a[|a| - 1]) || !IsOther(b[0]))
    ensures Sanitize(a + b) == Sanitize(a) + Sanitize(b)
  {
    SanitizeOtherHead(a, b);
    DropOthersAppend(a[1..], b);
    DropOthersSuffix(a[1..]);
    assert IsOther(a[|a| - 1]) by {
      if |a| > 1 {
        assert a[|a| - 1] == a[1..][|a| - 2];
      }
    }
    assert DropOthers(b) == b;
  }

  /** One step of `Sanitize` on `a + b` when `a` opens with a category-C character. */
  lemma SanitizeOtherHead(a: string, b: string)
    requires a != [] && IsOther(a[0])
    ensures Sanitize(a) == [Mark] + Sanitize(DropOthers(a[1..]))
    ensures Sanitize(a + b) == [Mark] + Sanitize(DropOthers(a[1..] + b))
  {
    assert (a + b)[1..] == a[1..] + b;
  }

  /** `esc_log($v)`: ` (` + the sanitized first 200 characters of `serialize($v)` + `)`. */
  function EscLog(v: Value): (r: string)
    ensures 3 <= |r| <= MaxDetail + 3
    ensures r[..2] == " (" && r[|r| - 1] == ')'
    ensures Printable(r)
  {
    var inner := Sanitize(Head(Serialize(v), MaxDetail));
    SanitizePrintable(Head(Serialize(v), MaxDetail));
    " (" + inner + ")"
  }

  /** The text between ` (` and `)` of an escaped detail. */
  function Detail(escaped: string): string
    requires |escaped| >= 3
  {
    escaped[2..|escaped| - 1]
  }

  /** Helper for `EscLogTruncates`: reads the text between the brackets back out of `EscLog`. */
  lemma EscLogDetail(v: Value)
    ensures |Detail(EscLog(v))| <= MaxDetail
    ensures Printable(Detail(EscLog(v)))
    ensures Detail(EscLog(v)) == Sanitize(Head(Serialize(v), MaxDetail))
  {
    var inner := Sanitize(Head(Serialize(v), MaxDetail));
    assert EscLog(v) == " (" + inner + ")";
    assert Detail(EscLog(v)) == inner;
  }

  /** A value whose serialization is printable and short enough is logged verbatim. */
  lemma EscLogPassThrough(v: Value)
    requires Printable(Serialize(v)) && |Serialize(v)| <= MaxDetail
    ensures EscLog(v) == " (" + Serialize(v) + ")"
  {
    assert Head(Serialize(v), MaxDetail) == Serialize(v);
    SanitizeKeepsPrintable(Serialize(v));
  }

  /** A printable serialization longer than 200 characters is cut to exactly 200. */
  lemma EscLogTruncates(v: Value)
    requires Printable(Serialize(v)) && |Serialize(v)| > MaxDetail
    ensures |Detail(EscLog(v))| == MaxDetail
    ensures Detail(EscLog(v)) == Serialize(v)[..MaxDetail]
  {
    var head := Head(Serialize(v), MaxDetail);
    assert Printable(head) by {
      forall i | 0 <= i < |head| ensures !IsOther(head[i]) { assert head[i] == Serialize(v)[i]; }
    }
    SanitizeKeepsPrintable(head);
    EscLogDetail(v);
  }

  /** The header and trailer `serialize` adds to a string are printable. */
  lemma SerializeStringPrintable(s: string)
    requires Printable(s)
    ensures Printable(Serialize(Str(s)))
  {
    DigitsPrintable(NatToDecimal(Utf8Length(s)));
  }

  /**
   * For printable text short enough to escape unchanged (the text, the digits of its byte count
   * and the six characters of `s:`, `:"` and `";` fit in 200), the logged detail can be read
   * back: unserializing what stands between ` (` and `)` gives the original string.
   */
  lemma LogDetailRoundTrip(s: string)
    requires Printable(s) && |s| + |NatToDecimal(Utf8Length(s))| + 6 <= MaxDetail
    ensures UnserializeString(Detail(EscLog(Str(s)))) == Some(s)
  {
    SerializedStringLength(s);
    SerializeStringPrintable(s);
    EscLogPassThrough(Str(s));
    var e := EscLog(Str(s));
    assert Detail(e) == Serialize(Str(s));
    StringRoundTrip(s);
  }
}
