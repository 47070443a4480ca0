/**
 * The PHP string built-ins the plugin relies on, stated over `string` (a sequence of
 * Unicode scalar values): `substr($s, 0, $n)`, `strstr`/`stristr` as a membership test,
 * ASCII case folding, `basename`, decimal rendering and parsing, and UTF-8 byte length.
 */
module PhpStrings {
  import opened Wrappers

  // ---------------------------------------------------------------- prefixes and substrings

  /** `substr($s, 0, $n)`: the first `n` characters, or all of `s` when it is shorter. */
  function Head(s: string, n: nat): (r: string)
    ensures |r| == if n <= |s| then n else |s|
    ensures r <= s
  {
    if n <= |s| then s[..n] else s
  }

  /** Comparing `substr($s, 0, strlen($p))` with `$p` is exactly a prefix test. */
  lemma HeadIsPrefixTest(s: string, p: string)
    ensures Head(s, |p|) == p <==> p <= s
  {
  }

  /** `needle` occurs in `hay` starting at index `i`. */
  predicate OccursAt(hay: string, needle: string, i: nat) {
    i + |needle| <= |hay| && hay[i..i + |needle|] == needle
  }

  /** `needle` occurs somewhere in `hay`. */
  ghost predicate Occurs(hay: string, needle: string) {
    exists i: nat :: OccursAt(hay, needle, i)
  }

  lemma OccursAtTail(hay: string, needle: string, i: nat)
    requires |hay| > 0
    ensures OccursAt(hay, needle, i + 1) <==> OccursAt(hay[1..], needle, i)
  {
    if i + 1 + |needle| <= |hay| {
      assert hay[i + 1..i + 1 + |needle|] == hay[1..][i..i + |needle|];
    }
  }

  /**
   * `strstr($hay, $needle)`: the index of the first occurrence of `needle` in `hay`,
   * or `None` where PHP returns `false`. An empty needle is found at 0 (PHP 8).
   */
  function Find(hay: string, needle: string): (r: Option<nat>)
    ensures r.Some? ==> OccursAt(hay, needle, r.value)
    decreases |hay|
  {
    if needle <= hay then
      Some(0)
    else if hay == [] then
      None
    else
      var rest := Find(hay[1..], needle);
      if rest.Some? then
        OccursAtTail(hay, needle, rest.value);
        Some(rest.value + 1)
      else
        None
  }

  /** `Find` misses no occurrence, and the one it reports comes first. */
  lemma {:induction false} FindFirst(hay: string, needle: string, j: nat)
    requires OccursAt(hay, needle, j)
    ensures Find(hay, needle).Some? && Find(hay, needle).value <= j
    decreases |hay|
  {
    if !(needle <= hay) {
      assert j > 0;
      OccursAtTail(hay, needle, j - 1);
      FindFirst(hay[1..], needle, j - 1);
    }
  }

  lemma FindIffOccurs(hay: string, needle: string)
    ensures Find(hay, needle).Some? <==> Occurs(hay, needle)
  {
    if Occurs(hay, needle) {
      var j: nat :| OccursAt(hay, needle, j);
      FindFirst(hay, needle, j);
    }
  }

  // ---------------------------------------------------------------- ASCII case folding

  /** The single-byte lower-casing PHP and PCRE apply for case-insensitive matching. */
  function LowerChar(c: char): (r: char)
    ensures 'A' <= c <= 'Z' ==> r as int == c as int + 32
    ensures !('A' <= c <= 'Z') ==> r == c
  {
    if 'A' <= c <= 'Z' then (c as int + 32) as char else c
  }

  /** `strtolower($s)` in its ASCII form. */
  function Lower(s: string): (r: string)
    ensures |r| == |s|
  {
    seq(|s|, i requires 0 <= i < |s| => LowerChar(s[i]))
  }

  /** Lower-casing commutes with taking a slice. */
  lemma LowerSlice(s: string, i: nat, j: nat)
    requires i <= j <= |s|
    ensures Lower(s)[i..j] == Lower(s[i..j])
  {
  }

  /** `stristr($hay, $needle) !== false`. */
  predicate ContainsCI(hay: string, needle: string) {
    Find(Lower(hay), Lower(needle)).Some?
  }

  /** `stristr` finds `needle` wherever a case-insensitively equal slice of `hay` stands. */
  lemma ContainsCIAt(hay: string, needle: string, i: nat)
    requires i + |needle| <= |hay| && Lower(hay[i..i + |needle|]) == Lower(needle)
    ensures ContainsCI(hay, needle)
  {
    var h, n := Lower(hay), Lower(needle);
    LowerSlice(hay, i, i + |needle|);
    FindFirst(h, n, i);
  }

  /** `$s` ends with `suffix`. */
  predicate EndsWith(s: string, suffix: string) {
    |suffix| <= |s| && s[|s| - |suffix|..] == suffix
  }

  predicate EndsWithCI(s: string, suffix: string) {
    EndsWith(Lower(s), Lower(suffix))
  }

  // ---------------------------------------------------------------- PHP truthiness of strings

  /** `empty($s)` for a string: true for `''` and for `'0'`. */
  predicate IsEmptyString(s: string) {
    s == "" || s == "0"
  }

  // ---------------------------------------------------------------- basename

  /** `rtrim($s, '/')`. */
  function TrimTrailingSlashes(s: string): (r: string)
    ensures r <= s
    ensures r == [] || r[|r| - 1] != '/'
    ensures forall i :: |r| <= i < |s| ==> s[i] == '/'
  {
    if s != [] && s[|s| - 1] == '/' then TrimTrailingSlashes(s[..|s| - 1]) else s
  }

  /** The part of `s` after its last `/` (all of `s` when it has none). */
  function AfterLastSlash(s: string): (r: string)
    ensures '/' !in r
    ensures |r| <= |s| && r == s[|s| - |r|..]
    ensures |r| < |s| ==> s[|s| - |r| - 1] == '/'
  {
    if s == [] then []
    else if s[|s| - 1] == '/' then []
    else AfterLastSlash(s[..|s| - 1]) + [s[|s| - 1]]
  }

  /** `basename($path)` with `/` as the only separator: trailing slashes dropped, then the last component. */
  function Basename(path: string): string {
    AfterLastSlash(TrimTrailingSlashes(path))
  }

  /** The last component of a joined path is what was joined on, trailing slashes or not. */
  lemma {:induction false} BasenameOfJoin(dir: string, name: string, slashes: nat)
    requires name != [] && '/' !in name
    ensures Basename(dir + "/" + name + seq(slashes, _ => '/')) == name
  {
    var trail: string := seq(slashes, _ => '/');
    var joined := dir + "/" + name;
    TrimSlashesOfJoin(joined, slashes);
    assert joined + trail == dir + "/" + name + trail;
    assert TrimTrailingSlashes(joined + trail) == joined;
    AfterLastSlashOfJoin(dir, name);
  }

  lemma {:induction false} TrimSlashesOfJoin(s: string, slashes: nat)
    requires s != [] && s[|s| - 1] != '/'
    ensures TrimTrailingSlashes(s + seq(slashes, _ => '/')) == s
    decreases slashes
  {
    if slashes == 0 {
      assert s + seq(0, _ => '/') == s;
    } else {
      var t := s + seq(slashes, _ => '/');
      assert t[..|t| - 1] == s + seq(slashes - 1, _ => '/');
      TrimSlashesOfJoin(s, slashes - 1);
    }
  }

  lemma {:induction false} AfterLastSlashOfJoin(dir: string, name: string)
    requires '/' !in name
    ensures AfterLastSlash(dir + "/" + name) == name
    decreases |name|
  {
    var s := dir + "/" + name;
    if name == [] {
      assert s[|s| - 1] == '/';
    } else {
      var init := name[..|name| - 1];
      assert s[..|s| - 1] == dir + "/" + init;
      assert '/' !in init by {
        forall k | 0 <= k < |init| ensures init[k] != '/' { assert init[k] == name[k]; }
      }
      AfterLastSlashOfJoin(dir, init);
      assert name == init + [name[|name| - 1]];
    }
  }

  // ---------------------------------------------------------------- decimal numbers

  predicate IsDigit(c: char) {
    '0' <= c <= '9'
  }

  predicate AllDigits(s: string) {
    forall i :: 0 <= i < |s| ==> IsDigit(s[i])
  }

  function DigitChar(d: nat): (c: char)
    requires d < 10
    ensures IsDigit(c)
  {
    ('0' as int + d) as char
  }

  function DigitValue(c: char): (d: nat)
    requires IsDigit(c)
    ensures d < 10 && DigitChar(d) == c
  {
    c as int - '0' as int
  }

  /** The decimal representation of `n`, without leading zeros, as PHP writes integers. */
  function NatToDecimal(n: nat): (r: string)
    ensures r != [] && AllDigits(r)
    ensures |r| > 1 ==> r[0] != '0'
  {
    if n < 10 then [DigitChar(n)] else NatToDecimal(n / 10) + [DigitChar(n % 10)]
  }

  function IntToDecimal(i: int): string {
    if i < 0 then "-" + NatToDecimal(-i) else NatToDecimal(i)
  }

  /** The value of a string of decimal digits (0 for the empty string). */
  function ParseDecimal(s: string): nat
    requires AllDigits(s)
  {
    if s == [] then 0 else 10 * ParseDecimal(s[..|s| - 1]) + DigitValue(s[|s| - 1])
  }

  /** Reading back what `NatToDecimal` wrote gives the same number. */
  lemma {:induction false} DecimalRoundTrip(n: nat)
    ensures ParseDecimal(NatToDecimal(n)) == n
  {
    if n >= 10 {
      var d := NatToDecimal(n);
      assert d[..|d| - 1] == NatToDecimal(n / 10);
      DecimalRoundTrip(n / 10);
    }
  }

  predicate HasNonZeroDigit(s: string) {
    exists i :: 0 <= i < |s| && s[i] != '0'
  }

  /** A digit string stands for a positive number exactly when one of its digits is not `0`. */
  lemma {:induction false} ParseDecimalPositive(s: string)
    requires AllDigits(s)
    ensures ParseDecimal(s) > 0 <==> HasNonZeroDigit(s)
  {
    if s != [] {
      var init := s[..|s| - 1];
      ParseDecimalPositive(init);
      if HasNonZeroDigit(init) {
        var i :| 0 <= i < |init| && init[i] != '0';
        assert s[i] != '0';
      }
      if HasNonZeroDigit(s) {
        var i :| 0 <= i < |s| && s[i] != '0';
        if i < |init| { assert init[i] != '0'; }
      }
    }
  }

  /** The longest prefix of `s` made of decimal digits. */
  function DigitPrefix(s: string): (r: string)
    ensures r <= s && AllDigits(r)
    ensures |r| < |s| ==> !IsDigit(s[|r|])
  {
    if s != [] && IsDigit(s[0]) then [s[0]] + DigitPrefix(s[1..]) else []
  }

  lemma {:induction false} DigitPrefixOfDigits(d: string, rest: string)
    requires AllDigits(d)
    requires rest == [] || !IsDigit(rest[0])
    ensures DigitPrefix(d + rest) == d
  {
    if d != [] {
      assert (d + rest)[1..] == d[1..] + rest;
      DigitPrefixOfDigits(d[1..], rest);
    } else {
      assert d + rest == rest;
    }
  }

  // ---------------------------------------------------------------- UTF-8 length

  /** Number of bytes the UTF-8 encoding of `c` takes. */
  function Utf8Width(c: char): (w: nat)
    ensures 1 <= w <= 4
    ensures w == 1 <==> c as int < 0x80
  {
    var v := c as int;
    if v < 0x80 then 1 else if v < 0x800 then 2 else if v < 0x1_0000 then 3 else 4
  }

  /** `strlen()` of the UTF-8 encoding of `s`: its length in bytes. */
  function Utf8Length(s: string): (n: nat)
    ensures |s| <= n <= 4 * |s|
  {
    if s == [] then 0 else Utf8Length(s[..|s| - 1]) + Utf8Width(s[|s| - 1])
  }

  /** For ASCII text the byte length is the character count. */
  lemma {:induction false} Utf8LengthAscii(s: string)
    requires forall i :: 0 <= i < |s| ==> s[i] as int < 0x80
    ensures Utf8Length(s) == |s|
  {
    if s != [] {
      Utf8LengthAscii(s[..|s| - 1]);
    }
  }
}
