/**
 * String operations with the meaning CPython gives them on `str`, as far as the
 * downloader uses them: whitespace and line-break classes, `strip`, `split`,
 * `find`, `rfind`, `startswith`, `in`, ASCII case folding, and the conversion
 * of numbers to and from decimal text.
 */
module Text {
  import opened Common

  /** `str.isspace()`: the characters of bidirectional class WS, B or S, or of category Zs. */
  predicate IsSpace(c: char) {
    c == ' ' || '\t' <= c <= '\r' || '\U{1c}' <= c <= '\U{1f}' || c == '\U{85}' || c == '\U{a0}'
    || c == '\U{1680}' || '\U{2000}' <= c <= '\U{200a}' || c == '\U{2028}' || c == '\U{2029}'
    || c == '\U{202f}' || c == '\U{205f}' || c == '\U{3000}'
  }

  /** The characters at which `str.splitlines()` ends a line. */
  predicate IsLineBreak(c: char) {
    c == '\n' || c == '\r' || c == '\U{0b}' || c == '\U{0c}' || '\U{1c}' <= c <= '\U{1e}'
    || c == '\U{85}' || c == '\U{2028}' || c == '\U{2029}'
  }

  lemma LineBreakIsSpace(c: char)
    ensures IsLineBreak(c) ==> IsSpace(c)
  {
  }

  predicate IsAsciiUpper(c: char) { 'A' <= c <= 'Z' }
  predicate IsAsciiLetter(c: char) { 'A' <= c <= 'Z' || 'a' <= c <= 'z' }
  predicate IsDigit(c: char) { '0' <= c <= '9' }

  /** KELVIN SIGN, whose lowercase is the ASCII letter `k`. */
  const KelvinSign: char := '\U{212a}'

  /**
   * `c.lower()` for the characters whose lowercase is ASCII: the ASCII
   * capitals and the Kelvin sign. Every other character is kept.
   */
  function LowerChar(c: char): (r: char)
    ensures IsAsciiUpper(c) ==> r as int == c as int + 32
    ensures c == KelvinSign ==> r == 'k'
    ensures !IsAsciiUpper(c) && c != KelvinSign ==> r == c
  {
    if IsAsciiUpper(c) then (c as int + 32) as char
    else if c == KelvinSign then 'k'
    else c
  }

  /** `str.lower()` as far as it yields ASCII characters; every other character is kept. */
  function Lower(s: string): (r: string)
    ensures |r| == |s|
    ensures forall i :: 0 <= i < |s| ==> r[i] == LowerChar(s[i])
  {
    seq(|s|, i requires 0 <= i < |s| => LowerChar(s[i]))
  }

  lemma LowerUnchanged(s: string)
    requires forall c :: c in s ==> !IsAsciiUpper(c) && c != KelvinSign
    ensures Lower(s) == s
  {
  }

  predicate StartsWith(s: string, prefix: string) {
    |prefix| <= |s| && s[..|prefix|] == prefix
  }

  lemma StartsWithConcat(a: string, b: string)
    ensures StartsWith(a + b, a)
  {
    assert (a + b)[..|a|] == a;
  }

  predicate OccursAt(s: string, t: string, i: int) {
    0 <= i <= |s| - |t| && s[i..i + |t|] == t
  }

  /** `t in s` for two strings. */
  predicate Contains(s: string, t: string) {
    exists i | 0 <= i <= |s| - |t| :: OccursAt(s, t, i)
  }

  /** One mismatching character rules out an occurrence at `i`. */
  lemma MismatchAt(s: string, t: string, i: int, k: nat)
    requires 0 <= i && k < |t| && i + k < |s| && s[i + k] != t[k]
    ensures !OccursAt(s, t, i)
  {
  }

  /** `s.find(c)`, except that "not found" is `|s|` rather than -1. */
  function IndexOf(s: string, c: char): (r: nat)
    ensures r <= |s|
    ensures c !in s[..r]
    ensures r < |s| ==> s[r] == c
    ensures r == |s| <==> c !in s
  {
    if |s| == 0 then 0
    else if s[0] == c then 0
    else
      var k := IndexOf(s[1..], c);
      assert s[1..][..k] == s[1..k + 1];
      1 + k
  }

  /** A position is `IndexOf` exactly when nothing before it is `c` and it holds `c` or is the end. */
  lemma IndexOfIs(s: string, c: char, k: nat)
    requires k <= |s| && c !in s[..k] && (k < |s| ==> s[k] == c)
    ensures IndexOf(s, c) == k
  {
  }

  /** `c` does not occur before `IndexOf(s, c)`, so a prefix free of `c` bounds it from below. */
  lemma IndexOfAtLeast(s: string, c: char, k: nat)
    requires k <= |s| && c !in s[..k]
    ensures IndexOf(s, c) >= k
  {
  }

  /** `s.rfind(c)`: the last position of `c`, or -1. */
  function LastIndexOf(s: string, c: char): (r: int)
    ensures -1 <= r < |s|
    ensures r >= 0 ==> s[r] == c
    ensures forall i :: r < i < |s| ==> s[i] != c
  {
    if |s| == 0 then -1
    else if s[|s| - 1] == c then |s| - 1
    else LastIndexOf(s[..|s| - 1], c)
  }

  /**
   * The sets of characters that get stripped or split at: whitespace
   * (`str.strip()`), the C0 controls and space (`urlsplit`), whitespace and
   * commas (`[\s,]`), and an explicit set (`str.strip(chars)`).
   */
  datatype CharClass = Whitespace | ControlOrSpace | SpaceOrComma | AnyOf(chars: set<char>)

  predicate InClass(c: char, cls: CharClass) {
    match cls
    case Whitespace => IsSpace(c)
    case ControlOrSpace => c <= ' '
    case SpaceOrComma => IsSpace(c) || c == ','
    case AnyOf(chars) => c in chars
  }

  /** The first position holding a character of `cls`, or `|s|` when there is none. */
  function IndexIn(s: string, cls: CharClass): (r: nat)
    ensures r <= |s|
    ensures forall i :: 0 <= i < r ==> !InClass(s[i], cls)
    ensures r < |s| ==> InClass(s[r], cls)
  {
    if |s| == 0 || InClass(s[0], cls) then 0 else 1 + IndexIn(s[1..], cls)
  }

  /** `s.lstrip(chars)`: a suffix of `s` that does not start with a character of `cls`. */
  function LStrip(s: string, cls: CharClass): string {
    if |s| > 0 && InClass(s[0], cls) then LStrip(s[1..], cls) else s
  }

  /** `s.rstrip(chars)`: a prefix of `s` that does not end with a character of `cls`. */
  function RStrip(s: string, cls: CharClass): string {
    if |s| > 0 && InClass(s[|s| - 1], cls) then RStrip(s[..|s| - 1], cls) else s
  }

  /** `s.strip(chars)`, or `s.strip()` for `Whitespace`. */
  function Strip(s: string, cls: CharClass): string {
    RStrip(LStrip(s, cls), cls)
  }

  /** `s.strip(a).strip(b)...`: the classes stripped one after another. */
  function StripEach(s: string, classes: seq<CharClass>): string
    decreases |classes|
  {
    if classes == [] then s else StripEach(Strip(s, classes[0]), classes[1..])
  }

  /** What `LStrip` keeps is a suffix that does not start with a character of the class. */
  lemma {:induction false} LStripSuffix(s: string, cls: CharClass)
    ensures var r := LStrip(s, cls); |r| <= |s| && r == s[|s| - |r|..] && (r == [] || !InClass(r[0], cls))
  {
    if |s| > 0 && InClass(s[0], cls) {
      LStripSuffix(s[1..], cls);
    }
  }

  /** What `RStrip` keeps is a prefix that does not end with a character of the class. */
  lemma {:induction false} RStripPrefix(s: string, cls: CharClass)
    ensures var r := RStrip(s, cls); |r| <= |s| && r == s[..|r|] && (r == [] || !InClass(r[|r| - 1], cls))
  {
    if |s| > 0 && InClass(s[|s| - 1], cls) {
      RStripPrefix(s[..|s| - 1], cls);
    }
  }

  /** A leading character of the class is always dropped. */
  lemma LStripShorter(s: string, cls: CharClass)
    requires s != [] && InClass(s[0], cls)
    ensures |LStrip(s, cls)| < |s|
  {
    LStripSuffix(s[1..], cls);
  }

  /** Only characters of `cls` are stripped from the left. */
  lemma {:induction false} LStripDrops(s: string, cls: CharClass)
    ensures forall i :: 0 <= i < |s| - |LStrip(s, cls)| ==> InClass(s[i], cls)
  {
    if |s| > 0 && InClass(s[0], cls) {
      LStripDrops(s[1..], cls);
    }
  }

  /** Only characters of `cls` are stripped from the right. */
  lemma {:induction false} RStripDrops(s: string, cls: CharClass)
    ensures forall i :: |RStrip(s, cls)| <= i < |s| ==> InClass(s[i], cls)
  {
    if |s| > 0 && InClass(s[|s| - 1], cls) {
      RStripDrops(s[..|s| - 1], cls);
    }
  }

  /** Stripping leaves a string alone whose two ends are not in the class. */
  lemma StripUnchanged(s: string, cls: CharClass)
    requires s != [] && !InClass(s[0], cls) && !InClass(s[|s| - 1], cls)
    ensures Strip(s, cls) == s
  {
  }

  /** A chain of strips leaves a string alone whose two ends are in none of the classes. */
  lemma {:induction false} StripEachUnchanged(s: string, classes: seq<CharClass>)
    requires s != []
    requires forall k :: 0 <= k < |classes| ==> !InClass(s[0], classes[k]) && !InClass(s[|s| - 1], classes[k])
    ensures StripEach(s, classes) == s
  {
    if classes != [] {
      StripUnchanged(s, classes[0]);
      StripEachUnchanged(s, classes[1..]);
    }
  }

  /** Stripping drops a leading character of the class, then stops at ends that stay. */
  lemma StripLeading(c: char, s: string, cls: CharClass)
    requires InClass(c, cls) && s != [] && !InClass(s[0], cls) && !InClass(s[|s| - 1], cls)
    ensures Strip([c] + s, cls) == s
  {
    assert ([c] + s)[1..] == s;
    assert LStrip([c] + s, cls) == s;
    StripUnchanged(s, cls);
  }

  /** What stripping keeps has no character of the class at either end. */
  lemma StripEnds(s: string, cls: CharClass)
    ensures var r := Strip(s, cls); r == [] || (!InClass(r[0], cls) && !InClass(r[|r| - 1], cls))
  {
    var l := LStrip(s, cls);
    var r := RStrip(l, cls);
    LStripSuffix(s, cls);
    RStripPrefix(l, cls);
    if r != [] {
      assert r[0] == l[0];
    }
  }

  /** `s.split(sep)` for a one-character separator: always at least one piece. */
  function Split(s: string, sep: char): (parts: seq<string>)
    ensures |parts| >= 1
    ensures forall i :: 0 <= i < |parts| ==> sep !in parts[i]
    ensures sep !in s ==> parts == [s]
    ensures parts[0] == s[..IndexOf(s, sep)]
    decreases |s|
  {
    var i := IndexOf(s, sep);
    if i == |s| then [s] else [s[..i]] + Split(s[i + 1..], sep)
  }

  /** Splitting at the first separator gives the piece before it, then the pieces of the rest. */
  lemma SplitAt(a: string, b: string, sep: char)
    requires sep !in a
    ensures Split(a + [sep] + b, sep) == [a] + Split(b, sep)
  {
    var s := a + [sep] + b;
    assert s[..|a|] == a;
    IndexOfIs(s, sep, |a|);
    assert s[|a| + 1..] == b;
  }

  /** `[part for part in parts if part]`. */
  function NonEmpty(parts: seq<string>): seq<string> {
    if parts == [] then []
    else
      var init := NonEmpty(parts[..|parts| - 1]);
      if parts[|parts| - 1] == "" then init else init + [parts[|parts| - 1]]
  }

  /** Filtering keeps exactly the pieces that are not empty. */
  lemma {:induction false} NonEmptyElements(parts: seq<string>)
    ensures forall p :: p in NonEmpty(parts) <==> p in parts && p != ""
  {
    if parts != [] {
      NonEmptyElements(parts[..|parts| - 1]);
      assert parts == parts[..|parts| - 1] + [parts[|parts| - 1]];
    }
  }

  lemma NonEmptySnoc(parts: seq<string>, p: string)
    ensures NonEmpty(parts + [p]) == NonEmpty(parts) + (if p == "" then [] else [p])
  {
    assert (parts + [p])[..|parts|] == parts;
  }

  lemma NonEmptyPrefix(parts: seq<string>, i: nat)
    requires i < |parts|
    ensures NonEmpty(parts[..i + 1]) == NonEmpty(parts[..i]) + (if parts[i] == "" then [] else [parts[i]])
  {
    assert parts[..i + 1][..i] == parts[..i];
  }

  /** `s.replace(a, b)` for single characters. */
  function ReplaceChar(s: string, a: char, b: char): (r: string)
    ensures |r| == |s|
    ensures forall i :: 0 <= i < |s| ==> r[i] == if s[i] == a then b else s[i]
  {
    seq(|s|, i requires 0 <= i < |s| => if s[i] == a then b else s[i])
  }

  lemma ReplaceCharAbsent(s: string, a: char, b: char)
    requires a !in s
    ensures ReplaceChar(s, a, b) == s
  {
  }

  /** `s.splitlines()[0]` of a string that does not start with a line break. */
  function FirstLine(s: string): (r: string)
    ensures StartsWith(s, r)
    ensures forall c :: c in r ==> !IsLineBreak(c)
    ensures |r| < |s| ==> IsLineBreak(s[|r|])
  {
    if |s| == 0 || IsLineBreak(s[0]) then "" else [s[0]] + FirstLine(s[1..])
  }

  function DigitChar(d: nat): (c: char)
    requires d < 10
    ensures IsDigit(c) && c as int - '0' as int == d
  {
    ('0' as int + d) as char
  }

  /** The value of a string of decimal digits, most significant first. */
  function DigitsValue(s: string): nat
    requires forall c :: c in s ==> IsDigit(c)
  {
    if s == [] then 0
    else
      assert s[|s| - 1] in s && IsDigit(s[|s| - 1]);
      var d: nat := s[|s| - 1] as int - '0' as int;
      10 * DigitsValue(s[..|s| - 1]) + d
  }

  /** `str(n)` for a natural number. */
  function NatToString(n: nat): (s: string)
    ensures s != [] && forall c :: c in s ==> IsDigit(c)
    ensures DigitsValue(s) == n
  {
    if n < 10 then [DigitChar(n)]
    else
      var init := NatToString(n / 10);
      var s := init + [DigitChar(n % 10)];
      assert s[..|s| - 1] == init;
      s
  }

  /** `str(i)` for an integer. */
  function IntToString(i: int): (s: string)
    ensures s != []
  {
    if i < 0 then "-" + NatToString(-i) else NatToString(i)
  }

  /**
   * `int(text)` for a `str`: surrounding whitespace, an optional sign and at
   * least one ASCII digit; anything else raises, which is `None` here.
   */
  function ParseInt(text: string): (r: Option<int>)
    ensures r.Some? ==> exists c :: c in text && IsDigit(c)
  {
    var t := Strip(text, Whitespace);
    var negative := |t| > 0 && t[0] == '-';
    var digits := if |t| > 0 && (t[0] == '-' || t[0] == '+') then t[1..] else t;
    if digits != [] && forall c :: c in digits ==> IsDigit(c) then
      assert digits[0] in text by {
        var l := LStrip(text, Whitespace);
        LStripSuffix(text, Whitespace);
        RStripPrefix(l, Whitespace);
        assert t == RStrip(l, Whitespace);
        assert digits[0] in t;
      }
      Some(if negative then -(DigitsValue(digits) as int) else DigitsValue(digits))
    else None
  }

  lemma {:induction false} ParseIntOfNatToString(n: nat)
    ensures ParseInt(NatToString(n)) == Some(n)
  {
    var s := NatToString(n);
    assert s[0] in s && s[|s| - 1] in s;
    StripUnchanged(s, Whitespace);
  }

  /** `int(str(i)) == i`. */
  lemma ParseIntOfIntToString(i: int)
    ensures ParseInt(IntToString(i)) == Some(i)
  {
    if i < 0 {
      var digits := NatToString(-i);
      var s := "-" + digits;
      assert s[1..] == digits && s[|s| - 1] == digits[|digits| - 1];
      assert digits[|digits| - 1] in digits;
      StripUnchanged(s, Whitespace);
    } else {
      ParseIntOfNatToString(i);
    }
  }

  function Pow10(k: nat): (r: nat)
    ensures r >= 1
  {
    if k == 0 then 1 else 10 * Pow10(k - 1)
  }

  /**
   * `float(text)` for a `str` written as an optionally signed decimal
   * (`12`, `12.5`, `.5`, `12.`); exponents, `inf` and `nan` are not covered.
   */
  function ParseDecimal(text: string): Option<real> {
    var t := Strip(text, Whitespace);
    var negative := |t| > 0 && t[0] == '-';
    var body := if |t| > 0 && (t[0] == '-' || t[0] == '+') then t[1..] else t;
    var dot := IndexOf(body, '.');
    var whole := body[..dot];
    var frac := if dot < |body| then body[dot + 1..] else "";
    if (whole != [] || frac != []) && (forall c :: c in whole ==> IsDigit(c)) && (forall c :: c in frac ==> IsDigit(c)) then
      var magnitude := DigitsValue(whole) as real + DigitsValue(frac) as real / Pow10(|frac|) as real;
      Some(if negative then -magnitude else magnitude)
    else None
  }
}
