/**
 * The pieces of Python's string and path library that the pipeline relies
 * on: str.strip() (through the whitespace test the code applies), str.lower()
 * and str.endswith(), os.path.splitext(), and the decimal and list
 * renderings that f-strings produce inside error messages.
 */
module PyStr {

  /** str.isspace() of one character: the characters str.strip() removes. */
  predicate IsSpace(c: char) {
    var n := c as int;
    n == 0x20 || 0x09 <= n <= 0x0D || 0x1C <= n <= 0x1F || n == 0x85 || n == 0xA0
    || n == 0x1680 || 0x2000 <= n <= 0x200A || n == 0x2028 || n == 0x2029
    || n == 0x202F || n == 0x205F || n == 0x3000
  }

  /** Every character of s is whitespace (the empty string included). */
  predicate IsBlank(s: string) {
    forall i :: 0 <= i < |s| ==> IsSpace(s[i])
  }

  /** str.lstrip(): s without its leading whitespace. */
  function LStrip(s: string): (r: string)
    ensures |r| <= |s| && r == s[|s| - |r|..]
    ensures r == [] || !IsSpace(r[0])
    ensures IsBlank(s[..|s| - |r|])
  {
    if |s| > 0 && IsSpace(s[0]) then LStrip(s[1..]) else s
  }

  /** str.rstrip(): s without its trailing whitespace. */
  function RStrip(s: string): (r: string)
    ensures |r| <= |s| && r == s[..|r|]
    ensures r == [] || !IsSpace(r[|r| - 1])
    ensures IsBlank(s[|r|..])
  {
    if |s| > 0 && IsSpace(s[|s| - 1]) then RStrip(s[..|s| - 1]) else s
  }

  /** str.strip(). */
  function Strip(s: string): string {
    RStrip(LStrip(s))
  }

  /** `not s.strip()` holds exactly for the strings made only of whitespace. */
  lemma StripEmptyIffBlank(s: string)
    ensures Strip(s) == "" <==> IsBlank(s)
  {
    var l := LStrip(s);
    var cut := |s| - |l|;
    if Strip(s) == "" {
      assert IsBlank(l[0..]) && l[0..] == l;
      assert s[..cut] == s;
    }
    if IsBlank(s) {
      BlankSuffix(s, cut);
    }
  }

  lemma BlankSuffix(s: string, k: nat)
    requires IsBlank(s) && k <= |s|
    ensures IsBlank(s[k..])
  {
    assert forall i :: 0 <= i < |s| - k ==> s[k..][i] == s[k + i];
  }

  /** ASCII case folding of one character. */
  function LowerChar(c: char): char {
    if 'A' <= c <= 'Z' then (c as int + 32) as char else c
  }

  /** str.lower(), restricted to the ASCII letters. */
  function Lower(s: string): string {
    seq(|s|, i requires 0 <= i < |s| => LowerChar(s[i]))
  }

  /** str.endswith(suffix). */
  predicate EndsWith(s: string, suffix: string) {
    |suffix| <= |s| && s[|s| - |suffix|..] == suffix
  }

  /** str.rfind(c): the index of the last occurrence of c in s, or -1. */
  function RFind(s: string, c: char): (r: int)
    ensures -1 <= r < |s|
    ensures r >= 0 ==> s[r] == c
    ensures forall j :: r < j < |s| ==> s[j] != c
  {
    if s == [] then -1
    else if s[|s| - 1] == c then |s| - 1
    else RFind(s[..|s| - 1], c)
  }

  predicate AllDots(s: string) {
    forall i :: 0 <= i < |s| ==> s[i] == '.'
  }

  /**
   * os.path.splitext() on a POSIX path: the extension runs from the last
   * '.' of the final path component to the end of the path, unless every
   * character of that component before the dot is itself a dot (".bashrc"
   * and "..." have no extension). The pair is (root, extension).
   */
  function SplitExt(p: string): (r: (string, string))
  {
    var sepIndex := RFind(p, '/');
    var dotIndex := RFind(p, '.');
    if dotIndex > sepIndex && !AllDots(p[sepIndex + 1..dotIndex]) then
      (p[..dotIndex], p[dotIndex..])
    else
      (p, "")
  }

  /**
   * splitext() splits: root and extension put back together give the path,
   * and a non-empty extension is one '.' followed by characters that are
   * neither '.' nor '/'.
   */
  lemma SplitExtParts(p: string)
    ensures SplitExt(p).0 + SplitExt(p).1 == p
    ensures var ext := SplitExt(p).1;
      ext == "" || (ext[0] == '.' && forall k :: 0 < k < |ext| ==> ext[k] != '.' && ext[k] != '/')
  {
    var sepIndex := RFind(p, '/');
    var dotIndex := RFind(p, '.');
    if SplitExt(p).1 != "" {
      var ext := p[dotIndex..];
      assert SplitExt(p) == (p[..dotIndex], ext);
      assert p[..dotIndex] + ext == p;
      forall k | 0 < k < |ext| ensures ext[k] != '.' && ext[k] != '/' {
        assert ext[k] == p[dotIndex + k];
      }
    }
  }

  /**
   * The extension is non-empty exactly when the final path component holds
   * a character other than '.' followed, later in that component, by a '.'.
   */
  lemma SplitExtHasExtension(p: string)
    ensures SplitExt(p).1 != "" <==>
      exists i, j :: RFind(p, '/') < i < j < |p| && p[i] != '.' && p[j] == '.'
  {
    var sepIndex := RFind(p, '/');
    var dotIndex := RFind(p, '.');
    if SplitExt(p).1 != "" {
      var seg := p[sepIndex + 1..dotIndex];
      var k :| 0 <= k < |seg| && seg[k] != '.';
      assert p[sepIndex + 1 + k] != '.';
      assert sepIndex < sepIndex + 1 + k < dotIndex < |p| && p[dotIndex] == '.';
    }
    forall i, j | sepIndex < i < j < |p| && p[i] != '.' && p[j] == '.'
      ensures SplitExt(p).1 != ""
    {
      assert dotIndex >= j;
      var seg := p[sepIndex + 1..dotIndex];
      assert seg[i - sepIndex - 1] == p[i];
      assert !AllDots(seg);
    }
  }

  /** The character for a decimal digit. */
  function DigitChar(d: nat): char
    requires d < 10
  {
    "0123456789"[d]
  }

  /** Decimal rendering of a natural number, as str(n) gives it. */
  function NatToString(n: nat): (s: string)
    ensures |s| > 0
    ensures forall i :: 0 <= i < |s| ==> '0' <= s[i] <= '9'
    ensures n > 0 ==> s[0] != '0'
  {
    if n < 10 then [DigitChar(n)] else NatToString(n / 10) + [DigitChar(n % 10)]
  }

  /** Decimal rendering of an integer, as str(i) gives it. */
  function IntToString(i: int): string {
    if i < 0 then "-" + NatToString(-i) else NatToString(i)
  }

  /** The value a string of decimal digits denotes (int(s) on digits). */
  function DigitsValue(s: string): int {
    if s == [] then 0 else DigitsValue(s[..|s| - 1]) * 10 + (s[|s| - 1] as int - '0' as int)
  }

  /** Reading back the decimal rendering gives the number. */
  lemma {:induction false} NatToStringRoundTrip(n: nat)
    ensures DigitsValue(NatToString(n)) == n
  {
    if n >= 10 {
      NatToStringRoundTrip(n / 10);
      var s := NatToString(n / 10) + [DigitChar(n % 10)];
      assert s[..|s| - 1] == NatToString(n / 10);
    }
  }

  /** Quoted, comma-separated items, as the inside of a list's repr(). */
  function JoinQuoted(items: seq<string>): string {
    if items == [] then ""
    else if |items| == 1 then "'" + items[0] + "'"
    else "'" + items[0] + "', " + JoinQuoted(items[1..])
  }

  /** str() of a list of strings that need no escaping: "['.pdf', '.txt']". */
  function ListRepr(items: seq<string>): string {
    "[" + JoinQuoted(items) + "]"
  }
}
