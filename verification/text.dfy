/**
  * Character classes and string helpers of the Kotlin standard library that the
  * shell relies on: `Char.isWhitespace`, `String.trim`, `isBlank`, `contains`
  * (with and without `ignoreCase`), `startsWith`, `endsWith`, `lastIndexOf` and
  * `replace(Char, Char)`.
  */
module Text {

  datatype Option<T> = None | Some(value: T)

  /** Kotlin's `Char.isWhitespace`: the Unicode space separators, the ASCII
      controls TAB..CR and FS..US, and the line and paragraph separators. */
  predicate IsWhitespace(c: char) {
    ('\U{9}' <= c <= '\U{D}') || ('\U{1C}' <= c <= '\U{20}') || c == '\U{A0}' || c == '\U{1680}'
    || ('\U{2000}' <= c <= '\U{200A}') || c == '\U{2028}' || c == '\U{2029}' || c == '\U{202F}'
    || c == '\U{205F}' || c == '\U{3000}'
  }

  /** The characters that `.` in a `java.util.regex` pattern does not match. */
  predicate IsLineTerminator(c: char) {
    c == '\n' || c == '\r' || c == '\U{85}' || c == '\U{2028}' || c == '\U{2029}'
  }

  predicate NoWhitespace(s: string) {
    forall i :: 0 <= i < |s| ==> !IsWhitespace(s[i])
  }

  /** `isBlank`: every character is whitespace (so the empty string is blank). */
  predicate IsBlank(s: string) {
    forall i :: 0 <= i < |s| ==> IsWhitespace(s[i])
  }

  /** Index of the first non-whitespace character, or |s|. */
  function TrimStart(s: string): (k: nat)
    ensures k <= |s|
    ensures forall i :: 0 <= i < k ==> IsWhitespace(s[i])
    ensures k < |s| ==> !IsWhitespace(s[k])
  {
    if |s| == 0 || !IsWhitespace(s[0]) then 0 else 1 + TrimStart(s[1..])
  }

  /** One past the last non-whitespace character at or after `lo`, or `lo`. */
  function TrimEnd(s: string, lo: nat): (k: nat)
    requires lo <= |s|
    ensures lo <= k <= |s|
    ensures forall i :: k <= i < |s| ==> IsWhitespace(s[i])
    ensures k > lo ==> !IsWhitespace(s[k - 1])
    decreases |s|
  {
    if |s| == lo || !IsWhitespace(s[|s| - 1]) then |s| else TrimEnd(s[..|s| - 1], lo)
  }

  /** `String.trim()`: drops leading and trailing whitespace. */
  function Trim(s: string): (r: string)
    ensures |r| <= |s|
    ensures r == [] || (!IsWhitespace(r[0]) && !IsWhitespace(r[|r| - 1]))
    ensures r == s[TrimStart(s)..TrimEnd(s, TrimStart(s))]
  {
    s[TrimStart(s)..TrimEnd(s, TrimStart(s))]
  }

  /** A trimmed string is blank exactly when it is empty, and it is empty
      exactly when the input was blank. */
  lemma TrimBlank(s: string)
    ensures IsBlank(Trim(s)) <==> Trim(s) == []
    ensures Trim(s) == [] <==> IsBlank(s)
  {
    var a := TrimStart(s);
    if a < |s| {
      assert !IsWhitespace(s[a]);
      assert TrimEnd(s, a) > a;
    }
  }

  /** Whitespace around the trimmed text is all that `Trim` removes. */
  lemma TrimDecompose(s: string) returns (a: nat, b: nat)
    ensures a == TrimStart(s) && a <= b <= |s| && Trim(s) == s[a..b]
    ensures s == s[..a] + Trim(s) + s[b..]
    ensures IsBlank(s[..a]) && IsBlank(s[b..])
  {
    a, b := TrimSlice(s);
    Split3(s, a, b);
  }

  /** `Trim` keeps a slice with blank text on either side. */
  lemma TrimSlice(s: string) returns (a: nat, b: nat)
    ensures a == TrimStart(s) && a <= b <= |s| && Trim(s) == s[a..b]
    ensures IsBlank(s[..a]) && IsBlank(s[b..])
  {
    a := TrimStart(s);
    b := TrimEnd(s, a);
    BlankSlice(s, 0, a);
    BlankSlice(s, b, |s|);
    assert s[0..a] == s[..a] && s[b..|s|] == s[b..];
  }

  /** A word without whitespace is its own trim, even with one trailing
      space. */
  lemma TrimWord(w: string)
    requires NoWhitespace(w)
    ensures Trim(w) == w && Trim(w + " ") == w
  {
    var r := w + " ";
    assert r[..|r| - 1] == w;
    if w != [] {
      assert TrimStart(w) == 0 && TrimStart(r) == 0;
      assert TrimEnd(w, 0) == |w|;
      assert TrimEnd(r, 0) == |w|;
    } else {
      assert TrimStart(r) == 1;
    }
  }

  /** A last character that is not whitespace survives `Trim`. */
  lemma TrimKeepsLast(s: string)
    requires |s| > 0 && !IsWhitespace(s[|s| - 1])
    ensures |Trim(s)| > 0 && Trim(s)[|Trim(s)| - 1] == s[|s| - 1]
  {
    assert TrimStart(s) < |s|;
    assert TrimEnd(s, TrimStart(s)) == |s|;
  }

  lemma Split3<T>(s: seq<T>, a: nat, b: nat)
    requires a <= b <= |s|
    ensures s == s[..a] + s[a..b] + s[b..]
  {
    assert s[..b] == s[..a] + s[a..b];
    assert s == s[..b] + s[b..];
  }

  lemma BlankSlice(s: string, lo: nat, hi: nat)
    requires lo <= hi <= |s|
    requires forall i :: lo <= i < hi ==> IsWhitespace(s[i])
    ensures IsBlank(s[lo..hi])
  {
    forall i | 0 <= i < hi - lo ensures IsWhitespace(s[lo..hi][i]) {
      assert s[lo..hi][i] == s[lo + i];
    }
  }

  predicate StartsWith(s: string, prefix: string) {
    |prefix| <= |s| && s[..|prefix|] == prefix
  }

  predicate EndsWith(s: string, c: char) {
    |s| > 0 && s[|s| - 1] == c
  }

  /** `s.contains(sub)` / `s.indexOf(sub) != -1`, case-sensitive. */
  predicate Contains(s: string, sub: string) {
    exists i | 0 <= i <= |s| - |sub| :: OccursAt(s, sub, i)
  }

  predicate OccursAt(s: string, sub: string, i: int) {
    0 <= i && i + |sub| <= |s| && s[i..i + |sub|] == sub
  }

  lemma ContainsEmpty(s: string)
    ensures Contains(s, "")
  {
    assert OccursAt(s, "", 0);
  }

  /** Case folding used by `ignoreCase = true`; only ASCII letters are folded. */
  function Lower(c: char): char {
    if 'A' <= c <= 'Z' then (c as int + 32) as char else c
  }

  function LowerAll(s: string): (r: string)
    ensures |r| == |s|
    ensures forall i :: 0 <= i < |s| ==> r[i] == Lower(s[i])
  {
    seq(|s|, i requires 0 <= i < |s| => Lower(s[i]))
  }

  /** `s.contains(sub, ignoreCase = true)`. */
  predicate ContainsIgnoreCase(s: string, sub: string) {
    Contains(LowerAll(s), LowerAll(sub))
  }

  lemma ContainsIgnoreCaseEmpty(s: string)
    ensures ContainsIgnoreCase(s, "")
  {
    ContainsEmpty(LowerAll(s));
  }

  /** Every case-sensitive match is also a match that ignores case. */
  lemma ContainsImpliesIgnoreCase(s: string, sub: string)
    requires Contains(s, sub)
    ensures ContainsIgnoreCase(s, sub)
  {
    var i :| 0 <= i <= |s| - |sub| && OccursAt(s, sub, i);
    assert LowerAll(s)[i..i + |sub|] == LowerAll(sub);
    assert OccursAt(LowerAll(s), LowerAll(sub), i);
  }

  /** `s.lastIndexOf(c)`: the last index holding `c`, or -1. */
  function LastIndexOf(s: string, c: char): (r: int)
    ensures -1 <= r < |s|
    ensures r >= 0 ==> s[r] == c
    ensures forall i :: r < i < |s| ==> s[i] != c
  {
    if |s| == 0 then -1
    else if s[|s| - 1] == c then |s| - 1
    else LastIndexOf(s[..|s| - 1], c)
  }

  /** `text.replace('\n', ' ')`. */
  function ReplaceNewlines(s: string): (r: string)
    ensures |r| == |s|
    ensures forall i :: 0 <= i < |s| ==> r[i] == (if s[i] == '\n' then ' ' else s[i])
  {
    seq(|s|, i requires 0 <= i < |s| => if s[i] == '\n' then ' ' else s[i])
  }

  /** The field text never holds a newline after `ReplaceNewlines`, and a
      second application changes nothing. */
  lemma ReplaceNewlinesClean(s: string)
    ensures '\n' !in ReplaceNewlines(s)
    ensures ReplaceNewlines(ReplaceNewlines(s)) == ReplaceNewlines(s)
  {
    var r := ReplaceNewlines(s);
    forall i | 0 <= i < |r| ensures r[i] != '\n' {}
  }
}
