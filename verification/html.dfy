/**
  * `cleanFromHtmlTags` of the `rss` command: an article's description loses
  * every tag (the regular expression `<.*?>` replaced by nothing), every run
  * of tabs and spaces becomes one space (`[\t ]+` replaced by a space), and
  * the result is trimmed.
  */
module Html {
  import opened Text

  // ---------------------------------------------------------------------
  // Removing tags
  // ---------------------------------------------------------------------

  /** Where the lazy `.*?>` that follows a `<` ends: the index in `t` of the
      first `>` with no line terminator before it, if there is one. */
  function Close(t: string): (r: Option<nat>)
    ensures r.Some? ==> r.value < |t| && t[r.value] == '>'
    ensures r.Some? ==> forall i :: 0 <= i < r.value ==> t[i] != '>' && !IsLineTerminator(t[i])
    ensures r.None? ==> forall i :: 0 <= i < |t| && t[i] == '>' ==> exists j :: 0 <= j < i && IsLineTerminator(t[j])
  {
    if t == [] then None
    else if t[0] == '>' then Some(0)
    else if IsLineTerminator(t[0]) then None
    else match Close(t[1..])
      case None => None
      case Some(k) => Some(k + 1)
  }

  /** `replace(TAG_REGEX, "")`: scanning from the left, a `<` whose tag
      closes is dropped together with the tag; a `<` that never closes on
      its line is kept. */
  function RemoveTags(s: string): (r: string)
    ensures |r| <= |s|
    ensures '<' !in s ==> r == s
    decreases |s|
  {
    if s == [] then []
    else if s[0] == '<' && Close(s[1..]).Some? then RemoveTags(s[Close(s[1..]).value + 2..])
    else [s[0]] + RemoveTags(s[1..])
  }

  /** No `<` in `r` opens a tag that the pattern would match. */
  predicate NoTags(r: string) {
    forall i :: 0 <= i < |r| && r[i] == '<' ==> Close(r[i + 1..]).None?
  }

  /** Text in which no `>` comes before a line terminator keeps that
      property once its tags are removed. */
  lemma {:induction false} UnclosedStaysUnclosed(t: string)
    requires Close(t).None?
    ensures Close(RemoveTags(t)).None?
    decreases |t|
  {
    if t != [] && !IsLineTerminator(t[0]) {
      assert t[0] != '>';
      assert Close(t[1..]).None?;
      UnclosedStaysUnclosed(t[1..]);
      assert RemoveTags(t) == [t[0]] + RemoveTags(t[1..]);
      assert ([t[0]] + RemoveTags(t[1..]))[1..] == RemoveTags(t[1..]);
    }
  }

  /** Prepending one character keeps `NoTags` when that character is not a
      `<`, or is a `<` that opens no tag. */
  lemma NoTagsCons(c: char, r: string)
    requires NoTags(r)
    requires c == '<' ==> Close(r).None?
    ensures NoTags([c] + r)
  {
    var t := [c] + r;
    forall i | 0 <= i < |t| && t[i] == '<' ensures Close(t[i + 1..]).None? {
      if i > 0 {
        assert t[i + 1..] == r[i..];
        assert r[i - 1] == '<';
      } else {
        assert t[1..] == r;
      }
    }
  }

  /** The pattern matches nowhere in its own output: a single pass removes
      every tag. */
  lemma {:induction false} RemoveTagsComplete(s: string)
    ensures NoTags(RemoveTags(s))
    decreases |s|
  {
    if s != [] {
      if s[0] == '<' && Close(s[1..]).Some? {
        RemoveTagsComplete(s[Close(s[1..]).value + 2..]);
      } else {
        RemoveTagsComplete(s[1..]);
        if s[0] == '<' {
          UnclosedStaysUnclosed(s[1..]);
        }
        NoTagsCons(s[0], RemoveTags(s[1..]));
      }
    }
  }

  /** Text before the first `<` comes through unchanged, in place. */
  lemma {:induction false} PlainPrefixKept(u: string, w: string)
    requires '<' !in u
    ensures RemoveTags(u + w) == u + RemoveTags(w)
    decreases |u|
  {
    if u == [] {
      assert u + w == w;
    } else {
      var rest := u[1..] + w;
      assert u[0] in u;
      assert u + w == [u[0]] + rest;
      KeptCharacter(u[0], rest);
      PlainPrefixKept(u[1..], w);
      calc {
        RemoveTags(u + w);
        [u[0]] + RemoveTags(rest);
        [u[0]] + (u[1..] + RemoveTags(w));
        ([u[0]] + u[1..]) + RemoveTags(w);
        { assert [u[0]] + u[1..] == u; }
        u + RemoveTags(w);
      }
    }
  }

  /** A `<` followed, on the same line, by text without `>` and then a `>`
      disappears together with that text and the `>`; what follows is
      processed on its own. */
  lemma TagRemoved(v: string, w: string)
    requires forall i :: 0 <= i < |v| ==> v[i] != '>' && !IsLineTerminator(v[i])
    ensures RemoveTags(['<'] + v + ['>'] + w) == RemoveTags(w)
  {
    var s := ['<'] + v + ['>'] + w;
    assert s[1..] == v + ['>'] + w;
    CloseAt(v, w);
    assert s[|v| + 2..] == w;
  }

  lemma {:induction false} CloseAt(v: string, w: string)
    requires forall i :: 0 <= i < |v| ==> v[i] != '>' && !IsLineTerminator(v[i])
    ensures Close(v + ['>'] + w) == Some(|v|)
    decreases |v|
  {
    var t := v + ['>'] + w;
    if v == [] {
      assert t[0] == '>';
    } else {
      assert t[0] == v[0];
      assert t[1..] == v[1..] + ['>'] + w;
      CloseAt(v[1..], w);
    }
  }

  // ---------------------------------------------------------------------
  // Collapsing blanks
  // ---------------------------------------------------------------------

  /** The characters of `[\t ]`. */
  predicate IsBlankChar(c: char) {
    c == '\t' || c == ' '
  }

  /** The length of the run of tabs and spaces that `s` starts with. */
  function BlankRun(s: string): (k: nat)
    ensures k <= |s|
    ensures forall i :: 0 <= i < k ==> IsBlankChar(s[i])
    ensures k < |s| ==> !IsBlankChar(s[k])
  {
    if s == [] || !IsBlankChar(s[0]) then 0 else 1 + BlankRun(s[1..])
  }

  /** `replace(SPACE_REGEX, " ")`: every run of tabs and spaces becomes one
      space. */
  function CollapseBlanks(s: string): (r: string)
    ensures |r| <= |s|
    ensures s != [] ==> r != [] && r[0] == (if IsBlankChar(s[0]) then ' ' else s[0])
    ensures forall i :: 0 <= i < |r| ==> r[i] != '\t'
    ensures forall i :: 0 < i < |r| ==> !(r[i - 1] == ' ' && r[i] == ' ')
    decreases |s|
  {
    if s == [] then []
    else if IsBlankChar(s[0]) then " " + CollapseBlanks(s[BlankRun(s)..])
    else [s[0]] + CollapseBlanks(s[1..])
  }

  /** Text without tabs and spaces comes through unchanged, in place. */
  lemma {:induction false} WordPrefixKept(x: string, z: string)
    requires forall i :: 0 <= i < |x| ==> !IsBlankChar(x[i])
    ensures CollapseBlanks(x + z) == x + CollapseBlanks(z)
    decreases |x|
  {
    if x == [] {
      assert x + z == z;
    } else {
      var t := x + z;
      assert t[0] == x[0] && t[1..] == x[1..] + z;
      WordPrefixKept(x[1..], z);
      assert [x[0]] + x[1..] == x;
    }
  }

  /** A whole run of tabs and spaces becomes exactly one space. */
  lemma BlankRunCollapses(b: string, y: string)
    requires |b| > 0 && forall i :: 0 <= i < |b| ==> IsBlankChar(b[i])
    requires y == [] || !IsBlankChar(y[0])
    ensures CollapseBlanks(b + y) == " " + CollapseBlanks(y)
  {
    RunLength(b, y);
    assert (b + y)[0] == b[0];
    assert (b + y)[|b|..] == y;
  }

  lemma {:induction false} RunLength(b: string, y: string)
    requires forall i :: 0 <= i < |b| ==> IsBlankChar(b[i])
    requires y == [] || !IsBlankChar(y[0])
    ensures BlankRun(b + y) == |b|
    decreases |b|
  {
    if b == [] {
      assert b + y == y;
    } else {
      assert (b + y)[0] == b[0] && (b + y)[1..] == b[1..] + y;
      RunLength(b[1..], y);
    }
  }

  /** Words are kept and the run between them becomes one space. */
  lemma CollapseRun(x: string, b: string, y: string)
    requires forall i :: 0 <= i < |x| ==> !IsBlankChar(x[i])
    requires |b| > 0 && forall i :: 0 <= i < |b| ==> IsBlankChar(b[i])
    requires y == [] || !IsBlankChar(y[0])
    ensures CollapseBlanks(x + b + y) == x + " " + CollapseBlanks(y)
  {
    calc {
      CollapseBlanks(x + b + y);
      { assert x + b + y == x + (b + y); }
      CollapseBlanks(x + (b + y));
      { WordPrefixKept(x, b + y); }
      x + CollapseBlanks(b + y);
      { BlankRunCollapses(b, y); }
      x + (" " + CollapseBlanks(y));
      x + " " + CollapseBlanks(y);
    }
  }

  /** Text with no tab and no two adjacent spaces is left as it is. */
  lemma {:induction false} CollapseSingleSpaces(s: string)
    requires forall i :: 0 <= i < |s| ==> s[i] != '\t'
    requires forall i :: 0 < i < |s| ==> !(s[i - 1] == ' ' && s[i] == ' ')
    ensures CollapseBlanks(s) == s
    decreases |s|
  {
    if s != [] {
      CollapseSingleSpaces(s[1..]);
      if IsBlankChar(s[0]) {
        assert BlankRun(s) == 1 by {
          if |s| > 1 { assert !(s[0] == ' ' && s[1] == ' '); }
        }
      }
    }
  }

  /** Collapsing blanks never brings a `>` closer to an open `<`. */
  lemma {:induction false} CollapseKeepsUnclosed(t: string)
    requires Close(t).None?
    ensures Close(CollapseBlanks(t)).None?
    decreases |t|
  {
    if t != [] && !IsLineTerminator(t[0]) {
      assert t[0] != '>';
      if IsBlankChar(t[0]) {
        var k := BlankRun(t);
        BlankRunUnclosed(t, k);
        CollapseKeepsUnclosed(t[k..]);
        assert (" " + CollapseBlanks(t[k..]))[1..] == CollapseBlanks(t[k..]);
      } else {
        CollapseKeepsUnclosed(t[1..]);
        assert ([t[0]] + CollapseBlanks(t[1..]))[1..] == CollapseBlanks(t[1..]);
      }
    }
  }

  /** Skipping characters that are neither `>` nor line terminators does not
      change whether a tag closes. */
  lemma {:induction false} BlankRunUnclosed(t: string, k: nat)
    requires k <= |t| && Close(t).None?
    requires forall i :: 0 <= i < k ==> t[i] != '>' && !IsLineTerminator(t[i])
    ensures Close(t[k..]).None?
    decreases k
  {
    if k > 0 {
      assert Close(t[1..]).None?;
      BlankRunUnclosed(t[1..], k - 1);
      assert t[1..][k - 1..] == t[k..];
    }
  }

  lemma {:induction false} CollapseKeepsNoTags(s: string)
    requires NoTags(s)
    ensures NoTags(CollapseBlanks(s))
    decreases |s|
  {
    if s != [] {
      if IsBlankChar(s[0]) {
        var k := BlankRun(s);
        assert NoTags(s[k..]) by {
          forall i | 0 <= i < |s| - k && s[k..][i] == '<' ensures Close(s[k..][i + 1..]).None? {
            assert s[k..][i + 1..] == s[k + i + 1..];
          }
        }
        CollapseKeepsNoTags(s[k..]);
        NoTagsCons(' ', CollapseBlanks(s[k..]));
      } else {
        assert NoTags(s[1..]) by {
          forall i | 0 <= i < |s| - 1 && s[1..][i] == '<' ensures Close(s[1..][i + 1..]).None? {
            assert s[1..][i + 1..] == s[i + 2..];
          }
        }
        CollapseKeepsNoTags(s[1..]);
        if s[0] == '<' {
          assert s[1..] == s[0 + 1..];
          CollapseKeepsUnclosed(s[1..]);
        }
        NoTagsCons(s[0], CollapseBlanks(s[1..]));
      }
    }
  }

  // ---------------------------------------------------------------------
  // cleanFromHtmlTags
  // ---------------------------------------------------------------------

  function CleanFromHtmlTags(source: string): (r: string)
    ensures |r| <= |source|
    ensures r == [] || (!IsWhitespace(r[0]) && !IsWhitespace(r[|r| - 1]))
  {
    Trim(CollapseBlanks(RemoveTags(source)))
  }

  /** A prefix of text in which no tag closes has no closing tag either. */
  lemma {:induction false} UnclosedPrefix(t: string, k: nat)
    requires k <= |t| && Close(t).None?
    ensures Close(t[..k]).None?
    decreases k
  {
    if k > 0 && !IsLineTerminator(t[0]) {
      UnclosedPrefix(t[1..], k - 1);
      assert t[..k][1..] == t[1..][..k - 1];
    }
  }

  /** A slice of tag-free text is tag-free. */
  lemma NoTagsSlice(s: string, a: nat, b: nat)
    requires a <= b <= |s| && NoTags(s)
    ensures NoTags(s[a..b])
  {
    var r := s[a..b];
    forall i | 0 <= i < |r| && r[i] == '<' ensures Close(r[i + 1..]).None? {
      assert s[a + i] == '<';
      assert r[i + 1..] == s[a + i + 1..][..b - (a + i + 1)];
      UnclosedPrefix(s[a + i + 1..], b - (a + i + 1));
    }
  }

  /** The cleaned description holds no tag, no tab and no two adjacent
      spaces. */
  lemma CleanIsClean(source: string)
    ensures var r := CleanFromHtmlTags(source);
      && NoTags(r)
      && (forall i :: 0 <= i < |r| ==> r[i] != '\t')
      && (forall i :: 0 < i < |r| ==> !(r[i - 1] == ' ' && r[i] == ' '))
  {
    var c := CollapseBlanks(RemoveTags(source));
    RemoveTagsComplete(source);
    CollapseKeepsNoTags(RemoveTags(source));
    var a, b := TrimSlice(c);
    NoTagsSlice(c, a, b);
    SingleSpacedSlice(c, a, b);
  }

  /** A slice of text with no tab and no two adjacent spaces has neither. */
  lemma SingleSpacedSlice(c: string, a: nat, b: nat)
    requires a <= b <= |c|
    requires forall i :: 0 <= i < |c| ==> c[i] != '\t'
    requires forall i :: 0 < i < |c| ==> !(c[i - 1] == ' ' && c[i] == ' ')
    ensures forall i :: 0 <= i < b - a ==> c[a..b][i] != '\t'
    ensures forall i :: 0 < i < b - a ==> !(c[a..b][i - 1] == ' ' && c[a..b][i] == ' ')
  {
    var r := c[a..b];
    forall i | 0 < i < |r| ensures !(r[i - 1] == ' ' && r[i] == ' ') {
      assert r[i - 1] == c[a + i - 1] && r[i] == c[a + i];
    }
  }

  /** Plain text (no `<`, single spaces, no tab, nothing to trim) comes
      through unchanged. */
  lemma CleanKeepsPlainText(source: string)
    requires '<' !in source
    requires forall i :: 0 <= i < |source| ==> source[i] != '\t'
    requires forall i :: 0 < i < |source| ==> !(source[i - 1] == ' ' && source[i] == ' ')
    requires source == [] || (!IsWhitespace(source[0]) && !IsWhitespace(source[|source| - 1]))
    ensures CleanFromHtmlTags(source) == source
  {
    CollapseSingleSpaces(source);
    assert TrimStart(source) == 0;
    assert TrimEnd(source, 0) == |source|;
  }

  /** A paragraph's markup disappears. */
  lemma CleanParagraph()
    ensures CleanFromHtmlTags("<p>a</p>") == "a"
  {
    ParagraphTags();
    assert CollapseBlanks("a") == "a";
    assert TrimStart("a") == 0 && TrimEnd("a", 0) == 1;
  }

  lemma ParagraphTags()
    ensures RemoveTags("<p>a</p>") == "a"
  {
    var s := "<p>a</p>";
    assert s[1..] == "p>a</p>";
    OpeningTag();
    assert s[3..] == "a</p>";
    ClosingTag();
    assert "a</p>"[1..] == "</p>";
  }

  lemma OpeningTag()
    ensures Close("p>a</p>") == Some(1)
  {
    assert "p>a</p>"[1..] == ">a</p>";
  }

  lemma ClosingTag()
    ensures RemoveTags("</p>") == ""
  {
    var s := "</p>";
    assert s[1..] == "/p>";
    assert Close("/p>") == Some(2) by {
      assert "/p>"[1..] == "p>";
      assert "p>"[1..] == ">";
    }
    assert s[4..] == "";
  }

  /** A `<` that closes nothing on its line stays. */
  lemma UnclosedKept()
    ensures RemoveTags("1 < 2") == "1 < 2"
  {
    assert "1 < 2" == ['1'] + ([' '] + "< 2");
    LoneBracket();
    KeptCharacter(' ', "< 2");
    KeptCharacter('1', [' '] + "< 2");
  }

  lemma LoneBracket()
    ensures RemoveTags("< 2") == "< 2"
  {
    var t := " 2";
    assert Close(t).None? by {
      assert t[0] != '>' && !IsLineTerminator(t[0]) && t[1..] == "2";
      assert Close("2").None?;
    }
    assert "< 2"[1..] == t;
    assert RemoveTags(t) == t;
  }

  // ---------------------------------------------------------------------
  // What survives apart from whitespace
  // ---------------------------------------------------------------------

  /** The characters of `s` that are not whitespace, in their order. */
  function Visible(s: string): (r: string)
    ensures |r| <= |s|
    ensures NoWhitespace(r)
  {
    if s == [] then []
    else (if IsWhitespace(s[0]) then [] else [s[0]]) + Visible(s[1..])
  }

  lemma {:induction false} VisibleConcat(a: string, b: string)
    ensures Visible(a + b) == Visible(a) + Visible(b)
    decreases |a|
  {
    if a != [] {
      assert (a + b)[0] == a[0] && (a + b)[1..] == a[1..] + b;
      VisibleConcat(a[1..], b);
      var h := if IsWhitespace(a[0]) then [] else [a[0]];
      calc {
        Visible(a + b);
        h + Visible(a[1..] + b);
        h + (Visible(a[1..]) + Visible(b));
        (h + Visible(a[1..])) + Visible(b);
      }
    } else {
      assert a + b == b;
    }
  }

  lemma {:induction false} VisibleBlank(s: string)
    requires IsBlank(s)
    ensures Visible(s) == []
    decreases |s|
  {
    if s != [] {
      VisibleBlank(s[1..]);
    }
  }

  /** Collapsing runs of tabs and spaces keeps every other character, in
      order. */
  lemma {:induction false} CollapseKeepsVisible(s: string)
    ensures Visible(CollapseBlanks(s)) == Visible(s)
    decreases |s|
  {
    if s != [] {
      if IsBlankChar(s[0]) {
        var k := BlankRun(s);
        Split3(s, 0, k);
        assert s == s[..k] + s[k..];
        BlankSlice(s, 0, k);
        assert s[0..k] == s[..k];
        VisibleBlank(s[..k]);
        VisibleConcat(s[..k], s[k..]);
        CollapseKeepsVisible(s[k..]);
        VisibleConcat(" ", CollapseBlanks(s[k..]));
      } else {
        CollapseKeepsVisible(s[1..]);
        VisibleConcat([s[0]], CollapseBlanks(s[1..]));
      }
    }
  }

  /** `trim` only drops whitespace. */
  lemma TrimKeepsVisible(s: string)
    ensures Visible(Trim(s)) == Visible(s)
  {
    var a, b := TrimDecompose(s);
    VisibleBlank(s[..a]);
    VisibleBlank(s[b..]);
    VisibleConcat(s[..a], Trim(s));
    VisibleConcat(s[..a] + Trim(s), s[b..]);
  }

  /** Apart from whitespace, cleaning is exactly tag removal: the characters
      outside the removed tags keep their order and nothing else is lost. */
  lemma CleanKeepsVisibleText(source: string)
    ensures Visible(CleanFromHtmlTags(source)) == Visible(RemoveTags(source))
  {
    var t := RemoveTags(source);
    CollapseKeepsVisible(t);
    TrimKeepsVisible(CollapseBlanks(t));
  }

  /** Tags go before blanks collapse, so the spaces around a removed tag
      merge into one. */
  lemma TagBetweenWords()
    ensures CleanFromHtmlTags("a <b> c") == "a c"
  {
    TagBetweenSpaces();
    SpacesBetweenWords();
    NothingToTrim();
  }

  lemma NothingToTrim()
    ensures Trim("a c") == "a c"
  {
    assert TrimStart("a c") == 0 && TrimEnd("a c", 0) == 3;
  }

  lemma TagBetweenSpaces()
    ensures RemoveTags("a <b> c") == "a  c"
  {
    assert "a <b> c" == ['a'] + ([' '] + "<b> c");
    assert ['a'] + ([' '] + " c") == "a  c";
    TagThenWord();
    KeptCharacter(' ', "<b> c");
    KeptCharacter('a', [' '] + "<b> c");
  }

  /** A character other than `<` is kept. */
  lemma KeptCharacter(c: char, t: string)
    requires c != '<'
    ensures RemoveTags([c] + t) == [c] + RemoveTags(t)
  {
    assert ([c] + t)[1..] == t;
  }

  lemma TagThenWord()
    ensures RemoveTags("<b> c") == " c"
  {
    var u := "<b> c";
    assert u[1..] == "b> c" && u[1..][1..] == "> c";
    assert Close(u[1..]) == Some(1);
    assert u[3..] == " c";
    assert " c"[1..] == "c" && RemoveTags("c") == "c";
  }

  lemma SpacesBetweenWords()
    ensures CollapseBlanks("a  c") == "a c"
  {
    var v := "  c";
    assert v[1..] == " c" && v[1..][1..] == "c";
    assert BlankRun(v) == 2;
    assert v[2..] == "c";
    assert CollapseBlanks("c") == "c";
    assert "a  c"[1..] == v;
  }
}
