/**
  * Suggestion chips and the quoting of their replacement text. A chip carries
  * the caption shown to the user, the replacement text merged into the command
  * line, and whether picking it submits the line at once. A replacement that
  * would split into several arguments is wrapped in double quotes.
  */
module Quoting {
  import opened Text
  import opened Tokenizer

  datatype Suggestion = Suggestion(caption: string, replacement: string, runnable: bool)

  /** Where a parameter's candidates come from (the `Suggestions`
      implementations). `Apps` is also the older `Applications`. */
  datatype Source =
    | Custom(entries: seq<Suggestion>)
    | Empty
    | Commands
    | PinnedApps
    | NotPinnedApps
    | Apps
    | AppsPackages
    | Files
    | Directories

  /** `wrap`: a value whose trimmed form has no whitespace is kept as it is
      (untrimmed); otherwise the trimmed form is put between double quotes. */
  function Wrap(value: string): string {
    if NoWhitespace(Trim(value)) then value else ['"'] + Trim(value) + ['"']
  }

  /** The current constructor `Suggestion(label, replacement = "$label ",
      runnable = false)`: a runnable chip keeps its replacement verbatim, any
      other chip gets it through `Wrap`. */
  function NewSuggestion(caption: string, replacement: string, runnable: bool): (s: Suggestion)
    ensures s.caption == caption && s.runnable == runnable
    ensures runnable ==> s.replacement == replacement
    ensures !runnable && NoWhitespace(Trim(replacement)) ==> s.replacement == replacement
    ensures !runnable && !NoWhitespace(Trim(replacement)) ==>
      |s.replacement| == |Trim(replacement)| + 2 && s.replacement[0] == '"' && s.replacement[|s.replacement| - 1] == '"'
      && s.replacement[1..|s.replacement| - 1] == Trim(replacement)
  {
    Suggestion(caption, if runnable then replacement else Wrap(replacement), runnable)
  }

  /** `Suggestion(label)`: the default replacement is the label followed by a
      space, and the chip is not runnable. */
  function LabelSuggestion(caption: string): (s: Suggestion)
    ensures s == NewSuggestion(caption, caption + " ", false)
  {
    NewSuggestion(caption, caption + " ", false)
  }

  /** The older factory `Suggestion.of(label, value = label)`: the wrapped
      value followed by one space. */
  function Of(caption: string, value: string): (s: Suggestion)
    ensures s.caption == caption && !s.runnable
    ensures |s.replacement| > 0 && s.replacement[|s.replacement| - 1] == ' '
    ensures s.replacement[..|s.replacement| - 1] == Wrap(value)
  {
    Suggestion(caption, Wrap(value) + " ", false)
  }

  /** `String.asSuggestion`. */
  function AsSuggestion(s: string): (r: Suggestion)
    ensures r == Of(s, s)
  {
    Of(s, s)
  }

  /** Trimming a string free of quotes and backslashes keeps it free of them. */
  lemma TrimPlain(v: string)
    requires Plain(v)
    ensures Plain(Trim(v))
  {
    var a, b := TrimSlice(v);
    PlainSlice(v, a, b);
  }

  lemma PlainSlice(v: string, a: nat, b: nat)
    requires a <= b <= |v| && Plain(v)
    ensures Plain(v[a..b])
  {
    forall k | 0 <= k < b - a ensures v[a..b][k] == v[a + k] {}
  }

  /** Whatever follows a finished argument, if blank, adds no argument. */
  lemma BlankTail(s: string, i: nat)
    requires i <= |s| && IsBlank(s[i..])
    ensures TokensFrom(s, i) == []
  {
    SkipToEnd(s, i);
  }

  lemma {:induction false} SkipToEnd(s: string, i: nat)
    requires i <= |s| && IsBlank(s[i..])
    ensures SkipSpaces(s, i) == |s|
    decreases |s| - i
  {
    if i < |s| {
      assert s[i..][0] == s[i];
      assert s[i + 1..] == s[i..][1..];
      SkipToEnd(s, i + 1);
    }
  }

  /** A bare word between blank text reads back as that one word. */
  lemma {:induction false} PaddedWord(p: string, w: string, q: string)
    requires IsBlank(p) && IsBlank(q) && |w| > 0 && Plain(w) && NoWhitespace(w)
    ensures Tokenize(p + w + q) == [Argument(w, |p|, |p| + |w|)]
  {
    var s := p + w + q;
    var a, b := |p|, |p| + |w|;
    assert s[..a] == p;
    assert s[a..b] == w;
    assert s[b..] == q;
    assert SkipSpaces(s, 0) == a by {
      SkipBlankPrefix(s, a);
      assert s[a] == w[0];
    }
    forall k | a <= k < b ensures s[k] != '"' && s[k] != '\\' && !IsWhitespace(s[k]) {
      assert s[k] == s[a..b][k - a];
    }
    assert b == |s| || IsWhitespace(s[b]) by {
      if b < |s| { assert s[b] == q[0]; }
    }
    ScanWord(s, a, b);
    BlankTail(s, b);
  }

  /** A label chip of a plain word inserts the word and a space, which reads
      back as that one word. */
  lemma LabelWordRoundTrip(w: string)
    requires |w| > 0 && Plain(w) && NoWhitespace(w)
    ensures LabelSuggestion(w).replacement == w + " "
    ensures Tokenize(w + " ") == [Argument(w, 0, |w|)]
  {
    TrimWord(w);
    assert IsBlank(" ") by { assert IsWhitespace(' '); }
    PaddedWord("", w, " ");
    assert "" + w + " " == w + " ";
  }

  /** Skipping over a blank prefix reaches its end. */
  lemma {:induction false} SkipBlankPrefix(s: string, a: nat)
    requires a <= |s| && IsBlank(s[..a])
    ensures SkipSpaces(s, 0) >= a
  {
    forall k | 0 <= k < a ensures IsWhitespace(s[k]) {
      assert s[..a][k] == s[k];
    }
  }

  /** Blank text followed by blank text is blank. */
  lemma BlankConcat(x: string, y: string)
    requires IsBlank(x) && IsBlank(y)
    ensures IsBlank(x + y)
  {
    forall k | 0 <= k < |x + y| ensures IsWhitespace((x + y)[k]) {
      if k >= |x| { assert (x + y)[k] == y[k - |x|]; }
    }
  }

  /** Round trip of a value kept as it is: the bare word is read back. */
  lemma WrapRoundTripBare(v: string, tail: string)
    requires Plain(v) && Trim(v) != [] && IsBlank(tail) && NoWhitespace(Trim(v))
    ensures Tokenize(v + tail) == [Argument(Trim(v), TrimStart(v), TrimStart(v) + |Trim(v)|)]
  {
    var a, b := TrimSlice(v);
    PaddedSlice(v, tail, a, b);
  }

  /** A bare word between blank text, followed by more blank text. */
  lemma PaddedSlice(v: string, tail: string, a: nat, b: nat)
    requires a < b <= |v| && IsBlank(v[..a]) && IsBlank(v[b..]) && IsBlank(tail)
    requires Plain(v) && NoWhitespace(v[a..b])
    ensures Tokenize(v + tail) == [Argument(v[a..b], a, b)]
  {
    PlainSlice(v, a, b);
    BlankConcat(v[b..], tail);
    PaddedWord(v[..a], v[a..b], v[b..] + tail);
    SplitAround(v, tail, v[..a], v[a..b], v[b..]);
  }

  lemma SplitAround(v: string, tail: string, p: string, t: string, r: string)
    requires v == p + t + r
    ensures v + tail == p + t + (r + tail)
  {
  }

  /** Round trip of a quoted value: the quotes are dropped and the whitespace
      inside them stays in the single argument. */
  lemma {:induction false} WrapRoundTripQuoted(t: string, tail: string)
    requires Plain(t) && IsBlank(tail)
    ensures Tokenize(['"'] + t + ['"'] + tail) == [Argument(t, 0, |t| + 2)]
  {
    var n := |t|;
    var s := ['"'] + t + ['"'] + tail;
    assert s[0] == '"' && s[n + 1] == '"';
    forall k | 0 < k < n + 1 ensures s[k] != '"' && s[k] != '\\' {
      assert s[k] == t[k - 1];
    }
    QuotedArgument(s, 0, n + 1);
    assert s[1..n + 1] == t;
    assert s[n + 2..] == tail;
    if n + 2 < |s| {
      assert IsWhitespace(s[n + 2]) by { assert s[n + 2] == tail[0]; }
    }
    assert Scan(s, n + 2, false, false).0 == "";
    assert t + "" == t;
    BlankTail(s, n + 2);
    assert Scan(s, 0, false, false) == (t, n + 2);
  }

  /** The wrapped text of a value free of quotes and backslashes, followed by
      any blank text, reads back as exactly one argument: the trimmed value. */
  lemma WrapRoundTrip(v: string, tail: string)
    requires Plain(v) && Trim(v) != [] && IsBlank(tail)
    ensures |Tokenize(Wrap(v) + tail)| == 1
    ensures Tokenize(Wrap(v) + tail)[0].value == Trim(v)
  {
    if NoWhitespace(Trim(v)) {
      WrapRoundTripBare(v, tail);
    } else {
      TrimPlain(v);
      WrapRoundTripQuoted(Trim(v), tail);
    }
  }

  /** The current constructor's replacement for a non-runnable chip reads back
      as the single argument the user meant. */
  lemma SuggestionRoundTrip(caption: string, replacement: string)
    requires Plain(replacement) && Trim(replacement) != []
    ensures |Tokenize(NewSuggestion(caption, replacement, false).replacement)| == 1
    ensures Tokenize(NewSuggestion(caption, replacement, false).replacement)[0].value == Trim(replacement)
  {
    WrapRoundTrip(replacement, "");
    assert Wrap(replacement) + "" == Wrap(replacement);
  }

  /** The older `Suggestion.of` replacement (with its trailing space) reads
      back the same way. */
  lemma OfRoundTrip(caption: string, value: string)
    requires Plain(value) && Trim(value) != []
    ensures |Tokenize(Of(caption, value).replacement)| == 1
    ensures Tokenize(Of(caption, value).replacement)[0].value == Trim(value)
  {
    assert IsBlank(" ") by { assert IsWhitespace(' '); }
    WrapRoundTrip(value, " ");
  }

  /** A word with whitespace only inside it loses one trailing space to
      `Trim`. */
  lemma TrimTrailingSpace(w: string)
    requires |w| > 0 && !IsWhitespace(w[0]) && !IsWhitespace(w[|w| - 1])
    ensures Trim(w + " ") == w
  {
    var r := w + " ";
    assert TrimStart(r) == 0;
    assert r[..|r| - 1] == w;
    assert TrimEnd(w, 0) == |w|;
    assert TrimEnd(r, 0) == |w|;
  }

  /** A label with a space gets a quoted replacement and loses the trailing
      space of the default. */
  lemma ExampleMyApp()
    ensures LabelSuggestion("My App").replacement == "\"My App\""
  {
    var w := "My App";
    TrimTrailingSpace(w);
    assert IsWhitespace(w[2]);
  }

  /** A one-word label keeps the default replacement, trailing space included. */
  lemma ExampleOneWord()
    ensures LabelSuggestion("ls").replacement == "ls "
  {
    TrimTrailingSpace("ls");
  }
}
