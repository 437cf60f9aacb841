/**
  * What the screen does with a picked chip: the chip's replacement is merged
  * into the field text (appended after a separating space, or spliced over
  * the token being typed), the cursor goes to the end, and a runnable chip
  * submits the line at once. Also when the chip row is shown, and in which
  * order its chips come.
  */
module Merge {
  import opened Text
  import opened Tokenizer
  import opened Quoting
  import opened Sources
  import opened Suggest

  /** Java's `StringBuilder(text).replace(start, end, str)`: it throws (None)
      when `start` is past the text or past `end`; an `end` past the text
      stands for the text's end. */
  function ReplaceRange(text: string, start: nat, end: nat, str: string): (r: Option<string>)
    ensures r.None? <==> start > |text| || start > end
    ensures r.Some? ==> |r.value| == start + |str| + (|text| - (if end < |text| then end else |text|))
    ensures r.Some? ==> r.value[..start] == text[..start] && r.value[start..start + |str|] == str
    ensures r.Some? ==> r.value[start + |str|..] == text[(if end < |text| then end else |text|)..]
  {
    if start > |text| || start > end then None
    else
      var e := if end < |text| then end else |text|;
      var r := text[..start] + str + text[e..];
      assert r[..start] == text[..start] && r[start..start + |str|] == str;
      assert r[start + |str|..] == text[e..];
      Some(r)
  }

  /** The new field text when a chip is picked. */
  function MergeText(text: string, action: MergeAction, replacement: string): (r: Option<string>)
    ensures action.Append? ==> r.Some? && EndsWithText(r.value, replacement)
    ensures action.Append? && text == [] ==> r == Some(replacement)
    ensures action.Append? && text != [] ==>
      StartsWith(r.value, text)
      && |r.value| == |text| + |replacement| + (if IsWhitespace(text[|text| - 1]) then 0 else 1)
      && (!IsWhitespace(text[|text| - 1]) ==> r.value[|text|] == ' ')
  {
    match action
    case Append =>
      if text != [] then
        var sep := if !IsWhitespace(text[|text| - 1]) then " " else "";
        var r := text + sep + replacement;
        assert r[..|text|] == text;
        assert r[|r| - |replacement|..] == replacement;
        Some(r)
      else Some(replacement)
    case Replace(start, end) => ReplaceRange(text, start, end, replacement)
  }

  predicate EndsWithText(s: string, suffix: string) {
    |suffix| <= |s| && s[|s| - |suffix|..] == suffix
  }

  /** The field after a pick: its text, the cursor (a collapsed selection)
      and whether the line is submitted right away. */
  datatype Picked = Picked(text: string, cursor: nat, submit: bool)

  /** `SuggestionItem`'s click handler (current revision): the cursor goes to
      the end of the merged text; a runnable chip submits. The older
      revision's handler never submits. */
  function Pick(current: bool, text: string, action: MergeAction, s: Suggestion): (p: Option<Picked>)
    ensures p.Some? <==> MergeText(text, action, s.replacement).Some?
    ensures p.Some? ==> p.value.text == MergeText(text, action, s.replacement).value
    ensures p.Some? ==> p.value.cursor == |p.value.text|
    ensures p.Some? ==> (p.value.submit <==> current && s.runnable)
  {
    match MergeText(text, action, s.replacement)
    case None => None
    case Some(t) => Some(Picked(t, |t|, current && s.runnable))
  }

  // ---------------------------------------------------------------------
  // The chip row
  // ---------------------------------------------------------------------

  /** The current screen shows the row while idle when there are chips, or
      when the field is empty and some apps are pinned. */
  predicate RowVisible(isIdle: bool, fieldText: string, suggestions: seq<Suggestion>, pinned: seq<Suggestion>) {
    isIdle && (suggestions != [] || (fieldText == [] && pinned != []))
  }

  /** The older screen shows the row while idle when there are chips. */
  predicate OlderRowVisible(isIdle: bool, suggestions: seq<Suggestion>) {
    isIdle && suggestions != []
  }

  /** The chips in the row: the pinned apps first when the field is empty,
      then the suggestions. */
  function RowChips(fieldText: string, suggestions: seq<Suggestion>, pinned: seq<Suggestion>): (r: seq<Suggestion>)
    ensures fieldText == [] ==> r == pinned + suggestions
    ensures fieldText != [] ==> r == suggestions
  {
    if fieldText == [] && pinned != [] then pinned + suggestions else suggestions
  }

  /** Whenever the current screen shows the row, it holds at least one chip;
      the current rule shows the row in every case the older one does. */
  lemma RowNeverEmpty(isIdle: bool, fieldText: string, suggestions: seq<Suggestion>, pinned: seq<Suggestion>)
    ensures RowVisible(isIdle, fieldText, suggestions, pinned) ==> RowChips(fieldText, suggestions, pinned) != []
    ensures OlderRowVisible(isIdle, suggestions) ==> RowVisible(isIdle, fieldText, suggestions, pinned)
  {
  }

  // ---------------------------------------------------------------------
  // Picking what the engine suggested
  // ---------------------------------------------------------------------

  /** Picking any chip the engine offered for a line never throws: a
      replacement overwrites the last argument (see
      `ReplaceTargetsLastArgument`), which runs to the end of the line, and
      keeps everything before it. */
  lemma PickAfterSuggest(g: Generator, host: Host, line: string, s: Suggestion)
    ensures var r := LoadSuggestions(g, host, Tokenize(line), |line|);
      Pick(g == Current, line, r.mergeAction, s).Some?
    ensures var r := LoadSuggestions(g, host, Tokenize(line), |line|);
      r.mergeAction.Replace? ==>
        r.mergeAction.start < |line| && Pick(g == Current, line, r.mergeAction, s).value.text == line[..r.mergeAction.start] + s.replacement
  {
    var args := Tokenize(line);
    var r := LoadSuggestions(g, host, args, |line|);
    ReplaceTargetsLastArgument(g, host, line);
    PickOverTail(g == Current, line, r.mergeAction, s);
  }

  /** Splicing over a range that runs to the end of the text keeps the text
      before the range and never throws. */
  lemma PickOverTail(current: bool, line: string, action: MergeAction, s: Suggestion)
    requires action.Replace? ==> action.start < action.end == |line|
    ensures Pick(current, line, action, s).Some?
    ensures action.Replace? ==> Pick(current, line, action, s).value.text == line[..action.start] + s.replacement
  {
    if action.Replace? {
      assert line[|line|..] == [];
      assert line[..action.start] + s.replacement + [] == line[..action.start] + s.replacement;
    }
  }

  /** Appending a chip to text that ends with a word separates them with one
      space, so the chip starts a new argument. */
  lemma AppendSeparates(text: string, replacement: string)
    requires text != [] && !IsWhitespace(text[|text| - 1])
    ensures MergeText(text, Append, replacement) == Some(text + " " + replacement)
  {
  }

  /** Picking a chip whose replacement is a plain single word, while the
      field is empty, leaves one argument: that word. */
  lemma PickIntoEmptyField(s: Suggestion, w: string)
    requires s == LabelSuggestion(w) && |w| > 0 && Plain(w) && NoWhitespace(w)
    ensures Pick(true, "", Append, s).Some?
    ensures var t := Pick(true, "", Append, s).value.text;
      Tokenize(t) == [Argument(w, 0, |w|)]
  {
    LabelWordRoundTrip(w);
  }
}
