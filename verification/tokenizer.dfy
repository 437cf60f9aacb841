/**
  * The command-line tokenizer (`parseArguments` in the current revision and its
  * textual twin `toArguments` in the older one). A line is scanned left to
  * right; whitespace separates arguments, an unescaped `"` toggles quoting and
  * is not emitted, and a backslash makes the next character literal. Each
  * argument records the raw span `[start, end)` it was read from.
  */
module Tokenizer {
  import opened Text

  datatype Argument = Argument(value: string, start: nat, end: nat)

  /** Index of the first non-whitespace character at or after `i` (the
      `isSpaceAt` loop). */
  function SkipSpaces(s: string, i: nat): (j: nat)
    requires i <= |s|
    ensures i <= j <= |s|
    ensures forall k :: i <= k < j ==> IsWhitespace(s[k])
    ensures j < |s| ==> !IsWhitespace(s[j])
    decreases |s| - i
  {
    if i < |s| && IsWhitespace(s[i]) then SkipSpaces(s, i + 1) else i
  }

  /** Reads one argument starting at `i` in the given escape/quote state and
      yields the characters it contributes and the index where it stops. */
  function Scan(s: string, i: nat, escape: bool, quote: bool): (r: (string, nat))
    requires i <= |s|
    ensures i <= r.1 <= |s|
    ensures |r.0| <= r.1 - i
    ensures r.1 == |s| || IsWhitespace(s[r.1])
    ensures i < |s| && (escape || quote || !IsWhitespace(s[i])) ==> r.1 > i
    decreases |s| - i
  {
    if i == |s| then ("", i)
    else if escape then var t := Scan(s, i + 1, false, quote); ([s[i]] + t.0, t.1)
    else if !quote && IsWhitespace(s[i]) then ("", i)
    else if s[i] == '\\' then Scan(s, i + 1, true, quote)
    else if s[i] == '"' then Scan(s, i + 1, false, !quote)
    else var t := Scan(s, i + 1, false, quote); ([s[i]] + t.0, t.1)
  }

  /** The arguments read from index `i` on. */
  function TokensFrom(s: string, i: nat): seq<Argument>
    requires i <= |s|
    decreases |s| - i
  {
    var j := SkipSpaces(s, i);
    if j == |s| then []
    else
      var t := Scan(s, j, false, false);
      [Argument(t.0, j, t.1)] + TokensFrom(s, t.1)
  }

  /** The argument list of a whole line. */
  function Tokenize(s: string): seq<Argument> {
    TokensFrom(s, 0)
  }

  /** The scanner as the source writes it: an outer loop over arguments, a
      whitespace-skipping loop, and the argument-reading loop of
      `ReadArgument`. An empty span is not an argument. */
  method ParseArguments(line: string) returns (arguments: seq<Argument>)
    ensures arguments == Tokenize(line)
    ensures WellFormed(line, arguments)
  {
    arguments := [];
    var index := 0;
    while index < |line|
      invariant 0 <= index <= |line|
      invariant arguments + TokensFrom(line, index) == Tokenize(line)
      decreases |line| - index
    {
      ghost var from := index;
      while index < |line| && IsWhitespace(line[index])
        invariant from <= index <= |line|
        invariant SkipSpaces(line, index) == SkipSpaces(line, from)
      {
        index := index + 1;
      }
      var start := index;
      var builder;
      builder, index := ReadArgument(line, start);
      TokensStep(line, from, start);
      if start >= index {
        continue;
      }
      arguments := arguments + [Argument(builder, start, index)];
    }
    TokensWellFormed(line, 0);
  }

  /** One round of the outer loop: after the skipped whitespace, either the
      line is over or one non-empty argument is read. */
  lemma TokensStep(s: string, from: nat, start: nat)
    requires from <= |s| && start == SkipSpaces(s, from)
    ensures var t := Scan(s, start, false, false);
      && (start < t.1 ==> TokensFrom(s, from) == [Argument(t.0, start, t.1)] + TokensFrom(s, t.1))
      && (start >= t.1 ==> t.1 == |s| && TokensFrom(s, from) == [])
  {
  }

  /** The inner loop of the scanner: reads from `start` in the
      `escape`/`quote` state machine until unquoted whitespace or the end of
      the line, accumulating the emitted characters in `builder`. */
  method ReadArgument(line: string, start: nat) returns (builder: string, index: nat)
    requires start <= |line|
    ensures (builder, index) == Scan(line, start, false, false)
  {
    var escape := false;
    var quote := false;
    builder := "";
    index := start;
    assert builder + Scan(line, index, escape, quote).0 == Scan(line, index, escape, quote).0;
    while index < |line|
      invariant start <= index <= |line|
      invariant Scan(line, start, false, false).0 == builder + Scan(line, index, escape, quote).0
      invariant Scan(line, start, false, false).1 == Scan(line, index, escape, quote).1
      decreases |line| - index
    {
      var c := line[index];
      if escape {
        ScanEmits(line, index, escape, quote, builder);
        escape := false;
        builder := builder + [c];
        index := index + 1;
        continue;
      }
      if !quote && IsWhitespace(c) {
        break;
      }
      if c == '\\' {
        escape := true;
      } else if c == '"' {
        quote := !quote;
      } else {
        ScanEmits(line, index, escape, quote, builder);
        builder := builder + [c];
      }
      index := index + 1;
    }
    assert Scan(line, index, escape, quote).0 == "";
    assert builder + Scan(line, index, escape, quote).0 == builder;
  }

  /** One step of the inner loop when the current character is emitted. */
  lemma ScanEmits(s: string, i: nat, escape: bool, quote: bool, builder: string)
    requires i < |s|
    requires escape || ((quote || !IsWhitespace(s[i])) && s[i] != '\\' && s[i] != '"')
    ensures builder + Scan(s, i, escape, quote).0 == (builder + [s[i]]) + Scan(s, i + 1, false, quote).0
    ensures Scan(s, i, escape, quote).1 == Scan(s, i + 1, false, quote).1
  {
  }

  /** Spans are non-empty, inside the line, start on a non-whitespace
      character, carry no more characters than they span, and are strictly
      ordered with a gap between neighbours. */
  ghost predicate WellFormed(s: string, args: seq<Argument>) {
    && (forall k :: 0 <= k < |args| ==>
          args[k].start < args[k].end <= |s| && !IsWhitespace(s[args[k].start])
          && |args[k].value| <= args[k].end - args[k].start)
    && (forall k :: 0 <= k < |args| - 1 ==> args[k].end < args[k + 1].start)
  }

  lemma {:induction false} TokensWellFormed(s: string, i: nat)
    requires i <= |s|
    ensures WellFormed(s, TokensFrom(s, i))
    ensures forall k :: 0 <= k < |TokensFrom(s, i)| ==> i <= TokensFrom(s, i)[k].start
    decreases |s| - i
  {
    var j := SkipSpaces(s, i);
    TokensStep(s, i, j);
    if j < |s| {
      var t := Scan(s, j, false, false);
      TokensWellFormed(s, t.1);
      var rest := TokensFrom(s, t.1);
      if |rest| > 0 {
        assert IsWhitespace(s[t.1]);
        assert rest[0].start == SkipSpaces(s, t.1) > t.1;
      }
      WellFormedCons(s, Argument(t.0, j, t.1), rest);
    }
  }

  /** An argument in front of well-formed ones, ending before the first of
      them starts, keeps the list well formed. */
  lemma WellFormedCons(s: string, a: Argument, rest: seq<Argument>)
    requires a.start < a.end <= |s| && !IsWhitespace(s[a.start]) && |a.value| <= a.end - a.start
    requires WellFormed(s, rest)
    requires forall k :: 0 <= k < |rest| ==> a.end <= rest[k].start
    requires rest != [] ==> a.end < rest[0].start
    ensures WellFormed(s, [a] + rest)
    ensures forall k :: 0 <= k < |rest| + 1 ==> a.start <= ([a] + rest)[k].start
  {
    var r := [a] + rest;
    forall k | 0 <= k < |r| - 1 ensures r[k].end < r[k + 1].start {
      if k > 0 { assert r[k] == rest[k - 1] && r[k + 1] == rest[k]; }
    }
  }

  /** Every non-whitespace character of the line lies inside some argument's
      span: only whitespace is skipped between arguments. */
  lemma {:induction false} NonWhitespaceCovered(s: string, i: nat, p: nat)
    requires i <= p < |s| && !IsWhitespace(s[p])
    ensures exists k :: 0 <= k < |TokensFrom(s, i)| && TokensFrom(s, i)[k].start <= p < TokensFrom(s, i)[k].end
    decreases |s| - i
  {
    var j := SkipSpaces(s, i);
    assert j <= p;
    var t := Scan(s, j, false, false);
    var toks := TokensFrom(s, i);
    assert toks[0] == Argument(t.0, j, t.1);
    if p >= t.1 {
      NonWhitespaceCovered(s, t.1, p);
      var k :| 0 <= k < |TokensFrom(s, t.1)| && TokensFrom(s, t.1)[k].start <= p < TokensFrom(s, t.1)[k].end;
      assert toks[k + 1] == TokensFrom(s, t.1)[k];
    }
  }

  /** An empty or all-whitespace line yields no arguments. */
  lemma BlankLineNoArguments(s: string)
    requires IsBlank(s)
    ensures Tokenize(s) == []
  {
    assert SkipSpaces(s, 0) == |s|;
  }

  predicate Plain(s: string) {
    forall k :: 0 <= k < |s| ==> s[k] != '"' && s[k] != '\\'
  }

  /** Without quotes or backslashes, an argument is read verbatim up to the
      next whitespace. */
  lemma {:induction false} ScanPlain(s: string, i: nat)
    requires i <= |s| && Plain(s)
    ensures Scan(s, i, false, false).0 == s[i..Scan(s, i, false, false).1]
    ensures NoWhitespace(s[i..Scan(s, i, false, false).1])
    decreases |s| - i
  {
    if i < |s| && !IsWhitespace(s[i]) {
      ScanPlain(s, i + 1);
      var e := Scan(s, i + 1, false, false).1;
      assert s[i..e] == [s[i]] + s[i + 1..e];
    }
  }

  /** For a line without `"` or `\`, the arguments are exactly its maximal
      runs of non-whitespace characters, each with its own text as value. */
  lemma {:induction false} PlainLineArguments(s: string, i: nat)
    requires i <= |s| && Plain(s)
    requires i == 0 || i == |s| || IsWhitespace(s[i])
    ensures forall a :: a in TokensFrom(s, i) ==>
      && a.start < a.end <= |s| && a.value == s[a.start..a.end] && NoWhitespace(a.value)
      && (a.start == 0 || IsWhitespace(s[a.start - 1]))
      && (a.end == |s| || IsWhitespace(s[a.end]))
    decreases |s| - i
  {
    var j := SkipSpaces(s, i);
    if j < |s| {
      var t := Scan(s, j, false, false);
      ScanPlain(s, j);
      PlainLineArguments(s, t.1);
      assert j == 0 || IsWhitespace(s[j - 1]) by {
        if j > i { assert IsWhitespace(s[j - 1]); }
      }
    }
  }

  /** Inside quotes, characters other than `"` and `\` (whitespace included)
      are emitted one by one. */
  lemma {:induction false} ScanQuotedRun(s: string, i: nat, j: nat)
    requires i <= j <= |s|
    requires forall k :: i <= k < j ==> s[k] != '"' && s[k] != '\\'
    ensures Scan(s, i, false, true) == (s[i..j] + Scan(s, j, false, true).0, Scan(s, j, false, true).1)
    decreases j - i
  {
    if i < j {
      ScanQuotedRun(s, i + 1, j);
      var t := Scan(s, j, false, true);
      calc {
        Scan(s, i, false, true).0;
        [s[i]] + Scan(s, i + 1, false, true).0;
        [s[i]] + (s[i + 1..j] + t.0);
        ([s[i]] + s[i + 1..j]) + t.0;
        { assert s[i..j] == [s[i]] + s[i + 1..j]; }
        s[i..j] + t.0;
      }
    } else {
      assert s[i..j] + Scan(s, j, false, true).0 == Scan(s, j, false, true).0;
    }
  }

  /** Outside quotes, non-whitespace characters other than `"` and `\` are
      emitted one by one. */
  lemma {:induction false} ScanBareRun(s: string, i: nat, j: nat)
    requires i <= j <= |s|
    requires forall k :: i <= k < j ==> s[k] != '"' && s[k] != '\\' && !IsWhitespace(s[k])
    ensures Scan(s, i, false, false) == (s[i..j] + Scan(s, j, false, false).0, Scan(s, j, false, false).1)
    decreases j - i
  {
    if i < j {
      ScanBareRun(s, i + 1, j);
      var t := Scan(s, j, false, false);
      calc {
        Scan(s, i, false, false).0;
        [s[i]] + Scan(s, i + 1, false, false).0;
        [s[i]] + (s[i + 1..j] + t.0);
        ([s[i]] + s[i + 1..j]) + t.0;
        { assert s[i..j] == [s[i]] + s[i + 1..j]; }
        s[i..j] + t.0;
      }
    } else {
      assert s[i..j] + Scan(s, j, false, false).0 == Scan(s, j, false, false).0;
    }
  }

  /** An unescaped `"` is not emitted, and whitespace between two quotes
      stays inside the argument, whose span includes the quotes. */
  lemma QuotedArgument(s: string, i: nat, j: nat)
    requires i < j < |s| && s[i] == '"' && s[j] == '"'
    requires forall k :: i < k < j ==> s[k] != '"' && s[k] != '\\'
    ensures Scan(s, i, false, false) == (s[i + 1..j] + Scan(s, j + 1, false, false).0, Scan(s, j + 1, false, false).1)
  {
    ScanQuotedRun(s, i + 1, j);
  }

  /** A backslash is dropped and the character after it is emitted even when
      it is whitespace, a quote or another backslash. */
  lemma EscapedCharacter(s: string, i: nat, quote: bool)
    requires i + 1 < |s| && s[i] == '\\'
    ensures Scan(s, i, false, quote) == ([s[i + 1]] + Scan(s, i + 2, false, quote).0, Scan(s, i + 2, false, quote).1)
  {
  }

  /** A bare word (no quotes, backslashes or whitespace) followed by
      whitespace or the end of the line is read verbatim. */
  lemma ScanWord(s: string, i: nat, j: nat)
    requires i <= j <= |s|
    requires forall k :: i <= k < j ==> s[k] != '"' && s[k] != '\\' && !IsWhitespace(s[k])
    requires j == |s| || IsWhitespace(s[j])
    ensures Scan(s, i, false, false) == (s[i..j], j)
  {
    ScanBareRun(s, i, j);
    assert Scan(s, j, false, false) == ("", j);
    assert s[i..j] + "" == s[i..j];
  }

  /** `echo "a b" c` gives three arguments; the quoted one spans the quotes. */
  lemma ExampleQuoted()
    ensures Tokenize("echo \"a b\" c") ==
      [Argument("echo", 0, 4), Argument("a b", 5, 10), Argument("c", 11, 12)]
  {
    var s := "echo \"a b\" c";
    ScanWord(s, 0, 4);
    assert s[0..4] == "echo";
    assert SkipSpaces(s, 4) == 5;
    QuotedSpan(s);
    QuotedTail(s);
    TokensStep(s, 4, 5);
  }

  lemma QuotedTail(s: string)
    requires s == "echo \"a b\" c"
    ensures TokensFrom(s, 10) == [Argument("c", 11, 12)]
  {
    assert SkipSpaces(s, 10) == 11;
    ScanWord(s, 11, 12);
    assert s[11..12] == "c";
    assert SkipSpaces(s, 12) == 12;
  }

  lemma QuotedSpan(s: string)
    requires s == "echo \"a b\" c"
    ensures Scan(s, 5, false, false) == ("a b", 10)
  {
    QuotedArgument(s, 5, 9);
    assert Scan(s, 10, false, false) == ("", 10);
    assert s[6..9] + "" == "a b";
  }

  /** `a\ b` is a single argument "a b" spanning all four characters. */
  lemma ExampleEscapedSpace()
    ensures Tokenize("a\\ b") == [Argument("a b", 0, 4)]
  {
    var s := "a\\ b";
    ScanWord(s, 3, 4);
    assert s[3..4] == "b";
    EscapedCharacter(s, 1, false);
    assert [s[2]] + "b" == " b";
    assert Scan(s, 1, false, false) == (" b", 4);
    assert [s[0]] + " b" == "a b";
    assert Scan(s, 0, false, false) == ("a b", 4);
    assert TokensFrom(s, 4) == [];
  }

  /** Offsets are over the raw line: `cd  foo` puts "foo" at [4, 7). */
  lemma ExampleOffsets()
    ensures Tokenize("cd  foo") == [Argument("cd", 0, 2), Argument("foo", 4, 7)]
  {
    var s := "cd  foo";
    ScanWord(s, 0, 2);
    assert s[0..2] == "cd";
    assert SkipSpaces(s, 2) == 4;
    ScanWord(s, 4, 7);
    assert s[4..7] == "foo";
    assert TokensFrom(s, 7) == [];
    assert TokensFrom(s, 2) == [Argument("foo", 4, 7)];
  }

  /** Only empty spans are dropped: `""` is an argument with an empty value
      and a span of two characters. */
  lemma ExampleEmptyQuotes()
    ensures Tokenize("\"\"") == [Argument("", 0, 2)]
  {
    var s := "\"\"";
    assert Scan(s, 2, false, false) == ("", 2);
    assert Scan(s, 1, false, true) == ("", 2);
    assert Scan(s, 0, false, false) == ("", 2);
    assert TokensFrom(s, 2) == [];
  }

  /** An unterminated quote is not an error: the argument runs to the end of
      the line with what it has read. */
  lemma ExampleUnterminatedQuote()
    ensures Tokenize("\"a b") == [Argument("a b", 0, 4)]
  {
    var s := "\"a b";
    ScanQuotedRun(s, 1, 4);
    assert Scan(s, 4, false, true) == ("", 4);
    assert s[1..4] == "a b";
    assert s[1..4] + "" == "a b";
    assert Scan(s, 0, false, false) == ("a b", 4);
    assert TokensFrom(s, 4) == [];
  }

  /** A trailing backslash is dropped and ends the argument. */
  lemma ExampleTrailingBackslash()
    ensures Tokenize("a\\") == [Argument("a", 0, 2)]
  {
    var s := "a\\";
    assert Scan(s, 2, true, false) == ("", 2);
    assert Scan(s, 1, false, false) == ("", 2);
    assert [s[0]] + "" == "a";
    assert Scan(s, 0, false, false) == ("a", 2);
    assert TokensFrom(s, 2) == [];
  }
}

/**
  * The immutable argument list handed to the dispatcher and the suggestion
  * engine (`Arguments`: indexed access, `count`, `dropFirst`, `isEmpty`).
  */
module Arguments {
  import opened Tokenizer

  function Count(args: seq<Argument>): (n: nat)
    ensures n == |args|
  {
    |args|
  }

  predicate IsEmpty(args: seq<Argument>) {
    |args| == 0
  }

  /** `dropFirst`: a new list without the first argument; an empty list stays
      empty. */
  function DropFirst(args: seq<Argument>): (r: seq<Argument>)
    ensures |r| == if |args| == 0 then 0 else |args| - 1
    ensures forall i :: 0 <= i < |r| ==> r[i] == args[i + 1]
  {
    if |args| == 0 then [] else args[1..]
  }

  /** The values of the arguments, in order. */
  function Values(args: seq<Argument>): (r: seq<string>)
    ensures |r| == |args|
    ensures forall i :: 0 <= i < |args| ==> r[i] == args[i].value
  {
    seq(|args|, i requires 0 <= i < |args| => args[i].value)
  }
}
