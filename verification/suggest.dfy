/**
  * The suggestion engine: from the arguments of the command line typed so
  * far and the line's length, it walks the command tree, finds the token
  * being typed (the one that ends exactly at the end of the line, called
  * live here) or the parameter that comes next, and asks that parameter's
  * source for chips, with the way a picked chip is merged into the line.
  */
module Suggest {
  import opened Text
  import opened Tokenizer
  import opened Quoting
  import opened Arity
  import opened Registry
  import opened Sources

  /** How a picked chip goes into the line: after the text, or over the
      characters `start..end` of the token being typed. */
  datatype MergeAction = Append | Replace(start: nat, end: nat)

  datatype SuggestionsResult = SuggestionsResult(suggestions: seq<Suggestion>, mergeAction: MergeAction)

  const EMPTY := SuggestionsResult([], Append)

  /** The two generators: the current one (`loadSuggestions`, matching names
      regardless of case and offering apps first) and the older class
      `SuggestionsGenerator` (case-sensitive, over the oldest sources). */
  datatype Generator = Current | Older

  function RevisionOf(g: Generator): Revision {
    if g == Current then ShellUi else Oldest
  }

  /** A parameter's source, where the generator's revision has it; a
      source the revision lacks cannot be declared there and offers nothing. */
  function Offer(g: Generator, host: Host, source: Source, hint: string): seq<Suggestion> {
    if Available(RevisionOf(g), source) then Load(RevisionOf(g), host, source, hint) else []
  }

  /** Whether a name matches the query: `indexOf(query, ignoreCase = true)`
      in the current generator, `indexOf(query)` in the older one. */
  predicate Matches(g: Generator, name: string, query: string) {
    if g == Current then ContainsIgnoreCase(name, query) else Contains(name, query)
  }

  /** `names().toSuggestions(query)`. */
  function ToSuggestions(g: Generator, names: seq<string>, query: string): (r: seq<Suggestion>)
    ensures forall n :: LabelSuggestion(n) in r <==> n in names && Matches(g, n, query)
  {
    var kept := Filter(names, n => Matches(g, n, query));
    assert forall n :: LabelSuggestion(n) in Chips(kept) <==> n in kept by {
      forall n ensures LabelSuggestion(n) in Chips(kept) <==> n in kept {
        ChipsOf(kept, n);
      }
    }
    Chips(kept)
  }

  /** `toSuggestions` keeps the names' order: a list offers what its parts
      offer, one after the other, and a single name is offered exactly when
      it matches. */
  lemma ToSuggestionsKeepsOrder(g: Generator, a: seq<string>, b: seq<string>, n: string, query: string)
    ensures ToSuggestions(g, a + b, query) == ToSuggestions(g, a, query) + ToSuggestions(g, b, query)
    ensures ToSuggestions(g, [n], query) == if Matches(g, n, query) then [LabelSuggestion(n)] else []
  {
    var p := m => Matches(g, m, query);
    FilterConcat(a, b, p);
    FilterOne(n, p);
    ChipsConcat(Filter(a, p), Filter(b, p));
  }

  /** The command source of the later revisions is `toSuggestions` over the
      registry's names, ignoring case: the matching names in the registry's
      order. */
  lemma CommandsAreToSuggestions(rev: Revision, host: Host, hint: string)
    requires rev != Oldest
    ensures Load(rev, host, Commands, hint) == ToSuggestions(Current, host.commands.names, hint)
  {
    FilterExt(host.commands.names, n => ContainsIgnoreCase(n, hint), n => Matches(Current, n, hint));
  }

  /** `OpenableApp(label, packageName)`: a runnable chip that opens the app. */
  function OpenableApp(name: string, packageName: string): (s: Suggestion)
    ensures s.caption == name && s.runnable && s.replacement == "apps open-pkg " + packageName
  {
    NewSuggestion(name, "apps open-pkg " + packageName, true)
  }

  /** `loadFirstSuggestions(hint)`: for a non-blank hint, the matching apps
      as runnable chips, then the matching command names. */
  function FirstSuggestions(host: Host, hint: string): (r: seq<Suggestion>)
    ensures var apps := if IsBlank(hint) then [] else MatchingApps(host, hint);
      |r| == |apps| + |Load(ShellUi, host, Commands, hint)|
      && r[|apps|..] == Load(ShellUi, host, Commands, hint)
      && forall i :: 0 <= i < |apps| ==> r[i] == OpenableApp(apps[i].name, apps[i].packageName)
  {
    var apps := if IsBlank(hint) then [] else MatchingApps(host, hint);
    var chips := seq(|apps|, i requires 0 <= i < |apps| => OpenableApp(apps[i].name, apps[i].packageName));
    assert (chips + Load(ShellUi, host, Commands, hint))[|apps|..] == Load(ShellUi, host, Commands, hint);
    chips + Load(ShellUi, host, Commands, hint)
  }

  /** `loadSuggestions(args, lineLength)` / `suggestions(args, lineLength)`. */
  function LoadSuggestions(g: Generator, host: Host, args: seq<Argument>, lineLength: nat): SuggestionsResult {
    if args == [] then
      if g == Current then SuggestionsResult(FirstSuggestions(host, ""), Append)
      else SuggestionsResult(Load(Oldest, host, Commands, ""), Append)
    else
      var first := args[0];
      if first.end == lineLength then
        var chips := if g == Current then FirstSuggestions(host, first.value)
                     else ToSuggestions(Older, host.commands.names, first.value);
        SuggestionsResult(chips, Replace(first.start, first.end))
      else
        match Get(host.commands, first.value)
        case None => EMPTY
        case Some(parent) => Proceed(g, host, args[1..], parent, lineLength)
  }

  /** `proceedCommand`: down through the groups named by the arguments. */
  function Proceed(g: Generator, host: Host, args: seq<Argument>, command: Command, lineLength: nat): (r: SuggestionsResult)
    ensures r.mergeAction.Replace? ==>
      exists k :: 0 <= k < |args| && r.mergeAction == Replace(args[k].start, args[k].end) && args[k].end == lineLength
    decreases |args|
  {
    match command
    case Leaf(m, _) => HandleLeaf(g, host, m, args, lineLength)
    case Group(_, cl) =>
      if args == [] then SuggestionsResult(ToSuggestions(g, cl.names, ""), Append)
      else
        var option := args[0];
        if option.end == lineLength then
          SuggestionsResult(ToSuggestions(g, cl.names, option.value), Replace(option.start, option.end))
        else
          match Get(cl, option.value)
          case None => EMPTY
          case Some(next) =>
            var r := Proceed(g, host, args[1..], next, lineLength);
            assert r.mergeAction.Replace? ==> exists k :: 1 <= k < |args| && r.mergeAction == Replace(args[k].start, args[k].end) && args[k].end == lineLength by {
              if r.mergeAction.Replace? {
                var k :| 0 <= k < |args[1..]| && r.mergeAction == Replace(args[1..][k].start, args[1..][k].end) && args[1..][k].end == lineLength;
                assert args[1..][k] == args[k + 1];
              }
            }
            r
  }

  /** How many parameters `dropWhileIndexed { index, param -> index < limit
      && !param.variadic }` drops: it stops at the limit, at the first
      variadic parameter, or at the end. */
  function DropCount(params: seq<Parameter>, limit: nat): (k: nat)
    ensures k <= |params| && k <= limit
    ensures forall i :: 0 <= i < k ==> !params[i].variadic
    ensures k == |params| || k == limit || params[k].variadic
    decreases |params|
  {
    if params == [] || limit == 0 || params[0].variadic then 0
    else 1 + DropCount(params[1..], limit - 1)
  }

  /** `handleLeafCommand`. With nothing after the command the first
      parameter is offered; with too many arguments nothing is offered;
      otherwise the live argument (or, after a space, the next one) picks
      the parameter, and a variadic parameter keeps being offered. */
  function HandleLeaf(g: Generator, host: Host, m: Metadata, args: seq<Argument>, lineLength: nat): (r: SuggestionsResult)
    ensures args == [] ==> r.mergeAction == Append
    ensures ValidateCount(m, |args|) == TooManyArgs && args != [] ==> r == EMPTY
    ensures r.mergeAction.Replace? ==>
      args != [] && r.mergeAction == Replace(args[|args| - 1].start, args[|args| - 1].end) && args[|args| - 1].end == lineLength
  {
    if args == [] then
      if m.params != [] then SuggestionsResult(Offer(g, host, m.params[0].source, ""), Append) else EMPTY
    else if ValidateCount(m, |args|) == TooManyArgs then EMPTY
    else
      var last := args[|args| - 1];
      var live := last.end == lineLength;
      var hint := if live then last.value else "";
      var limit := if live then |args| - 1 else |args|;
      var rest := m.params[DropCount(m.params, limit)..];
      if rest != [] then
        SuggestionsResult(Offer(g, host, rest[0].source, hint), if live then Replace(last.start, last.end) else Append)
      else EMPTY
  }

  // ---------------------------------------------------------------------
  // The loops of the source
  // ---------------------------------------------------------------------

  /** `dropWhileIndexed` with its running index. */
  method DropWhileIndexed(params: seq<Parameter>, limit: nat) returns (rest: seq<Parameter>)
    ensures rest == params[DropCount(params, limit)..]
  {
    var index := 0;
    while index < |params| && index < limit && !params[index].variadic
      invariant 0 <= index <= |params| && index <= limit
      invariant forall i :: 0 <= i < index ==> !params[i].variadic
      invariant DropCount(params, limit) == index + DropCount(params[index..], limit - index)
    {
      assert params[index..][1..] == params[index + 1..];
      index := index + 1;
    }
    rest := params[index..];
  }

  /** `proceedCommand` with its `while (true)` loop over the groups. */
  method ProceedCommand(g: Generator, host: Host, args: seq<Argument>, command: Command, lineLength: nat)
    returns (r: SuggestionsResult)
    ensures r == Proceed(g, host, args, command, lineLength)
  {
    var current := command;
    var arguments := args;
    while true
      invariant Proceed(g, host, arguments, current, lineLength) == Proceed(g, host, args, command, lineLength)
      decreases |arguments|
    {
      if current.Leaf? {
        r := HandleLeafCommand(g, host, current.metadata, arguments, lineLength);
        return;
      }
      var cl := current.commands;
      if arguments == [] {
        r := SuggestionsResult(ToSuggestions(g, cl.names, ""), Append);
        return;
      }
      var option := arguments[0];
      var next := Get(cl, option.value);
      if option.end == lineLength {
        r := SuggestionsResult(ToSuggestions(g, cl.names, option.value), Replace(option.start, option.end));
        return;
      } else if next.None? {
        r := EMPTY;
        return;
      }
      arguments := arguments[1..];
      current := next.value;
    }
  }

  /** `handleLeafCommand`, computing the remaining parameters with the loop
      of `dropWhileIndexed`. */
  method HandleLeafCommand(g: Generator, host: Host, m: Metadata, args: seq<Argument>, lineLength: nat)
    returns (r: SuggestionsResult)
    ensures r == HandleLeaf(g, host, m, args, lineLength)
  {
    if args == [] {
      if m.params != [] {
        return SuggestionsResult(Offer(g, host, m.params[0].source, ""), Append);
      }
      return EMPTY;
    }
    if ValidateCount(m, |args|) == TooManyArgs {
      return EMPTY;
    }
    var last := args[|args| - 1];
    var live := last.end == lineLength;
    var hint := if live then last.value else "";
    var limit := if live then |args| - 1 else |args|;
    var rest := DropWhileIndexed(m.params, limit);
    if rest != [] {
      r := SuggestionsResult(Offer(g, host, rest[0].source, hint), if live then Replace(last.start, last.end) else Append);
    } else {
      r := EMPTY;
    }
  }

  // ---------------------------------------------------------------------
  // Properties
  // ---------------------------------------------------------------------

  /** The index of the first variadic parameter, or the number of
      parameters. */
  function FirstVariadic(params: seq<Parameter>): (k: nat)
    ensures k <= |params|
    ensures forall i :: 0 <= i < k ==> !params[i].variadic
    ensures k < |params| ==> params[k].variadic
  {
    if params == [] then 0
    else if params[0].variadic then 0
    else 1 + FirstVariadic(params[1..])
  }

  /** The parameter offered is the one at the position being typed, or the
      variadic one once the arguments reach it. */
  lemma {:induction false} DropCountIsMin(params: seq<Parameter>, limit: nat)
    ensures DropCount(params, limit) == if limit < FirstVariadic(params) then limit else FirstVariadic(params)
    decreases |params|
  {
    if params != [] && limit != 0 && !params[0].variadic {
      DropCountIsMin(params[1..], limit - 1);
    }
  }

  /** A chip merged by replacement always overwrites the last argument of a
      parsed line, which ends at the end of the line. */
  lemma ReplaceTargetsLastArgument(g: Generator, host: Host, line: string)
    ensures var args := Tokenize(line);
      var r := LoadSuggestions(g, host, args, |line|);
      r.mergeAction.Replace? ==>
        args != [] && r.mergeAction == Replace(args[|args| - 1].start, |line|)
        && args[|args| - 1].start < |line|
  {
    var args := Tokenize(line);
    if LoadSuggestions(g, host, args, |line|).mergeAction.Replace? {
      TokensWellFormed(line, 0);
      var k := ReplacedArgument(g, host, args, |line|);
      LiveIsLast(line, args);
    }
  }

  /** A replacement always covers one of the arguments, which ends at the
      end of the line. */
  lemma ReplacedArgument(g: Generator, host: Host, args: seq<Argument>, lineLength: nat) returns (k: nat)
    requires LoadSuggestions(g, host, args, lineLength).mergeAction.Replace?
    ensures k < |args| && args[k].end == lineLength
    ensures LoadSuggestions(g, host, args, lineLength).mergeAction == Replace(args[k].start, args[k].end)
  {
    var r := LoadSuggestions(g, host, args, lineLength);
    if args[0].end == lineLength {
      k := 0;
    } else {
      var j :| 0 <= j < |args[1..]| && r.mergeAction == Replace(args[1..][j].start, args[1..][j].end) && args[1..][j].end == lineLength;
      k := j + 1;
    }
  }

  /** Only the last argument of a parsed line can end at the line's end. */
  lemma LiveIsLast(line: string, args: seq<Argument>)
    requires Tokenizer.WellFormed(line, args)
    ensures forall k :: 0 <= k < |args| - 1 ==> args[k].end < |line|
  {
    forall k | 0 <= k < |args| - 1 ensures args[k].end < |line| {
      assert args[k].end < args[k + 1].start < args[k + 1].end;
    }
  }

  /** An empty line offers the commands (and, in the current generator, no
      apps, since the hint is blank) to be appended. */
  lemma EmptyLineOffersCommands(g: Generator, host: Host, n: string)
    ensures LoadSuggestions(g, host, [], 0).mergeAction == Append
    ensures LabelSuggestion(n) in LoadSuggestions(g, host, [], 0).suggestions <==> n in host.commands.names
  {
    CommandsOffered(RevisionOf(g), host, "", n);
    ContainsIgnoreCaseEmpty(n);
    if g == Current {
      assert FirstSuggestions(host, "") == Load(ShellUi, host, Commands, "");
    }
  }

  /** While the first token is still being typed, the older generator offers
      the command names containing it, and either generator's chip replaces
      that token. */
  lemma LiveFirstToken(g: Generator, host: Host, args: seq<Argument>, lineLength: nat, n: string)
    requires args != [] && args[0].end == lineLength
    ensures LoadSuggestions(g, host, args, lineLength).mergeAction == Replace(args[0].start, args[0].end)
    ensures g == Older ==>
      (LabelSuggestion(n) in LoadSuggestions(g, host, args, lineLength).suggestions
       <==> n in host.commands.names && Contains(n, args[0].value))
  {
  }

  /** A group named by the last complete argument offers all its
      sub-command names, to be appended. */
  lemma GroupOffersChildren(g: Generator, host: Host, name: string, cl: CommandList, lineLength: nat, n: string)
    ensures Proceed(g, host, [], Group(name, cl), lineLength).mergeAction == Append
    ensures LabelSuggestion(n) in Proceed(g, host, [], Group(name, cl), lineLength).suggestions <==> n in cl.names
  {
    ContainsEmpty(n);
    ContainsIgnoreCaseEmpty(n);
  }

  /** A leaf whose only parameter is variadic is offered that parameter
      after any number of arguments. */
  lemma VariadicKeepsOffering(g: Generator, host: Host, m: Metadata, args: seq<Argument>, lineLength: nat)
    requires |m.params| == 1 && m.params[0].variadic && m.maxArgs == Unbounded && args != []
    ensures HandleLeaf(g, host, m, args, lineLength).suggestions ==
      Offer(g, host, m.params[0].source, if args[|args| - 1].end == lineLength then args[|args| - 1].value else "")
  {
  }

  /** Past the last fixed parameter of a leaf without a variadic one,
      nothing is offered. */
  lemma NothingAfterLastParameter(g: Generator, host: Host, m: Metadata, args: seq<Argument>, lineLength: nat)
    requires FirstVariadic(m.params) == |m.params| && args != []
    requires |args| > |m.params| || (|args| == |m.params| && args[|args| - 1].end != lineLength)
    ensures HandleLeaf(g, host, m, args, lineLength) == EMPTY
  {
    var limit := if args[|args| - 1].end == lineLength then |args| - 1 else |args|;
    DropCountIsMin(m.params, limit);
  }

  /** An unknown first command followed by more text offers nothing. */
  lemma UnknownCommandOffersNothing(g: Generator, host: Host, args: seq<Argument>, lineLength: nat)
    requires args != [] && args[0].end != lineLength && args[0].value !in host.commands.table
    ensures LoadSuggestions(g, host, args, lineLength) == EMPTY
  {
  }

  /** The current generator matches names regardless of case, so it offers
      every name the older one offers. */
  lemma CurrentOffersMore(names: seq<string>, query: string, n: string)
    requires LabelSuggestion(n) in ToSuggestions(Older, names, query)
    ensures LabelSuggestion(n) in ToSuggestions(Current, names, query)
  {
    ContainsImpliesIgnoreCase(n, query);
  }
}
