# android-shell-ui command engine, modelled in Dafny

This project models the command engine of android-shell-ui, a launcher that
presents an Android device as a text shell. The user types a line into a
field, chips under the field suggest what may come next, and submitting the
line runs a command. Two revisions of the engine are covered. The current
one lives in `com.saidooubella.shellui`. The older one lives in
`com.example.demo`, which keeps an even older snapshot beside it
(`ScreenViewModel`, `SuggestionsGenerator`, `Suggestions`).

The model covers these parts:

- **Tokenizer** (`tokenizer.dfy`, module `Tokenizer`; module `Arguments`).
  `parseArguments` and the older `toArguments` have identical text, so one
  model covers both. The line is split on whitespace. A backslash escapes the
  next character, and double quotes toggle a mode in which whitespace is kept.
  Each argument keeps its unquoted value and its `[start, end)` span in the
  line. The method `ParseArguments` keeps the source's three nested loops and
  is proved equal to the recursive definition `Tokenize`.
- **Arity** (`metadata.dfy`, module `Arity`). `Metadata.validateCount` is
  modelled, and so is the staged builder. The builder's interface chain
  (`RequiredArg` → `RequiredNArgs` → `OptionalArg` → `OptionalNArgs` →
  `build`) is modelled as stages. `MetadataBuilder` is a class whose methods
  update its parameter list and its two counters in place.
- **Registry** (`registry.dfy`, module `Registry`). This is `CommandList`
  and its builder. The older builder keeps insertion order (`mutableMapOf`);
  the later one keeps names sorted (`TreeMap`).
- **Dispatcher** (`dispatch.dfy`, module `Dispatch`). This is `exec`: a
  group consumes a name and recurses, and a leaf checks its count and runs
  its action. Every failure posts a message.
- **Suggestion sources** (`sources.dfy`, module `Sources`). Each is
  `Suggestions.load` (`supply` in the oldest snapshot) for every kind of
  parameter. The file and directory completion `loadFiles` is included.
- **Suggestion engine** (`suggest.dfy`, module `Suggest`). This is
  `loadSuggestions` with `proceedCommand` and `handleLeafCommand`, and the
  older `SuggestionsGenerator`. The two loops of the source are methods
  proved against the recursive definitions.
- **Quoting** (`quoting.dfy`, module `Quoting`). This is the `Suggestion`
  constructor and `wrap`, which quotes a replacement that holds whitespace so
  that it reads back as one argument.
- **Picking a chip** (`merge.dfy`, module `Merge`). This is the click
  handler of the chip row in `MainActivity`: append or splice, where the
  cursor goes, and the runnable submit. It also covers when the row is shown
  and the order of its chips.
- **Paths** (`paths.dfy`, module `Paths`). These are `normalizePath` and
  `removeWorkingDir`, over a Unix model of `java.io.File`.
- **Screen state** (`session.dfy`, module `Session`). It covers:
  - `Action.execute`;
  - the older event reducer;
  - `submitLine`, `changeFieldText`, `generateSuggestions` and `toggleTheme`;
  - the `mark*` and `finish*` handlers.

  The view model is a class over the screen state.
- **RSS text cleaning** (`html.dfy`, module `Html`). This is
  `cleanFromHtmlTags`: it deletes `<.*?>`, collapses runs of tabs and
  spaces to one space, then trims.
- **Kotlin text helpers** (`text.dfy`, module `Text`). These are
  `isWhitespace`, `trim`, `isBlank`, `contains`, `lastIndexOf` and
  `replace`.

Devices, databases and the package manager are read through a `Host` value:
- the launcher apps in the order the repository returns them;
- the pinned packages and the installed labels;
- the existing paths and each directory's listing.

A leaf's action is an opaque `ActionId`. The dispatcher's result says which
action runs on which arguments.

## Model

| member | source | states |
|---|---|---|
| Text.Trim | app/src/main/java/com/saidooubella/shellui/MainViewModel.kt:65 | `trim()` yields a slice of the input whose ends are not whitespace |
| Text.TrimBlank | app/src/main/java/com/saidooubella/shellui/MainViewModel.kt:65-70 | the trimmed line is blank iff it is empty iff the field text was blank, so the blank guard after trimming rejects exactly the blank fields |
| Text.TrimDecompose | app/src/main/java/com/saidooubella/shellui/MainViewModel.kt:65 | the field text is blank text, then the trimmed text, then blank text; nothing else is removed |
| Text.ContainsImpliesIgnoreCase | app/src/main/java/com/saidooubella/shellui/suggestions/SuggestionsGenerator.kt:132-133 | every case-sensitive match is also a match that ignores case |
| Text.LastIndexOf | app/src/main/java/com/saidooubella/shellui/suggestions/Suggestions.kt:87 | the result is -1 or an index holding the character, and no later index holds it |
| Text.ReplaceNewlines | app/src/main/java/com/saidooubella/shellui/MainViewModel.kt:92-96 | each newline becomes a space and every other character is kept in place |
| Text.ReplaceNewlinesClean | app/src/main/java/com/saidooubella/shellui/MainViewModel.kt:92-96 | the field never holds a newline after the edit, and repeating the edit changes nothing |
| Tokenizer.SkipSpaces | app/src/main/java/com/saidooubella/shellui/models/Argument.kt:25-27 | the skipped span is all whitespace and stops at the end or at a non-whitespace character |
| Tokenizer.Scan | app/src/main/java/com/saidooubella/shellui/models/Argument.kt:35-57 | reading stops at the line's end or at whitespace; the value is no longer than the span; a started argument advances |
| Tokenizer.ParseArguments | app/src/main/java/com/saidooubella/shellui/models/Argument.kt:17-67 | the three-loop scanner returns exactly `Tokenize(line)`, and its arguments are well formed (non-empty, ordered, disjoint spans inside the line, each starting at a non-whitespace character) |
| Tokenizer.ReadArgument | app/src/main/java/com/saidooubella/shellui/models/Argument.kt:29-57 | the argument-reading loop computes the value and end index of the recursive reader |
| Tokenizer.TokensWellFormed | app/src/main/java/com/saidooubella/shellui/models/Argument.kt:23-64 | every tokenization is well formed and starts at or after the scan position |
| Tokenizer.NonWhitespaceCovered | app/src/main/java/com/saidooubella/shellui/models/Argument.kt:23-64 | every non-whitespace character of the line lies inside some argument's span |
| Tokenizer.BlankLineNoArguments | app/src/main/java/com/saidooubella/shellui/models/Argument.kt:23-27 | a blank line has no arguments |
| Tokenizer.ScanPlain | app/src/main/java/com/saidooubella/shellui/models/Argument.kt:35-57 | without quotes or backslashes an argument's value is its span of the line, free of whitespace |
| Tokenizer.PlainLineArguments | app/src/main/java/com/saidooubella/shellui/models/Argument.kt:17-67 | on a line without quotes or backslashes, each argument is a maximal whitespace-free run of the line, its value equal to its span |
| Tokenizer.QuotedArgument | app/src/main/java/com/saidooubella/shellui/models/Argument.kt:46-54 | a quoted run keeps its whitespace and loses the two quotes |
| Tokenizer.EscapedCharacter | app/src/main/java/com/saidooubella/shellui/models/Argument.kt:39-44 | a backslash contributes the next character literally, inside or outside quotes |
| Tokenizer.ScanWord | app/src/main/java/com/saidooubella/shellui/models/Argument.kt:35-57 | a bare word ending at whitespace or the line's end reads as itself |
| Tokenizer.ExampleQuoted | app/src/main/java/com/saidooubella/shellui/models/Argument.kt:17-67 | `echo "a b" c` gives `echo`, `a b` (span 5..10) and `c` |
| Tokenizer.ExampleEscapedSpace | app/src/main/java/com/saidooubella/shellui/models/Argument.kt:39-44 | an escaped space does not split an argument |
| Tokenizer.ExampleOffsets | app/src/main/java/com/saidooubella/shellui/models/Argument.kt:23-63 | spans are offsets into the untrimmed line, skipping repeated spaces |
| Tokenizer.ExampleEmptyQuotes | app/src/main/java/com/saidooubella/shellui/models/Argument.kt:59-63 | `""` is one argument with an empty value, since only an empty span is skipped |
| Tokenizer.ExampleUnterminatedQuote | app/src/main/java/com/saidooubella/shellui/models/Argument.kt:35-57 | an unterminated quote runs to the end of the line |
| Tokenizer.ExampleTrailingBackslash | app/src/main/java/com/saidooubella/shellui/models/Argument.kt:50-56 | a trailing backslash is dropped but still counts in the span |
| Arguments.Count | app/src/main/java/com/example/demo/commands/Arguments.kt:9 | the count is the number of arguments |
| Arguments.DropFirst | app/src/main/java/com/example/demo/commands/Arguments.kt:10 | all arguments but the first, in order; the empty list stays empty |
| Arguments.Values | app/src/main/java/com/example/demo/commands/Arguments.kt:12 | the argument values, one per argument, in order |
| Arity.ValidateCount | app/src/main/java/com/example/demo/commands/Metadata.kt:12-16 | too many iff the count exceeds the maximum; too few iff it does not but is under the minimum; exact iff within both bounds |
| Arity.AcceptsIff | app/src/main/java/com/example/demo/commands/MetadataBuilder.kt:5-23 | the interface chain accepts a sequence of builder calls iff it is in declaration order and the current stage offers its first call |
| Arity.AcceptedInOrder | app/src/main/java/com/example/demo/commands/MetadataBuilder.kt:5-23 | every accepted call sequence is in declaration order |
| Arity.InOrderAccepted | app/src/main/java/com/example/demo/commands/MetadataBuilder.kt:5-23 | every call sequence in declaration order is accepted |
| Arity.FreshOffersAll | app/src/main/java/com/example/demo/commands/Metadata.kt:18 | a fresh builder offers every kind of parameter |
| Arity.NoRequiredAfterOptional | app/src/main/java/com/example/demo/commands/MetadataBuilder.kt:5-23 | no required parameter follows an optional one, and a variadic parameter can only come last |
| Arity.Ops | app/src/main/java/com/example/demo/commands/Metadata.kt:24-48 | one builder call per declared parameter, in order |
| Arity.ExactIff | app/src/main/java/com/example/demo/commands/Metadata.kt:12-50 | for built metadata, a count is accepted iff it covers every required parameter and either a variadic parameter exists or it does not exceed the parameter count |
| Arity.StageKeepsOrder | app/src/main/java/com/example/demo/commands/MetadataBuilder.kt:5-23 | any call the current stage offers keeps the declaration order |
| Arity.BoundedWhileOffered | app/src/main/java/com/example/demo/commands/Metadata.kt:26-46 | while a single optional argument is still on offer, no variadic parameter has been declared, so the maximum is finite |
| Arity.DeclareKeepsConsistent | app/src/main/java/com/example/demo/commands/Metadata.kt:24-48 | declaring what the stage offers keeps the minimum equal to the number of required parameters, and the maximum equal to the parameter count, or unbounded once a variadic parameter exists |
| Arity.MetadataBuilder.constructor | app/src/main/java/com/example/demo/commands/Metadata.kt:18-22 | a new builder has no parameters and both counters at 0 |
| Arity.MetadataBuilder.AddRequiredArg | app/src/main/java/com/example/demo/commands/Metadata.kt:24-29 | appends a required single parameter and raises both counters by one; the builder stays at the required stage |
| Arity.MetadataBuilder.AddRequiredNArgs | app/src/main/java/com/example/demo/commands/Metadata.kt:31-36 | appends a required variadic parameter, makes the maximum unbounded and raises the minimum; only `build` remains |
| Arity.MetadataBuilder.AddOptionalArg | app/src/main/java/com/example/demo/commands/Metadata.kt:38-42 | appends an optional single parameter and raises only the maximum; only optional parameters remain on offer |
| Arity.MetadataBuilder.AddOptionalNArgs | app/src/main/java/com/example/demo/commands/Metadata.kt:44-48 | appends an optional variadic parameter and makes the maximum unbounded; only `build` remains |
| Arity.MetadataBuilder.Build | app/src/main/java/com/example/demo/commands/Metadata.kt:50 | the built metadata holds the builder's state, its counters agree with its parameters, and the minimum is at most the parameter count |
| Arity.ExampleRequiredOptional | app/src/main/java/com/example/demo/commands/Metadata.kt:12-50 | one required and one optional parameter accept 1 or 2 arguments, reject 0 as too few and 3 as too many |
| Arity.ExampleRequiredVariadic | app/src/main/java/com/example/demo/commands/Metadata.kt:12-50 | a required variadic parameter accepts every count from 1 up |
| Registry.Get | app/src/main/java/com/example/demo/commands/CommandList.kt:9 | `get` finds a command iff its name is registered, and returns the registered command |
| Registry.Commands | app/src/main/java/com/example/demo/commands/CommandList.kt:13 | iteration yields each registered command once, in name order, each under its own name |
| Registry.LexTransitive | app/src/main/java/com/example/demo/commands/CommandList.kt:17 | the `TreeMap` key order is transitive |
| Registry.LexTotal | app/src/main/java/com/example/demo/commands/CommandList.kt:17 | any two distinct names are ordered one way or the other |
| Registry.InsertSorted | app/src/main/java/com/example/demo/commands/CommandList.kt:17-20 | inserting a new key into the sorted keys keeps them sorted and adds exactly that key |
| Registry.EmptyList | app/src/main/java/com/example/demo/commands/CommandList.kt:15-17 | a fresh registry is well formed and empty |
| Registry.Put | app/src/main/java/com/example/demo/commands/CommandList.kt:19-22 | `putCommand` maps the name to the command and stays well formed; an existing name keeps its place; a new name goes last in insertion order or into sorted place under `TreeMap` |
| Registry.PutAll | app/src/main/java/com/example/demo/Command.kt:118-127 | a chain of `putCommand` calls keeps the registry well formed, and sorted for the sorted builder |
| Registry.CommandListBuilder.constructor | app/src/main/java/com/example/demo/commands/CommandList.kt:15-17 | a new builder is empty |
| Registry.CommandListBuilder.PutCommand | app/src/main/java/com/example/demo/commands/CommandList.kt:19-22 | the builder's names and table become `Put` of the old ones, and it stays valid |
| Registry.CommandListBuilder.Build | app/src/main/java/com/example/demo/commands/CommandList.kt:24 | `build` returns the builder's contents as a well-formed registry |
| Registry.BuildRegistry | app/src/main/java/com/example/demo/commands/CommandList.kt:15-24 | a builder fed the commands one by one yields `PutAll` of them |
| Registry.GetLatest | app/src/main/java/com/example/demo/commands/CommandList.kt:19-22 | `get(name)` returns the command most recently put under that name, and null for a name never put |
| Registry.NamesArePutNames | app/src/main/java/com/example/demo/commands/CommandList.kt:11 | `names()` lists exactly the names of the commands put |
| Registry.InsertionOrder | app/src/main/java/com/example/demo/Command.kt:120-125 | the older registry lists names in order of first insertion |
| Registry.BuildersAgree | app/src/main/java/com/example/demo/commands/CommandList.kt:17-24 | both builders register the same commands under the same names, and the `TreeMap` one lists them sorted |
| Registry.SortedUnique | app/src/main/java/com/example/demo/commands/CommandList.kt:17 | two sorted name lists with the same members are equal |
| Registry.SortedRegistry | app/src/main/java/com/example/demo/commands/CommandList.kt:11-24 | the `TreeMap` registry's names are the older registry's names, sorted |
| Dispatch.Exec | app/src/main/java/com/saidooubella/shellui/MainViewModel.kt:119-134 | an action always receives a proper suffix of the arguments; every message is "Too few arguments", "Too many arguments" or "command not found " plus one of the argument values |
| Dispatch.ExecInvokes | app/src/main/java/com/saidooubella/shellui/MainViewModel.kt:119-134 | an action runs on `rest` iff some prefix of the argument values walks through groups to a leaf with that action whose count check accepts `rest`, the remaining arguments |
| Dispatch.ReachesThroughGroup | app/src/main/java/com/saidooubella/shellui/MainViewModel.kt:123 | through a group, dispatch continues with the remaining arguments in the group's own registry |
| Dispatch.ExecEmpty | app/src/main/java/com/saidooubella/shellui/MainViewModel.kt:120-121 | an empty argument list reports too few arguments |
| Dispatch.ExecUnknown | app/src/main/java/com/saidooubella/shellui/MainViewModel.kt:131 | an unknown first name reports "command not found" with that name |
| Dispatch.ExecBareGroup | app/src/main/java/com/saidooubella/shellui/MainViewModel.kt:120-123 | a line that names only groups reports too few arguments |
| Dispatch.ExecTooMany | app/src/main/java/com/saidooubella/shellui/MainViewModel.kt:124-126 | a leaf given more arguments than its maximum reports too many arguments |
| Quoting.NewSuggestion | app/src/main/java/com/saidooubella/shellui/suggestions/Suggestion.kt:3-13 | a runnable chip keeps its replacement; any other chip keeps it when its trimmed text has no whitespace, and otherwise gets the trimmed text in double quotes |
| Quoting.Of | app/src/main/java/com/example/demo/Suggestion.kt:9-11 | `of` wraps the value and appends one space; the chip is not runnable |
| Quoting.LabelWordRoundTrip | app/src/main/java/com/saidooubella/shellui/suggestions/Suggestion.kt:5-8 | a one-word label's default replacement is the word plus a space, and it reads back as that single argument |
| Quoting.PaddedWord | app/src/main/java/com/saidooubella/shellui/suggestions/Suggestion.kt:11-13 | a plain word with blank text around it reads back as one argument, its span the word's position |
| Quoting.WrapRoundTripQuoted | app/src/main/java/com/saidooubella/shellui/suggestions/Suggestion.kt:11-13 | text without quotes or backslashes, quoted, reads back as one argument holding that text |
| Quoting.WrapRoundTripBare | app/src/main/java/com/saidooubella/shellui/suggestions/Suggestion.kt:11-13 | an unquoted value whose trimmed text is one word reads back as that word |
| Quoting.WrapRoundTrip | app/src/main/java/com/saidooubella/shellui/suggestions/Suggestion.kt:11-13 | `wrap(v)`, followed by any blank text, reads back as exactly one argument equal to `v.trim()` (v non-blank, no quotes or backslashes) |
| Quoting.SuggestionRoundTrip | app/src/main/java/com/saidooubella/shellui/suggestions/Suggestion.kt:3-9 | a non-runnable chip's replacement reads back as one argument, the trimmed replacement |
| Quoting.OfRoundTrip | app/src/main/java/com/example/demo/Suggestion.kt:9-11 | an older chip's replacement reads back as one argument, the trimmed value |
| Quoting.ExampleMyApp | app/src/main/java/com/saidooubella/shellui/suggestions/Suggestion.kt:5-13 | the label `My App` gets the replacement `"My App"`, quoted and without the trailing space |
| Quoting.ExampleOneWord | app/src/main/java/com/saidooubella/shellui/suggestions/Suggestion.kt:5-13 | the label `ls` gets the replacement `ls ` |
| Sources.Filter | app/src/main/java/com/saidooubella/shellui/suggestions/Suggestions.kt:16 | the kept elements are exactly those satisfying the predicate |
| Sources.FilterConcat | app/src/main/java/com/saidooubella/shellui/suggestions/Suggestions.kt:16 | filtering a concatenation filters each part, one after the other: order and repeats are kept |
| Sources.FilterOne | app/src/main/java/com/saidooubella/shellui/suggestions/Suggestions.kt:16 | a single element is kept exactly when it satisfies the predicate |
| Sources.MatchingApps | app/src/main/java/com/saidooubella/shellui/suggestions/Suggestions.kt:55-56 | the launcher apps whose name contains the hint, ignoring case |
| Sources.Labels | app/src/main/java/com/saidooubella/shellui/suggestions/Suggestions.kt:57 | one label chip per app, in order |
| Sources.PinnedLabels | app/src/main/java/com/saidooubella/shellui/suggestions/Suggestions.kt:32-41 | a chip for each pinned package whose label loads; packages that fail are skipped |
| Sources.ChipsOf | app/src/main/java/com/saidooubella/shellui/suggestions/Suggestions.kt:28 | a name has a label chip iff it is in the list |
| Sources.CustomFilters | app/src/main/java/com/saidooubella/shellui/suggestions/Suggestions.kt:14-18 | a custom source offers exactly its entries whose replacement contains the hint |
| Sources.CustomKeepsOrder | app/src/main/java/com/saidooubella/shellui/suggestions/Suggestions.kt:14-18 | a custom list offers what its parts offer, in their order, and one entry is offered exactly when its replacement contains the hint |
| Sources.CommandsOffered | app/src/main/java/com/saidooubella/shellui/suggestions/Suggestions.kt:24-30 | a command name is offered iff it is registered and, except in the oldest snapshot, contains the hint ignoring case; the oldest snapshot offers every name, in the registry's order |
| Sources.NotPinnedExcludesPinned | app/src/main/java/com/saidooubella/shellui/suggestions/Suggestions.kt:43-51 | the not-pinned source offers exactly the matching apps whose package is not pinned |
| Sources.PackagesInserted | app/src/main/java/com/saidooubella/shellui/suggestions/Suggestions.kt:61-67 | one chip per matching app; the current chip reads `name(package)`, the demo one just the package, and either inserts the package name |
| Sources.SplitHint | app/src/main/java/com/saidooubella/shellui/suggestions/Suggestions.kt:87-92 | the hint is its directory part (empty, or ending at the last separator) followed by a query without separators |
| Sources.SpecialPaths | app/src/main/java/com/saidooubella/shellui/suggestions/Suggestions.kt:93-98 | `/` (for hint + `/`) is offered first unless the hint already ends with a separator; then `.` (hint + `./`) and `..` (hint + `../`), always and in that order |
| Sources.SpecialPathsPlain | app/src/main/java/com/saidooubella/shellui/suggestions/Suggestions.kt:93-98 | for a hint without whitespace the three chips insert exactly hint + `/`, hint + `./` and hint + `../` |
| Sources.ListMatching | app/src/main/java/com/saidooubella/shellui/suggestions/Suggestions.kt:103 | the listed entries are the directory's entries (only directories when asked) whose name contains the query, ignoring case |
| Sources.EntryChips | app/src/main/java/com/saidooubella/shellui/suggestions/Suggestions.kt:103-106 | one chip per listed entry, in order |
| Sources.LoadFiles | app/src/main/java/com/saidooubella/shellui/suggestions/Suggestions.kt:82-109 | nothing when the hint's directory does not exist; otherwise the special paths, then a chip per matching entry |
| Sources.MissingDirectoryOffersNothing | app/src/main/java/com/saidooubella/shellui/suggestions/Suggestions.kt:100-101 | the file and directory sources offer nothing for a missing directory |
| Sources.DirectoriesOnly | app/src/main/java/com/saidooubella/shellui/suggestions/Suggestions.kt:75-79 | the directory source lists only directories matching the query, and each chip ends with a separator (inside the closing quote when quoted) |
| Sources.FileChipAt | app/src/main/java/com/saidooubella/shellui/suggestions/Suggestions.kt:103-106 | the i-th listed entry is the chip right after the special paths |
| Sources.DirectoryChip | app/src/main/java/com/saidooubella/shellui/suggestions/Suggestions.kt:104-105 | a directory's chip, and in the oldest revision any entry's chip, is captioned with its name and ends with a separator |
| Sources.OldestEntriesEndWithSeparator | app/src/main/java/com/example/demo/Suggestions.kt:53-57 | in the oldest revision every listed entry, directory or not, is offered with a separator after it |
| Sources.EntrySuggestionAsWritten | app/src/main/java/com/saidooubella/shellui/suggestions/Suggestions.kt:103-106 | an entry's chip with the written `removeWorkingDir`: it throws exactly for the working directory itself |
| Sources.EntryChipsAsWritten | app/src/main/java/com/saidooubella/shellui/suggestions/Suggestions.kt:103-106 | mapping the entries throws iff some entry is the working directory; otherwise one chip per entry, in order |
| Sources.LoadFilesAsWritten | app/src/main/java/com/saidooubella/shellui/suggestions/Suggestions.kt:82-109 | as written: nothing for a missing directory; the job throws iff the listing holds the working directory; otherwise the special paths, then the entries' chips |
| Sources.LoadAsWritten | app/src/main/java/com/saidooubella/shellui/suggestions/Suggestions.kt:69-109 | as written, only the file and directory sources can throw; every other source gives its intended chips |
| Sources.LoadAgrees | app/src/main/java/com/saidooubella/shellui/suggestions/Suggestions.kt:102-107 | when the working directory is not `/` and every listed path lies strictly inside it or outside its text, the source's chips are the intended ones |
| Sources.LoadFilesAgree | app/src/main/java/com/saidooubella/shellui/suggestions/Suggestions.kt:102-107 | under the same condition the written file listing equals the intended one |
| Sources.EntryChipsAgree | app/src/main/java/com/saidooubella/shellui/suggestions/Suggestions.kt:103-106 | under the same condition each entry's written chip is its intended chip |
| Sources.EntryAtRoot | app/src/main/java/com/saidooubella/shellui/suggestions/Suggestions.kt:103-106 | with `/` as working directory the source inserts each entry's name without its first letter; the intended chip inserts the whole name |
| Sources.WorkingDirListedThrows | app/src/main/java/com/saidooubella/shellui/suggestions/Suggestions.kt:102-107 | when the listed directory holds the working directory itself (hint `/` under `/sdcard`), the source's job throws, where the intended listing offers its path |
| Sources.WorkingDirEntry | app/src/main/java/com/saidooubella/shellui/shell/ShellContext.kt:22-25 | the working directory's own entry throws as written and keeps its whole path as intended |
| Sources.NoDoubleSeparatorOffered | app/src/main/java/com/saidooubella/shellui/suggestions/Suggestions.kt:94-95 | after a hint ending with a separator, `/` is not offered |
| Suggest.ToSuggestions | app/src/main/java/com/saidooubella/shellui/suggestions/SuggestionsGenerator.kt:132-133 | a name gets a chip iff it is in the list and matches the query, ignoring case in the current generator only |
| Suggest.ToSuggestionsKeepsOrder | app/src/main/java/com/saidooubella/shellui/suggestions/SuggestionsGenerator.kt:132-133 | a list offers what its parts offer, in their order, and one name is offered exactly when it matches the query |
| Suggest.CommandsAreToSuggestions | app/src/main/java/com/saidooubella/shellui/suggestions/Suggestions.kt:24-30 | the command source of the later revisions is `toSuggestions` over the registry's names ignoring case, so its chips follow the registry's order |
| Suggest.OpenableApp | app/src/main/java/com/saidooubella/shellui/utils/Utils.kt:52-54 | an app chip is runnable, shows the app's name and inserts `apps open-pkg` with the package |
| Suggest.FirstSuggestions | app/src/main/java/com/saidooubella/shellui/suggestions/SuggestionsGenerator.kt:36-44 | the matching apps as runnable chips (none for a blank hint), followed by the command chips |
| Suggest.Proceed | app/src/main/java/com/saidooubella/shellui/suggestions/SuggestionsGenerator.kt:46-88 | a replacement always targets an argument that ends where the line ends |
| Suggest.DropCount | app/src/main/java/com/saidooubella/shellui/suggestions/SuggestionsGenerator.kt:117-118 | the skipped parameters are all single, and skipping stops at the limit, at the first variadic parameter or at the end |
| Suggest.HandleLeaf | app/src/main/java/com/saidooubella/shellui/suggestions/SuggestionsGenerator.kt:90-130 | with no arguments the chips are appended; too many arguments offer nothing; a replacement targets the last argument, which ends where the line ends |
| Suggest.DropWhileIndexed | app/src/main/java/com/saidooubella/shellui/suggestions/SuggestionsGenerator.kt:135-138 | the loop drops exactly the leading parameters `DropCount` counts |
| Suggest.ProceedCommand | app/src/main/java/com/saidooubella/shellui/suggestions/SuggestionsGenerator.kt:46-88 | the group-walking loop computes `Proceed` |
| Suggest.HandleLeafCommand | app/src/main/java/com/saidooubella/shellui/suggestions/SuggestionsGenerator.kt:90-130 | the leaf handler computes `HandleLeaf` |
| Suggest.DropCountIsMin | app/src/main/java/com/saidooubella/shellui/suggestions/SuggestionsGenerator.kt:117-118 | the parameters skipped number the smaller of the limit and the position of the first variadic parameter |
| Suggest.ReplaceTargetsLastArgument | app/src/main/java/com/saidooubella/shellui/suggestions/SuggestionsGenerator.kt:13-34 | for a tokenized line, a replacement always spans the last argument up to the line's end |
| Suggest.ReplacedArgument | app/src/main/java/com/saidooubella/shellui/suggestions/SuggestionsGenerator.kt:13-34 | a replacement names an argument that ends where the line ends |
| Suggest.LiveIsLast | app/src/main/java/com/saidooubella/shellui/models/Argument.kt:23-64 | only the last argument can reach the end of the line |
| Suggest.EmptyLineOffersCommands | app/src/main/java/com/saidooubella/shellui/suggestions/SuggestionsGenerator.kt:18-19 | on an empty line every command is offered, to be appended |
| Suggest.LiveFirstToken | app/src/main/java/com/example/demo/SuggestionsGenerator.kt:35-40 | while the first token is being typed its chip replaces that token; the older generator offers exactly the command names that contain it |
| Suggest.GroupOffersChildren | app/src/main/java/com/saidooubella/shellui/suggestions/SuggestionsGenerator.kt:64-69 | a group with nothing typed after it offers every one of its sub-command names, to be appended |
| Suggest.VariadicKeepsOffering | app/src/main/java/com/saidooubella/shellui/suggestions/SuggestionsGenerator.kt:111-126 | a leaf with one variadic parameter keeps offering that parameter's source for every further argument |
| Suggest.NothingAfterLastParameter | app/src/main/java/com/saidooubella/shellui/suggestions/SuggestionsGenerator.kt:107-128 | once every single parameter is filled, nothing more is offered |
| Suggest.UnknownCommandOffersNothing | app/src/main/java/com/saidooubella/shellui/suggestions/SuggestionsGenerator.kt:28-29 | after a finished unknown command name nothing is offered |
| Suggest.CurrentOffersMore | app/src/main/java/com/example/demo/SuggestionsGenerator.kt:133-134 | every name the older, case-sensitive generator offers, the current one offers too |
| Merge.ReplaceRange | app/src/main/java/com/saidooubella/shellui/MainActivity.kt:309-313 | `StringBuilder.replace` throws iff the start is past the text or past the end; otherwise the text before the start is kept, then the new string, then exactly the rest of the text from the (clamped) end |
| Merge.MergeText | app/src/main/java/com/saidooubella/shellui/MainActivity.kt:298-314 | appending never fails and ends with the replacement; into an empty field it gives the replacement alone, otherwise it keeps the field text first with one space inserted unless the text already ends with whitespace |
| Merge.Pick | app/src/main/java/com/saidooubella/shellui/MainActivity.kt:296-319 | picking sets the merged text, puts the cursor at its end, and submits iff the chip is runnable (the older screen never submits) |
| Merge.RowChips | app/src/main/java/com/saidooubella/shellui/MainActivity.kt:276-284 | with an empty field the pinned chips come before the suggestions |
| Merge.RowNeverEmpty | app/src/main/java/com/saidooubella/shellui/MainActivity.kt:239 | a shown row always holds a chip, and the current screen shows the row whenever the older one would |
| Merge.PickAfterSuggest | app/src/main/java/com/saidooubella/shellui/MainActivity.kt:296-318 | picking any chip offered for the current line never throws, and a replacement keeps the line up to the replaced argument |
| Merge.PickOverTail | app/src/main/java/com/saidooubella/shellui/MainActivity.kt:309-313 | splicing over a range ending at the text's end keeps the text before it |
| Merge.AppendSeparates | app/src/main/java/com/saidooubella/shellui/MainActivity.kt:299-306 | appending to text ending in a word inserts exactly one space |
| Merge.PickIntoEmptyField | app/src/main/java/com/saidooubella/shellui/MainActivity.kt:299-307 | picking a one-word chip into an empty field leaves one argument, that word |
| Paths.Collapse | app/src/main/java/com/saidooubella/shellui/shell/ShellContext.kt:27-32 | the result has no doubled separator and keeps the first and last characters |
| Paths.Normalize | app/src/main/java/com/saidooubella/shellui/shell/ShellContext.kt:27-32 | `File` normalization gives a normal path (no doubled or trailing separator) starting like the input |
| Paths.CollapseNormal | app/src/main/java/com/saidooubella/shellui/shell/ShellContext.kt:27-32 | a path without doubled separators is left as it is |
| Paths.NormalizeIdempotent | app/src/main/java/com/saidooubella/shellui/shell/ShellContext.kt:27-32 | normalizing twice is normalizing once |
| Paths.NormalizePath | app/src/main/java/com/saidooubella/shellui/shell/ShellContext.kt:27-32 | a path starting with a separator becomes a `File` of the transformed path; any other path becomes a `File` of the transformed path below the working directory |
| Paths.RemoveWorkingDirAsWritten | app/src/main/java/com/saidooubella/shellui/shell/ShellContext.kt:22-25 | as written: throws iff the path equals the root (iff it starts with the root and is as long); a textual prefix drops the root and one more character; anything else is kept |
| Paths.RemoveWorkingDir | app/src/main/java/com/saidooubella/shellui/shell/ShellContext.kt:22-25 | corrected: a path inside the working directory loses the directory and its separator; any other path is kept whole |
| Paths.AsWrittenAgreesInside | app/src/main/java/com/saidooubella/shellui/shell/ShellContext.kt:22-25 | when the working directory does not end with a separator and the path lies strictly inside it or does not start with its text, the code as written and the corrected definition agree |
| Paths.AsWrittenAtRoot | app/src/main/java/com/saidooubella/shellui/shell/ShellContext.kt:22-25 | with `/` as working directory the code as written cuts the first letter after the separator; the corrected definition keeps the whole name |
| Paths.AsWrittenAtRootExample | app/src/main/java/com/saidooubella/shellui/shell/ShellContext.kt:22-25 | as written, `/system` under `/` becomes `ystem` |
| Paths.AsWrittenSibling | app/src/main/java/com/saidooubella/shellui/shell/ShellContext.kt:22-25 | as written, the sibling `/sdcardX/y` of `/sdcard` becomes `/y`, which resolves elsewhere; the corrected definition keeps it |
| Paths.AsWrittenRoot | app/src/main/java/com/saidooubella/shellui/shell/ShellContext.kt:22-25 | as written, the working directory itself throws; the corrected definition keeps it |
| Paths.RemoveThenResolve | app/src/main/java/com/saidooubella/shellui/shell/ShellContext.kt:22-32 | a path below the working directory, made relative and resolved again, is the same path |
| Session.InitialState | app/src/main/java/com/example/demo/ScreenState.kt:11-25 | the screen starts idle, light, with an empty log and field, in regular mode, with nothing pending and no suggestions |
| Session.Execute | app/src/main/java/com/example/demo/shell/Action.kt:17-71 | a message goes on top of the log; clearing empties it |
| Session.ExecuteFrame | app/src/main/java/com/example/demo/shell/Action.kt:17-71 | each action sets its own field (exit flag, pending intent, pending request, permissions, mode) and leaves every other field unchanged |
| Session.IndependentActionsCommute | app/src/main/java/com/example/demo/shell/Action.kt:17-71 | two actions writing different fields commute |
| Session.ClearThenMessages | app/src/main/java/com/example/demo/shell/Action.kt:21-48 | after clearing, a run of messages leaves exactly those messages, newest first |
| Session.MessagesOf | app/src/main/java/com/example/demo/shell/Action.kt:41-48 | one message action per text, in order |
| Session.LogsOf | app/src/main/java/com/example/demo/shell/Action.kt:41-48 | one log line per text, in order |
| Session.EventsAgreeWithActions | app/src/main/java/com/example/demo/ScreenViewModel.kt:27-37 | the older event reducer and the later actions agree on every event |
| Session.RunLine | app/src/main/java/com/saidooubella/shellui/MainViewModel.kt:77-87 | the line is echoed as `>> line`, the dispatcher's message (if any) goes on top, and the screen ends idle with nothing else changed |
| Session.SubmitClearsField | app/src/main/java/com/saidooubella/shellui/MainViewModel.kt:65-70 | submitting always clears the field and leaves the screen idle; a blank line does nothing else |
| Session.SubmitAnswersPrompt | app/src/main/java/com/saidooubella/shellui/MainViewModel.kt:72-76 | in prompt mode the trimmed line answers the pending request and the shell returns to regular mode without logging |
| Session.SubmitRunsLine | app/src/main/java/com/saidooubella/shellui/MainViewModel.kt:77-87 | in regular mode the trimmed line is tokenized and dispatched; the log gains the echo and then the dispatcher's message |
| Session.ShellViewModel.constructor | app/src/main/java/com/saidooubella/shellui/MainViewModel.kt:31 | the view model starts from the initial screen |
| Session.ShellViewModel.SubmitLine | app/src/main/java/com/saidooubella/shellui/MainViewModel.kt:63-90 | the new screen and the submission's result are those `Submitted` defines from the old screen |
| Session.ShellViewModel.ChangeFieldText | app/src/main/java/com/saidooubella/shellui/MainViewModel.kt:92-96 | the field becomes the text with newlines replaced by spaces; nothing else changes |
| Session.ShellViewModel.GenerateSuggestions | app/src/main/java/com/saidooubella/shellui/MainViewModel.kt:98-113 | outside regular mode the suggestions are cleared; otherwise they are the engine's result for the field text and its length |
| Session.ShellViewModel.ToggleTheme | app/src/main/java/com/example/demo/MainViewModel.kt:97-99 | only the dark flag flips |
| Session.ShellViewModel.FinishExiting | app/src/main/java/com/saidooubella/shellui/MainViewModel.kt:142-144 | only the exit flag is reset |
| Session.ShellViewModel.MarkIntentForResultTriggered | app/src/main/java/com/saidooubella/shellui/MainViewModel.kt:146-149 | a pending intent-for-result is marked triggered; without one nothing changes |
| Session.ShellViewModel.MarkPermissionsTriggered | app/src/main/java/com/saidooubella/shellui/MainViewModel.kt:151-154 | a pending permission request is marked triggered; without one nothing changes |
| Session.ShellViewModel.FinishIntentForResult | app/src/main/java/com/saidooubella/shellui/MainViewModel.kt:156-158 | only the pending intent-for-result is dropped |
| Session.ShellViewModel.FinishPermissions | app/src/main/java/com/saidooubella/shellui/MainViewModel.kt:160-162 | only the pending permission request is dropped |
| Session.ShellViewModel.FinishIntent | app/src/main/java/com/saidooubella/shellui/MainViewModel.kt:164-166 | only the pending intent is dropped |
| Session.ShellViewModel.SendAction | app/src/main/java/com/example/demo/shell/Action.kt:17-71 | the screen becomes the action's `execute` of the old screen |
| Html.Close | app/src/main/java/com/saidooubella/shellui/commands/impls/RssCommand.kt:12 | the lazy `.*?>` match ends at the first `>`, with no line terminator before it; without a match every `>` comes after a line terminator |
| Html.RemoveTags | app/src/main/java/com/saidooubella/shellui/commands/impls/RssCommand.kt:55 | tag removal never lengthens the text and leaves text without `<` alone |
| Html.UnclosedStaysUnclosed | app/src/main/java/com/saidooubella/shellui/commands/impls/RssCommand.kt:12 | text with no closing `>` on its line still has none after tag removal |
| Html.RemoveTagsComplete | app/src/main/java/com/saidooubella/shellui/commands/impls/RssCommand.kt:55 | after tag removal no complete tag remains |
| Html.PlainPrefixKept | app/src/main/java/com/saidooubella/shellui/commands/impls/RssCommand.kt:55 | text before the first `<` is kept unchanged, in place, in front of the rest's result |
| Html.TagRemoved | app/src/main/java/com/saidooubella/shellui/commands/impls/RssCommand.kt:55 | a `<`, text on the same line without `>`, and the `>` after it vanish together; the rest is processed on its own |
| Html.CloseAt | app/src/main/java/com/saidooubella/shellui/commands/impls/RssCommand.kt:12 | the lazy match ends at the first `>` when no `>` or line terminator comes before it |
| Html.BlankRun | app/src/main/java/com/saidooubella/shellui/commands/impls/RssCommand.kt:11 | the longest leading run of tabs and spaces |
| Html.CollapseBlanks | app/src/main/java/com/saidooubella/shellui/commands/impls/RssCommand.kt:56 | no tab and no two adjacent spaces remain; a run at the front becomes one space |
| Html.CollapseSingleSpaces | app/src/main/java/com/saidooubella/shellui/commands/impls/RssCommand.kt:56 | text already single-spaced and tab-free is left alone |
| Html.WordPrefixKept | app/src/main/java/com/saidooubella/shellui/commands/impls/RssCommand.kt:56 | text without tabs or spaces is kept unchanged, in place, in front of the rest's result |
| Html.RunLength | app/src/main/java/com/saidooubella/shellui/commands/impls/RssCommand.kt:11 | the run of tabs and spaces ends at the first other character |
| Html.BlankRunCollapses | app/src/main/java/com/saidooubella/shellui/commands/impls/RssCommand.kt:56 | a whole run of tabs and spaces becomes exactly one space |
| Html.CollapseRun | app/src/main/java/com/saidooubella/shellui/commands/impls/RssCommand.kt:56 | a word, a run of blanks and what follows become the word, one space, and the rest collapsed |
| Html.CollapseKeepsNoTags | app/src/main/java/com/saidooubella/shellui/commands/impls/RssCommand.kt:55-56 | collapsing blanks does not create a tag |
| Html.CleanFromHtmlTags | app/src/main/java/com/saidooubella/shellui/commands/impls/RssCommand.kt:54-57 | the cleaned text is no longer than the source and neither starts nor ends with whitespace |
| Html.CleanIsClean | app/src/main/java/com/saidooubella/shellui/commands/impls/RssCommand.kt:54-57 | the cleaned text has no tag, no tab and no two adjacent spaces |
| Html.CleanKeepsPlainText | app/src/main/java/com/saidooubella/shellui/commands/impls/RssCommand.kt:54-57 | text that is already clean and trimmed is returned unchanged |
| Html.CleanParagraph | app/src/main/java/com/saidooubella/shellui/commands/impls/RssCommand.kt:54-57 | `<p>a</p>` cleans to `a` |
| Html.ParagraphTags | app/src/main/java/com/saidooubella/shellui/commands/impls/RssCommand.kt:55 | both tags of `<p>a</p>` are removed |
| Html.UnclosedKept | app/src/main/java/com/saidooubella/shellui/commands/impls/RssCommand.kt:12 | a `<` with no later `>` is kept, as in `1 < 2` |
| Html.LoneBracket | app/src/main/java/com/saidooubella/shellui/commands/impls/RssCommand.kt:12 | a leading unmatched `<` is kept |
| Html.Visible | app/src/main/java/com/saidooubella/shellui/commands/impls/RssCommand.kt:54-57 | the non-whitespace characters of a text, in order; never longer than the text |
| Html.VisibleConcat | app/src/main/java/com/saidooubella/shellui/commands/impls/RssCommand.kt:54-57 | the visible characters of a concatenation are those of each part, in order |
| Html.VisibleBlank | app/src/main/java/com/saidooubella/shellui/commands/impls/RssCommand.kt:56 | a run of tabs and spaces has no visible characters |
| Html.CollapseKeepsVisible | app/src/main/java/com/saidooubella/shellui/commands/impls/RssCommand.kt:56 | collapsing blanks neither drops nor reorders a visible character |
| Html.TrimKeepsVisible | app/src/main/java/com/saidooubella/shellui/commands/impls/RssCommand.kt:56 | trimming neither drops nor reorders a visible character |
| Html.CleanKeepsVisibleText | app/src/main/java/com/saidooubella/shellui/commands/impls/RssCommand.kt:54-57 | apart from whitespace, the cleaned text is exactly the text left by tag removal, in its order |
| Html.TagBetweenWords | app/src/main/java/com/saidooubella/shellui/commands/impls/RssCommand.kt:55-56 | tags go before blanks collapse: `a <b> c` cleans to `a c` |

## Left out

- Coroutines, jobs and cancellation. `SubmitLine` runs the command job to completion at once. `GenerateSuggestions` stores the engine's result at once. The "busy" interval and cancellation of a running job are not modelled.
- Session.ShellViewModel.ToggleTheme: the current revision hands the toggle to preferences storage (`MainViewModel.kt:115-117`); the model follows the older revisions, which flip the flag in the screen state.
- Session.ShellViewModel.SubmitLine: a leaf's action runs as an opaque `ActionId`. What the action itself logs, prompts or starts is not modelled; only the dispatcher's own messages are.
- The answer to a prompt is returned as `Answered(request, text)`. The deferred value the action awaits is not modelled.
- Intents, permissions and request codes are opaque numbers. Activity results and Android permission dialogs are not modelled.
- Case-insensitive matching folds ASCII letters only. Kotlin's full Unicode case folding is not modelled.
- Strings are sequences of characters, not UTF-16 code units. Surrogate pairs count as one character.
- `java.io.File` is modelled for Unix paths only: separators collapsed, a trailing separator dropped, and a child resolved against its parent. Symbolic links and `.`/`..` resolution are not modelled. Whether a path exists and what a directory lists are read from the `Host`.
- The repository's ordering of launcher apps and files (sorted by name) is taken as given in `Host`, not computed.
- The launcher label lookup that may throw for a pinned package is modelled as a missing entry in `Host.labels`.
- The oldest snapshot (`example/demo/Suggestions.kt`, `example/demo/Suggestion.kt`) calls `Suggestion` constructors that do not match its own class. Those calls are modelled by the current constructor, and `Of`/`AsSuggestion` model the old helper functions.
- The rendering of `MainActivity` (layout, animations, theme, progress bar) is not modelled. Only the chip row's visibility, its chip order and the click handler are.
- The `RssCommand` feed fetching and parsing are not modelled; only `cleanFromHtmlTags` is.
- Command implementations (`apps`, `cd`, `ls`, `rss`, and so on) are not modelled; a leaf is its metadata and an opaque action.
- Sources.Load: the file and directory sources, and the engine, chip row and session built on them, use the corrected `Paths.RemoveWorkingDir` (see Findings). The chips as the source computes them are `Sources.LoadAsWritten`, which fails where the suggestions job throws. `Sources.LoadAgrees` shows the two agree when the working directory is not `/` and every listed path lies strictly inside it or outside its text. What happens after an uncaught exception in the job is not modelled.
- Sources.Load: in the oldest revision, `Suggestions.kt:29-30` and `:54` call `loadLauncherApps { it.contains(hint, true) }` and `loadFiles(root, query)`. These do not fit that revision's own `Repository.kt:63-78`, whose app filter is a case-sensitive `query in label` and whose `loadFiles(file)` returns bare names without path or directory flag. For the oldest `Apps` and `Directories` sources, the model uses the later repository: ignore-case app matching, entries with path and directory flag, and no directories-only filter.
- Html.Close: models the `<.*?>` regex by its match rule. Line terminators stop `.`, as in `java.util.regex` without DOTALL. The regex engine itself is not modelled.
- Arity.ValidateCount: `Int.MAX_VALUE` is modelled as an unbounded maximum. A count cannot reach it in practice.

## Findings

| source | as written | input that shows it | evidently intended | confidence | as-written member | corrected member |
|---|---|---|---|---|---|---|
| app/src/main/java/com/saidooubella/shellui/shell/ShellContext.kt:22-25 (same code in both `example/demo` ShellContext files) | `removeWorkingDir` tests a plain textual prefix `path.startsWith(workingDir)` and then drops `workingDir.length + 1` characters | working directory `/sdcard` and path `/sdcardX/y` give `/y`, which resolves to a different file; path `/sdcard` itself makes `substring` throw, so listing `/` under `/sdcard` ends the suggestions job; with working directory `/`, entry `/system` is inserted as `ystem/` | strip only `workingDir + "/"` and keep every other path whole | not executed | Paths.RemoveWorkingDirAsWritten, Paths.AsWrittenSibling, Paths.AsWrittenRoot, Paths.AsWrittenAtRoot, Sources.LoadFilesAsWritten, Sources.WorkingDirListedThrows, Sources.EntryAtRoot | Paths.RemoveWorkingDir, Paths.RemoveThenResolve, Sources.LoadFiles, Sources.LoadAgrees |
