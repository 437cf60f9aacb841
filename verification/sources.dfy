/**
  * The suggestion sources: what each kind of parameter offers for the text
  * typed so far (the hint). The package manager, the pinned-apps table and
  * the file system are read through a `Host` value.
  */
module Sources {
  import opened Text
  import opened Quoting
  import opened Registry
  import opened Paths

  /** The three revisions of the shell whose sources differ. */
  datatype Revision = ShellUi | Demo | Oldest

  datatype LauncherApp = LauncherApp(name: string, packageName: string)

  datatype FileEntry = FileEntry(name: string, path: string, isDirectory: bool)

  /** What the sources read from the device. `apps` is the launcher list in
      the order `loadLauncherApps` returns it (sorted by name); `labels` holds
      the label of every installed package; `existing` holds the paths that
      exist, and `listing` the entries of each directory in the order the
      repository returns them (sorted by name). */
  datatype Host = Host(
    workingDir: string,
    commands: CommandList,
    apps: seq<LauncherApp>,
    pinned: seq<string>,
    labels: map<string, string>,
    existing: set<string>,
    listing: map<string, seq<FileEntry>>)

  /** The elements satisfying `p`, in their order. */
  function Filter<T(!new)>(s: seq<T>, p: T -> bool): (r: seq<T>)
    ensures |r| <= |s|
    ensures forall x :: x in r <==> x in s && p(x)
    decreases |s|
  {
    if s == [] then []
    else
      var rest := Filter(s[..|s| - 1], p);
      assert forall x :: x in s <==> x in s[..|s| - 1] || x == s[|s| - 1];
      if p(s[|s| - 1]) then rest + [s[|s| - 1]] else rest
  }

  /** Filtering a concatenation filters each part, one after the other:
      `filter` keeps the order and the multiplicity of what it keeps. */
  lemma {:induction false} FilterConcat<T(!new)>(a: seq<T>, b: seq<T>, p: T -> bool)
    ensures Filter(a + b, p) == Filter(a, p) + Filter(b, p)
    decreases |b|
  {
    if b == [] {
      assert a + b == a;
    } else {
      var front := b[..|b| - 1];
      assert (a + b)[..|a + b| - 1] == a + front;
      assert (a + b)[|a + b| - 1] == b[|b| - 1];
      FilterConcat(a, front, p);
    }
  }

  /** A single element is kept exactly when it satisfies `p`. */
  lemma FilterOne<T(!new)>(x: T, p: T -> bool)
    ensures Filter([x], p) == if p(x) then [x] else []
  {
    assert [x][..0] == [];
  }

  /** Two tests that agree everywhere keep the same elements. */
  lemma {:induction false} FilterExt<T(!new)>(s: seq<T>, p: T -> bool, q: T -> bool)
    requires forall x :: p(x) == q(x)
    ensures Filter(s, p) == Filter(s, q)
    decreases |s|
  {
    if s != [] {
      FilterExt(s[..|s| - 1], p, q);
    }
  }

  /** The sources each revision has; the oldest one knows only custom lists,
      commands, applications and directories. */
  predicate Available(rev: Revision, source: Source) {
    rev == Oldest ==> source.Custom? || source.Empty? || source.Commands? || source.Apps? || source.Directories?
  }

  /** `loadLauncherApps { it.contains(hint, true) }`. */
  function MatchingApps(host: Host, hint: string): (r: seq<LauncherApp>)
    ensures forall a :: a in r <==> a in host.apps && ContainsIgnoreCase(a.name, hint)
  {
    Filter(host.apps, (a: LauncherApp) => ContainsIgnoreCase(a.name, hint))
  }

  function Labels(apps: seq<LauncherApp>): (r: seq<Suggestion>)
    ensures |r| == |apps|
    ensures forall i :: 0 <= i < |r| ==> r[i] == LabelSuggestion(apps[i].name)
  {
    seq(|apps|, i requires 0 <= i < |apps| => LabelSuggestion(apps[i].name))
  }

  /** The labels of the pinned packages that are still installed. */
  function PinnedLabels(host: Host, pinned: seq<string>): (r: seq<Suggestion>)
    ensures |r| <= |pinned|
    ensures forall s :: s in r <==> exists p :: p in pinned && p in host.labels && s == LabelSuggestion(host.labels[p])
    decreases |pinned|
  {
    if pinned == [] then []
    else
      var rest := PinnedLabels(host, pinned[..|pinned| - 1]);
      var p := pinned[|pinned| - 1];
      assert forall q :: q in pinned <==> q in pinned[..|pinned| - 1] || q == p;
      if p in host.labels then rest + [LabelSuggestion(host.labels[p])] else rest
  }

  /** Names as label chips, in their order. */
  function Chips(names: seq<string>): (r: seq<Suggestion>)
    ensures |r| == |names|
    ensures forall i :: 0 <= i < |r| ==> r[i] == LabelSuggestion(names[i])
  {
    seq(|names|, i requires 0 <= i < |names| => LabelSuggestion(names[i]))
  }

  lemma ChipsConcat(a: seq<string>, b: seq<string>)
    ensures Chips(a + b) == Chips(a) + Chips(b)
  {
  }

  lemma ChipsOf(names: seq<string>, n: string)
    ensures LabelSuggestion(n) in Chips(names) <==> n in names
  {
    if LabelSuggestion(n) in Chips(names) {
      var i :| 0 <= i < |names| && Chips(names)[i] == LabelSuggestion(n);
      assert LabelSuggestion(names[i]).caption == names[i];
    }
    if n in names {
      var i :| 0 <= i < |names| && names[i] == n;
      assert Chips(names)[i] == LabelSuggestion(n);
    }
  }

  /** `Suggestions.load(context, hint)` (`supply` in the oldest revision). */
  function Load(rev: Revision, host: Host, source: Source, hint: string): seq<Suggestion>
    requires Available(rev, source)
  {
    match source
    case Custom(entries) => Filter(entries, (s: Suggestion) => Contains(s.replacement, hint))
    case Empty => []
    case Commands =>
      if rev == Oldest then Chips(host.commands.names)
      else Chips(Filter(host.commands.names, n => ContainsIgnoreCase(n, hint)))
    case PinnedApps => PinnedLabels(host, host.pinned)
    case NotPinnedApps => Labels(Filter(MatchingApps(host, hint), (a: LauncherApp) => a.packageName !in host.pinned))
    case Apps => Labels(MatchingApps(host, hint))
    case AppsPackages =>
      var apps := MatchingApps(host, hint);
      if rev == ShellUi then
        seq(|apps|, i requires 0 <= i < |apps| =>
          NewSuggestion(apps[i].name + "(" + apps[i].packageName + ")", apps[i].packageName, false))
      else
        seq(|apps|, i requires 0 <= i < |apps| => LabelSuggestion(apps[i].packageName))
    case Files => LoadFiles(host, hint, false, false)
    case Directories => LoadFiles(host, hint, true, rev == Oldest)
  }

  // ---------------------------------------------------------------------
  // Files and directories
  // ---------------------------------------------------------------------

  /** The directory part of the hint (up to and including its last
      separator) and the query after it. */
  function SplitHint(hint: string): (r: (string, string))
    ensures r.0 + r.1 == hint
    ensures Sep !in r.1
    ensures r.0 == [] || r.0[|r.0| - 1] == Sep
  {
    var index := LastIndexOf(hint, Sep);
    if index != -1 then
      assert hint == hint[..index + 1] + hint[index + 1..];
      (hint[..index + 1], hint[index + 1..])
    else (hint[..0], hint)
  }

  /** The `File` whose children are listed. */
  function HintRoot(workingDir: string, hint: string): FileRef {
    NormalizePath(workingDir, hint, _ => SplitHint(hint).0)
  }

  /** The path of the directory whose children are offered. */
  function ListedDir(workingDir: string, hint: string): string {
    PathOf(HintRoot(workingDir, hint))
  }

  /** "/", "." and "..", completed after the hint; "/" only when the hint
      does not already end with a separator. */
  function SpecialPaths(hint: string): (r: seq<Suggestion>)
    ensures |r| == if EndsWith(hint, Sep) then 2 else 3
    ensures !EndsWith(hint, Sep) ==> r[0] == NewSuggestion("/", hint + "/", false)
    ensures r[|r| - 2] == NewSuggestion(".", hint + "./", false)
    ensures r[|r| - 1] == NewSuggestion("..", hint + "../", false)
  {
    (if !EndsWith(hint, Sep) then [NewSuggestion("/", hint + "/", false)] else [])
    + [NewSuggestion(".", hint + "./", false), NewSuggestion("..", hint + "../", false)]
  }

  /** The repository's `loadFiles(root, query, dirsOnly)`. */
  function ListMatching(host: Host, dir: string, query: string, dirsOnly: bool): (r: seq<FileEntry>)
    ensures forall e :: e in r <==>
      dir in host.listing && e in host.listing[dir] && (dirsOnly ==> e.isDirectory) && ContainsIgnoreCase(e.name, query)
  {
    if dir in host.listing then
      Filter(host.listing[dir], (e: FileEntry) => (dirsOnly ==> e.isDirectory) && ContainsIgnoreCase(e.name, query))
    else []
  }

  /** The entries offered for the hint. */
  function Listed(host: Host, hint: string, dirsOnly: bool): seq<FileEntry> {
    ListMatching(host, ListedDir(host.workingDir, hint), SplitHint(hint).1, dirsOnly)
  }

  /** A listed entry as a chip: its path relative to the working directory,
      then a separator for a directory and a space for a file; the oldest
      revision puts a separator after every entry. */
  function EntrySuggestion(workingDir: string, e: FileEntry, oldest: bool): Suggestion {
    NewSuggestion(e.name, RemoveWorkingDir(workingDir, e.path) + Ending(e, oldest), false)
  }

  function Ending(e: FileEntry, oldest: bool): string {
    if oldest || e.isDirectory then "/" else " "
  }

  /** The chips of the listed entries, in their order. */
  function EntryChips(workingDir: string, entries: seq<FileEntry>, oldest: bool): (r: seq<Suggestion>)
    ensures |r| == |entries|
    ensures forall i :: 0 <= i < |r| ==> r[i] == EntrySuggestion(workingDir, entries[i], oldest)
  {
    seq(|entries|, i requires 0 <= i < |entries| => EntrySuggestion(workingDir, entries[i], oldest))
  }

  /** `loadFiles(hint, dirsOnly)`: nothing when the hint's directory does not
      exist; otherwise the special paths, then the matching entries. The
      oldest revision lists every entry, directories or not. */
  function LoadFiles(host: Host, hint: string, dirsOnly: bool, oldest: bool): (r: seq<Suggestion>)
    ensures ListedDir(host.workingDir, hint) !in host.existing ==> r == []
    ensures ListedDir(host.workingDir, hint) in host.existing ==>
      r == SpecialPaths(hint) + EntryChips(host.workingDir, Listed(host, hint, dirsOnly && !oldest), oldest)
  {
    if ListedDir(host.workingDir, hint) !in host.existing then []
    else SpecialPaths(hint) + EntryChips(host.workingDir, Listed(host, hint, dirsOnly && !oldest), oldest)
  }

  // ---------------------------------------------------------------------
  // The listing as written
  // ---------------------------------------------------------------------

  /** A listed entry's chip with the written `removeWorkingDir`: None where
      `substring` throws, which is exactly for the working directory
      itself. */
  function EntrySuggestionAsWritten(workingDir: string, e: FileEntry, oldest: bool): (r: Option<Suggestion>)
    ensures r.None? <==> e.path == workingDir
    ensures r.Some? ==> r.value.caption == e.name
  {
    match RemoveWorkingDirAsWritten(workingDir, e.path)
    case None => None
    case Some(rel) => Some(NewSuggestion(e.name, rel + Ending(e, oldest), false))
  }

  /** `map` over the listed entries with the written helper: it throws as
      soon as one entry's chip throws, so it fails exactly when some entry
      is the working directory. */
  function EntryChipsAsWritten(workingDir: string, entries: seq<FileEntry>, oldest: bool): (r: Option<seq<Suggestion>>)
    ensures r.None? <==> exists e :: e in entries && EntrySuggestionAsWritten(workingDir, e, oldest).None?
    ensures r.Some? ==> |r.value| == |entries|
    ensures r.Some? ==> forall i :: 0 <= i < |entries| ==> EntrySuggestionAsWritten(workingDir, entries[i], oldest) == Some(r.value[i])
  {
    if exists e :: e in entries && e.path == workingDir then None
    else
      Some(seq(|entries|, i requires 0 <= i < |entries| && entries[i].path != workingDir =>
        EntrySuggestionAsWritten(workingDir, entries[i], oldest).value))
  }

  /** `loadFiles(hint, dirsOnly)` as the source computes it: None where the
      suggestions job throws, which is exactly when the hint's directory
      exists and lists the working directory itself. */
  function LoadFilesAsWritten(host: Host, hint: string, dirsOnly: bool, oldest: bool): (r: Option<seq<Suggestion>>)
    ensures ListedDir(host.workingDir, hint) !in host.existing ==> r == Some([])
    ensures var entries := Listed(host, hint, dirsOnly && !oldest);
      ListedDir(host.workingDir, hint) in host.existing ==>
        && (r.None? <==> exists e :: e in entries && e.path == host.workingDir)
        && (r.Some? ==> r.value == SpecialPaths(hint) + EntryChipsAsWritten(host.workingDir, entries, oldest).value)
  {
    if ListedDir(host.workingDir, hint) !in host.existing then Some([])
    else
      match EntryChipsAsWritten(host.workingDir, Listed(host, hint, dirsOnly && !oldest), oldest)
      case None => None
      case Some(chips) => Some(SpecialPaths(hint) + chips)
  }

  /** `Suggestions.load` as the source computes it: the file sources go
      through the written helper; no other source throws. */
  function LoadAsWritten(rev: Revision, host: Host, source: Source, hint: string): (r: Option<seq<Suggestion>>)
    requires Available(rev, source)
    ensures !source.Files? && !source.Directories? ==> r == Some(Load(rev, host, source, hint))
  {
    match source
    case Files => LoadFilesAsWritten(host, hint, false, false)
    case Directories => LoadFilesAsWritten(host, hint, true, rev == Oldest)
    case _ => Some(Load(rev, host, source, hint))
  }

  /** Where every entry of the hint's directory lies strictly inside the
      working directory, or outside its text altogether, and the working
      directory is not the root, the source's chips are the intended ones. */
  lemma LoadAgrees(rev: Revision, host: Host, source: Source, hint: string)
    requires Available(rev, source)
    requires forall e :: e in Listed(host, hint, false) ==> CutsCleanly(host.workingDir, e.path)
    ensures LoadAsWritten(rev, host, source, hint) == Some(Load(rev, host, source, hint))
  {
    if source.Files? {
      LoadFilesAgree(host, hint, false, false);
    } else if source.Directories? {
      LoadFilesAgree(host, hint, true, rev == Oldest);
    }
  }

  lemma LoadFilesAgree(host: Host, hint: string, dirsOnly: bool, oldest: bool)
    requires forall e :: e in Listed(host, hint, false) ==> CutsCleanly(host.workingDir, e.path)
    ensures LoadFilesAsWritten(host, hint, dirsOnly, oldest) == Some(LoadFiles(host, hint, dirsOnly, oldest))
  {
    if ListedDir(host.workingDir, hint) in host.existing {
      var entries := Listed(host, hint, dirsOnly && !oldest);
      forall e | e in entries ensures CutsCleanly(host.workingDir, e.path) {
        ListedNarrows(host, hint, dirsOnly && !oldest, e);
      }
      EntryChipsAgree(host.workingDir, entries, oldest);
    }
  }

  /** The directories-only listing is part of the full one. */
  lemma ListedNarrows(host: Host, hint: string, dirsOnly: bool, e: FileEntry)
    requires e in Listed(host, hint, dirsOnly)
    ensures e in Listed(host, hint, false)
  {
  }

  lemma EntryChipsAgree(workingDir: string, entries: seq<FileEntry>, oldest: bool)
    requires forall e :: e in entries ==> CutsCleanly(workingDir, e.path)
    ensures EntryChipsAsWritten(workingDir, entries, oldest) == Some(EntryChips(workingDir, entries, oldest))
  {
    var chips := EntryChips(workingDir, entries, oldest);
    var r := EntryChipsAsWritten(workingDir, entries, oldest);
    assert r.Some?;
    forall i | 0 <= i < |entries| ensures r.value[i] == chips[i] {
      assert entries[i] in entries;
      AsWrittenAgreesInside(workingDir, entries[i].path);
      assert EntrySuggestionAsWritten(workingDir, entries[i], oldest) == Some(r.value[i]);
    }
    assert r.value == chips;
  }

  /** Under the root directory the source inserts each entry's name without
      its first letter, where the intended chip inserts the whole name. */
  lemma EntryAtRoot(e: FileEntry, oldest: bool)
    requires |e.name| > 0 && e.path == [Sep] + e.name
    ensures EntrySuggestionAsWritten([Sep], e, oldest) == Some(NewSuggestion(e.name, e.name[1..] + Ending(e, oldest), false))
    ensures EntrySuggestion([Sep], e, oldest) == NewSuggestion(e.name, e.name + Ending(e, oldest), false)
  {
    AsWrittenAtRoot(e.name);
  }

  /** Listing a directory that holds the working directory itself (the
      parent, under the hint `/` or `..`) makes the source's job throw,
      where the intended listing offers the working directory's chip. */
  lemma WorkingDirListedThrows(host: Host, hint: string, dirsOnly: bool, oldest: bool, i: nat)
    requires ListedDir(host.workingDir, hint) in host.existing
    requires i < |Listed(host, hint, dirsOnly && !oldest)|
    requires Listed(host, hint, dirsOnly && !oldest)[i].path == host.workingDir
    requires !EndsWith(host.workingDir, Sep)
    ensures LoadFilesAsWritten(host, hint, dirsOnly, oldest).None?
    ensures LoadFiles(host, hint, dirsOnly, oldest)[|SpecialPaths(hint)| + i]
      == NewSuggestion(Listed(host, hint, dirsOnly && !oldest)[i].name,
           host.workingDir + Ending(Listed(host, hint, dirsOnly && !oldest)[i], oldest), false)
  {
    var entries := Listed(host, hint, dirsOnly && !oldest);
    FileChipAt(host, hint, dirsOnly, oldest, i);
    WorkingDirEntry(host.workingDir, entries[i], oldest);
    ChipsThrowAt(host.workingDir, entries, oldest, i);
  }

  lemma ChipsThrowAt(workingDir: string, entries: seq<FileEntry>, oldest: bool, i: nat)
    requires i < |entries| && entries[i].path == workingDir
    ensures EntryChipsAsWritten(workingDir, entries, oldest).None?
  {
    assert entries[i] in entries;
  }

  /** The working directory's own entry: its chip throws as written, and
      the intended chip inserts its whole path. */
  lemma WorkingDirEntry(workingDir: string, e: FileEntry, oldest: bool)
    requires e.path == workingDir && !EndsWith(workingDir, Sep)
    ensures EntrySuggestionAsWritten(workingDir, e, oldest).None?
    ensures EntrySuggestion(workingDir, e, oldest) == NewSuggestion(e.name, workingDir + Ending(e, oldest), false)
  {
    assert |DirPrefix(workingDir)| > |workingDir|;
  }

  // ---------------------------------------------------------------------
  // Properties
  // ---------------------------------------------------------------------

  /** A custom list offers exactly its entries whose replacement contains the
      hint, in their order. */
  lemma CustomFilters(rev: Revision, host: Host, entries: seq<Suggestion>, hint: string, s: Suggestion)
    ensures s in Load(rev, host, Custom(entries), hint) <==> s in entries && Contains(s.replacement, hint)
  {
  }

  /** The custom source keeps its entries' order: a list offers what its
      parts offer, one after the other, and a single entry is offered
      exactly when its replacement contains the hint. */
  lemma CustomKeepsOrder(rev: Revision, host: Host, a: seq<Suggestion>, b: seq<Suggestion>, s: Suggestion, hint: string)
    ensures Load(rev, host, Custom(a + b), hint) == Load(rev, host, Custom(a), hint) + Load(rev, host, Custom(b), hint)
    ensures Load(rev, host, Custom([s]), hint) == if Contains(s.replacement, hint) then [s] else []
  {
    var p := (e: Suggestion) => Contains(e.replacement, hint);
    FilterConcat(a, b, p);
    FilterOne(s, p);
  }

  /** The command source of the two later revisions offers exactly the
      registered names that contain the hint, ignoring case; the oldest one
      offers every name, in the registry's order. An empty hint offers
      every name in both. */
  lemma CommandsOffered(rev: Revision, host: Host, hint: string, n: string)
    ensures LabelSuggestion(n) in Load(rev, host, Commands, hint) <==>
      n in host.commands.names && (rev == Oldest || ContainsIgnoreCase(n, hint))
    ensures rev == Oldest ==> |Load(rev, host, Commands, hint)| == |host.commands.names|
    ensures rev == Oldest ==>
      forall i :: 0 <= i < |host.commands.names| ==> Load(rev, host, Commands, hint)[i] == LabelSuggestion(host.commands.names[i])
  {
    if rev == Oldest {
      ChipsOf(host.commands.names, n);
    } else {
      ChipsOf(Filter(host.commands.names, m => ContainsIgnoreCase(m, hint)), n);
    }
  }

  /** No app offered by `NotPinnedApps` is pinned, and every matching app
      that is not pinned is offered. */
  lemma NotPinnedExcludesPinned(rev: Revision, host: Host, hint: string, a: LauncherApp)
    requires rev != Oldest
    ensures a in Filter(MatchingApps(host, hint), (x: LauncherApp) => x.packageName !in host.pinned) <==>
      a in host.apps && ContainsIgnoreCase(a.name, hint) && a.packageName !in host.pinned
    ensures Load(rev, host, NotPinnedApps, hint) ==
      Labels(Filter(MatchingApps(host, hint), (x: LauncherApp) => x.packageName !in host.pinned))
  {
  }

  /** The package source of the current revision shows the app's name with
      its package and inserts the package; the older one shows and inserts
      the package. */
  lemma PackagesInserted(rev: Revision, host: Host, hint: string, i: nat)
    requires rev != Oldest && i < |MatchingApps(host, hint)|
    ensures |Load(rev, host, AppsPackages, hint)| == |MatchingApps(host, hint)|
    ensures var a := MatchingApps(host, hint)[i];
      var s := Load(rev, host, AppsPackages, hint)[i];
      && (rev == ShellUi ==> s.caption == a.name + "(" + a.packageName + ")")
      && (rev == Demo ==> s.caption == a.packageName)
      && (NoWhitespace(a.packageName) ==> s.replacement == a.packageName + (if rev == Demo then " " else ""))
  {
    var a := MatchingApps(host, hint)[i];
    if NoWhitespace(a.packageName) {
      TrimWord(a.packageName);
    }
  }

  /** A hint whose directory does not exist offers nothing, not even the
      special paths. */
  lemma MissingDirectoryOffersNothing(rev: Revision, host: Host, hint: string)
    requires rev != Oldest
    requires ListedDir(host.workingDir, hint) !in host.existing
    ensures Load(rev, host, Files, hint) == [] && Load(rev, host, Directories, hint) == []
  {
  }

  /** With `dirsOnly`, every listed chip comes from a directory whose name
      contains the query, ignoring case, and its replacement ends with a
      separator (inside the closing quote when it had to be quoted). */
  lemma DirectoriesOnly(host: Host, hint: string, i: nat)
    requires ListedDir(host.workingDir, hint) in host.existing
    requires i < |Listed(host, hint, true)|
    ensures var e := Listed(host, hint, true)[i];
      e.isDirectory && ContainsIgnoreCase(e.name, SplitHint(hint).1)
    ensures var s := LoadFiles(host, hint, true, false)[|SpecialPaths(hint)| + i];
      && s.caption == Listed(host, hint, true)[i].name
      && (EndsWith(s.replacement, Sep) || (EndsWith(s.replacement, '"') && EndsWith(s.replacement[..|s.replacement| - 1], Sep)))
  {
    var e := Listed(host, hint, true)[i];
    assert e in Listed(host, hint, true);
    FileChipAt(host, hint, true, false, i);
    DirectoryChip(host.workingDir, e, false);
  }

  /** The chip after the special paths at position `i` is that of the `i`-th
      listed entry. */
  lemma FileChipAt(host: Host, hint: string, dirsOnly: bool, oldest: bool, i: nat)
    requires ListedDir(host.workingDir, hint) in host.existing
    requires i < |Listed(host, hint, dirsOnly && !oldest)|
    ensures |SpecialPaths(hint)| + i < |LoadFiles(host, hint, dirsOnly, oldest)|
    ensures LoadFiles(host, hint, dirsOnly, oldest)[|SpecialPaths(hint)| + i]
      == EntrySuggestion(host.workingDir, Listed(host, hint, dirsOnly && !oldest)[i], oldest)
  {
    var entries := Listed(host, hint, dirsOnly && !oldest);
    ConcatAt(SpecialPaths(hint), EntryChips(host.workingDir, entries, oldest), i);
  }

  lemma ConcatAt<T>(a: seq<T>, b: seq<T>, i: nat)
    requires i < |b|
    ensures |a| + i < |a + b| && (a + b)[|a| + i] == b[i]
  {
  }

  /** A directory's chip ends with a separator, inside the closing quote
      when its path had to be quoted. */
  lemma DirectoryChip(workingDir: string, e: FileEntry, oldest: bool)
    requires oldest || e.isDirectory
    ensures var s := EntrySuggestion(workingDir, e, oldest);
      && s.caption == e.name
      && (EndsWith(s.replacement, Sep) || (EndsWith(s.replacement, '"') && EndsWith(s.replacement[..|s.replacement| - 1], Sep)))
  {
    var rep := RemoveWorkingDir(workingDir, e.path) + "/";
    TrimKeepsLast(rep);
  }

  /** In the oldest revision every listed entry, directory or not, is
      offered with a separator after it. */
  lemma OldestEntriesEndWithSeparator(host: Host, hint: string, dirsOnly: bool, i: nat)
    requires ListedDir(host.workingDir, hint) in host.existing
    requires i < |Listed(host, hint, false)|
    ensures var s := LoadFiles(host, hint, dirsOnly, true)[|SpecialPaths(hint)| + i];
      && s.caption == Listed(host, hint, false)[i].name
      && (EndsWith(s.replacement, Sep) || (EndsWith(s.replacement, '"') && EndsWith(s.replacement[..|s.replacement| - 1], Sep)))
  {
    FileChipAt(host, hint, dirsOnly, true, i);
    DirectoryChip(host.workingDir, Listed(host, hint, false)[i], true);
  }

  /** For a hint without whitespace the special paths insert the hint
      followed by `/`, `./` and `../`, with `/` first when offered. */
  lemma SpecialPathsPlain(hint: string)
    requires NoWhitespace(hint)
    ensures var r := SpecialPaths(hint);
      && (!EndsWith(hint, Sep) ==> r[0].caption == "/" && r[0].replacement == hint + "/")
      && r[|r| - 2].caption == "." && r[|r| - 2].replacement == hint + "./"
      && r[|r| - 1].caption == ".." && r[|r| - 1].replacement == hint + "../"
  {
    PlainAppend(hint, "/");
    PlainAppend(hint, "./");
    PlainAppend(hint, "../");
  }

  lemma PlainAppend(hint: string, tail: string)
    requires NoWhitespace(hint) && NoWhitespace(tail)
    ensures NewSuggestion("", hint + tail, false).replacement == hint + tail
  {
    var w := hint + tail;
    assert NoWhitespace(w) by {
      forall i | 0 <= i < |w| ensures !IsWhitespace(w[i]) {
        if i < |hint| { assert w[i] == hint[i]; } else { assert w[i] == tail[i - |hint|]; }
      }
    }
    TrimWord(w);
  }

  /** A hint already ending with a separator is not offered "/" again. */
  lemma NoDoubleSeparatorOffered(hint: string)
    requires EndsWith(hint, Sep)
    ensures forall s :: s in SpecialPaths(hint) ==> s.caption != "/"
  {
  }
}
