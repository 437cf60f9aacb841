/**
  * The command tree and its registry. A command is a leaf (metadata plus an
  * action, kept here as an opaque identifier) or a group holding its own
  * registry of sub-commands. A registry (`CommandList`) maps names to
  * commands and lists its names either in first-insertion order (the
  * `mutableMapOf` builder) or in ascending string order (the `TreeMap`
  * builder).
  */
module Registry {
  import opened Text
  import opened Arity

  /** The body of a leaf command, which runs against the host. */
  type ActionId = nat

  datatype Command =
    | Leaf(metadata: Metadata, action: ActionId)
    | Group(groupName: string, commands: CommandList)

  datatype CommandList = CommandList(names: seq<string>, table: map<string, Command>)

  /** A leaf is named by its metadata. */
  function Name(c: Command): string {
    match c
    case Leaf(m, _) => m.name
    case Group(n, _) => n
  }

  predicate Distinct(s: seq<string>) {
    forall i, j :: 0 <= i < j < |s| ==> s[i] != s[j]
  }

  /** The names are the keys, each once, and each command sits under its own
      name. */
  predicate WellFormed(cl: CommandList) {
    && Distinct(cl.names)
    && (forall n <- cl.names :: n in cl.table)
    && (forall n <- cl.table :: n in cl.names && Name(cl.table[n]) == n)
  }

  /** `get(name)`: the command registered under `name`, or null. */
  function Get(cl: CommandList, name: string): (r: Option<Command>)
    ensures r.Some? <==> name in cl.table
    ensures r.Some? ==> r.value == cl.table[name]
  {
    if name in cl.table then Some(cl.table[name]) else None
  }

  /** The iteration order of a registry: its commands in `names()` order. */
  function Commands(cl: CommandList): (r: seq<Command>)
    requires WellFormed(cl)
    ensures |r| == |cl.names|
    ensures forall i :: 0 <= i < |r| ==> r[i] == cl.table[cl.names[i]] && Name(r[i]) == cl.names[i]
  {
    seq(|cl.names|, i requires 0 <= i < |cl.names| => cl.table[cl.names[i]])
  }

  // ---------------------------------------------------------------------
  // String order (`String.compareTo`)
  // ---------------------------------------------------------------------

  /** Lexicographic order: a proper prefix comes first, otherwise the first
      differing character decides. */
  predicate LexLess(a: string, b: string)
    decreases |a|
  {
    if |a| == 0 then |b| > 0
    else if |b| == 0 then false
    else if a[0] != b[0] then a[0] < b[0]
    else LexLess(a[1..], b[1..])
  }

  lemma {:induction false} LexIrreflexive(a: string)
    ensures !LexLess(a, a)
    decreases |a|
  {
    if |a| > 0 { LexIrreflexive(a[1..]); }
  }

  lemma {:induction false} LexTransitive(a: string, b: string, c: string)
    ensures LexLess(a, b) && LexLess(b, c) ==> LexLess(a, c)
    decreases |a|
  {
    if |a| > 0 && |b| > 0 && |c| > 0 && a[0] == b[0] && b[0] == c[0] {
      LexTransitive(a[1..], b[1..], c[1..]);
    }
  }

  lemma {:induction false} LexTotal(a: string, b: string)
    ensures a == b || LexLess(a, b) || LexLess(b, a)
    decreases |a|
  {
    if |a| > 0 && |b| > 0 && a[0] == b[0] {
      LexTotal(a[1..], b[1..]);
    }
  }

  lemma LexAsymmetric(a: string, b: string)
    ensures !(LexLess(a, b) && LexLess(b, a))
  {
    LexTransitive(a, b, a);
    LexIrreflexive(a);
  }

  predicate Sorted(s: seq<string>) {
    forall i, j :: 0 <= i < j < |s| ==> LexLess(s[i], s[j])
  }

  /** Where a new key goes in a `TreeMap`'s key order. */
  function InsertSorted(s: seq<string>, x: string): (r: seq<string>)
    requires Sorted(s) && x !in s
    ensures |r| == |s| + 1 && Sorted(r)
    ensures forall n :: n in r <==> n in s || n == x
  {
    if s == [] then [x]
    else if LexLess(x, s[0]) then
      assert Sorted([x] + s) by {
        forall i, j | 0 <= i < j < |[x] + s| ensures LexLess(([x] + s)[i], ([x] + s)[j]) {
          if i == 0 && j > 1 { LexTransitive(x, s[0], s[j - 1]); }
        }
      }
      [x] + s
    else
      LexTotal(x, s[0]);
      var rest := InsertSorted(s[1..], x);
      assert Sorted([s[0]] + rest) by {
        forall j | 0 <= j < |rest| ensures LexLess(s[0], rest[j]) {
          assert rest[j] in s[1..] || rest[j] == x;
        }
      }
      [s[0]] + rest
  }

  // ---------------------------------------------------------------------
  // Building a registry
  // ---------------------------------------------------------------------

  function EmptyList(): (cl: CommandList)
    ensures WellFormed(cl) && cl.names == []
  {
    CommandList([], map[])
  }

  /** `putCommand`: the command replaces whatever was under its name; a new
      name goes at the end (insertion order) or at its place in string
      order (sorted). */
  function Put(sorted: bool, cl: CommandList, c: Command): (r: CommandList)
    requires WellFormed(cl) && (sorted ==> Sorted(cl.names))
    ensures WellFormed(r) && (sorted ==> Sorted(r.names))
    ensures r.table == cl.table[Name(c) := c]
    ensures Name(c) in cl.table ==> r.names == cl.names
    ensures Name(c) !in cl.table && !sorted ==> r.names == cl.names + [Name(c)]
  {
    var n := Name(c);
    var names :=
      if n in cl.table then cl.names
      else if sorted then InsertSorted(cl.names, n)
      else cl.names + [n];
    assert Distinct(names) by {
      if n !in cl.table && !sorted {
        forall i, j | 0 <= i < j < |names| ensures names[i] != names[j] {
          if j == |cl.names| { assert names[i] in cl.names; }
        }
      } else if n !in cl.table {
        DistinctSorted(names);
      }
    }
    CommandList(names, cl.table[n := c])
  }

  lemma DistinctSorted(s: seq<string>)
    requires Sorted(s)
    ensures Distinct(s)
  {
    forall i, j | 0 <= i < j < |s| ensures s[i] != s[j] {
      LexIrreflexive(s[i]);
    }
  }

  /** Putting the commands one after another. */
  function PutAll(sorted: bool, cl: CommandList, cmds: seq<Command>): (r: CommandList)
    requires WellFormed(cl) && (sorted ==> Sorted(cl.names))
    ensures WellFormed(r) && (sorted ==> Sorted(r.names))
    decreases |cmds|
  {
    if cmds == [] then cl
    else Put(sorted, PutAll(sorted, cl, cmds[..|cmds| - 1]), cmds[|cmds| - 1])
  }

  /** The mutable `CommandList.Builder` (a `mutableMapOf` or a `TreeMap`). */
  class CommandListBuilder {
    const sorted: bool
    var names: seq<string>
    var table: map<string, Command>

    ghost predicate Valid()
      reads this
    {
      WellFormed(CommandList(names, table)) && (sorted ==> Sorted(names))
    }

    constructor(sorted: bool)
      ensures Valid() && this.sorted == sorted && names == [] && table == map[]
    {
      this.sorted := sorted;
      names := [];
      table := map[];
    }

    /** `putCommand`: `commands[command.name] = command`. */
    method PutCommand(c: Command)
      requires Valid()
      modifies this
      ensures Valid()
      ensures CommandList(names, table) == Put(sorted, CommandList(old(names), old(table)), c)
    {
      ghost var expected := Put(sorted, CommandList(names, table), c);
      var n := Name(c);
      if n !in table {
        if sorted {
          names := InsertSorted(names, n);
        } else {
          names := names + [n];
        }
      }
      table := table[n := c];
      assert CommandList(names, table) == expected;
    }

    /** `build`: an immutable snapshot of the map. */
    method Build() returns (cl: CommandList)
      requires Valid()
      ensures cl == CommandList(names, table) && WellFormed(cl)
    {
      cl := CommandList(names, table);
    }
  }

  /** A registry built by putting `cmds` in order into a fresh builder. */
  method BuildRegistry(sorted: bool, cmds: seq<Command>) returns (cl: CommandList)
    ensures cl == PutAll(sorted, EmptyList(), cmds)
  {
    var builder := new CommandListBuilder(sorted);
    var i := 0;
    while i < |cmds|
      invariant 0 <= i <= |cmds|
      invariant builder.Valid() && builder.sorted == sorted
      invariant CommandList(builder.names, builder.table) == PutAll(sorted, EmptyList(), cmds[..i])
    {
      assert cmds[..i + 1][..i] == cmds[..i];
      builder.PutCommand(cmds[i]);
      i := i + 1;
    }
    assert cmds[..|cmds|] == cmds;
    cl := builder.Build();
  }

  // ---------------------------------------------------------------------
  // Properties of a built registry
  // ---------------------------------------------------------------------

  /** The last command in `cmds` with the given name, if any. */
  function LastNamed(cmds: seq<Command>, name: string): Option<Command> {
    if cmds == [] then None
    else if Name(cmds[|cmds| - 1]) == name then Some(cmds[|cmds| - 1])
    else LastNamed(cmds[..|cmds| - 1], name)
  }

  /** `get(name)` returns the command most recently put under `name`, and
      null for a name never put. */
  lemma {:induction false} GetLatest(sorted: bool, cmds: seq<Command>, name: string)
    ensures Get(PutAll(sorted, EmptyList(), cmds), name) == LastNamed(cmds, name)
    decreases |cmds|
  {
    if cmds != [] {
      GetLatest(sorted, cmds[..|cmds| - 1], name);
    }
  }

  /** The names of a built registry are exactly the names of the commands
      put. */
  lemma {:induction false} NamesArePutNames(sorted: bool, cmds: seq<Command>, name: string)
    ensures name in PutAll(sorted, EmptyList(), cmds).names <==> exists c :: c in cmds && Name(c) == name
    decreases |cmds|
  {
    if cmds != [] {
      var init := cmds[..|cmds| - 1];
      NamesArePutNames(sorted, init, name);
      if exists c :: c in init && Name(c) == name {
        var c :| c in init && Name(c) == name;
        assert c in cmds;
      }
      if exists c :: c in cmds && Name(c) == name {
        var c :| c in cmds && Name(c) == name;
        if c != cmds[|cmds| - 1] {
          var k :| 0 <= k < |cmds| && cmds[k] == c;
          if k < |cmds| - 1 { assert c in init; }
        }
      }
    }
  }

  /** The first occurrences of each element, in order. */
  function FirstOccurrences(s: seq<string>): seq<string> {
    if s == [] then []
    else
      var r := FirstOccurrences(s[..|s| - 1]);
      if s[|s| - 1] in r then r else r + [s[|s| - 1]]
  }

  function NamesOf(cmds: seq<Command>): (r: seq<string>)
    ensures |r| == |cmds|
    ensures forall i :: 0 <= i < |cmds| ==> r[i] == Name(cmds[i])
  {
    seq(|cmds|, i requires 0 <= i < |cmds| => Name(cmds[i]))
  }

  /** With the insertion-ordered builder, `names()` lists each name at the
      position of its first insertion; re-putting a name keeps its place. */
  lemma {:induction false} InsertionOrder(cmds: seq<Command>)
    ensures PutAll(false, EmptyList(), cmds).names == FirstOccurrences(NamesOf(cmds))
    decreases |cmds|
  {
    if cmds != [] {
      var init := cmds[..|cmds| - 1];
      InsertionOrder(init);
      assert NamesOf(cmds)[..|cmds| - 1] == NamesOf(init);
    }
  }

  /** Both builders produce the same table; the sorted one lists the same
      names in ascending order. */
  lemma {:induction false} BuildersAgree(cmds: seq<Command>)
    ensures PutAll(true, EmptyList(), cmds).table == PutAll(false, EmptyList(), cmds).table
    ensures forall n :: n in PutAll(true, EmptyList(), cmds).names <==> n in PutAll(false, EmptyList(), cmds).names
    ensures Sorted(PutAll(true, EmptyList(), cmds).names)
    decreases |cmds|
  {
    if cmds != [] {
      BuildersAgree(cmds[..|cmds| - 1]);
    }
  }

  /** A sorted list of distinct names is fixed by its elements: the `TreeMap`
      registry's `names()` depends only on which names were put. */
  lemma {:induction false} SortedUnique(a: seq<string>, b: seq<string>)
    requires Sorted(a) && Sorted(b)
    requires forall n :: n in a <==> n in b
    ensures a == b
    decreases |a|
  {
    assert a != [] ==> a[0] in b;
    assert b != [] ==> b[0] in a;
    if a != [] && b != [] {
      var k :| 0 <= k < |b| && b[k] == a[0];
      var m :| 0 <= m < |a| && a[m] == b[0];
      LexAsymmetric(a[0], b[0]);
      assert a[0] == b[0];
      DistinctSorted(a);
      DistinctSorted(b);
      forall n ensures n in a[1..] <==> n in b[1..] {
        assert n in a[1..] <==> n in a && n != a[0];
        assert n in b[1..] <==> n in b && n != b[0];
      }
      SortedUnique(a[1..], b[1..]);
      assert a == [a[0]] + a[1..] && b == [b[0]] + b[1..];
    }
  }

  /** The `TreeMap` registry lists the names of the insertion-ordered one,
      sorted. */
  lemma SortedRegistry(cmds: seq<Command>, order: seq<string>)
    requires Sorted(order)
    requires forall n :: n in order <==> n in PutAll(false, EmptyList(), cmds).names
    ensures PutAll(true, EmptyList(), cmds).names == order
  {
    BuildersAgree(cmds);
    SortedUnique(PutAll(true, EmptyList(), cmds).names, order);
  }
}
