/**
  * The dispatcher that runs a submitted command line: the first argument
  * names a command; a group consumes it and dispatches the rest into its own
  * registry; a leaf checks its argument count and then runs its action on the
  * remaining arguments. Every failure becomes a message on the log.
  */
module Dispatch {
  import opened Text
  import opened Tokenizer
  import opened Arguments
  import opened Arity
  import opened Registry

  /** What `exec` ends in: a message posted to the log, or a leaf's action
      run on its arguments. */
  datatype Outcome = Message(text: string) | Invoke(action: ActionId, args: seq<Argument>)

  const TooFew := "Too few arguments"
  const TooMany := "Too many arguments"
  const NotFound := "command not found "

  /** `exec(arguments, commands)`. An action always receives a proper suffix
      of the arguments, and an unknown name is reported with one of the
      argument values. */
  function Exec(args: seq<Argument>, cl: CommandList): (o: Outcome)
    ensures o.Invoke? ==> |o.args| < |args| && o.args == args[|args| - |o.args|..]
    ensures o.Message? ==> o.text == TooFew || o.text == TooMany
                           || exists i :: 0 <= i < |args| && o.text == NotFound + args[i].value
    decreases |args|
  {
    if IsEmpty(args) then Message(TooFew)
    else
      match Get(cl, args[0].value)
      case None => Message(NotFound + args[0].value)
      case Some(Group(_, sub)) =>
        var o := Exec(DropFirst(args), sub);
        assert o.Invoke? ==> DropFirst(args)[|DropFirst(args)| - |o.args|..] == args[|args| - |o.args|..];
        assert forall i :: 0 <= i < |DropFirst(args)| ==> DropFirst(args)[i] == args[i + 1];
        o
      case Some(Leaf(m, action)) =>
        var rest := DropFirst(args);
        match ValidateCount(m, Count(rest))
        case TooManyArgs => Message(TooMany)
        case TooFewArgs => Message(TooFew)
        case ExactArgs => Invoke(action, rest)
  }

  /** The command reached by following `path` through nested groups: every
      name but the last must name a group. */
  function Walk(path: seq<string>, cl: CommandList): Option<Command>
    requires |path| > 0
    decreases |path|
  {
    match Get(cl, path[0])
    case None => None
    case Some(c) =>
      if |path| == 1 then Some(c)
      else if c.Group? then Walk(path[1..], c.commands)
      else None
  }

  /** An action runs exactly when some prefix of the argument values walks to
      a leaf whose count check accepts the remaining arguments; those
      remaining arguments are what the action receives. */
  lemma {:induction false} ExecInvokes(args: seq<Argument>, cl: CommandList, action: ActionId, rest: seq<Argument>)
    ensures Exec(args, cl) == Invoke(action, rest) <==> Reaches(args, cl, action, rest)
    decreases |args|
  {
    if |args| > 0 {
      var c := Get(cl, args[0].value);
      if c.Some? && c.value.Group? {
        ExecInvokes(args[1..], c.value.commands, action, rest);
        ReachesThroughGroup(args, cl, action, rest);
      } else {
        assert Values(args[..1]) == [args[0].value];
        forall k | 1 < k <= |args| ensures Walk(Values(args[..k]), cl).None? {}
      }
    }
  }

  /** Some prefix of the argument values walks to a leaf with this action
      that accepts the remaining arguments, which are `rest`. */
  ghost predicate Reaches(args: seq<Argument>, cl: CommandList, action: ActionId, rest: seq<Argument>) {
    exists k :: 1 <= k <= |args| && rest == args[k..] && LeafAccepts(Walk(Values(args[..k]), cl), action, |rest|)
  }

  /** Through a group, the walk continues with the rest of the arguments in
      the group's own registry. */
  lemma ReachesThroughGroup(args: seq<Argument>, cl: CommandList, action: ActionId, rest: seq<Argument>)
    requires |args| > 0 && Get(cl, args[0].value).Some? && Get(cl, args[0].value).value.Group?
    ensures Reaches(args, cl, action, rest) <==> Reaches(args[1..], Get(cl, args[0].value).value.commands, action, rest)
  {
    var sub := Get(cl, args[0].value).value.commands;
    assert Values(args[..1]) == [args[0].value];
    forall k | 1 < k <= |args|
      ensures Walk(Values(args[..k]), cl) == Walk(Values(args[1..][..k - 1]), sub)
    {
      assert Values(args[..k])[1..] == Values(args[1..][..k - 1]);
    }
    if Reaches(args[1..], sub, action, rest) {
      var j :| 1 <= j <= |args| - 1 && rest == args[1..][j..]
               && LeafAccepts(Walk(Values(args[1..][..j]), sub), action, |rest|);
      assert rest == args[j + 1..];
    }
    if Reaches(args, cl, action, rest) {
      var k :| 1 <= k <= |args| && rest == args[k..] && LeafAccepts(Walk(Values(args[..k]), cl), action, |rest|);
      assert k > 1;
      assert rest == args[1..][k - 1..];
    }
  }

  /** The walk ended at the leaf with this action, and its count check
      accepts `n` arguments. */
  predicate LeafAccepts(c: Option<Command>, action: ActionId, n: nat) {
    c.Some? && c.value.Leaf? && c.value.action == action && ValidateCount(c.value.metadata, n) == ExactArgs
  }

  /** An empty line asks for more. */
  lemma ExecEmpty(cl: CommandList)
    ensures Exec([], cl) == Message(TooFew)
  {
  }

  /** Naming an unknown command reports that name. */
  lemma ExecUnknown(args: seq<Argument>, cl: CommandList)
    requires |args| > 0 && args[0].value !in cl.table
    ensures Exec(args, cl) == Message(NotFound + args[0].value)
  {
  }

  /** A path of group names with nothing after it reports too few arguments. */
  lemma {:induction false} ExecBareGroup(args: seq<Argument>, cl: CommandList)
    requires |args| > 0
    requires Walk(Values(args), cl).Some? && Walk(Values(args), cl).value.Group?
    ensures Exec(args, cl) == Message(TooFew)
    decreases |args|
  {
    if |args| > 1 {
      assert Values(args)[1..] == Values(args[1..]);
      ExecBareGroup(args[1..], Get(cl, args[0].value).value.commands);
    }
  }

  /** A leaf reached with more arguments than it takes reports too many. */
  lemma {:induction false} ExecTooMany(args: seq<Argument>, cl: CommandList, k: nat)
    requires 1 <= k <= |args|
    requires Walk(Values(args[..k]), cl).Some? && Walk(Values(args[..k]), cl).value.Leaf?
    requires Exceeds(|args| - k, Walk(Values(args[..k]), cl).value.metadata.maxArgs)
    ensures Exec(args, cl) == Message(TooMany)
    decreases k
  {
    assert Values(args[..k])[0] == args[0].value;
    if k > 1 {
      assert Values(args[..k])[1..] == Values(args[1..][..k - 1]);
      ExecTooMany(args[1..], Get(cl, args[0].value).value.commands, k - 1);
    }
  }
}
