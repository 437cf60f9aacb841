/**
  * Command metadata: the declared parameters of a leaf command, the minimum
  * and maximum argument counts derived from them, the three-way count check,
  * and the staged builder whose interface chain (RequiredArg, RequiredNArgs,
  * OptionalArg, OptionalNArgs, MetadataBuilder) fixes the order in which
  * parameters may be declared. `Int.MAX_VALUE` as a maximum is `Unbounded`.
  */
module Arity {
  import opened Quoting

  datatype CountCheck = TooManyArgs | TooFewArgs | ExactArgs

  datatype MaxCount = AtMost(n: nat) | Unbounded

  datatype Parameter = Parameter(name: string, source: Source, required: bool, variadic: bool)

  datatype Metadata = Metadata(name: string, params: seq<Parameter>, minArgs: nat, maxArgs: MaxCount)

  predicate Exceeds(n: nat, max: MaxCount) {
    max.AtMost? && n > max.n
  }

  /** `validateCount`: too many is checked before too few. */
  function ValidateCount(m: Metadata, n: nat): (r: CountCheck)
    ensures r == TooManyArgs <==> Exceeds(n, m.maxArgs)
    ensures r == TooFewArgs <==> !Exceeds(n, m.maxArgs) && n < m.minArgs
    ensures r == ExactArgs <==> m.minArgs <= n && !Exceeds(n, m.maxArgs)
  {
    if Exceeds(n, m.maxArgs) then TooManyArgs
    else if n < m.minArgs then TooFewArgs
    else ExactArgs
  }

  // ---------------------------------------------------------------------
  // The staged builder interfaces
  // ---------------------------------------------------------------------

  /** The static type a builder is seen through. */
  datatype Stage = RequiredArgStage | RequiredNArgsStage | OptionalArgStage | OptionalNArgsStage | BuildOnly

  datatype Op = AddRequiredArg | AddRequiredNArgs | AddOptionalArg | AddOptionalNArgs

  /** Each interface extends the next one in the chain, so a stage offers its
      own operation and every operation further down the chain. */
  function StageRank(st: Stage): nat {
    match st
    case RequiredArgStage => 4
    case RequiredNArgsStage => 3
    case OptionalArgStage => 2
    case OptionalNArgsStage => 1
    case BuildOnly => 0
  }

  function OpRank(op: Op): nat {
    match op
    case AddRequiredArg => 4
    case AddRequiredNArgs => 3
    case AddOptionalArg => 2
    case AddOptionalNArgs => 1
  }

  predicate Offers(st: Stage, op: Op) {
    OpRank(op) <= StageRank(st)
  }

  /** The declared return type of each operation. */
  function After(op: Op): Stage {
    match op
    case AddRequiredArg => RequiredArgStage
    case AddRequiredNArgs => BuildOnly
    case AddOptionalArg => OptionalArgStage
    case AddOptionalNArgs => BuildOnly
  }

  predicate IsRequired(op: Op) {
    op == AddRequiredArg || op == AddRequiredNArgs
  }

  predicate IsVariadic(op: Op) {
    op == AddRequiredNArgs || op == AddOptionalNArgs
  }

  /** The operation sequences the interface chain lets a caller write from
      stage `st`. */
  predicate Accepts(st: Stage, ops: seq<Op>)
    decreases |ops|
  {
    ops == [] || (Offers(st, ops[0]) && Accepts(After(ops[0]), ops[1..]))
  }

  /** Declaration order: no parameter follows a variadic one, and a required
      parameter is preceded only by plain required ones. */
  predicate DeclarationOrder(ops: seq<Op>) {
    forall i, j :: 0 <= i < j < |ops| ==> MayPrecede(ops[i], ops[j])
  }

  /** `a` may be declared somewhere before `b`. */
  predicate MayPrecede(a: Op, b: Op) {
    !IsVariadic(a) && (IsRequired(b) ==> a == AddRequiredArg)
  }

  /** The sequences accepted from a stage are exactly the ones in declaration
      order whose first operation that stage offers. From a fresh builder
      this is: required ones, then either one required variadic or optional
      ones followed by at most one optional variadic. */
  lemma AcceptsIff(st: Stage, ops: seq<Op>)
    ensures Accepts(st, ops) <==> DeclarationOrder(ops) && (|ops| > 0 ==> Offers(st, ops[0]))
  {
    if Accepts(st, ops) {
      AcceptedInOrder(st, ops);
    }
    if DeclarationOrder(ops) && (|ops| > 0 ==> Offers(st, ops[0])) {
      InOrderAccepted(st, ops);
    }
  }

  lemma {:induction false} AcceptedInOrder(st: Stage, ops: seq<Op>)
    requires Accepts(st, ops)
    ensures DeclarationOrder(ops)
    decreases |ops|
  {
    if |ops| > 0 {
      var rest := ops[1..];
      AcceptedInOrder(After(ops[0]), rest);
      forall i, j | 0 <= i < j < |ops|
        ensures MayPrecede(ops[i], ops[j])
      {
        if i > 0 {
          assert rest[i - 1] == ops[i] && rest[j - 1] == ops[j];
        } else {
          assert Offers(After(ops[0]), rest[0]) && rest[j - 1] == ops[j];
          if j > 1 {
            assert rest[0] == ops[1];
            assert IsRequired(ops[j]) ==> rest[0] == AddRequiredArg;
          }
        }
      }
    }
  }

  lemma {:induction false} InOrderAccepted(st: Stage, ops: seq<Op>)
    requires DeclarationOrder(ops) && (|ops| > 0 ==> Offers(st, ops[0]))
    ensures Accepts(st, ops)
    decreases |ops|
  {
    if |ops| > 0 {
      var rest := ops[1..];
      OrderedTail(ops);
      if |rest| > 0 {
        assert rest[0] == ops[1];
        assert !IsVariadic(ops[0]) && (IsRequired(ops[1]) ==> ops[0] == AddRequiredArg);
      }
      InOrderAccepted(After(ops[0]), rest);
    }
  }

  lemma OrderedTail(ops: seq<Op>)
    requires |ops| > 0 && DeclarationOrder(ops)
    ensures DeclarationOrder(ops[1..])
  {
    var rest := ops[1..];
    forall i, j | 0 <= i < j < |rest|
      ensures MayPrecede(rest[i], rest[j])
    {
      assert rest[i] == ops[i + 1] && rest[j] == ops[j + 1];
    }
  }

  /** A fresh builder offers all four operations and `build`. */
  lemma FreshOffersAll(op: Op)
    ensures Offers(RequiredArgStage, op)
  {
  }

  /** A required parameter can never follow an optional one, and nothing
      follows a variadic one. */
  lemma NoRequiredAfterOptional(ops: seq<Op>)
    requires Accepts(RequiredArgStage, ops)
    ensures forall i, j :: 0 <= i < j < |ops| && ops[i] == AddOptionalArg ==> !IsRequired(ops[j])
    ensures forall i :: 0 <= i < |ops| - 1 ==> !IsVariadic(ops[i])
  {
    AcceptsIff(RequiredArgStage, ops);
  }

  // ---------------------------------------------------------------------
  // Metadata derived from declared parameters
  // ---------------------------------------------------------------------

  function OpOf(p: Parameter): Op {
    if p.required && !p.variadic then AddRequiredArg
    else if p.required then AddRequiredNArgs
    else if !p.variadic then AddOptionalArg
    else AddOptionalNArgs
  }

  function Ops(params: seq<Parameter>): (r: seq<Op>)
    ensures |r| == |params|
    ensures forall i :: 0 <= i < |params| ==> r[i] == OpOf(params[i])
  {
    seq(|params|, i requires 0 <= i < |params| => OpOf(params[i]))
  }

  function CountRequired(params: seq<Parameter>): (n: nat)
    ensures n <= |params|
  {
    if params == [] then 0
    else CountRequired(params[..|params| - 1]) + (if params[|params| - 1].required then 1 else 0)
  }

  predicate HasVariadic(params: seq<Parameter>) {
    exists i :: 0 <= i < |params| && params[i].variadic
  }

  /** min is the number of required parameters; max is the number of
      parameters, or unbounded when one of them is variadic. */
  predicate Consistent(m: Metadata) {
    && m.minArgs == CountRequired(m.params)
    && m.maxArgs == (if HasVariadic(m.params) then Unbounded else AtMost(|m.params|))
    && DeclarationOrder(Ops(m.params))
  }

  /** For consistent metadata the count check accepts exactly the counts
      between the number of required parameters and the number of
      parameters, with no upper bound once a parameter is variadic. */
  lemma ExactIff(m: Metadata, n: nat)
    requires Consistent(m)
    ensures ValidateCount(m, n) == ExactArgs <==>
      CountRequired(m.params) <= n && (HasVariadic(m.params) || n <= |m.params|)
  {
  }

  /** The stage a builder is seen through after declaring `params`. */
  function StageOf(params: seq<Parameter>): Stage {
    if params == [] then RequiredArgStage else After(OpOf(params[|params| - 1]))
  }

  /** Whatever the current stage offers keeps the declaration order. */
  lemma {:induction false} StageKeepsOrder(params: seq<Parameter>, op: Op)
    requires DeclarationOrder(Ops(params)) && Offers(StageOf(params), op)
    ensures DeclarationOrder(Ops(params) + [op])
  {
    var ops := Ops(params);
    var ext := ops + [op];
    if |params| > 0 {
      var last := |params| - 1;
      var l := ops[last];
      assert l == OpOf(params[last]);
      assert !IsVariadic(l) && (IsRequired(op) ==> l == AddRequiredArg);
      forall i, j | 0 <= i < j < |ext|
        ensures MayPrecede(ext[i], ext[j])
      {
        assert ext[i] == ops[i];
        if j < |ops| {
          assert ext[j] == ops[j];
        } else if i < last {
          assert !IsVariadic(ops[i]) && (IsRequired(l) ==> ops[i] == AddRequiredArg);
        }
      }
    }
  }

  /** The maximum is bounded exactly while a non-variadic operation is still
      offered: it is never incremented after becoming unbounded. */
  lemma {:induction false} BoundedWhileOffered(params: seq<Parameter>)
    requires DeclarationOrder(Ops(params))
    ensures Offers(StageOf(params), AddOptionalArg) ==> !HasVariadic(params)
  {
    if Offers(StageOf(params), AddOptionalArg) {
      var last := |params| - 1;
      forall i | 0 <= i < |params| ensures !params[i].variadic {
        if i < last {
          assert !IsVariadic(Ops(params)[i]);
        } else {
          assert Ops(params)[last] == OpOf(params[last]);
        }
      }
    }
  }

  /** The metadata after one more parameter is declared: a required one
      raises the minimum, a variadic one makes the maximum unbounded and any
      other raises a bounded maximum by one. */
  function Declare(m: Metadata, p: Parameter): Metadata {
    Metadata(m.name, m.params + [p], m.minArgs + (if p.required then 1 else 0),
      if p.variadic then Unbounded
      else match m.maxArgs
        case AtMost(n) => AtMost(n + 1)
        case Unbounded => Unbounded)
  }

  /** Declaring whatever the current stage offers keeps the counters
      consistent with the parameters. */
  lemma DeclareKeepsConsistent(m: Metadata, p: Parameter)
    requires Consistent(m) && Offers(StageOf(m.params), OpOf(p))
    ensures Consistent(Declare(m, p))
    ensures !p.variadic ==> m.maxArgs.AtMost?
  {
    var params := m.params + [p];
    StageKeepsOrder(m.params, OpOf(p));
    BoundedWhileOffered(m.params);
    assert Ops(params) == Ops(m.params) + [OpOf(p)];
    assert params[..|params| - 1] == m.params;
    if p.variadic {
      assert params[|m.params|].variadic;
    } else {
      forall i | 0 <= i < |params| ensures !params[i].variadic {
        if i < |m.params| { assert params[i] == m.params[i]; }
      }
    }
  }

  /** The mutable `Metadata.Builder`. */
  class MetadataBuilder {
    const name: string
    var params: seq<Parameter>
    var minArgs: nat
    var maxArgs: MaxCount

    /** What `build` would return now. */
    function Snapshot(): Metadata
      reads this
    {
      Metadata(name, params, minArgs, maxArgs)
    }

    ghost predicate Valid()
      reads this
    {
      Consistent(Snapshot())
    }

    /** The interface the builder is currently seen through. */
    function CurrentStage(): Stage
      reads this
    {
      StageOf(params)
    }

    constructor(name: string)
      ensures Valid()
      ensures this.name == name && params == [] && minArgs == 0 && maxArgs == AtMost(0)
    {
      this.name := name;
      params := [];
      minArgs := 0;
      maxArgs := AtMost(0);
    }

    /** `addRequiredArg`: min and max both grow by one. */
    method AddRequiredArg(pname: string, source: Source)
      requires Valid() && Offers(CurrentStage(), Op.AddRequiredArg)
      modifies this
      ensures Valid() && CurrentStage() == RequiredArgStage
      ensures Snapshot() == Declare(old(Snapshot()), Parameter(pname, source, true, false))
      ensures old(maxArgs).AtMost? && maxArgs == AtMost(old(maxArgs).n + 1)
      ensures minArgs == old(minArgs) + 1
    {
      DeclareKeepsConsistent(Snapshot(), Parameter(pname, source, true, false));
      params := params + [Parameter(pname, source, true, false)];
      maxArgs := AtMost(maxArgs.n + 1);
      minArgs := minArgs + 1;
    }

    /** `addRequiredNArgs`: min grows by one and max becomes unbounded. */
    method AddRequiredNArgs(pname: string, source: Source)
      requires Valid() && Offers(CurrentStage(), Op.AddRequiredNArgs)
      modifies this
      ensures Valid() && CurrentStage() == BuildOnly
      ensures Snapshot() == Declare(old(Snapshot()), Parameter(pname, source, true, true))
      ensures maxArgs == Unbounded && minArgs == old(minArgs) + 1
    {
      DeclareKeepsConsistent(Snapshot(), Parameter(pname, source, true, true));
      params := params + [Parameter(pname, source, true, true)];
      maxArgs := Unbounded;
      minArgs := minArgs + 1;
    }

    /** `addOptionalArg`: only max grows by one. */
    method AddOptionalArg(pname: string, source: Source)
      requires Valid() && Offers(CurrentStage(), Op.AddOptionalArg)
      modifies this
      ensures Valid() && CurrentStage() == OptionalArgStage
      ensures Snapshot() == Declare(old(Snapshot()), Parameter(pname, source, false, false))
      ensures old(maxArgs).AtMost? && maxArgs == AtMost(old(maxArgs).n + 1)
      ensures minArgs == old(minArgs)
    {
      DeclareKeepsConsistent(Snapshot(), Parameter(pname, source, false, false));
      params := params + [Parameter(pname, source, false, false)];
      maxArgs := AtMost(maxArgs.n + 1);
    }

    /** `addOptionalNArgs`: max becomes unbounded, min is unchanged. */
    method AddOptionalNArgs(pname: string, source: Source)
      requires Valid() && Offers(CurrentStage(), Op.AddOptionalNArgs)
      modifies this
      ensures Valid() && CurrentStage() == BuildOnly
      ensures Snapshot() == Declare(old(Snapshot()), Parameter(pname, source, false, true))
      ensures maxArgs == Unbounded && minArgs == old(minArgs)
    {
      DeclareKeepsConsistent(Snapshot(), Parameter(pname, source, false, true));
      params := params + [Parameter(pname, source, false, true)];
      maxArgs := Unbounded;
    }

    /** `build`: a snapshot of the declared parameters and counters. */
    method Build() returns (m: Metadata)
      requires Valid()
      ensures m == Metadata(name, params, minArgs, maxArgs)
      ensures Consistent(m) && m.minArgs <= |m.params|
    {
      m := Metadata(name, params, minArgs, maxArgs);
    }
  }

  /** One required and one optional parameter: 0 arguments are too few, 1 or
      2 are exact, 3 are too many. */
  method ExampleRequiredOptional() returns (m: Metadata)
    ensures ValidateCount(m, 0) == TooFewArgs
    ensures ValidateCount(m, 1) == ExactArgs && ValidateCount(m, 2) == ExactArgs
    ensures ValidateCount(m, 3) == TooManyArgs
  {
    var b := new MetadataBuilder("cp");
    b.AddRequiredArg("source", Files);
    b.AddOptionalArg("target", Files);
    m := b.Build();
  }

  /** A single required variadic parameter: 0 arguments are too few and every
      count from 1 on is exact. */
  method ExampleRequiredVariadic() returns (m: Metadata)
    ensures ValidateCount(m, 0) == TooFewArgs
    ensures forall n: nat :: n >= 1 ==> ValidateCount(m, n) == ExactArgs
  {
    var b := new MetadataBuilder("echo");
    b.AddRequiredNArgs("text", Empty);
    m := b.Build();
  }
}
