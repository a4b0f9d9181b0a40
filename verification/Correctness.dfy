/** The main results about the compiler: a compiled program halts with the value of its source,
    reports an error, or goes on, exactly as the source evaluates. */
module Correctness {
  import opened Basics
  import opened Lang
  import opened Machine
  import opened Coding
  import opened Relation
  import opened Steps
  import opened Simulation
  import opened Emission
  import opened Emitter
  import opened Acceptance
  import opened Worklist
  import opened OpcodePools
  import Definedness

  /** The program consists of the compiled code of `e` at `first`. */
  ghost predicate Compiled(p: Program, e: Expr, first: nat) {
    && Coded(p.code, {}, first, e, false) && OpAt(p.code, first + Len(e, false), EndCode)
    && Sound(e, false, 0, 0) && Yields(e)
  }

  const NO_SCOPES: Env := Env([], [])

  function Start(p: Program, first: nat, n: nat): Outcome {
    Run(p.code, p.globals, first, EMPTY, n)
  }

  function Meaning(p: Program, e: Expr, fuel: nat): Result<Operand> {
    Eval(p.globals, e, NO_SCOPES, Push, fuel)
  }

  // The machine stopped with one value, that of `v`.
  ghost predicate HaltsWith(p: Program, o: Outcome, v: V) {
    && o.Halted? && |o.m.values| == 1 && LocOk(o.m, o.m.values[0])
    && ValueRel(p.code, v, At(o.m, o.m.values[0]).val)
    && o.m.(values := [], temps := []) == EMPTY
  }

  lemma Whole(p: Program, e: Expr, first: nat, fuel: nat) returns (s: Sim)
    requires Compiled(p, e, first)
    ensures Simulated(p, first, NO_SCOPES, EMPTY, Push, true, Meaning(p, e, fuel), fuel, first + Len(e, false), s)
  {
    hide Coded, Sound, Len, Run, Eval, SimulatedFrom;
    assert Ready(p, e, first, NO_SCOPES, EMPTY, Push, 0, 0);
    s := Simulate(p, e, first, NO_SCOPES, EMPTY, Push, fuel, 0, 0);
  }

  /** A program whose evaluation ends halts with its value. */
  lemma ProgramHalts(p: Program, e: Expr, first: nat, fuel: nat) returns (n: nat)
    requires Compiled(p, e, first) && Meaning(p, e, fuel).Done?
    ensures var r := Meaning(p, e, fuel);
      Readable(r.env, r.value) && HaltsWith(p, Start(p, first, n), Read(r.env, r.value))
  {
    hide Coded, Sound, Len, Run, Eval, SimulatedFrom, Step, ValueRel, Rel, Keeps;
    var s := Whole(p, e, first, fuel);
    var r, end := Meaning(p, e, fuel), first + Len(e, false);
    OperandLeft(p, first, NO_SCOPES, EMPTY, r, fuel, end, s);
    NoMembers(p.code, r.env, s.d);
    var m := After(EMPTY, s);
    ThenStep(p, first, EMPTY, s.n, end, m);
    StepPlain(p, end, m, EndCode);
    SameLocation(With(EMPTY, s.d), m, s.x);
    assert m.values == [s.x];
    n := s.n + 1;
  }

  lemma NoMembers(code: seq<Op>, env: Env, d: Data)
    requires Keeps(code, EMPTY.scopes, EMPTY.closures, NO_SCOPES, DataOf(EMPTY), env, d)
    ensures d.members == []
  {
    hide Rel;
  }

  /** A program whose evaluation fails reports an error. */
  lemma ProgramFaults(p: Program, e: Expr, first: nat, fuel: nat) returns (n: nat)
    requires Compiled(p, e, first) && Meaning(p, e, fuel).Error?
    ensures Start(p, first, n) == Fault
  {
    hide Coded, Sound, Len, Run, Eval, Step, ValueRel, Rel, Keeps;
    var s := Whole(p, e, first, fuel);
    n := s.n;
  }

  /** A program whose evaluation has not ended after `fuel` nested iterations and calls is
      still running after as many instructions. */
  lemma ProgramGoesOn(p: Program, e: Expr, first: nat, fuel: nat) returns (n: nat)
    requires Compiled(p, e, first) && Meaning(p, e, fuel).Timeout?
    ensures n >= fuel && Start(p, first, n).Next?
  {
    hide Coded, Sound, Len, Run, Eval, Step, ValueRel, Rel, Keeps;
    var s := Whole(p, e, first, fuel);
    n := s.n;
  }

  // Once stopped, the machine stays stopped.
  lemma {:induction false} StaysStopped(code: seq<Op>, g: seq<Global>, pc: nat, m: M, n: nat, k: nat)
    requires !Run(code, g, pc, m, n).Next? && n <= k
    ensures Run(code, g, pc, m, k) == Run(code, g, pc, m, n)
    decreases n
  {
    hide Step;
    if n > 0 {
      var s := Step(code, g, pc, m);
      if s.Next? {
        StaysStopped(code, g, s.pc, s.m, n - 1, k - 1);
      }
    }
  }

  lemma SameStop(p: Program, first: nat, n: nat, k: nat)
    requires !Start(p, first, n).Next? && !Start(p, first, k).Next?
    ensures Start(p, first, n) == Start(p, first, k)
  {
    hide Run;
    if n <= k {
      StaysStopped(p.code, p.globals, first, EMPTY, n, k);
    } else {
      StaysStopped(p.code, p.globals, first, EMPTY, k, n);
    }
  }

  /** All addresses are in range, everything is accepted, and no block that is to leave a value
      can leave a place of its own scope. */
  predicate Safe(e: Expr, globals: nat) {
    Definedness.Safe(e, globals, Definedness.Shape([], 0), false)
  }

  /** Conversely, when the machine stops, the evaluation ends the same way; it is undefined only
      for an expression that is not safe. So a safe program runs forever exactly when no bound
      suffices for its evaluation. */
  lemma MachineStops(p: Program, e: Expr, first: nat, n: nat)
    requires Compiled(p, e, first) && !Start(p, first, n).Next?
    ensures match Meaning(p, e, n + 1)
      case Done(o, env) => Readable(env, o) && HaltsWith(p, Start(p, first, n), Read(env, o))
      case Error => Start(p, first, n) == Fault
      case Timeout => false
      case Undefined => !Safe(e, |p.globals|)
  {
    hide Coded, Sound, Len, Run, Eval, HaltsWith, Definedness.Safe;
    match Meaning(p, e, n + 1)
    case Done(o, env) =>
      var k := ProgramHalts(p, e, first, n + 1);
      HaltsIsStop(p, Start(p, first, k), Read(env, o));
      SameStop(p, first, n, k);
    case Error =>
      var k := ProgramFaults(p, e, first, n + 1);
      SameStop(p, first, n, k);
    case Timeout =>
      var k := ProgramGoesOn(p, e, first, n + 1);
      StaysStopped(p.code, p.globals, first, EMPTY, n, k);
      assert false;
    case Undefined => SafeDefined(p, e, n + 1);
  }

  lemma SafeDefined(p: Program, e: Expr, fuel: nat)
    ensures Safe(e, |p.globals|) ==> !Meaning(p, e, fuel).Undefined?
  {
    hide Eval, Definedness.Safe;
    if Safe(e, |p.globals|) { Definedness.AlwaysDefined(p.globals, e, fuel); }
  }

  lemma HaltsIsStop(p: Program, o: Outcome, v: V)
    requires HaltsWith(p, o, v)
    ensures !o.Next?
  {
  }

  /** In a safe program no internal assertion of the interpreter is ever violated. */
  lemma NeverStuck(p: Program, e: Expr, first: nat, n: nat)
    requires Compiled(p, e, first) && Safe(e, |p.globals|)
    ensures Start(p, first, n) != Stuck
  {
    hide Coded, Sound, Len, Run, Eval, Definedness.Safe;
    if Start(p, first, n) == Stuck {
      MachineStops(p, e, first, n);
      assert false;
    }
  }

  /** Every expression is compiled unless a loop stands where a value is stored or a block ends in a
      definition. Where the accounting is right for it, no assertion of the compiler fails, and the
      result is such a program. */
  method Compile(e: Expr, globals: seq<Global>)
    returns (trouble: Maybe<Trouble>, p: Program, first: nat, ghost asserted: bool)
    ensures p.globals == globals && first == 1
    ensures CompilesTo(e, trouble, p.code, asserted)
    ensures trouble.None? <==> Accepted(e, false) && Decided(e)
    ensures trouble == Some(NeedsFinally) ==> !Accepted(e, false)
    ensures trouble == Some(Undecided) ==> !Decided(e)
    ensures Sound(e, false, 0, 0) && Yields(e) ==>
      && (trouble.None? <==> Accepted(e, false)) && (trouble.None? ==> asserted && Compiled(p, e, first))
  {
    hide Coded, Sound, Len, Accepted, Decided, ValueFrom, ExprFrom, Tiled, Kept;
    var pool := new OpcodePool();
    NewHoles(pool.State());
    ghost var placed;
    trouble, first, placed := pool.OpcodesFromValue(e);
    p, asserted := Program(pool.codes, globals), pool.asserted;
  }

  // What the compiler emits for `e` into an empty pool.
  ghost predicate CompilesTo(e: Expr, trouble: Maybe<Trouble>, code: seq<Op>, asserted: bool) {
    var p := Pool([EndCode], [], 0, 0, 0, 0, true);
    Holes(p) &&
      match ValueFrom(p, e)
      case Going(q) => trouble.None? && q.codes == code && q.asserted == asserted
      case Stopped(why) => trouble == Some(why)
  }

  lemma NewHoles(p: Pool)
    requires p == Pool([EndCode], [], 0, 0, 0, 0, true)
    ensures Holes(p)
  {
  }
}
