/** Compiling an expression and running what was emitted. */
module Evaluation {
  import opened Basics
  import opened Lang
  import opened Machine
  import opened Coding
  import opened Relation
  import opened Emission
  import opened Emitter
  import opened Acceptance
  import opened Correctness
  import opened Interpreters
  import opened Operations

  // What a run says about the evaluation of the expression it comes from.
  ghost predicate RunsAs(p: Program, e: Expr, o: Outcome, budget: nat) {
    match Meaning(p, e, budget + 1)
    case Done(v, env) => Readable(env, v) && HaltsWith(p, o, Read(env, v))
    case Error => o == Fault
    case Timeout => false
    case Undefined => !Safe(e, |p.globals|)
  }

  // The run ends with this value, or with an error if there is none.
  ghost predicate EndsWith(p: Program, o: Outcome, v: Maybe<V>) {
    if v.None? then o == Fault else HaltsWith(p, o, v.value)
  }

  /** The run of an operator applies it, in the sense of `Operations`, to the values of its operands. */
  ghost predicate AppliesOperator(p: Program, e: Expr, o: Outcome, fuel: nat) {
    match e
    case Unary(op, e1) =>
      var r := Meaning(p, e1, fuel);
      r.Done? && Readable(r.env, r.value) ==>
        exists v | UnaryMeans(op, Read(r.env, r.value), v) :: EndsWith(p, o, v)
    case Binary(op, e1, e2) =>
      var l := Meaning(p, e1, fuel);
      l.Done? ==>
        var r := Eval(p.globals, e2, l.env, Push, fuel);
        r.Done? && Readable(r.env, l.value) && Readable(r.env, r.value) ==>
          exists v | BinaryMeans(op, Read(r.env, l.value), Read(r.env, r.value), v) :: EndsWith(p, o, v)
    case _ => true
  }

  lemma OperatorApplied(p: Program, e: Expr, o: Outcome, budget: nat)
    requires RunsAs(p, e, o, budget)
    ensures AppliesOperator(p, e, o, budget + 1)
  {
    hide Eval, HaltsWith, BinaryMeans, UnaryMeans, Safe;
    if e.Unary? {
      UnaryEvaluated(p.globals, e, NO_SCOPES, Push, budget + 1);
      var r := Meaning(p, e.operand, budget + 1);
      if r.Done? && Readable(r.env, r.value) {
        var v :| UnaryMeans(e.uop, Read(r.env, r.value), v) && Delivered(Meaning(p, e, budget + 1), v, r.env, Push);
        assert EndsWith(p, o, v);
      }
    } else if e.Binary? {
      BinaryEvaluated(p.globals, e, NO_SCOPES, Push, budget + 1);
      var l := Meaning(p, e.lhs, budget + 1);
      if l.Done? {
        var r := Eval(p.globals, e.rhs, l.env, Push, budget + 1);
        if r.Done? && Readable(r.env, l.value) && Readable(r.env, r.value) {
          var v :| BinaryMeans(e.bop, Read(r.env, l.value), Read(r.env, r.value), v)
            && Delivered(Meaning(p, e, budget + 1), v, r.env, Push);
          assert EndsWith(p, o, v);
        }
      }
    }
  }

  /** Compiling and running an expression: what was emitted is run, for every expression. Where the
      accounting of the compiler is right, that gives the value of the expression: with enough
      instructions the run ends as the evaluation does, and it never ends otherwise. */
  method EvaluateExpression(e: Expr, globals: seq<Global>, budget: nat)
    returns (trouble: Maybe<Trouble>, p: Program, f: Flow, m: M)
    ensures trouble.None? <==> Accepted(e, false) && Decided(e)
    ensures exists asserted :: CompilesTo(e, trouble, p.code, asserted)
    ensures p.globals == globals && (trouble.None? ==> Reached(f, m) == Start(p, 1, budget))
    ensures Sound(e, false, 0, 0) && Yields(e) ==>
      && (trouble.None? <==> Accepted(e, false))
      && (trouble.None? && !f.Goto? ==>
            RunsAs(p, e, Reached(f, m), budget) && AppliesOperator(p, e, Reached(f, m), budget + 1))
  {
    hide Sound, Accepted, Decided, Run, Eval, HaltsWith, Coded, Len, Safe, CompilesTo, AppliesOperator;
    var first;
    ghost var asserted;
    trouble, p, first, asserted := Compile(e, globals);
    f, m := Finished, EMPTY;
    if trouble.None? {
      var interpreter := new Interpreter(p.code, globals);
      f := interpreter.InterpretOpcodes(first, budget);
      m := interpreter.State();
      if !f.Goto? && Sound(e, false, 0, 0) && Yields(e) {
        MachineStops(p, e, first, budget);
        OperatorApplied(p, e, Reached(f, m), budget);
      }
    }
  }
}
