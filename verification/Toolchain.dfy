/** From names to a running program: resolution, compilation and interpretation together. */
module Toolchain {
  import opened Basics
  import opened Lang
  import opened Machine
  import opened Coding
  import opened Relation
  import opened Emission
  import opened Emitter
  import opened Acceptance
  import opened Correctness
  import opened Interpreters
  import opened Named
  import opened Resolve
  import opened Closures
  import opened Conversion
  import opened Preservation
  import opened LexicalAnalysers
  import opened Definedness
  import opened Ranges
  import opened Operations
  import opened Naming
  import opened Resolvability

  const NO_NAMES: Context := Context([], [])
  const NO_VARIABLES: NEnv := Env([], [])

  /** The meaning of a program text: its names stand for variables, captured by value. */
  function TextMeaning(w: World, e: NExpr, fuel: nat): NResult<NOperand> {
    NEval(w, e, NO_NAMES, NO_VARIABLES, Push, fuel)
  }

  /** Resolution preserves the meaning of whole programs. */
  lemma ResolutionPreserves(w: World, e: NExpr, fuel: nat)
    requires ResolveExpr(w, e, []).Resolved?
    ensures SameResult(w, [], NO_NAMES, TextMeaning(w, e, fuel),
                       Eval(w.values, ResolveExpr(w, e, []).value, NO_SCOPES, Push, fuel))
  {
    hide ResolveExpr, NEval, Eval, SameResult;
    var r := ResolveExpr(w, e, []);
    ExprSteady(w, e, []);
    assert ContextOf([], NO_NAMES);
    assert SameEnv(w, [], NO_NAMES, NO_VARIABLES, NO_SCOPES);
    Preserve(w, e, [], [], NO_NAMES, r.value, r.scopes, NO_VARIABLES, NO_SCOPES, Push, fuel);
  }

  // The machine stopped with the value `v` of the text.
  ghost predicate HaltsWithText(w: World, p: Program, o: Outcome, v: NV) {
    exists u: V :: Same(w, v, u) && HaltsWith(p, o, u)
  }

  /** What a run of the compiled text says about its meaning; the meaning of a safe text is
      defined. */
  ghost predicate Faithful(w: World, p: Program, o: Outcome, r: NResult<NOperand>, safe: bool) {
    match r
    case Done(x, env) => Readable(env, x) && HaltsWithText(w, p, o, Read(env, x))
    case Error => o == Fault
    case Timeout => false
    case Undefined => !safe
  }

  /** Every global has a value, and no block that is to leave a value can leave a place of its own
      scope. */
  predicate SafeText(w: World, e: Expr) {
    Valued(w) && Tidy(e, false) && Accepted(e, false)
  }

  lemma SafeResolved(w: World, e: NExpr)
    requires ResolveExpr(w, e, []).Resolved?
    ensures SafeText(w, ResolveExpr(w, e, []).value) ==> Correctness.Safe(ResolveExpr(w, e, []).value, |w.values|)
  {
    hide ResolveExpr, Ranged, Tidy, Accepted;
    if Valued(w) { ResolvedInRange(w, e); }
  }

  lemma TextStops(w: World, e: NExpr, p: Program, first: nat, n: nat)
    requires ResolveExpr(w, e, []).Resolved? && p.globals == w.values
    requires Compiled(p, ResolveExpr(w, e, []).value, first) && !Start(p, first, n).Next?
    ensures Faithful(w, p, Start(p, first, n), TextMeaning(w, e, n + 1), SafeText(w, ResolveExpr(w, e, []).value))
  {
    hide ResolveExpr, NEval, Eval, Run, Compiled, HaltsWith, Same, SafeText, Correctness.Safe;
    var r := ResolveExpr(w, e, []).value;
    SafeResolved(w, e);
    ResolutionPreserves(w, e, n + 1);
    MachineStops(p, r, first, n);
    var x, y := TextMeaning(w, e, n + 1), Meaning(p, r, n + 1);
    if x.Done? {
      SameRead(w, [], NO_NAMES, x.env, y.env, x.value, y.value);
      assert Same(w, Read(x.env, x.value), Read(y.env, y.value));
    }
  }

  /** Functions are related by their code; numbers and truth values are what they are. */
  lemma SameData(w: World, p: Program, o: Outcome, v: NV)
    requires HaltsWithText(w, p, o, v)
    ensures |o.m.values| == 1 && LocOk(o.m, o.m.values[0])
    ensures v.VInt? ==> At(o.m, o.m.values[0]).val == VInt(v.n)
    ensures v.VBool? ==> At(o.m, o.m.values[0]).val == VBool(v.b)
  {
  }

  ghost predicate EndsWithText(w: World, p: Program, o: Outcome, v: Maybe<NV>) {
    if v.None? then o == Fault else HaltsWithText(w, p, o, v.value)
  }

  /** The run of an operator applies it, in the sense of `Operations`, to the values of its operands. */
  ghost predicate AppliesOperator(w: World, p: Program, e: NExpr, o: Outcome, fuel: nat) {
    match e
    case NUnary(op, e1) =>
      var r := TextMeaning(w, e1, fuel);
      r.Done? && Readable(r.env, r.value) ==>
        exists v | UnaryMeans(op, Read(r.env, r.value), v) :: EndsWithText(w, p, o, v)
    case NBinary(op, e1, e2) =>
      var l := TextMeaning(w, e1, fuel);
      l.Done? ==>
        var r := NEval(w, e2, NO_NAMES, l.env, Push, fuel);
        r.Done? && Readable(r.env, l.value) && Readable(r.env, r.value) ==>
          exists v | BinaryMeans(op, Read(r.env, l.value), Read(r.env, r.value), v) :: EndsWithText(w, p, o, v)
    case _ => true
  }

  lemma OperatorApplied(w: World, p: Program, e: NExpr, o: Outcome, fuel: nat, safe: bool)
    requires Faithful(w, p, o, TextMeaning(w, e, fuel), safe)
    ensures AppliesOperator(w, p, e, o, fuel)
  {
    hide NEval, HaltsWithText, BinaryMeans, UnaryMeans;
    if e.NUnary? {
      NUnaryEvaluated(w, e, NO_NAMES, NO_VARIABLES, Push, fuel);
      var r := TextMeaning(w, e.operand, fuel);
      if r.Done? && Readable(r.env, r.value) {
        var v :| UnaryMeans(e.uop, Read(r.env, r.value), v) && Delivered(TextMeaning(w, e, fuel), v, r.env, Push);
        assert EndsWithText(w, p, o, v);
      }
    } else if e.NBinary? {
      NBinaryEvaluated(w, e, NO_NAMES, NO_VARIABLES, Push, fuel);
      var l := TextMeaning(w, e.lhs, fuel);
      if l.Done? {
        var r := NEval(w, e.rhs, NO_NAMES, l.env, Push, fuel);
        if r.Done? && Readable(r.env, l.value) && Readable(r.env, r.value) {
          var v :| BinaryMeans(e.bop, Read(r.env, l.value), Read(r.env, r.value), v)
            && Delivered(TextMeaning(w, e, fuel), v, r.env, Push);
          assert EndsWithText(w, p, o, v);
        }
      }
    }
  }

  datatype Status = Rejected | NotCompiled(why: Trouble) | Ran

  /** The whole way from a text to its value. Where the accounting of the compiler is right for the
      resolved text, the result is faithful to the meaning of the names. */
  method RunText(e: NExpr, w: World, budget: nat) returns (status: Status, f: Flow, m: M, ghost p: Program)
    ensures status.Rejected? <==> !WellNamed(w, e)
    ensures WellNamed(w, e) <==> ResolveExpr(w, e, []).Resolved?
    ensures status.Ran? ==> Reached(f, m) == Start(p, 1, budget) && p.globals == w.values
    ensures status == NotCompiled(NeedsFinally) ==> !Accepted(ResolveExpr(w, e, []).value, false)
    ensures status == NotCompiled(Undecided) ==> !Decided(ResolveExpr(w, e, []).value)
    ensures status.Ran? ==> Accepted(ResolveExpr(w, e, []).value, false) && Decided(ResolveExpr(w, e, []).value)
    ensures ResolveExpr(w, e, []).Resolved? && Counts(ResolveExpr(w, e, []).value) ==>
      && (status.Ran? <==> Accepted(ResolveExpr(w, e, []).value, false))
      && (status.Ran? && !f.Goto? ==>
            Faithful(w, p, Reached(f, m), TextMeaning(w, e, budget + 1), SafeText(w, ResolveExpr(w, e, []).value))
            && AppliesOperator(w, p, e, Reached(f, m), budget + 1))
  {
    hide ResolveExpr, NEval, Run, Compiled, Faithful, Sound, Accepted, Decided, SafeText, CompilesTo, AppliesOperator;
    hide WellNamed;
    ResolvedExactly(w, e);
    f, m, p := Finished, EMPTY, Program([], []);
    var analyser := new LexicalAnalyser(w);
    NothingOpen(analyser);
    var r := analyser.ResolveNames(e);
    if r.None? { return Status.Rejected, f, m, p; }
    ghost var asserted;
    var trouble, program, first;
    trouble, program, first, asserted := Compile(r.value, w.values);
    if trouble.Some? { return NotCompiled(trouble.value), f, m, p; }
    p := program;
    var interpreter := new Interpreter(program.code, w.values);
    f := interpreter.InterpretOpcodes(first, budget);
    m := interpreter.State();
    if !f.Goto? && Counts(r.value) {
      TextStops(w, e, p, first, budget);
      OperatorApplied(w, p, e, Reached(f, m), budget + 1, SafeText(w, r.value));
    }
    status := Ran;
  }

  // The accounting of the compiler is right for an expression compiled for its value.
  predicate Counts(e: Expr) {
    Sound(e, false, 0, 0) && Yields(e)
  }

  lemma NothingOpen(analyser: LexicalAnalyser)
    requires analyser.scopes == []
    ensures analyser.State() == []
  {
  }
}
