/** How the interpreter ends on inputs the compiler gets wrong, and on a block whose value is a place
    of its own scope. */
module Failures {
  import opened Basics
  import opened Lang
  import opened Machine
  import opened Coding
  import opened Relation
  import opened Steps
  import opened Emission
  import opened Miscounting
  import opened Correctness
  import Definedness

  // ---------- A block inside another write context ----------

  /** The block in `x = { 1 }` does not fit inside a function body: the result of the function
      is stored too early, and the last instruction finds no write context. */
  lemma MiscountedBlock(m: M)
    requires m.scopes == [Scope(0, 0)] && m.members == [Cell(TInt, true, VInt(0))]
    requires m.temps == [Cell(TVoid, true, VVoid)] && m.ctxs == [TempLoc(0)] && m.values == []
    ensures !Sound(MISCOUNTED, true, 0, 1)
    ensures Eval([], MISCOUNTED, Env([[Cell(TInt, true, VInt(0))]], []), Into(TVoid), 0).Done?
    ensures Run(MISCOUNTED_CODE, [], 1, m, 7) == Stuck
  {
    hide Eval, Run;
    var e := MISCOUNTED;
    assert !Sound(e.value, true, 0, 2);
    MiscountedEval();
    MiscountedRun(m);
  }

  lemma MiscountedEval()
    ensures Eval([], MISCOUNTED, Env([[Cell(TInt, true, VInt(0))]], []), Into(TVoid), 0).Done?
  {
    var env := Env([[Cell(TInt, true, VInt(0))]], []);
    assert Eval([], Scoped(0, 0), env, Push, 0) == Done(Place(0, 0), env);
    var inner := PushScope(env);
    assert Eval([], Lit(1), inner, Into(TInt), 0) == Done(Temp(VInt(1)), inner);
    assert EvalItems([], Do(Lit(1), End), inner, Into(TInt), 0) == Done(Temp(VInt(1)), inner);
    assert PopScope(inner) == env;
    assert Eval([], Block(Do(Lit(1), End)), env, Into(TInt), 0) == Done(Temp(VInt(1)), env);
  }

  // The state before the block's superfluous instruction, and the end of the run from there.
  function MiscountedMiddle(m: M): M {
    m.(ctxs := [TempLoc(0)], scopes := [Scope(0, 0), Scope(1, 1)], members := [Cell(TInt, true, VInt(1))])
  }

  lemma MiscountedTarget(m: M)
    requires m.scopes == [Scope(0, 0)] && m.members == [Cell(TInt, true, VInt(0))]
    requires m.ctxs == [TempLoc(0)] && m.values == []
    ensures Step(MISCOUNTED_CODE, [], 1, m) == Next(2, m.(values := [Member(0)]))
    ensures Step(MISCOUNTED_CODE, [], 2, m.(values := [Member(0)])) == Next(3, m.(ctxs := [TempLoc(0), Member(0)]))
  {
    hide Handle;
    var p := Program(MISCOUNTED_CODE, []);
    StepInto(p, 1, m, LoadScope(false, 0, 0), false);
    var m1 := m.(values := [Member(0)]);
    StepPlain(p, 2, m1, SetWriteCtx);
    MiscountedHandlers(m, m1);
  }

  lemma MiscountedHandlers(m: M, m1: M)
    requires m.scopes == [Scope(0, 0)] && m.members == [Cell(TInt, true, VInt(0))]
    requires m.ctxs == [TempLoc(0)] && m.values == [] && m1 == m.(values := [Member(0)])
    ensures Handle([], LoadScope(false, 0, 0), 1, m, None) == Next(2, m1)
    ensures Handle([], SetWriteCtx, 2, m1, None) == Next(3, m.(ctxs := [TempLoc(0), Member(0)]))
  {
    assert Front(m1.values) == [];
  }

  lemma MiscountedValue(m: M, m2: M, m3: M)
    requires m.scopes == [Scope(0, 0)] && m.members == [Cell(TInt, true, VInt(0))]
    requires m.temps == [Cell(TVoid, true, VVoid)] && m.ctxs == [TempLoc(0)] && m.values == []
    requires m2 == m.(ctxs := [TempLoc(0), Member(0)]) && m3 == m2.(scopes := [Scope(0, 0), Scope(1, 1)])
    ensures Step(MISCOUNTED_CODE, [], 3, m2) == Next(4, m3)
    ensures Step(MISCOUNTED_CODE, [], 4, m3) == Next(5, MiscountedMiddle(m))
  {
    var p := Program(MISCOUNTED_CODE, []);
    hide Handle;
    StepPlain(p, 3, m2, ScopeBegin);
    BeginHandled(m2);
    LitStep(p, 4, m3, true, 1);
    assert Front(m3.ctxs) == [TempLoc(0)];
  }

  lemma BeginHandled(m: M)
    ensures Handle([], ScopeBegin, 3, m, None) == Next(4, m.(scopes := m.scopes + [Scope(|m.members|, |m.temps|)]))
  {
  }

  lemma MiscountedStart(m: M)
    requires m.scopes == [Scope(0, 0)] && m.members == [Cell(TInt, true, VInt(0))]
    requires m.temps == [Cell(TVoid, true, VVoid)] && m.ctxs == [TempLoc(0)] && m.values == []
    ensures Reaches(Program(MISCOUNTED_CODE, []), 1, m, 4, 5, MiscountedMiddle(m))
  {
    hide Eval, Run, Step;
    var code := MISCOUNTED_CODE;
    var m1 := m.(values := [Member(0)]);
    var m2 := m.(ctxs := [TempLoc(0), Member(0)]);
    var m3 := m2.(scopes := [Scope(0, 0), Scope(1, 1)]);
    MiscountedTarget(m);
    MiscountedValue(m, m2, m3);
    var p := Program(code, []);
    Here(p, 1, m);
    ThenStep(p, 1, m, 0, 1, m);
    ThenStep(p, 1, m, 1, 2, m1);
    ThenStep(p, 1, m, 2, 3, m2);
    ThenStep(p, 1, m, 3, 4, m3);
  }

  lemma MiscountedRun(m: M)
    requires m.scopes == [Scope(0, 0)] && m.members == [Cell(TInt, true, VInt(0))]
    requires m.temps == [Cell(TVoid, true, VVoid)] && m.ctxs == [TempLoc(0)] && m.values == []
    ensures Run(MISCOUNTED_CODE, [], 1, m, 7) == Stuck
  {
    hide Eval, Run;
    var code := MISCOUNTED_CODE;
    MiscountedStart(m);
    var m4 := MiscountedMiddle(m);
    var m5 := m4.(ctxs := []);
    var m6 := m5.(scopes := [Scope(0, 0)]);
    assert Step(code, [], 5, m4) == Next(6, m5);
    assert Step(code, [], 6, m5) == Next(7, m6);
    assert Step(code, [], 7, m6) == Stuck;
    var p := Program(code, []);
    ThenStep(p, 1, m, 4, 5, m4);
    ThenStep(p, 1, m, 5, 6, m5);
    ThenStep(p, 1, m, 6, 7, m6);
  }

  // ---------- Branches without a value ----------

  // The run is `a` instructions long at `pc1`; one more leads to `pc2`.
  lemma Onwards(p: Program, pc: nat, m: M, a: nat, pc1: nat, m1: M, pc2: nat, m2: M)
    requires Reaches(p, pc, m, a, pc1, m1) && Step(p.code, p.globals, pc1, m1) == Next(pc2, m2)
    ensures Reaches(p, pc, m, a + 1, pc2, m2)
  {
    hide Step, Run;
    ThenStep(p, pc, m, a, pc1, m1);
  }

  const ONE: Cell<nat> := Cell(TInt, true, VInt(1))

  // A scope with one variable, and what was used to compute its value.
  function Opened(x: Cell<nat>): M {
    EMPTY.(scopes := [Scope(0, 0)], members := [x], temps := [Cell(TInt, true, x.val)])
  }

  // `{ let x = n; ...` from `pc` on.
  lemma FirstVariable(p: Program, pc: nat, n: int, isMut: bool)
    requires OpAt(p.code, pc, ScopeBegin) && OpAt(p.code, pc + 1, ValueInteger(false, n))
    requires OpAt(p.code, pc + 2, ScopeAllocUntyped(isMut))
    ensures Reaches(p, pc, EMPTY, 3, pc + 3, Opened(Cell(TInt, isMut, VInt(n))))
  {
    hide Run, Step;
    var m1, m2 := EMPTY.(scopes := [Scope(0, 0)]), Computed(n);
    Here(p, pc, EMPTY);
    ScopeOpened(p, pc, m1);
    Onwards(p, pc, EMPTY, 0, pc, EMPTY, pc + 1, m1);
    VariableComputed(p, pc + 1, m1, n);
    Onwards(p, pc, EMPTY, 1, pc + 1, m1, pc + 2, m2);
    VariableDeclared(p, pc + 2, n, isMut);
    Onwards(p, pc, EMPTY, 2, pc + 2, m2, pc + 3, Opened(Cell(TInt, isMut, VInt(n))));
  }

  function Computed(n: int): M {
    EMPTY.(scopes := [Scope(0, 0)], temps := [Cell(TInt, true, VInt(n))], values := [TempLoc(0)])
  }

  lemma ScopeOpened(p: Program, pc: nat, m: M)
    requires OpAt(p.code, pc, ScopeBegin) && m == EMPTY.(scopes := [Scope(0, 0)])
    ensures Step(p.code, p.globals, pc, EMPTY) == Next(pc + 1, m)
  {
    assert EMPTY.scopes + [Scope(0, 0)] == m.scopes;
  }

  lemma VariableComputed(p: Program, pc: nat, m: M, n: int)
    requires OpAt(p.code, pc, ValueInteger(false, n)) && m == EMPTY.(scopes := [Scope(0, 0)])
    ensures Step(p.code, p.globals, pc, m) == Next(pc + 1, Computed(n))
  {
    LitStep(p, pc, m, false, n);
    assert m.temps + [Cell(TInt, true, VInt(n))] == Computed(n).temps;
    assert m.values + [TempLoc(0)] == Computed(n).values;
  }

  lemma VariableDeclared(p: Program, pc: nat, n: int, isMut: bool)
    requires OpAt(p.code, pc, ScopeAllocUntyped(isMut))
    ensures Step(p.code, p.globals, pc, Computed(n)) == Next(pc + 1, Opened(Cell(TInt, isMut, VInt(n))))
  {
    var m := Computed(n);
    assert m.members + [Cell(TInt, isMut, VInt(n))] == [Cell(TInt, isMut, VInt(n))] && Front(m.values) == [];
  }

  // `x = n`, with nothing else open.
  lemma VariableAssigned(p: Program, first: nat, a: nat, pc: nat, m: M, n: int)
    requires Reaches(p, first, EMPTY, a, pc, m) && m.scopes == [Scope(0, 0)] && m.members == [ONE]
    requires m.values == [] && m.ctxs == []
    requires OpAt(p.code, pc, LoadScope(false, 0, 0)) && OpAt(p.code, pc + 1, SetWriteCtx)
    requires OpAt(p.code, pc + 2, ValueInteger(true, n))
    ensures Reaches(p, first, EMPTY, a + 3, pc + 3, m.(members := [Cell(TInt, true, VInt(n))]))
  {
    hide Run;
    var m1 := m.(values := [Member(0)]);
    var m2 := m.(ctxs := [Member(0)]);
    var m3 := m.(members := [Cell(TInt, true, VInt(n))]);
    Onwards(p, first, EMPTY, a, pc, m, pc + 1, m1);
    assert m1.ctxs + [Member(0)] == m2.ctxs && Front(m1.values) == m2.values;
    Onwards(p, first, EMPTY, a + 1, pc + 1, m1, pc + 2, m2);
    AssignStep(p, pc + 2, m, m2, m3, n);
    Onwards(p, first, EMPTY, a + 2, pc + 2, m2, pc + 3, m3);
  }

  lemma AssignStep(p: Program, pc: nat, m: M, m2: M, m3: M, n: int)
    requires m.scopes == [Scope(0, 0)] && m.members == [ONE] && m.values == [] && m.ctxs == []
    requires m2 == m.(ctxs := [Member(0)]) && m3 == m.(members := [Cell(TInt, true, VInt(n))])
    requires OpAt(p.code, pc, ValueInteger(true, n))
    ensures Step(p.code, p.globals, pc, m2) == Next(pc + 1, m3)
  {
    LitStep(p, pc, m2, true, n);
    assert Front(m2.ctxs) == m.ctxs;
    assert m.members[0 := Cell(TInt, true, VInt(n))] == m3.members;
  }

  const TRUE: Cell<nat> := Cell(TBool, true, VBool(true))

  // In the branch, with the place behind the conditional to come back to.
  const IN_BRANCH: M :=
    EMPTY.(scopes := [Scope(0, 0)], members := [ONE], temps := [ONE, ONE, ONE, TRUE], activations := [8])

  // `1 == 1`, and into the branch.
  lemma ConditionTaken(p: Program, els: nat)
    requires Reaches(p, 1, EMPTY, 3, 4, Opened(ONE))
    requires OpAt(p.code, 4, ValueInteger(false, 1)) && OpAt(p.code, 5, ValueInteger(false, 1))
    requires OpAt(p.code, 6, BinaryOp(false, Equal)) && OpAt(p.code, 7, IfElseOp(false, 16, els))
    ensures Reaches(p, 1, EMPTY, 7, 16, IN_BRANCH)
  {
    hide Run, Step;
    var m3 := Opened(ONE);
    var m4 := m3.(temps := [ONE, ONE], values := [TempLoc(1)]);
    var m5 := m3.(temps := [ONE, ONE, ONE], values := [TempLoc(1), TempLoc(2)]);
    var m6 := m3.(temps := [ONE, ONE, ONE, TRUE], values := [TempLoc(3)]);
    assert m3.temps + [ONE] == m4.temps && m4.temps + [ONE] == m5.temps;
    LitStep(p, 4, m3, false, 1);
    Onwards(p, 1, EMPTY, 3, 4, m3, 5, m4);
    LitStep(p, 5, m4, false, 1);
    Onwards(p, 1, EMPTY, 4, 5, m4, 6, m5);
    CompareStep(p, 6, m5, m6);
    Onwards(p, 1, EMPTY, 5, 6, m5, 7, m6);
    BranchStep(p, m6, els);
    Onwards(p, 1, EMPTY, 6, 7, m6, 16, IN_BRANCH);
  }

  lemma BranchStep(p: Program, m: M, els: nat)
    requires OpAt(p.code, 7, IfElseOp(false, 16, els))
    requires m == IN_BRANCH.(values := [TempLoc(3)], activations := [])
    ensures Step(p.code, p.globals, 7, m) == Next(16, IN_BRANCH)
  {
    assert Front(m.values) == [] && m.activations + [8] == [8];
  }

  lemma CompareStep(p: Program, pc: nat, m5: M, m6: M)
    requires OpAt(p.code, pc, BinaryOp(false, Equal)) && m5.temps == [ONE, ONE, ONE]
    requires m5.values == [TempLoc(1), TempLoc(2)]
    requires m6 == m5.(temps := [ONE, ONE, ONE, TRUE], values := [TempLoc(3)])
    ensures Step(p.code, p.globals, pc, m5) == Next(pc + 1, m6)
  {
    assert At(m5, m5.values[0]) == ONE && At(m5, m5.values[1]) == ONE;
    var vs := TopValues(m5, 2);
    assert vs[0] == VInt(1) && vs[1] == VInt(1);
    assert m5.values[..0] == [];
    assert m5.temps + [TRUE] == m6.temps;
  }

  lemma AfterBranch(p: Program, first: nat, m: M)
    requires Reaches(p, first, EMPTY, 10, 19, m) && m.activations == [8] && m.values == []
    requires OpAt(p.code, 19, EndCode) && OpAt(p.code, 8, DiscardVoid)
    ensures Start(p, first, 12) == Stuck
  {
    hide Run;
    var m1 := m.(activations := []);
    assert Front(m.activations) == [];
    Onwards(p, first, EMPTY, 10, 19, m, 8, m1);
    ThenStep(p, first, EMPTY, 11, 8, m1);
  }

  // The instructions that are run.
  predicate HasCondition(code: seq<Op>) {
    && OpAt(code, 1, ScopeBegin) && OpAt(code, 2, ValueInteger(false, 1)) && OpAt(code, 3, ScopeAllocUntyped(true))
    && OpAt(code, 4, ValueInteger(false, 1)) && OpAt(code, 5, ValueInteger(false, 1))
    && OpAt(code, 6, BinaryOp(false, Equal)) && OpAt(code, 7, IfElseOp(false, 16, 12))
  }

  predicate HasBranch(code: seq<Op>) {
    && OpAt(code, 8, DiscardVoid) && OpAt(code, 16, LoadScope(false, 0, 0)) && OpAt(code, 17, SetWriteCtx)
    && OpAt(code, 18, ValueInteger(true, 2)) && OpAt(code, 19, EndCode)
  }

  lemma ConditionCode()
    ensures HasCondition(VALUELESS_CODE)
  {
  }

  lemma BranchCode()
    ensures HasBranch(VALUELESS_CODE)
  {
  }

  lemma ValuelessRun(p: Program)
    requires HasCondition(p.code) && HasBranch(p.code)
    ensures Start(p, 1, 12) == Stuck
  {
    hide Run, Step, EMPTY, IN_BRANCH;
    FirstVariable(p, 1, 1, true);
    ConditionTaken(p, 12);
    InBranch();
    VariableAssigned(p, 1, 7, 16, IN_BRANCH, 2);
    AfterBranch(p, 1, IN_BRANCH.(members := [Cell(TInt, true, VInt(2))]));
  }

  lemma InBranch()
    ensures IN_BRANCH.scopes == [Scope(0, 0)] && IN_BRANCH.members == [ONE] && IN_BRANCH.values == []
    ensures IN_BRANCH.ctxs == [] && IN_BRANCH.activations == [8]
  {
  }

  /** The conditional in `{ mut x = 1; if 1 == 1 then x = 2 else x = 3; 5 }` leaves no value, although
      one is discarded behind it: the block has a meaning, but its run violates an assertion. */
  lemma ValuelessBranch(p: Program)
    requires p == Program(VALUELESS_CODE, [])
    ensures Safe(VALUELESS, 0) && Yields(VALUELESS) && !Sound(VALUELESS, false, 0, 0)
    ensures Eval([], VALUELESS, NO_SCOPES, Push, 0).Done?
    ensures Start(p, 1, 12) == Stuck
  {
    hide Run, Eval, Safe, Sound, HasCondition, HasBranch;
    ConditionCode();
    BranchCode();
    ValuelessFacts();
    ValuelessEval(VALUELESS, Do(Lit(5), End));
    ValuelessRun(p);
  }

  // A block of a definition, the statement `c` and possibly `5`.
  lemma BlockFacts(e: Expr, c: Expr, rest: Items)
    requires e == Block(Let(true, Lit(1), Do(c, rest))) && (rest.End? || rest == Do(Lit(5), End))
    ensures Sound(e, false, 0, 0) <==> Sound(c, false, 0, 0)
    ensures Accepted(e, false) <==> Accepted(c, false)
    ensures !rest.End? && Definedness.Safe(c, 0, Definedness.Shape([1], 0), false) ==> Safe(e, 0)
  {
    hide Sound, Accepted, Definedness.Tidy, Definedness.Ranged, Definedness.ItemsTidy, Definedness.ItemsRanged,
         Definedness.ItemsMayLeave, ItemsSound, ItemsAccepted;
    LiteralFacts(rest);
    PartFacts(e, c, rest);
    if !rest.End? && Definedness.Safe(c, 0, Definedness.Shape([1], 0), false) { SafeFacts(e, c, rest); }
  }

  lemma LiteralFacts(rest: Items)
    requires rest.End? || rest == Do(Lit(5), End)
    ensures ItemsSound(rest, false, 0, 0) && ItemsAccepted(rest, false) && Definedness.ItemsTidy(rest, false)
    ensures Definedness.ItemsRanged(rest, 0, Definedness.Shape([1], 0)) && !Definedness.ItemsMayLeave(rest, 0)
  {
    assert Definedness.ItemsRanged(End, 0, Definedness.Shape([1], 0));
  }

  lemma PartFacts(e: Expr, c: Expr, rest: Items)
    requires e == Block(Let(true, Lit(1), Do(c, rest)))
    ensures Sound(e, false, 0, 0) <==> Sound(c, false, 0, 0) && ItemsSound(rest, false, 0, 0)
    ensures Accepted(e, false) <==> Accepted(c, false) && ItemsAccepted(rest, false)
  {
    var items := Do(c, rest);
    assert ItemsSound(items, false, 0, 0) <==> Sound(c, false, 0, 0) && ItemsSound(rest, false, 0, 0);
    assert ItemsSound(e.items, false, 0, 0) <==> ItemsSound(items, false, 0, 0);
    assert ItemsAccepted(items, false) <==> Accepted(c, false) && ItemsAccepted(rest, false);
    assert ItemsAccepted(e.items, false) <==> ItemsAccepted(items, false);
  }

  lemma SafeFacts(e: Expr, c: Expr, rest: Items)
    requires e == Block(Let(true, Lit(1), Do(c, rest))) && !rest.End?
    requires Definedness.ItemsTidy(rest, false) && !Definedness.ItemsMayLeave(rest, 0)
    requires Definedness.ItemsRanged(rest, 0, Definedness.Shape([1], 0))
    requires Definedness.Ranged(c, 0, Definedness.Shape([1], 0)) && Definedness.Tidy(c, false)
    ensures Definedness.Ranged(e, 0, Definedness.Shape([], 0)) && Definedness.Tidy(e, false)
  {
    var items := Do(c, rest);
    assert Definedness.Inner(Definedness.Shape([], 0)) == Definedness.Shape([0], 0);
    assert Definedness.Longer(Definedness.Shape([0], 0)) == Definedness.Shape([1], 0);
    assert Definedness.ItemsRanged(items, 0, Definedness.Shape([1], 0));
    assert Definedness.ItemsRanged(e.items, 0, Definedness.Shape([0], 0));
    assert Definedness.ItemsTidy(items, false) && Definedness.ItemsTidy(e.items, false);
    assert !Definedness.ItemsMayLeave(items, 0) && !Definedness.ItemsMayLeave(e.items, 0);
  }

  lemma ValuelessFacts()
    ensures Safe(VALUELESS, 0) && Yields(VALUELESS) && !Sound(VALUELESS, false, 0, 0)
  {
    hide Sound, Accepted;
    BlockFacts(VALUELESS, CONDITIONAL, Do(Lit(5), End));
    ConditionalFacts(CONDITIONAL);
  }

  lemma ConditionalFacts(c: Expr)
    requires c == CONDITIONAL
    ensures !Sound(c, false, 0, 0) && Definedness.Safe(c, 0, Definedness.Shape([1], 0), false)
  {
    hide Sound, Definedness.Safe, Yields;
    ComparedFacts();
    AssigningFacts(2);
    AssigningFacts(3);
    ValuelessParts(c);
  }

  lemma ValuelessParts(c: Expr)
    requires c.IfElse? && !Yields(c.thn)
    requires Definedness.Safe(c.cond, 0, Definedness.Shape([1], 0), false)
    requires Definedness.Safe(c.thn, 0, Definedness.Shape([1], 0), false)
    requires Definedness.Safe(c.els, 0, Definedness.Shape([1], 0), false)
    ensures !Sound(c, false, 0, 0) && Definedness.Safe(c, 0, Definedness.Shape([1], 0), false)
  {
    hide Yields;
  }

  lemma ComparedFacts()
    ensures Definedness.Safe(COMPARED, 0, Definedness.Shape([1], 0), false)
  {
  }

  lemma AssigningFacts(n: int)
    ensures var e := Assigning(n);
      && !Yields(e) && Sound(e, false, 0, 0) && Definedness.Safe(e, 0, Definedness.Shape([1], 0), false)
  {
  }

  // The variable holds `n`.
  function Holding(n: int): Env {
    Env([[Cell(TInt, true, VInt(n))]], [])
  }

  lemma AssigningEval(k: int, n: int)
    ensures Eval([], Assigning(n), Holding(k), Push, 0) == Done(Temp(VVoid), Holding(n))
  {
    var e, env := Assigning(n), Holding(k);
    assert Eval([], e.target, env, Push, 0) == Done(Place(0, 0), env);
    assert Eval([], e.value, env, Into(TInt), 0) == Done(Temp(VInt(n)), env);
    assert env.scopes[0][0 := Cell(TInt, true, VInt(n))] == Holding(n).scopes[0];
    assert env.scopes[0 := Holding(n).scopes[0]] == Holding(n).scopes;
    assert Write(env, Place(0, 0), VInt(n)) == Holding(n);
  }

  // A block that starts with the definition of the variable.
  lemma VariableEval(rest: Items, r: Result<Operand>)
    requires EvalItems([], rest, Holding(1), Push, 0) == r
    ensures EvalItems([], Let(true, Lit(1), rest), PushScope(NO_SCOPES), Push, 0) == r
  {
    hide EvalItems;
    var env: Env := PushScope(NO_SCOPES);
    assert Eval([], Lit(1), env, Push, 0) == Done(Temp(VInt(1)), env);
    var c: Cell<Expr> := Cell(TInt, true, VInt(1));
    assert env.scopes[0] + [c] == [c];
    assert Declare(env, c) == Holding(1);
    VariableItems(rest, env, c);
  }

  lemma VariableItems(rest: Items, env: Env, c: Cell<Expr>)
    requires Eval([], Lit(1), env, Push, 0) == Done(Temp(VInt(1)), env) && |env.scopes| > 0
    requires c == Cell(TInt, true, VInt(1))
    ensures EvalItems([], Let(true, Lit(1), rest), env, Push, 0) == EvalItems([], rest, Declare(env, c), Push, 0)
  {
  }

  lemma ConditionalEval()
    ensures Eval([], CONDITIONAL, Holding(1), Push, 0) == Done(Temp(VVoid), Holding(2))
  {
    hide Eval;
    var env := Holding(1);
    assert Eval([], COMPARED, env, Push, 0) == Done(Temp(VBool(true)), env) by { ComparedEval(env); }
    AssigningEval(1, 2);
    TakenEval(COMPARED, Assigning(2), Assigning(3), env);
  }

  lemma ComparedEval(env: Env)
    ensures Eval([], COMPARED, env, Push, 0) == Done(Temp(VBool(true)), env)
  {
    assert Eval([], Lit(1), env, Push, 0) == Done(Temp(VInt(1)), env);
    assert EvalBinary([], Equal, Lit(1), Lit(1), env, Push, 0) == Done(Temp(VBool(true)), env);
  }

  lemma TakenEval(c: Expr, t: Expr, f: Expr, env: Env)
    requires Eval([], c, env, Push, 0) == Done(Temp(VBool(true)), env)
    ensures Eval([], IfElse(c, t, f), env, Push, 0) == Eval([], t, env, Push, 0)
  {
  }

  lemma ValuelessEval(e: Expr, last: Items)
    requires e == Block(Let(true, Lit(1), Do(CONDITIONAL, last))) && last == Do(Lit(5), End)
    ensures Eval([], e, NO_SCOPES, Push, 0).Done?
  {
    hide Eval, EvalItems;
    ConditionalEval();
    var env := Holding(2);
    DiscardedEval(CONDITIONAL, Holding(1), env, last);
    LastEval(env, last);
    VariableEval(Do(CONDITIONAL, last), Done(Temp(VInt(5)), env));
    BlockEval(e, e.items, Done(Temp(VInt(5)), env));
  }

  lemma DiscardedEval(c: Expr, env: Env, env1: Env, last: Items)
    requires Eval([], c, env, Push, 0) == Done(Temp(VVoid), env1) && Yields(c) && !last.End?
    ensures EvalItems([], Do(c, last), env, Push, 0) == EvalItems([], last, env1, Push, 0)
  {
  }

  lemma LastEval(env: Env, last: Items)
    requires last == Do(Lit(5), End)
    ensures EvalItems([], last, env, Push, 0) == Done(Temp(VInt(5)), env)
  {
    assert Eval([], Lit(5), env, Push, 0) == Done(Temp(VInt(5)), env);
  }

  lemma BlockEval(e: Expr, items: Items, r: Result<Operand>)
    requires e == Block(items) && EvalItems([], items, PushScope(NO_SCOPES), Push, 0) == r
    ensures r.Done? && r.value.Temp? && |r.env.scopes| > 0 ==> Eval([], e, NO_SCOPES, Push, 0).Done?
    ensures r == Error ==> Eval([], e, NO_SCOPES, Push, 0) == Error
  {
  }

  // ---------- An operand without a value ----------

  lemma NegationStuck(p: Program, m: M)
    requires Reaches(p, 1, EMPTY, 6, 7, m) && m.values == [] && OpAt(p.code, 7, UnaryOp(false, Negate))
    ensures Start(p, 1, 7) == Stuck
  {
    hide Run;
    ThenStep(p, 1, EMPTY, 6, 7, m);
  }

  /** Nor does the operand in `{ mut x = 1; -(x = 2) }`; here the evaluation reports an error, but
      the run violates an assertion. */
  lemma ValuelessOperand(p: Program)
    requires p == Program(OPERANDLESS_CODE, [])
    ensures Accepted(OPERANDLESS, false) && Yields(OPERANDLESS) && !Sound(OPERANDLESS, false, 0, 0)
    ensures Eval([], OPERANDLESS, NO_SCOPES, Push, 0) == Error
    ensures Start(p, 1, 7) == Stuck
  {
    hide Run, Step, Eval, EvalItems, Sound, Accepted, HasNegation;
    OperandlessCode();
    var c := Unary(Negate, Assigning(2));
    BlockFacts(OPERANDLESS, c, End);
    NegationFacts(c);
    VariableEval(Do(c, End), Error);
    BlockEval(OPERANDLESS, OPERANDLESS.items, Error);
    OperandlessRun(p);
  }

  predicate HasNegation(code: seq<Op>) {
    && OpAt(code, 1, ScopeBegin) && OpAt(code, 2, ValueInteger(false, 1)) && OpAt(code, 3, ScopeAllocUntyped(true))
    && OpAt(code, 4, LoadScope(false, 0, 0)) && OpAt(code, 5, SetWriteCtx) && OpAt(code, 6, ValueInteger(true, 2))
    && OpAt(code, 7, UnaryOp(false, Negate))
  }

  lemma OperandlessCode()
    ensures HasNegation(OPERANDLESS_CODE)
  {
  }

  lemma OperandlessRun(p: Program)
    requires HasNegation(p.code)
    ensures Start(p, 1, 7) == Stuck
  {
    hide Run, Step, EMPTY, Opened;
    FirstVariable(p, 1, 1, true);
    OpenedParts();
    VariableAssigned(p, 1, 3, 4, Opened(ONE), 2);
    NegationStuck(p, Opened(ONE).(members := [Cell(TInt, true, VInt(2))]));
  }

  lemma OpenedParts()
    ensures Opened(ONE).scopes == [Scope(0, 0)] && Opened(ONE).members == [ONE]
    ensures Opened(ONE).values == [] && Opened(ONE).ctxs == []
  {
  }

  lemma NegationFacts(c: Expr)
    requires c == Unary(Negate, Assigning(2))
    ensures !Sound(c, false, 0, 0) && Accepted(c, false)
    ensures EvalItems([], Do(c, End), Holding(1), Push, 0) == Error
  {
    hide Eval, EvalItems;
    AssigningFacts(2);
    AssigningEval(1, 2);
    NegationEval(c, Holding(1), Holding(2));
  }

  lemma NegationEval(c: Expr, env: Env, env1: Env)
    requires c.Unary? && c.uop == Negate && Eval([], c.operand, env, Push, 0) == Done(Temp(VVoid), env1)
    ensures EvalItems([], Do(c, End), env, Push, 0) == Error
  {
    assert Eval([], c, env, Push, 0) == Error;
  }

  // ---------- A place whose scope is gone ----------

  lemma UntidyParts(p: Program, first: nat, n: int)
    requires Coded(p.code, {}, first, Definedness.Untidy(n), false)
    ensures OpAt(p.code, first, ScopeBegin) && OpAt(p.code, first + 1, ValueInteger(false, n))
    ensures OpAt(p.code, first + 2, ScopeAllocUntyped(false)) && OpAt(p.code, first + 3, LoadScope(false, 0, 0))
    ensures OpAt(p.code, first + 4, ScopeEndPreserveTop) && Len(Definedness.Untidy(n), false) == 5
  {
    hide Coded, ItemsCoded, ItemsLen, Len;
    var e := Definedness.Untidy(n);
    BlockParts(p.code, first, e);
    UntidyItems(p.code, first + 1, e.items);
    LastLoad(p.code, first + 3, e.items.rest, e.items.rest.e);
  }

  lemma BlockParts(code: seq<Op>, pc: nat, e: Expr)
    requires e.Block? && Coded(code, {}, pc, e, false)
    ensures OpAt(code, pc, ScopeBegin) && ItemsCoded(code, {}, pc + 1, e.items, false)
    ensures OpAt(code, pc + 1 + ItemsLen(e.items, false), ScopeEndPreserveTop)
    ensures Len(e, false) == ItemsLen(e.items, false) + 2
  {
    hide ItemsCoded, ItemsLen;
  }

  lemma UntidyItems(code: seq<Op>, pc: nat, items: Items)
    requires items.Let? && items.value.Lit? && !items.rest.End?
    ensures ItemsLen(items, false) == 2 + ItemsLen(items.rest, false)
    ensures ItemsCoded(code, {}, pc, items, false) ==>
      && OpAt(code, pc, ValueInteger(false, items.value.n)) && OpAt(code, pc + 1, ScopeAllocUntyped(items.isMut))
      && ItemsCoded(code, {}, pc + 2, items.rest, false)
  {
    assert Len(items.value, false) == 1;
    assert Coded(code, {}, pc, items.value, false) == OpAt(code, pc, ValueInteger(false, items.value.n));
  }

  lemma LastLoad(code: seq<Op>, pc: nat, items: Items, e: Expr)
    requires items.Do? && items.e == e && items.rest.End? && e.Scoped?
    ensures ItemsLen(items, false) == 1
    ensures ItemsCoded(code, {}, pc, items, false) ==> OpAt(code, pc, LoadScope(false, e.out, e.rank))
  {
    assert Len(e, false) == 1;
    assert Coded(code, {}, pc, e, false) == OpAt(code, pc, LoadScope(false, e.out, e.rank));
  }

  // The machine behind the block: its variable is gone, its place is still on the values.
  lemma UntidyRun(p: Program, first: nat, n: int)
    requires Coded(p.code, {}, first, Definedness.Untidy(n), false)
    ensures Reaches(p, first, EMPTY, 5, first + 5, EMPTY.(values := [Member(0)]))
  {
    hide Run, Coded, Len;
    UntidyParts(p, first, n);
    FirstVariable(p, first, n, false);
    var m3 := Opened(Cell(TInt, false, VInt(n)));
    var m4 := m3.(values := [Member(0)]);
    Onwards(p, first, EMPTY, 3, first + 3, m3, first + 4, m4);
    var m5 := EMPTY.(values := [Member(0)]);
    assert Front(m4.scopes) == [] && m4.members[..0] == [] && m4.temps[..0] == [];
    Onwards(p, first, EMPTY, 4, first + 4, m4, first + 5, m5);
  }

  /** The compiled block `{ let x = n; x }` halts with the place of a variable that is gone. */
  lemma EscapedPlace(p: Program, n: int, first: nat)
    requires Compiled(p, Definedness.Untidy(n), first)
    ensures Start(p, first, 6) == Halted(EMPTY.(values := [Member(0)]))
    ensures !LocOk(EMPTY.(values := [Member(0)]), Member(0))
  {
    hide Run, Coded, Len, Sound, ItemsCoded;
    UntidyParts(p, first, n);
    UntidyRun(p, first, n);
    ThenStep(p, first, EMPTY, 5, first + 5, EMPTY.(values := [Member(0)]));
  }

  /** Whoever uses that place violates an assertion: `-{ let x = n; x }` does. */
  lemma EscapedOperand(p: Program, n: int, first: nat)
    requires Compiled(p, Unary(Negate, Definedness.Untidy(n)), first)
    ensures Start(p, first, 6) == Stuck
  {
    hide Run, Coded, Len, Compiled;
    UntidyOperand(p, n, first);
    UntidyParts(p, first, n);
    UntidyRun(p, first, n);
    var m := EMPTY.(values := [Member(0)]);
    ThenStep(p, first, EMPTY, 5, first + 5, m);
    StepPlain(p, first + 5, m, UnaryOp(false, Negate));
  }

  lemma UntidyOperand(p: Program, n: int, first: nat)
    requires Compiled(p, Unary(Negate, Definedness.Untidy(n)), first)
    ensures Coded(p.code, {}, first, Definedness.Untidy(n), false)
    ensures OpAt(p.code, first + Len(Definedness.Untidy(n), false), UnaryOp(false, Negate))
  {
  }

  // The compiler is right about both.
  lemma UntidySound(n: int)
    ensures var e := Definedness.Untidy(n);
      && Sound(e, false, 0, 0) && Yields(e) && Accepted(e, false)
      && Sound(Unary(Negate, e), false, 0, 0) && Yields(Unary(Negate, e)) && Accepted(Unary(Negate, e), false)
  {
    hide Sound, Accepted;
    var e := Definedness.Untidy(n);
    Definedness.UntidyRanged(n, 0);
    UntidyBlockSound(e, e.items.rest);
    UnarySound(Unary(Negate, e));
  }

  lemma UntidyBlockSound(e: Expr, rest: Items)
    requires e.Block? && e.items.Let? && e.items.rest == rest && e.items.value.Lit?
    requires rest.Do? && rest.rest.End? && rest.e.Scoped?
    ensures Sound(e, false, 0, 0)
  {
    assert ItemsSound(rest.rest, false, 0, 0);
    assert ItemsSound(rest, false, 0, 0);
    assert ItemsSound(e.items, false, 0, 0);
  }

  lemma UnarySound(e: Expr)
    requires e.Unary? && Yields(e.operand)
    ensures Sound(e, false, 0, 0) <==> Sound(e.operand, false, 0, 0)
    ensures Accepted(e, false) <==> Accepted(e.operand, false)
  {
  }

  /** Both are compiled without trouble and run to these ends. */
  method RunUntidy(n: int, operand: bool) returns (p: Program, ghost asserted: bool)
    ensures Start(p, 1, 6) == if operand then Stuck else Halted(EMPTY.(values := [Member(0)]))
    ensures asserted
  {
    hide Run, Compiled, CompilesTo, Accepted, Sound;
    UntidySound(n);
    var e := Definedness.Untidy(n);
    if operand {
      e := Unary(Negate, e);
    }
    var trouble, first;
    trouble, p, first, asserted := Compile(e, []);
    if operand { EscapedOperand(p, n, 1); } else { EscapedPlace(p, n, 1); }
  }
}
