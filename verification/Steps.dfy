/** The single steps of the simulation proof: for every kind of expression, where the parts of
    its code are and what its own instructions do. */
module Steps {
  import opened Basics
  import opened Lang
  import opened Machine
  import opened Coding
  import opened Relation

  /** The machine is about to run the code of `e`. */
  ghost predicate Ready(p: Program, e: Expr, pc: nat, env: Env, m: M, mode: Mode, vs: nat, cs: nat) {
    && Coded(p.code, {}, pc, e, mode.Into?) && Sound(e, mode.Into?, vs, cs)
    && Rel(p.code, env, m.scopes, m.closures, m.members) && InContext(m, mode)
  }

  ghost predicate Runs(p: Program, e: Expr, pc: nat, env: Env, m: M, mode: Mode, fuel: nat, s: Sim) {
    Simulated(p, pc, env, m, mode, Yields(e), Eval(p.globals, e, env, mode, fuel), fuel, pc + Len(e, mode.Into?), s)
  }

  // The state an operand leaves.
  function After(m: M, s: Sim): M {
    Left(With(m, s.d), true, s.x)
  }

  lemma Unspecified(p: Program, pc: nat, env: Env, m: M, mode: Mode, leaves: bool, fuel: nat, end: nat) returns (s: Sim)
    ensures Simulated(p, pc, env, m, mode, leaves, Undefined, fuel, end, s)
  {
    hide Run, Keeps, OperandRel, ValueRel, Reaches;
    s := Sim(0, DataOf(m), FixedLoc(VVoid), VVoid);
  }

  // An evaluation that is cut short while a part is evaluated.
  lemma CutShort(p: Program, pc: nat, env: Env, m: M, mode: Mode, leaves: bool, r: Result<Operand>, fuel: nat, end: nat,
                 a: nat, pc1: nat, env1: Env, m1: M, mode1: Mode, leaves1: bool, end1: nat, s1: Sim)
    returns (s: Sim)
    requires Reaches(p, pc, m, a, pc1, m1) && !r.Done?
    requires Simulated(p, pc1, env1, m1, mode1, leaves1, r, fuel, end1, s1)
    ensures Simulated(p, pc, env, m, mode, leaves, r, fuel, end, s)
  {
    hide Run, Keeps, ValueRel, OperandRel, Stored, Left, Reaches, Cut;
    ThenCut(p, pc, m, a, pc1, m1, r, fuel, fuel, s1.n);
    s := s1.(n := a + s1.n);
  }

  lemma CutAtOnce(p: Program, pc: nat, env: Env, m: M, mode: Mode, leaves: bool, r: Result<Operand>, fuel: nat,
                  end: nat,
                  mode1: Mode, leaves1: bool, end1: nat, s1: Sim)
    requires Simulated(p, pc, env, m, mode1, leaves1, r, fuel, end1, s1) && !r.Done?
    ensures Simulated(p, pc, env, m, mode, leaves, r, fuel, end, s1)
  {
    hide Run, Keeps, ValueRel, OperandRel, Stored, Left, Reaches, Cut;
  }

  lemma Faults(p: Program, pc: nat, env: Env, m: M, mode: Mode, leaves: bool, fuel: nat, end: nat, a: nat, pc1: nat,
               m1: M)
    returns (s: Sim)
    requires Reaches(p, pc, m, a, pc1, m1) && Step(p.code, p.globals, pc1, m1) == Fault
    ensures Simulated(p, pc, env, m, mode, leaves, Error, fuel, end, s)
  {
    hide Run, Step;
    ThenStep(p, pc, m, a, pc1, m1);
    s := Sim(a + 1, DataOf(m), FixedLoc(VVoid), VVoid);
  }

  // The operand an evaluation without a write context leaves on top of the values.
  lemma OperandLeft(p: Program, pc: nat, env: Env, m: M, r: Result<Operand>, fuel: nat, end: nat, s: Sim)
    requires r.Done? && Simulated(p, pc, env, m, Push, true, r, fuel, end, s)
    ensures Keeps(p.code, m.scopes, m.closures, env, DataOf(m), r.env, s.d)
    ensures Rel(p.code, r.env, m.scopes, m.closures, s.d.members)
    ensures OperandRel(p.code, m.scopes, r.env, s.d, |m.temps|, r.value, s.x)
    ensures Reaches(p, pc, m, s.n, end, After(m, s))
    ensures Readable(r.env, r.value) && LocOk(With(m, s.d), s.x)
    ensures ValueRel(p.code, Read(r.env, r.value), At(With(m, s.d), s.x).val)
    ensures At(With(m, s.d), s.x).ty == OperandType(r.env, r.value) == Read(r.env, r.value).TypeOf()
    ensures At(With(m, s.d), s.x).val.TypeOf() == At(With(m, s.d), s.x).ty
    ensures At(With(m, s.d), s.x).isMut == Mutable(r.env, r.value)
  {
    hide ValueRel, ScopeRel, Owned, Reaches;
    OperandAt(p.code, m, r.env, s.d, |m.temps|, r.value, s.x);
    TypesAgree(p.code, Read(r.env, r.value), At(With(m, s.d), s.x).val);
  }

  // ---------- Literals and loads ----------

  lemma LitStep(p: Program, pc: nat, m: M, into: bool, n: int)
    requires OpAt(p.code, pc, ValueInteger(into, n)) && (into ==> |m.ctxs| > 0)
    ensures Step(p.code, p.globals, pc, m) == PutTemporary(pc + 1, Consumed(m, into), Target(m, into), VInt(n))
    ensures ValueRel(p.code, VInt(n), VInt(n))
  {
    hide PutTemporary;
    StepInto(p, pc, m, ValueInteger(into, n), into);
  }

  lemma VoidStep(p: Program, pc: nat, m: M, into: bool)
    requires OpAt(p.code, pc, ValueVoid(into)) && (into ==> |m.ctxs| > 0)
    ensures Step(p.code, p.globals, pc, m) == PutTemporary(pc + 1, Consumed(m, into), Target(m, into), VVoid)
    ensures ValueRel(p.code, VVoid, VVoid)
  {
    hide PutTemporary;
    StepInto(p, pc, m, ValueVoid(into), into);
  }

  lemma ScopedStep(p: Program, pc: nat, m: M, into: bool, env: Env, out: nat, rank: nat)
    requires OpAt(p.code, pc, LoadScope(into, out, rank)) && (into ==> |m.ctxs| > 0)
    requires out < |env.scopes| <= |m.scopes|
    ensures Step(p.code, p.globals, pc, m)
         == PutLocation(pc + 1, Consumed(m, into), Target(m, into),
             Member(First(env, m.scopes, |env.scopes| - 1 - out) + rank))
  {
    hide PutLocation;
    StepInto(p, pc, m, LoadScope(into, out, rank), into);
  }

  lemma ClosedStep(p: Program, pc: nat, m: M, into: bool, slot: nat)
    requires OpAt(p.code, pc, LoadClosure(into, slot)) && (into ==> |m.ctxs| > 0)
    requires |m.closures| > 0 && slot < |Top(m.closures)|
    ensures Step(p.code, p.globals, pc, m)
         == PutLocation(pc + 1, Consumed(m, into), Target(m, into), FixedLoc(Top(m.closures)[slot]))
  {
    hide PutLocation;
    StepInto(p, pc, m, LoadClosure(into, slot), into);
  }

  lemma GlobalStep(p: Program, pc: nat, m: M, into: bool, i: nat)
    requires OpAt(p.code, pc, LoadGlobal(into, i)) && (into ==> |m.ctxs| > 0) && i < |p.globals|
    ensures Step(p.code, p.globals, pc, m)
         == PutLocation(pc + 1, Consumed(m, into), Target(m, into), FixedLoc(p.globals[i].Val()))
    ensures ValueRel(p.code, p.globals[i].Val(), p.globals[i].Val())
  {
    hide PutLocation;
    StepInto(p, pc, m, LoadGlobal(into, i), into);
  }

  // ---------- Operators ----------

  lemma UnaryReady(p: Program, e: Expr, pc: nat, env: Env, m: M, mode: Mode, vs: nat, cs: nat)
    requires e.Unary? && Ready(p, e, pc, env, m, mode, vs, cs)
    ensures Ready(p, e.operand, pc, env, m, Push, vs, cs) && Yields(e.operand)
    ensures Len(e, mode.Into?) == Len(e.operand, false) + 1
    ensures OpAt(p.code, pc + Len(e.operand, false), UnaryOp(mode.Into?, e.uop))
  {
    hide Rel, OpAt;
  }

  lemma UnaryStep(p: Program, op: UnaryKind, pc: nat, m: M, into: bool, d: Data, x: Loc)
    requires OpAt(p.code, pc, UnaryOp(into, op)) && LocOk(With(m, d), x) && (into ==> |m.ctxs| > 0)
    ensures Step(p.code, p.globals, pc, Left(With(m, d), true, x))
         == match ApplyUnary(op, At(With(m, d), x).val)
            case Some(w) => PutTemporary(pc + 1, Consumed(With(m, d), into), Target(m, into), w)
            case None => Fault
  {
    hide ApplyUnary, PutTemporary;
    var m1 := Left(With(m, d), true, x);
    StepInto(p, pc, m1, UnaryOp(into, op), into);
    assert PopValue(Consumed(m1, into)) == Consumed(With(m, d), into);
  }

  // Two operands on top of the values.
  function Both(m: M, s1: Sim, s2: Sim): M {
    With(m, s2.d).(values := m.values + [s1.x, s2.x])
  }

  lemma OperandsLeft(p: Program, pc: nat, env: Env, m: M, r1: Result<Operand>, fuel: nat, mid: nat, s1: Sim,
                     r2: Result<Operand>, end: nat, s2: Sim)
    requires r1.Done? && Simulated(p, pc, env, m, Push, true, r1, fuel, mid, s1)
    requires r2.Done? && Simulated(p, mid, r1.env, After(m, s1), Push, true, r2, fuel, end, s2)
    ensures Keeps(p.code, m.scopes, m.closures, env, DataOf(m), r2.env, s2.d)
    ensures Reaches(p, pc, m, s1.n + s2.n, end, Both(m, s1, s2))
    ensures Readable(r2.env, r1.value) && Readable(r2.env, r2.value)
    ensures LocOk(With(m, s2.d), s1.x) && LocOk(With(m, s2.d), s2.x)
    ensures ValueRel(p.code, Read(r2.env, r1.value), At(With(m, s2.d), s1.x).val)
    ensures ValueRel(p.code, Read(r2.env, r2.value), At(With(m, s2.d), s2.x).val)
  {
    hide Run, ValueRel, ScopeRel, Owned, Reaches, Keeps, OperandRel, Rel, Simulated, LocOk, At, Readable, Read;
    OperandLeft(p, pc, env, m, r1, fuel, mid, s1);
    OperandLeft(p, mid, r1.env, After(m, s1), r2, fuel, end, s2);
    OperandKept(p.code, m.scopes, m.closures, r1.env, s1.d, r2.env, s2.d, |m.temps|, r1.value, s1.x);
    OperandAt(p.code, m, r2.env, s2.d, |m.temps|, r1.value, s1.x);
    KeepsTrans(p.code, m.scopes, m.closures, env, DataOf(m), r1.env, s1.d, r2.env, s2.d);
    Then(p, pc, m, s1.n, mid, After(m, s1), s2.n, end, After(After(m, s1), s2));
    assert After(After(m, s1), s2) == Both(m, s1, s2);
    assert With(After(m, s1), s2.d).(values := m.values) == With(m, s2.d);
    SameLocation(With(After(m, s1), s2.d), With(m, s2.d), s2.x);
  }

  lemma SameLocation(m: M, m': M, x: Loc)
    requires m.members == m'.members && m.temps == m'.temps
    ensures LocOk(m, x) == LocOk(m', x)
    ensures LocOk(m, x) ==> At(m, x) == At(m', x)
  {
  }

  lemma BinaryReady(p: Program, e: Expr, pc: nat, env: Env, m: M, mode: Mode, vs: nat, cs: nat)
    requires e.Binary? && Ready(p, e, pc, env, m, mode, vs, cs)
    ensures Ready(p, e.lhs, pc, env, m, Push, vs, cs) && Yields(e.lhs) && Yields(e.rhs)
    ensures Coded(p.code, {}, pc + Len(e.lhs, false), e.rhs, false) && Sound(e.rhs, false, vs + 1, cs)
    ensures Len(e, mode.Into?) == Len(e.lhs, false) + Len(e.rhs, false) + 1
    ensures OpAt(p.code, pc + Len(e.lhs, false) + Len(e.rhs, false), BinaryOp(mode.Into?, e.bop))
  {
    hide Rel, OpAt;
    assert BinaryCoded(p.code, {}, pc, e, mode.Into?);
  }

  lemma BinaryStep(p: Program, op: BinaryKind, pc: nat, m: M, into: bool, s1: Sim, s2: Sim)
    requires OpAt(p.code, pc, BinaryOp(into, op))
    requires LocOk(With(m, s2.d), s1.x) && LocOk(With(m, s2.d), s2.x) && (into ==> |m.ctxs| > 0)
    ensures Step(p.code, p.globals, pc, Both(m, s1, s2))
         == match ApplyBinary(op, At(With(m, s2.d), s1.x).val, At(With(m, s2.d), s2.x).val)
            case Some(w) => PutTemporary(pc + 1, Consumed(With(m, s2.d), into), Target(m, into), w)
            case None => Fault
  {
    hide ApplyBinary, PutTemporary;
    var m1 := Both(m, s1, s2);
    StepInto(p, pc, m1, BinaryOp(into, op), into);
    var m2 := Consumed(m1, into);
    assert DropValues(m2, 2) == Consumed(With(m, s2.d), into) by { assert m1.values[..|m.values|] == m.values; }
    assert m2.values[|m.values|] == s1.x && m2.values[|m.values| + 1] == s2.x;
    SameLocation(m2, With(m, s2.d), s1.x);
    SameLocation(m2, With(m, s2.d), s2.x);
    assert TopValues(m2, 2) == [At(With(m, s2.d), s1.x).val, At(With(m, s2.d), s2.x).val];
  }

  // ---------- Conditionals ----------

  // The address in a patched hole is that of the segment.
  lemma NoHole(code: seq<Op>, dst: nat, slot: nat, address: nat, segment: Segment)
    requires Filled(code, {}, dst, slot, address, segment)
    ensures SegmentCoded(code, {}, address, segment)
  {
    hide SegmentCoded;
  }

  lemma BranchCoded(code: seq<Op>, dst: nat, slot: nat, address: nat, e: Expr, into: bool)
    requires Filled(code, {}, dst, slot, address, IfBranch(e, into, false))
    ensures Coded(code, {}, address, e, into) && OpAt(code, address + Len(e, into), EndCode)
  {
    hide Coded, Len;
    NoHole(code, dst, slot, address, IfBranch(e, into, false));
  }

  lemma IfElseParts(code: seq<Op>, pc: nat, e: Expr, into: bool) returns (thn: nat, els: nat)
    requires e.IfElse? && IfElseCoded(code, {}, pc, e, into)
    ensures Coded(code, {}, pc, e.cond, false)
    ensures OpAt(code, pc + Len(e.cond, false), IfElseOp(into, thn, els))
    ensures Coded(code, {}, thn, e.thn, into) && OpAt(code, thn + Len(e.thn, into), EndCode)
    ensures Coded(code, {}, els, e.els, into) && OpAt(code, els + Len(e.els, into), EndCode)
  {
    hide Coded, Filled, SegmentCoded, Len;
    var at := pc + Len(e.cond, false);
    thn, els := code[at].thn, code[at].els;
    BranchCoded(code, at, 0, thn, e.thn, into);
    BranchCoded(code, at, 1, els, e.els, into);
  }

  lemma IfElseReady(p: Program, e: Expr, pc: nat, env: Env, m: M, mode: Mode, vs: nat, cs: nat)
    requires e.IfElse? && Ready(p, e, pc, env, m, mode, vs, cs)
    ensures IfElseCoded(p.code, {}, pc, e, mode.Into?)
    ensures Coded(p.code, {}, pc, e.cond, false) ==> Ready(p, e.cond, pc, env, m, Push, vs, cs)
    ensures Yields(e.cond) && Len(e, mode.Into?) == Len(e.cond, false) + 1
    ensures Sound(e.thn, mode.Into?, 0, Bit(mode.Into?)) && Sound(e.els, mode.Into?, 0, Bit(mode.Into?))
    ensures mode.Push? ==> Yields(e.thn) && Yields(e.els)
  {
    hide Rel, IfElseCoded;
  }

  lemma IfElseStep(p: Program, pc: nat, m: M, into: bool, thn: nat, els: nat, d: Data, x: Loc)
    requires OpAt(p.code, pc, IfElseOp(into, thn, els)) && (into ==> |m.ctxs| > 0)
    requires LocOk(With(m, d), x) && At(With(m, d), x).ty == At(With(m, d), x).val.TypeOf()
    ensures var v := At(With(m, d), x).val;
      Step(p.code, p.globals, pc, Left(With(m, d), true, x))
         == if v.VBool? then Next(if v.b then thn else els, Activate(With(m, d), pc + 1)) else Fault
  {
    var m1 := Left(With(m, d), true, x);
    StepInto(p, pc, m1, IfElseOp(into, thn, els), into);
    assert PopValue(m1) == With(m, d);
    assert into ==> Front(m.ctxs) + [Top(m.ctxs)] == m.ctxs;
  }

  // A branch runs with an activation that leads behind the branching instruction.
  lemma BranchReady(p: Program, e: Expr, pc: nat, env: Env, m: M, mode: Mode, env1: Env, d: Data, ret: nat, vs: nat,
                    cs: nat)
    requires Keeps(p.code, m.scopes, m.closures, env, DataOf(m), env1, d) && InContext(m, mode)
    requires Coded(p.code, {}, pc, e, mode.Into?) && Sound(e, mode.Into?, vs, cs)
    ensures Ready(p, e, pc, env1, Activate(With(m, d), ret), mode, vs, cs)
  {
    hide Rel, Coded, Sound, SameShape, OthersKept;
    ContextKept(p.code, env, m, env1, d, mode);
  }

  lemma BoolAgrees(code: seq<Op>, v: V, w: W)
    requires ValueRel(code, v, w)
    ensures v.VBool? == w.VBool? && (v.VBool? ==> v.b == w.b)
  {
  }

  lemma VTypeAgrees(code: seq<Op>, v: V, w: W)
    requires ValueRel(code, v, w)
    ensures v.VType? == w.VType? && (v.VType? ==> v.ty == w.ty)
  {
  }

  // With a write context it does not matter whether the expression could leave a value.
  lemma SameLeaves(p: Program, pc: nat, env: Env, m: M, mode: Mode, leaves: bool, r: Result<Operand>, fuel: nat,
                   end: nat, s: Sim)
    requires Simulated(p, pc, env, m, mode, leaves, r, fuel, end, s)
    ensures mode.Into? || leaves ==> Simulated(p, pc, env, m, mode, true, r, fuel, end, s)
    ensures mode.Into? ==> Simulated(p, pc, env, m, mode, false, r, fuel, end, s)
  {
    hide Run, Keeps, ValueRel, OperandRel, Reaches, Cut;
  }

  lemma IfOnlyReady(p: Program, e: Expr, pc: nat, env: Env, m: M, mode: Mode, vs: nat, cs: nat)
    requires e.IfOnly? && Ready(p, e, pc, env, m, mode, vs, cs)
    ensures IfOnlyCoded(p.code, {}, pc, e, mode.Into?)
    ensures Coded(p.code, {}, pc, e.cond, false) ==> Ready(p, e.cond, pc, env, m, Push, vs, cs)
    ensures Yields(e.cond) && Len(e, mode.Into?) == Len(e.cond, false) + 1
    ensures Sound(e.thn, mode.Into?, 0, Bit(mode.Into?))
  {
    hide Rel, IfOnlyCoded;
  }

  lemma IfPushParts(code: seq<Op>, pc: nat, e: Expr) returns (thn: nat)
    requires e.IfOnly? && IfOnlyCoded(code, {}, pc, e, false)
    ensures Coded(code, {}, pc, e.cond, false)
    ensures OpAt(code, pc + Len(e.cond, false), If(thn))
    ensures DiscardCoded(code, {}, thn, e.thn) && OpAt(code, thn + DiscardLen(e.thn), EndCode)
  {
    hide Coded, Filled, Len, DiscardCoded;
    var at := pc + Len(e.cond, false);
    thn := code[at].thn;
    NoHole(code, at, 0, thn, DiscardedIfBranch(e.thn));
  }

  lemma IfIntoParts(code: seq<Op>, pc: nat, e: Expr) returns (thn: nat, els: nat)
    requires e.IfOnly? && IfOnlyCoded(code, {}, pc, e, true)
    ensures Coded(code, {}, pc, e.cond, false)
    ensures OpAt(code, pc + Len(e.cond, false), IfElseOp(true, thn, els))
    ensures OpAt(code, thn, CheckWriteCtxVoid) && Coded(code, {}, thn + 1, e.thn, true)
    ensures OpAt(code, thn + 1 + Len(e.thn, true), EndCode)
    ensures OpAt(code, els, ValueVoid(true)) && OpAt(code, els + 1, EndCode)
  {
    hide Coded, Filled, Len;
    var at := pc + Len(e.cond, false);
    thn, els := code[at].thn, code[at].els;
    NoHole(code, at, 0, thn, IfBranch(e.thn, true, true));
    NoHole(code, at, 1, els, VoidValue);
  }

  lemma IfStep(p: Program, pc: nat, m: M, thn: nat, d: Data, x: Loc)
    requires OpAt(p.code, pc, If(thn))
    requires LocOk(With(m, d), x) && At(With(m, d), x).ty == At(With(m, d), x).val.TypeOf()
    ensures var v := At(With(m, d), x).val;
      Step(p.code, p.globals, pc, Left(With(m, d), true, x))
         == if !v.VBool? then Fault
            else if v.b then Next(thn, Activate(With(m, d), pc + 1))
            else Next(pc + 1, With(m, d))
  {
    var m1 := Left(With(m, d), true, x);
    StepPlain(p, pc, m1, If(thn));
    assert PopValue(m1) == With(m, d);
  }

  lemma CheckVoidStep(p: Program, pc: nat, m: M, mode: Mode)
    requires OpAt(p.code, pc, CheckWriteCtxVoid) && mode.Into? && InContext(m, mode)
    ensures Step(p.code, p.globals, pc, m) == if mode.ty == TVoid then Next(pc + 1, m) else Fault
  {
    StepPlain(p, pc, m, CheckWriteCtxVoid);
  }

  // ---------- Values that are thrown away ----------

  // An evaluation that left nothing.
  lemma Arrived(p: Program, pc: nat, env: Env, m: M, o: Operand, env1: Env, fuel: nat, end: nat, a: nat, d: Data)
    returns (s: Sim)
    requires Reaches(p, pc, m, a, end, With(m, d))
    requires Keeps(p.code, m.scopes, m.closures, env, DataOf(m), env1, d)
    ensures Simulated(p, pc, env, m, Push, false, Done(o, env1), fuel, end, s)
  {
    hide Run, Keeps, ValueRel, OperandRel, Reaches;
    s := Sim(a, d, FixedLoc(VVoid), VVoid);
  }

  lemma NothingLeft(p: Program, pc: nat, env: Env, m: M, r: Result<Operand>, fuel: nat, end: nat, s: Sim)
    requires r.Done? && Simulated(p, pc, env, m, Push, false, r, fuel, end, s)
    ensures Keeps(p.code, m.scopes, m.closures, env, DataOf(m), r.env, s.d)
    ensures Rel(p.code, r.env, m.scopes, m.closures, s.d.members)
    ensures Reaches(p, pc, m, s.n, end, With(m, s.d))
  {
    hide ValueRel, ScopeRel, Owned, Reaches;
  }

  lemma DiscardReady(p: Program, e: Expr, pc: nat, env: Env, m: M, vs: nat, cs: nat)
    requires DiscardCoded(p.code, {}, pc, e) && Sound(e, false, vs, cs)
    requires Rel(p.code, env, m.scopes, m.closures, m.members)
    ensures Ready(p, e, pc, env, m, Push, vs, cs)
    ensures Yields(e) ==> OpAt(p.code, pc + Len(e, false), DiscardVoid)
  {
    hide Rel, Coded, Sound, Len;
  }

  lemma DiscardStep(p: Program, pc: nat, m: M, d: Data, x: Loc)
    requires OpAt(p.code, pc, DiscardVoid) && LocOk(With(m, d), x)
    ensures Step(p.code, p.globals, pc, Left(With(m, d), true, x))
         == if At(With(m, d), x).ty == TVoid then Next(pc + 1, With(m, d)) else Fault
  {
    var m1 := Left(With(m, d), true, x);
    StepPlain(p, pc, m1, DiscardVoid);
    assert PopValue(m1) == With(m, d);
  }

  // ---------- Loops ----------

  lemma ForReady(p: Program, e: Expr, pc: nat, env: Env, m: M, vs: nat, cs: nat)
    requires e.For? && Ready(p, e, pc, env, m, Push, vs, cs)
    ensures ForCoded(p.code, {}, pc, e) && Yields(e.cond) && Len(e, false) == Len(e.cond, false) + 1
    ensures Sound(e.cond, false, vs, cs) && Sound(e.body, false, 0, 0)
        && (e.step.Advance? ==> Sound(e.step.e, false, 0, 0))
  {
    hide Rel, ForCoded;
  }

  lemma ForPushes(p: Program, e: Expr, pc: nat, env: Env, m: M, mode: Mode, vs: nat, cs: nat)
    requires e.For? && Ready(p, e, pc, env, m, mode, vs, cs)
    ensures mode.Push?
  {
    hide Rel, Sound;
  }

  lemma ForParts(code: seq<Op>, pc: nat, e: Expr) returns (body: nat)
    requires e.For? && ForCoded(code, {}, pc, e)
    ensures Coded(code, {}, pc, e.cond, false)
    ensures OpAt(code, pc + Len(e.cond, false), Loop(pc, body))
    ensures DiscardCoded(code, {}, body, e.body)
    ensures var at := body + DiscardLen(e.body);
      match e.step
      case NoStep => OpAt(code, at, EndCode)
      case Advance(e2) => DiscardCoded(code, {}, at, e2) && OpAt(code, at + DiscardLen(e2), EndCode)
  {
    hide Coded, Filled, Len, DiscardCoded;
    var at := pc + Len(e.cond, false);
    body := code[at].body;
    NoHole(code, at, 1, body, LoopBody(e.body, e.step));
  }

  lemma LoopOpStep(p: Program, pc: nat, m: M, cond: nat, body: nat, d: Data, x: Loc)
    requires OpAt(p.code, pc, Loop(cond, body))
    requires LocOk(With(m, d), x) && At(With(m, d), x).ty == At(With(m, d), x).val.TypeOf()
    ensures var v := At(With(m, d), x).val;
      Step(p.code, p.globals, pc, Left(With(m, d), true, x))
         == if !v.VBool? then Fault
            else if v.b then Next(body, Activate(With(m, d), cond))
            else Next(pc + 1, With(m, d))
  {
    var m1 := Left(With(m, d), true, x);
    StepPlain(p, pc, m1, Loop(cond, body));
    assert PopValue(m1) == With(m, d);
  }

  // One iteration without the condition.
  function EvalBody(g: seq<Global>, e: Expr, env: Env, fuel: nat): Result<Operand>
    requires e.For?
  {
    match EvalDiscard(g, e.body, env, fuel)
    case Done(_, env1) => EvalStep(g, e.step, env1, fuel)
    case r => r
  }

  lemma EvalFor(g: seq<Global>, e: Expr, env: Env, fuel: nat)
    requires e.For?
    ensures Eval(g, e, env, Push, fuel) == EvalLoop(g, e, env, fuel)
    ensures EvalLoop(g, e, env, fuel) ==
      match Eval(g, e.cond, env, Push, fuel)
      case Done(o, env1) =>
        if !Readable(env1, o) then Undefined
        else if !Read(env1, o).VBool? then Error
        else if !Read(env1, o).b then Done(Temp(VVoid), env1)
        else
          (match EvalBody(g, e, env1, fuel)
           case Done(_, env3) => if fuel == 0 then Timeout else EvalLoop(g, e, env3, fuel - 1)
           case r => r)
      case r => r
  {
    hide EvalStep, EvalDiscard;
  }

  // ---------- Assignments ----------

  lemma SetReady(p: Program, e: Expr, pc: nat, env: Env, m: M, mode: Mode, vs: nat, cs: nat)
    requires e.Set? && Ready(p, e, pc, env, m, mode, vs, cs)
    ensures Ready(p, e.target, pc, env, m, Push, vs, cs) && Yields(e.target)
    ensures Len(e, mode.Into?) == Len(e.target, false) + 1 + Len(e.value, true) + Bit(mode.Into?)
    ensures var mid := pc + Len(e.target, false);
      && OpAt(p.code, mid, SetWriteCtx)
      && Coded(p.code, {}, mid + 1, e.value, true) && Sound(e.value, true, vs, cs + 1)
      && (mode.Into? ==> OpAt(p.code, mid + 1 + Len(e.value, true), ValueVoid(true)))
  {
    hide Rel, OpAt;
    assert SetCoded(p.code, {}, pc, e, mode.Into?);
  }

  lemma OpSetReady(p: Program, e: Expr, pc: nat, env: Env, m: M, mode: Mode, vs: nat, cs: nat)
    requires e.OpSet? && Ready(p, e, pc, env, m, mode, vs, cs)
    ensures Ready(p, e.target, pc, env, m, Push, vs, cs) && Yields(e.target) && Yields(e.value)
    ensures Len(e, mode.Into?) == Len(e.target, false) + 1 + Len(e.value, false) + 1 + Bit(mode.Into?)
    ensures var mid := pc + Len(e.target, false);
      && OpAt(p.code, mid, DuplicateToWriteCtx)
      && Coded(p.code, {}, mid + 1, e.value, false) && Sound(e.value, false, vs + 1, cs + 1)
      && OpAt(p.code, mid + 1 + Len(e.value, false), BinaryOp(true, e.bop))
      && (mode.Into? ==> OpAt(p.code, mid + 1 + Len(e.value, false) + 1, ValueVoid(true)))
  {
    hide Rel, OpAt;
    assert OpSetCoded(p.code, {}, pc, e, mode.Into?);
  }

  // `m` with a write context for the location of an operand.
  function InTarget(m: M, d: Data, x: Loc): M {
    With(m, d).(ctxs := m.ctxs + [x])
  }

  lemma SetStep(p: Program, pc: nat, m: M, d: Data, x: Loc)
    requires OpAt(p.code, pc, SetWriteCtx) && LocOk(With(m, d), x)
    ensures Step(p.code, p.globals, pc, Left(With(m, d), true, x))
         == if At(With(m, d), x).isMut then Next(pc + 1, InTarget(m, d, x)) else Fault
  {
    var m1 := Left(With(m, d), true, x);
    StepPlain(p, pc, m1, SetWriteCtx);
    assert PopValue(m1) == With(m, d);
  }

  lemma DuplicateStep(p: Program, pc: nat, m: M, d: Data, x: Loc)
    requires OpAt(p.code, pc, DuplicateToWriteCtx) && LocOk(With(m, d), x)
    ensures Step(p.code, p.globals, pc, Left(With(m, d), true, x))
         == if At(With(m, d), x).isMut then Next(pc + 1, Left(InTarget(m, d, x), true, x)) else Fault
  {
    StepPlain(p, pc, Left(With(m, d), true, x), DuplicateToWriteCtx);
  }

  // Storing through the write context of an operand writes the operand.
  lemma TargetStored(code: seq<Op>, m: M, env: Env, env1: Env, d1: Data, o: Operand, x: Loc, env2: Env, d2: Data, v: V,
                     w: W)
    returns (d: Data)
    requires Keeps(code, m.scopes, m.closures, env, DataOf(m), env1, d1)
    requires Keeps(code, m.scopes, m.closures, env1, d1, env2, d2)
    requires OperandRel(code, m.scopes, env1, d1, |m.temps|, o, x) && Mutable(env1, o)
    requires ValueRel(code, v, w) && v.TypeOf() == OperandType(env1, o)
    ensures Readable(env2, o) && LocOk(With(m, d2), x) && OperandType(env2, o) == OperandType(env1, o)
    ensures At(With(m, d2), x).ty == OperandType(env1, o)
    ensures Keeps(code, m.scopes, m.closures, env, DataOf(m), Write(env2, o, v), d)
    ensures Store(With(m, d2), x, w) == With(m, d)
  {
    hide Rel, Keeps, ValueRel, OperandRel;
    OperandKept(code, m.scopes, m.closures, env1, d1, env2, d2, |m.temps|, o, x);
    KeepsTrans(code, m.scopes, m.closures, env, DataOf(m), env1, d1, env2, d2);
    KeepsRel(code, m.scopes, m.closures, env1, d1, env2, d2);
    OperandAt(code, m, env2, d2, |m.temps|, o, x);
    WriteKeeps(code, m, env2, d2, |m.temps|, o, x, v, w);
    d := DataOf(Store(With(m, d2), x, w));
    if o.Place? {
      KeepsTrans(code, m.scopes, m.closures, env, DataOf(m), env2, d2, Write(env2, o, v), d);
    } else {
      TempKeeps(code, m.scopes, m.closures, env, DataOf(m), env2, d2, x.i, w);
    }
  }

  lemma KeepsRel(code: seq<Op>, scopes: seq<Scope>, closures: seq<seq<W>>, env: Env, d: Data, env': Env, d': Data)
    requires Keeps(code, scopes, closures, env, d, env', d')
    ensures Rel(code, env', scopes, closures, d'.members)
  {
    hide Rel, SameShape, OthersKept, SameTypes;
  }

  // Overwriting a temporary that is new.
  lemma TempKeeps(code: seq<Op>, scopes: seq<Scope>, closures: seq<seq<W>>, env: Env, d: Data, env': Env, d': Data,
                  i: nat, w: W)
    requires Keeps(code, scopes, closures, env, d, env', d') && |d.temps| <= i < |d'.temps|
    ensures Keeps(code, scopes, closures, env, d, env', Data(d'.members, d'.temps[i := d'.temps[i].(val := w)]))
  {
    hide Rel, SameShape, OthersKept, SameTypes;
  }

  lemma ValueStored(p: Program, pc: nat, env: Env, m: M, mode: Mode, leaves: bool, r: Result<Operand>, fuel: nat,
                    end: nat, s: Sim)
    requires r.Done? && mode.Into? && Simulated(p, pc, env, m, mode, leaves, r, fuel, end, s)
    ensures Keeps(p.code, m.scopes, m.closures, env, DataOf(m), r.env, s.d)
    ensures Rel(p.code, r.env, m.scopes, m.closures, s.d.members)
    ensures r.value.Temp? && r.value.v.TypeOf() == mode.ty && ValueRel(p.code, r.value.v, s.w)
    ensures Reaches(p, pc, m, s.n, end, Stored(With(m, s.d), s.w))
  {
    hide ValueRel, ScopeRel, Owned, Reaches, Stored;
  }

  lemma StoredInTarget(m: M, d1: Data, x: Loc, d: Data, w: W)
    requires LocOk(With(m, d), x)
    ensures Stored(With(InTarget(m, d1, x), d), w) == Store(With(m, d), x, w)
  {
    assert Front(m.ctxs + [x]) == m.ctxs;
  }

  lemma OperateStep(p: Program, op: BinaryKind, pc: nat, m: M, s1: Sim, s2: Sim)
    requires OpAt(p.code, pc, BinaryOp(true, op))
    requires LocOk(With(m, s2.d), s1.x) && LocOk(With(m, s2.d), s2.x)
    ensures var d := s2.d;
      Step(p.code, p.globals, pc, After(Left(InTarget(m, s1.d, s1.x), true, s1.x), s2))
         == match ApplyBinary(op, At(With(m, d), s1.x).val, At(With(m, d), s2.x).val)
            case Some(w) =>
              if w.TypeOf() != At(With(m, d), s1.x).ty then Fault else Next(pc + 1, Store(With(m, d), s1.x, w))
            case None => Fault
  {
    hide ApplyBinary, Handle;
    var m0 := m.(ctxs := m.ctxs + [s1.x]);
    assert After(Left(InTarget(m, s1.d, s1.x), true, s1.x), s2) == Both(m0, s1, s2);
    SameLocation(With(m0, s2.d), With(m, s2.d), s1.x);
    SameLocation(With(m0, s2.d), With(m, s2.d), s2.x);
    BinaryStep(p, op, pc, m0, true, s1, s2);
    assert Consumed(With(m0, s2.d), true) == With(m, s2.d) by { assert Front(m0.ctxs) == m.ctxs; }
  }

  lemma TimedOut(p: Program, pc: nat, env: Env, m: M, end: nat, a: nat, pc1: nat, m1: M) returns (s: Sim)
    requires Reaches(p, pc, m, a, pc1, m1)
    ensures Simulated(p, pc, env, m, Push, false, Timeout, 0, end, s)
  {
    hide Run;
    s := Sim(a, DataOf(m), FixedLoc(VVoid), VVoid);
  }
}
