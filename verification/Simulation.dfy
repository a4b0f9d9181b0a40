/** The compiled code of an expression does what the expression means. */
module Simulation {
  import opened Basics
  import opened Lang
  import opened Machine
  import opened Coding
  import opened Relation
  import opened Steps
  import opened Blocks
  import opened Calls

  lemma SimulateLit(p: Program, e: Expr, pc: nat, env: Env, m: M, mode: Mode, fuel: nat, vs: nat, cs: nat)
    returns (s: Sim)
    requires e.Lit? && Ready(p, e, pc, env, m, mode, vs, cs)
    ensures Runs(p, e, pc, env, m, mode, fuel, s)
  {
    hide Run, Step, Rel, Keeps, Simulated, Finish, Sound, ValueRel, PutTemporary;
    LitStep(p, pc, m, mode.Into?, e.n);
    Here(p, pc, m);
    KeepsRefl(p.code, m.scopes, m.closures, env, DataOf(m));
    s := Finishing(p, pc, env, m, mode, fuel, 0, pc, m, env, DataOf(m), VInt(e.n), VInt(e.n), pc + 1);
  }

  lemma SimulateScoped(p: Program, e: Expr, pc: nat, env: Env, m: M, mode: Mode, fuel: nat, vs: nat, cs: nat)
    returns (s: Sim)
    requires e.Scoped? && Ready(p, e, pc, env, m, mode, vs, cs)
    ensures Runs(p, e, pc, env, m, mode, fuel, s)
  {
    hide Run, Step, Keeps, Simulated, ValueRel, Sound, PutLocation, ScopeRel, ClosureRel;
    var o := ScopedOperand(env, e.out, e.rank);
    if Readable(env, o) {
      ScopedStep(p, pc, m, mode.Into?, env, e.out, e.rank);
      Here(p, pc, m);
      KeepsRefl(p.code, m.scopes, m.closures, env, DataOf(m));
      var x := Member(First(env, m.scopes, o.scope) + o.rank);
      s := Loading(p, pc, env, m, mode, fuel, 0, pc, m, env, DataOf(m), o, x, pc + 1);
    } else {
      s := Unspecified(p, pc, env, m, mode, true, fuel, pc + 1);
    }
  }

  lemma SimulateClosed(p: Program, e: Expr, pc: nat, env: Env, m: M, mode: Mode, fuel: nat, vs: nat, cs: nat)
    returns (s: Sim)
    requires e.Closed? && Ready(p, e, pc, env, m, mode, vs, cs)
    ensures Runs(p, e, pc, env, m, mode, fuel, s)
  {
    hide Run, Step, Keeps, Simulated, ValueRel, Sound, PutLocation, ScopeRel;
    if e.slot < |env.closure| {
      ClosedStep(p, pc, m, mode.Into?, e.slot);
      Here(p, pc, m);
      KeepsRefl(p.code, m.scopes, m.closures, env, DataOf(m));
      s := Loading(p, pc, env, m, mode, fuel, 0, pc, m, env, DataOf(m),
                   Fixed(env.closure[e.slot]), FixedLoc(Top(m.closures)[e.slot]), pc + 1);
    } else {
      s := Unspecified(p, pc, env, m, mode, true, fuel, pc + 1);
    }
  }

  lemma SimulateGlobal(p: Program, e: Expr, pc: nat, env: Env, m: M, mode: Mode, fuel: nat, vs: nat, cs: nat)
    returns (s: Sim)
    requires e.GlobalRef? && Ready(p, e, pc, env, m, mode, vs, cs)
    ensures Runs(p, e, pc, env, m, mode, fuel, s)
  {
    hide Run, Step, Keeps, Simulated, ValueRel, Sound, PutLocation, Rel;
    if e.index < |p.globals| {
      GlobalStep(p, pc, m, mode.Into?, e.index);
      Here(p, pc, m);
      KeepsRefl(p.code, m.scopes, m.closures, env, DataOf(m));
      s := Loading(p, pc, env, m, mode, fuel, 0, pc, m, env, DataOf(m),
                   Fixed(p.globals[e.index].Val()), FixedLoc(p.globals[e.index].Val()), pc + 1);
    } else {
      s := Unspecified(p, pc, env, m, mode, true, fuel, pc + 1);
    }
  }

  lemma SimulateUnary(p: Program, e: Expr, pc: nat, env: Env, m: M, mode: Mode, fuel: nat, vs: nat, cs: nat)
    returns (s: Sim)
    requires e.Unary? && Ready(p, e, pc, env, m, mode, vs, cs)
    ensures Runs(p, e, pc, env, m, mode, fuel, s)
    decreases fuel, e, 1
  {
    hide Run, Step, Rel, Keeps, OperandRel, Coded, Sound, Len, ApplyUnary, ValueRel, Cut, Finish, SimulatedFrom;
    UnaryReady(p, e, pc, env, m, mode, vs, cs);
    var s1 := Simulate(p, e.operand, pc, env, m, Push, fuel, vs, cs);
    var end := pc + Len(e, mode.Into?);
    match Eval(p.globals, e.operand, env, Push, fuel)
    case Done(o, env1) =>
      var pc1 := pc + Len(e.operand, false);
      OperandLeft(p, pc, env, m, Done(o, env1), fuel, pc1, s1);
      var w := At(With(m, s1.d), s1.x).val;
      UnaryStep(p, e.uop, pc1, m, mode.Into?, s1.d, s1.x);
      UnaryAgrees(p.code, e.uop, Read(env1, o), w);
      match ApplyUnary(e.uop, Read(env1, o)) {
        case Some(v) =>
          s := Finishing(p, pc, env, m, mode, fuel, s1.n, pc1, After(m, s1), env1, s1.d, v, ApplyUnary(e.uop, w).value,
            end);
        case None => s := Faults(p, pc, env, m, mode, true, fuel, end, s1.n, pc1, After(m, s1));
      }
    case r =>
      CutAtOnce(p, pc, env, m, mode, true, r, fuel, end, Push, true, pc + Len(e.operand, false), s1);
      s := s1;
  }

  lemma SimulateBinary(p: Program, e: Expr, pc: nat, env: Env, m: M, mode: Mode, fuel: nat, vs: nat, cs: nat)
    returns (s: Sim)
    requires e.Binary? && Ready(p, e, pc, env, m, mode, vs, cs)
    ensures Runs(p, e, pc, env, m, mode, fuel, s)
    decreases fuel, e, 1
  {
    hide Run, Step, Rel, Keeps, OperandRel, Coded, Sound, Len, ApplyBinary, ValueRel, Cut, Finish, SimulatedFrom;
    BinaryReady(p, e, pc, env, m, mode, vs, cs);
    assert Eval(p.globals, e, env, mode, fuel) == EvalBinary(p.globals, e.bop, e.lhs, e.rhs, env, mode, fuel);
    var s1 := Simulate(p, e.lhs, pc, env, m, Push, fuel, vs, cs);
    var end := pc + Len(e, mode.Into?);
    match Eval(p.globals, e.lhs, env, Push, fuel)
    case Done(o1, env1) =>
      var mid := pc + Len(e.lhs, false);
      OperandLeft(p, pc, env, m, Done(o1, env1), fuel, mid, s1);
      var s2 := Simulate(p, e.rhs, mid, env1, After(m, s1), Push, fuel, vs + 1, cs);
      match Eval(p.globals, e.rhs, env1, Push, fuel) {
        case Done(o2, env2) =>
          var pc2 := mid + Len(e.rhs, false);
          OperandsLeft(p, pc, env, m, Done(o1, env1), fuel, mid, s1, Done(o2, env2), pc2, s2);
          var w1, w2 := At(With(m, s2.d), s1.x).val, At(With(m, s2.d), s2.x).val;
          BinaryStep(p, e.bop, pc2, m, mode.Into?, s1, s2);
          BinaryAgrees(p.code, e.bop, Read(env2, o1), w1, Read(env2, o2), w2);
          match ApplyBinary(e.bop, Read(env2, o1), Read(env2, o2)) {
            case Some(v) =>
              s := Finishing(p, pc, env, m, mode, fuel, s1.n + s2.n, pc2, Both(m, s1, s2), env2, s2.d, v,
                ApplyBinary(e.bop, w1, w2).value, end);
            case None => s := Faults(p, pc, env, m, mode, true, fuel, end, s1.n + s2.n, pc2, Both(m, s1, s2));
          }
        case r =>
          s := CutShort(p, pc, env, m, mode, true, r, fuel, end, s1.n, mid, env1, After(m, s1), Push, true,
            mid + Len(e.rhs, false), s2);
      }
    case r =>
      CutAtOnce(p, pc, env, m, mode, true, r, fuel, end, Push, true, pc + Len(e.lhs, false), s1);
      s := s1;
  }

  lemma SimulateIfElse(p: Program, e: Expr, pc: nat, env: Env, m: M, mode: Mode, fuel: nat, vs: nat, cs: nat)
    returns (s: Sim)
    requires e.IfElse? && Ready(p, e, pc, env, m, mode, vs, cs)
    ensures Runs(p, e, pc, env, m, mode, fuel, s)
    decreases fuel, e, 1
  {
    hide Run, Step, Rel, Keeps, OperandRel, Coded, Sound, Len, ValueRel, Cut, SimulatedFrom, IfElseCoded;
    IfElseReady(p, e, pc, env, m, mode, vs, cs);
    var thn, els := IfElseParts(p.code, pc, e, mode.Into?);
    var s1 := Simulate(p, e.cond, pc, env, m, Push, fuel, vs, cs);
    var end := pc + Len(e, mode.Into?);
    match Eval(p.globals, e.cond, env, Push, fuel)
    case Done(o, env1) =>
      var pc1 := pc + Len(e.cond, false);
      OperandLeft(p, pc, env, m, Done(o, env1), fuel, pc1, s1);
      IfElseStep(p, pc1, m, mode.Into?, thn, els, s1.d, s1.x);
      BoolAgrees(p.code, Read(env1, o), At(With(m, s1.d), s1.x).val);
      if Read(env1, o).VBool? {
        var e', a := if Read(env1, o).b then e.thn else e.els, if Read(env1, o).b then thn else els;
        ThenStep(p, pc, m, s1.n, pc1, After(m, s1));
        var m1 := With(m, s1.d);
        BranchReady(p, e', a, env, m, mode, env1, s1.d, end, 0, Bit(mode.Into?));
        var s2 := Simulate(p, e', a, env1, Activate(m1, end), mode, fuel, 0, Bit(mode.Into?));
        var r := Eval(p.globals, e', env1, mode, fuel);
        var s3 := SegmentEnds(p, a, env1, m1, mode, Yields(e'), r, fuel, a + Len(e', mode.Into?), end, s2);
        s := Continued(p, pc, env, m, mode, Yields(e'), r, fuel, end, s1.n + 1, a, Activate(m1, end), env1, s1.d, fuel,
          s3);
        SameLeaves(p, pc, env, m, mode, Yields(e'), r, fuel, end, s);
      } else {
        s := Faults(p, pc, env, m, mode, true, fuel, end, s1.n, pc1, After(m, s1));
      }
    case r =>
      CutAtOnce(p, pc, env, m, mode, true, r, fuel, end, Push, true, pc + Len(e.cond, false), s1);
      s := s1;
  }

  lemma SimulateDiscard(p: Program, e: Expr, pc: nat, env: Env, m: M, fuel: nat, vs: nat, cs: nat) returns (s: Sim)
    requires DiscardCoded(p.code, {}, pc, e) && Sound(e, false, vs, cs)
    requires Rel(p.code, env, m.scopes, m.closures, m.members)
    ensures Simulated(p, pc, env, m, Push, false, EvalDiscard(p.globals, e, env, fuel), fuel, pc + DiscardLen(e), s)
    decreases fuel, e, 4
  {
    hide Run, Step, Rel, Keeps, OperandRel, Coded, Sound, Len, ValueRel, Cut, SimulatedFrom, Eval;
    DiscardReady(p, e, pc, env, m, vs, cs);
    var s1 := Simulate(p, e, pc, env, m, Push, fuel, vs, cs);
    var end, pc1 := pc + DiscardLen(e), pc + Len(e, false);
    match Eval(p.globals, e, env, Push, fuel)
    case Done(o, env1) =>
      if Yields(e) {
        OperandLeft(p, pc, env, m, Done(o, env1), fuel, pc1, s1);
        DiscardStep(p, pc1, m, s1.d, s1.x);
        if OperandType(env1, o) == TVoid {
          ThenStep(p, pc, m, s1.n, pc1, After(m, s1));
          s := Arrived(p, pc, env, m, Temp(VVoid), env1, fuel, end, s1.n + 1, s1.d);
        } else {
          s := Faults(p, pc, env, m, Push, false, fuel, end, s1.n, pc1, After(m, s1));
        }
      } else {
        NothingLeft(p, pc, env, m, Done(o, env1), fuel, pc1, s1);
        s := Arrived(p, pc, env, m, Temp(VVoid), env1, fuel, end, s1.n, s1.d);
      }
    case r =>
      CutAtOnce(p, pc, env, m, Push, false, r, fuel, end, Push, Yields(e), pc1, s1);
      s := s1;
  }

  lemma SimulateIfPush(p: Program, e: Expr, pc: nat, env: Env, m: M, fuel: nat, vs: nat, cs: nat) returns (s: Sim)
    requires e.IfOnly? && Ready(p, e, pc, env, m, Push, vs, cs)
    ensures Runs(p, e, pc, env, m, Push, fuel, s)
    decreases fuel, e, 1
  {
    hide Run, Step, Rel, Keeps, OperandRel, Coded, Sound, Len, ValueRel, Cut, SimulatedFrom, IfOnlyCoded, DiscardCoded;
    IfOnlyReady(p, e, pc, env, m, Push, vs, cs);
    var thn := IfPushParts(p.code, pc, e);
    var s1 := Simulate(p, e.cond, pc, env, m, Push, fuel, vs, cs);
    var end, pc1 := pc + Len(e, false), pc + Len(e.cond, false);
    match Eval(p.globals, e.cond, env, Push, fuel)
    case Done(o, env1) =>
      OperandLeft(p, pc, env, m, Done(o, env1), fuel, pc1, s1);
      IfStep(p, pc1, m, thn, s1.d, s1.x);
      BoolAgrees(p.code, Read(env1, o), At(With(m, s1.d), s1.x).val);
      var m1 := With(m, s1.d);
      ThenStep(p, pc, m, s1.n, pc1, After(m, s1));
      if !Read(env1, o).VBool? {
        s := Faults(p, pc, env, m, Push, false, fuel, end, s1.n, pc1, After(m, s1));
      } else if Read(env1, o).b {
        var s2 := SimulateDiscard(p, e.thn, thn, env1, Activate(m1, end), fuel, 0, 0);
        var r := EvalDiscard(p.globals, e.thn, env1, fuel);
        var s3 := SegmentEnds(p, thn, env1, m1, Push, false, r, fuel, thn + DiscardLen(e.thn), end, s2);
        s := Continued(p, pc, env, m, Push, false, r, fuel, end, s1.n + 1, thn, Activate(m1, end), env1, s1.d, fuel,
          s3);
      } else {
        s := Arrived(p, pc, env, m, Temp(VVoid), env1, fuel, end, s1.n + 1, s1.d);
      }
    case r =>
      CutAtOnce(p, pc, env, m, Push, false, r, fuel, end, Push, true, pc1, s1);
      s := s1;
  }

  // The void value a missing branch stands for.
  lemma SimulateVoidBranch(p: Program, pc: nat, env: Env, m: M, mode: Mode, fuel: nat, ret: nat) returns (s: Sim)
    requires mode.Into? && OpAt(p.code, pc, ValueVoid(true)) && OpAt(p.code, pc + 1, EndCode)
    requires Rel(p.code, env, m.scopes, m.closures, m.members) && InContext(m, mode)
    ensures SimulatedFrom(p, pc, Activate(m, ret), env, m, mode, true, Finish(VVoid, env, mode), fuel, ret, s)
  {
    hide Run, Step, Rel, Keeps, OperandRel, SimulatedFrom, Finish, ValueRel, PutTemporary;
    var m0 := Activate(m, ret);
    VoidStep(p, pc, m0, true);
    Here(p, pc, m0);
    KeepsRefl(p.code, m0.scopes, m0.closures, env, DataOf(m0));
    assert InContext(m0, mode);
    var s1 := Finishing(p, pc, env, m0, mode, fuel, 0, pc, m0, env, DataOf(m0), VVoid, VVoid, pc + 1);
    s := SegmentEnds(p, pc, env, m, mode, true, Finish(VVoid, env, mode), fuel, pc + 1, ret, s1);
  }

  // A branch that has to be void.
  lemma SimulateIfIntoBranch(p: Program, e: Expr, pc: nat, env: Env, m: M, mode: Mode, fuel: nat, ret: nat)
    returns (s: Sim)
    requires mode.Into? && mode.ty == TVoid
    requires OpAt(p.code, pc, CheckWriteCtxVoid) && OpAt(p.code, pc + 1 + Len(e, true), EndCode)
    requires Coded(p.code, {}, pc + 1, e, true) && Sound(e, true, 0, 1)
    requires Rel(p.code, env, m.scopes, m.closures, m.members) && InContext(m, mode)
    ensures SimulatedFrom(p, pc, Activate(m, ret), env, m, mode, Yields(e), Eval(p.globals, e, env, mode, fuel), fuel,
        ret, s)
    decreases fuel, e, 4
  {
    hide Run, Step, Rel, Keeps, OperandRel, Coded, Sound, SimulatedFrom, Eval, Len, At;
    var m0 := Activate(m, ret);
    SameLocation(m, m0, Top(m.ctxs));
    CheckVoidStep(p, pc, m0, mode);
    Here(p, pc, m0);
    ThenStep(p, pc, m0, 0, pc, m0);
    var s1 := Simulate(p, e, pc + 1, env, m0, mode, fuel, 0, 1);
    var r := Eval(p.globals, e, env, mode, fuel);
    var end := pc + 1 + Len(e, true);
    KeepsRefl(p.code, m0.scopes, m0.closures, env, DataOf(m0));
    var s2 := Continued(p, pc, env, m0, mode, Yields(e), r, fuel, end, 1, pc + 1, m0, env, DataOf(m0), fuel, s1);
    s := SegmentEnds(p, pc, env, m, mode, Yields(e), r, fuel, end, ret, s2);
  }

  lemma SimulateIfInto(p: Program, e: Expr, pc: nat, env: Env, m: M, mode: Mode, fuel: nat, vs: nat, cs: nat)
    returns (s: Sim)
    requires e.IfOnly? && mode.Into? && Ready(p, e, pc, env, m, mode, vs, cs)
    ensures Runs(p, e, pc, env, m, mode, fuel, s)
    decreases fuel, e, 1
  {
    hide Run, Step, Rel, Keeps, OperandRel, Coded, Sound, Len, ValueRel, Cut, SimulatedFrom, IfOnlyCoded, Finish;
    IfOnlyReady(p, e, pc, env, m, mode, vs, cs);
    var thn, els := IfIntoParts(p.code, pc, e);
    var s1 := Simulate(p, e.cond, pc, env, m, Push, fuel, vs, cs);
    var end, pc1 := pc + Len(e, true), pc + Len(e.cond, false);
    match Eval(p.globals, e.cond, env, Push, fuel)
    case Done(o, env1) =>
      OperandLeft(p, pc, env, m, Done(o, env1), fuel, pc1, s1);
      IfElseStep(p, pc1, m, true, thn, els, s1.d, s1.x);
      BoolAgrees(p.code, Read(env1, o), At(With(m, s1.d), s1.x).val);
      var m1 := With(m, s1.d);
      ContextKept(p.code, env, m, env1, s1.d, mode);
      ThenStep(p, pc, m, s1.n, pc1, After(m, s1));
      if !Read(env1, o).VBool? {
        s := Faults(p, pc, env, m, mode, false, fuel, end, s1.n, pc1, After(m, s1));
      } else if !Read(env1, o).b {
        var s3 := SimulateVoidBranch(p, els, env1, m1, mode, fuel, end);
        s := Continued(p, pc, env, m, mode, true, Finish(VVoid, env1, mode), fuel, end, s1.n + 1, els, Activate(m1,
          end), env1, s1.d, fuel, s3);
        SameLeaves(p, pc, env, m, mode, true, Finish(VVoid, env1, mode), fuel, end, s);
      } else if mode.ty != TVoid {
        var m0 := Activate(m1, end);
        SameLocation(m1, m0, Top(m.ctxs));
        CheckVoidStep(p, thn, m0, mode);
        s := Faults(p, pc, env, m, mode, false, fuel, end, s1.n + 1, thn, m0);
      } else {
        var s3 := SimulateIfIntoBranch(p, e.thn, thn, env1, m1, mode, fuel, end);
        var r := Eval(p.globals, e.thn, env1, mode, fuel);
        s := Continued(p, pc, env, m, mode, Yields(e.thn), r, fuel, end, s1.n + 1, thn, Activate(m1, end), env1, s1.d,
          fuel, s3);
        SameLeaves(p, pc, env, m, mode, Yields(e.thn), r, fuel, end, s);
      }
    case r =>
      CutAtOnce(p, pc, env, m, mode, false, r, fuel, end, Push, true, pc1, s1);
      s := s1;
  }

  lemma SimulateBody(p: Program, e: Expr, pc: nat, env: Env, m: M, fuel: nat, ret: nat) returns (s: Sim)
    requires e.For? && DiscardCoded(p.code, {}, pc, e.body) && Sound(e.body, false, 0, 0)
    requires var at := pc + DiscardLen(e.body);
      match e.step
      case NoStep => OpAt(p.code, at, EndCode)
      case Advance(e2) =>
        DiscardCoded(p.code, {}, at, e2) && OpAt(p.code, at + DiscardLen(e2), EndCode) && Sound(e2, false, 0, 0)
    requires Rel(p.code, env, m.scopes, m.closures, m.members)
    ensures SimulatedFrom(p, pc, Activate(m, ret), env, m, Push, false, EvalBody(p.globals, e, env, fuel), fuel, ret, s)
    decreases fuel, e, 0
  {
    hide Run, Step, Rel, Keeps, OperandRel, Coded, DiscardCoded, Sound, Len, SimulatedFrom, EvalDiscard, Eval;
    var m0 := Activate(m, ret);
    var s1 := SimulateDiscard(p, e.body, pc, env, m0, fuel, 0, 0);
    var at := pc + DiscardLen(e.body);
    var r1, r := EvalDiscard(p.globals, e.body, env, fuel), EvalBody(p.globals, e, env, fuel);
    if !r1.Done? {
      var end := if e.step.NoStep? then at else at + DiscardLen(e.step.e);
      CutAtOnce(p, pc, env, m0, Push, false, r, fuel, end, Push, false, at, s1);
      s := SegmentEnds(p, pc, env, m, Push, false, r, fuel, end, ret, s1);
    } else {
      NothingLeft(p, pc, env, m0, r1, fuel, at, s1);
      match e.step
      case NoStep =>
        var s2 := Arrived(p, pc, env, m0, Temp(VVoid), r1.env, fuel, at, s1.n, s1.d);
        s := SegmentEnds(p, pc, env, m, Push, false, r, fuel, at, ret, s2);
      case Advance(e2) =>
        var s2 := SimulateDiscard(p, e2, at, r1.env, With(m0, s1.d), fuel, 0, 0);
        var end := at + DiscardLen(e2);
        var s3 := Continued(p, pc, env, m0, Push, false, r, fuel, end, s1.n, at, With(m0, s1.d), r1.env, s1.d, fuel,
          s2);
        s := SegmentEnds(p, pc, env, m, Push, false, r, fuel, end, ret, s3);
    }
  }

  lemma SimulateLoop(p: Program, e: Expr, pc: nat, env: Env, m: M, fuel: nat, vs: nat, cs: nat) returns (s: Sim)
    requires e.For? && Ready(p, e, pc, env, m, Push, vs, cs)
    ensures Simulated(p, pc, env, m, Push, false, EvalLoop(p.globals, e, env, fuel), fuel, pc + Len(e, false), s)
    decreases fuel, e, 1
  {
    hide Run, Step, Rel, Keeps, OperandRel, Coded, DiscardCoded, ForCoded, Sound, Len, ValueRel, Cut, SimulatedFrom,
         Eval, EvalLoop, EvalBody;
    ForReady(p, e, pc, env, m, vs, cs);
    var body := ForParts(p.code, pc, e);
    EvalFor(p.globals, e, env, fuel);
    var s1 := Simulate(p, e.cond, pc, env, m, Push, fuel, vs, cs);
    var end, pc1 := pc + Len(e, false), pc + Len(e.cond, false);
    match Eval(p.globals, e.cond, env, Push, fuel)
    case Done(o, env1) =>
      OperandLeft(p, pc, env, m, Done(o, env1), fuel, pc1, s1);
      LoopOpStep(p, pc1, m, pc, body, s1.d, s1.x);
      BoolAgrees(p.code, Read(env1, o), At(With(m, s1.d), s1.x).val);
      var m1 := With(m, s1.d);
      ThenStep(p, pc, m, s1.n, pc1, After(m, s1));
      if !Read(env1, o).VBool? {
        s := Faults(p, pc, env, m, Push, false, fuel, end, s1.n, pc1, After(m, s1));
      } else if !Read(env1, o).b {
        s := Arrived(p, pc, env, m, Temp(VVoid), env1, fuel, end, s1.n + 1, s1.d);
      } else {
        var s2 := SimulateBody(p, e, body, env1, m1, fuel, pc);
        var r := EvalBody(p.globals, e, env1, fuel);
        var s3 := Continued(p, pc, env, m, Push, false, r, fuel, pc, s1.n + 1, body, Activate(m1, pc), env1, s1.d,
          fuel, s2);
        s := SimulateRest(p, e, pc, env, m, fuel, r, s3, vs, cs);
      }
    case r =>
      CutAtOnce(p, pc, env, m, Push, false, r, fuel, end, Push, true, pc1, s1);
      s := s1;
  }

  // The iterations after one that took at least one step.
  lemma SimulateRest(p: Program, e: Expr, pc: nat, env: Env, m: M, fuel: nat, r: Result<Operand>, s1: Sim, vs: nat,
                     cs: nat)
    returns (s: Sim)
    requires e.For? && Ready(p, e, pc, env, m, Push, vs, cs)
    requires Simulated(p, pc, env, m, Push, false, r, fuel, pc, s1) && s1.n > 0
    ensures var r' :=
        if !r.Done? then r else if fuel == 0 then Timeout else EvalLoop(p.globals, e, r.env, fuel - 1);
      Simulated(p, pc, env, m, Push, false, r', fuel, pc + Len(e, false), s)
    decreases fuel, e, 0
  {
    hide Run, Step, Rel, Keeps, OperandRel, Coded, Sound, Len, ValueRel, Cut, SimulatedFrom, EvalLoop;
    var end := pc + Len(e, false);
    if !r.Done? {
      CutAtOnce(p, pc, env, m, Push, false, r, fuel, end, Push, false, pc, s1);
      s := s1;
    } else {
      NothingLeft(p, pc, env, m, r, fuel, pc, s1);
      if fuel == 0 {
        s := TimedOut(p, pc, env, m, end, s1.n, pc, With(m, s1.d));
      } else {
        var s2 := SimulateLoop(p, e, pc, r.env, With(m, s1.d), fuel - 1, vs, cs);
        var r' := EvalLoop(p.globals, e, r.env, fuel - 1);
        s := Continued(p, pc, env, m, Push, false, r', fuel, end, s1.n, pc, With(m, s1.d), r.env, s1.d, fuel - 1, s2);
      }
    }
  }

  // What is left of an assignment once its value is there.
  function SetLast(o: Operand, r: Result<Operand>, mode: Mode): Result<Operand> {
    match r
    case Done(v, env2) => if !Readable(env2, o) || !v.Temp? then Undefined else Finish(VVoid, Write(env2, o, v.v), mode)
    case _ => r
  }

  // One unfolding of the evaluation of an assignment.
  lemma EvalSetParts(g: seq<Global>, e: Expr, env: Env, mode: Mode, fuel: nat)
    requires e.Set?
    ensures var r := Eval(g, e.target, env, Push, fuel);
      Eval(g, e, env, mode, fuel)
      == if !r.Done? then r
         else if !Readable(r.env, r.value) then Undefined
         else if !Mutable(r.env, r.value) then Error
         else SetLast(r.value, Eval(g, e.value, r.env, Into(OperandType(r.env, r.value)), fuel), mode)
  {
    hide Finish, Write, Readable, Mutable, OperandType;
  }

  lemma SimulateSet(p: Program, e: Expr, pc: nat, env: Env, m: M, mode: Mode, fuel: nat, vs: nat, cs: nat)
    returns (s: Sim)
    requires e.Set? && Ready(p, e, pc, env, m, mode, vs, cs)
    ensures Runs(p, e, pc, env, m, mode, fuel, s)
    decreases fuel, e, 1
  {
    hide Run, Step, Rel, Keeps, OperandRel, Coded, Sound, Len, ValueRel, Cut, SimulatedFrom, Finish, Write, At, LocOk,
         Stored, Read, Readable, Mutable, OperandType, Eval;
    EvalSetParts(p.globals, e, env, mode, fuel);
    SetReady(p, e, pc, env, m, mode, vs, cs);
    var s1 := Simulate(p, e.target, pc, env, m, Push, fuel, vs, cs);
    var end, pc1 := pc + Len(e, mode.Into?), pc + Len(e.target, false);
    match Eval(p.globals, e.target, env, Push, fuel)
    case Done(o, env1) =>
      OperandLeft(p, pc, env, m, Done(o, env1), fuel, pc1, s1);
      SetStep(p, pc1, m, s1.d, s1.x);
      if !Mutable(env1, o) {
        s := Faults(p, pc, env, m, mode, false, fuel, end, s1.n, pc1, After(m, s1));
      } else {
        ThenStep(p, pc, m, s1.n, pc1, After(m, s1));
        var m1 := InTarget(m, s1.d, s1.x);
        var into := Into(OperandType(env1, o));
        SameLocation(m1, With(m, s1.d), s1.x);
        var s2 := Simulate(p, e.value, pc1 + 1, env1, m1, into, fuel, vs, cs + 1);
        var r := Eval(p.globals, e.value, env1, into, fuel);
        var pc2 := pc1 + 1 + Len(e.value, true);
        if r.Done? {
          ValueStored(p, pc1 + 1, env1, m1, into, Yields(e.value), r, fuel, pc2, s2);
          var d := TargetStored(p.code, m, env, env1, s1.d, o, s1.x, r.env, s2.d, r.value.v, s2.w);
          StoredInTarget(m, s1.d, s1.x, s2.d, s2.w);
          Then(p, pc, m, s1.n + 1, pc1 + 1, m1, s2.n, pc2, With(m, d));
          s := SimulateAssigned(p, pc, env, m, mode, fuel, s1.n + 1 + s2.n, pc2, Write(r.env, o, r.value.v), d);
        } else {
          s := CutShort(p, pc, env, m, mode, false, r, fuel, end, s1.n + 1, pc1 + 1, env1, m1, into, Yields(e.value),
            pc2, s2);
        }
      }
    case r =>
      CutAtOnce(p, pc, env, m, mode, false, r, fuel, end, Push, true, pc1, s1);
      s := s1;
  }

  // An assignment is void; without a write context nothing is left.
  lemma SimulateAssigned(p: Program, pc: nat, env: Env, m: M, mode: Mode, fuel: nat, a: nat, pc1: nat, env1: Env,
                         d: Data)
    returns (s: Sim)
    requires Reaches(p, pc, m, a, pc1, With(m, d)) && Keeps(p.code, m.scopes, m.closures, env, DataOf(m), env1, d)
    requires InContext(m, mode) && (mode.Into? ==> OpAt(p.code, pc1, ValueVoid(true)))
    ensures Simulated(p, pc, env, m, mode, false, Finish(VVoid, env1, mode), fuel, pc1 + Bit(mode.Into?), s)
  {
    hide Run, Step, Rel, Keeps, OperandRel, SimulatedFrom, ValueRel, PutTemporary;
    if mode.Push? {
      s := Arrived(p, pc, env, m, Temp(VVoid), env1, fuel, pc1, a, d);
    } else {
      VoidStep(p, pc1, With(m, d), true);
      s := Finishing(p, pc, env, m, mode, fuel, a, pc1, With(m, d), env1, d, VVoid, VVoid, pc1 + 1);
      SameLeaves(p, pc, env, m, mode, true, Finish(VVoid, env1, mode), fuel, pc1 + 1, s);
    }
  }

  function OpSetLast(op: BinaryKind, o: Operand, ty: Type, r: Result<Operand>, mode: Mode): Result<Operand> {
    match r
    case Done(o2, env2) =>
      if !Readable(env2, o) || !Readable(env2, o2) then Undefined
      else
        var v := ApplyBinary(op, Read(env2, o), Read(env2, o2));
        if v.Some? && v.value.TypeOf() == ty then Finish(VVoid, Write(env2, o, v.value), mode) else Error
    case _ => r
  }

  lemma EvalOpSetParts(g: seq<Global>, e: Expr, env: Env, mode: Mode, fuel: nat)
    requires e.OpSet?
    ensures var r := Eval(g, e.target, env, Push, fuel);
      Eval(g, e, env, mode, fuel)
      == if !r.Done? then r
         else if !Readable(r.env, r.value) then Undefined
         else if !Mutable(r.env, r.value) then Error
         else OpSetLast(e.bop, r.value, OperandType(r.env, r.value), Eval(g, e.value, r.env, Push, fuel), mode)
  {
    hide Finish, Write, Readable, Mutable, OperandType, ApplyBinary, Read;
  }

  lemma SimulateOpSet(p: Program, e: Expr, pc: nat, env: Env, m: M, mode: Mode, fuel: nat, vs: nat, cs: nat)
    returns (s: Sim)
    requires e.OpSet? && Ready(p, e, pc, env, m, mode, vs, cs)
    ensures Runs(p, e, pc, env, m, mode, fuel, s)
    decreases fuel, e, 1
  {
    hide Run, Step, Rel, Keeps, OperandRel, Coded, Sound, Len, ValueRel, Cut, SimulatedFrom, Finish, Write,
         ApplyBinary, At, LocOk, Stored, Read, Readable, Mutable, OperandType, Eval;
    EvalOpSetParts(p.globals, e, env, mode, fuel);
    OpSetReady(p, e, pc, env, m, mode, vs, cs);
    var s1 := Simulate(p, e.target, pc, env, m, Push, fuel, vs, cs);
    var end, pc1 := pc + Len(e, mode.Into?), pc + Len(e.target, false);
    match Eval(p.globals, e.target, env, Push, fuel)
    case Done(o, env1) =>
      OperandLeft(p, pc, env, m, Done(o, env1), fuel, pc1, s1);
      DuplicateStep(p, pc1, m, s1.d, s1.x);
      if !Mutable(env1, o) {
        s := Faults(p, pc, env, m, mode, false, fuel, end, s1.n, pc1, After(m, s1));
      } else {
        ThenStep(p, pc, m, s1.n, pc1, After(m, s1));
        var m1 := Left(InTarget(m, s1.d, s1.x), true, s1.x);
        var s2 := Simulate(p, e.value, pc1 + 1, env1, m1, Push, fuel, vs + 1, cs + 1);
        var r := Eval(p.globals, e.value, env1, Push, fuel);
        var pc2 := pc1 + 1 + Len(e.value, false);
        if r.Done? {
          OperandLeft(p, pc1 + 1, env1, m1, r, fuel, pc2, s2);
          Then(p, pc, m, s1.n + 1, pc1 + 1, m1, s2.n, pc2, After(m1, s2));
          s := SimulateOperated(p, e.bop, pc, env, m, mode, fuel, s1.n + 1 + s2.n, pc2, env1, o, s1, r.env, r.value,
            s2);
        } else {
          s := CutShort(p, pc, env, m, mode, false, r, fuel, end, s1.n + 1, pc1 + 1, env1, m1, Push, true, pc2, s2);
        }
      }
    case r =>
      CutAtOnce(p, pc, env, m, mode, false, r, fuel, end, Push, true, pc1, s1);
      s := s1;
  }

  // Both operands are on top of the values and the target of the result is a write context.
  lemma SimulateOperated(p: Program, op: BinaryKind, pc: nat, env: Env, m: M, mode: Mode, fuel: nat, a: nat, pc1: nat,
                         env1: Env, o1: Operand, s1: Sim, env2: Env, o2: Operand, s2: Sim)
    returns (s: Sim)
    requires Keeps(p.code, m.scopes, m.closures, env, DataOf(m), env1, s1.d)
    requires OperandRel(p.code, m.scopes, env1, s1.d, |m.temps|, o1, s1.x) && Mutable(env1, o1)
    requires Keeps(p.code, m.scopes, m.closures, env1, s1.d, env2, s2.d)
    requires OperandRel(p.code, m.scopes, env2, s2.d, |s1.d.temps|, o2, s2.x)
    requires Reaches(p, pc, m, a, pc1, After(Left(InTarget(m, s1.d, s1.x), true, s1.x), s2))
    requires OpAt(p.code, pc1, BinaryOp(true, op)) && InContext(m, mode)
    requires mode.Into? ==> OpAt(p.code, pc1 + 1, ValueVoid(true))
    ensures Readable(env2, o1) && Readable(env2, o2)
    ensures var r := match ApplyBinary(op, Read(env2, o1), Read(env2, o2))
              case Some(v) =>
                if v.TypeOf() == OperandType(env1, o1) then Finish(VVoid, Write(env2, o1, v), mode) else Error
              case None => Error;
      Simulated(p, pc, env, m, mode, false, r, fuel, pc1 + 1 + Bit(mode.Into?), s)
  {
    hide Run, Step, Rel, Keeps, OperandRel, ValueRel, Cut, SimulatedFrom, Finish, Write, ApplyBinary, InContext;
    var end := pc1 + 1 + Bit(mode.Into?);
    OperandKept(p.code, m.scopes, m.closures, env1, s1.d, env2, s2.d, |m.temps|, o1, s1.x);
    KeepsRel(p.code, m.scopes, m.closures, env1, s1.d, env2, s2.d);
    OperandAt(p.code, m, env2, s2.d, |m.temps|, o1, s1.x);
    OperandAt(p.code, m, env2, s2.d, |s1.d.temps|, o2, s2.x);
    var v1, v2 := Read(env2, o1), Read(env2, o2);
    var w1, w2 := At(With(m, s2.d), s1.x).val, At(With(m, s2.d), s2.x).val;
    BinaryAgrees(p.code, op, v1, w1, v2, w2);
    var m1 := After(Left(InTarget(m, s1.d, s1.x), true, s1.x), s2);
    OperateStep(p, op, pc1, m, s1, s2);
    if ApplyBinary(op, v1, v2).None? {
      s := Faults(p, pc, env, m, mode, false, fuel, end, a, pc1, m1);
    } else {
      var v, w := ApplyBinary(op, v1, v2).value, ApplyBinary(op, w1, w2).value;
      TypesAgree(p.code, v, w);
      if v.TypeOf() != OperandType(env1, o1) {
        s := Faults(p, pc, env, m, mode, false, fuel, end, a, pc1, m1);
      } else {
        ThenStep(p, pc, m, a, pc1, m1);
        var d := TargetStored(p.code, m, env, env1, s1.d, o1, s1.x, env2, s2.d, v, w);
        s := SimulateAssigned(p, pc, env, m, mode, fuel, a + 1, pc1 + 1, Write(env2, o1, v), d);
      }
    }
  }

  ghost predicate ItemsReady(p: Program, items: Items, pc: nat, env0: Env, m0: M, env: Env, d: Data, mode: Mode,
                             vs: nat, cs: nat) {
    && InBlock(p.code, env0, m0, env, d) && InContext(m0, mode)
    && ItemsCoded(p.code, {}, pc, items, mode.Into?) && ItemsSound(items, mode.Into?, vs, cs)
  }

  ghost predicate ItemsRun(p: Program, items: Items, pc: nat, env0: Env, m0: M, env: Env, d: Data, mode: Mode,
                           fuel: nat, s: Sim) {
    BlockSimulated(p, pc, InScope(m0, d), env0, m0, mode, EvalItems(p.globals, items, env, mode, fuel), fuel,
                   pc + ItemsLen(items, mode.Into?), s)
  }

  lemma SimulateEnd(p: Program, items: Items, pc: nat, env0: Env, m0: M, env: Env, d: Data, mode: Mode, fuel: nat,
                    vs: nat, cs: nat)
    returns (s: Sim)
    requires items.End? && ItemsReady(p, items, pc, env0, m0, env, d, mode, vs, cs)
    ensures ItemsRun(p, items, pc, env0, m0, env, d, mode, fuel, s)
  {
    hide Run, Step, Rel, Keeps, OperandRel, SimulatedFrom, Finish, BlockSimulated, ItemsSound, ValueRel, PutTemporary;
    var m := InScope(m0, d);
    BlockContext(p.code, env0, m0, env, d, mode);
    VoidStep(p, pc, m, mode.Into?);
    Here(p, pc, m);
    KeepsRefl(p.code, m.scopes, m.closures, env, d);
    s := Finishing(p, pc, env, m, mode, fuel, 0, pc, m, env, d, VVoid, VVoid, pc + 1);
    ItemsLast(p, pc, env0, m0, env, d, mode, Finish(VVoid, env, mode), fuel, pc + 1, s);
  }

  lemma LetReady(p: Program, items: Items, pc: nat, env0: Env, m0: M, env: Env, d: Data, mode: Mode, vs: nat, cs: nat)
    requires items.Let? && ItemsReady(p, items, pc, env0, m0, env, d, mode, vs, cs)
    ensures Ready(p, items.value, pc, env, InScope(m0, d), Push, vs, cs) && Yields(items.value)
    ensures OpAt(p.code, pc + Len(items.value, false), ScopeAllocUntyped(items.isMut))
    ensures ItemsSound(items.rest, mode.Into?, vs, cs)
    ensures ItemsCoded(p.code, {}, pc + Len(items.value, false) + 1, items.rest, mode.Into?)
    ensures ItemsLen(items, mode.Into?) == Len(items.value, false) + 1 + ItemsLen(items.rest, mode.Into?)
  {
    hide Rel, Keeps, Coded, Sound, Len;
  }

  lemma SimulateLet(p: Program, items: Items, pc: nat, env0: Env, m0: M, env: Env, d: Data, mode: Mode, fuel: nat,
                    vs: nat, cs: nat)
    returns (s: Sim)
    requires items.Let? && ItemsReady(p, items, pc, env0, m0, env, d, mode, vs, cs)
    ensures ItemsRun(p, items, pc, env0, m0, env, d, mode, fuel, s)
    decreases fuel, items, 0
  {
    hide Run, Step, Rel, Keeps, OperandRel, Coded, Sound, Len, Cut, SimulatedFrom, BlockSimulated, Eval, InBlock,
         ItemsCoded, ItemsSound, ItemsLen, ValueRel;
    var m := InScope(m0, d);
    LetReady(p, items, pc, env0, m0, env, d, mode, vs, cs);
    var s1 := Simulate(p, items.value, pc, env, m, Push, fuel, vs, cs);
    var end, pc1 := pc + ItemsLen(items, mode.Into?), pc + Len(items.value, false);
    match Eval(p.globals, items.value, env, Push, fuel)
    case Done(o, env1) =>
      OperandLeft(p, pc, env, m, Done(o, env1), fuel, pc1, s1);
      BlockKept(p.code, env0, m0, env, d, env1, s1.d);
      LetStep(p, pc1, m0, items.isMut, s1.d, s1.x);
      ThenStep(p, pc, m, s1.n, pc1, After(m, s1));
      var c := Cell(OperandType(env1, o), items.isMut, Read(env1, o));
      var c' := At(With(m0, s1.d), s1.x).(isMut := items.isMut);
      BlockDeclared(p.code, env0, m0, env1, s1.d, c, c');
      var d2 := Data(s1.d.members + [c'], s1.d.temps);
      var s2 := SimulateItems(p, items.rest, pc1 + 1, env0, m0, Declare(env1, c), d2, mode, fuel, vs, cs);
      var r := EvalItems(p.globals, items.rest, Declare(env1, c), mode, fuel);
      s := ItemsPrefixed(p, pc, m, env0, m0, mode, r, fuel, end, s1.n + 1, pc1 + 1, InScope(m0, d2), s2);
    case r =>
      ItemsCut(p, pc, m, env0, m0, mode, r, fuel, end, env, Push, true, pc1, s1);
      s := s1;
  }

  lemma TypedLetReady(p: Program, items: Items, pc: nat, env0: Env, m0: M, env: Env, d: Data, mode: Mode, vs: nat,
                      cs: nat)
    requires items.TypedLet? && ItemsReady(p, items, pc, env0, m0, env, d, mode, vs, cs)
    ensures Ready(p, items.ty, pc, env, InScope(m0, d), Push, vs, cs) && Yields(items.ty)
    ensures var pc1 := pc + Len(items.ty, false);
      var pc2 := pc1 + 1 + Len(items.value, true);
      && OpAt(p.code, pc1, ScopeAllocTyped(items.isMut))
      && Coded(p.code, {}, pc1 + 1, items.value, true) && Sound(items.value, true, vs, cs + 1)
      && ItemsSound(items.rest, mode.Into?, vs, cs) && ItemsCoded(p.code, {}, pc2, items.rest, mode.Into?)
      && pc + ItemsLen(items, mode.Into?) == pc2 + ItemsLen(items.rest, mode.Into?)
  {
    hide Rel, Keeps, Coded, Sound, Len;
  }

  // The value of a variable of a given type, then the rest of the block.
  lemma SimulateBinding(p: Program, items: Items, pc: nat, env0: Env, m0: M, env: Env, d: Data, ty: Type, mode: Mode,
                        fuel: nat, vs: nat, cs: nat)
    returns (s: Sim)
    requires items.TypedLet? && InBlock(p.code, env0, m0, env, d) && InContext(m0, mode)
    requires Coded(p.code, {}, pc, items.value, true) && Sound(items.value, true, vs, cs + 1)
    requires ItemsCoded(p.code, {}, pc + Len(items.value, true), items.rest, mode.Into?)
    requires ItemsSound(items.rest, mode.Into?, vs, cs)
    ensures
      var r := match Eval(p.globals, items.value, env, Into(ty), fuel)
        case Done(v, env2) =>
          if !v.Temp? || |env2.scopes| == 0 then Undefined
          else EvalItems(p.globals, items.rest, Declare(env2, Cell(ty, items.isMut, v.v)), mode, fuel)
        case r => r;
      BlockSimulated(p, pc, Binding(m0, d, Cell(ty, items.isMut, VVoid)), env0, m0, mode, r, fuel,
                     pc + Len(items.value, true) + ItemsLen(items.rest, mode.Into?), s)
    decreases fuel, items, 0
  {
    hide Run, Step, Rel, Keeps, OperandRel, Coded, Sound, Len, Cut, SimulatedFrom, BlockSimulated, Eval, InBlock,
         ItemsCoded, ItemsSound, ItemsLen, ValueRel, EvalItems, Stored;
    var c := Cell(ty, items.isMut, VVoid);
    var m := Binding(m0, d, c);
    BindingReady(p, items.value, pc, env0, m0, env, d, c, vs, cs + 1);
    var s1 := Simulate(p, items.value, pc, env, m, Into(ty), fuel, vs, cs + 1);
    var pc1 := pc + Len(items.value, true);
    var end := pc1 + ItemsLen(items.rest, mode.Into?);
    match Eval(p.globals, items.value, env, Into(ty), fuel)
    case Done(o, env2) =>
      ValueStored(p, pc, env, m, Into(ty), Yields(items.value), Done(o, env2), fuel, pc1, s1);
      var d2 := Bound(p.code, env0, m0, env, d, c, env2, s1.d, o.v, s1.w);
      var env3 := Declare(env2, Cell(ty, items.isMut, o.v));
      var s2 := SimulateItems(p, items.rest, pc1, env0, m0, env3, d2, mode, fuel, vs, cs);
      var r := EvalItems(p.globals, items.rest, env3, mode, fuel);
      s := ItemsPrefixed(p, pc, m, env0, m0, mode, r, fuel, end, s1.n, pc1, InScope(m0, d2), s2);
    case r =>
      ItemsCut(p, pc, m, env0, m0, mode, r, fuel, end, env, Into(ty), Yields(items.value), pc1, s1);
      s := s1;
  }

  lemma SimulateTypedLet(p: Program, items: Items, pc: nat, env0: Env, m0: M, env: Env, d: Data, mode: Mode, fuel: nat,
                         vs: nat, cs: nat)
    returns (s: Sim)
    requires items.TypedLet? && ItemsReady(p, items, pc, env0, m0, env, d, mode, vs, cs)
    ensures ItemsRun(p, items, pc, env0, m0, env, d, mode, fuel, s)
    decreases fuel, items, 1
  {
    hide Run, Step, Rel, Keeps, OperandRel, Coded, Sound, Len, Cut, SimulatedFrom, BlockSimulated, Eval, InBlock,
         ItemsCoded, ItemsSound, ItemsLen, ValueRel;
    var m := InScope(m0, d);
    TypedLetReady(p, items, pc, env0, m0, env, d, mode, vs, cs);
    var s1 := Simulate(p, items.ty, pc, env, m, Push, fuel, vs, cs);
    var end, pc1 := pc + ItemsLen(items, mode.Into?), pc + Len(items.ty, false);
    match Eval(p.globals, items.ty, env, Push, fuel)
    case Done(o, env1) =>
      OperandLeft(p, pc, env, m, Done(o, env1), fuel, pc1, s1);
      BlockKept(p.code, env0, m0, env, d, env1, s1.d);
      SameLocation(With(m, s1.d), With(m0, s1.d), s1.x);
      TypedLetStep(p, pc1, m0, items.isMut, s1.d, s1.x);
      VTypeAgrees(p.code, Read(env1, o), At(With(m, s1.d), s1.x).val);
      if !Read(env1, o).VType? {
        s := ItemsFault(p, pc, m, env0, m0, mode, fuel, end, s1.n, pc1, After(m, s1));
      } else {
        var ty := Read(env1, o).ty;
        ThenStep(p, pc, m, s1.n, pc1, After(m, s1));
        var s2 := SimulateBinding(p, items, pc1 + 1, env0, m0, env1, s1.d, ty, mode, fuel, vs, cs);
        s := ItemsPrefixed(p, pc, m, env0, m0, mode, EvalItems(p.globals, items, env, mode, fuel), fuel, end, s1.n + 1,
            pc1 + 1,
                           Binding(m0, s1.d, Cell(ty, items.isMut, VVoid)), s2);
      }
    case r =>
      ItemsCut(p, pc, m, env0, m0, mode, r, fuel, end, env, Push, true, pc1, s1);
      s := s1;
  }

  lemma DoReady(p: Program, items: Items, pc: nat, env0: Env, m0: M, env: Env, d: Data, mode: Mode, vs: nat, cs: nat)
    requires items.Do? && ItemsReady(p, items, pc, env0, m0, env, d, mode, vs, cs)
    ensures items.rest.End? ==>
      && Ready(p, items.e, pc, env, InScope(m0, d), mode, vs, cs)
      && (mode.Push? && !Yields(items.e) ==> OpAt(p.code, pc + Len(items.e, mode.Into?), ValueVoid(false)))
      && ItemsLen(items, mode.Into?) == Len(items.e, mode.Into?) + Bit(mode.Push? && !Yields(items.e))
    ensures !items.rest.End? ==>
      && DiscardCoded(p.code, {}, pc, items.e) && Sound(items.e, false, vs, cs)
      && Rel(p.code, env, BlockScopes(m0), m0.closures, d.members)
      && ItemsCoded(p.code, {}, pc + DiscardLen(items.e), items.rest, mode.Into?)
      && ItemsSound(items.rest, mode.Into?, vs, cs)
      && ItemsLen(items, mode.Into?) == DiscardLen(items.e) + ItemsLen(items.rest, mode.Into?)
  {
    hide Rel, Keeps, Coded, Sound, Len, InContext, DiscardCoded;
    BlockContext(p.code, env0, m0, env, d, mode);
  }

  lemma SimulateLast(p: Program, items: Items, pc: nat, env0: Env, m0: M, env: Env, d: Data, mode: Mode, fuel: nat,
                     vs: nat, cs: nat)
    returns (s: Sim)
    requires items.Do? && items.rest.End? && ItemsReady(p, items, pc, env0, m0, env, d, mode, vs, cs)
    ensures ItemsRun(p, items, pc, env0, m0, env, d, mode, fuel, s)
    decreases fuel, items, 0
  {
    hide Run, Step, Rel, Keeps, OperandRel, Coded, Sound, Len, Cut, SimulatedFrom, BlockSimulated, Eval, InBlock,
         ItemsCoded, ItemsSound, ItemsLen, ValueRel, DiscardCoded;
    var m := InScope(m0, d);
    DoReady(p, items, pc, env0, m0, env, d, mode, vs, cs);
    s := Simulate(p, items.e, pc, env, m, mode, fuel, vs, cs);
    var end, pc1 := pc + ItemsLen(items, mode.Into?), pc + Len(items.e, mode.Into?);
    var r := Eval(p.globals, items.e, env, mode, fuel);
    if !r.Done? {
      ItemsCut(p, pc, m, env0, m0, mode, r, fuel, end, env, mode, Yields(items.e), pc1, s);
    } else if mode.Push? && !Yields(items.e) {
      s := ItemsVoid(p, pc, env0, m0, env, d, r, fuel, pc1, s);
    } else {
      SameLeaves(p, pc, env, m, mode, Yields(items.e), r, fuel, pc1, s);
      ItemsLast(p, pc, env0, m0, env, d, mode, r, fuel, pc1, s);
    }
  }

  lemma SimulateDo(p: Program, items: Items, pc: nat, env0: Env, m0: M, env: Env, d: Data, mode: Mode, fuel: nat,
                   vs: nat, cs: nat)
    returns (s: Sim)
    requires items.Do? && !items.rest.End? && ItemsReady(p, items, pc, env0, m0, env, d, mode, vs, cs)
    ensures ItemsRun(p, items, pc, env0, m0, env, d, mode, fuel, s)
    decreases fuel, items, 0
  {
    hide Run, Step, Rel, Keeps, OperandRel, Coded, Sound, Len, Cut, SimulatedFrom, BlockSimulated, EvalDiscard, InBlock,
         ItemsCoded, ItemsSound, ItemsLen, ValueRel, DiscardCoded;
    var m := InScope(m0, d);
    DoReady(p, items, pc, env0, m0, env, d, mode, vs, cs);
    var s1 := SimulateDiscard(p, items.e, pc, env, m, fuel, vs, cs);
    var end, pc1 := pc + ItemsLen(items, mode.Into?), pc + DiscardLen(items.e);
    var r1 := EvalDiscard(p.globals, items.e, env, fuel);
    if !r1.Done? {
      ItemsCut(p, pc, m, env0, m0, mode, r1, fuel, end, env, Push, false, pc1, s1);
      s := s1;
    } else {
      NothingLeft(p, pc, env, m, r1, fuel, pc1, s1);
      BlockKept(p.code, env0, m0, env, d, r1.env, s1.d);
      var s2 := SimulateItems(p, items.rest, pc1, env0, m0, r1.env, s1.d, mode, fuel, vs, cs);
      var r := EvalItems(p.globals, items.rest, r1.env, mode, fuel);
      s := ItemsPrefixed(p, pc, m, env0, m0, mode, r, fuel, end, s1.n, pc1, InScope(m0, s1.d), s2);
    }
  }

  lemma SimulateItems(p: Program, items: Items, pc: nat, env0: Env, m0: M, env: Env, d: Data, mode: Mode, fuel: nat,
                      vs: nat, cs: nat)
    returns (s: Sim)
    requires ItemsReady(p, items, pc, env0, m0, env, d, mode, vs, cs)
    ensures ItemsRun(p, items, pc, env0, m0, env, d, mode, fuel, s)
    decreases fuel, items, 2
  {
    hide ItemsReady, ItemsRun;
    match items
    case End => s := SimulateEnd(p, items, pc, env0, m0, env, d, mode, fuel, vs, cs);
    case Let(_, _, _) => s := SimulateLet(p, items, pc, env0, m0, env, d, mode, fuel, vs, cs);
    case TypedLet(_, _, _, _) => s := SimulateTypedLet(p, items, pc, env0, m0, env, d, mode, fuel, vs, cs);
    case Do(_, rest) =>
      if rest.End? {
        s := SimulateLast(p, items, pc, env0, m0, env, d, mode, fuel, vs, cs);
      } else {
        s := SimulateDo(p, items, pc, env0, m0, env, d, mode, fuel, vs, cs);
      }
  }

  lemma SimulateBlock(p: Program, e: Expr, pc: nat, env: Env, m: M, mode: Mode, fuel: nat, vs: nat, cs: nat)
    returns (s: Sim)
    requires e.Block? && Ready(p, e, pc, env, m, mode, vs, cs)
    ensures Runs(p, e, pc, env, m, mode, fuel, s)
    decreases fuel, e, 1
  {
    hide Run, Step, Rel, Keeps, OperandRel, Coded, Sound, Len, Cut, SimulatedFrom, BlockSimulated, EvalItems, InBlock,
         ItemsCoded, ItemsSound, ItemsLen;
    BlockReady(p, e, pc, env, m, mode, vs, cs);
    BlockEntered(p.code, env, m);
    var d := DataOf(m);
    var s1 := SimulateItems(p, e.items, pc + 1, env, m, PushScope(env), d, mode, fuel, vs, cs);
    var end := pc + 1 + ItemsLen(e.items, mode.Into?);
    var r := EvalItems(p.globals, e.items, PushScope(env), mode, fuel);
    if !r.Done? {
      s := BlockCut(p, pc, env, m, mode, r, fuel, end, s1);
    } else if r.value.Place? && r.value.scope + 1 == |r.env.scopes| {
      s := Unspecified(p, pc, env, m, mode, true, fuel, end + 1);
    } else if mode.Push? {
      s := BlockLeaves(p, pc, env, m, r, fuel, end, s1);
    } else {
      s := BlockStores(p, pc, env, m, mode, r, fuel, end, s1);
    }
  }

  lemma SimulateTypes(p: Program, sig: Signature, pc: nat, env: Env, m: M, fuel: nat, vs: nat, cs: nat)
    returns (s: Sims)
    requires SignatureCoded(p.code, {}, pc, sig) && SignatureSound(sig, vs, cs)
    requires Rel(p.code, env, m.scopes, m.closures, m.members)
    ensures TypesSimulated(p, pc, env, m, EvalTypes(p.globals, sig, env, fuel), fuel, pc + SignatureLen(sig), s)
    decreases fuel, sig, 0
  {
    hide Run, Step, Rel, Keeps, OperandRel, Coded, Sound, Len, Cut, SimulatedFrom, TypesSimulated, Eval;
    var end := pc + SignatureLen(sig);
    var r := EvalTypes(p.globals, sig, env, fuel);
    var ty := if sig.Returns? then sig.ret else sig.ty;
    var s1 := Simulate(p, ty, pc, env, m, Push, fuel, vs, cs);
    var mid := pc + Len(ty, false);
    var r1 := Eval(p.globals, ty, env, Push, fuel);
    if !r1.Done? {
      s := TypesCut(p, pc, env, m, r, fuel, end, r1, mid, s1);
    } else {
      match sig
      case Returns(_) => s := TypesOne(p, pc, env, m, r1, fuel, end, s1);
      case Param(_, _, rest) =>
        OperandLeft(p, pc, env, m, r1, fuel, mid, s1);
        var s2 := SimulateTypes(p, rest, mid, r1.env, After(m, s1), fuel, vs + 1, cs);
        var r2 := EvalTypes(p.globals, rest, r1.env, fuel);
        if r2.Done? {
          s := TypesMore(p, pc, env, m, r1, fuel, mid, s1, r2, end, s2);
        } else {
          s := TypesMoreCut(p, pc, env, m, r1, fuel, mid, s1, r2, end, s2);
        }
    }
  }

  lemma SimulateFunc(p: Program, e: Expr, pc: nat, env: Env, m: M, mode: Mode, fuel: nat, vs: nat, cs: nat)
    returns (s: Sim)
    requires e.Func? && Ready(p, e, pc, env, m, mode, vs, cs)
    ensures Runs(p, e, pc, env, m, mode, fuel, s)
    decreases fuel, e, 1
  {
    hide Run, Step, Rel, Keeps, OperandRel, Coded, Sound, Len, Cut, SimulatedFrom, TypesSimulated, EvalTypes,
         SignatureLen, Finish,
         SegmentCoded, ParamTypes, Captured, CapturesReadable, SignatureCoded, SignatureSound, CapturesCoded;
    var body := FuncReady(p, e, pc, env, m, mode, vs, cs);
    var s1 := SimulateTypes(p, e.signature, pc, env, m, fuel, vs, cs);
    var end := pc + Len(e, mode.Into?);
    var r := EvalTypes(p.globals, e.signature, env, fuel);
    var r' := Eval(p.globals, e, env, mode, fuel);
    if !r.Done? {
      s := FuncCut(p, pc, env, m, mode, fuel, r, s1, pc + SignatureLen(e.signature), r', end);
    } else if !AllReadable(r.env, r.value) || |r.value| != |ParamMuts(e.signature)| + 1 {
      s := Unspecified(p, pc, env, m, mode, true, fuel, end);
    } else if !AllTypes(r.env, r.value) {
      s := FuncNotTypes(p, e, pc, env, m, mode, fuel, r, s1, end);
    } else if !CapturesReadable(r.env, e.captures) {
      s := Unspecified(p, pc, env, m, mode, true, fuel, end);
    } else {
      s := FuncMade(p, e, pc, env, m, mode, fuel, r, s1, body);
    }
  }

  lemma ArgParts(code: seq<Op>, dst: nat, slot: nat, addresses: seq<nat>, args: Args)
    requires args.Arg? && |addresses| == slot + ArgCount(args) && ArgsSound(args)
    requires ArgsCoded(code, {}, dst, slot, addresses, args)
    ensures Coded(code, {}, addresses[slot], args.e, true) && Sound(args.e, true, 0, 1)
    ensures OpAt(code, addresses[slot] + Len(args.e, true), EndCode)
    ensures ArgsCoded(code, {}, dst, slot + 1, addresses, args.rest) && ArgsSound(args.rest)
  {
    hide Coded, Sound, Filled, Len;
    NoHole(code, dst, slot, addresses[slot], Argument(args.e));
  }

  lemma SimulateArgs(p: Program, args: Args, dst: nat, pc: nat, env: Env, m: M, d: Data, x: Loc, cells: seq<Cell<nat>>,
                     arguments: seq<nat>, params: seq<ParamType>, ret: Type, fuel: nat)
    returns (s: ArgsSim)
    requires OpAt(p.code, pc, ExecArgs) && |params| == |arguments| == |cells| + ArgCount(args)
    requires ArgsCoded(p.code, {}, dst, |cells|, arguments, args) && ArgsSound(args)
    requires Rel(p.code, env, m.scopes, m.closures, d.members) && |d.members| == |m.members|
    ensures ArgsSimulated(p, pc, env, m, d, x, cells, arguments, params, ret,
                          EvalArgs(p.globals, args, params[|cells|..], env, fuel), fuel, s)
    decreases fuel, args, 0
  {
    hide Run, Step, Rel, Keeps, OperandRel, Coded, Sound, Len, Cut, SimulatedFrom, Simulated, Eval, ArgsSimulated,
         Ready,
         ArgsCoded, ArgsSound, ValueRel, Passing, PassingNext;
    match args
    case NoArgs => s := ArgsDone(p, pc, env, m, d, x, cells, arguments, params, ret, fuel);
    case Arg(e, rest) =>
      ArgParts(p.code, dst, |cells|, arguments, args);
      var param, a := params[|cells|], arguments[|cells|];
      var c := EmptyParam(param);
      assert params[|cells|..][0] == param && params[|cells|..][1..] == params[|cells| + 1..];
      var m0 := Passing(m, d, x, cells, arguments, params, ret);
      var m1 := Activate(PassingNext(m, d, x, cells, c, arguments, params, ret), pc);
      ExecStep(p, pc, m, d, x, cells, arguments, params, ret);
      Here(p, pc, m0);
      ThenStep(p, pc, m0, 0, pc, m0);
      ArgReady(p, e, a, env, m, d, x, cells, c, arguments, params, ret, pc);
      var s1 := Simulate(p, e, a, env, m1, Into(param.ty), fuel, 0, 1);
      var r := Eval(p.globals, e, env, Into(param.ty), fuel);
      var r' := EvalArgs(p.globals, args, params[|cells|..], env, fuel);
      if !r.Done? {
        s := ArgsCut(p, pc, env, m, d, x, cells, arguments, params, ret, fuel, 1, a, env, m1, Into(param.ty), Yields(e),
                     r, a + Len(e, true), s1, r');
      } else {
        var d2, c' := ArgPassed(p, e, a, env, m, d, x, cells, c, arguments, params, ret, pc, r, fuel, s1);
        KeepsRel(p.code, m.scopes, m.closures, env, d, r.env, d2);
        var m2 := Passing(m, d2, x, cells + [c'], arguments, params, ret);
        Then(p, pc, m0, 1, a, m1, s1.n + 1, pc, m2);
        var s2 := SimulateArgs(p, rest, dst, pc, r.env, m, d2, x, cells + [c'], arguments, params, ret, fuel);
        var r2 := EvalArgs(p.globals, rest, params[|cells| + 1..], r.env, fuel);
        s := ArgsMore(p, pc, env, m, d, x, cells, arguments, params, ret, fuel, s1.n + 2, r.env, d2,
                      Cell(param.ty, param.isMut, r.value.v), c', r2, s2);
      }
  }

  // The body of the function called, up to the return.
  lemma SimulateCallee(p: Program, f: V, pc: nat, env: Env, m: M, mode: Mode, d: Data, cells: seq<Cell<Expr>>,
                       cells': seq<Cell<nat>>,
                       ret: Type, closure': seq<W>, next: nat, fuel: nat)
    returns (s: Sim)
    requires f.VFunc? && SegmentCoded(p.code, {}, pc, FunctionBody(f.body, f.closure != []))
    requires Sound(f.body, true, 0, 1)
    requires |f.closure| == |closure'| && forall i | 0 <= i < |closure'| :: ValueRel(p.code, f.closure[i], closure'[i])
    requires |d.members| == |m.members| && Rel(p.code, env, m.scopes, m.closures, d.members)
    requires |cells| == |cells'| && forall i | 0 <= i < |cells| :: CellRel(p.code, cells[i], cells'[i])
    requires InContext(With(m, d), mode) && (mode.Into? ==> mode.ty == ret)
    ensures
      var r := match Eval(p.globals, f.body, Env([cells], f.closure), Into(ret), fuel)
        case Done(v, _) => if v.Temp? then Done(v, env) else Undefined
        case r => r;
      SimulatedFrom(p, pc, Callee(m, mode.Into?, d, cells', ret, closure', next), env, With(m, d), mode, true, r, fuel,
          next, s)
    decreases fuel, f.body, 4
  {
    hide Run, Step, Rel, Keeps, OperandRel, Coded, Sound, Len, Cut, SimulatedFrom, Eval, ValueRel, CellRel, Callee,
         InContext;
    var c := Callee(m, mode.Into?, d, cells', ret, closure', next);
    ContextHolds(With(m, d), mode);
    CalleeReady(p, f.body, pc, m, mode.Into?, d, cells, cells', ret, f.closure, closure', next);
    var env0 := Env([cells], f.closure);
    var s1 := Simulate(p, f.body, pc, env0, c, Into(ret), fuel, 0, 1);
    var r := Eval(p.globals, f.body, env0, Into(ret), fuel);
    if r.Done? {
      s := CalleeReturns(p, f.body, pc, env, m, mode, d, cells, cells', ret, f.closure, closure', next, r, fuel, fuel,
        s1);
    } else {
      s := s1;
      CutFrom(p, pc, env0, c, Into(ret), Yields(f.body), r, fuel, pc + Len(f.body, true), s1, env, With(m, d), mode,
        next);
    }
  }

  lemma CallReady(p: Program, e: Expr, pc: nat, env: Env, m: M, mode: Mode, vs: nat, cs: nat)
    returns (arguments: seq<nat>)
    requires e.Call? && Ready(p, e, pc, env, m, mode, vs, cs)
    ensures Ready(p, e.callee, pc, env, m, Push, vs, cs) && Yields(e.callee) && ArgsSound(e.args)
    ensures var at := pc + Len(e.callee, false);
      && OpAt(p.code, at, PrepareArgs(arguments)) && |arguments| == ArgCount(e.args)
      && ArgsCoded(p.code, {}, at, 0, arguments, e.args)
      && OpAt(p.code, at + 1, ExecArgs) && OpAt(p.code, at + 2, CallOp(mode.Into?))
      && pc + Len(e, mode.Into?) == at + 3
  {
    hide Rel, ArgsCoded, ArgsSound;
    assert CallCoded(p.code, {}, pc, e, mode.Into?);
    arguments := p.code[pc + Len(e.callee, false)].arguments;
  }

  // What a call does once the callee and the arguments are evaluated.
  function EvalCalled(g: seq<Global>, f: V, ret: Type, cells: seq<Cell<Expr>>, env: Env, mode: Mode,
      fuel: nat): Result<Operand>
    requires f.VFunc?
  {
    if mode.Into? && mode.ty != ret then Error
    else if fuel == 0 then Timeout
    else
      match Eval(g, f.body, Env([cells], f.closure), Into(ret), fuel - 1)
      case Done(v, _) => if v.Temp? then Done(v, env) else Undefined
      case r => r
  }

  lemma SimulateCalled(p: Program, e: Expr, pc: nat, env: Env, m: M, mode: Mode, a: nat, at: nat, env2: Env, d: Data,
                       o: Operand, x: Loc,
                       cells: seq<Cell<Expr>>, cells': seq<Cell<nat>>, arguments: seq<nat>, params: seq<ParamType>,
                           ret: Type, fuel: nat)
    returns (s: Sim)
    requires Keeps(p.code, m.scopes, m.closures, env, DataOf(m), env2, d) && InContext(m, mode)
    requires OperandRel(p.code, m.scopes, env2, d, |m.temps|, o, x) && Readable(env2, o) && Read(env2, o).VFunc?
    requires Reaches(p, pc, m, a, at, Passing(m, d, x, cells', arguments, params, ret))
    requires OpAt(p.code, at, CallOp(mode.Into?))
    requires |cells| == |cells'| && forall i | 0 <= i < |cells| :: CellRel(p.code, cells[i], cells'[i])
    ensures Simulated(p, pc, env, m, mode, true, EvalCalled(p.globals, Read(env2, o), ret, cells, env2, mode, fuel),
        fuel, at + 1, s)
    decreases fuel, e, 0
  {
    hide Run, Step, Rel, Keeps, OperandRel, SegmentCoded, Sound, Cut, SimulatedFrom, Eval, CellRel, Callee, Passing,
         InContext, At, LocOk;
    var f := Read(env2, o);
    KeepsRel(p.code, m.scopes, m.closures, env, DataOf(m), env2, d);
    KeepsCount(p.code, m.scopes, m.closures, env, DataOf(m), env2, d);
    OperandAt(p.code, m, env2, d, |m.temps|, o, x);
    ContextKept(p.code, env, m, env2, d, mode);
    ContextHolds(With(m, d), mode);
    var w := At(With(m, d), x).val;
    var m1 := Passing(m, d, x, cells', arguments, params, ret);
    CallStep(p, at, m, mode.Into?, d, x, cells', arguments, params, ret);
    if mode.Into? && mode.ty != ret {
      s := Faults(p, pc, env, m, mode, true, fuel, at + 1, a, at, m1);
    } else {
      var c := Callee(m, mode.Into?, d, cells', ret, w.closure, at + 1);
      ThenStep(p, pc, m, a, at, m1);
      if fuel == 0 {
        s := TimedOut(p, pc, env, m, at + 1, a + 1, w.body, c);
        CutAtOnce(p, pc, env, m, mode, true, Timeout, 0, at + 1, Push, false, at + 1, s);
      } else {
        var s1 := SimulateCallee(p, f, w.body, env2, m, mode, d, cells, cells', ret, w.closure, at + 1, fuel - 1);
        s := Continued(p, pc, env, m, mode, true, EvalCalled(p.globals, f, ret, cells, env2, mode, fuel), fuel, at + 1,
                       a + 1, w.body, c, env2, d, fuel - 1, s1);
      }
    }
  }

  lemma EvalCallParts(g: seq<Global>, e: Expr, env: Env, mode: Mode, fuel: nat)
    requires e.Call?
    ensures Eval(g, e, env, mode, fuel) ==
      match Eval(g, e.callee, env, Push, fuel)
      case Done(o, env1) =>
        if !Readable(env1, o) then Undefined
        else
          var f := Read(env1, o);
          if !f.VFunc? || ArgCount(e.args) != |f.params| then Error
          else
            (match EvalArgs(g, e.args, f.params, env1, fuel)
             case Done(cells, env2) =>
               if !Readable(env2, o) || Read(env2, o).TypeOf() != f.TypeOf() then Undefined
               else EvalCalled(g, Read(env2, o), f.ret, cells, env2, mode, fuel)
             case Error => Error
             case Timeout => Timeout
             case Undefined => Undefined)
      case r => r
  {
    hide EvalArgs;
    assert Eval(g, e, env, mode, fuel) == EvalCall(g, e.callee, e.args, env, mode, fuel);
  }

  lemma SimulateCall(p: Program, e: Expr, pc: nat, env: Env, m: M, mode: Mode, fuel: nat, vs: nat, cs: nat)
    returns (s: Sim)
    requires e.Call? && Ready(p, e, pc, env, m, mode, vs, cs)
    ensures Runs(p, e, pc, env, m, mode, fuel, s)
    decreases fuel, e, 2
  {
    hide Run, Step, Rel, Keeps, OperandRel, Coded, Sound, Len, Cut, SimulatedFrom, ArgsSimulated, Eval, EvalArgs,
         EvalCalled, ValueRel,
         ArgsCoded, ArgsSound, InContext;
    var arguments := CallReady(p, e, pc, env, m, mode, vs, cs);
    EvalCallParts(p.globals, e, env, mode, fuel);
    var s1 := Simulate(p, e.callee, pc, env, m, Push, fuel, vs, cs);
    var end, pc1 := pc + Len(e, mode.Into?), pc + Len(e.callee, false);
    match Eval(p.globals, e.callee, env, Push, fuel)
    case Done(o, env1) =>
      OperandLeft(p, pc, env, m, Done(o, env1), fuel, pc1, s1);
      KeepsCount(p.code, m.scopes, m.closures, env, DataOf(m), env1, s1.d);
      PrepareStep(p, pc1, m, s1.d, s1.x, arguments);
      var f := Read(env1, o);
      if !f.VFunc? || ArgCount(e.args) != |f.params| {
        s := Faults(p, pc, env, m, mode, true, fuel, end, s1.n, pc1, After(m, s1));
      } else {
        ThenStep(p, pc, m, s1.n, pc1, After(m, s1));
        var s2 := SimulateArgs(p, e.args, pc1, pc1 + 1, env1, m, s1.d, s1.x, [], arguments, f.params, f.ret, fuel);
        assert f.params[0..] == f.params;
        s := SimulateApplied(p, e, pc, env, m, mode, fuel, s1.n + 1, pc1 + 1, env1, s1.d, o, s1.x, arguments,
                             EvalArgs(p.globals, e.args, f.params, env1, fuel), s2);
      }
    case r =>
      CutAtOnce(p, pc, env, m, mode, true, r, fuel, end, Push, true, pc1, s1);
      s := s1;
  }

  // The result of a call, from the callee and what its arguments came to.
  function Applied(p: Program, env1: Env, o: Operand, r: Result<seq<Cell<Expr>>>, mode: Mode,
      fuel: nat): Result<Operand>
    requires Readable(env1, o) && Read(env1, o).VFunc?
  {
    match r
    case Done(cells, env2) =>
      if !Readable(env2, o) || Read(env2, o).TypeOf() != Read(env1, o).TypeOf() then Undefined
      else EvalCalled(p.globals, Read(env2, o), Read(env1, o).ret, cells, env2, mode, fuel)
    case Error => Error
    case Timeout => Timeout
    case Undefined => Undefined
  }

  // After the arguments.
  lemma SimulateApplied(p: Program, e: Expr, pc: nat, env: Env, m: M, mode: Mode, fuel: nat, a: nat, at: nat,
                        env1: Env, d1: Data,
                        o: Operand, x: Loc, arguments: seq<nat>, r: Result<seq<Cell<Expr>>>, s2: ArgsSim)
    returns (s: Sim)
    requires Keeps(p.code, m.scopes, m.closures, env, DataOf(m), env1, d1) && InContext(m, mode)
    requires OperandRel(p.code, m.scopes, env1, d1, |m.temps|, o, x) && Readable(env1, o) && Read(env1, o).VFunc?
    requires var f := Read(env1, o);
      && Reaches(p, pc, m, a, at, Passing(m, d1, x, [], arguments, f.params, f.ret))
      && ArgsSimulated(p, at, env1, m, d1, x, [], arguments, f.params, f.ret, r, fuel, s2)
    requires OpAt(p.code, at + 1, CallOp(mode.Into?))
    ensures Simulated(p, pc, env, m, mode, true, Applied(p, env1, o, r, mode, fuel), fuel, at + 2, s)
    decreases fuel, e, 1
  {
    hide Run, Step, Rel, Keeps, OperandRel, Cut, SimulatedFrom, Eval, EvalCalled, ValueRel, CellRel, Passing, InContext;
    var f := Read(env1, o);
    match r
    case Done(cells, env2) =>
      if !Readable(env2, o) || Read(env2, o).TypeOf() != f.TypeOf() {
        s := Unspecified(p, pc, env, m, mode, true, fuel, at + 2);
      } else {
        KeepsTrans(p.code, m.scopes, m.closures, env, DataOf(m), env1, d1, env2, s2.d);
        OperandKept(p.code, m.scopes, m.closures, env1, d1, env2, s2.d, |m.temps|, o, x);
        Then(p, pc, m, a, at, Passing(m, d1, x, [], arguments, f.params, f.ret), s2.n, at + 1,
             Passing(m, s2.d, x, s2.cells, arguments, f.params, f.ret));
        assert forall i | 0 <= i < |cells| :: s2.cells[0 + i] == s2.cells[i];
        s := SimulateCalled(p, e, pc, env, m, mode, a + s2.n, at + 1, env2, s2.d, o, x, cells, s2.cells, arguments,
          f.params, f.ret, fuel);
      }
    case _ =>
      s := ArgsCutShort(p, pc, env, m, mode, fuel, a, at, env1, d1, x, arguments, f.params, f.ret, r, at + 2, s2);
  }

  lemma Simulate(p: Program, e: Expr, pc: nat, env: Env, m: M, mode: Mode, fuel: nat, vs: nat, cs: nat) returns (s: Sim)
    requires Ready(p, e, pc, env, m, mode, vs, cs)
    ensures Runs(p, e, pc, env, m, mode, fuel, s)
    decreases fuel, e, 3
  {
    hide Run, Step, Rel, Keeps, OperandRel, Coded, Sound, Len, Ready, Simulated;
    match e
    case Unary(_, _) => s := SimulateUnary(p, e, pc, env, m, mode, fuel, vs, cs);
    case Binary(_, _, _) => s := SimulateBinary(p, e, pc, env, m, mode, fuel, vs, cs);
    case IfElse(_, _, _) => s := SimulateIfElse(p, e, pc, env, m, mode, fuel, vs, cs);
    case For(_, _, _) =>
      ForPushes(p, e, pc, env, m, mode, vs, cs);
      EvalFor(p.globals, e, env, fuel);
      s := SimulateLoop(p, e, pc, env, m, fuel, vs, cs);
    case Block(_) => s := SimulateBlock(p, e, pc, env, m, mode, fuel, vs, cs);
    case Func(_, _, _) => s := SimulateFunc(p, e, pc, env, m, mode, fuel, vs, cs);
    case Call(_, _) => s := SimulateCall(p, e, pc, env, m, mode, fuel, vs, cs);
    case Lit(_) => s := SimulateLit(p, e, pc, env, m, mode, fuel, vs, cs);
    case Scoped(_, _) => s := SimulateScoped(p, e, pc, env, m, mode, fuel, vs, cs);
    case Closed(_) => s := SimulateClosed(p, e, pc, env, m, mode, fuel, vs, cs);
    case GlobalRef(_) => s := SimulateGlobal(p, e, pc, env, m, mode, fuel, vs, cs);
    case Set(_, _) => s := SimulateSet(p, e, pc, env, m, mode, fuel, vs, cs);
    case OpSet(_, _, _) => s := SimulateOpSet(p, e, pc, env, m, mode, fuel, vs, cs);
    case IfOnly(_, _) =>
      if mode.Push? {
        s := SimulateIfPush(p, e, pc, env, m, fuel, vs, cs);
      } else {
        s := SimulateIfInto(p, e, pc, env, m, mode, fuel, vs, cs);
      }
  }
}
