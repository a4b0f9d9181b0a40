/** The interpreter in its own form: stacks that the handlers push and pop, and the loop that
    drives them. Each handler does what the machine's step says. */
module Interpreters {
  import opened Basics
  import opened Lang
  import opened Machine

  // Where a handler leaves the loop.
  datatype Flow = Goto(pc: nat) | Finished | Failed | Broken

  function Reached(f: Flow, m: M): Outcome {
    match f
    case Goto(pc) => Next(pc, m)
    case Finished => Halted(m)
    case Failed => Fault
    case Broken => Stuck
  }

  class Interpreter {
    const code: seq<Op>
    const globals: seq<Global>
    var values: seq<Loc>
    var writeCtxs: seq<Loc>
    var scopes: seq<Scope>
    var scopeMembers: seq<Cell<nat>>
    var temporaries: seq<Cell<nat>>
    var activations: seq<nat>
    var calls: seq<nat>
    var closures: seq<seq<W>>
    var argumentCallbacks: seq<nat>
    var argumentPacks: seq<Pack>

    function State(): M
      reads this
    {
      M(values, writeCtxs, scopes, scopeMembers, temporaries, activations, calls, closures, argumentCallbacks,
          argumentPacks)
    }

    constructor (code: seq<Op>, globals: seq<Global>)
      ensures this.code == code && this.globals == globals && State() == EMPTY
    {
      this.code, this.globals := code, globals;
      values, writeCtxs, scopes, scopeMembers, temporaries := [], [], [], [], [];
      activations, calls, closures, argumentCallbacks, argumentPacks := [], [], [], [], [];
    }

    // ---------- Stacks ----------

    method StoreValue(l: Loc, v: W)
      requires LocOk(State(), l)
      modifies this
      ensures State() == Store(old(State()), l, v)
    {
      match l
      case Member(i) => scopeMembers := scopeMembers[i := scopeMembers[i].(val := v)];
      case TempLoc(i) => temporaries := temporaries[i := temporaries[i].(val := v)];
      case FixedLoc(_) =>
    }

    method PushTemporaryValue(pc: nat, ctx: Maybe<Loc>, v: W) returns (f: Flow)
      modifies this
      ensures Reached(f, State()) == PutTemporary(pc, old(State()), ctx, v)
    {
      match ctx
      case None =>
        values := values + [TempLoc(|temporaries|)];
        temporaries := temporaries + [Cell(v.TypeOf(), true, v)];
        f := Goto(pc);
      case Some(dst) =>
        if !LocOk(State(), dst) {
          f := Broken;
        } else if v.TypeOf() != At(State(), dst).ty {
          f := Failed;
        } else {
          StoreValue(dst, v);
          f := Goto(pc);
        }
    }

    method PushLocationValue(pc: nat, ctx: Maybe<Loc>, l: Loc) returns (f: Flow)
      modifies this
      ensures Reached(f, State()) == PutLocation(pc, old(State()), ctx, l)
    {
      if !LocOk(State(), l) { return Broken; }
      match ctx
      case None =>
        values := values + [l];
        f := Goto(pc);
      case Some(dst) =>
        if !LocOk(State(), dst) {
          f := Broken;
        } else if At(State(), l).ty != At(State(), dst).ty {
          f := Failed;
        } else {
          StoreValue(dst, At(State(), l).val);
          f := Goto(pc);
        }
    }

    method PopValues(n: nat)
      requires n <= |values|
      modifies this`values
      ensures values == old(values)[..|old(values)| - n]
    {
      values := values[..|values| - n];
    }

    method PopActivation() returns (f: Flow)
      modifies this`activations
      ensures Reached(f, State()) == Resume(old(State()))
    {
      if |activations| == 0 { return Finished; }
      f := Goto(activations[|activations| - 1]);
      activations := activations[..|activations| - 1];
    }

    method PopScope(preserveTop: bool) returns (f: Flow)
      modifies this
      ensures !preserveTop && !ScopeOk(old(State())) ==> f == Broken
      ensures !preserveTop && ScopeOk(old(State())) ==> f == Goto(0) && State() == ScopePop(old(State()))
      ensures preserveTop && !(ScopeOk(old(State())) && |old(values)| > 0) ==> f == Broken
      ensures preserveTop && ScopeOk(old(State())) && |old(values)| > 0 ==>
        f == Goto(0) && State() == ScopePopPreserveTop(old(State()))
    {
      if !ScopeOk(State()) || (preserveTop && |values| == 0) { return Broken; }
      var s := scopes[|scopes| - 1];
      scopes := scopes[..|scopes| - 1];
      scopeMembers := scopeMembers[..s.firstMember];
      if preserveTop && values[|values| - 1].TempLoc? && s.temps <= values[|values| - 1].i < |temporaries| {
        var cell := temporaries[values[|values| - 1].i];
        temporaries := temporaries[..s.temps] + [cell];
        values := values[..|values| - 1] + [TempLoc(s.temps)];
      } else {
        temporaries := temporaries[..s.temps];
      }
      f := Goto(0);
    }

    // ---------- Handlers ----------

    method HandleSetWriteCtx(pc: nat, duplicate: bool) returns (f: Flow)
      modifies this
      ensures Reached(f, State())
        == Handle(globals, if duplicate then DuplicateToWriteCtx else SetWriteCtx, pc, old(State()), None)
    {
      if !TopOk(State()) { return Broken; }
      if !TopCell(State()).isMut { return Failed; }
      writeCtxs := writeCtxs + [values[|values| - 1]];
      if !duplicate { PopValues(1); }
      f := Goto(pc + 1);
    }

    method HandleScopeAlloc(pc: nat, op: Op) returns (f: Flow)
      requires op.ScopeAllocTyped? || op.ScopeAllocUntyped?
      modifies this
      ensures Reached(f, State()) == Handle(globals, op, pc, old(State()), None)
    {
      if !TopOk(State()) || |scopes| == 0 { return Broken; }
      var top := TopCell(State());
      if op.ScopeAllocTyped? {
        if top.ty != TType { return Failed; }
        if !top.val.VType? { return Broken; }
        writeCtxs := writeCtxs + [Member(|scopeMembers|)];
        scopeMembers := scopeMembers + [Cell(top.val.ty, op.isMut, VVoid)];
      } else {
        scopeMembers := scopeMembers + [top.(isMut := op.isMut)];
      }
      PopValues(1);
      f := Goto(pc + 1);
    }

    method HandleLoad(pc: nat, op: Op, ctx: Maybe<Loc>) returns (f: Flow)
      requires op.LoadScope? || op.LoadGlobal? || op.LoadClosure?
      modifies this
      ensures Reached(f, State()) == Handle(globals, op, pc, old(State()), ctx)
    {
      match op
      case LoadScope(_, out, rank) =>
        if out >= |scopes| { return Broken; }
        f := PushLocationValue(pc + 1, ctx, Member(scopes[|scopes| - 1 - out].firstMember + rank));
      case LoadGlobal(_, i) =>
        if i >= |globals| { return Broken; }
        f := PushLocationValue(pc + 1, ctx, FixedLoc(globals[i].Val()));
      case LoadClosure(_, slot) =>
        if |closures| == 0 || slot >= |closures[|closures| - 1]| { return Broken; }
        f := PushLocationValue(pc + 1, ctx, FixedLoc(closures[|closures| - 1][slot]));
    }

    method HandleSignature(next: nat, muts: seq<bool>) returns (f: Flow)
      modifies this
      ensures Reached(f, State()) == StepSignature(next, old(State()), muts)
    {
      var n := |muts| + 1;
      if !ValuesOk(State(), n) { return Broken; }
      var vs := TopValues(State(), n);
      var params: seq<ParamType> := [];
      var i := 0;
      while i < n
        invariant 0 <= i <= n && State() == old(State())
        invariant forall j | 0 <= j < i :: vs[j].VType?
        invariant |params| == if i < n then i else n - 1
        invariant forall j | 0 <= j < |params| :: params[j] == ParamType(vs[j].ty, muts[j])
      {
        if !vs[i].VType? { return Failed; }
        if i < n - 1 { params := params + [ParamType(vs[i].ty, muts[i])]; }
        i := i + 1;
      }
      PopValues(n);
      ghost var m := DropValues(old(State()), n);
      assert State() == m;
      assert params == seq(|muts|, i requires 0 <= i < |muts| => ParamType(vs[i].ty, muts[i]));
      f := PushTemporaryValue(next, None, VType(TFunc(params, vs[n - 1].ty)));
    }

    method HandleBindBody(next: nat, ctx: Maybe<Loc>, body: nat, count: nat) returns (f: Flow)
      modifies this
      ensures Reached(f, State()) == StepBindBody(next, old(State()), ctx, body, count)
    {
      if !ValuesOk(State(), count + 1) { return Broken; }
      var vs := TopValues(State(), count + 1);
      if !vs[0].VType? || !vs[0].ty.TFunc? { return Broken; }
      PopValues(count + 1);
      f := PushTemporaryValue(next, ctx, VFunc(vs[0].ty.params, vs[0].ty.ret, body, vs[1..]));
    }

    method HandlePrepareArgs(next: nat, arguments: seq<nat>) returns (f: Flow)
      modifies this
      ensures Reached(f, State()) == StepPrepareArgs(next, old(State()), arguments)
    {
      if !TopOk(State()) { return Broken; }
      match TopCell(State()).ty
      case TFunc(params, ret) =>
        if |arguments| != |params| { return Failed; }
        argumentCallbacks := argumentCallbacks + arguments;
        argumentPacks := argumentPacks + [Pack(params, ret, |scopeMembers|, 0, |arguments|)];
        f := Goto(next);
      case _ => f := Failed;
    }

    method HandleExecArgs(pc: nat) returns (f: Flow)
      modifies this
      ensures Reached(f, State()) == StepExecArgs(pc, old(State()))
    {
      if |argumentPacks| == 0 { return Broken; }
      var pack := argumentPacks[|argumentPacks| - 1];
      if pack.count > |argumentCallbacks| || |pack.params| != pack.count { return Broken; }
      if pack.index >= pack.count { return Goto(pc + 1); }
      var param := pack.params[pack.index];
      writeCtxs := writeCtxs + [Member(|scopeMembers|)];
      scopeMembers := scopeMembers + [Cell(param.ty, param.isMut, VVoid)];
      argumentPacks := argumentPacks[..|argumentPacks| - 1] + [pack.(index := pack.index + 1)];
      activations := activations + [pc];
      f := Goto(argumentCallbacks[|argumentCallbacks| - pack.count + pack.index]);
    }

    // Where the callee stores its result: into the consumed context or a new temporary.
    method PrepareResult(ctx: Maybe<Loc>, ret: Type) returns (dst: Loc)
      requires |values| > 0
      modifies this
      ensures dst == if ctx.Some? then ctx.value else TempLoc(|old(temporaries)|)
      ensures State() == if ctx.Some? then PopValue(old(State()))
        else old(State()).(temps := old(temporaries) + [Cell(ret, true, VVoid)], values := Front(old(values)) + [dst])
    {
      match ctx
      case Some(l) =>
        dst := l;
        PopValues(1);
      case None =>
        dst := TempLoc(|temporaries|);
        temporaries := temporaries + [Cell(ret, true, VVoid)];
        values := values[..|values| - 1] + [dst];
    }

    // The callee's scope starts with its parameters; `next` is where it returns to.
    method EnterCallee(closure: seq<W>, pack: Pack, dst: Loc, next: nat)
      requires pack.count <= |argumentCallbacks| && |argumentPacks| > 0
      modifies this
      ensures State() == old(State()).(
        ctxs := old(writeCtxs) + [dst],
        scopes := old(scopes) + [Scope(pack.firstMember, |old(temporaries)|)],
        callbacks := old(argumentCallbacks)[..|old(argumentCallbacks)| - pack.count],
        packs := Front(old(argumentPacks)),
        closures := if closure == [] then old(closures) else old(closures) + [closure],
        calls := old(calls) + [|old(activations)|],
        activations := old(activations) + [next])
    {
      writeCtxs := writeCtxs + [dst];
      scopes := scopes + [Scope(pack.firstMember, |temporaries|)];
      argumentCallbacks := argumentCallbacks[..|argumentCallbacks| - pack.count];
      argumentPacks := argumentPacks[..|argumentPacks| - 1];
      if closure != [] { closures := closures + [closure]; }
      calls := calls + [|activations|];
      activations := activations + [next];
    }

    method HandleCall(next: nat, ctx: Maybe<Loc>) returns (f: Flow)
      modifies this
      ensures Reached(f, State()) == StepCall(next, old(State()), ctx)
    {
      hide At, LocOk;
      if !TopOk(State()) || !TopCell(State()).val.VFunc? || |argumentPacks| == 0 { return Broken; }
      var callee, pack := TopCell(State()).val, argumentPacks[|argumentPacks| - 1];
      if pack.count > |argumentCallbacks| { return Broken; }
      if ctx.Some? {
        if !LocOk(State(), ctx.value) { return Broken; }
        if At(State(), ctx.value).ty != pack.ret { return Failed; }
      }
      var dst := PrepareResult(ctx, pack.ret);
      EnterCallee(callee.closure, pack, dst, next);
      f := Goto(callee.body);
    }

    method HandleReturn() returns (f: Flow)
      modifies this
      ensures Reached(f, State()) == StepReturn(old(State()))
    {
      if !ScopeOk(State()) || |calls| == 0 || calls[|calls| - 1] + 1 > |activations| { return Broken; }
      ghost var m := ScopePop(State());
      f := PopScope(false);
      assert State() == m;
      var base := calls[|calls| - 1];
      calls := calls[..|calls| - 1];
      activations := activations[..base + 1];
      f := PopActivation();
    }

    // `back` is where the selected code returns to.
    method Branch(thn: nat, thnBack: Maybe<nat>, els: nat, elsBack: Maybe<nat>, ctx: Maybe<Loc>) returns (f: Flow)
      modifies this
      ensures |old(values)| == 0 ==> f == Broken
      ensures |old(values)| > 0 ==>
        var m := PopValue(if ctx.Some? then old(State()).(ctxs := old(writeCtxs) + [ctx.value]) else old(State()));
        Reached(f, State()) == StepBranch(old(State()),
          Next(thn, if thnBack.Some? then Activate(m, thnBack.value) else m),
          Next(els, if elsBack.Some? then Activate(m, elsBack.value) else m))
    {
      if !TopOk(State()) { return Broken; }
      var cell := TopCell(State());
      if cell.ty != TBool { return Failed; }
      if !cell.val.VBool? { return Broken; }
      if ctx.Some? { writeCtxs := writeCtxs + [ctx.value]; }
      PopValues(1);
      var back := if cell.val.b then thnBack else elsBack;
      if back.Some? { activations := activations + [back.value]; }
      f := Goto(if cell.val.b then thn else els);
    }

    method HandleOperator(pc: nat, op: Op, ctx: Maybe<Loc>) returns (f: Flow)
      requires op.UnaryOp? || op.BinaryOp?
      modifies this
      ensures Reached(f, State()) == Handle(globals, op, pc, old(State()), ctx)
    {
      var count := if op.UnaryOp? then 1 else 2;
      if !ValuesOk(State(), count) { return Broken; }
      var vs := TopValues(State(), count);
      var result := if op.UnaryOp? then ApplyUnary(op.uop, vs[0]) else ApplyBinary(op.bop, vs[0], vs[1]);
      match result
      case None => f := Failed;
      case Some(v) =>
        PopValues(count);
        f := PushTemporaryValue(pc + 1, ctx, v);
    }

    method HandleDiscardVoid(pc: nat) returns (f: Flow)
      modifies this
      ensures Reached(f, State()) == Handle(globals, DiscardVoid, pc, old(State()), None)
    {
      if !TopOk(State()) { return Broken; }
      if TopCell(State()).ty != TVoid { return Failed; }
      PopValues(1);
      f := Goto(pc + 1);
    }

    method HandleCheckWriteCtxVoid(pc: nat) returns (f: Flow)
      modifies this
      ensures Reached(f, State()) == Handle(globals, CheckWriteCtxVoid, pc, old(State()), None)
    {
      if |writeCtxs| == 0 || !LocOk(State(), writeCtxs[|writeCtxs| - 1]) { return Broken; }
      if At(State(), writeCtxs[|writeCtxs| - 1]).ty != TVoid { return Failed; }
      f := Goto(pc + 1);
    }

    method HandlePopClosure(pc: nat) returns (f: Flow)
      modifies this
      ensures Reached(f, State()) == Handle(globals, Op.PopClosure, pc, old(State()), None)
    {
      if |closures| == 0 { return Broken; }
      closures := closures[..|closures| - 1];
      f := Goto(pc + 1);
    }

    // ---------- The loop ----------

    method Dispatch(op: Op, pc: nat, ctx: Maybe<Loc>) returns (f: Flow)
      requires ctx.Some? == op.ConsumesWriteCtx()
      modifies this
      ensures Reached(f, State()) == Handle(globals, op, pc, old(State()), ctx)
    {
      hide StepSignature, StepBindBody, StepPrepareArgs, StepExecArgs, StepCall, StepReturn, PutTemporary, PutLocation,
           Resume,
           ScopePop, ScopePopPreserveTop, ScopeOk, At, LocOk, TopOk, ApplyUnary, ApplyBinary;
      var next := pc + 1;
      match op
      case EndCode => f := PopActivation();
      case SetWriteCtx => f := HandleSetWriteCtx(pc, false);
      case DuplicateToWriteCtx => f := HandleSetWriteCtx(pc, true);
      case ScopeBegin =>
        scopes := scopes + [Scope(|scopeMembers|, |temporaries|)];
        f := Goto(next);
      case ScopeEnd =>
        f := PopScope(false);
        if f.Goto? { f := Goto(next); }
      case ScopeEndPreserveTop =>
        f := PopScope(true);
        if f.Goto? { f := Goto(next); }
      case ScopeAllocTyped(_) => f := HandleScopeAlloc(pc, op);
      case ScopeAllocUntyped(_) => f := HandleScopeAlloc(pc, op);
      case PopClosure => f := HandlePopClosure(pc);
      case LoadScope(_, _, _) => f := HandleLoad(pc, op, ctx);
      case LoadGlobal(_, _) => f := HandleLoad(pc, op, ctx);
      case LoadClosure(_, _) => f := HandleLoad(pc, op, ctx);
      case MakeSignature(muts) => f := HandleSignature(next, muts);
      case BindBody(_, body, count) => f := HandleBindBody(next, ctx, body, count);
      case PrepareArgs(arguments) => f := HandlePrepareArgs(next, arguments);
      case ExecArgs => f := HandleExecArgs(pc);
      case CallOp(_) => f := HandleCall(next, ctx);
      case Return => f := HandleReturn();
      case If(thn) => f := Branch(thn, Some(next), next, None, None);
      case IfElseOp(_, thn, els) => f := Branch(thn, Some(next), els, Some(next), ctx);
      case Loop(cond, body) => f := Branch(body, Some(cond), next, None, None);
      case UnaryOp(_, _) => f := HandleOperator(pc, op, ctx);
      case BinaryOp(_, _) => f := HandleOperator(pc, op, ctx);
      case ValueInteger(_, n) => f := PushTemporaryValue(next, ctx, VInt(n));
      case ValueVoid(_) => f := PushTemporaryValue(next, ctx, VVoid);
      case DiscardVoid => f := HandleDiscardVoid(pc);
      case CheckWriteCtxVoid => f := HandleCheckWriteCtxVoid(pc);
    }

    method StepOnce(pc: nat) returns (f: Flow)
      modifies this
      ensures Reached(f, State()) == Step(code, globals, pc, old(State()))
    {
      hide Handle;
      if pc >= |code| { return Broken; }
      var ctx := None;
      if code[pc].ConsumesWriteCtx() {
        if |writeCtxs| == 0 { return Broken; }
        ctx := Some(writeCtxs[|writeCtxs| - 1]);
        writeCtxs := writeCtxs[..|writeCtxs| - 1];
      }
      f := Dispatch(code[pc], pc, ctx);
    }

    /** The interpreter loop, for at most `budget` instructions. */
    method InterpretOpcodes(first: nat, budget: nat) returns (f: Flow)
      modifies this
      ensures Reached(f, State()) == Run(code, globals, first, old(State()), budget)
    {
      hide Step;
      f := Goto(first);
      var left := budget;
      while left > 0
        invariant f.Goto? && Run(code, globals, f.pc, State(), left) == Run(code, globals, first, old(State()), budget)
      {
        f := StepOnce(f.pc);
        if !f.Goto? { return; }
        left := left - 1;
      }
    }
  }
}
