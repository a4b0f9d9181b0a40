/** The bytecode interpreter: its instructions, its stacks, and one step of its loop. */
module Machine {
  import opened Basics
  import opened Lang

  type W = Value<nat>

  /** Instructions. `into` is the flag bit that makes an instruction consume a write context
      and store its result there instead of pushing it. Addresses count instructions. */
  datatype Op =
    | EndCode
    | SetWriteCtx
    | DuplicateToWriteCtx
    | ScopeBegin
    | ScopeEnd
    | ScopeEndPreserveTop
    | ScopeAllocTyped(isMut: bool)
    | ScopeAllocUntyped(isMut: bool)
    | PopClosure
    | LoadScope(into: bool, out: nat, rank: nat)
    | LoadGlobal(into: bool, index: nat)
    | LoadClosure(into: bool, slot: nat)
    | MakeSignature(muts: seq<bool>)
    | BindBody(into: bool, body: nat, count: nat)
    | PrepareArgs(arguments: seq<nat>)
    | ExecArgs
    | CallOp(into: bool)
    | Return
    | If(thn: nat)
    | IfElseOp(into: bool, thn: nat, els: nat)
    | Loop(cond: nat, body: nat)
    | UnaryOp(into: bool, uop: UnaryKind)
    | BinaryOp(into: bool, bop: BinaryKind)
    | ValueInteger(into: bool, n: int)
    | ValueVoid(into: bool)
    | DiscardVoid
    | CheckWriteCtxVoid
  {
    predicate ConsumesWriteCtx() {
      match this
      case LoadScope(into, _, _) => into
      case LoadGlobal(into, _) => into
      case LoadClosure(into, _) => into
      case BindBody(into, _, _) => into
      case CallOp(into) => into
      case IfElseOp(into, _, _) => into
      case UnaryOp(into, _) => into
      case BinaryOp(into, _) => into
      case ValueInteger(into, _) => into
      case ValueVoid(into) => into
      case _ => false
    }
  }

  /** Where a value lives: a scope member, temporary data, or immutable memory elsewhere. */
  datatype Loc = Member(i: nat) | TempLoc(i: nat) | FixedLoc(v: W)

  datatype Scope = Scope(firstMember: nat, temps: nat)

  datatype Pack = Pack(params: seq<ParamType>, ret: Type, firstMember: nat, index: nat, count: nat)

  /** All stacks grow to the right. */
  datatype M = M(
    values: seq<Loc>,
    ctxs: seq<Loc>,
    scopes: seq<Scope>,
    members: seq<Cell<nat>>,
    temps: seq<Cell<nat>>,
    activations: seq<nat>,
    calls: seq<nat>,
    closures: seq<seq<W>>,
    callbacks: seq<nat>,
    packs: seq<Pack>)

  const EMPTY: M := M([], [], [], [], [], [], [], [], [], [])

  /** `Fault` is a reported error, `Stuck` a violated internal assertion. */
  datatype Outcome = Next(pc: nat, m: M) | Halted(m: M) | Fault | Stuck

  predicate LocOk(m: M, l: Loc) {
    match l
    case Member(i) => i < |m.members|
    case TempLoc(i) => i < |m.temps|
    case FixedLoc(_) => true
  }

  function At(m: M, l: Loc): Cell<nat>
    requires LocOk(m, l)
  {
    match l
    case Member(i) => m.members[i]
    case TempLoc(i) => m.temps[i]
    case FixedLoc(v) => Cell(v.TypeOf(), false, v)
  }

  function Store(m: M, l: Loc, v: W): M
    requires LocOk(m, l)
  {
    match l
    case Member(i) => m.(members := m.members[i := m.members[i].(val := v)])
    case TempLoc(i) => m.(temps := m.temps[i := m.temps[i].(val := v)])
    case FixedLoc(_) => m
  }

  // `push_temporary_value`; `ctx` is the consumed write context, if any.
  function PutTemporary(pc: nat, m: M, ctx: Maybe<Loc>, v: W): Outcome {
    match ctx
    case None =>
      Next(pc, m.(temps := m.temps + [Cell(v.TypeOf(), true, v)], values := m.values + [TempLoc(|m.temps|)]))
    case Some(dst) =>
      if !LocOk(m, dst) then Stuck
      else if v.TypeOf() != At(m, dst).ty then Fault
      else Next(pc, Store(m, dst, v))
  }

  // `push_location_value`.
  function PutLocation(pc: nat, m: M, ctx: Maybe<Loc>, l: Loc): Outcome {
    if !LocOk(m, l) then Stuck
    else
      match ctx
      case None => Next(pc, m.(values := m.values + [l]))
      case Some(dst) =>
        if !LocOk(m, dst) then Stuck
        else if At(m, l).ty != At(m, dst).ty then Fault
        else Next(pc, Store(m, dst, At(m, l).val))
  }

  predicate TopOk(m: M) {
    |m.values| > 0 && LocOk(m, Top(m.values))
  }

  function TopCell(m: M): Cell<nat>
    requires TopOk(m)
  {
    At(m, Top(m.values))
  }

  function PopValue(m: M): M
    requires |m.values| > 0
  {
    m.(values := Front(m.values))
  }

  // The end of a code segment continues with the innermost activation.
  function Resume(m: M): Outcome {
    if m.activations == [] then Halted(m)
    else Next(Top(m.activations), m.(activations := Front(m.activations)))
  }

  predicate ScopeOk(m: M) {
    |m.scopes| > 0 && Top(m.scopes).firstMember <= |m.members| && Top(m.scopes).temps <= |m.temps|
  }

  function ScopePop(m: M): M
    requires ScopeOk(m)
  {
    var s := Top(m.scopes);
    m.(scopes := Front(m.scopes), members := m.members[..s.firstMember], temps := m.temps[..s.temps])
  }

  // A temporary on top of the values survives the scope: it moves to the scope's start.
  function ScopePopPreserveTop(m: M): M
    requires ScopeOk(m) && |m.values| > 0
  {
    var s := Top(m.scopes);
    var top := Top(m.values);
    if top.TempLoc? && s.temps <= top.i < |m.temps| then
      m.(scopes := Front(m.scopes), members := m.members[..s.firstMember],
         temps := m.temps[..s.temps] + [m.temps[top.i]], values := Front(m.values) + [TempLoc(s.temps)])
    else ScopePop(m)
  }

  predicate ValuesOk(m: M, n: nat) {
    n <= |m.values| && forall i | |m.values| - n <= i < |m.values| :: LocOk(m, m.values[i])
  }

  // The contents of the topmost `n` values.
  function TopValues(m: M, n: nat): (vs: seq<W>)
    requires ValuesOk(m, n)
    ensures |vs| == n
  {
    seq(n, i requires 0 <= i < n => At(m, m.values[|m.values| - n + i]).val)
  }

  function DropValues(m: M, n: nat): M
    requires n <= |m.values|
  {
    m.(values := m.values[..|m.values| - n])
  }

  predicate AllVType(vs: seq<W>) {
    forall i | 0 <= i < |vs| :: vs[i].VType?
  }

  function StepSignature(pc: nat, m: M, muts: seq<bool>): Outcome {
    var n := |muts| + 1;
    if !ValuesOk(m, n) then Stuck
    else
      var vs := TopValues(m, n);
      if !AllVType(vs) then Fault
      else
        var params := seq(|muts|, i requires 0 <= i < |muts| => ParamType(vs[i].ty, muts[i]));
        PutTemporary(pc, DropValues(m, n), None, VType(TFunc(params, vs[n - 1].ty)))
  }

  function StepBindBody(pc: nat, m: M, ctx: Maybe<Loc>, body: nat, count: nat): Outcome {
    if !ValuesOk(m, count + 1) then Stuck
    else
      var vs := TopValues(m, count + 1);
      if !vs[0].VType? || !vs[0].ty.TFunc? then Stuck
      else PutTemporary(pc, DropValues(m, count + 1), ctx, VFunc(vs[0].ty.params, vs[0].ty.ret, body, vs[1..]))
  }

  function StepPrepareArgs(pc: nat, m: M, arguments: seq<nat>): Outcome {
    if !TopOk(m) then Stuck
    else
      match TopCell(m).ty
      case TFunc(params, ret) =>
        if |arguments| != |params| then Fault
        else
          Next(pc, m.(callbacks := m.callbacks + arguments,
                      packs := m.packs + [Pack(params, ret, |m.members|, 0, |arguments|)]))
      case _ => Fault
  }

  // `pc` is the address of the instruction itself, which is resumed after each argument.
  function StepExecArgs(pc: nat, m: M): Outcome {
    if |m.packs| == 0 || Top(m.packs).count > |m.callbacks| || |Top(m.packs).params| != Top(m.packs).count then Stuck
    else
      var p := Top(m.packs);
      if p.index < p.count then
        var param := p.params[p.index];
        Next(m.callbacks[|m.callbacks| - p.count + p.index],
             m.(members := m.members + [Cell(param.ty, param.isMut, VVoid)],
                ctxs := m.ctxs + [Member(|m.members|)],
                packs := Front(m.packs) + [p.(index := p.index + 1)],
                activations := m.activations + [pc]))
      else Next(pc + 1, m)
  }

  function StepCall(pc: nat, m: M, ctx: Maybe<Loc>): Outcome {
    if !TopOk(m) || !TopCell(m).val.VFunc? || |m.packs| == 0 || Top(m.packs).count > |m.callbacks| then Stuck
    else
      var f := TopCell(m).val;
      var p := Top(m.packs);
      if ctx.Some? && !LocOk(m, ctx.value) then Stuck
      else if ctx.Some? && At(m, ctx.value).ty != p.ret then Fault
      else
        var dst := if ctx.Some? then ctx.value else TempLoc(|m.temps|);
        var m1 := if ctx.Some? then PopValue(m)
                  else m.(temps := m.temps + [Cell(p.ret, true, VVoid)], values := Front(m.values) + [dst]);
        Next(f.body,
             m1.(ctxs := m1.ctxs + [dst],
                 scopes := m1.scopes + [Scope(p.firstMember, |m1.temps|)],
                 callbacks := m1.callbacks[..|m1.callbacks| - p.count],
                 packs := Front(m1.packs),
                 closures := if f.closure == [] then m1.closures else m1.closures + [f.closure],
                 calls := m1.calls + [|m1.activations|],
                 activations := m1.activations + [pc]))
  }

  function StepReturn(m: M): Outcome {
    if !ScopeOk(m) || |m.calls| == 0 || Top(m.calls) + 1 > |m.activations| then Stuck
    else
      var m1 := ScopePop(m);
      Resume(m1.(calls := Front(m1.calls), activations := m1.activations[..Top(m1.calls) + 1]))
  }

  // A condition on top of the values selects where to go and what to come back to.
  function StepBranch(m: M, whenTrue: Outcome, whenFalse: Outcome): Outcome {
    if !TopOk(m) then Stuck
    else if TopCell(m).ty != TBool then Fault
    else if !TopCell(m).val.VBool? then Stuck
    else if TopCell(m).val.b then whenTrue
    else whenFalse
  }

  function Activate(m: M, pc: nat): M {
    m.(activations := m.activations + [pc])
  }

  function StepUnary(pc: nat, m: M, ctx: Maybe<Loc>, op: UnaryKind): Outcome {
    if !TopOk(m) then Stuck
    else
      match ApplyUnary(op, TopCell(m).val)
      case Some(v) => PutTemporary(pc, PopValue(m), ctx, v)
      case None => Fault
  }

  function StepBinary(pc: nat, m: M, ctx: Maybe<Loc>, op: BinaryKind): Outcome {
    if !ValuesOk(m, 2) then Stuck
    else
      var vs := TopValues(m, 2);
      match ApplyBinary(op, vs[0], vs[1])
      case Some(v) => PutTemporary(pc, DropValues(m, 2), ctx, v)
      case None => Fault
  }

  // The handlers. `pc` is the address of the instruction, `m` lacks the consumed context.
  function Handle(g: seq<Global>, op: Op, pc: nat, m: M, ctx: Maybe<Loc>): Outcome {
    var next := pc + 1;
    match op
    case EndCode => Resume(m)
    case SetWriteCtx =>
      if !TopOk(m) then Stuck
      else if !TopCell(m).isMut then Fault
      else Next(next, m.(ctxs := m.ctxs + [Top(m.values)], values := Front(m.values)))
    case DuplicateToWriteCtx =>
      if !TopOk(m) then Stuck
      else if !TopCell(m).isMut then Fault
      else Next(next, m.(ctxs := m.ctxs + [Top(m.values)]))
    case ScopeBegin => Next(next, m.(scopes := m.scopes + [Scope(|m.members|, |m.temps|)]))
    case ScopeEnd => if !ScopeOk(m) then Stuck else Next(next, ScopePop(m))
    case ScopeEndPreserveTop =>
      if !ScopeOk(m) || |m.values| == 0 then Stuck else Next(next, ScopePopPreserveTop(m))
    case ScopeAllocTyped(isMut) =>
      if !TopOk(m) || |m.scopes| == 0 then Stuck
      else if TopCell(m).ty != TType then Fault
      else if !TopCell(m).val.VType? then Stuck
      else
        Next(next, m.(members := m.members + [Cell(TopCell(m).val.ty, isMut, VVoid)],
                      ctxs := m.ctxs + [Member(|m.members|)], values := Front(m.values)))
    case ScopeAllocUntyped(isMut) =>
      if !TopOk(m) || |m.scopes| == 0 then Stuck
      else Next(next, m.(members := m.members + [TopCell(m).(isMut := isMut)], values := Front(m.values)))
    case PopClosure => if |m.closures| == 0 then Stuck else Next(next, m.(closures := Front(m.closures)))
    case LoadScope(_, out, rank) =>
      if out >= |m.scopes| then Stuck
      else PutLocation(next, m, ctx, Member(m.scopes[|m.scopes| - 1 - out].firstMember + rank))
    case LoadGlobal(_, i) => if i >= |g| then Stuck else PutLocation(next, m, ctx, FixedLoc(g[i].Val()))
    case LoadClosure(_, slot) =>
      if |m.closures| == 0 || slot >= |Top(m.closures)| then Stuck
      else PutLocation(next, m, ctx, FixedLoc(Top(m.closures)[slot]))
    case MakeSignature(muts) => StepSignature(next, m, muts)
    case BindBody(_, body, count) => StepBindBody(next, m, ctx, body, count)
    case PrepareArgs(arguments) => StepPrepareArgs(next, m, arguments)
    case ExecArgs => StepExecArgs(pc, m)
    case CallOp(_) => StepCall(next, m, ctx)
    case Return => StepReturn(m)
    case If(thn) =>
      if |m.values| == 0 then Stuck
      else StepBranch(m, Next(thn, Activate(PopValue(m), next)), Next(next, PopValue(m)))
    case IfElseOp(_, thn, els) =>
      if |m.values| == 0 then Stuck
      else
        var m1 := if ctx.Some? then m.(ctxs := m.ctxs + [ctx.value]) else m;
        StepBranch(m, Next(thn, Activate(PopValue(m1), next)), Next(els, Activate(PopValue(m1), next)))
    case Loop(cond, body) =>
      if |m.values| == 0 then Stuck
      else StepBranch(m, Next(body, Activate(PopValue(m), cond)), Next(next, PopValue(m)))
    case UnaryOp(_, uop) => StepUnary(next, m, ctx, uop)
    case BinaryOp(_, bop) => StepBinary(next, m, ctx, bop)
    case ValueInteger(_, n) => PutTemporary(next, m, ctx, VInt(n))
    case ValueVoid(_) => PutTemporary(next, m, ctx, VVoid)
    case DiscardVoid =>
      if !TopOk(m) then Stuck
      else if TopCell(m).ty != TVoid then Fault
      else Next(next, PopValue(m))
    case CheckWriteCtxVoid =>
      if |m.ctxs| == 0 || !LocOk(m, Top(m.ctxs)) then Stuck
      else if At(m, Top(m.ctxs)).ty != TVoid then Fault
      else Next(next, m)
  }

  /** One iteration of the interpreter loop. */
  function Step(code: seq<Op>, g: seq<Global>, pc: nat, m: M): Outcome {
    if pc >= |code| then Stuck
    else if !code[pc].ConsumesWriteCtx() then Handle(g, code[pc], pc, m, None)
    else if |m.ctxs| == 0 then Stuck
    else Handle(g, code[pc], pc, m.(ctxs := Front(m.ctxs)), Some(Top(m.ctxs)))
  }

  /** At most `n` iterations. */
  function Run(code: seq<Op>, g: seq<Global>, pc: nat, m: M, n: nat): Outcome
    decreases n
  {
    if n == 0 then Next(pc, m)
    else
      match Step(code, g, pc, m)
      case Next(pc', m') => Run(code, g, pc', m', n - 1)
      case r => r
  }

  lemma {:induction false} RunAppend(code: seq<Op>, g: seq<Global>, pc: nat, m: M, a: nat, pc': nat, m': M, b: nat)
    requires Run(code, g, pc, m, a) == Next(pc', m')
    ensures Run(code, g, pc, m, a + b) == Run(code, g, pc', m', b)
    decreases a
  {
    hide Step;
    if a > 0 {
      var s := Step(code, g, pc, m);
      RunAppend(code, g, s.pc, s.m, a - 1, pc', m', b);
    }
  }
}
