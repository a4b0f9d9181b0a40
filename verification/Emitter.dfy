/** What the compiler emits, for every expression: whether or not its accounting is right for it.

    The functions follow the compiler case by case. Here it is shown that emission only appends,
    that every hole it opens is in the worklist once, and that the worklist comes to its end. */
module Emitter {
  import opened Basics
  import opened Lang
  import opened Machine
  import opened Coding
  import opened Refilling
  import opened Emission
  import opened EmissionCases

  /** Why emission stops: a loop without a final value where one is stored, which is reported
      as an error, or a block that ends in a definition, which the compiler has not decided. */
  datatype Trouble = NeedsFinally | Undecided

  datatype Progress = Going(pool: Pool) | Stopped(why: Trouble) {
    predicate IsFailure() {
      Stopped?
    }

    function PropagateFailure(): Progress
      requires Stopped?
    {
      this
    }

    function Extract(): Pool
      requires Going?
    {
      pool
    }
  }

  // ---------- Expressions ----------

  function ExprFrom(p: Pool, e: Expr, into: bool): Progress
    decreases e, 1
  {
    match e
    case Lit(n) => Going(Emit(p, ValueInteger(into, n)))
    case Scoped(out, rank) => Going(Emit(p, LoadScope(into, out, rank)))
    case Closed(slot) => Going(Emit(p, LoadClosure(into, slot)))
    case GlobalRef(i) => Going(Emit(p, LoadGlobal(into, i)))
    case Unary(_, _) => UnaryFrom(p, e, into)
    case Binary(_, _, _) => BinaryFrom(p, e, into)
    case IfElse(_, _, _) => IfElseFrom(p, e, into)
    case IfOnly(_, _) => IfFrom(p, e, into)
    case For(_, _, _) => ForFrom(p, e, into)
    case Block(_) => BlockFrom(p, e, into)
    case Set(_, _) => SetFrom(p, e, into)
    case OpSet(_, _, _) => OpSetFrom(p, e, into)
    case Func(_, _, _) => FuncFrom(p, e, into)
    case Call(_, _) => CallFrom(p, e, into)
  }

  function UnaryFrom(p: Pool, e: Expr, into: bool): Progress
    requires e.Unary?
    decreases e, 0
  {
    var p1 :- ExprFrom(p, e.operand, false);
    Going(Emit(p1, UnaryOp(into, e.uop)))
  }

  function BinaryFrom(p: Pool, e: Expr, into: bool): Progress
    requires e.Binary?
    decreases e, 0
  {
    var p1 :- ExprFrom(p, e.lhs, false);
    var p2 :- ExprFrom(p1, e.rhs, false);
    Going(Emit(p2, BinaryOp(into, e.bop)))
  }

  function IfElseFrom(p: Pool, e: Expr, into: bool): Progress
    requires e.IfElse?
    decreases e, 0
  {
    var p1 :- ExprFrom(p, e.cond, false);
    Going(EmitWith(p1, IfElseOp(into, INVALID, INVALID), IfElseFixups(|p1.codes|, e, into)))
  }

  // Without an alternative, a value is only needed with a write context.
  function IfFrom(p: Pool, e: Expr, into: bool): Progress
    requires e.IfOnly?
    decreases e, 0
  {
    var p1 :- ExprFrom(p, e.cond, false);
    Going(EmitWith(p1, IfOp(into), IfFixups(|p1.codes|, e, into)))
  }

  function ForFrom(p: Pool, e: Expr, into: bool): Progress
    requires e.For?
    decreases e, 0
  {
    if into then Stopped(NeedsFinally) else
    var p1 :- ExprFrom(p, e.cond, false);
    Going(EmitWith(p1, Loop(|p.codes|, INVALID), LoopFixups(|p1.codes|, e)))
  }

  function BlockFrom(p: Pool, e: Expr, into: bool): Progress
    requires e.Block?
    decreases e, 0
  {
    var p1 :- ItemsFrom(Emit(p, ScopeBegin), e.items, into);
    Going(BlockTail(p1, into))
  }

  function SetFrom(p: Pool, e: Expr, into: bool): Progress
    requires e.Set?
    decreases e, 0
  {
    var p1 :- ExprFrom(p, e.target, false);
    var p2 :- ExprFrom(Emit(p1, SetWriteCtx), e.value, true);
    Going(if into then Emit(p2, ValueVoid(true)) else p2)
  }

  function OpSetFrom(p: Pool, e: Expr, into: bool): Progress
    requires e.OpSet?
    decreases e, 0
  {
    var p1 :- ExprFrom(p, e.target, false);
    var p2 :- ExprFrom(Emit(p1, DuplicateToWriteCtx), e.value, false);
    Going(StoreTail(p2, e.bop, into))
  }

  function FuncFrom(p: Pool, e: Expr, into: bool): Progress
    requires e.Func?
    decreases e, 0
  {
    var p1 :- SignatureFrom(p, e.signature);
    var p2 := CapturesFrom(Emit(p1, MakeSignature(ParamMuts(e.signature))), e.captures);
    Going(EmitWith(p2, BindBody(into, INVALID, |e.captures|), BodyFixups(|p2.codes|, e)))
  }

  function CallFrom(p: Pool, e: Expr, into: bool): Progress
    requires e.Call?
    decreases e, 0
  {
    var p1 :- ExprFrom(p, e.callee, false);
    Going(CallTail(p1, e.args, into))
  }

  // One hole for each argument, then the call.
  function CallTail(p: Pool, args: Args, into: bool): Pool {
    var q := EmitWith(p, PrepareArgs(NoAddresses(ArgCount(args))), ArgFixups(|p.codes|, 0, args));
    Emit(Emit(q, ExecArgs), CallOp(into))
  }

  // Store the result through the target and leave void for the whole.
  function StoreTail(p: Pool, op: BinaryKind, into: bool): Pool {
    var q := Emit(p, BinaryOp(true, op));
    if into then Emit(q, ValueVoid(true)) else q
  }

  // What the compiler emits behind the items of a block; the tests are on absolute depths.
  function BlockTail(p: Pool, into: bool): Pool {
    var q := if (if into then p.ctxs == 1 else p.values == 0) then Emit(p, ValueVoid(into)) else p;
    Emit(q, BlockEnd(into))
  }

  function ItemsFrom(p: Pool, items: Items, into: bool): Progress
    decreases items, 1
  {
    match items
    case End => Going(p)
    case Let(_, _, _) => LetFrom(p, items, into)
    case TypedLet(_, _, _, _) => LetFrom(p, items, into)
    case Do(_, _) => DoFrom(p, items, into)
  }

  // The rest of a block, behind a definition.
  function LetFrom(p: Pool, items: Items, into: bool): Progress
    requires items.Let? || items.TypedLet?
    decreases items, 0, 1
  {
    if items.rest.End? then Stopped(Undecided) else
    var p1 :- DefinitionFrom(p, items);
    ItemsFrom(p1, items.rest, into)
  }

  function DefinitionFrom(p: Pool, items: Items): Progress
    requires items.Let? || items.TypedLet?
    decreases items, 0, 0
  {
    if items.TypedLet? then
      var p1 :- ExprFrom(p, items.ty, false);
      ExprFrom(Emit(p1, ScopeAllocTyped(items.isMut)), items.value, true)
    else
      var p1 :- ExprFrom(p, items.value, false);
      Going(Emit(p1, ScopeAllocUntyped(items.isMut)))
  }

  // The rest of a block, behind a statement.
  function DoFrom(p: Pool, items: Items, into: bool): Progress
    requires items.Do?
    decreases items, 0
  {
    var p1 :- StatementFrom(p, items.e, items.rest.End?, into);
    ItemsFrom(p1, items.rest, into)
  }

  function StatementFrom(p: Pool, e: Expr, isLast: bool, into: bool): Progress
    decreases e, 2
  {
    var p1 :- ExprFrom(p, e, isLast && into);
    Going(ItemTail(p, p1, isLast, into))
  }

  // Behind a statement without a value that is the last one, void is emitted for the block;
  // the value of any other statement is discarded.
  function ItemTail(p0: Pool, p: Pool, isLast: bool, into: bool): Pool {
    var q :=
      if isLast && p.values == p0.values && p.ctxs == p0.ctxs then Emit(p, ValueVoid(into))
      else if !isLast && p.values == p0.values + 1 then Emit(p, DiscardVoid)
      else p;
    q.Assert(q.values == p0.values + Bit(isLast && !into))
  }

  function SignatureFrom(p: Pool, sig: Signature): Progress
    decreases sig
  {
    match sig
    case Returns(ret) => ExprFrom(p, ret, false)
    case Param(_, ty, rest) =>
      var p1 :- ExprFrom(p, ty, false);
      SignatureFrom(p1, rest)
  }

  function CapturesFrom(p: Pool, captures: seq<Capture>): Pool
    decreases |captures|
  {
    if captures == [] then p
    else Emit(CapturesFrom(p, captures[..|captures| - 1]), CaptureOp(captures[|captures| - 1]))
  }

  // ---------- Segments ----------

  function DiscardTail(p: Pool): Pool {
    if p.values == 1 then Emit(p, DiscardVoid) else p
  }

  // The value of a branch is the value of the branching instruction.
  function BranchTail(p: Pool, into: bool): Pool {
    var q := Emit(p, EndCode);
    q.Assert(q.values == Bit(!into)).(values := q.values - Bit(!into))
  }

  /** A segment, from depth zero. */
  function SegmentFrom(p: Pool, s: Segment): Progress {
    match s
    case FunctionBody(e, hasClosure) =>
      var p1 :- ExprFrom(p.(ctxs := 1, closures := Bit(hasClosure)), e, true);
      Going(Emit(if hasClosure then Emit(p1, PopClosure) else p1, Return))
    case Argument(e) =>
      var p1 :- ExprFrom(p.(ctxs := 1), e, true);
      Going(Emit(p1, EndCode))
    case VoidValue =>
      Going(Emit(Emit(p.(ctxs := 1), ValueVoid(true)), EndCode))
    case IfBranch(e, into, expectVoid) =>
      var p0 := p.(ctxs := Bit(into));
      var p1 :- ExprFrom(if expectVoid && into then Emit(p0, CheckWriteCtxVoid) else p0, e, into);
      Going(BranchTail(p1, into))
    case DiscardedIfBranch(e) =>
      var p1 :- ExprFrom(p, e, false);
      Going(Emit(DiscardTail(p1), EndCode))
    case LoopBody(e, step) =>
      var p1 :- ExprFrom(p, e, false);
      var p2 :- StepFrom(DiscardTail(p1), step);
      Going(Emit(p2, EndCode))
  }

  function StepFrom(p: Pool, step: LoopStep): Progress {
    match step
    case NoStep => Going(p)
    case Advance(e) =>
      var p1 :- ExprFrom(p, e, false);
      var p2 := DiscardTail(p1);
      Going(p2.Assert(p2.AtZero()))
  }

  // ---------- Emission only appends ----------

  /** `q` continues `p`; the work deferred meanwhile is at most `work`. */
  ghost predicate Grown(p: Pool, q: Pool, work: nat) {
    |p.codes| <= |q.codes| && Emitted(p, q, |q.codes| - |p.codes|, work)
  }

  lemma GrownBy(p: Pool, q: Pool, n: nat, work: nat, more: nat)
    requires Emitted(p, q, n, work) && work <= more
    ensures Grown(p, q, more)
  {
    hide Holes, TotalSize;
  }

  lemma GrownTrans(p: Pool, q: Pool, a: nat, r: Pool, b: nat)
    requires Grown(p, q, a) && Grown(q, r, b)
    ensures Grown(p, r, a + b)
  {
    hide Emitted;
    EmittedTrans(p, q, |q.codes| - |p.codes|, a, r, |r.codes| - |q.codes|, b);
  }

  lemma GrownPlain(p: Pool, q: Pool, work: nat, op: Op)
    requires Grown(p, q, work) && Plain(op)
    ensures Grown(p, Emit(q, op), work)
  {
    hide Emitted, Emit;
    GrownHoles(p, q, work);
    EmittedPlain(q, op);
    GrownBy(q, Emit(q, op), 1, 0, 0);
    GrownTrans(p, q, work, Emit(q, op), 0);
  }

  lemma GrownWith(p: Pool, q: Pool, a: nat, op: Op, more: seq<Fixup>, b: nat)
    requires Grown(p, q, a) && HolesOf(q, op, more) && TotalSize(more) <= b
    ensures Grown(p, EmitWith(q, op, more), a + b)
  {
    hide Emitted, EmitWith, HolesOf, TotalSize;
    GrownHoles(p, q, a);
    EmittedWith(q, op, more);
    GrownBy(q, EmitWith(q, op, more), 1, TotalSize(more), b);
    GrownTrans(p, q, a, EmitWith(q, op, more), b);
  }

  lemma GrownMore(p: Pool, q: Pool, a: nat, b: nat)
    requires Grown(p, q, a) && a <= b
    ensures Grown(p, q, b)
  {
    hide Holes, TotalSize;
  }

  lemma GrownHoles(p: Pool, q: Pool, work: nat)
    requires Grown(p, q, work)
    ensures Holes(p) && Holes(q) && |p.codes| <= |q.codes| && q.codes[..|p.codes|] == p.codes
    ensures TotalSize(q.fixups) <= TotalSize(p.fixups) + work
    ensures |p.fixups| <= |q.fixups| && q.fixups[..|p.fixups|] == p.fixups
  {
    hide Holes, TotalSize;
  }

  lemma GrownSame(p: Pool, q: Pool)
    requires Holes(p) && q.codes == p.codes && q.fixups == p.fixups
    ensures Grown(p, q, 0) && Holes(q)
  {
    hide TotalSize;
  }

  // The depths do not matter.
  lemma GrownRead(p: Pool, q: Pool, work: nat, q': Pool)
    requires Grown(p, q, work) && q'.codes == q.codes && q'.fixups == q.fixups
    ensures Grown(p, q', work)
  {
    hide TotalSize;
  }

  ghost predicate Grows(p: Pool, r: Progress, work: nat) {
    r.Going? ==> Grown(p, r.pool, work)
  }

  lemma {:induction false} ExprGrows(p: Pool, e: Expr, into: bool)
    requires Holes(p)
    ensures Grows(p, ExprFrom(p, e, into), Size(e) - 1)
    decreases e, 2
  {
    hide Holes, Grown, Emit, EmitWith, OpcodeEffects, TotalSize;
    GrownSame(p, p);
    match e
    case Lit(n) => GrownPlain(p, p, 0, ValueInteger(into, n));
    case Scoped(out, rank) => GrownPlain(p, p, 0, LoadScope(into, out, rank));
    case Closed(slot) => GrownPlain(p, p, 0, LoadClosure(into, slot));
    case GlobalRef(i) => GrownPlain(p, p, 0, LoadGlobal(into, i));
    case Unary(_, _) => UnaryGrows(p, e, into);
    case Binary(_, _, _) => BinaryGrows(p, e, into);
    case IfElse(_, _, _) => IfElseGrows(p, e, into);
    case IfOnly(_, _) => IfGrows(p, e, into);
    case For(_, _, _) => ForGrows(p, e, into);
    case Block(_) => BlockGrows(p, e, into);
    case Set(_, _) => SetGrows(p, e, into);
    case OpSet(_, _, _) => OpSetGrows(p, e, into);
    case Func(_, _, _) => FuncGrows(p, e, into);
    case Call(_, _) => CallGrows(p, e, into);
  }

  lemma {:induction false} UnaryGrows(p: Pool, e: Expr, into: bool)
    requires Holes(p) && e.Unary?
    ensures Grows(p, UnaryFrom(p, e, into), Size(e) - 1)
    decreases e, 1
  {
    hide Holes, Grown, Emit, ExprFrom;
    ExprGrows(p, e.operand, false);
    var r := ExprFrom(p, e.operand, false);
    if r.Going? {
      GrownPlain(p, r.pool, Size(e.operand) - 1, UnaryOp(into, e.uop));
      GrownMore(p, Emit(r.pool, UnaryOp(into, e.uop)), Size(e.operand) - 1, Size(e) - 1);
    }
  }

  lemma {:induction false} BinaryGrows(p: Pool, e: Expr, into: bool)
    requires Holes(p) && e.Binary?
    ensures Grows(p, BinaryFrom(p, e, into), Size(e) - 1)
    decreases e, 1
  {
    hide Holes, Grown, Emit, ExprFrom;
    ExprGrows(p, e.lhs, false);
    var r := ExprFrom(p, e.lhs, false);
    if r.Going? {
      var a, b := Size(e.lhs) - 1, Size(e.rhs) - 1;
      GrownHoles(p, r.pool, a);
      ExprGrows(r.pool, e.rhs, false);
      var r2 := ExprFrom(r.pool, e.rhs, false);
      if r2.Going? {
        GrownTrans(p, r.pool, a, r2.pool, b);
        GrownPlain(p, r2.pool, a + b, BinaryOp(into, e.bop));
        GrownMore(p, Emit(r2.pool, BinaryOp(into, e.bop)), a + b, Size(e) - 1);
      }
    }
  }

  // A condition and the instruction that branches on it.
  lemma {:induction false} BranchGrows(p: Pool, e: Expr, cond: Expr, op: Op, more: seq<Fixup>)
    requires Holes(p) && cond < e && Size(cond) - 1 + TotalSize(more) <= Size(e) - 1
    requires ExprFrom(p, cond, false).Going? ==> HolesOf(ExprFrom(p, cond, false).pool, op, more)
    ensures var r := ExprFrom(p, cond, false);
      r.Going? ==> Grown(p, EmitWith(r.pool, op, more), Size(e) - 1)
    decreases e, 0
  {
    hide Holes, Grown, EmitWith, HolesOf, ExprFrom;
    ExprGrows(p, cond, false);
    var r := ExprFrom(p, cond, false);
    if r.Going? {
      GrownWith(p, r.pool, Size(cond) - 1, op, more, TotalSize(more));
      GrownMore(p, EmitWith(r.pool, op, more), Size(cond) - 1 + TotalSize(more), Size(e) - 1);
    }
  }

  lemma {:induction false} IfElseGrows(p: Pool, e: Expr, into: bool)
    requires Holes(p) && e.IfElse?
    ensures Grows(p, IfElseFrom(p, e, into), Size(e) - 1)
    decreases e, 1
  {
    hide HolesOf, Holes, Grown, EmitWith, TotalSize, Size, Len, Accepted, AllAccepted, ExprFrom;
    var r := ExprFrom(p, e.cond, false);
    if r.Going? {
      IfElseFacts(e, into, |r.pool.codes|);
      IfElseHoles(r.pool, e, into);
      BranchGrows(p, e, e.cond, IfElseOp(into, INVALID, INVALID), IfElseFixups(|r.pool.codes|, e, into));
    }
  }

  lemma {:induction false} IfGrows(p: Pool, e: Expr, into: bool)
    requires Holes(p) && e.IfOnly?
    ensures Grows(p, IfFrom(p, e, into), Size(e) - 1)
    decreases e, 1
  {
    hide HolesOf, Holes, Grown, EmitWith, TotalSize, Size, Len, Accepted, AllAccepted, ExprFrom;
    var r := ExprFrom(p, e.cond, false);
    if r.Going? {
      IfFacts(e, into, |r.pool.codes|);
      IfHoles(r.pool, e, into);
      BranchGrows(p, e, e.cond, IfOp(into), IfFixups(|r.pool.codes|, e, into));
    }
  }

  lemma {:induction false} ForGrows(p: Pool, e: Expr, into: bool)
    requires Holes(p) && e.For?
    ensures Grows(p, ForFrom(p, e, into), Size(e) - 1)
    decreases e, 1
  {
    hide HolesOf, Holes, Grown, EmitWith, TotalSize, Size, Len, Accepted, AllAccepted, ExprFrom;
    var r := ExprFrom(p, e.cond, false);
    if !into && r.Going? {
      ForFacts(e, |r.pool.codes|);
      LoopHoles(r.pool, e, |p.codes|);
      BranchGrows(p, e, e.cond, Loop(|p.codes|, INVALID), LoopFixups(|r.pool.codes|, e));
    }
  }

  lemma {:induction false} BlockGrows(p: Pool, e: Expr, into: bool)
    requires Holes(p) && e.Block?
    ensures Grows(p, BlockFrom(p, e, into), Size(e) - 1)
    decreases e, 1
  {
    hide Holes, Grown, Emit, ItemsFrom;
    var p0 := Emit(p, ScopeBegin);
    GrownSame(p, p);
    GrownPlain(p, p, 0, ScopeBegin);
    GrownHoles(p, p0, 0);
    ItemsGrow(p0, e.items, into);
    var r := ItemsFrom(p0, e.items, into);
    if r.Going? {
      var work := ItemsSize(e.items);
      GrownTrans(p, p0, 0, r.pool, work);
      GrownPlain(p, r.pool, work, ValueVoid(into));
      GrownPlain(p, r.pool, work, BlockEnd(into));
      GrownPlain(p, Emit(r.pool, ValueVoid(into)), work, BlockEnd(into));
    }
  }

  lemma {:induction false} SetGrows(p: Pool, e: Expr, into: bool)
    requires Holes(p) && e.Set?
    ensures Grows(p, SetFrom(p, e, into), Size(e) - 1)
    decreases e, 1
  {
    hide Holes, Grown, Emit, ExprFrom;
    ExprGrows(p, e.target, false);
    var r := ExprFrom(p, e.target, false);
    if r.Going? {
      var a, b, p1 := Size(e.target) - 1, Size(e.value) - 1, Emit(r.pool, SetWriteCtx);
      GrownPlain(p, r.pool, a, SetWriteCtx);
      GrownHoles(p, p1, a);
      ExprGrows(p1, e.value, true);
      var r2 := ExprFrom(p1, e.value, true);
      if r2.Going? {
        GrownTrans(p, p1, a, r2.pool, b);
        GrownMore(p, r2.pool, a + b, Size(e) - 1);
        GrownPlain(p, r2.pool, Size(e) - 1, ValueVoid(true));
      }
    }
  }

  lemma {:induction false} OpSetGrows(p: Pool, e: Expr, into: bool)
    requires Holes(p) && e.OpSet?
    ensures Grows(p, OpSetFrom(p, e, into), Size(e) - 1)
    decreases e, 1
  {
    hide Holes, Grown, Emit, ExprFrom;
    ExprGrows(p, e.target, false);
    var r := ExprFrom(p, e.target, false);
    if r.Going? {
      var a, b, p1 := Size(e.target) - 1, Size(e.value) - 1, Emit(r.pool, DuplicateToWriteCtx);
      GrownPlain(p, r.pool, a, DuplicateToWriteCtx);
      GrownHoles(p, p1, a);
      ExprGrows(p1, e.value, false);
      var r2 := ExprFrom(p1, e.value, false);
      if r2.Going? {
        GrownTrans(p, p1, a, r2.pool, b);
        GrownMore(p, r2.pool, a + b, Size(e) - 1);
        GrownPlain(p, r2.pool, Size(e) - 1, BinaryOp(true, e.bop));
        GrownPlain(p, Emit(r2.pool, BinaryOp(true, e.bop)), Size(e) - 1, ValueVoid(true));
      }
    }
  }

  lemma {:induction false} FuncGrows(p: Pool, e: Expr, into: bool)
    requires Holes(p) && e.Func?
    ensures Grows(p, FuncFrom(p, e, into), Size(e) - 1)
    decreases e, 1
  {
    hide HolesOf, Holes, Grown, Emit, EmitWith, TotalSize, CapturesFrom, SignatureFrom;
    SignatureGrows(p, e.signature);
    var r := SignatureFrom(p, e.signature);
    if r.Going? {
      var a, op := SignatureSize(e.signature) - 1, MakeSignature(ParamMuts(e.signature));
      GrownPlain(p, r.pool, a, op);
      CapturesGrow(p, Emit(r.pool, op), a, e.captures);
      var p2 := CapturesFrom(Emit(r.pool, op), e.captures);
      var more := BodyFixups(|p2.codes|, e);
      TotalSizeOne(more[0]);
      FuncFacts(e, into);
      BodyHoles(p2, e, into);
      GrownWith(p, p2, a, BindBody(into, INVALID, |e.captures|), more, Size(e.body) + 1);
    }
  }

  lemma {:induction false} CallGrows(p: Pool, e: Expr, into: bool)
    requires Holes(p) && e.Call?
    ensures Grows(p, CallFrom(p, e, into), Size(e) - 1)
    decreases e, 1
  {
    hide HolesOf, Holes, Grown, Emit, EmitWith, TotalSize, ExprFrom;
    var r := ExprFrom(p, e.callee, false);
    if r.Going? {
      var op, more := PrepareArgs(NoAddresses(ArgCount(e.args))), ArgFixups(|r.pool.codes|, 0, e.args);
      ArgFixupsAre(|r.pool.codes|, 0, e.args);
      CallFacts(e, into);
      hide ArgFixups;
      ArgHoles(r.pool, e.args);
      BranchGrows(p, e, e.callee, op, more);
      GrownPlain(p, EmitWith(r.pool, op, more), Size(e) - 1, ExecArgs);
      GrownPlain(p, Emit(EmitWith(r.pool, op, more), ExecArgs), Size(e) - 1, CallOp(into));
    }
  }

  lemma {:induction false} ItemsGrow(p: Pool, items: Items, into: bool)
    requires Holes(p)
    ensures Grows(p, ItemsFrom(p, items, into), ItemsSize(items))
    decreases items, 2
  {
    hide Holes, Grown;
    GrownSame(p, p);
    match items
    case End =>
    case Let(_, _, _) => LetGrows(p, items, into);
    case TypedLet(_, _, _, _) => TypedLetGrows(p, items, into);
    case Do(_, _) => DoGrows(p, items, into);
  }

  // What came first, then the rest.
  lemma {:induction false} RestGrows(p: Pool, q: Pool, a: nat, items: Items, into: bool)
    requires !items.End? && Grown(p, q, a) && a + ItemsSize(items.rest) <= ItemsSize(items)
    ensures Grows(p, ItemsFrom(q, items.rest, into), ItemsSize(items))
    decreases items, 0
  {
    hide Holes, Grown, ItemsSize, ItemsFrom;
    GrownHoles(p, q, a);
    ItemsGrow(q, items.rest, into);
    var r := ItemsFrom(q, items.rest, into);
    if r.Going? {
      GrownTrans(p, q, a, r.pool, ItemsSize(items.rest));
      GrownMore(p, r.pool, a + ItemsSize(items.rest), ItemsSize(items));
    }
  }

  lemma {:induction false} LetGrows(p: Pool, items: Items, into: bool)
    requires Holes(p) && items.Let?
    ensures Grows(p, LetFrom(p, items, into), ItemsSize(items))
    decreases items, 1
  {
    hide Holes, Grown, Emit, ExprFrom, ItemsFrom;
    ExprGrows(p, items.value, false);
    var r := ExprFrom(p, items.value, false);
    if r.Going? {
      var op := ScopeAllocUntyped(items.isMut);
      GrownPlain(p, r.pool, Size(items.value) - 1, op);
      RestGrows(p, Emit(r.pool, op), Size(items.value) - 1, items, into);
    }
  }

  lemma {:induction false} TypedLetGrows(p: Pool, items: Items, into: bool)
    requires Holes(p) && items.TypedLet?
    ensures Grows(p, LetFrom(p, items, into), ItemsSize(items))
    decreases items, 1
  {
    hide Holes, Grown, Emit, ExprFrom, ItemsFrom;
    ExprGrows(p, items.ty, false);
    var r := ExprFrom(p, items.ty, false);
    if r.Going? {
      var op, a, b := ScopeAllocTyped(items.isMut), Size(items.ty) - 1, Size(items.value) - 1;
      GrownPlain(p, r.pool, a, op);
      var p1 := Emit(r.pool, op);
      GrownHoles(p, p1, a);
      ExprGrows(p1, items.value, true);
      var r2 := ExprFrom(p1, items.value, true);
      if r2.Going? {
        GrownTrans(p, p1, a, r2.pool, b);
        RestGrows(p, r2.pool, a + b, items, into);
      }
    }
  }

  lemma {:induction false} DoGrows(p: Pool, items: Items, into: bool)
    requires Holes(p) && items.Do?
    ensures Grows(p, DoFrom(p, items, into), ItemsSize(items))
    decreases items, 1
  {
    hide Holes, Grown, Emit, ExprFrom, ItemsFrom;
    var last := items.rest.End?;
    ExprGrows(p, items.e, last && into);
    var r := ExprFrom(p, items.e, last && into);
    if r.Going? {
      ItemTailGrown(p, p, r.pool, Size(items.e) - 1, last, into);
      RestGrows(p, ItemTail(p, r.pool, last, into), Size(items.e) - 1, items, into);
    }
  }

  lemma ItemTailGrown(p: Pool, p0: Pool, q: Pool, work: nat, isLast: bool, into: bool)
    requires Grown(p, q, work)
    ensures Grown(p, ItemTail(p0, q, isLast, into), work)
  {
    hide Holes, Grown, Emit;
    GrownPlain(p, q, work, ValueVoid(into));
    GrownPlain(p, q, work, DiscardVoid);
    var r :=
      if isLast && q.values == p0.values && q.ctxs == p0.ctxs then Emit(q, ValueVoid(into))
      else if !isLast && q.values == p0.values + 1 then Emit(q, DiscardVoid)
      else q;
    GrownRead(p, r, work, ItemTail(p0, q, isLast, into));
  }

  lemma {:induction false} SignatureGrows(p: Pool, sig: Signature)
    requires Holes(p)
    ensures Grows(p, SignatureFrom(p, sig), SignatureSize(sig) - 1)
    decreases sig, 1
  {
    hide Holes, Grown, ExprFrom, Size;
    match sig
    case Returns(ret) => ExprGrows(p, ret, false);
    case Param(_, ty, rest) =>
      ExprGrows(p, ty, false);
      var r := ExprFrom(p, ty, false);
      if r.Going? {
        GrownHoles(p, r.pool, Size(ty) - 1);
        SignatureGrows(r.pool, rest);
        var r2 := SignatureFrom(r.pool, rest);
        if r2.Going? {
          GrownTrans(p, r.pool, Size(ty) - 1, r2.pool, SignatureSize(rest) - 1);
          GrownMore(p, r2.pool, Size(ty) - 1 + SignatureSize(rest) - 1, SignatureSize(sig) - 1);
        }
      }
  }

  lemma {:induction false} CapturesGrow(p: Pool, q: Pool, work: nat, captures: seq<Capture>)
    requires Grown(p, q, work)
    ensures Grown(p, CapturesFrom(q, captures), work)
    decreases |captures|
  {
    hide Holes, Grown, Emit;
    if captures != [] {
      var before := captures[..|captures| - 1];
      CapturesGrow(p, q, work, before);
      GrownPlain(p, CapturesFrom(q, before), work, CaptureOp(captures[|captures| - 1]));
    }
  }

  // ---------- The worklist ----------

  lemma SegmentGrows(p: Pool, s: Segment)
    requires Holes(p)
    ensures Grows(p, SegmentFrom(p, s), SegmentSize(s) - 1)
  {
    hide Holes, Grown, Emit, ExprFrom, OpcodeEffects, Size;
    match s
    case FunctionBody(e, hasClosure) => BodyGrows(p, e, hasClosure);
    case Argument(e) =>
      var p0 := p.(ctxs := 1);
      ThenGrows(p, p0, e, true);
      var r := ExprFrom(p0, e, true);
      if r.Going? { GrownPlain(p, r.pool, Size(e) - 1, EndCode); }
    case VoidValue =>
      var p0 := p.(ctxs := 1);
      GrownSame(p, p0);
      GrownPlain(p, p0, 0, ValueVoid(true));
      GrownPlain(p, Emit(p0, ValueVoid(true)), 0, EndCode);
    case IfBranch(e, into, expectVoid) => IfBranchGrows(p, e, into, expectVoid);
    case DiscardedIfBranch(e) =>
      ThenGrows(p, p, e, false);
      var r := ExprFrom(p, e, false);
      if r.Going? {
        DiscardGrown(p, r.pool, Size(e) - 1);
        GrownPlain(p, DiscardTail(r.pool), Size(e) - 1, EndCode);
      }
    case LoopBody(e, step) => LoopBodyGrows(p, e, step);
  }

  lemma ThenGrows(p: Pool, p0: Pool, e: Expr, into: bool)
    requires Holes(p) && p0.codes == p.codes && p0.fixups == p.fixups
    ensures Grows(p, ExprFrom(p0, e, into), Size(e) - 1)
  {
    hide Holes, Grown, ExprFrom, Size;
    GrownSame(p, p0);
    ExprGrows(p0, e, into);
    var r := ExprFrom(p0, e, into);
    if r.Going? { GrownTrans(p, p0, 0, r.pool, Size(e) - 1); }
  }

  lemma DiscardGrown(p: Pool, q: Pool, work: nat)
    requires Grown(p, q, work)
    ensures Grown(p, DiscardTail(q), work)
  {
    hide Grown, Emit;
    GrownPlain(p, q, work, DiscardVoid);
  }

  lemma BodyGrows(p: Pool, e: Expr, hasClosure: bool)
    requires Holes(p)
    ensures Grows(p, SegmentFrom(p, FunctionBody(e, hasClosure)), Size(e) - 1)
  {
    hide Holes, Grown, Emit, ExprFrom, Size;
    var p0, work := p.(ctxs := 1, closures := Bit(hasClosure)), Size(e) - 1;
    ThenGrows(p, p0, e, true);
    var r := ExprFrom(p0, e, true);
    if r.Going? {
      GrownPlain(p, r.pool, work, PopClosure);
      GrownPlain(p, r.pool, work, Return);
      GrownPlain(p, Emit(r.pool, PopClosure), work, Return);
    }
  }

  lemma IfBranchGrows(p: Pool, e: Expr, into: bool, expectVoid: bool)
    requires Holes(p)
    ensures Grows(p, SegmentFrom(p, IfBranch(e, into, expectVoid)), Size(e) - 1)
  {
    hide Holes, Grown, Emit, ExprFrom, Size;
    var p0, work := p.(ctxs := Bit(into)), Size(e) - 1;
    GrownSame(p, p0);
    GrownPlain(p, p0, 0, CheckWriteCtxVoid);
    var p1 := if expectVoid && into then Emit(p0, CheckWriteCtxVoid) else p0;
    GrownHoles(p, p1, 0);
    ExprGrows(p1, e, into);
    var r := ExprFrom(p1, e, into);
    if r.Going? {
      GrownTrans(p, p1, 0, r.pool, work);
      GrownPlain(p, r.pool, work, EndCode);
      GrownRead(p, Emit(r.pool, EndCode), work, BranchTail(r.pool, into));
    }
  }

  lemma StepGrows(p: Pool, q: Pool, work: nat, step: LoopStep)
    requires Grown(p, q, work)
    ensures Grows(p, StepFrom(q, step), work + StepSize(step))
  {
    hide Holes, Grown, Emit, ExprFrom, Size;
    if step.Advance? {
      GrownHoles(p, q, work);
      ExprGrows(q, step.e, false);
      var r := ExprFrom(q, step.e, false);
      if r.Going? {
        GrownTrans(p, q, work, r.pool, Size(step.e) - 1);
        GrownMore(p, r.pool, work + Size(step.e) - 1, work + Size(step.e));
        DiscardGrown(p, r.pool, work + Size(step.e));
        var q2 := DiscardTail(r.pool);
        GrownRead(p, q2, work + Size(step.e), q2.Assert(q2.AtZero()));
      }
    }
  }

  lemma LoopBodyGrows(p: Pool, e: Expr, step: LoopStep)
    requires Holes(p)
    ensures Grows(p, SegmentFrom(p, LoopBody(e, step)), SegmentSize(LoopBody(e, step)) - 1)
  {
    hide Holes, Grown, Emit, ExprFrom, Size, StepFrom, DiscardTail;
    var work := Size(e) - 1;
    ThenGrows(p, p, e, false);
    var r := ExprFrom(p, e, false);
    if r.Going? {
      DiscardGrown(p, r.pool, work);
      StepGrows(p, DiscardTail(r.pool), work, step);
      var r2 := StepFrom(DiscardTail(r.pool), step);
      if r2.Going? { GrownPlain(p, r2.pool, work + StepSize(step), EndCode); }
    }
  }

  function LastFixup(p: Pool): Fixup
    requires p.fixups != []
  {
    p.fixups[|p.fixups| - 1]
  }

  /** The last hole is taken from the worklist and patched with the next address; the depths
      start at zero. */
  function Opened(p: Pool): Pool
    requires Holes(p) && p.fixups != []
  {
    var f := LastFixup(p);
    assert IsHole(p.codes, f);
    Pool(p.codes[f.dst := Patch(p.codes[f.dst], f.slot, |p.codes|)], p.fixups[..|p.fixups| - 1], 0, 0, 0, 0,
         p.asserted)
  }

  // The patched hole leads to the segment, the other holes stay open.
  lemma OpenedHoles(p: Pool)
    requires Holes(p) && p.fixups != []
    ensures var f, q := LastFixup(p), Opened(p);
      && Holes(q) && f.dst < |p.codes| == |q.codes|
      && AddressOf(p.codes[f.dst], f.slot) == Some(INVALID) && AddressOf(q.codes[f.dst], f.slot) == Some(|p.codes|)
      && (forall i | 0 <= i < |p.codes| :: SameUpToHoles(p.codes[i], q.codes[i]))
      && TotalSize(p.fixups) == TotalSize(q.fixups) + SegmentSize(f.segment)
  {
    hide Listed;
    var q := Opened(p);
    assert IsHole(p.codes, LastFixup(p));
    OpenedListed(p);
    forall i | 0 <= i < |q.fixups|
      ensures IsHole(q.codes, q.fixups[i])
    {
      assert IsHole(p.codes, p.fixups[i]);
      assert Apart(p.fixups[i], p.fixups[|p.fixups| - 1]);
    }
    forall i, j | 0 <= i < j < |q.fixups|
      ensures Apart(q.fixups[i], q.fixups[j])
    {
      assert Apart(p.fixups[i], p.fixups[j]);
    }
  }

  // Only the patched hole has left the worklist.
  lemma OpenedListed(p: Pool)
    requires Holes(p) && p.fixups != []
    ensures Listed(Opened(p).codes, Opened(p).fixups)
  {
    var f, q := LastFixup(p), Opened(p);
    assert IsHole(p.codes, f);
    forall i: nat, slot: nat | i < |q.codes| && AddressOf(q.codes[i], slot) == Some(INVALID)
      ensures HasFixup(q.fixups, i, slot)
    {
      assert AddressOf(p.codes[i], slot) == Some(INVALID);
      assert HasFixup(p.fixups, i, slot);
      var k :| 0 <= k < |p.fixups| && p.fixups[k].dst == i && p.fixups[k].slot == slot;
      assert k < |q.fixups| && q.fixups[k] == p.fixups[k];
    }
  }

  // The segment of the last hole.
  function LastFrom(p: Pool): Progress
    requires Holes(p) && p.fixups != []
  {
    var p1 :- SegmentFrom(Opened(p), LastFixup(p).segment);
    Going(p1.Assert(p1.AtZero()))
  }

  lemma LastGrows(p: Pool)
    requires Holes(p) && p.fixups != []
    ensures var r := LastFrom(p);
      r.Going? ==>
        && Grown(Opened(p), r.pool, SegmentSize(LastFixup(p).segment) - 1)
        && Holes(r.pool) && TotalSize(r.pool.fixups) < TotalSize(p.fixups)
  {
    hide Holes, Grown, SegmentFrom, TotalSize, Opened;
    OpenedHoles(p);
    var q, s := Opened(p), LastFixup(p).segment;
    SegmentGrows(q, s);
    var r := SegmentFrom(q, s);
    if r.Going? {
      var p1 := r.pool.Assert(r.pool.AtZero());
      GrownRead(q, r.pool, SegmentSize(s) - 1, p1);
      GrownHoles(q, p1, SegmentSize(s) - 1);
    }
  }

  /** The deferred segments, the last one first; each may defer more. It ends, because the
      expressions still to be compiled become smaller in sum. */
  function FixupsFrom(p: Pool): Progress
    requires Holes(p)
    decreases TotalSize(p.fixups)
  {
    if p.fixups == [] then Going(p) else
    LastGrows(p);
    var p1 :- LastFrom(p);
    FixupsFrom(p1)
  }

  // An expression for its value, which is consumed behind it.
  function ValueStart(p: Pool): Pool {
    p.(values := 0, scopes := 0, ctxs := 0, closures := 0)
  }

  function ValueEnd(p: Pool): Pool {
    Emit(p.(values := p.values - 1).Assert(p.values >= 1), EndCode)
  }

  lemma ValueEndHoles(p: Pool, e: Expr)
    requires Holes(p)
    ensures Holes(ValueStart(p))
    ensures var r := ExprFrom(ValueStart(p), e, false);
      r.Going? ==>
        && Grown(p, ValueEnd(r.pool), Size(e) - 1) && Holes(ValueEnd(r.pool))
        && |ValueEnd(r.pool).codes| == |r.pool.codes| + 1
  {
    hide Holes, Grown, ExprFrom, OpcodeEffects, Size;
    var p0, work := ValueStart(p), Size(e) - 1;
    GrownSame(p, p0);
    ThenGrows(p, p0, e, false);
    var r := ExprFrom(p0, e, false);
    if r.Going? {
      var p1 := r.pool.(values := r.pool.values - 1).Assert(r.pool.values >= 1);
      GrownRead(p, r.pool, work, p1);
      GrownPlain(p, p1, work, EndCode);
      GrownHoles(p, ValueEnd(r.pool), work);
    }
  }

  /** A whole definition: its value and everything deferred. */
  function ValueFrom(p: Pool, e: Expr): Progress
    requires Holes(p)
  {
    ValueEndHoles(p, e);
    var p1 :- ExprFrom(ValueStart(p), e, false);
    FixupsFrom(ValueEnd(p1))
  }
}
