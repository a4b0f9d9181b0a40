/** The state of the compiler and what emitting an expression does to it. */
module Emission {
  import opened Basics
  import opened Lang
  import opened Machine
  import opened Coding
  import opened Refilling

  /** Code emitted so far, holes still to be patched, and the tracked depths of the current
      segment: open values, scopes, write contexts and closures. `asserted` says that none of
      the compiler's own assertions about them has failed. */
  datatype Pool = Pool(codes: seq<Op>, fixups: seq<Fixup>, values: int, scopes: int, ctxs: int, closures: int,
                       asserted: bool)
  {
    predicate NonNegative() {
      values >= 0 && scopes >= 0 && ctxs >= 0 && closures >= 0
    }

    predicate AtZero() {
      values == 0 && scopes == 0 && ctxs == 0 && closures == 0
    }

    function Assert(holds: bool): Pool {
      this.(asserted := asserted && holds)
    }
  }

  /** What an instruction does to the depths. */
  datatype Effects = Effects(values: int, scopes: int, ctxs: int, closures: int)

  function Producing(into: bool, operands: nat): Effects {
    if into then Effects(0 - operands, 0, -1, 0) else Effects(1 - operands, 0, 0, 0)
  }

  function OpcodeEffects(op: Op): Effects {
    match op
    case EndCode => Effects(0, 0, 0, 0)
    case SetWriteCtx => Effects(-1, 0, 1, 0)
    case DuplicateToWriteCtx => Effects(0, 0, 1, 0)
    case ScopeBegin => Effects(0, 1, 0, 0)
    case ScopeEnd => Effects(0, -1, 0, 0)
    case ScopeEndPreserveTop => Effects(0, -1, 0, 0)
    case ScopeAllocTyped(_) => Effects(-1, 0, 1, 0)
    case ScopeAllocUntyped(_) => Effects(-1, 0, 0, 0)
    case PopClosure => Effects(0, 0, 0, -1)
    case LoadScope(into, _, _) => Producing(into, 0)
    case LoadGlobal(into, _) => Producing(into, 0)
    case LoadClosure(into, _) => Producing(into, 0)
    case MakeSignature(muts) => Effects(-|muts|, 0, 0, 0)
    case BindBody(into, _, count) => Producing(into, count + 1)
    case PrepareArgs(_) => Effects(0, 0, 0, 0)
    case ExecArgs => Effects(0, 0, 0, 0)
    case CallOp(into) => Producing(into, 1)
    case Return => Effects(0, 0, 0, 0)
    case If(_) => Effects(-1, 0, 0, 0)
    case IfElseOp(into, _, _) => Producing(into, 1)
    case Loop(_, _) => Effects(-1, 0, 0, 0)
    case UnaryOp(into, _) => Producing(into, 1)
    case BinaryOp(into, _) => Producing(into, 2)
    case ValueInteger(into, _) => Producing(into, 0)
    case ValueVoid(into) => Producing(into, 0)
    case DiscardVoid => Effects(-1, 0, 0, 0)
    case CheckWriteCtxVoid => Effects(0, 0, 0, 0)
  }

  predicate TransfersControl(op: Op) {
    op.EndCode? || op.If? || op.IfElseOp? || op.Loop? || op.ExecArgs? || op.CallOp? || op.Return?
  }

  // `m'` has the depths of `m` changed by `f`.
  predicate Changed(m: M, m': M, f: Effects) {
    && |m'.values| == |m.values| + f.values && |m'.scopes| == |m.scopes| + f.scopes
    && |m'.ctxs| == |m.ctxs| + f.ctxs && |m'.closures| == |m.closures| + f.closures
    && m'.activations == m.activations && m'.calls == m.calls
  }

  lemma PutEffects(pc: nat, m: M, ctx: Maybe<Loc>)
    ensures forall v: W :: PutTemporary(pc, m, ctx, v).Next? ==>
      PutTemporary(pc, m, ctx, v).pc == pc
      && Changed(m, PutTemporary(pc, m, ctx, v).m, Effects(if ctx.Some? then 0 else 1, 0, 0, 0))
    ensures forall l: Loc :: PutLocation(pc, m, ctx, l).Next? ==>
      PutLocation(pc, m, ctx, l).pc == pc
      && Changed(m, PutLocation(pc, m, ctx, l).m, Effects(if ctx.Some? then 0 else 1, 0, 0, 0))
  {
  }

  predicate Produces(op: Op) {
    op.LoadScope? || op.LoadGlobal? || op.LoadClosure? || op.UnaryOp? || op.BinaryOp? || op.ValueInteger?
        || op.ValueVoid? || op.BindBody?
  }

  // Instructions that leave a result.
  lemma ProducingExact(g: seq<Global>, op: Op, pc: nat, m: M, ctx: Maybe<Loc>, next: nat, m': M)
    requires Produces(op) && ctx.Some? == op.ConsumesWriteCtx()
    requires Handle(g, op, pc, m, ctx) == Next(next, m')
    ensures next == pc + 1 && Changed(m, m', OpcodeEffects(op).(ctxs := 0))
  {
    hide ApplyUnary, ApplyBinary, PutTemporary, PutLocation, At, LocOk;
    PutEffects(pc + 1, m, ctx);
    if op.UnaryOp? {
      PutEffects(pc + 1, PopValue(m), ctx);
    } else if op.BinaryOp? {
      PutEffects(pc + 1, DropValues(m, 2), ctx);
    } else if op.BindBody? {
      PutEffects(pc + 1, DropValues(m, op.count + 1), ctx);
    }
  }

  // All other instructions.
  lemma PlainExact(g: seq<Global>, op: Op, pc: nat, m: M, next: nat, m': M)
    requires !TransfersControl(op) && !Produces(op) && Handle(g, op, pc, m, None) == Next(next, m')
    ensures next == pc + 1 && Changed(m, m', OpcodeEffects(op))
  {
    hide At, LocOk, TopValues, PutTemporary;
    if op.MakeSignature? {
      PutEffects(pc + 1, DropValues(m, |op.muts| + 1), None);
    }
  }

  // The effects are what happens at run time.
  lemma EffectsExact(code: seq<Op>, g: seq<Global>, pc: nat, m: M, next: nat, m': M)
    requires pc < |code| && Step(code, g, pc, m) == Next(next, m') && !TransfersControl(code[pc])
    ensures next == pc + 1 && Changed(m, m', OpcodeEffects(code[pc]))
  {
    hide Handle;
    var op := code[pc];
    if op.ConsumesWriteCtx() {
      ProducingExact(g, op, pc, m.(ctxs := Front(m.ctxs)), Some(Top(m.ctxs)), next, m');
    } else if Produces(op) {
      ProducingExact(g, op, pc, m, None, next, m');
    } else {
      PlainExact(g, op, pc, m, next, m');
    }
  }

  // What the branch of a conditional does behind it.
  function BranchLeaves(op: Op): Effects {
    if op.IfElseOp? then Effects(Bit(!op.into), 0, 0 - Bit(op.into), 0) else Effects(0, 0, 0, 0)
  }

  /** For branches and the end of a segment, the effects are what they do at once and, for a
      conditional with a value, what its branch does until it ends. */
  lemma BranchExact(code: seq<Op>, g: seq<Global>, pc: nat, m: M, next: nat, m': M)
    requires pc < |code| && Step(code, g, pc, m) == Next(next, m')
    requires code[pc].If? || code[pc].IfElseOp? || code[pc].Loop? || code[pc].EndCode?
    ensures var f, e := BranchLeaves(code[pc]), OpcodeEffects(code[pc]);
      && |m'.values| + f.values == |m.values| + e.values && |m'.ctxs| + f.ctxs == |m.ctxs| + e.ctxs
      && |m'.scopes| == |m.scopes| + e.scopes && |m'.closures| == |m.closures| + e.closures && m'.calls == m.calls
  {
    hide At, LocOk;
  }

  // ---------- Holes ----------

  function Pending(fixups: seq<Fixup>): set<Fixup> {
    set f | f in fixups
  }

  function TotalSize(fixups: seq<Fixup>): nat {
    if fixups == [] then 0 else TotalSize(fixups[..|fixups| - 1]) + SegmentSize(fixups[|fixups| - 1].segment)
  }

  lemma {:induction false} TotalSizeAppend(a: seq<Fixup>, b: seq<Fixup>)
    ensures TotalSize(a + b) == TotalSize(a) + TotalSize(b)
  {
    if b == [] {
      assert a + b == a;
    } else {
      var k := |b| - 1;
      assert (a + b)[..|a| + k] == a + b[..k];
      TotalSizeAppend(a, b[..k]);
    }
  }

  ghost predicate IsHole(codes: seq<Op>, f: Fixup) {
    f.dst < |codes| && AddressOf(codes[f.dst], f.slot) == Some(INVALID)
  }

  predicate Apart(f: Fixup, g: Fixup) {
    f.dst != g.dst || f.slot != g.slot
  }

  predicate HasFixup(fixups: seq<Fixup>, dst: nat, slot: nat) {
    exists k | 0 <= k < |fixups| :: fixups[k].dst == dst && fixups[k].slot == slot
  }

  // No operand still lacks its address, apart from those in the worklist.
  ghost predicate Listed(codes: seq<Op>, fixups: seq<Fixup>) {
    forall i: nat, slot: nat | i < |codes| && AddressOf(codes[i], slot) == Some(INVALID) :: HasFixup(fixups, i, slot)
  }

  /** Exactly the open holes are in the worklist, each once. */
  ghost predicate Holes(p: Pool) {
    && |p.codes| > 0 && Listed(p.codes, p.fixups)
    && (forall i | 0 <= i < |p.fixups| :: IsHole(p.codes, p.fixups[i]))
    && (forall i, j | 0 <= i < j < |p.fixups| :: Apart(p.fixups[i], p.fixups[j]))
  }

  /** `p1` continues `p0` by `n` instructions; the work deferred meanwhile is at most `work`. */
  ghost predicate Emitted(p0: Pool, p1: Pool, n: int, work: int) {
    && Holes(p0) && Holes(p1)
    && n >= 0 && |p1.codes| == |p0.codes| + n && p1.codes[..|p0.codes|] == p0.codes
    && |p0.fixups| <= |p1.fixups| && p1.fixups[..|p0.fixups|] == p0.fixups
    && (forall i | |p0.fixups| <= i < |p1.fixups| :: p1.fixups[i].dst >= |p0.codes|)
    && TotalSize(p1.fixups) <= TotalSize(p0.fixups) + work
  }

  lemma EmittedNothing(p: Pool)
    requires Holes(p)
    ensures Emitted(p, p, 0, 0)
  {
  }

  lemma EmittedTrans(p0: Pool, p1: Pool, n: nat, a: nat, p2: Pool, k: nat, b: nat)
    requires Emitted(p0, p1, n, a) && Emitted(p1, p2, k, b)
    ensures Emitted(p0, p2, n + k, a + b)
  {
    hide Holes, TotalSize;
    assert p2.codes[..|p0.codes|] == p2.codes[..|p1.codes|][..|p0.codes|];
    assert p2.fixups[..|p0.fixups|] == p2.fixups[..|p1.fixups|][..|p0.fixups|];
    forall i | |p0.fixups| <= i < |p2.fixups|
      ensures p2.fixups[i].dst >= |p0.codes|
    {
      if i < |p1.fixups| { assert p2.fixups[i] == p2.fixups[..|p1.fixups|][i]; }
    }
  }

  // What was coded stays coded.
  lemma EmittedRefills(p0: Pool, p1: Pool, n: nat, work: nat)
    requires Emitted(p0, p1, n, work)
    ensures Refills(p0.codes, Pending(p0.fixups), p1.codes, Pending(p1.fixups))
  {
    hide SegmentCoded, TotalSize;
    forall i | 0 <= i < |p0.codes|
      ensures p1.codes[i] == p0.codes[i] && SameUpToHoles(p0.codes[i], p1.codes[i])
    {
      assert p1.codes[i] == p1.codes[..|p0.codes|][i];
    }
    forall f | f in Pending(p0.fixups)
      ensures Settled(f, p0.codes, p1.codes, Pending(p1.fixups))
    {
      var i :| 0 <= i < |p0.fixups| && p0.fixups[i] == f;
      assert IsHole(p0.codes, f);
      assert p1.fixups[i] == p1.fixups[..|p0.fixups|][i];
    }
  }

  // ---------- One instruction ----------

  /** An instruction is appended and the depths follow the table; the compiler asserts that none
      of them becomes negative. */
  function Emit(p: Pool, op: Op): Pool {
    var f := OpcodeEffects(op);
    var q := Pool(p.codes + [op], p.fixups, p.values + f.values, p.scopes + f.scopes, p.ctxs + f.ctxs,
                  p.closures + f.closures, p.asserted);
    q.Assert(q.NonNegative())
  }

  // An instruction with the holes `more`.
  function EmitWith(p: Pool, op: Op, more: seq<Fixup>): Pool {
    Emit(p, op).(fixups := p.fixups + more)
  }

  ghost predicate HolesOf(p: Pool, op: Op, more: seq<Fixup>) {
    && (forall i | 0 <= i < |more| ::
          more[i].dst == |p.codes| && AddressOf(op, more[i].slot) == Some(INVALID))
    && (forall i, j | 0 <= i < j < |more| :: more[i].slot != more[j].slot)
    && (forall slot: nat | AddressOf(op, slot) == Some(INVALID) :: HasFixup(more, |p.codes|, slot))
  }

  lemma ListedWith(p: Pool, op: Op, more: seq<Fixup>)
    requires Listed(p.codes, p.fixups)
    requires forall slot: nat | AddressOf(op, slot) == Some(INVALID) :: HasFixup(more, |p.codes|, slot)
    ensures Listed(p.codes + [op], p.fixups + more)
  {
    var codes, fixups := p.codes + [op], p.fixups + more;
    forall i: nat, slot: nat | i < |codes| && AddressOf(codes[i], slot) == Some(INVALID)
      ensures HasFixup(fixups, i, slot)
    {
      if i < |p.codes| {
        assert HasFixup(p.fixups, i, slot);
        var k :| 0 <= k < |p.fixups| && p.fixups[k].dst == i && p.fixups[k].slot == slot;
        assert fixups[k] == p.fixups[k];
      } else {
        var k :| 0 <= k < |more| && more[k].dst == i && more[k].slot == slot;
        assert fixups[|p.fixups| + k] == more[k];
      }
    }
  }

  // An instruction without operands that are addresses to be patched.
  predicate Plain(op: Op) {
    !op.If? && !op.IfElseOp? && !op.Loop? && !op.BindBody? && !op.PrepareArgs?
  }

  lemma HolesWith(p: Pool, op: Op, more: seq<Fixup>)
    requires Holes(p) && HolesOf(p, op, more)
    ensures Holes(EmitWith(p, op, more))
  {
    hide Listed, OpcodeEffects;
    var p1 := EmitWith(p, op, more);
    ListedWith(p, op, more);
    forall i | 0 <= i < |p1.fixups|
      ensures IsHole(p1.codes, p1.fixups[i])
    {
      if i < |p.fixups| {
        assert IsHole(p.codes, p.fixups[i]);
      } else {
        assert p1.fixups[i] == more[i - |p.fixups|];
      }
    }
    forall i, j | 0 <= i < j < |p1.fixups|
      ensures Apart(p1.fixups[i], p1.fixups[j])
    {
      if j < |p.fixups| {
        assert Apart(p.fixups[i], p.fixups[j]);
      } else if i < |p.fixups| {
        assert IsHole(p.codes, p.fixups[i]);
      } else {
        assert more[i - |p.fixups|].slot != more[j - |p.fixups|].slot;
      }
    }
  }

  lemma EmittedWith(p: Pool, op: Op, more: seq<Fixup>)
    requires Holes(p) && HolesOf(p, op, more)
    ensures Emitted(p, EmitWith(p, op, more), 1, TotalSize(more))
    ensures OpAt(EmitWith(p, op, more).codes, |p.codes|, op)
  {
    hide Holes, OpcodeEffects, TotalSize;
    HolesWith(p, op, more);
    TotalSizeAppend(p.fixups, more);
    WithLater(p, op, more);
  }

  lemma WithLater(p: Pool, op: Op, more: seq<Fixup>)
    requires HolesOf(p, op, more)
    ensures var p1 := EmitWith(p, op, more);
      forall i | |p.fixups| <= i < |p1.fixups| :: p1.fixups[i].dst == |p.codes|
  {
    hide OpcodeEffects;
    var p1 := EmitWith(p, op, more);
    forall i | |p.fixups| <= i < |p1.fixups|
      ensures p1.fixups[i].dst == |p.codes|
    {
      assert p1.fixups[i] == more[i - |p.fixups|];
    }
  }

  lemma EmittedPlain(p: Pool, op: Op)
    requires Holes(p) && Plain(op)
    ensures Emitted(p, Emit(p, op), 1, 0)
    ensures OpAt(Emit(p, op).codes, |p.codes|, op)
  {
    hide Holes, Emitted, Emit;
    assert p.fixups + [] == p.fixups;
    assert EmitWith(p, op, []) == Emit(p, op) by { assert Emit(p, op).fixups == p.fixups by { EmitFixups(p, op); } }
    EmittedWith(p, op, []);
  }

  lemma EmitFixups(p: Pool, op: Op)
    ensures Emit(p, op).fixups == p.fixups
  {
  }

  // ---------- Which expressions are accepted ----------

  /** A loop in a write context needs a final value and is reported as an error. */
  predicate Accepted(e: Expr, into: bool)
    decreases e
  {
    match e
    case Lit(_) => true
    case Scoped(_, _) => true
    case Closed(_) => true
    case GlobalRef(_) => true
    case Unary(_, e1) => Accepted(e1, false)
    case Binary(_, l, r) => Accepted(l, false) && Accepted(r, false)
    case IfElse(c, t, f) => Accepted(c, false) && Accepted(t, into) && Accepted(f, into)
    case IfOnly(c, t) => Accepted(c, false) && Accepted(t, into)
    case For(c, body, step) =>
      !into && Accepted(c, false) && Accepted(body, false) && (step.Advance? ==> Accepted(step.e, false))
    case Block(items) => ItemsAccepted(items, into)
    case Set(l, r) => Accepted(l, false) && Accepted(r, true)
    case OpSet(_, l, r) => Accepted(l, false) && Accepted(r, false)
    case Func(sig, _, body) => SignatureAccepted(sig) && Accepted(body, true)
    case Call(f, args) => Accepted(f, false) && ArgsAccepted(args)
  }

  predicate ItemsAccepted(items: Items, into: bool)
    decreases items
  {
    match items
    case End => true
    case Let(_, value, rest) => Accepted(value, false) && ItemsAccepted(rest, into)
    case TypedLet(_, ty, value, rest) => Accepted(ty, false) && Accepted(value, true) && ItemsAccepted(rest, into)
    case Do(e, rest) => Accepted(e, rest.End? && into) && ItemsAccepted(rest, into)
  }

  predicate SignatureAccepted(sig: Signature)
    decreases sig
  {
    match sig
    case Returns(ret) => Accepted(ret, false)
    case Param(_, ty, rest) => Accepted(ty, false) && SignatureAccepted(rest)
  }

  predicate ArgsAccepted(args: Args)
    decreases args
  {
    match args
    case NoArgs => true
    case Arg(e, rest) => Accepted(e, true) && ArgsAccepted(rest)
  }

  predicate SegmentAccepted(s: Segment) {
    match s
    case FunctionBody(e, _) => Accepted(e, true)
    case Argument(e) => Accepted(e, true)
    case VoidValue => true
    case IfBranch(e, into, _) => Accepted(e, into)
    case DiscardedIfBranch(e) => Accepted(e, false)
    case LoopBody(e, step) => Accepted(e, false) && (step.Advance? ==> Accepted(step.e, false))
  }

  predicate AllAccepted(fixups: seq<Fixup>) {
    forall i | 0 <= i < |fixups| :: SegmentAccepted(fixups[i].segment)
  }

  // The work deferred since `p0` is acceptable.
  predicate NewAccepted(p0: Pool, p1: Pool) {
    forall i | |p0.fixups| <= i < |p1.fixups| :: SegmentAccepted(p1.fixups[i].segment)
  }

  lemma NewAcceptedTrans(p0: Pool, p1: Pool, n: nat, a: nat, p2: Pool, k: nat, b: nat)
    requires Emitted(p0, p1, n, a) && Emitted(p1, p2, k, b)
    ensures NewAccepted(p0, p2) <==> NewAccepted(p0, p1) && NewAccepted(p1, p2)
  {
    hide Holes, TotalSize, SegmentAccepted;
    assert forall i | 0 <= i < |p1.fixups| :: p2.fixups[i] == p2.fixups[..|p1.fixups|][i];
  }

  // ---------- What emitting does ----------

  /** Everything the compiler promises about the code of an expression. */
  ghost predicate EmittedExpr(p0: Pool, p1: Pool, e: Expr, into: bool) {
    && Emitted(p0, p1, Len(e, into), Size(e) - 1)
    && Coded(p1.codes, Pending(p1.fixups), |p0.codes|, e, into)
    && p1.values == p0.values + Bit(!into && Yields(e)) && p1.ctxs == p0.ctxs - Bit(into)
    && p1.scopes == p0.scopes && p1.closures == p0.closures
    && (Accepted(e, into) <==> NewAccepted(p0, p1))
  }

  ghost predicate EmittedDiscarded(p0: Pool, p1: Pool, e: Expr) {
    && Emitted(p0, p1, DiscardLen(e), Size(e) - 1)
    && DiscardCoded(p1.codes, Pending(p1.fixups), |p0.codes|, e)
    && p1.values == p0.values && p1.ctxs == p0.ctxs && p1.scopes == p0.scopes && p1.closures == p0.closures
    && (Accepted(e, false) <==> NewAccepted(p0, p1))
  }

  ghost predicate EmittedItems(p0: Pool, p1: Pool, items: Items, into: bool) {
    && Emitted(p0, p1, if items.End? then 0 else ItemsLen(items, into), ItemsSize(items))
    && (!items.End? ==> ItemsCoded(p1.codes, Pending(p1.fixups), |p0.codes|, items, into))
    && p1.values == p0.values + Bit(!items.End? && !into) && p1.ctxs == p0.ctxs - Bit(!items.End? && into)
    && p1.scopes == p0.scopes && p1.closures == p0.closures
    && (ItemsAccepted(items, into) <==> NewAccepted(p0, p1))
  }

  ghost predicate EmittedSignature(p0: Pool, p1: Pool, sig: Signature) {
    && Emitted(p0, p1, SignatureLen(sig), SignatureSize(sig) - 1)
    && SignatureCoded(p1.codes, Pending(p1.fixups), |p0.codes|, sig)
    && p1.values == p0.values + |ParamMuts(sig)| + 1 && p1.ctxs == p0.ctxs
    && p1.scopes == p0.scopes && p1.closures == p0.closures
    && (SignatureAccepted(sig) <==> NewAccepted(p0, p1))
  }

  // ---------- From parts to wholes ----------

  lemma Later(p0: Pool, p1: Pool, n: nat, work: nat, pc: nat, e: Expr, into: bool)
    requires Emitted(p0, p1, n, work) && Coded(p0.codes, Pending(p0.fixups), pc, e, into)
    ensures Coded(p1.codes, Pending(p1.fixups), pc, e, into)
  {
    hide Emitted, Coded, Refills;
    EmittedRefills(p0, p1, n, work);
    RefillsCoded(p0.codes, Pending(p0.fixups), p1.codes, Pending(p1.fixups), pc, e, into);
  }

  lemma LaterOp(p0: Pool, p1: Pool, n: nat, work: nat, pc: nat, op: Op)
    requires Emitted(p0, p1, n, work) && OpAt(p0.codes, pc, op)
    ensures OpAt(p1.codes, pc, op)
  {
    hide Holes, TotalSize;
    assert p1.codes[pc] == p1.codes[..|p0.codes|][pc];
  }

  // An expression followed by an instruction without holes.
  lemma ThenPlain(p0: Pool, p1: Pool, e: Expr, into: bool, op: Op)
    requires EmittedExpr(p0, p1, e, into) && Plain(op)
    ensures var p2 := Emit(p1, op);
      && Emitted(p0, p2, Len(e, into) + 1, Size(e) - 1)
      && Coded(p2.codes, Pending(p2.fixups), |p0.codes|, e, into)
      && OpAt(p2.codes, |p0.codes| + Len(e, into), op)
      && (Accepted(e, into) <==> NewAccepted(p0, p2))
  {
    hide Coded, Accepted, Holes, TotalSize, Len, OpAt, SegmentAccepted, Refills;
    EmittedPlain(p1, op);
    var p2 := Emit(p1, op);
    EmittedTrans(p0, p1, Len(e, into), Size(e) - 1, p2, 1, 0);
    NewAcceptedTrans(p0, p1, Len(e, into), Size(e) - 1, p2, 1, 0);
    Later(p1, p2, 1, 0, |p0.codes|, e, into);
  }

  // An expression followed by an instruction with holes.
  lemma ThenHoles(p0: Pool, p1: Pool, e: Expr, op: Op, more: seq<Fixup>)
    requires EmittedExpr(p0, p1, e, false) && HolesOf(p1, op, more)
    ensures var p2 := EmitWith(p1, op, more);
      && Emitted(p0, p2, Len(e, false) + 1, Size(e) - 1 + TotalSize(more))
      && Coded(p2.codes, Pending(p2.fixups), |p0.codes|, e, false)
      && OpAt(p2.codes, |p0.codes| + Len(e, false), op)
      && (Accepted(e, false) && AllAccepted(more) <==> NewAccepted(p0, p2))
  {
    hide Coded, Accepted, TotalSize, Len, OpAt, SegmentAccepted, Refills, Emitted, NewAccepted, AllAccepted, HolesOf;
    HolesAfter(p0, p1, Len(e, false), Size(e) - 1);
    EmittedWith(p1, op, more);
    var p2 := EmitWith(p1, op, more);
    EmittedTrans(p0, p1, Len(e, false), Size(e) - 1, p2, 1, TotalSize(more));
    NewAcceptedTrans(p0, p1, Len(e, false), Size(e) - 1, p2, 1, TotalSize(more));
    NewIsMore(p1, op, more);
    Later(p1, p2, 1, TotalSize(more), |p0.codes|, e, false);
  }

  lemma HolesAfter(p0: Pool, p1: Pool, n: nat, work: nat)
    requires Emitted(p0, p1, n, work)
    ensures Holes(p1) && |p1.codes| == |p0.codes| + n
  {
    hide Holes, TotalSize;
  }

  lemma NewIsMore(p: Pool, op: Op, more: seq<Fixup>)
    ensures NewAccepted(p, EmitWith(p, op, more)) <==> AllAccepted(more)
  {
    hide SegmentAccepted;
    var p2 := EmitWith(p, op, more);
    assert forall i | 0 <= i < |more| :: p2.fixups[|p.fixups| + i] == more[i];
  }

  // Two parts in a row.
  lemma ThenExpr(p0: Pool, p1: Pool, n: nat, work: nat, pc: nat, e: Expr, into: bool, p2: Pool, e2: Expr, into2: bool)
    requires Emitted(p0, p1, n, work) && Coded(p1.codes, Pending(p1.fixups), pc, e, into)
    requires EmittedExpr(p1, p2, e2, into2)
    ensures Emitted(p0, p2, n + Len(e2, into2), work + Size(e2) - 1)
    ensures Coded(p2.codes, Pending(p2.fixups), pc, e, into)
    ensures NewAccepted(p0, p2) <==> NewAccepted(p0, p1) && Accepted(e2, into2)
  {
    hide Coded, Accepted, Holes, TotalSize, Len, SegmentAccepted, Refills, Emitted, NewAccepted;
    EmittedTrans(p0, p1, n, work, p2, Len(e2, into2), Size(e2) - 1);
    NewAcceptedTrans(p0, p1, n, work, p2, Len(e2, into2), Size(e2) - 1);
    Later(p1, p2, Len(e2, into2), Size(e2) - 1, pc, e, into);
  }

  lemma AtomEmitted(p0: Pool, op: Op, e: Expr, into: bool)
    requires Holes(p0) && (e.Lit? || e.Scoped? || e.Closed? || e.GlobalRef?)
    requires op == match e
      case Lit(n) => ValueInteger(into, n)
      case Scoped(out, rank) => LoadScope(into, out, rank)
      case Closed(slot) => LoadClosure(into, slot)
      case GlobalRef(i) => LoadGlobal(into, i)
      case _ => EndCode
    ensures EmittedExpr(p0, Emit(p0, op), e, into)
  {
    hide Emitted, Holes;
    EmittedPlain(p0, op);
  }

  lemma UnaryEmitted(p0: Pool, p1: Pool, e: Expr, into: bool)
    requires e.Unary? && Yields(e.operand) && EmittedExpr(p0, p1, e.operand, false)
    ensures EmittedExpr(p0, Emit(p1, UnaryOp(into, e.uop)), e, into)
  {
    hide Emitted, Holes, NewAccepted, OpAt;
    ThenPlain(p0, p1, e.operand, false, UnaryOp(into, e.uop));
    EmittedFor(p0, Emit(p1, UnaryOp(into, e.uop)), Len(e.operand, false) + 1, Size(e.operand) - 1, Len(e, into),
      Size(e) - 1);
  }

  // More work may be deferred than was.
  lemma EmittedFor(p0: Pool, p1: Pool, n: nat, work: nat, n': nat, work': nat)
    requires Emitted(p0, p1, n, work) && n == n' && work <= work'
    ensures Emitted(p0, p1, n', work')
  {
  }

  lemma BinaryEmitted(p0: Pool, p1: Pool, p2: Pool, e: Expr, into: bool)
    requires e.Binary? && Yields(e.lhs) && Yields(e.rhs)
    requires EmittedExpr(p0, p1, e.lhs, false) && EmittedExpr(p1, p2, e.rhs, false)
    ensures EmittedExpr(p0, Emit(p2, BinaryOp(into, e.bop)), e, into)
  {
    hide Emitted, Holes, NewAccepted, OpAt;
    var op := BinaryOp(into, e.bop);
    var p3 := Emit(p2, op);
    ThenPlain(p1, p2, e.rhs, false, op);
    var n, k := Len(e.lhs, false), Len(e.rhs, false) + 1;
    EmittedTrans(p0, p1, n, Size(e.lhs) - 1, p3, k, Size(e.rhs) - 1);
    NewAcceptedTrans(p0, p1, n, Size(e.lhs) - 1, p3, k, Size(e.rhs) - 1);
    Later(p1, p3, k, Size(e.rhs) - 1, |p0.codes|, e.lhs, false);
    CodesLength(p0, p1, n, Size(e.lhs) - 1);
    EmittedFor(p0, p3, n + k, Size(e.lhs) + Size(e.rhs) - 2, Len(e, into), Size(e) - 1);
    assert BinaryCoded(p3.codes, Pending(p3.fixups), |p0.codes|, e, into);
  }

  lemma CodesLength(p0: Pool, p1: Pool, n: nat, work: nat)
    requires Emitted(p0, p1, n, work)
    ensures |p1.codes| == |p0.codes| + n
  {
  }
}
