/** For every kind of expression: from the emission of its parts to its own. */
module EmissionCases {
  import opened Basics
  import opened Lang
  import opened Machine
  import opened Coding
  import opened Refilling
  import opened Emission

  lemma TotalSizeOne(f: Fixup)
    ensures TotalSize([f]) == SegmentSize(f.segment)
  {
    assert [f][..0] == [];
  }

  lemma TotalSizeTwo(f: Fixup, g: Fixup)
    ensures TotalSize([f, g]) == SegmentSize(f.segment) + SegmentSize(g.segment)
  {
    assert [f, g][..1] == [f];
    TotalSizeOne(f);
  }

  lemma PendingMore(fixups: seq<Fixup>, more: seq<Fixup>, f: Fixup)
    requires f in more
    ensures f in Pending(fixups + more)
  {
  }

  // ---------- Conditionals and loops ----------

  function IfElseFixups(dst: nat, e: Expr, into: bool): seq<Fixup>
    requires e.IfElse?
  {
    [Fixup(dst, 0, IfBranch(e.thn, into, false)), Fixup(dst, 1, IfBranch(e.els, into, false))]
  }

  lemma IfElseHoles(p: Pool, e: Expr, into: bool)
    requires e.IfElse?
    ensures HolesOf(p, IfElseOp(into, INVALID, INVALID), IfElseFixups(|p.codes|, e, into))
  {
    var fs := IfElseFixups(|p.codes|, e, into);
    assert fs[0].slot == 0 && fs[1].slot == 1;
  }

  // The condition of a branching instruction with the holes `more` at `dst`.
  ghost predicate Branching(p0: Pool, p2: Pool, cond: Expr, op: Op, more: seq<Fixup>) {
    && Emitted(p0, p2, Len(cond, false) + 1, Size(cond) - 1 + TotalSize(more))
    && Coded(p2.codes, Pending(p2.fixups), |p0.codes|, cond, false)
    && OpAt(p2.codes, |p0.codes| + Len(cond, false), op)
    && (forall f | f in more :: f in Pending(p2.fixups))
    && (Accepted(cond, false) && AllAccepted(more) <==> NewAccepted(p0, p2))
  }

  lemma Branches(p0: Pool, p1: Pool, cond: Expr, op: Op, more: seq<Fixup>)
    requires EmittedExpr(p0, p1, cond, false) && HolesOf(p1, op, more)
    ensures Branching(p0, EmitWith(p1, op, more), cond, op, more)
    ensures |p1.codes| == |p0.codes| + Len(cond, false)
  {
    hide Emitted, Holes, NewAccepted, TotalSize, Coded, Len, Accepted, HolesOf, OpAt;
    ThenHoles(p0, p1, cond, op, more);
    CodesLength(p0, p1, Len(cond, false), Size(cond) - 1);
    forall f | f in more
      ensures f in Pending(p1.fixups + more)
    {
      PendingMore(p1.fixups, more, f);
    }
  }

  lemma IfElseIsCoded(code: seq<Op>, pending: set<Fixup>, pc: nat, e: Expr, into: bool)
    requires e.IfElse? && Coded(code, pending, pc, e.cond, false)
    requires OpAt(code, pc + Len(e.cond, false), IfElseOp(into, INVALID, INVALID))
    requires forall f | f in IfElseFixups(pc + Len(e.cond, false), e, into) :: f in pending
    ensures Coded(code, pending, pc, e, into)
  {
    hide Len, SegmentCoded;
    var fs := IfElseFixups(pc + Len(e.cond, false), e, into);
    assert fs[0] in pending && fs[1] in pending;
    assert IfElseCoded(code, pending, pc, e, into);
  }

  lemma IfElseFacts(e: Expr, into: bool, dst: nat)
    requires e.IfElse?
    ensures Len(e, into) == Len(e.cond, false) + 1
    ensures var fs := IfElseFixups(dst, e, into);
      && Size(e.cond) - 1 + TotalSize(fs) <= Size(e) - 1
      && (Accepted(e, into) <==> Accepted(e.cond, false) && AllAccepted(fs))
  {
    var fs := IfElseFixups(dst, e, into);
    hide TotalSize;
    TotalSizeTwo(fs[0], fs[1]);
  }

  lemma IfElseEmitted(p0: Pool, p1: Pool, e: Expr, into: bool)
    requires e.IfElse? && Yields(e.cond) && EmittedExpr(p0, p1, e.cond, false)
    ensures EmittedExpr(p0, EmitWith(p1, IfElseOp(into, INVALID, INVALID), IfElseFixups(|p1.codes|, e, into)), e, into)
  {
    hide HolesOf, Emitted, Holes, NewAccepted, TotalSize, Coded, Len, Accepted, Size;
    var op, more := IfElseOp(into, INVALID, INVALID), IfElseFixups(|p1.codes|, e, into);
    var p2 := EmitWith(p1, op, more);
    IfElseFacts(e, into, |p1.codes|);
    IfElseHoles(p1, e, into);
    Branches(p0, p1, e.cond, op, more);
    IfElseIsCoded(p2.codes, Pending(p2.fixups), |p0.codes|, e, into);
    EmittedFor(p0, p2, Len(e.cond, false) + 1, Size(e.cond) - 1 + TotalSize(more), Len(e, into), Size(e) - 1);
  }

  function IfFixups(dst: nat, e: Expr, into: bool): seq<Fixup>
    requires e.IfOnly?
  {
    if into then [Fixup(dst, 0, IfBranch(e.thn, true, true)), Fixup(dst, 1, VoidValue)]
    else [Fixup(dst, 0, DiscardedIfBranch(e.thn))]
  }

  function IfOp(into: bool): Op {
    if into then IfElseOp(true, INVALID, INVALID) else If(INVALID)
  }

  lemma IfHoles(p: Pool, e: Expr, into: bool)
    requires e.IfOnly?
    ensures HolesOf(p, IfOp(into), IfFixups(|p.codes|, e, into))
  {
    var fs := IfFixups(|p.codes|, e, into);
    assert fs[0].slot == 0 && (into ==> fs[1].slot == 1);
  }

  lemma IfIsCoded(code: seq<Op>, pending: set<Fixup>, pc: nat, e: Expr, into: bool)
    requires e.IfOnly? && Coded(code, pending, pc, e.cond, false)
    requires OpAt(code, pc + Len(e.cond, false), IfOp(into))
    requires forall f | f in IfFixups(pc + Len(e.cond, false), e, into) :: f in pending
    ensures Coded(code, pending, pc, e, into)
  {
    hide Len, SegmentCoded;
    var fs := IfFixups(pc + Len(e.cond, false), e, into);
    assert fs[0] in pending && (into ==> fs[1] in pending);
    assert IfOnlyCoded(code, pending, pc, e, into);
  }

  lemma IfFacts(e: Expr, into: bool, dst: nat)
    requires e.IfOnly?
    ensures Len(e, into) == Len(e.cond, false) + 1
    ensures var fs := IfFixups(dst, e, into);
      && Size(e.cond) - 1 + TotalSize(fs) <= Size(e) - 1
      && (Accepted(e, into) <==> Accepted(e.cond, false) && AllAccepted(fs))
  {
    var fs := IfFixups(dst, e, into);
    hide TotalSize;
    if into { TotalSizeTwo(fs[0], fs[1]); } else { TotalSizeOne(fs[0]); }
  }

  lemma IfEmitted(p0: Pool, p1: Pool, e: Expr, into: bool)
    requires e.IfOnly? && Yields(e.cond) && EmittedExpr(p0, p1, e.cond, false)
    ensures EmittedExpr(p0, EmitWith(p1, IfOp(into), IfFixups(|p1.codes|, e, into)), e, into)
  {
    hide HolesOf, Emitted, Holes, NewAccepted, TotalSize, Coded, Len, Accepted, Size;
    var op, more := IfOp(into), IfFixups(|p1.codes|, e, into);
    var p2 := EmitWith(p1, op, more);
    IfFacts(e, into, |p1.codes|);
    IfHoles(p1, e, into);
    Branches(p0, p1, e.cond, op, more);
    IfIsCoded(p2.codes, Pending(p2.fixups), |p0.codes|, e, into);
    EmittedFor(p0, p2, Len(e.cond, false) + 1, Size(e.cond) - 1 + TotalSize(more), Len(e, into), Size(e) - 1);
  }

  function LoopFixups(dst: nat, e: Expr): seq<Fixup>
    requires e.For?
  {
    [Fixup(dst, 1, LoopBody(e.body, e.step))]
  }

  lemma LoopHoles(p: Pool, e: Expr, condition: nat)
    requires e.For?
    ensures HolesOf(p, Loop(condition, INVALID), LoopFixups(|p.codes|, e))
  {
    assert LoopFixups(|p.codes|, e)[0].slot == 1;
  }

  lemma ForIsCoded(code: seq<Op>, pending: set<Fixup>, pc: nat, e: Expr)
    requires e.For? && Coded(code, pending, pc, e.cond, false)
    requires OpAt(code, pc + Len(e.cond, false), Loop(pc, INVALID))
    requires forall f | f in LoopFixups(pc + Len(e.cond, false), e) :: f in pending
    ensures Coded(code, pending, pc, e, false)
  {
    hide Len, SegmentCoded;
    assert LoopFixups(pc + Len(e.cond, false), e)[0] in pending;
    assert ForCoded(code, pending, pc, e);
  }

  lemma ForFacts(e: Expr, dst: nat)
    requires e.For?
    ensures Len(e, false) == Len(e.cond, false) + 1
    ensures var fs := LoopFixups(dst, e);
      && Size(e.cond) - 1 + TotalSize(fs) <= Size(e) - 1
      && (Accepted(e, false) <==> Accepted(e.cond, false) && AllAccepted(fs))
  {
    hide TotalSize;
    TotalSizeOne(LoopFixups(dst, e)[0]);
  }

  lemma ForEmitted(p0: Pool, p1: Pool, e: Expr)
    requires e.For? && Yields(e.cond) && EmittedExpr(p0, p1, e.cond, false)
    ensures EmittedExpr(p0, EmitWith(p1, Loop(|p0.codes|, INVALID), LoopFixups(|p1.codes|, e)), e, false)
  {
    hide HolesOf, Emitted, Holes, NewAccepted, TotalSize, Coded, Len, Accepted, Size;
    var op, more := Loop(|p0.codes|, INVALID), LoopFixups(|p1.codes|, e);
    var p2 := EmitWith(p1, op, more);
    ForFacts(e, |p1.codes|);
    LoopHoles(p1, e, |p0.codes|);
    Branches(p0, p1, e.cond, op, more);
    ForIsCoded(p2.codes, Pending(p2.fixups), |p0.codes|, e);
    EmittedFor(p0, p2, Len(e.cond, false) + 1, Size(e.cond) - 1 + TotalSize(more), Len(e, false), Size(e) - 1);
  }

  // ---------- Assignments ----------

  lemma SetIsCoded(code: seq<Op>, pending: set<Fixup>, pc: nat, e: Expr, into: bool)
    requires e.Set? && SetCoded(code, pending, pc, e, into)
    ensures Coded(code, pending, pc, e, into)
  {
    hide SetCoded, Len;
  }

  lemma OpSetIsCoded(code: seq<Op>, pending: set<Fixup>, pc: nat, e: Expr, into: bool)
    requires e.OpSet? && OpSetCoded(code, pending, pc, e, into)
    ensures Coded(code, pending, pc, e, into)
  {
    hide OpSetCoded, Len;
  }

  lemma CallIsCoded(code: seq<Op>, pending: set<Fixup>, pc: nat, e: Expr, into: bool)
    requires e.Call? && CallCoded(code, pending, pc, e, into)
    ensures Coded(code, pending, pc, e, into)
  {
    hide CallCoded, Len;
  }

  lemma FuncIsCoded(code: seq<Op>, pending: set<Fixup>, pc: nat, e: Expr, into: bool)
    requires e.Func? && FuncCoded(code, pending, pc, e, into)
    ensures Coded(code, pending, pc, e, into)
  {
    hide FuncCoded, Len;
  }

  lemma AssignFacts(e: Expr, into: bool)
    requires e.Set? || e.OpSet?
    ensures e.Set? ==>
      && Len(e, into) == Len(e.target, false) + 1 + Len(e.value, true) + Bit(into)
      && Size(e) == 1 + Size(e.target) + Size(e.value)
      && (Accepted(e, into) <==> Accepted(e.target, false) && Accepted(e.value, true))
    ensures e.OpSet? ==>
      && Len(e, into) == Len(e.target, false) + 1 + Len(e.value, false) + 1 + Bit(into)
      && Size(e) == 1 + Size(e.target) + Size(e.value)
      && (Accepted(e, into) <==> Accepted(e.target, false) && Accepted(e.value, false))
  {
  }

  lemma SetEmitted(p0: Pool, p1: Pool, p3: Pool, e: Expr, into: bool)
    requires e.Set? && Yields(e.target) && EmittedExpr(p0, p1, e.target, false)
    requires EmittedExpr(Emit(p1, SetWriteCtx), p3, e.value, true)
    ensures EmittedExpr(p0, if into then Emit(p3, ValueVoid(true)) else p3, e, into)
  {
    hide Emitted, Holes, NewAccepted, TotalSize, OpAt, Coded, Len, Size, Accepted;
    AssignFacts(e, into);
    var p2 := Emit(p1, SetWriteCtx);
    var pc, n := |p0.codes|, Len(e.target, false) + 1;
    ThenPlain(p0, p1, e.target, false, SetWriteCtx);
    CodesLength(p0, p2, n, Size(e.target) - 1);
    ThenExpr(p0, p2, n, Size(e.target) - 1, pc, e.target, false, p3, e.value, true);
    LaterOp(p2, p3, Len(e.value, true), Size(e.value) - 1, pc + n - 1, SetWriteCtx);
    var k, work := n + Len(e.value, true), Size(e.target) + Size(e.value) - 2;
    var p4 := if into then Emit(p3, ValueVoid(true)) else p3;
    if into {
      Finally(p0, p3, k, work, ValueVoid(true));
      Later(p3, p4, 1, 0, pc, e.target, false);
      Later(p3, p4, 1, 0, pc + n, e.value, true);
      LaterOp(p3, p4, 1, 0, pc + n - 1, SetWriteCtx);
      CodesLength(p0, p3, k, work);
    }
    EmittedFor(p0, p4, k + Bit(into), work, Len(e, into), Size(e) - 1);
    SetIsCoded(p4.codes, Pending(p4.fixups), pc, e, into);
  }

  // A last instruction without holes.
  lemma Finally(p0: Pool, p1: Pool, n: nat, work: nat, op: Op)
    requires Emitted(p0, p1, n, work) && Plain(op)
    ensures Emitted(p0, Emit(p1, op), n + 1, work) && Emitted(p1, Emit(p1, op), 1, 0)
    ensures OpAt(Emit(p1, op).codes, |p1.codes|, op)
    ensures NewAccepted(p0, Emit(p1, op)) <==> NewAccepted(p0, p1)
  {
    hide TotalSize, OpAt, SegmentAccepted;
    EmittedPlain(p1, op);
    EmittedTrans(p0, p1, n, work, Emit(p1, op), 1, 0);
    NewAcceptedTrans(p0, p1, n, work, Emit(p1, op), 1, 0);
  }

  lemma OpSetEmitted(p0: Pool, p1: Pool, p3: Pool, e: Expr, into: bool)
    requires e.OpSet? && Yields(e.target) && Yields(e.value) && EmittedExpr(p0, p1, e.target, false)
    requires EmittedExpr(Emit(p1, DuplicateToWriteCtx), p3, e.value, false)
    ensures var p4 := Emit(p3, BinaryOp(true, e.bop));
      EmittedExpr(p0, if into then Emit(p4, ValueVoid(true)) else p4, e, into)
  {
    hide Emitted, Holes, NewAccepted, TotalSize, OpAt, Coded, Len, Size, Accepted;
    var p2 := Emit(p1, DuplicateToWriteCtx);
    var pc, n := |p0.codes|, Len(e.target, false) + 1;
    ThenPlain(p0, p1, e.target, false, DuplicateToWriteCtx);
    CodesLength(p0, p2, n, Size(e.target) - 1);
    ThenExpr(p0, p2, n, Size(e.target) - 1, pc, e.target, false, p3, e.value, false);
    LaterOp(p2, p3, Len(e.value, false), Size(e.value) - 1, pc + n - 1, DuplicateToWriteCtx);
    var k, work := n + Len(e.value, false), Size(e.target) + Size(e.value) - 2;
    CodesLength(p0, p3, k, work);
    OpSetFinished(p0, p3, e, into, k, work);
  }

  lemma OpSetFinished(p0: Pool, p3: Pool, e: Expr, into: bool, k: nat, work: nat)
    requires e.OpSet? && k == Len(e.target, false) + 1 + Len(e.value, false)
    requires work == Size(e.target) + Size(e.value) - 2
    requires Emitted(p0, p3, k, work)
    requires NewAccepted(p0, p3) <==> Accepted(e.target, false) && Accepted(e.value, false)
    requires Coded(p3.codes, Pending(p3.fixups), |p0.codes|, e.target, false)
    requires OpAt(p3.codes, |p0.codes| + Len(e.target, false), DuplicateToWriteCtx)
    requires Coded(p3.codes, Pending(p3.fixups), |p0.codes| + Len(e.target, false) + 1, e.value, false)
    requires p3.values == p0.values + 2 && p3.ctxs == p0.ctxs + 1 && p3.scopes == p0.scopes
    requires p3.closures == p0.closures
    ensures var p4 := Emit(p3, BinaryOp(true, e.bop));
      EmittedExpr(p0, if into then Emit(p4, ValueVoid(true)) else p4, e, into)
  {
    hide Emitted, Holes, NewAccepted, TotalSize, OpAt, Coded, Len, Size, Accepted;
    AssignFacts(e, into);
    var pc, mid := |p0.codes|, |p0.codes| + Len(e.target, false) + 1;
    CodesLength(p0, p3, k, work);
    var p4 := Emit(p3, BinaryOp(true, e.bop));
    Finally(p0, p3, k, work, BinaryOp(true, e.bop));
    Later(p3, p4, 1, 0, pc, e.target, false);
    Later(p3, p4, 1, 0, mid, e.value, false);
    LaterOp(p3, p4, 1, 0, mid - 1, DuplicateToWriteCtx);
    CodesLength(p0, p4, k + 1, work);
    var p5 := if into then Emit(p4, ValueVoid(true)) else p4;
    if into {
      Finally(p0, p4, k + 1, work, ValueVoid(true));
      Later(p4, p5, 1, 0, pc, e.target, false);
      Later(p4, p5, 1, 0, mid, e.value, false);
      LaterOp(p4, p5, 1, 0, mid - 1, DuplicateToWriteCtx);
      LaterOp(p4, p5, 1, 0, pc + k, BinaryOp(true, e.bop));
    }
    EmittedFor(p0, p5, k + 1 + Bit(into), work, Len(e, into), Size(e) - 1);
    OpSetIsCoded(p5.codes, Pending(p5.fixups), pc, e, into);
  }

  // ---------- Values that are thrown away ----------

  lemma DiscardEmitted(p0: Pool, p1: Pool, e: Expr)
    requires EmittedExpr(p0, p1, e, false)
    ensures EmittedDiscarded(p0, if Yields(e) then Emit(p1, DiscardVoid) else p1, e)
  {
    hide Emitted, Holes, NewAccepted, TotalSize, OpAt, Coded, Len, Accepted;
    if Yields(e) {
      ThenPlain(p0, p1, e, false, DiscardVoid);
    }
  }

  lemma LaterDiscarded(p0: Pool, p1: Pool, n: nat, work: nat, pc: nat, e: Expr)
    requires Emitted(p0, p1, n, work) && DiscardCoded(p0.codes, Pending(p0.fixups), pc, e)
    ensures DiscardCoded(p1.codes, Pending(p1.fixups), pc, e)
  {
    hide Emitted, Refills, DiscardCoded;
    EmittedRefills(p0, p1, n, work);
    RefillsDiscard(p0.codes, Pending(p0.fixups), p1.codes, Pending(p1.fixups), pc, e);
  }

  lemma LaterItems(p0: Pool, p1: Pool, n: nat, work: nat, pc: nat, items: Items, into: bool)
    requires Emitted(p0, p1, n, work) && ItemsCoded(p0.codes, Pending(p0.fixups), pc, items, into)
    ensures ItemsCoded(p1.codes, Pending(p1.fixups), pc, items, into)
  {
    hide Emitted, Refills, ItemsCoded;
    EmittedRefills(p0, p1, n, work);
    RefillsItems(p0.codes, Pending(p0.fixups), p1.codes, Pending(p1.fixups), pc, items, into);
  }

  // ---------- Statements and blocks ----------

  // Something, then the rest of the block.
  lemma ThenItems(p0: Pool, p1: Pool, n: nat, work: nat, p2: Pool, rest: Items, into: bool)
    requires Emitted(p0, p1, n, work) && EmittedItems(p1, p2, rest, into) && !rest.End?
    ensures Emitted(p0, p2, n + ItemsLen(rest, into), work + ItemsSize(rest))
    ensures Emitted(p1, p2, ItemsLen(rest, into), ItemsSize(rest))
    ensures NewAccepted(p0, p2) <==> NewAccepted(p0, p1) && ItemsAccepted(rest, into)
    ensures |p1.codes| == |p0.codes| + n
  {
    hide Holes, TotalSize, ItemsCoded, ItemsLen, ItemsSize, ItemsAccepted, NewAccepted;
    EmittedTrans(p0, p1, n, work, p2, ItemsLen(rest, into), ItemsSize(rest));
    NewAcceptedTrans(p0, p1, n, work, p2, ItemsLen(rest, into), ItemsSize(rest));
  }

  lemma LetEmitted(p0: Pool, p1: Pool, p3: Pool, items: Items, into: bool)
    requires items.Let? && Yields(items.value) && !items.rest.End?
    requires EmittedExpr(p0, p1, items.value, false)
    requires EmittedItems(Emit(p1, ScopeAllocUntyped(items.isMut)), p3, items.rest, into)
    ensures EmittedItems(p0, p3, items, into)
  {
    hide Emitted, Holes, NewAccepted, TotalSize, OpAt, Coded, Len, Accepted;
    var op, n := ScopeAllocUntyped(items.isMut), Len(items.value, false) + 1;
    var p2 := Emit(p1, op);
    ThenPlain(p0, p1, items.value, false, op);
    ThenItems(p0, p2, n, Size(items.value) - 1, p3, items.rest, into);
    var k, work := ItemsLen(items.rest, into), ItemsSize(items.rest);
    Later(p2, p3, k, work, |p0.codes|, items.value, false);
    LaterOp(p2, p3, k, work, |p0.codes| + n - 1, op);
    EmittedFor(p0, p3, n + k, Size(items.value) - 1 + work, ItemsLen(items, into), ItemsSize(items));
  }

  lemma TypedLetEmitted(p0: Pool, p1: Pool, p3: Pool, p4: Pool, items: Items, into: bool)
    requires items.TypedLet? && Yields(items.ty) && !items.rest.End?
    requires EmittedExpr(p0, p1, items.ty, false)
    requires EmittedExpr(Emit(p1, ScopeAllocTyped(items.isMut)), p3, items.value, true)
    requires EmittedItems(p3, p4, items.rest, into)
    ensures EmittedItems(p0, p4, items, into)
  {
    hide Emitted, Holes, NewAccepted, TotalSize, OpAt, Coded, Len, Accepted;
    var op, n := ScopeAllocTyped(items.isMut), Len(items.ty, false) + 1;
    var p2 := Emit(p1, op);
    var pc := |p0.codes|;
    ThenPlain(p0, p1, items.ty, false, op);
    CodesLength(p0, p2, n, Size(items.ty) - 1);
    ThenExpr(p0, p2, n, Size(items.ty) - 1, pc, items.ty, false, p3, items.value, true);
    LaterOp(p2, p3, Len(items.value, true), Size(items.value) - 1, pc + n - 1, op);
    var n', work' := n + Len(items.value, true), Size(items.ty) + Size(items.value) - 2;
    ThenItems(p0, p3, n', work', p4, items.rest, into);
    var k, work := ItemsLen(items.rest, into), ItemsSize(items.rest);
    Later(p3, p4, k, work, pc, items.ty, false);
    Later(p3, p4, k, work, pc + n, items.value, true);
    LaterOp(p3, p4, k, work, pc + n - 1, op);
    EmittedFor(p0, p4, n' + k, work' + work, ItemsLen(items, into), ItemsSize(items));
  }

  lemma LastEmitted(p0: Pool, p1: Pool, items: Items, into: bool)
    requires items.Do? && items.rest.End? && EmittedExpr(p0, p1, items.e, into)
    ensures EmittedItems(p0, if !into && !Yields(items.e) then Emit(p1, ValueVoid(false)) else p1, items, into)
  {
    hide Emitted, Holes, NewAccepted, TotalSize, OpAt, Coded, Len, Accepted;
    var e := items.e;
    var p2 := if !into && !Yields(e) then Emit(p1, ValueVoid(false)) else p1;
    if !into && !Yields(e) {
      ThenPlain(p0, p1, e, into, ValueVoid(false));
    }
    EmittedFor(p0, p2, Len(e, into) + Bit(!into && !Yields(e)), Size(e) - 1, ItemsLen(items, into), ItemsSize(items));
    assert ItemsCoded(p2.codes, Pending(p2.fixups), |p0.codes|, items, into);
    assert ItemsAccepted(items, into) <==> NewAccepted(p0, p2);
    assert p2.values == p0.values + Bit(!items.End? && !into);
    assert p2.ctxs == p0.ctxs - Bit(!items.End? && into);
  }

  lemma DoEmitted(p0: Pool, p1: Pool, p2: Pool, items: Items, into: bool)
    requires items.Do? && !items.rest.End? && EmittedDiscarded(p0, p1, items.e)
    requires EmittedItems(p1, p2, items.rest, into)
    ensures EmittedItems(p0, p2, items, into)
  {
    hide Emitted, Holes, NewAccepted, TotalSize, OpAt, DiscardCoded, Len, Accepted;
    ThenItems(p0, p1, DiscardLen(items.e), Size(items.e) - 1, p2, items.rest, into);
    var k, work := ItemsLen(items.rest, into), ItemsSize(items.rest);
    LaterDiscarded(p1, p2, k, work, |p0.codes|, items.e);
    EmittedFor(p0, p2, DiscardLen(items.e) + k, Size(items.e) - 1 + work, ItemsLen(items, into), ItemsSize(items));
  }

  function BlockEnd(into: bool): Op {
    if into then ScopeEnd else ScopeEndPreserveTop
  }

  lemma BlockEmitted(p0: Pool, p2: Pool, e: Expr, into: bool)
    requires e.Block? && Holes(p0) && EmittedItems(Emit(p0, ScopeBegin), p2, e.items, into)
    ensures var p3 := if e.items.End? then Emit(p2, ValueVoid(into)) else p2;
      EmittedExpr(p0, Emit(p3, BlockEnd(into)), e, into)
  {
    hide Emitted, Holes, NewAccepted, TotalSize, OpAt, ItemsLen, ItemsSize, ItemsAccepted;
    var p1 := Emit(p0, ScopeBegin);
    var items := e.items;
    EmittedPlain(p0, ScopeBegin);
    var p3 := if items.End? then Emit(p2, ValueVoid(into)) else p2;
    var n, work := ItemsLen(items, into), ItemsSize(items);
    if items.End? {
      EmptyItems(p1, p2, items, into);
      Finally(p1, p2, 0, 0, ValueVoid(into));
      EmittedFor(p1, p3, 1, 0, n, work);
      CodesLength(p1, p2, 0, 0);
    }
    assert ItemsCoded(p3.codes, Pending(p3.fixups), |p1.codes|, items, into);
    assert Emitted(p1, p3, n, work) && (ItemsAccepted(items, into) <==> NewAccepted(p1, p3));
    BlockFinished(p0, p1, p3, e, into);
  }

  lemma EmptyItems(p0: Pool, p1: Pool, items: Items, into: bool)
    requires items.End? && EmittedItems(p0, p1, items, into)
    ensures Emitted(p0, p1, 0, 0) && ItemsLen(items, into) == 1
    ensures ItemsAccepted(items, into) <==> NewAccepted(p0, p1)
  {
    hide Emitted, NewAccepted;
  }

  lemma BlockFinished(p0: Pool, p1: Pool, p3: Pool, e: Expr, into: bool)
    requires e.Block? && Emitted(p0, p1, 1, 0) && OpAt(p1.codes, |p0.codes|, ScopeBegin) && p1 == Emit(p0, ScopeBegin)
    requires Emitted(p1, p3, ItemsLen(e.items, into), ItemsSize(e.items))
    requires ItemsCoded(p3.codes, Pending(p3.fixups), |p1.codes|, e.items, into)
    requires ItemsAccepted(e.items, into) <==> NewAccepted(p1, p3)
    requires p3.values == p1.values + Bit(!into) && p3.ctxs == p1.ctxs - Bit(into) && p3.scopes == p1.scopes
    requires p3.closures == p1.closures
    ensures EmittedExpr(p0, Emit(p3, BlockEnd(into)), e, into)
  {
    hide Emitted, Holes, NewAccepted, TotalSize, OpAt, ItemsLen, ItemsSize, ItemsAccepted, ItemsCoded;
    var n, work := ItemsLen(e.items, into), ItemsSize(e.items);
    EmittedTrans(p0, p1, 1, 0, p3, n, work);
    NewAcceptedTrans(p0, p1, 1, 0, p3, n, work);
    NothingNew(p0, ScopeBegin);
    LaterOp(p1, p3, n, work, |p0.codes|, ScopeBegin);
    var p4 := Emit(p3, BlockEnd(into));
    Finally(p0, p3, 1 + n, work, BlockEnd(into));
    LaterOp(p3, p4, 1, 0, |p0.codes|, ScopeBegin);
    LaterItems(p3, p4, 1, 0, |p1.codes|, e.items, into);
    CodesLength(p0, p3, 1 + n, work);
    CodesLength(p0, p1, 1, 0);
  }

  lemma NothingNew(p: Pool, op: Op)
    ensures NewAccepted(p, Emit(p, op))
  {
  }

  // ---------- Functions ----------

  lemma LaterSignature(p0: Pool, p1: Pool, n: nat, work: nat, pc: nat, sig: Signature)
    requires Emitted(p0, p1, n, work) && SignatureCoded(p0.codes, Pending(p0.fixups), pc, sig)
    ensures SignatureCoded(p1.codes, Pending(p1.fixups), pc, sig)
  {
    hide Emitted, Refills, SignatureCoded;
    EmittedRefills(p0, p1, n, work);
    RefillsSignature(p0.codes, Pending(p0.fixups), p1.codes, Pending(p1.fixups), pc, sig);
  }

  lemma ReturnsEmitted(p0: Pool, p1: Pool, sig: Signature)
    requires sig.Returns? && Yields(sig.ret) && EmittedExpr(p0, p1, sig.ret, false)
    ensures EmittedSignature(p0, p1, sig)
  {
    hide Emitted, NewAccepted, Coded, Len, Accepted;
  }

  lemma ParamEmitted(p0: Pool, p1: Pool, p2: Pool, sig: Signature)
    requires sig.Param? && Yields(sig.ty) && EmittedExpr(p0, p1, sig.ty, false) && EmittedSignature(p1, p2, sig.rest)
    ensures EmittedSignature(p0, p2, sig)
  {
    hide Emitted, NewAccepted, Coded, Len, Accepted;
    var n, work := SignatureLen(sig.rest), SignatureSize(sig.rest) - 1;
    EmittedTrans(p0, p1, Len(sig.ty, false), Size(sig.ty) - 1, p2, n, work);
    NewAcceptedTrans(p0, p1, Len(sig.ty, false), Size(sig.ty) - 1, p2, n, work);
    Later(p1, p2, n, work, |p0.codes|, sig.ty, false);
    CodesLength(p0, p1, Len(sig.ty, false), Size(sig.ty) - 1);
    EmittedFor(p0, p2, Len(sig.ty, false) + n, Size(sig.ty) - 1 + work, SignatureLen(sig), SignatureSize(sig) - 1);
  }

  // After the signature and `k` of the captured values.
  ghost predicate EmittedCaptures(p0: Pool, p1: Pool, sig: Signature, captures: seq<Capture>, k: nat)
    requires k <= |captures|
  {
    var at := |p0.codes| + SignatureLen(sig);
    && Emitted(p0, p1, SignatureLen(sig) + 1 + k, SignatureSize(sig) - 1)
    && SignatureCoded(p1.codes, Pending(p1.fixups), |p0.codes|, sig)
    && OpAt(p1.codes, at, MakeSignature(ParamMuts(sig)))
    && CapturesCoded(p1.codes, at + 1, captures[..k])
    && p1.values == p0.values + 1 + k && p1.ctxs == p0.ctxs && p1.scopes == p0.scopes && p1.closures == p0.closures
    && (SignatureAccepted(sig) <==> NewAccepted(p0, p1))
  }

  lemma SignatureMade(p0: Pool, p1: Pool, sig: Signature, captures: seq<Capture>)
    requires EmittedSignature(p0, p1, sig)
    ensures EmittedCaptures(p0, Emit(p1, MakeSignature(ParamMuts(sig))), sig, captures, 0)
  {
    hide Emitted, NewAccepted, SignatureCoded, SignatureLen, SignatureSize, OpAt, SignatureAccepted;
    var op := MakeSignature(ParamMuts(sig));
    Finally(p0, p1, SignatureLen(sig), SignatureSize(sig) - 1, op);
    LaterSignature(p1, Emit(p1, op), 1, 0, |p0.codes|, sig);
    CodesLength(p0, p1, SignatureLen(sig), SignatureSize(sig) - 1);
  }

  lemma CaptureEmitted(p0: Pool, p1: Pool, sig: Signature, captures: seq<Capture>, k: nat)
    requires k < |captures| && EmittedCaptures(p0, p1, sig, captures, k)
    ensures EmittedCaptures(p0, Emit(p1, CaptureOp(captures[k])), sig, captures, k + 1)
  {
    hide Emitted, NewAccepted, SignatureCoded, SignatureLen, SignatureSize, OpAt, SignatureAccepted;
    var op := CaptureOp(captures[k]);
    var p2 := Emit(p1, op);
    var n, work := SignatureLen(sig) + 1 + k, SignatureSize(sig) - 1;
    Finally(p0, p1, n, work, op);
    LaterSignature(p1, p2, 1, 0, |p0.codes|, sig);
    CodesLength(p0, p1, n, work);
    var at := |p0.codes| + SignatureLen(sig);
    LaterOp(p1, p2, 1, 0, at, MakeSignature(ParamMuts(sig)));
    var before, now := captures[..k], captures[..k + 1];
    forall i | 0 <= i < |now|
      ensures OpAt(p2.codes, at + 1 + i, CaptureOp(now[i]))
    {
      if i < k {
        assert before[i] == now[i];
        LaterOp(p1, p2, 1, 0, at + 1 + i, CaptureOp(now[i]));
      }
    }
  }

  function BodyFixups(dst: nat, e: Expr): seq<Fixup>
    requires e.Func?
  {
    [Fixup(dst, 0, FunctionBody(e.body, |e.captures| != 0))]
  }

  lemma BodyHoles(p: Pool, e: Expr, into: bool)
    requires e.Func?
    ensures HolesOf(p, BindBody(into, INVALID, |e.captures|), BodyFixups(|p.codes|, e))
  {
    assert BodyFixups(|p.codes|, e)[0].slot == 0;
  }

  lemma FuncEmitted(p0: Pool, p1: Pool, e: Expr, into: bool)
    requires e.Func? && EmittedCaptures(p0, p1, e.signature, e.captures, |e.captures|)
    ensures EmittedExpr(p0, EmitWith(p1, BindBody(into, INVALID, |e.captures|), BodyFixups(|p1.codes|, e)), e, into)
  {
    hide HolesOf, Emitted, Holes, NewAccepted, TotalSize, SignatureCoded, SignatureLen, SignatureSize,
         SignatureAccepted, Coded, Len, Size, Accepted;
    FuncFacts(e, into);
    var op, more := BindBody(into, INVALID, |e.captures|), BodyFixups(|p1.codes|, e);
    var p2 := EmitWith(p1, op, more);
    var n, work := SignatureLen(e.signature) + 1 + |e.captures|, SignatureSize(e.signature) - 1;
    EmittedOrHoles(p0, p1, n, work);
    BodyHoles(p1, e, into);
    EmittedWith(p1, op, more);
    TotalSizeOne(more[0]);
    EmittedTrans(p0, p1, n, work, p2, 1, TotalSize(more));
    NewAcceptedWith(p0, p1, n, work, op, more);
    LaterSignature(p1, p2, 1, TotalSize(more), |p0.codes|, e.signature);
    CodesLength(p0, p1, n, work);
    var at := |p0.codes| + SignatureLen(e.signature);
    LaterOp(p1, p2, 1, TotalSize(more), at, MakeSignature(ParamMuts(e.signature)));
    assert e.captures[..|e.captures|] == e.captures;
    forall i | 0 <= i < |e.captures|
      ensures OpAt(p2.codes, at + 1 + i, CaptureOp(e.captures[i]))
    {
      assert OpAt(p1.codes, at + 1 + i, CaptureOp(e.captures[i]));
      LaterOp(p1, p2, 1, TotalSize(more), at + 1 + i, CaptureOp(e.captures[i]));
    }
    PendingMore(p1.fixups, more, more[0]);
    EmittedFor(p0, p2, n + 1, work + TotalSize(more), Len(e, into), Size(e) - 1);
    FuncIsCoded(p2.codes, Pending(p2.fixups), |p0.codes|, e, into);
  }

  lemma FuncFacts(e: Expr, into: bool)
    requires e.Func?
    ensures Len(e, into) == SignatureLen(e.signature) + 1 + |e.captures| + 1
    ensures Size(e) == 1 + SignatureSize(e.signature) + Size(e.body)
    ensures Accepted(e, into) <==> SignatureAccepted(e.signature) && Accepted(e.body, true)
  {
  }

  lemma EmittedOrHoles(p0: Pool, p1: Pool, n: nat, work: nat)
    requires Emitted(p0, p1, n, work)
    ensures Holes(p0) && Holes(p1)
  {
  }

  lemma NewAcceptedWith(p0: Pool, p1: Pool, n: nat, work: nat, op: Op, more: seq<Fixup>)
    requires Emitted(p0, p1, n, work) && HolesOf(p1, op, more)
    ensures NewAccepted(p0, EmitWith(p1, op, more)) <==> NewAccepted(p0, p1) && AllAccepted(more)
  {
    hide TotalSize, SegmentAccepted, IsHole;
    var p2 := EmitWith(p1, op, more);
    assert p2.fixups[..|p1.fixups|] == p1.fixups;
    assert forall i | 0 <= i < |more| :: p2.fixups[|p1.fixups| + i] == more[i];
  }

  // ---------- Calls ----------

  // The holes for the arguments, from operand `slot` on.
  function ArgFixups(dst: nat, slot: nat, args: Args): (fs: seq<Fixup>)
    ensures |fs| == ArgCount(args)
    decreases args
  {
    match args
    case NoArgs => []
    case Arg(e, rest) => [Fixup(dst, slot, Argument(e))] + ArgFixups(dst, slot + 1, rest)
  }

  lemma {:induction false} ArgFixupsAre(dst: nat, slot: nat, args: Args)
    ensures var fs := ArgFixups(dst, slot, args);
      && (forall i | 0 <= i < |fs| :: fs[i].dst == dst && fs[i].slot == slot + i)
      && TotalSize(fs) <= ArgsSize(args)
      && (AllAccepted(fs) <==> ArgsAccepted(args))
    decreases args
  {
    match args
    case NoArgs =>
    case Arg(e, rest) =>
      ArgFixupsAre(dst, slot + 1, rest);
      var f, fs := Fixup(dst, slot, Argument(e)), ArgFixups(dst, slot + 1, rest);
      TotalSizeAppend([f], fs);
      TotalSizeOne(f);
      assert AllAccepted([f] + fs) <==> SegmentAccepted(f.segment) && AllAccepted(fs) by {
        assert ([f] + fs)[0] == f;
        assert forall i | 0 <= i < |fs| :: ([f] + fs)[i + 1] == fs[i];
      }
  }

  lemma {:induction false} ArgsPending(code: seq<Op>, pending: set<Fixup>, dst: nat, slot: nat, addresses: seq<nat>,
                                       args: Args)
    requires |addresses| == slot + ArgCount(args) && forall i | 0 <= i < |addresses| :: addresses[i] == INVALID
    requires forall f | f in ArgFixups(dst, slot, args) :: f in pending
    ensures ArgsCoded(code, pending, dst, slot, addresses, args)
    decreases args
  {
    match args
    case NoArgs =>
    case Arg(e, rest) =>
      assert Fixup(dst, slot, Argument(e)) in ArgFixups(dst, slot, args);
      assert Filled(code, pending, dst, slot, addresses[slot], Argument(e));
      assert forall f | f in ArgFixups(dst, slot + 1, rest) :: f in ArgFixups(dst, slot, args);
      ArgsPending(code, pending, dst, slot + 1, addresses, rest);
  }

  function NoAddresses(n: nat): (s: seq<nat>)
    ensures |s| == n && forall i | 0 <= i < n :: s[i] == INVALID
  {
    seq(n, _ => INVALID)
  }

  lemma ArgHoles(p: Pool, args: Args)
    ensures HolesOf(p, PrepareArgs(NoAddresses(ArgCount(args))), ArgFixups(|p.codes|, 0, args))
  {
    hide ArgFixups;
    var fs := ArgFixups(|p.codes|, 0, args);
    ArgFixupsAre(|p.codes|, 0, args);
    forall slot: nat | AddressOf(PrepareArgs(NoAddresses(ArgCount(args))), slot) == Some(INVALID)
      ensures HasFixup(fs, |p.codes|, slot)
    {
      assert fs[slot].slot == slot;
    }
  }

  lemma CallEmitted(p0: Pool, p1: Pool, e: Expr, into: bool)
    requires e.Call? && Yields(e.callee) && EmittedExpr(p0, p1, e.callee, false)
    ensures var p2 := EmitWith(p1, PrepareArgs(NoAddresses(ArgCount(e.args))), ArgFixups(|p1.codes|, 0, e.args));
      EmittedExpr(p0, Emit(Emit(p2, ExecArgs), CallOp(into)), e, into)
  {
    hide HolesOf, Emitted, Holes, NewAccepted, TotalSize, Coded, Len, Accepted, OpAt, Size;
    CallFacts(e, into);
    var op, more := PrepareArgs(NoAddresses(ArgCount(e.args))), ArgFixups(|p1.codes|, 0, e.args);
    var p2 := EmitWith(p1, op, more);
    ArgFixupsAre(|p1.codes|, 0, e.args);
    ArgHoles(p1, e.args);
    ThenHoles(p0, p1, e.callee, op, more);
    CodesLength(p0, p1, Len(e.callee, false), Size(e.callee) - 1);
    assert forall f | f in more :: f in Pending(p2.fixups) by {
      forall f | f in more ensures f in Pending(p2.fixups) { PendingMore(p1.fixups, more, f); }
    }
    ArgsPending(p2.codes, Pending(p2.fixups), |p1.codes|, 0, op.arguments, e.args);
    CallFinished(p0, p2, e, into, op, Size(e.callee) - 1 + TotalSize(more));
  }

  lemma LaterArgs(p0: Pool, p1: Pool, n: nat, work: nat, dst: nat, slot: nat, arguments: seq<nat>, args: Args)
    requires Emitted(p0, p1, n, work) && OpAt(p0.codes, dst, PrepareArgs(arguments))
    requires |arguments| == slot + ArgCount(args)
    requires ArgsCoded(p0.codes, Pending(p0.fixups), dst, slot, arguments, args)
    ensures ArgsCoded(p1.codes, Pending(p1.fixups), dst, slot, arguments, args)
  {
    hide Refills, ArgsCoded, Holes, TotalSize;
    EmittedRefills(p0, p1, n, work);
    LaterOp(p0, p1, n, work, dst, PrepareArgs(arguments));
    RefillsArgs(p0.codes, Pending(p0.fixups), p1.codes, Pending(p1.fixups), dst, slot, args);
  }

  lemma CallFacts(e: Expr, into: bool)
    requires e.Call?
    ensures Len(e, into) == Len(e.callee, false) + 3 && Size(e) == 1 + Size(e.callee) + ArgsSize(e.args)
    ensures Accepted(e, into) <==> Accepted(e.callee, false) && ArgsAccepted(e.args)
  {
  }

  lemma CallFinished(p0: Pool, p2: Pool, e: Expr, into: bool, op: Op, work: nat)
    requires e.Call? && op.PrepareArgs? && |op.arguments| == ArgCount(e.args) && work <= Size(e) - 1
    requires Emitted(p0, p2, Len(e.callee, false) + 1, work)
    requires Coded(p2.codes, Pending(p2.fixups), |p0.codes|, e.callee, false)
    requires OpAt(p2.codes, |p0.codes| + Len(e.callee, false), op)
    requires ArgsCoded(p2.codes, Pending(p2.fixups), |p0.codes| + Len(e.callee, false), 0, op.arguments, e.args)
    requires NewAccepted(p0, p2) <==> Accepted(e, into)
    requires p2.values == p0.values + 1 && p2.ctxs == p0.ctxs && p2.scopes == p0.scopes && p2.closures == p0.closures
    ensures EmittedExpr(p0, Emit(Emit(p2, ExecArgs), CallOp(into)), e, into)
  {
    hide Emitted, Holes, NewAccepted, TotalSize, ArgsCoded, Accepted, Coded, Len, Size;
    var at, n := |p0.codes| + Len(e.callee, false), Len(e.callee, false) + 1;
    var p3 := Emit(p2, ExecArgs);
    Finally(p0, p2, n, work, ExecArgs);
    Later(p2, p3, 1, 0, |p0.codes|, e.callee, false);
    LaterOp(p2, p3, 1, 0, at, op);
    LaterArgs(p2, p3, 1, 0, at, 0, op.arguments, e.args);
    CodesLength(p0, p2, n, work);
    var p4 := Emit(p3, CallOp(into));
    Finally(p0, p3, n + 1, work, CallOp(into));
    Later(p3, p4, 1, 0, |p0.codes|, e.callee, false);
    LaterOp(p3, p4, 1, 0, at, op);
    LaterOp(p3, p4, 1, 0, at + 1, ExecArgs);
    LaterArgs(p3, p4, 1, 0, at, 0, op.arguments, e.args);
    CodesLength(p0, p3, n + 1, work);
    CallFacts(e, into);
    EmittedFor(p0, p4, n + 2, work, Len(e, into), Size(e) - 1);
    CallIsCoded(p4.codes, Pending(p4.fixups), |p0.codes|, e, into);
  }
}
