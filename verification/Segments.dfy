/** The segments emitted out of line, and the worklist they are taken from. */
module Segments {
  import opened Basics
  import opened Lang
  import opened Machine
  import opened Coding
  import opened Refilling
  import opened Emission
  import opened EmissionCases
  import opened Emitter
  import opened Accounting

  ghost predicate EndsSegment(codes: seq<Op>) {
    |codes| > 0 && (codes[|codes| - 1].EndCode? || codes[|codes| - 1].Return?)
  }

  /** The code of a segment, ending with `EndCode` or `Return`. */
  ghost predicate EmittedSegment(p0: Pool, p1: Pool, s: Segment) {
    && |p0.codes| < |p1.codes| && Emitted(p0, p1, |p1.codes| - |p0.codes|, SegmentSize(s) - 1)
    && SegmentCoded(p1.codes, Pending(p1.fixups), |p0.codes|, s)
    && EndsSegment(p1.codes) && (SegmentAccepted(s) <==> NewAccepted(p0, p1))
  }

  ghost predicate SegmentRight(p: Pool, r: Progress, s: Segment) {
    match r
    case Going(q) => EmittedSegment(p, q, s) && Clean(q) && q.AtZero()
    case Stopped(why) => why.NeedsFinally? && !SegmentAccepted(s)
  }

  // Depths do not matter for what has been emitted.
  lemma OtherDepths(p0: Pool, p1: Pool, n: nat, work: nat, q0: Pool, q1: Pool)
    requires Emitted(p0, p1, n, work)
    requires q0.codes == p0.codes && q0.fixups == p0.fixups && q1.codes == p1.codes && q1.fixups == p1.fixups
    ensures Emitted(q0, q1, n, work) && (NewAccepted(q0, q1) <==> NewAccepted(p0, p1))
  {
  }

  lemma CleanFrom(p: Pool, q: Pool)
    requires Clean(p) && q.codes == p.codes && q.fixups == p.fixups && q.asserted && q.NonNegative()
    ensures Clean(q)
  {
    hide SegmentSound;
  }

  // What has been emitted stands from any depths.
  lemma Reread(p: Pool, p0: Pool, q: Pool, e: Expr, into: bool)
    requires EmittedExpr(p0, q, e, into) && p0.codes == p.codes && p0.fixups == p.fixups
    ensures Emitted(p, q, Len(e, into), Size(e) - 1) && Coded(q.codes, Pending(q.fixups), |p.codes|, e, into)
    ensures Accepted(e, into) <==> NewAccepted(p, q)
  {
    hide Coded, Len, Accepted, Size, Holes, TotalSize;
    OtherDepths(p0, q, Len(e, into), Size(e) - 1, p, q);
  }

  // An expression of a segment, with `n` instructions of the segment before it, and the end.
  lemma Ended(p: Pool, p1: Pool, n: nat, q: Pool, e: Expr, into: bool, op: Op)
    requires Plain(op)
    requires Emitted(p, p1, n, 0) && NewAccepted(p, p1)
    requires Emitted(p1, q, Len(e, into), Size(e) - 1)
    requires Coded(q.codes, Pending(q.fixups), |p1.codes|, e, into) && (Accepted(e, into) <==> NewAccepted(p1, q))
    ensures var r := Emit(q, op);
      && Emitted(p, r, n + Len(e, into) + 1, Size(e) - 1) && (Accepted(e, into) <==> NewAccepted(p, r))
      && Coded(r.codes, Pending(r.fixups), |p.codes| + n, e, into)
      && OpAt(r.codes, |p.codes| + n + Len(e, into), op) && Emitted(q, r, 1, 0)
      && |r.codes| == |p.codes| + n + Len(e, into) + 1 && r.codes[|r.codes| - 1] == op
  {
    hide Emitted, Coded, Len, Accepted, Size, NewAccepted, OpAt;
    var k, work := Len(e, into), Size(e) - 1;
    EmittedTrans(p, p1, n, 0, q, k, work);
    NewAcceptedTrans(p, p1, n, 0, q, k, work);
    CodesLength(p, p1, n, 0);
    CodesLength(p, q, n + k, work);
    Finally(p, q, n + k, work, op);
    Later(q, Emit(q, op), 1, 0, |p1.codes|, e, into);
    LastOp(q, op);
  }

  lemma LastOp(q: Pool, op: Op)
    ensures |Emit(q, op).codes| == |q.codes| + 1 && Emit(q, op).codes[|q.codes|] == op
  {
  }

  lemma Nothing(p: Pool)
    requires Holes(p)
    ensures Emitted(p, p, 0, 0) && NewAccepted(p, p)
  {
    EmittedNothing(p);
  }

  // ---------- Function bodies and arguments ----------

  lemma ArgumentSpec(p: Pool, e: Expr)
    requires Clean(p) && p.AtZero() && SegmentSound(Argument(e))
    ensures SegmentRight(p, SegmentFrom(p, Argument(e)), Argument(e))
  {
    hide Clean, EmittedExpr, Emitted, Coded, Len, Accepted, Size, Sound, ExprFrom, NewAccepted;
    CleanHoles(p);
    var p0 := p.(ctxs := 1);
    CleanFrom(p, p0);
    ExprSpec(p0, e, true);
    var r := ExprFrom(p0, e, true);
    if r.Going? {
      ExprDepths(p0, r.pool, e, true);
      CleanEmit(r.pool, EndCode);
      Reread(p, p0, r.pool, e, true);
      Nothing(p);
      Ended(p, p, 0, r.pool, e, true, EndCode);
    }
  }

  lemma BodySpec(p: Pool, e: Expr, hasClosure: bool)
    requires Clean(p) && p.AtZero() && SegmentSound(FunctionBody(e, hasClosure))
    ensures SegmentRight(p, SegmentFrom(p, FunctionBody(e, hasClosure)), FunctionBody(e, hasClosure))
  {
    hide Clean, EmittedExpr, Emitted, Coded, Len, Accepted, Size, Sound, ExprFrom, NewAccepted, Emit, EmittedSegment;
    CleanHoles(p);
    var p0 := p.(ctxs := 1, closures := Bit(hasClosure));
    CleanFrom(p, p0);
    ExprSpec(p0, e, true);
    var r := ExprFrom(p0, e, true);
    if r.Going? {
      ExprDepths(p0, r.pool, e, true);
      Reread(p, p0, r.pool, e, true);
      BodyEnd(p, r.pool, e, hasClosure);
    }
  }

  lemma BodyEnd(p: Pool, q: Pool, e: Expr, hasClosure: bool)
    requires Clean(p) && Clean(q) && Emitted(p, q, Len(e, true), Size(e) - 1)
    requires Coded(q.codes, Pending(q.fixups), |p.codes|, e, true) && (Accepted(e, true) <==> NewAccepted(p, q))
    requires q.values == 0 && q.scopes == 0 && q.ctxs == 0 && q.closures == Bit(hasClosure)
    ensures var r := Emit(if hasClosure then Emit(q, PopClosure) else q, Return);
      EmittedSegment(p, r, FunctionBody(e, hasClosure)) && Clean(r) && r.AtZero()
  {
    hide Clean, Emitted, Coded, Len, Accepted, Size, NewAccepted;
    CleanHoles(p);
    CleanHoles(q);
    Nothing(p);
    var n, work := Len(e, true), Size(e) - 1;
    if hasClosure {
      Ended(p, p, 0, q, e, true, PopClosure);
      var q1 := Emit(q, PopClosure);
      CleanEmit(q, PopClosure);
      CleanEmit(q1, Return);
      Finally(p, q1, n + 1, work, Return);
      Later(q1, Emit(q1, Return), 1, 0, |p.codes|, e, true);
      LaterOp(q1, Emit(q1, Return), 1, 0, |p.codes| + n, PopClosure);
    } else {
      Ended(p, p, 0, q, e, true, Return);
      CleanEmit(q, Return);
    }
  }

  lemma VoidSpec(p: Pool)
    requires Clean(p) && p.AtZero()
    ensures SegmentRight(p, SegmentFrom(p, VoidValue), VoidValue)
  {
    hide Clean, Emitted, NewAccepted;
    CleanHoles(p);
    var p0 := p.(ctxs := 1);
    CleanFrom(p, p0);
    Nothing(p);
    OtherDepths(p, p, 0, 0, p, p0);
    var p1 := Emit(p0, ValueVoid(true));
    CleanEmit(p0, ValueVoid(true));
    CleanEmit(p1, EndCode);
    Finally(p, p0, 0, 0, ValueVoid(true));
    Finally(p, p1, 1, 0, EndCode);
    LaterOp(p1, Emit(p1, EndCode), 1, 0, |p.codes|, ValueVoid(true));
  }

  // ---------- Branches ----------

  ghost predicate BranchRight(p: Pool, r: Progress, e: Expr, into: bool, expectVoid: bool) {
    match r
    case Going(q) => EmittedBranch(p, q, e, into, expectVoid)
    case Stopped(why) => why.NeedsFinally? && !Accepted(e, into)
  }

  ghost predicate EmittedBranch(p: Pool, q: Pool, e: Expr, into: bool, expectVoid: bool) {
    && EmittedSegment(p, q, IfBranch(e, into, expectVoid)) && Holes(q) && SoundWork(q.fixups)
    && q.values == Bit(into || Yields(e)) - 1 && q.scopes == 0 && q.ctxs == 0 && q.closures == 0
    && (q.asserted <==> into || Yields(e))
  }

  // A branch whose own accounting is right, with or without a value.
  predicate BranchEntered(s: Segment) {
    s.IfBranch? && Sound(s.e, s.into, 0, Bit(s.into)) && (s.expectVoid ==> s.into)
  }

  /** The code of a branch of a conditional is right whether or not it leaves a value; the depths
      are, and the assertion behind it holds, exactly when there is a write context or the
      branch leaves a value. */
  lemma BranchSpec(p: Pool, e: Expr, into: bool, expectVoid: bool)
    requires Clean(p) && p.AtZero() && Sound(e, into, 0, Bit(into)) && (expectVoid ==> into)
    ensures BranchRight(p, SegmentFrom(p, IfBranch(e, into, expectVoid)), e, into, expectVoid)
  {
    hide Clean, EmittedExpr, Emitted, Coded, Len, Accepted, Size, Sound, ExprFrom, NewAccepted, Emit, EmittedBranch,
         Holes;
    CleanHoles(p);
    var p0 := p.(ctxs := Bit(into));
    CleanFrom(p, p0);
    var p1 := if expectVoid then Emit(p0, CheckWriteCtxVoid) else p0;
    Checked(p, p0, expectVoid);
    ExprSpec(p1, e, into);
    var r := ExprFrom(p1, e, into);
    if r.Going? {
      ExprDepths(p1, r.pool, e, into);
      Reread(p1, p1, r.pool, e, into);
      BranchEnd(p, p1, r.pool, e, into, expectVoid);
    }
  }

  lemma Checked(p: Pool, p0: Pool, expectVoid: bool)
    requires Holes(p) && Clean(p0) && p0.codes == p.codes && p0.fixups == p.fixups
    ensures var p1 := if expectVoid then Emit(p0, CheckWriteCtxVoid) else p0;
      && Emitted(p, p1, Bit(expectVoid), 0) && NewAccepted(p, p1) && Clean(p1)
      && (expectVoid ==> OpAt(p1.codes, |p.codes|, CheckWriteCtxVoid))
      && p1.values == p0.values && p1.ctxs == p0.ctxs && p1.scopes == p0.scopes && p1.closures == p0.closures
  {
    hide Clean, Emitted, NewAccepted;
    CleanHoles(p0);
    Nothing(p);
    OtherDepths(p, p, 0, 0, p, p0);
    if expectVoid {
      CleanEmit(p0, CheckWriteCtxVoid);
      Finally(p, p0, 0, 0, CheckWriteCtxVoid);
    }
  }

  lemma BranchEnd(p: Pool, p1: Pool, q: Pool, e: Expr, into: bool, expectVoid: bool)
    requires Emitted(p, p1, Bit(expectVoid), 0) && NewAccepted(p, p1) && Clean(q)
    requires expectVoid ==> OpAt(p1.codes, |p.codes|, CheckWriteCtxVoid)
    requires Emitted(p1, q, Len(e, into), Size(e) - 1) && (Accepted(e, into) <==> NewAccepted(p1, q))
    requires Coded(q.codes, Pending(q.fixups), |p1.codes|, e, into)
    requires q.values == Bit(!into && Yields(e)) && q.scopes == 0 && q.ctxs == 0 && q.closures == 0
    ensures EmittedBranch(p, BranchTail(q, into), e, into, expectVoid)
  {
    hide Clean, Emitted, Coded, Len, Accepted, Size, NewAccepted, SoundWork, Holes;
    var n := Bit(expectVoid);
    var q1, r := Emit(q, EndCode), BranchTail(q, into);
    Ended(p, p1, n, q, e, into, EndCode);
    CleanEmit(q, EndCode) by { CleanHoles(q); }
    CleanHoles(q1);
    CodesLength(p, p1, n, 0);
    if expectVoid {
      LaterOp(p1, q, Len(e, into), Size(e) - 1, |p.codes|, CheckWriteCtxVoid);
      LaterOp(q, q1, 1, 0, |p.codes|, CheckWriteCtxVoid);
    }
    OtherDepths(p, q1, n + Len(e, into) + 1, Size(e) - 1, p, r);
    HolesAfter(p, r, n + Len(e, into) + 1, Size(e) - 1);
  }

  // ---------- Values that are thrown away ----------

  ghost predicate DiscardRight(p: Pool, r: Progress, e: Expr) {
    match r
    case Going(q) => EmittedDiscarded(p, DiscardTail(q), e) && Clean(DiscardTail(q))
    case Stopped(why) => why.NeedsFinally? && !Accepted(e, false)
  }

  // At depth zero, the test finds out whether there is a value.
  lemma DiscardSpec(p: Pool, e: Expr)
    requires Clean(p) && p.AtZero() && Sound(e, false, 0, 0)
    ensures DiscardRight(p, ExprFrom(p, e, false), e)
  {
    hide Clean, EmittedExpr, Sound, ExprFrom, Accepted, EmittedDiscarded;
    CleanHoles(p);
    ExprSpec(p, e, false);
    var r := ExprFrom(p, e, false);
    if r.Going? {
      ExprDepths(p, r.pool, e, false);
      DiscardEmitted(p, r.pool, e);
      if Yields(e) { CleanEmit(r.pool, DiscardVoid); }
    }
  }

  lemma DiscardParts(p: Pool, q: Pool, e: Expr)
    requires EmittedDiscarded(p, q, e)
    ensures Emitted(p, q, DiscardLen(e), Size(e) - 1) && DiscardCoded(q.codes, Pending(q.fixups), |p.codes|, e)
    ensures Accepted(e, false) <==> NewAccepted(p, q)
    ensures q.values == p.values && q.ctxs == p.ctxs && q.scopes == p.scopes && q.closures == p.closures
  {
    hide Emitted, DiscardCoded, DiscardLen, Size, Yields, Accepted, NewAccepted;
  }

  lemma DiscardedBranchSpec(p: Pool, e: Expr)
    requires Clean(p) && p.AtZero() && SegmentSound(DiscardedIfBranch(e))
    ensures SegmentRight(p, SegmentFrom(p, DiscardedIfBranch(e)), DiscardedIfBranch(e))
  {
    hide Clean, Emitted, DiscardCoded, DiscardLen, Accepted, Size, Sound, ExprFrom, NewAccepted, EmittedDiscarded,
         DiscardTail;
    DiscardSpec(p, e);
    var r := ExprFrom(p, e, false);
    if r.Going? {
      var q := DiscardTail(r.pool);
      DiscardParts(p, q, e);
      CleanHoles(q);
      CleanEmit(q, EndCode);
      var n, work := DiscardLen(e), Size(e) - 1;
      Finally(p, q, n, work, EndCode);
      LaterDiscarded(q, Emit(q, EndCode), 1, 0, |p.codes|, e);
      CodesLength(p, q, n, work);
    }
  }

  ghost predicate StepRight(p0: Pool, r: Progress, e: Expr, step: LoopStep) {
    match r
    case Going(q) => StepEmitted(p0, q, e, step) && Clean(q) && q.AtZero()
    case Stopped(why) => why.NeedsFinally? && step.Advance? && !Accepted(step.e, false)
  }

  lemma StepSpec(p0: Pool, p: Pool, e: Expr, step: LoopStep)
    requires Clean(p) && p.AtZero() && (step.Advance? ==> Sound(step.e, false, 0, 0)) && EmittedDiscarded(p0, p, e)
    ensures StepRight(p0, StepFrom(p, step), e, step)
  {
    hide Clean, Emitted, DiscardCoded, DiscardLen, Accepted, Size, Sound, ExprFrom, NewAccepted, EmittedDiscarded,
         DiscardTail;
    DiscardParts(p0, p, e);
    CodesLength(p0, p, DiscardLen(e), Size(e) - 1);
    if step.Advance? {
      DiscardSpec(p, step.e);
      var r := ExprFrom(p, step.e, false);
      if r.Going? {
        var q := DiscardTail(r.pool);
        DiscardParts(p, q, step.e);
        CleanHoles(q);
        assert q.Assert(q.AtZero()) == q;
        EmittedTrans(p0, p, DiscardLen(e), Size(e) - 1, q, DiscardLen(step.e), Size(step.e) - 1);
        NewAcceptedTrans(p0, p, DiscardLen(e), Size(e) - 1, q, DiscardLen(step.e), Size(step.e) - 1);
        LaterDiscarded(p, q, DiscardLen(step.e), Size(step.e) - 1, |p0.codes|, e);
        EmittedFor(p0, q, DiscardLen(e) + DiscardLen(step.e), Size(e) + Size(step.e) - 2,
          DiscardLen(e) + StepLen(step), Size(e) + StepSize(step) - 1);
      }
    }
  }

  function StepLen(step: LoopStep): nat {
    if step.Advance? then DiscardLen(step.e) else 0
  }

  // The body of a loop and what advances it.
  ghost predicate StepEmitted(p0: Pool, q: Pool, e: Expr, step: LoopStep) {
    && Emitted(p0, q, DiscardLen(e) + StepLen(step), Size(e) + StepSize(step) - 1)
    && DiscardCoded(q.codes, Pending(q.fixups), |p0.codes|, e)
    && (step.Advance? ==> DiscardCoded(q.codes, Pending(q.fixups), |p0.codes| + DiscardLen(e), step.e))
    && (Accepted(e, false) && (step.Advance? ==> Accepted(step.e, false)) <==> NewAccepted(p0, q))
  }

  lemma LoopBodySpec(p: Pool, e: Expr, step: LoopStep)
    requires Clean(p) && p.AtZero() && SegmentSound(LoopBody(e, step))
    ensures SegmentRight(p, SegmentFrom(p, LoopBody(e, step)), LoopBody(e, step))
  {
    hide Clean, Emitted, DiscardCoded, DiscardLen, Accepted, Size, Sound, ExprFrom, NewAccepted, EmittedDiscarded,
         DiscardTail, StepFrom, StepEmitted, EmittedSegment;
    DiscardSpec(p, e);
    var r := ExprFrom(p, e, false);
    if r.Going? {
      var p1 := DiscardTail(r.pool);
      DiscardParts(p, p1, e);
      StepSpec(p, p1, e, step);
      var r2 := StepFrom(p1, step);
      if r2.Going? { LoopEnd(p, r2.pool, e, step); }
    }
  }

  lemma LoopEnd(p: Pool, q: Pool, e: Expr, step: LoopStep)
    requires StepEmitted(p, q, e, step) && Clean(q) && q.AtZero()
    ensures var r := Emit(q, EndCode);
      EmittedSegment(p, r, LoopBody(e, step)) && Clean(r) && r.AtZero()
  {
    hide Clean, Emitted, DiscardCoded, DiscardLen, Accepted, Size, NewAccepted;
    CleanHoles(q);
    CleanEmit(q, EndCode);
    var n, work := DiscardLen(e) + StepLen(step), Size(e) + StepSize(step) - 1;
    Finally(p, q, n, work, EndCode);
    CodesLength(p, q, n, work);
    LaterDiscarded(q, Emit(q, EndCode), 1, 0, |p.codes|, e);
    if step.Advance? { LaterDiscarded(q, Emit(q, EndCode), 1, 0, |p.codes| + DiscardLen(e), step.e); }
  }

  lemma IfBranchSpec(p: Pool, e: Expr, into: bool, expectVoid: bool)
    requires Clean(p) && p.AtZero() && SegmentSound(IfBranch(e, into, expectVoid))
    ensures SegmentRight(p, SegmentFrom(p, IfBranch(e, into, expectVoid)), IfBranch(e, into, expectVoid))
  {
    hide Clean, SegmentFrom, EmittedSegment, Sound, Accepted;
    BranchSpec(p, e, into, expectVoid);
    var r := SegmentFrom(p, IfBranch(e, into, expectVoid));
    if r.Going? { CleanAgain(r.pool); }
  }

  /** Completing a sound segment emits its code and ends at depth zero. */
  lemma SegmentSpec(p: Pool, s: Segment)
    requires Clean(p) && p.AtZero() && SegmentSound(s)
    ensures SegmentRight(p, SegmentFrom(p, s), s)
  {
    hide Clean, SegmentFrom, SegmentAccepted, EmittedSegment;
    match s
    case FunctionBody(e, hasClosure) => BodySpec(p, e, hasClosure);
    case Argument(e) => ArgumentSpec(p, e);
    case VoidValue => VoidSpec(p);
    case IfBranch(e, into, expectVoid) => IfBranchSpec(p, e, into, expectVoid);
    case DiscardedIfBranch(e) => DiscardedBranchSpec(p, e);
    case LoopBody(e, step) => LoopBodySpec(p, e, step);
  }

  lemma CleanAgain(p: Pool)
    requires Holes(p) && SoundWork(p.fixups) && p.AtZero() && p.asserted
    ensures Clean(p)
  {
  }
}
