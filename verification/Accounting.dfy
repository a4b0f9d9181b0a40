/** Where the accounting of the compiler is right: emission appends the code of the expression,
    the depths say what that code does, and no assertion of the compiler fails. */
module Accounting {
  import opened Basics
  import opened Lang
  import opened Machine
  import opened Coding
  import opened Refilling
  import opened Emission
  import opened EmissionCases
  import opened Emitter

  // ---------- What holds throughout ----------

  ghost predicate SoundWork(fixups: seq<Fixup>) {
    forall i | 0 <= i < |fixups| :: SegmentSound(fixups[i].segment)
  }

  /** No assertion has failed, and everything deferred is sound. */
  ghost predicate Clean(p: Pool) {
    Holes(p) && p.asserted && p.NonNegative() && SoundWork(p.fixups)
  }

  ghost predicate Entered(p: Pool, e: Expr, into: bool) {
    Clean(p) && Sound(e, into, p.values, p.ctxs) && (into ==> p.ctxs > 0)
  }

  /** Emission goes on to the code of `e`, or reports a loop where a value is stored. */
  ghost predicate ExprRight(p: Pool, r: Progress, e: Expr, into: bool) {
    match r
    case Going(q) => EmittedExpr(p, q, e, into) && Clean(q)
    case Stopped(why) => why.NeedsFinally? && !Accepted(e, into)
  }

  lemma CleanHoles(p: Pool)
    requires Clean(p)
    ensures Holes(p) && p.NonNegative() && p.asserted && SoundWork(p.fixups)
  {
    hide Holes, SoundWork;
  }

  lemma CleanEmit(p: Pool, op: Op)
    requires Clean(p) && Plain(op) && Emit(p, op).NonNegative()
    ensures Clean(Emit(p, op))
  {
    hide Holes, OpcodeEffects;
    EmittedPlain(p, op);
    EmittedOrHoles(p, Emit(p, op), 1, 0);
  }

  lemma CleanEmitWith(p: Pool, op: Op, more: seq<Fixup>)
    requires Clean(p) && HolesOf(p, op, more) && SoundWork(more) && Emit(p, op).NonNegative()
    ensures Clean(EmitWith(p, op, more))
  {
    hide Holes, OpcodeEffects, SegmentSound, HolesOf;
    EmittedWith(p, op, more);
    EmittedOrHoles(p, EmitWith(p, op, more), 1, TotalSize(more));
  }

  lemma ExprDepths(p0: Pool, p1: Pool, e: Expr, into: bool)
    requires EmittedExpr(p0, p1, e, into)
    ensures p1.values == p0.values + Bit(!into && Yields(e)) && p1.ctxs == p0.ctxs - Bit(into)
    ensures p1.scopes == p0.scopes && p1.closures == p0.closures
  {
    hide Emitted, Coded, NewAccepted, Accepted;
  }

  // ---------- Expressions ----------

  lemma {:induction false} ExprSpec(p: Pool, e: Expr, into: bool)
    requires Entered(p, e, into)
    ensures ExprRight(p, ExprFrom(p, e, into), e, into)
    decreases e, 2
  {
    hide ExprRight, Entered;
    match e
    case Lit(n) => AtomSpec(p, e, into, ValueInteger(into, n));
    case Scoped(out, rank) => AtomSpec(p, e, into, LoadScope(into, out, rank));
    case Closed(slot) => AtomSpec(p, e, into, LoadClosure(into, slot));
    case GlobalRef(i) => AtomSpec(p, e, into, LoadGlobal(into, i));
    case Unary(_, _) => UnarySpec(p, e, into);
    case Binary(_, _, _) => BinarySpec(p, e, into);
    case IfElse(_, _, _) => IfElseSpec(p, e, into);
    case IfOnly(_, _) => IfSpec(p, e, into);
    case For(_, _, _) => ForSpec(p, e, into);
    case Block(_) => BlockSpec(p, e, into);
    case Set(_, _) => SetSpec(p, e, into);
    case OpSet(_, _, _) => OpSetSpec(p, e, into);
    case Func(_, _, _) => FuncSpec(p, e, into);
    case Call(_, _) => CallSpec(p, e, into);
  }

  lemma AtomSpec(p: Pool, e: Expr, into: bool, op: Op)
    requires Entered(p, e, into) && (e.Lit? || e.Scoped? || e.Closed? || e.GlobalRef?)
    requires op == match e
      case Lit(n) => ValueInteger(into, n)
      case Scoped(out, rank) => LoadScope(into, out, rank)
      case Closed(slot) => LoadClosure(into, slot)
      case GlobalRef(i) => LoadGlobal(into, i)
      case _ => EndCode
    ensures ExprRight(p, ExprFrom(p, e, into), e, into)
  {
    hide Clean, EmittedExpr, Holes;
    CleanHoles(p);
    AtomEmitted(p, op, e, into);
    CleanEmit(p, op);
  }

  lemma {:induction false} UnarySpec(p: Pool, e: Expr, into: bool)
    requires e.Unary? && Entered(p, e, into)
    ensures ExprRight(p, UnaryFrom(p, e, into), e, into)
    decreases e, 1
  {
    hide Clean, EmittedExpr, Holes, ExprFrom;
    CleanHoles(p);
    ExprSpec(p, e.operand, false);
    var r := ExprFrom(p, e.operand, false);
    if r.Going? {
      ExprDepths(p, r.pool, e.operand, false);
      UnaryEmitted(p, r.pool, e, into);
      CleanEmit(r.pool, UnaryOp(into, e.uop));
    }
  }

  lemma {:induction false} BinarySpec(p: Pool, e: Expr, into: bool)
    requires e.Binary? && Entered(p, e, into)
    ensures ExprRight(p, BinaryFrom(p, e, into), e, into)
    decreases e, 1
  {
    hide Clean, EmittedExpr, Holes, ExprFrom;
    CleanHoles(p);
    ExprSpec(p, e.lhs, false);
    var r := ExprFrom(p, e.lhs, false);
    if r.Going? {
      ExprDepths(p, r.pool, e.lhs, false);
      ExprSpec(r.pool, e.rhs, false);
      var r2 := ExprFrom(r.pool, e.rhs, false);
      if r2.Going? {
        ExprDepths(r.pool, r2.pool, e.rhs, false);
        BinaryEmitted(p, r.pool, r2.pool, e, into);
        CleanEmit(r2.pool, BinaryOp(into, e.bop));
      }
    }
  }

  // A conditional whose condition is right, whatever its branches are.
  ghost predicate ConditionEntered(p: Pool, e: Expr, into: bool)
    requires e.IfElse?
  {
    Entered(p, e.cond, false) && Yields(e.cond) && (into ==> p.ctxs > 0)
  }

  ghost predicate ConditionRight(p: Pool, r: Progress, e: Expr, into: bool)
    requires e.IfElse?
  {
    match r
    case Going(q) => EmittedExpr(p, q, e, into) && Holes(q) && q.asserted && q.NonNegative()
    case Stopped(why) => why.NeedsFinally? && !Accepted(e.cond, false)
  }

  lemma {:induction false} ConditionSpec(p: Pool, e: Expr, into: bool)
    requires e.IfElse? && ConditionEntered(p, e, into)
    ensures ConditionRight(p, IfElseFrom(p, e, into), e, into)
    decreases e, 0
  {
    hide HolesOf, Clean, EmittedExpr, Holes, Entered, ExprFrom, OpcodeEffects;
    ExprSpec(p, e.cond, false);
    var r := ExprFrom(p, e.cond, false);
    if r.Going? {
      ConditionDepths(p, r.pool, e, into);
      IfElseEmitted(p, r.pool, e, into);
      var op, more := IfElseOp(into, INVALID, INVALID), IfElseFixups(|r.pool.codes|, e, into);
      CleanHoles(r.pool);
      IfElseHoles(r.pool, e, into);
      EmittedWith(r.pool, op, more);
      EmittedOrHoles(r.pool, EmitWith(r.pool, op, more), 1, TotalSize(more));
    }
  }

  lemma ConditionDepths(p: Pool, q: Pool, e: Expr, into: bool)
    requires e.IfElse? && ConditionEntered(p, e, into) && EmittedExpr(p, q, e.cond, false) && Clean(q)
    ensures Emit(q, IfElseOp(into, INVALID, INVALID)).NonNegative() && q.asserted
  {
    hide Clean, EmittedExpr, Sound;
    CleanHoles(p);
    CleanHoles(q);
    ExprDepths(p, q, e.cond, false);
  }

  lemma {:induction false} IfElseSpec(p: Pool, e: Expr, into: bool)
    requires e.IfElse? && Entered(p, e, into)
    ensures ExprRight(p, IfElseFrom(p, e, into), e, into)
    decreases e, 1
  {
    hide HolesOf, Clean, EmittedExpr, Holes, ExprFrom;
    CleanHoles(p);
    ExprSpec(p, e.cond, false);
    var r := ExprFrom(p, e.cond, false);
    if r.Going? {
      ConditionDepths(p, r.pool, e, into);
      IfElseEmitted(p, r.pool, e, into);
      IfElseHoles(r.pool, e, into);
      CleanEmitWith(r.pool, IfElseOp(into, INVALID, INVALID), IfElseFixups(|r.pool.codes|, e, into));
    }
  }

  lemma {:induction false} IfSpec(p: Pool, e: Expr, into: bool)
    requires e.IfOnly? && Entered(p, e, into)
    ensures ExprRight(p, IfFrom(p, e, into), e, into)
    decreases e, 1
  {
    hide HolesOf, Clean, EmittedExpr, Holes, ExprFrom;
    CleanHoles(p);
    ExprSpec(p, e.cond, false);
    var r := ExprFrom(p, e.cond, false);
    if r.Going? {
      ExprDepths(p, r.pool, e.cond, false);
      IfEmitted(p, r.pool, e, into);
      IfHoles(r.pool, e, into);
      CleanEmitWith(r.pool, IfOp(into), IfFixups(|r.pool.codes|, e, into));
    }
  }

  lemma {:induction false} ForSpec(p: Pool, e: Expr, into: bool)
    requires e.For? && Entered(p, e, into)
    ensures ExprRight(p, ForFrom(p, e, into), e, into)
    decreases e, 1
  {
    hide HolesOf, Clean, EmittedExpr, Holes, ExprFrom;
    if into { return; }
    CleanHoles(p);
    ExprSpec(p, e.cond, false);
    var r := ExprFrom(p, e.cond, false);
    if r.Going? {
      ExprDepths(p, r.pool, e.cond, false);
      ForEmitted(p, r.pool, e);
      LoopHoles(r.pool, e, |p.codes|);
      CleanEmitWith(r.pool, Loop(|p.codes|, INVALID), LoopFixups(|r.pool.codes|, e));
    }
  }

  lemma {:induction false} SetSpec(p: Pool, e: Expr, into: bool)
    requires e.Set? && Entered(p, e, into)
    ensures ExprRight(p, SetFrom(p, e, into), e, into)
    decreases e, 1
  {
    hide Clean, EmittedExpr, Holes, ExprFrom;
    CleanHoles(p);
    ExprSpec(p, e.target, false);
    var r := ExprFrom(p, e.target, false);
    if r.Going? {
      var p1 := Emit(r.pool, SetWriteCtx);
      ExprDepths(p, r.pool, e.target, false);
      CleanEmit(r.pool, SetWriteCtx);
      ExprSpec(p1, e.value, true);
      var r2 := ExprFrom(p1, e.value, true);
      if r2.Going? {
        ExprDepths(p1, r2.pool, e.value, true);
        SetEmitted(p, r.pool, r2.pool, e, into);
        if into { CleanEmit(r2.pool, ValueVoid(true)); }
      }
    }
  }

  lemma OpSetParts(e: Expr, into: bool, vs: nat, cs: nat)
    requires e.OpSet? && Sound(e, into, vs, cs)
    ensures Yields(e.target) && Yields(e.value) && Sound(e.target, false, vs, cs)
    ensures Sound(e.value, false, vs + 1, cs + 1)
    ensures Accepted(e, into) <==> Accepted(e.target, false) && Accepted(e.value, false)
  {
  }

  lemma StoreSpec(p0: Pool, p1: Pool, p: Pool, e: Expr, into: bool)
    requires e.OpSet? && Yields(e.target) && Yields(e.value) && EmittedExpr(p0, p1, e.target, false)
    requires EmittedExpr(Emit(p1, DuplicateToWriteCtx), p, e.value, false)
    requires Clean(p) && p.values >= 2 && p.ctxs >= 1 + Bit(into)
    ensures EmittedExpr(p0, StoreTail(p, e.bop, into), e, into) && Clean(StoreTail(p, e.bop, into))
  {
    hide Clean, EmittedExpr;
    CleanHoles(p);
    OpSetEmitted(p0, p1, p, e, into);
    CleanEmit(p, BinaryOp(true, e.bop));
    if into { CleanEmit(Emit(p, BinaryOp(true, e.bop)), ValueVoid(true)); }
  }

  lemma {:induction false} OpSetSpec(p: Pool, e: Expr, into: bool)
    requires e.OpSet? && Entered(p, e, into)
    ensures ExprRight(p, OpSetFrom(p, e, into), e, into)
    decreases e, 1
  {
    hide Clean, EmittedExpr, Holes, Sound, Accepted, StoreTail, ExprFrom;
    CleanHoles(p);
    OpSetParts(e, into, p.values, p.ctxs);
    ExprSpec(p, e.target, false);
    var r := ExprFrom(p, e.target, false);
    if r.Going? {
      var p1 := Emit(r.pool, DuplicateToWriteCtx);
      ExprDepths(p, r.pool, e.target, false);
      CleanEmit(r.pool, DuplicateToWriteCtx);
      ExprSpec(p1, e.value, false);
      var r2 := ExprFrom(p1, e.value, false);
      if r2.Going? {
        ExprDepths(p1, r2.pool, e.value, false);
        StoreSpec(p, r.pool, r2.pool, e, into);
      }
    }
  }

  // ---------- Blocks ----------

  ghost predicate ItemsRight(p: Pool, r: Progress, items: Items, into: bool) {
    match r
    case Going(q) => EmittedItems(p, q, items, into) && Clean(q)
    case Stopped(why) => why.NeedsFinally? && !ItemsAccepted(items, into)
  }

  ghost predicate ItemsEntered(p: Pool, items: Items, into: bool) {
    Clean(p) && ItemsSound(items, into, p.values, p.ctxs) && (into ==> p.ctxs > 0)
  }

  lemma ItemsDepths(p0: Pool, p2: Pool, items: Items, into: bool)
    requires EmittedItems(p0, p2, items, into)
    ensures p2.values == p0.values + Bit(!items.End? && !into) && p2.ctxs == p0.ctxs - Bit(!items.End? && into)
    ensures p2.scopes == p0.scopes && p2.closures == p0.closures
    ensures |p2.codes| == |p0.codes| + if items.End? then 0 else ItemsLen(items, into)
  {
    hide Holes, ItemsCoded, NewAccepted, ItemsAccepted, ItemsLen, TotalSize;
  }

  lemma {:induction false} ItemsSpec(p: Pool, items: Items, into: bool)
    requires ItemsEntered(p, items, into)
    ensures ItemsRight(p, ItemsFrom(p, items, into), items, into)
    decreases items, 2
  {
    hide Clean, EmittedItems, Holes, EmittedExpr;
    CleanHoles(p);
    match items
    case End => NoItems(p, into);
    case Let(_, _, _) => LetSpec(p, items, into);
    case TypedLet(_, _, _, _) => TypedLetSpec(p, items, into);
    case Do(_, _) => DoSpec(p, items, into);
  }

  lemma NoItems(p: Pool, into: bool)
    requires Holes(p)
    ensures EmittedItems(p, p, End, into)
  {
    EmittedNothing(p);
  }

  lemma {:induction false} LetSpec(p: Pool, items: Items, into: bool)
    requires items.Let? && ItemsEntered(p, items, into)
    ensures ItemsRight(p, LetFrom(p, items, into), items, into)
    decreases items, 1
  {
    hide Clean, EmittedItems, Holes, EmittedExpr, Sound, Accepted, ExprFrom, ItemsFrom;
    CleanHoles(p);
    ExprSpec(p, items.value, false);
    var r := ExprFrom(p, items.value, false);
    if r.Going? {
      var p1 := Emit(r.pool, ScopeAllocUntyped(items.isMut));
      ExprDepths(p, r.pool, items.value, false);
      CleanEmit(r.pool, ScopeAllocUntyped(items.isMut));
      ItemsSpec(p1, items.rest, into);
      var r2 := ItemsFrom(p1, items.rest, into);
      if r2.Going? { LetEmitted(p, r.pool, r2.pool, items, into); }
    }
  }

  lemma {:induction false} TypedLetSpec(p: Pool, items: Items, into: bool)
    requires items.TypedLet? && ItemsEntered(p, items, into)
    ensures ItemsRight(p, LetFrom(p, items, into), items, into)
    decreases items, 1
  {
    hide Clean, EmittedItems, Holes, EmittedExpr, Sound, Accepted, ExprFrom, ItemsFrom;
    CleanHoles(p);
    ExprSpec(p, items.ty, false);
    var r := ExprFrom(p, items.ty, false);
    if r.Going? {
      var p1 := Emit(r.pool, ScopeAllocTyped(items.isMut));
      ExprDepths(p, r.pool, items.ty, false);
      CleanEmit(r.pool, ScopeAllocTyped(items.isMut));
      ExprSpec(p1, items.value, true);
      var r2 := ExprFrom(p1, items.value, true);
      if r2.Going? {
        ExprDepths(p1, r2.pool, items.value, true);
        ItemsSpec(r2.pool, items.rest, into);
        var r3 := ItemsFrom(r2.pool, items.rest, into);
        if r3.Going? { TypedLetEmitted(p, r.pool, r2.pool, r3.pool, items, into); }
      }
    }
  }

  lemma {:induction false} DoSpec(p: Pool, items: Items, into: bool)
    requires items.Do? && ItemsEntered(p, items, into)
    ensures ItemsRight(p, DoFrom(p, items, into), items, into)
    decreases items, 1
  {
    hide Clean, EmittedItems, Holes, EmittedExpr, EmittedDiscarded, ItemTail, ExprFrom;
    CleanHoles(p);
    var e, last := items.e, items.rest.End?;
    ExprSpec(p, e, last && into);
    var r := ExprFrom(p, e, last && into);
    if r.Going? {
      ItemTailSpec(p, r.pool, e, last, into);
      var p1 := ItemTail(p, r.pool, last, into);
      if last {
        LastEmitted(p, r.pool, items, into);
      } else {
        ItemsSpec(p1, items.rest, into);
        var r2 := ItemsFrom(p1, items.rest, into);
        DiscardEmitted(p, r.pool, e);
        if r2.Going? { DoEmitted(p, p1, r2.pool, items, into); }
      }
    }
  }

  // The tests on the depths find out whether the statement has left a value.
  lemma ItemTailSpec(p: Pool, q: Pool, e: Expr, isLast: bool, into: bool)
    requires Clean(p) && Clean(q) && EmittedExpr(p, q, e, isLast && into)
    ensures var r := ItemTail(p, q, isLast, into);
      && Clean(r)
      && r == (if isLast && !into && !Yields(e) then Emit(q, ValueVoid(false))
               else if !isLast && Yields(e) then Emit(q, DiscardVoid)
               else q)
      && (!isLast ==> r.values == p.values && r.ctxs == p.ctxs)
  {
    hide Clean, EmittedExpr;
    CleanHoles(p);
    CleanHoles(q);
    ExprDepths(p, q, e, isLast && into);
    if isLast && !into && !Yields(e) { CleanEmit(q, ValueVoid(false)); }
    if !isLast && Yields(e) { CleanEmit(q, DiscardVoid); }
  }

  /** Whether the tests on the depths fit decides the depths and the code behind a block. */
  lemma BlockShape(p0: Pool, p2: Pool, e: Expr, into: bool)
    requires e.Block? && Holes(p0) && EmittedItems(Emit(p0, ScopeBegin), p2, e.items, into)
    requires p0.values >= 0 && p0.ctxs >= 0 && (into ==> p0.ctxs > 0)
    ensures var p3 := BlockTail(p2, into);
      var fits := BlockFits(e.items, into, p0.values, p0.ctxs);
      && (fits ==> EmittedExpr(p0, p3, e, into))
      && (fits <==> p3.values == p0.values + Bit(!into) && p3.ctxs == p0.ctxs - Bit(into))
      && (!fits ==>
            && |p3.codes| == |p0.codes| + 2 + (if e.items.End? then 0 else ItemsLen(e.items, into) + 1)
            && p3.codes[|p3.codes| - 1] == BlockEnd(into)
            && (!e.items.End? ==> p3.codes[|p3.codes| - 2] == ValueVoid(into)))
  {
    hide Holes, EmittedItems, EmittedExpr, ItemsLen;
    ItemsDepths(Emit(p0, ScopeBegin), p2, e.items, into);
    BlockEmitted(p0, p2, e, into);
  }

  /** The code of a block, and its depths where the tests fit. */
  ghost predicate BlockRight(p: Pool, r: Progress, e: Expr, into: bool)
    requires e.Block? && p.NonNegative()
  {
    match r
    case Going(q) =>
      var fits := BlockFits(e.items, into, p.values, p.ctxs);
      && Clean(q) && (fits ==> EmittedExpr(p, q, e, into))
      && (fits <==> q.values == p.values + Bit(!into) && q.ctxs == p.ctxs - Bit(into))
      && (!fits ==>
            && |q.codes| == |p.codes| + 2 + (if e.items.End? then 0 else ItemsLen(e.items, into) + 1)
            && q.codes[|q.codes| - 1] == BlockEnd(into)
            && (!e.items.End? ==> q.codes[|q.codes| - 2] == ValueVoid(into)))
    case Stopped(why) => why.NeedsFinally? && !Accepted(e, into)
  }

  lemma {:induction false} BlockExact(p: Pool, e: Expr, into: bool)
    requires e.Block? && ItemsEntered(p, e.items, into)
    ensures BlockRight(p, BlockFrom(p, e, into), e, into)
    decreases e, 0
  {
    hide Clean, EmittedItems, Holes, EmittedExpr, ItemsLen, BlockTail, BlockFits, ItemsFrom;
    CleanHoles(p);
    var p1 := Emit(p, ScopeBegin);
    CleanEmit(p, ScopeBegin);
    ItemsSpec(p1, e.items, into);
    var r := ItemsFrom(p1, e.items, into);
    if r.Going? {
      BlockShape(p, r.pool, e, into);
      ItemsDepths(p1, r.pool, e.items, into);
      BlockTailClean(r.pool, into);
    }
  }

  lemma {:induction false} BlockSpec(p: Pool, e: Expr, into: bool)
    requires e.Block? && Entered(p, e, into)
    ensures ExprRight(p, BlockFrom(p, e, into), e, into)
    decreases e, 1
  {
    hide Clean, EmittedExpr, BlockFrom;
    CleanHoles(p);
    BlockExact(p, e, into);
  }

  lemma BlockTailClean(p: Pool, into: bool)
    requires Clean(p) && p.scopes > 0
    ensures Clean(BlockTail(p, into))
  {
    hide Clean;
    CleanHoles(p);
    var v := Emit(p, ValueVoid(into));
    if if into then p.ctxs == 1 else p.values == 0 {
      CleanEmit(p, ValueVoid(into));
      CleanEmit(v, BlockEnd(into));
    } else {
      CleanEmit(p, BlockEnd(into));
    }
  }

  // ---------- Functions and calls ----------

  ghost predicate SignatureRight(p: Pool, r: Progress, sig: Signature) {
    match r
    case Going(q) => EmittedSignature(p, q, sig) && Clean(q)
    case Stopped(why) => why.NeedsFinally? && !SignatureAccepted(sig)
  }

  lemma SignatureDepths(p0: Pool, p1: Pool, sig: Signature)
    requires EmittedSignature(p0, p1, sig)
    ensures p1.values == p0.values + |ParamMuts(sig)| + 1 && p1.ctxs == p0.ctxs && p1.scopes == p0.scopes
    ensures p1.closures == p0.closures
  {
    hide Emitted, SignatureCoded, NewAccepted;
  }

  lemma {:induction false} SignatureSpec(p: Pool, sig: Signature)
    requires Clean(p) && SignatureSound(sig, p.values, p.ctxs)
    ensures SignatureRight(p, SignatureFrom(p, sig), sig)
    decreases sig, 2
  {
    hide Clean, EmittedSignature, Holes, EmittedExpr;
    CleanHoles(p);
    match sig
    case Returns(ret) =>
      ExprSpec(p, ret, false);
      var r := ExprFrom(p, ret, false);
      if r.Going? { ReturnsEmitted(p, r.pool, sig); }
    case Param(_, ty, rest) =>
      ExprSpec(p, ty, false);
      var r := ExprFrom(p, ty, false);
      if r.Going? {
        ExprDepths(p, r.pool, ty, false);
        SignatureSpec(r.pool, rest);
        var r2 := SignatureFrom(r.pool, rest);
        if r2.Going? { ParamEmitted(p, r.pool, r2.pool, sig); }
      }
  }

  lemma CaptureDepths(p0: Pool, p1: Pool, sig: Signature, captures: seq<Capture>, k: nat)
    requires k <= |captures| && EmittedCaptures(p0, p1, sig, captures, k)
    ensures p1.values == p0.values + 1 + k && p1.ctxs == p0.ctxs && p1.scopes == p0.scopes
    ensures p1.closures == p0.closures
  {
    hide Emitted, SignatureCoded, NewAccepted;
  }

  // The captured values are loaded one after the other.
  lemma {:induction false} CapturesSpec(p0: Pool, p: Pool, sig: Signature, captures: seq<Capture>, k: nat)
    requires k <= |captures| && EmittedCaptures(p0, p, sig, captures, 0) && Clean(p) && p0.values >= 0
    ensures EmittedCaptures(p0, CapturesFrom(p, captures[..k]), sig, captures, k)
    ensures Clean(CapturesFrom(p, captures[..k]))
    decreases k
  {
    hide Clean, EmittedCaptures;
    CleanHoles(p);
    if k > 0 {
      assert captures[..k][..k - 1] == captures[..k - 1];
      CapturesSpec(p0, p, sig, captures, k - 1);
      var q := CapturesFrom(p, captures[..k - 1]);
      CaptureDepths(p0, q, sig, captures, k - 1);
      CaptureDepths(p0, p, sig, captures, 0);
      CaptureEmitted(p0, q, sig, captures, k - 1);
      CleanEmit(q, CaptureOp(captures[k - 1]));
    }
  }

  lemma FuncParts(e: Expr, into: bool, vs: nat, cs: nat)
    requires e.Func? && Sound(e, into, vs, cs)
    ensures SignatureSound(e.signature, vs, cs) && Sound(e.body, true, 0, 1)
    ensures Accepted(e, into) ==> SignatureAccepted(e.signature)
  {
  }

  lemma {:induction false} FuncSpec(p: Pool, e: Expr, into: bool)
    requires e.Func? && Entered(p, e, into)
    ensures ExprRight(p, FuncFrom(p, e, into), e, into)
    decreases e, 1
  {
    hide Clean, EmittedSignature, EmittedCaptures, Holes, EmittedExpr, Sound, Accepted, CapturesFrom, SignatureSound,
         SignatureFrom;
    CleanHoles(p);
    FuncParts(e, into, p.values, p.ctxs);
    SignatureSpec(p, e.signature);
    var r := SignatureFrom(p, e.signature);
    if r.Going? {
      SignatureDepths(p, r.pool, e.signature);
      var p1 := Emit(r.pool, MakeSignature(ParamMuts(e.signature)));
      SignatureMade(p, r.pool, e.signature, e.captures);
      CleanEmit(r.pool, MakeSignature(ParamMuts(e.signature)));
      CapturesSpec(p, p1, e.signature, e.captures, |e.captures|);
      assert e.captures[..|e.captures|] == e.captures;
      BindSpec(p, CapturesFrom(p1, e.captures), e, into);
    }
  }

  lemma BindSpec(p: Pool, q: Pool, e: Expr, into: bool)
    requires e.Func? && Sound(e.body, true, 0, 1) && Clean(p) && Clean(q) && (into ==> p.ctxs > 0)
    requires EmittedCaptures(p, q, e.signature, e.captures, |e.captures|)
    ensures var r := EmitWith(q, BindBody(into, INVALID, |e.captures|), BodyFixups(|q.codes|, e));
      EmittedExpr(p, r, e, into) && Clean(r)
  {
    hide HolesOf, Clean, EmittedCaptures, Holes, EmittedExpr, Sound;
    CleanHoles(p);
    CleanHoles(q);
    CaptureDepths(p, q, e.signature, e.captures, |e.captures|);
    FuncEmitted(p, q, e, into);
    BodyHoles(q, e, into);
    CleanEmitWith(q, BindBody(into, INVALID, |e.captures|), BodyFixups(|q.codes|, e));
  }

  lemma CallParts(e: Expr, into: bool, vs: nat, cs: nat)
    requires e.Call? && Sound(e, into, vs, cs)
    ensures Yields(e.callee) && Sound(e.callee, false, vs, cs) && ArgsSound(e.args)
    ensures Accepted(e, into) ==> Accepted(e.callee, false)
  {
  }

  lemma {:induction false} ArgsWork(dst: nat, slot: nat, args: Args)
    requires ArgsSound(args)
    ensures SoundWork(ArgFixups(dst, slot, args))
    decreases args
  {
    hide Sound;
    match args
    case NoArgs =>
    case Arg(e, rest) => ArgsWork(dst, slot + 1, rest);
  }

  lemma {:induction false} CallSpec(p: Pool, e: Expr, into: bool)
    requires e.Call? && Entered(p, e, into)
    ensures ExprRight(p, CallFrom(p, e, into), e, into)
    decreases e, 1
  {
    hide Clean, Holes, EmittedExpr, Sound, Accepted, ArgFixups, ArgsSound, ExprFrom;
    CleanHoles(p);
    CallParts(e, into, p.values, p.ctxs);
    ExprSpec(p, e.callee, false);
    var r := ExprFrom(p, e.callee, false);
    if r.Going? {
      ExprDepths(p, r.pool, e.callee, false);
      CallEmitted(p, r.pool, e, into);
      CallClean(r.pool, e.args, into);
    }
  }

  lemma CallClean(p: Pool, args: Args, into: bool)
    requires Clean(p) && ArgsSound(args) && p.values >= 1 && (into ==> p.ctxs > 0)
    ensures Clean(CallTail(p, args, into))
  {
    hide HolesOf, Clean, ArgFixups, ArgsSound, SoundWork, SegmentSound, SegmentAccepted, Size, TotalSize;
    CleanHoles(p);
    var op, more := PrepareArgs(NoAddresses(ArgCount(args))), ArgFixups(|p.codes|, 0, args);
    ArgFixupsAre(|p.codes|, 0, args);
    ArgsWork(|p.codes|, 0, args);
    ArgHoles(p, args);
    CleanEmitWith(p, op, more);
    var q := EmitWith(p, op, more);
    CleanEmit(q, ExecArgs);
    CleanEmit(Emit(q, ExecArgs), CallOp(into));
  }
}
