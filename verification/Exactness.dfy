/** For which expressions the accounting of the compiler is right: exactly for those `Sound` says. */
module Exactness {
  import opened Lang
  import opened Machine
  import opened Coding
  import opened Emission
  import opened EmissionCases
  import opened Emitter
  import opened Accounting

  // The state behind an expression.
  function After(p: Pool, e: Expr, into: bool): Pool {
    match ExprFrom(p, e, into)
    case Going(q) => q
    case Stopped(_) => p
  }

  /** Emission goes through, and what is consumed behind each part is what the part has left: an
      operand, a condition, a callee, a type and the value of a definition leave one value, a
      block leaves one or uses up its write context, and so does a branch whose conditional is
      to leave one. Nothing is said about expressions here, only about the depths emission tracks. */
  ghost predicate Counted(p: Pool, e: Expr, into: bool)
    decreases e, 0
  {
    match e
    case Lit(_) => true
    case Scoped(_, _) => true
    case Closed(_) => true
    case GlobalRef(_) => true
    case Unary(_, e1) => Leaves(p, e1)
    case Binary(_, l, r) => Leaves(p, l) && Leaves(After(p, l, false), r)
    case IfElse(c, t, f) => Leaves(p, c) && BranchCounted(p, t, into) && BranchCounted(p, f, into)
    case IfOnly(c, t) => Leaves(p, c) && if into then BranchCounted(p, t, true) else Counted(ValueStart(p), t, false)
    case For(c, body, step) =>
      && !into && Leaves(p, c) && Counted(ValueStart(p), body, false)
      && (step.Advance? ==> Counted(ValueStart(p), step.e, false))
    case Block(items) =>
      var q := After(p, e, into);
      && ItemsCounted(Emit(p, ScopeBegin), items, into)
      && q.values == p.values + Bit(!into) && q.ctxs == p.ctxs - Bit(into)
    case Set(l, r) => Leaves(p, l) && Counted(Emit(After(p, l, false), SetWriteCtx), r, true)
    case OpSet(_, l, r) => Leaves(p, l) && Leaves(Emit(After(p, l, false), DuplicateToWriteCtx), r)
    case Func(sig, _, body) => SignatureCounted(p, sig) && Counted(ValueStart(p).(ctxs := 1), body, true)
    case Call(f, args) => Leaves(p, f) && ArgsCounted(p, args)
  }

  ghost predicate Leaves(p: Pool, e: Expr)
    decreases e, 1
  {
    Counted(p, e, false) && After(p, e, false).values == p.values + 1
  }

  ghost predicate BranchCounted(p: Pool, e: Expr, into: bool)
    decreases e, 2
  {
    if into then Counted(ValueStart(p).(ctxs := 1), e, true) else Leaves(ValueStart(p), e)
  }

  ghost predicate ItemsCounted(p: Pool, items: Items, into: bool)
    decreases items
  {
    match items
    case End => true
    case Let(isMut, value, rest) =>
      && !rest.End? && Leaves(p, value)
      && ItemsCounted(Emit(After(p, value, false), ScopeAllocUntyped(isMut)), rest, into)
    case TypedLet(isMut, ty, value, rest) =>
      var p1 := Emit(After(p, ty, false), ScopeAllocTyped(isMut));
      && !rest.End? && Leaves(p, ty) && Counted(p1, value, true)
      && ItemsCounted(After(p1, value, true), rest, into)
    case Do(e, rest) =>
      var last := rest.End?;
      && Counted(p, e, last && into)
      && ItemsCounted(ItemTail(p, After(p, e, last && into), last, into), rest, into)
  }

  ghost predicate SignatureCounted(p: Pool, sig: Signature)
    decreases sig
  {
    match sig
    case Returns(ret) => Leaves(p, ret)
    case Param(_, ty, rest) => Leaves(p, ty) && SignatureCounted(After(p, ty, false), rest)
  }

  ghost predicate ArgsCounted(p: Pool, args: Args)
    decreases args
  {
    match args
    case NoArgs => true
    case Arg(e, rest) => Counted(ValueStart(p).(ctxs := 1), e, true) && ArgsCounted(p, rest)
  }

  // ---------- Parts ----------

  // What is sound and accepted is emitted.
  lemma Onward(p: Pool, e: Expr, into: bool)
    requires Entered(p, e, into) && Accepted(e, into)
    ensures ExprFrom(p, e, into) == Going(After(p, e, into))
    ensures EmittedExpr(p, After(p, e, into), e, into) && Clean(After(p, e, into))
  {
    hide Entered, ExprFrom, EmittedExpr, Clean, Accepted;
    ExprSpec(p, e, into);
  }

  lemma {:induction false} LeavesExactly(p: Pool, e: Expr)
    requires Clean(p)
    ensures Leaves(p, e) <==> Yields(e) && Sound(e, false, p.values, p.ctxs) && Accepted(e, false)
    ensures Leaves(p, e) ==>
      var q := After(p, e, false);
      && ExprFrom(p, e, false) == Going(q) && Clean(q) && EmittedExpr(p, q, e, false)
      && q.values == p.values + 1 && q.ctxs == p.ctxs && q.scopes == p.scopes && q.closures == p.closures
    decreases e, 3
  {
    hide Counted, EmittedExpr, Clean, Accepted, Sound, Yields, ExprFrom, After;
    CleanHoles(p);
    CountedExactly(p, e, false);
    if Sound(e, false, p.values, p.ctxs) && Accepted(e, false) {
      Onward(p, e, false);
      ExprDepths(p, After(p, e, false), e, false);
    }
  }

  lemma {:induction false} StoresExactly(p: Pool, e: Expr)
    requires Clean(p) && p.ctxs > 0
    ensures Counted(p, e, true) <==> Sound(e, true, p.values, p.ctxs) && Accepted(e, true)
    ensures Counted(p, e, true) ==>
      var q := After(p, e, true);
      && ExprFrom(p, e, true) == Going(q) && Clean(q) && EmittedExpr(p, q, e, true)
      && q.values == p.values && q.ctxs == p.ctxs - 1 && q.scopes == p.scopes && q.closures == p.closures
    decreases e, 3
  {
    hide Counted, EmittedExpr, Clean, Accepted, Sound, ExprFrom, After;
    CleanHoles(p);
    CountedExactly(p, e, true);
    if Sound(e, true, p.values, p.ctxs) && Accepted(e, true) {
      Onward(p, e, true);
      ExprDepths(p, After(p, e, true), e, true);
    }
  }

  // A segment starts from depth zero.
  lemma Restarted(p: Pool)
    requires Clean(p)
    ensures Clean(ValueStart(p)) && Clean(ValueStart(p).(ctxs := 1))
  {
    hide Holes, SegmentSound;
    SameHoles(p, ValueStart(p));
    SameHoles(p, ValueStart(p).(ctxs := 1));
  }

  lemma SameHoles(p: Pool, q: Pool)
    requires Holes(p) && q.codes == p.codes && q.fixups == p.fixups
    ensures Holes(q)
  {
  }

  lemma {:induction false} BranchExactly(p: Pool, e: Expr, into: bool)
    requires Clean(p)
    ensures BranchCounted(p, e, into) <==>
      Sound(e, into, 0, Bit(into)) && (!into ==> Yields(e)) && Accepted(e, into)
    decreases e, 4
  {
    hide Counted, Leaves, Clean, Accepted, Sound, Yields;
    Restarted(p);
    if into {
      CountedExactly(ValueStart(p).(ctxs := 1), e, true);
    } else {
      LeavesExactly(ValueStart(p), e);
    }
  }

  // ---------- Expressions ----------

  /** The accounting is right for exactly the sound expressions, as far as they are accepted. */
  lemma {:induction false} CountedExactly(p: Pool, e: Expr, into: bool)
    requires Clean(p) && (into ==> p.ctxs > 0)
    ensures Counted(p, e, into) <==> Sound(e, into, p.values, p.ctxs) && Accepted(e, into)
    decreases e, 2
  {
    hide Clean;
    CleanHoles(p);
    match e
    case Lit(_) =>
    case Scoped(_, _) =>
    case Closed(_) =>
    case GlobalRef(_) =>
    case Unary(_, e1) => LeavesExactly(p, e1);
    case Binary(_, _, _) => BinaryExactly(p, e, into);
    case IfElse(_, _, _) => ConditionalExactly(p, e, into);
    case IfOnly(_, _) => ConditionalExactly(p, e, into);
    case For(_, _, _) => LoopExactly(p, e, into);
    case Block(_) => BlockExactly(p, e, into);
    case Set(_, _) => SetExactly(p, e, into);
    case OpSet(_, _, _) => OpSetExactly(p, e, into);
    case Func(_, _, _) => FuncExactly(p, e, into);
    case Call(_, _) => CallExactly(p, e, into);
  }

  lemma {:induction false} BinaryExactly(p: Pool, e: Expr, into: bool)
    requires e.Binary? && Clean(p)
    ensures Counted(p, e, into) <==> Sound(e, into, p.values, p.ctxs) && Accepted(e, into)
    decreases e, 1
  {
    hide Leaves, Clean, EmittedExpr, ExprFrom, After, Yields;
    CleanHoles(p);
    LeavesExactly(p, e.lhs);
    if Leaves(p, e.lhs) { LeavesExactly(After(p, e.lhs, false), e.rhs); }
  }

  lemma {:induction false} ConditionalExactly(p: Pool, e: Expr, into: bool)
    requires (e.IfElse? || e.IfOnly?) && Clean(p)
    ensures Counted(p, e, into) <==> Sound(e, into, p.values, p.ctxs) && Accepted(e, into)
    decreases e, 1
  {
    hide Leaves, Clean, EmittedExpr, ExprFrom, After, BranchCounted, Yields;
    CleanHoles(p);
    LeavesExactly(p, e.cond);
    BranchExactly(p, e.thn, into);
    if e.IfElse? {
      BranchExactly(p, e.els, into);
    } else if !into {
      Restarted(p);
      CountedExactly(ValueStart(p), e.thn, false);
    }
  }

  lemma {:induction false} LoopExactly(p: Pool, e: Expr, into: bool)
    requires e.For? && Clean(p)
    ensures Counted(p, e, into) <==> Sound(e, into, p.values, p.ctxs) && Accepted(e, into)
    decreases e, 1
  {
    hide Leaves, Clean, EmittedExpr, ExprFrom, After, Yields;
    CleanHoles(p);
    LeavesExactly(p, e.cond);
    Restarted(p);
    CountedExactly(ValueStart(p), e.body, false);
    if e.step.Advance? { CountedExactly(ValueStart(p), e.step.e, false); }
  }

  lemma {:induction false} SetExactly(p: Pool, e: Expr, into: bool)
    requires e.Set? && Clean(p)
    ensures Counted(p, e, into) <==> Sound(e, into, p.values, p.ctxs) && Accepted(e, into)
    decreases e, 1
  {
    hide Leaves, Clean, EmittedExpr, ExprFrom, After, Yields;
    CleanHoles(p);
    LeavesExactly(p, e.target);
    if Leaves(p, e.target) {
      var q := After(p, e.target, false);
      CleanEmit(q, SetWriteCtx);
      CountedExactly(Emit(q, SetWriteCtx), e.value, true);
    }
  }

  lemma {:induction false} OpSetExactly(p: Pool, e: Expr, into: bool)
    requires e.OpSet? && Clean(p)
    ensures Counted(p, e, into) <==> Sound(e, into, p.values, p.ctxs) && Accepted(e, into)
    decreases e, 1
  {
    hide Leaves, Clean, EmittedExpr, ExprFrom, After, Yields;
    CleanHoles(p);
    LeavesExactly(p, e.target);
    if Leaves(p, e.target) {
      var q := After(p, e.target, false);
      CleanEmit(q, DuplicateToWriteCtx);
      LeavesExactly(Emit(q, DuplicateToWriteCtx), e.value);
    }
  }

  lemma {:induction false} FuncExactly(p: Pool, e: Expr, into: bool)
    requires e.Func? && Clean(p)
    ensures Counted(p, e, into) <==> Sound(e, into, p.values, p.ctxs) && Accepted(e, into)
    decreases e, 1
  {
    hide Leaves, Clean, EmittedExpr, ExprFrom, After, SignatureCounted, SignatureSound, SignatureAccepted;
    CleanHoles(p);
    SignatureExactly(p, e.signature);
    Restarted(p);
    CountedExactly(ValueStart(p).(ctxs := 1), e.body, true);
  }

  lemma {:induction false} SignatureExactly(p: Pool, sig: Signature)
    requires Clean(p)
    ensures SignatureCounted(p, sig) <==> SignatureSound(sig, p.values, p.ctxs) && SignatureAccepted(sig)
    decreases sig
  {
    hide Leaves, Clean, EmittedExpr, ExprFrom, After, Sound, Accepted, Yields;
    CleanHoles(p);
    match sig
    case Returns(ret) => LeavesExactly(p, ret);
    case Param(_, ty, rest) =>
      LeavesExactly(p, ty);
      if Leaves(p, ty) { SignatureExactly(After(p, ty, false), rest); }
  }

  lemma {:induction false} CallExactly(p: Pool, e: Expr, into: bool)
    requires e.Call? && Clean(p)
    ensures Counted(p, e, into) <==> Sound(e, into, p.values, p.ctxs) && Accepted(e, into)
    decreases e, 1
  {
    hide Leaves, Clean, EmittedExpr, ExprFrom, After, ArgsCounted, ArgsSound, ArgsAccepted, Yields;
    CleanHoles(p);
    LeavesExactly(p, e.callee);
    ArgsExactly(p, e.args);
  }

  lemma {:induction false} ArgsExactly(p: Pool, args: Args)
    requires Clean(p)
    ensures ArgsCounted(p, args) <==> ArgsSound(args) && ArgsAccepted(args)
    decreases args
  {
    hide Clean, Sound, Accepted, Counted;
    match args
    case NoArgs =>
    case Arg(e, rest) =>
      Restarted(p);
      CountedExactly(ValueStart(p).(ctxs := 1), e, true);
      ArgsExactly(p, rest);
  }

  // ---------- Blocks ----------

  // Inside the scope, the depths of values and write contexts are those outside.
  lemma {:induction false} BlockExactly(p: Pool, e: Expr, into: bool)
    requires e.Block? && Clean(p) && (into ==> p.ctxs > 0)
    ensures Counted(p, e, into) <==> Sound(e, into, p.values, p.ctxs) && Accepted(e, into)
    decreases e, 1
  {
    hide Clean, EmittedExpr, ItemsCounted, ItemsSound, ItemsAccepted, BlockFrom;
    CleanHoles(p);
    CleanEmit(p, ScopeBegin);
    ItemsExactly(Emit(p, ScopeBegin), e.items, into);
    if ItemsSound(e.items, into, p.values, p.ctxs) { BlockExact(p, e, into); }
  }

  lemma {:induction false} ItemsExactly(p: Pool, items: Items, into: bool)
    requires Clean(p) && (into ==> p.ctxs > 0)
    ensures ItemsCounted(p, items, into) <==>
      ItemsSound(items, into, p.values, p.ctxs) && ItemsAccepted(items, into)
    decreases items, 1
  {
    hide Clean;
    match items
    case End =>
    case Let(_, _, _) => LetExactly(p, items, into);
    case TypedLet(_, _, _, _) => TypedLetExactly(p, items, into);
    case Do(_, _) => DoExactly(p, items, into);
  }

  lemma {:induction false} LetExactly(p: Pool, items: Items, into: bool)
    requires items.Let? && Clean(p) && (into ==> p.ctxs > 0)
    ensures ItemsCounted(p, items, into) <==>
      ItemsSound(items, into, p.values, p.ctxs) && ItemsAccepted(items, into)
    decreases items, 0
  {
    hide Leaves, Clean, EmittedExpr, ExprFrom, After, Sound, Accepted, Yields;
    CleanHoles(p);
    LeavesExactly(p, items.value);
    if Leaves(p, items.value) {
      var q, op := After(p, items.value, false), ScopeAllocUntyped(items.isMut);
      CleanEmit(q, op);
      ItemsExactly(Emit(q, op), items.rest, into);
    }
  }

  lemma {:induction false} TypedLetExactly(p: Pool, items: Items, into: bool)
    requires items.TypedLet? && Clean(p) && (into ==> p.ctxs > 0)
    ensures ItemsCounted(p, items, into) <==>
      ItemsSound(items, into, p.values, p.ctxs) && ItemsAccepted(items, into)
    decreases items, 0
  {
    hide Leaves, Clean, EmittedExpr, ExprFrom, After, Sound, Accepted, Yields, Counted;
    CleanHoles(p);
    LeavesExactly(p, items.ty);
    if Leaves(p, items.ty) {
      var q, op := After(p, items.ty, false), ScopeAllocTyped(items.isMut);
      var p1 := Emit(q, op);
      CleanEmit(q, op);
      StoresExactly(p1, items.value);
      if Counted(p1, items.value, true) { ItemsExactly(After(p1, items.value, true), items.rest, into); }
    }
  }

  lemma {:induction false} DoExactly(p: Pool, items: Items, into: bool)
    requires items.Do? && Clean(p) && (into ==> p.ctxs > 0)
    ensures ItemsCounted(p, items, into) <==>
      ItemsSound(items, into, p.values, p.ctxs) && ItemsAccepted(items, into)
    decreases items, 0
  {
    hide Clean, EmittedExpr, ExprFrom, After, Sound, Accepted, Yields, Counted, ItemTail;
    CleanHoles(p);
    var e, last := items.e, items.rest.End?;
    CountedExactly(p, e, last && into);
    if Counted(p, e, last && into) {
      Onward(p, e, last && into);
      var q := After(p, e, last && into);
      ItemTailSpec(p, q, e, last, into);
      if !last { ItemsExactly(ItemTail(p, q, last, into), items.rest, into); }
    }
  }
}
