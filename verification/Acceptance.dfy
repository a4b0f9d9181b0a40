/** Which expressions are compiled at all, whether or not the accounting is right for them. */
module Acceptance {
  import opened Lang
  import opened Machine
  import opened Coding
  import opened Emission
  import opened EmissionCases
  import opened Emitter

  /** No block ends in a definition. */
  predicate Decided(e: Expr)
    decreases e
  {
    match e
    case Lit(_) => true
    case Scoped(_, _) => true
    case Closed(_) => true
    case GlobalRef(_) => true
    case Unary(_, e1) => Decided(e1)
    case Binary(_, l, r) => Decided(l) && Decided(r)
    case IfElse(c, t, f) => Decided(c) && Decided(t) && Decided(f)
    case IfOnly(c, t) => Decided(c) && Decided(t)
    case For(c, body, step) => Decided(c) && Decided(body) && (step.Advance? ==> Decided(step.e))
    case Block(items) => ItemsDecided(items)
    case Set(l, r) => Decided(l) && Decided(r)
    case OpSet(_, l, r) => Decided(l) && Decided(r)
    case Func(sig, _, body) => SignatureDecided(sig) && Decided(body)
    case Call(f, args) => Decided(f) && ArgsDecided(args)
  }

  predicate ItemsDecided(items: Items)
    decreases items
  {
    match items
    case End => true
    case Let(_, value, rest) => !rest.End? && Decided(value) && ItemsDecided(rest)
    case TypedLet(_, ty, value, rest) => !rest.End? && Decided(ty) && Decided(value) && ItemsDecided(rest)
    case Do(e, rest) => Decided(e) && ItemsDecided(rest)
  }

  predicate SignatureDecided(sig: Signature)
    decreases sig
  {
    match sig
    case Returns(ret) => Decided(ret)
    case Param(_, ty, rest) => Decided(ty) && SignatureDecided(rest)
  }

  predicate ArgsDecided(args: Args)
    decreases args
  {
    match args
    case NoArgs => true
    case Arg(e, rest) => Decided(e) && ArgsDecided(rest)
  }

  predicate SegmentDecided(s: Segment) {
    match s
    case FunctionBody(e, _) => Decided(e)
    case Argument(e) => Decided(e)
    case VoidValue => true
    case IfBranch(e, _, _) => Decided(e)
    case DiscardedIfBranch(e) => Decided(e)
    case LoopBody(e, step) => Decided(e) && (step.Advance? ==> Decided(step.e))
  }

  predicate AllDecided(fixups: seq<Fixup>) {
    forall i | 0 <= i < |fixups| :: SegmentDecided(fixups[i].segment)
  }

  /** Emission stops only for the reason it names; otherwise what may still stop it has been
      deferred. */
  predicate Deferred(p: Pool, r: Progress, accepted: bool, decided: bool) {
    match r
    case Going(q) =>
      && (AllAccepted(q.fixups) <==> AllAccepted(p.fixups) && accepted)
      && (AllDecided(q.fixups) <==> AllDecided(p.fixups) && decided)
    case Stopped(why) => if why.NeedsFinally? then !accepted else !decided
  }

  // What else is emitted opens no holes.
  lemma DeferredMore(p: Pool, q: Pool, q': Pool, accepted: bool, decided: bool)
    requires Deferred(p, Going(q), accepted, decided) && q'.fixups == q.fixups
    ensures Deferred(p, Going(q'), accepted, decided)
  {
    hide AllAccepted, AllDecided;
  }

  lemma DeferredWith(p: Pool, q: Pool, accepted: bool, decided: bool, op: Op, more: seq<Fixup>)
    requires Deferred(p, Going(q), accepted, decided)
    ensures Deferred(p, Going(EmitWith(q, op, more)), accepted && AllAccepted(more), decided && AllDecided(more))
  {
    AllMore(q.fixups, more);
    hide AllAccepted, AllDecided;
  }

  lemma AllMore(a: seq<Fixup>, b: seq<Fixup>)
    ensures AllAccepted(a + b) <==> AllAccepted(a) && AllAccepted(b)
    ensures AllDecided(a + b) <==> AllDecided(a) && AllDecided(b)
  {
    hide SegmentAccepted, SegmentDecided;
    assert forall i | 0 <= i < |a| :: (a + b)[i] == a[i];
    assert forall i | 0 <= i < |b| :: (a + b)[|a| + i] == b[i];
  }

  // ---------- Expressions ----------

  lemma {:induction false} ExprDeferred(p: Pool, e: Expr, into: bool)
    ensures Deferred(p, ExprFrom(p, e, into), Accepted(e, into), Decided(e))
    decreases e, 2
  {
    hide Deferred, Emit, EmitWith;
    match e
    case Lit(n) => AtomDeferred(p, ValueInteger(into, n));
    case Scoped(out, rank) => AtomDeferred(p, LoadScope(into, out, rank));
    case Closed(slot) => AtomDeferred(p, LoadClosure(into, slot));
    case GlobalRef(i) => AtomDeferred(p, LoadGlobal(into, i));
    case Unary(_, _) => UnaryDeferred(p, e, into);
    case Binary(_, _, _) => BinaryDeferred(p, e, into);
    case IfElse(_, _, _) => IfElseDeferred(p, e, into);
    case IfOnly(_, _) => IfDeferred(p, e, into);
    case For(_, _, _) => ForDeferred(p, e, into);
    case Block(_) => BlockDeferred(p, e, into);
    case Set(_, _) => SetDeferred(p, e, into);
    case OpSet(_, _, _) => OpSetDeferred(p, e, into);
    case Func(_, _, _) => FuncDeferred(p, e, into);
    case Call(_, _) => CallDeferred(p, e, into);
  }

  lemma NothingDeferred(p: Pool, q: Pool)
    requires q.fixups == p.fixups
    ensures Deferred(p, Going(q), true, true)
  {
  }

  lemma AtomDeferred(p: Pool, op: Op)
    ensures Deferred(p, Going(Emit(p, op)), true, true)
  {
    hide OpcodeEffects, AllAccepted, AllDecided;
  }

  lemma {:induction false} UnaryDeferred(p: Pool, e: Expr, into: bool)
    requires e.Unary?
    ensures Deferred(p, UnaryFrom(p, e, into), Accepted(e, into), Decided(e))
    decreases e, 1
  {
    hide AllAccepted, AllDecided, ExprFrom, OpcodeEffects;
    ExprDeferred(p, e.operand, false);
  }

  lemma {:induction false} BinaryDeferred(p: Pool, e: Expr, into: bool)
    requires e.Binary?
    ensures Deferred(p, BinaryFrom(p, e, into), Accepted(e, into), Decided(e))
    decreases e, 1
  {
    hide AllAccepted, AllDecided, ExprFrom, OpcodeEffects;
    ExprDeferred(p, e.lhs, false);
    var r := ExprFrom(p, e.lhs, false);
    if r.Going? { ExprDeferred(r.pool, e.rhs, false); }
  }

  // A condition, and the instruction that branches on it.
  lemma {:induction false} ConditionDeferred(p: Pool, e: Expr, cond: Expr, op: Op, more: seq<Fixup>)
    requires cond < e
    ensures Deferred(p, ExprFrom(p, cond, false), Accepted(cond, false), Decided(cond))
    ensures var r := ExprFrom(p, cond, false);
      r.Going? ==>
        Deferred(p, Going(EmitWith(r.pool, op, more)), Accepted(cond, false) && AllAccepted(more),
                 Decided(cond) && AllDecided(more))
    decreases e, 0
  {
    hide Deferred, AllAccepted, AllDecided, ExprFrom, Accepted, Decided, EmitWith;
    ExprDeferred(p, cond, false);
    var r := ExprFrom(p, cond, false);
    if r.Going? { DeferredWith(p, r.pool, Accepted(cond, false), Decided(cond), op, more); }
  }

  lemma {:induction false} IfElseDeferred(p: Pool, e: Expr, into: bool)
    requires e.IfElse?
    ensures Deferred(p, IfElseFrom(p, e, into), Accepted(e, into), Decided(e))
    decreases e, 1
  {
    hide Deferred, ExprFrom, EmitWith;
    var r := ExprFrom(p, e.cond, false);
    var dst := if r.Going? then |r.pool.codes| else 0;
    var fs := IfElseFixups(dst, e, into);
    assert AllAccepted(fs) <==> Accepted(e.thn, into) && Accepted(e.els, into) by { TwoFixups(fs); }
    assert AllDecided(fs) <==> Decided(e.thn) && Decided(e.els) by { TwoFixups(fs); }
    ConditionDeferred(p, e, e.cond, IfElseOp(into, INVALID, INVALID), fs);
    StoppedStays(p, r, Accepted(e.cond, false), Decided(e.cond), Accepted(e, into), Decided(e));
  }

  lemma TwoFixups(fs: seq<Fixup>)
    requires 1 <= |fs| <= 2
    ensures AllAccepted(fs) <==> SegmentAccepted(fs[0].segment) && (|fs| == 2 ==> SegmentAccepted(fs[1].segment))
    ensures AllDecided(fs) <==> SegmentDecided(fs[0].segment) && (|fs| == 2 ==> SegmentDecided(fs[1].segment))
  {
    hide SegmentAccepted, SegmentDecided;
  }

  // What stops a part stops the whole.
  lemma StoppedStays(p: Pool, r: Progress, a: bool, d: bool, a': bool, d': bool)
    requires Deferred(p, r, a, d) && (a' ==> a) && (d' ==> d)
    ensures r.Stopped? ==> Deferred(p, r, a', d')
  {
    hide AllAccepted, AllDecided;
  }

  lemma {:induction false} IfDeferred(p: Pool, e: Expr, into: bool)
    requires e.IfOnly?
    ensures Deferred(p, IfFrom(p, e, into), Accepted(e, into), Decided(e))
    decreases e, 1
  {
    hide Deferred, ExprFrom, EmitWith;
    var r := ExprFrom(p, e.cond, false);
    var dst := if r.Going? then |r.pool.codes| else 0;
    var fs := IfFixups(dst, e, into);
    assert AllAccepted(fs) <==> Accepted(e.thn, into) by { TwoFixups(fs); }
    assert AllDecided(fs) <==> Decided(e.thn) by { TwoFixups(fs); }
    ConditionDeferred(p, e, e.cond, IfOp(into), fs);
    StoppedStays(p, r, Accepted(e.cond, false), Decided(e.cond), Accepted(e, into), Decided(e));
  }

  lemma {:induction false} ForDeferred(p: Pool, e: Expr, into: bool)
    requires e.For?
    ensures Deferred(p, ForFrom(p, e, into), Accepted(e, into), Decided(e))
    decreases e, 1
  {
    hide ExprFrom, EmitWith, AllAccepted, AllDecided;
    if into { return; }
    hide Deferred;
    var r := ExprFrom(p, e.cond, false);
    var dst := if r.Going? then |r.pool.codes| else 0;
    var fs := LoopFixups(dst, e);
    TwoFixups(fs);
    ConditionDeferred(p, e, e.cond, Loop(|p.codes|, INVALID), fs);
    StoppedStays(p, r, Accepted(e.cond, false), Decided(e.cond), Accepted(e, into), Decided(e));
  }

  lemma {:induction false} BlockDeferred(p: Pool, e: Expr, into: bool)
    requires e.Block?
    ensures Deferred(p, BlockFrom(p, e, into), Accepted(e, into), Decided(e))
    decreases e, 1
  {
    hide AllAccepted, AllDecided, ItemsFrom, OpcodeEffects;
    ItemsDeferred(Emit(p, ScopeBegin), e.items, into);
  }

  lemma {:induction false} SetDeferred(p: Pool, e: Expr, into: bool)
    requires e.Set?
    ensures Deferred(p, SetFrom(p, e, into), Accepted(e, into), Decided(e))
    decreases e, 1
  {
    hide AllAccepted, AllDecided, ExprFrom, OpcodeEffects;
    ExprDeferred(p, e.target, false);
    var r := ExprFrom(p, e.target, false);
    if r.Going? { ExprDeferred(Emit(r.pool, SetWriteCtx), e.value, true); }
  }

  lemma {:induction false} OpSetDeferred(p: Pool, e: Expr, into: bool)
    requires e.OpSet?
    ensures Deferred(p, OpSetFrom(p, e, into), Accepted(e, into), Decided(e))
    decreases e, 1
  {
    hide AllAccepted, AllDecided, ExprFrom, OpcodeEffects;
    ExprDeferred(p, e.target, false);
    var r := ExprFrom(p, e.target, false);
    if r.Going? { ExprDeferred(Emit(r.pool, DuplicateToWriteCtx), e.value, false); }
  }

  lemma {:induction false} FuncDeferred(p: Pool, e: Expr, into: bool)
    requires e.Func?
    ensures Deferred(p, FuncFrom(p, e, into), Accepted(e, into), Decided(e))
    decreases e, 1
  {
    hide Deferred, SignatureFrom, CapturesFrom, Emit, EmitWith, SignatureAccepted, SignatureDecided;
    SignatureDeferred(p, e.signature);
    var r := SignatureFrom(p, e.signature);
    var a, d := SignatureAccepted(e.signature), SignatureDecided(e.signature);
    StoppedStays(p, r, a, d, Accepted(e, into), Decided(e));
    if r.Going? {
      var p1 := Emit(r.pool, MakeSignature(ParamMuts(e.signature)));
      EmitFixups(r.pool, MakeSignature(ParamMuts(e.signature)));
      CapturesFixups(p1, e.captures);
      var p2 := CapturesFrom(p1, e.captures);
      DeferredMore(p, r.pool, p2, a, d);
      var more := BodyFixups(|p2.codes|, e);
      TwoFixups(more);
      DeferredWith(p, p2, a, d, BindBody(into, INVALID, |e.captures|), more);
    }
  }

  lemma {:induction false} CapturesFixups(p: Pool, captures: seq<Capture>)
    ensures CapturesFrom(p, captures).fixups == p.fixups
    decreases |captures|
  {
    hide OpcodeEffects;
    if captures != [] { CapturesFixups(p, captures[..|captures| - 1]); }
  }

  lemma {:induction false} CallDeferred(p: Pool, e: Expr, into: bool)
    requires e.Call?
    ensures Deferred(p, CallFrom(p, e, into), Accepted(e, into), Decided(e))
    decreases e, 1
  {
    hide Deferred, ExprFrom, Emit, EmitWith, ArgsAccepted, ArgsDecided, AllAccepted, AllDecided, ArgFixups;
    var r := ExprFrom(p, e.callee, false);
    var dst := if r.Going? then |r.pool.codes| else 0;
    var op, fs := PrepareArgs(NoAddresses(ArgCount(e.args))), ArgFixups(dst, 0, e.args);
    ArgFixupsAre(dst, 0, e.args);
    ArgFixupsDecided(dst, 0, e.args);
    ConditionDeferred(p, e, e.callee, op, fs);
    StoppedStays(p, r, Accepted(e.callee, false), Decided(e.callee), Accepted(e, into), Decided(e));
    if r.Going? {
      var q := EmitWith(r.pool, op, fs);
      EmitFixups(q, ExecArgs);
      EmitFixups(Emit(q, ExecArgs), CallOp(into));
      DeferredMore(p, q, CallTail(r.pool, e.args, into), Accepted(e, into), Decided(e));
    }
  }

  lemma {:induction false} ArgFixupsDecided(dst: nat, slot: nat, args: Args)
    ensures AllDecided(ArgFixups(dst, slot, args)) <==> ArgsDecided(args)
    decreases args
  {
    hide AllAccepted, AllDecided;
    match args
    case NoArgs => assert AllDecided([]) by { NoneDecided(); }
    case Arg(e, rest) =>
      ArgFixupsDecided(dst, slot + 1, rest);
      var f := Fixup(dst, slot, Argument(e));
      AllMore([f], ArgFixups(dst, slot + 1, rest));
      TwoFixups([f]);
  }

  lemma NoneDecided()
    ensures AllDecided([])
  {
  }

  lemma {:induction false} ItemsDeferred(p: Pool, items: Items, into: bool)
    ensures Deferred(p, ItemsFrom(p, items, into), ItemsAccepted(items, into), ItemsDecided(items))
    decreases items, 2
  {
    hide Deferred;
    match items
    case End => NothingDeferred(p, p);
    case Let(_, _, _) => LetDeferred(p, items, into);
    case TypedLet(_, _, _, _) => LetDeferred(p, items, into);
    case Do(_, _) => DoDeferred(p, items, into);
  }

  lemma {:induction false} DefinitionDeferred(p: Pool, items: Items)
    requires items.Let? || items.TypedLet?
    ensures Deferred(p, DefinitionFrom(p, items),
                     Accepted(items.value, items.TypedLet?) && (items.TypedLet? ==> Accepted(items.ty, false)),
                     Decided(items.value) && (items.TypedLet? ==> Decided(items.ty)))
    decreases items, 0
  {
    hide AllAccepted, AllDecided, ExprFrom, OpcodeEffects, Accepted, Decided;
    if items.TypedLet? {
      ExprDeferred(p, items.ty, false);
      var r := ExprFrom(p, items.ty, false);
      if r.Going? { ExprDeferred(Emit(r.pool, ScopeAllocTyped(items.isMut)), items.value, true); }
    } else {
      ExprDeferred(p, items.value, false);
    }
  }

  lemma {:induction false} LetDeferred(p: Pool, items: Items, into: bool)
    requires items.Let? || items.TypedLet?
    ensures Deferred(p, LetFrom(p, items, into), ItemsAccepted(items, into), ItemsDecided(items))
    decreases items, 1
  {
    hide AllAccepted, AllDecided, DefinitionFrom, ItemsFrom, Accepted, Decided;
    DefinitionDeferred(p, items);
    var r := DefinitionFrom(p, items);
    if r.Going? { ItemsDeferred(r.pool, items.rest, into); }
  }

  lemma {:induction false} DoDeferred(p: Pool, items: Items, into: bool)
    requires items.Do?
    ensures Deferred(p, DoFrom(p, items, into), ItemsAccepted(items, into), ItemsDecided(items))
    decreases items, 1
  {
    hide AllAccepted, AllDecided, ItemsFrom, ExprFrom, Accepted, Decided, ItemTail;
    var last := items.rest.End?;
    ExprDeferred(p, items.e, last && into);
    var r := ExprFrom(p, items.e, last && into);
    if r.Going? {
      var q := ItemTail(p, r.pool, last, into);
      ItemTailFixups(p, r.pool, last, into);
      ItemsDeferred(q, items.rest, into);
    }
  }

  lemma ItemTailFixups(p: Pool, q: Pool, last: bool, into: bool)
    ensures ItemTail(p, q, last, into).fixups == q.fixups
  {
    hide OpcodeEffects;
  }

  lemma {:induction false} SignatureDeferred(p: Pool, sig: Signature)
    ensures Deferred(p, SignatureFrom(p, sig), SignatureAccepted(sig), SignatureDecided(sig))
    decreases sig, 1
  {
    hide AllAccepted, AllDecided, ExprFrom, Accepted, Decided;
    match sig
    case Returns(ret) => ExprDeferred(p, ret, false);
    case Param(_, ty, rest) =>
      ExprDeferred(p, ty, false);
      var r := ExprFrom(p, ty, false);
      if r.Going? { SignatureDeferred(r.pool, rest); }
  }

  // ---------- Segments ----------

  lemma ThenDeferred(p: Pool, p0: Pool, e: Expr, into: bool)
    requires p0.fixups == p.fixups
    ensures Deferred(p, ExprFrom(p0, e, into), Accepted(e, into), Decided(e))
  {
    hide ExprFrom, Accepted, Decided, AllAccepted, AllDecided;
    ExprDeferred(p0, e, into);
  }

  lemma SegmentDeferred(p: Pool, s: Segment)
    ensures Deferred(p, SegmentFrom(p, s), SegmentAccepted(s), SegmentDecided(s))
  {
    hide ExprFrom, Accepted, Decided, AllAccepted, AllDecided, OpcodeEffects;
    match s
    case FunctionBody(e, hasClosure) => ThenDeferred(p, p.(ctxs := 1, closures := Bit(hasClosure)), e, true);
    case Argument(e) => ThenDeferred(p, p.(ctxs := 1), e, true);
    case VoidValue =>
    case IfBranch(e, into, expectVoid) =>
      var p0 := p.(ctxs := Bit(into));
      ThenDeferred(p, if expectVoid && into then Emit(p0, CheckWriteCtxVoid) else p0, e, into);
    case DiscardedIfBranch(e) => ThenDeferred(p, p, e, false);
    case LoopBody(e, step) =>
      ThenDeferred(p, p, e, false);
      var r := ExprFrom(p, e, false);
      if r.Going? && step.Advance? { ThenDeferred(DiscardTail(r.pool), DiscardTail(r.pool), step.e, false); }
  }

  lemma LastDeferred(p: Pool)
    requires Holes(p) && p.fixups != []
    ensures match LastFrom(p)
      case Going(q) =>
        && (AllAccepted(q.fixups) <==> AllAccepted(p.fixups)) && (AllDecided(q.fixups) <==> AllDecided(p.fixups))
      case Stopped(why) => if why.NeedsFinally? then !AllAccepted(p.fixups) else !AllDecided(p.fixups)
  {
    hide SegmentFrom, SegmentAccepted, SegmentDecided, Holes;
    var q, f := Opened(p), LastFixup(p);
    SegmentDeferred(q, f.segment);
    assert p.fixups == q.fixups + [f];
    AllMore(q.fixups, [f]);
    TwoFixups([f]);
    hide AllAccepted, AllDecided;
  }

  ghost predicate AllDone(p: Pool, r: Progress) {
    match r
    case Going(_) => AllAccepted(p.fixups) && AllDecided(p.fixups)
    case Stopped(why) => if why.NeedsFinally? then !AllAccepted(p.fixups) else !AllDecided(p.fixups)
  }

  lemma {:induction false} FixupsDone(p: Pool)
    requires Holes(p)
    ensures AllDone(p, FixupsFrom(p))
    decreases TotalSize(p.fixups)
  {
    hide Holes, LastFrom, TotalSize, SegmentAccepted, SegmentDecided;
    if p.fixups != [] {
      LastGrows(p);
      LastDeferred(p);
      var r := LastFrom(p);
      if r.Going? { FixupsDone(r.pool); }
    }
  }

  /** Every expression is compiled unless a loop stands where a value is stored or a block ends in a
      definition; the compiler names a reason that holds. */
  lemma ValueDone(p: Pool, e: Expr)
    requires Holes(p) && p.fixups == []
    ensures match ValueFrom(p, e)
      case Going(_) => Accepted(e, false) && Decided(e)
      case Stopped(why) => if why.NeedsFinally? then !Accepted(e, false) else !Decided(e)
  {
    hide Holes, ExprFrom, FixupsFrom, Accepted, Decided, OpcodeEffects, SegmentAccepted, SegmentDecided;
    ValueEndHoles(p, e);
    ThenDeferred(p, ValueStart(p), e, false);
    var r := ExprFrom(ValueStart(p), e, false);
    if r.Going? { FixupsDone(ValueEnd(r.pool)); }
  }
}
