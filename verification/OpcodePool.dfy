/** The compiler: recursive emission into a growing code array, with a worklist of segments
    that are emitted later and patched into holes. Its methods work in place; they do what the
    functions of `Emitter` say, for every expression. */
module OpcodePools {
  import opened Basics
  import opened Lang
  import opened Machine
  import opened Coding
  import opened Refilling
  import opened Emission
  import opened EmissionCases
  import opened Emitter
  import opened Acceptance
  import opened Accounting
  import opened Segments
  import opened Worklist

  class OpcodePool {
    var codes: seq<Op>
    var fixups: seq<Fixup>
    var values: int
    var scopes: int
    var ctxs: int
    var closures: int
    ghost var asserted: bool

    ghost function State(): Pool
      reads this
    {
      Pool(codes, fixups, values, scopes, ctxs, closures, asserted)
    }

    // The state after a method, or why it stopped.
    ghost function Outcome(trouble: Maybe<Trouble>): Progress
      reads this
    {
      match trouble
      case None => Going(State())
      case Some(why) => Stopped(why)
    }

    // Address 0 is reserved.
    constructor ()
      ensures State() == Pool([EndCode], [], 0, 0, 0, 0, true)
    {
      codes, fixups := [EndCode], [];
      values, scopes, ctxs, closures := 0, 0, 0, 0;
      asserted := true;
    }

    // An assertion of the compiler.
    ghost method Assert(holds: bool)
      modifies this`asserted
      ensures State() == old(State()).Assert(holds)
    {
      asserted := asserted && holds;
    }

    /** The instruction is appended and the depths follow the table; the compiler asserts that
        none of them becomes negative. */
    method EmitOpcode(op: Op)
      modifies this
      ensures State() == Emit(old(State()), op)
    {
      hide OpcodeEffects;
      codes := codes + [op];
      var effects := OpcodeEffects(op);
      values := values + effects.values;
      scopes := scopes + effects.scopes;
      ctxs := ctxs + effects.ctxs;
      closures := closures + effects.closures;
      Assert(values >= 0 && scopes >= 0 && ctxs >= 0 && closures >= 0);
    }

    // A hole in the instruction that is emitted next.
    method EmitFixup(slot: nat, segment: Segment)
      modifies this`fixups
      ensures fixups == old(fixups) + [Fixup(|codes|, slot, segment)]
    {
      fixups := fixups + [Fixup(|codes|, slot, segment)];
    }

    method OpcodesFromExpression(e: Expr, into: bool) returns (trouble: Maybe<Trouble>)
      modifies this
      ensures Outcome(trouble) == ExprFrom(old(State()), e, into)
      ensures Entered(old(State()), e, into) ==> ExprRight(old(State()), Outcome(trouble), e, into)
      decreases e, 2
    {
      hide Entered, ExprRight, UnaryFrom, BinaryFrom, IfElseFrom, IfFrom, ForFrom, BlockFrom, SetFrom, OpSetFrom,
           FuncFrom, CallFrom;
      trouble := None;
      match e {
        case Lit(n) => EmitOpcode(ValueInteger(into, n));
        case Scoped(out, rank) => EmitOpcode(LoadScope(into, out, rank));
        case Closed(slot) => EmitOpcode(LoadClosure(into, slot));
        case GlobalRef(i) => EmitOpcode(LoadGlobal(into, i));
        case Unary(_, _) => trouble := OpcodesFromUnary(e, into);
        case Binary(_, _, _) => trouble := OpcodesFromBinary(e, into);
        case IfElse(_, _, _) => trouble := OpcodesFromIfElse(e, into);
        case IfOnly(_, _) => trouble := OpcodesFromIf(e, into);
        case For(_, _, _) => trouble := OpcodesFromFor(e, into);
        case Block(_) => trouble := OpcodesFromBlock(e, into);
        case Set(_, _) => trouble := OpcodesFromSet(e, into);
        case OpSet(_, _, _) => trouble := OpcodesFromOpSet(e, into);
        case Func(_, _, _) => trouble := OpcodesFromFunc(e, into);
        case Call(_, _) => trouble := OpcodesFromCall(e, into);
      }
      if Entered(old(State()), e, into) { ExprSpec(old(State()), e, into); }
    }

    method OpcodesFromUnary(e: Expr, into: bool) returns (trouble: Maybe<Trouble>)
      requires e.Unary?
      modifies this
      ensures Outcome(trouble) == UnaryFrom(old(State()), e, into)
      ensures Entered(old(State()), e, into) ==> ExprRight(old(State()), Outcome(trouble), e, into)
      decreases e, 1
    {
      hide ExprFrom, Emit, ExprRight, Entered;
      if Entered(State(), e, into) { UnarySpec(State(), e, into); }
      trouble := OpcodesFromExpression(e.operand, false);
      if trouble.None? { EmitOpcode(UnaryOp(into, e.uop)); }
    }

    method OpcodesFromBinary(e: Expr, into: bool) returns (trouble: Maybe<Trouble>)
      requires e.Binary?
      modifies this
      ensures Outcome(trouble) == BinaryFrom(old(State()), e, into)
      ensures Entered(old(State()), e, into) ==> ExprRight(old(State()), Outcome(trouble), e, into)
      decreases e, 1
    {
      hide ExprFrom, Emit, ExprRight, Entered;
      if Entered(State(), e, into) { BinarySpec(State(), e, into); }
      trouble := OpcodesFromExpression(e.lhs, false);
      if trouble.Some? { return; }
      trouble := OpcodesFromExpression(e.rhs, false);
      if trouble.None? { EmitOpcode(BinaryOp(into, e.bop)); }
    }

    /** A condition and two holes, filled later with branches in the mode of the whole; this code
        is right whatever the branches are. */
    method OpcodesFromIfElse(e: Expr, into: bool) returns (trouble: Maybe<Trouble>)
      requires e.IfElse?
      modifies this
      ensures Outcome(trouble) == IfElseFrom(old(State()), e, into)
      ensures ConditionEntered(old(State()), e, into) ==> ConditionRight(old(State()), Outcome(trouble), e, into)
      ensures Entered(old(State()), e, into) ==> ExprRight(old(State()), Outcome(trouble), e, into)
      decreases e, 1
    {
      hide ExprFrom, OpcodeEffects, ExprRight, Entered, ConditionEntered, ConditionRight;
      if Entered(State(), e, into) { IfElseSpec(State(), e, into); }
      if ConditionEntered(State(), e, into) { ConditionSpec(State(), e, into); }
      trouble := OpcodesFromExpression(e.cond, false);
      if trouble.None? {
        ghost var p := State();
        EmitFixup(0, IfBranch(e.thn, into, false));
        EmitFixup(1, IfBranch(e.els, into, false));
        EmitOpcode(IfElseOp(into, INVALID, INVALID));
        assert State() == EmitWith(p, IfElseOp(into, INVALID, INVALID), IfElseFixups(|p.codes|, e, into));
      }
    }

    // Without an alternative: a value is only needed with a write context.
    method OpcodesFromIf(e: Expr, into: bool) returns (trouble: Maybe<Trouble>)
      requires e.IfOnly?
      modifies this
      ensures Outcome(trouble) == IfFrom(old(State()), e, into)
      ensures Entered(old(State()), e, into) ==> ExprRight(old(State()), Outcome(trouble), e, into)
      decreases e, 1
    {
      hide ExprFrom, OpcodeEffects, ExprRight, Entered;
      if Entered(State(), e, into) { IfSpec(State(), e, into); }
      trouble := OpcodesFromExpression(e.cond, false);
      if trouble.None? {
        ghost var p := State();
        if into {
          EmitFixup(0, IfBranch(e.thn, true, true));
          EmitFixup(1, VoidValue);
          EmitOpcode(IfElseOp(true, INVALID, INVALID));
        } else {
          EmitFixup(0, DiscardedIfBranch(e.thn));
          EmitOpcode(If(INVALID));
        }
        assert State() == EmitWith(p, IfOp(into), IfFixups(|p.codes|, e, into));
      }
    }

    method OpcodesFromFor(e: Expr, into: bool) returns (trouble: Maybe<Trouble>)
      requires e.For?
      modifies this
      ensures Outcome(trouble) == ForFrom(old(State()), e, into)
      ensures Entered(old(State()), e, into) ==> ExprRight(old(State()), Outcome(trouble), e, into)
      decreases e, 1
    {
      hide ExprFrom, OpcodeEffects, ExprRight, Entered;
      if Entered(State(), e, into) { ForSpec(State(), e, into); }
      if into { return Some(NeedsFinally); }
      var condition := |codes|;
      trouble := OpcodesFromExpression(e.cond, false);
      if trouble.None? {
        ghost var p := State();
        EmitFixup(1, LoopBody(e.body, e.step));
        EmitOpcode(Loop(condition, INVALID));
        assert State() == EmitWith(p, Loop(condition, INVALID), LoopFixups(|p.codes|, e));
      }
    }

    method OpcodesFromSet(e: Expr, into: bool) returns (trouble: Maybe<Trouble>)
      requires e.Set?
      modifies this
      ensures Outcome(trouble) == SetFrom(old(State()), e, into)
      ensures Entered(old(State()), e, into) ==> ExprRight(old(State()), Outcome(trouble), e, into)
      decreases e, 1
    {
      hide ExprFrom, Emit, ExprRight, Entered;
      if Entered(State(), e, into) { SetSpec(State(), e, into); }
      trouble := OpcodesFromExpression(e.target, false);
      if trouble.Some? { return; }
      EmitOpcode(SetWriteCtx);
      trouble := OpcodesFromExpression(e.value, true);
      if trouble.None? && into { EmitOpcode(ValueVoid(true)); }
    }

    method OpcodesFromOpSet(e: Expr, into: bool) returns (trouble: Maybe<Trouble>)
      requires e.OpSet?
      modifies this
      ensures Outcome(trouble) == OpSetFrom(old(State()), e, into)
      ensures Entered(old(State()), e, into) ==> ExprRight(old(State()), Outcome(trouble), e, into)
      decreases e, 1
    {
      hide ExprFrom, Emit, ExprRight, Entered;
      if Entered(State(), e, into) { OpSetSpec(State(), e, into); }
      trouble := OpcodesFromExpression(e.target, false);
      if trouble.Some? { return; }
      EmitOpcode(DuplicateToWriteCtx);
      trouble := OpcodesFromExpression(e.value, false);
      if trouble.None? {
        EmitOpcode(BinaryOp(true, e.bop));
        if into { EmitOpcode(ValueVoid(true)); }
      }
    }

    method OpcodesFromDefinition(items: Items) returns (trouble: Maybe<Trouble>)
      requires items.Let? || items.TypedLet?
      modifies this
      ensures Outcome(trouble) == DefinitionFrom(old(State()), items)
      decreases items, 0
    {
      hide ExprFrom, Emit, ExprRight, Entered;
      if items.TypedLet? {
        trouble := OpcodesFromExpression(items.ty, false);
        if trouble.Some? { return; }
        EmitOpcode(ScopeAllocTyped(items.isMut));
      }
      trouble := OpcodesFromExpression(items.value, items.TypedLet?);
      if trouble.Some? { return; }
      if items.Let? { EmitOpcode(ScopeAllocUntyped(items.isMut)); }
    }

    // A statement, with what its depths call for behind it.
    method OpcodesFromStatement(e: Expr, isLast: bool, into: bool) returns (trouble: Maybe<Trouble>)
      modifies this
      ensures Outcome(trouble) == StatementFrom(old(State()), e, isLast, into)
      decreases e, 3
    {
      hide ExprFrom, ItemTail, ExprRight, Entered;
      var valuesBefore, ctxsBefore := values, ctxs;
      trouble := OpcodesFromExpression(e, isLast && into);
      if trouble.None? { EmitItemTail(old(State()), valuesBefore, ctxsBefore, isLast, into); }
    }

    method EmitItemTail(ghost before: Pool, valuesBefore: int, ctxsBefore: int, isLast: bool, into: bool)
      requires before.values == valuesBefore && before.ctxs == ctxsBefore
      modifies this
      ensures State() == ItemTail(before, old(State()), isLast, into)
    {
      hide Emit;
      if isLast && values == valuesBefore && ctxs == ctxsBefore {
        EmitOpcode(ValueVoid(into));
      } else if !isLast && values == valuesBefore + 1 {
        EmitOpcode(DiscardVoid);
      }
      Assert(values == valuesBefore + if isLast && !into then 1 else 0);
    }

    // The statements of a block, in a loop.
    method OpcodesFromItems(items: Items, into: bool) returns (trouble: Maybe<Trouble>)
      modifies this
      ensures Outcome(trouble) == ItemsFrom(old(State()), items, into)
      decreases items, 1
    {
      hide DefinitionFrom, StatementFrom;
      trouble := None;
      var rest := items;
      while !rest.End?
        invariant rest == items || rest < items
        invariant trouble.None? && ItemsFrom(State(), rest, into) == ItemsFrom(old(State()), items, into)
        decreases rest
      {
        if rest.Do? {
          trouble := OpcodesFromStatement(rest.e, rest.rest.End?, into);
        } else if rest.rest.End? {
          trouble := Some(Undecided);
        } else {
          trouble := OpcodesFromDefinition(rest);
        }
        if trouble.Some? { return; }
        rest := rest.rest;
      }
    }

    /** A block is right exactly when the test on the depths at its end fits. Otherwise the
        value of an empty block is missing, or a value too many is emitted before its end. */
    method OpcodesFromBlock(e: Expr, into: bool) returns (trouble: Maybe<Trouble>)
      requires e.Block?
      modifies this
      ensures Outcome(trouble) == BlockFrom(old(State()), e, into)
      ensures ItemsEntered(old(State()), e.items, into) ==>
        BlockRight(old(State()), Outcome(trouble), e, into)
      decreases e, 1
    {
      hide ItemsFrom, Emit, BlockRight, ItemsEntered;
      EmitOpcode(ScopeBegin);
      trouble := OpcodesFromItems(e.items, into);
      if trouble.None? {
        if (into && ctxs == 1) || (!into && values == 0) {
          EmitOpcode(ValueVoid(into));
        }
        if into {
          EmitOpcode(ScopeEnd);
        } else {
          EmitOpcode(ScopeEndPreserveTop);
        }
      }
      if ItemsEntered(old(State()), e.items, into) { BlockExact(old(State()), e, into); }
    }

    method OpcodesFromSignature(sig: Signature) returns (trouble: Maybe<Trouble>)
      modifies this
      ensures Outcome(trouble) == SignatureFrom(old(State()), sig)
      decreases sig, 1
    {
      hide ExprFrom, ExprRight, Entered;
      trouble := None;
      var rest := sig;
      while rest.Param?
        invariant rest == sig || rest < sig
        invariant trouble.None? && SignatureFrom(State(), rest) == SignatureFrom(old(State()), sig)
        decreases rest
      {
        trouble := OpcodesFromExpression(rest.ty, false);
        if trouble.Some? { return; }
        rest := rest.rest;
      }
      trouble := OpcodesFromExpression(rest.ret, false);
    }

    // The captured values are loaded one after the other.
    method EmitClosureValues(captures: seq<Capture>)
      modifies this
      ensures State() == CapturesFrom(old(State()), captures)
      ensures |codes| == |old(codes)| + |captures|
      ensures forall i | 0 <= i < |captures| :: codes[|old(codes)| + i] == CaptureOp(captures[i])
    {
      hide OpcodeEffects;
      var i := 0;
      while i < |captures|
        invariant 0 <= i <= |captures|
        invariant State() == CapturesFrom(old(State()), captures[..i])
        invariant |codes| == |old(codes)| + i
        invariant forall j | 0 <= j < i :: codes[|old(codes)| + j] == CaptureOp(captures[j])
      {
        assert captures[..i + 1][..i] == captures[..i];
        EmitOpcode(CaptureOp(captures[i]));
        i := i + 1;
      }
      assert captures[..|captures|] == captures;
    }

    method OpcodesFromFunc(e: Expr, into: bool) returns (trouble: Maybe<Trouble>)
      requires e.Func?
      modifies this
      ensures Outcome(trouble) == FuncFrom(old(State()), e, into)
      ensures Entered(old(State()), e, into) ==> ExprRight(old(State()), Outcome(trouble), e, into)
      decreases e, 1
    {
      hide SignatureFrom, OpcodeEffects, CapturesFrom, ExprRight, Entered;
      if Entered(State(), e, into) { FuncSpec(State(), e, into); }
      trouble := OpcodesFromSignature(e.signature);
      if trouble.None? {
        EmitOpcode(MakeSignature(ParamMuts(e.signature)));
        EmitClosureValues(e.captures);
        ghost var p := State();
        EmitFixup(0, FunctionBody(e.body, |e.captures| != 0));
        EmitOpcode(BindBody(into, INVALID, |e.captures|));
        assert State() == EmitWith(p, BindBody(into, INVALID, |e.captures|), BodyFixups(|p.codes|, e));
      }
    }

    // One hole for each argument of the instruction emitted next.
    method EmitArgumentFixups(args: Args)
      modifies this`fixups
      ensures fixups == old(fixups) + ArgFixups(|codes|, 0, args)
    {
      var slot, rest := 0, args;
      while rest.Arg?
        invariant fixups + ArgFixups(|codes|, slot, rest) == old(fixups) + ArgFixups(|codes|, 0, args)
        decreases rest
      {
        EmitFixup(slot, Argument(rest.e));
        slot, rest := slot + 1, rest.rest;
      }
      assert fixups + [] == fixups;
    }

    method OpcodesFromCall(e: Expr, into: bool) returns (trouble: Maybe<Trouble>)
      requires e.Call?
      modifies this
      ensures Outcome(trouble) == CallFrom(old(State()), e, into)
      ensures Entered(old(State()), e, into) ==> ExprRight(old(State()), Outcome(trouble), e, into)
      decreases e, 1
    {
      hide ExprFrom, OpcodeEffects, ExprRight, Entered, ArgFixups;
      if Entered(State(), e, into) { CallSpec(State(), e, into); }
      trouble := OpcodesFromExpression(e.callee, false);
      if trouble.None? {
        ghost var p := State();
        EmitArgumentFixups(e.args);
        EmitOpcode(PrepareArgs(NoAddresses(ArgCount(e.args))));
        assert State() == EmitWith(p, PrepareArgs(NoAddresses(ArgCount(e.args))), ArgFixups(|p.codes|, 0, e.args));
        EmitOpcode(ExecArgs);
        EmitOpcode(CallOp(into));
      }
    }

    /** Completes a segment, from depth zero. Where the segment is sound, its code is emitted and
        the depths end at zero. The assertion behind a branch of a conditional holds exactly when
        the branch leaves a value or stores one. */
    method CompleteFixup(segment: Segment) returns (trouble: Maybe<Trouble>)
      modifies this
      ensures Outcome(trouble) == SegmentFrom(old(State()), segment)
      ensures Clean(old(State())) && old(State()).AtZero() && SegmentSound(segment) ==>
        SegmentRight(old(State()), Outcome(trouble), segment)
      ensures Clean(old(State())) && old(State()).AtZero() && BranchEntered(segment) ==>
        BranchRight(old(State()), Outcome(trouble), segment.e, segment.into, segment.expectVoid)
    {
      hide ExprFrom, ExprRight, Entered, Clean, SegmentSound, SegmentRight, Emit, BranchRight, Sound;
      match segment {
        case FunctionBody(e, hasClosure) => trouble := CompleteFunctionBody(e, hasClosure);
        case Argument(e) =>
          ctxs := 1;
          trouble := OpcodesFromExpression(e, true);
          if trouble.None? { EmitOpcode(EndCode); }
        case VoidValue =>
          ctxs := 1;
          EmitOpcode(ValueVoid(true));
          EmitOpcode(EndCode);
          trouble := None;
        case IfBranch(e, into, expectVoid) => trouble := CompleteBranch(e, into, expectVoid);
        case DiscardedIfBranch(e) =>
          trouble := OpcodesFromDiscarded(e);
          if trouble.None? { EmitOpcode(EndCode); }
        case LoopBody(e, step) => trouble := CompleteLoopBody(e, step);
      }
      if Clean(old(State())) && old(State()).AtZero() {
        if SegmentSound(segment) { SegmentSpec(old(State()), segment); }
        if BranchEntered(segment) { BranchSpec(old(State()), segment.e, segment.into, segment.expectVoid); }
      }
    }

    method CompleteFunctionBody(e: Expr, hasClosure: bool) returns (trouble: Maybe<Trouble>)
      modifies this
      ensures Outcome(trouble) == SegmentFrom(old(State()), FunctionBody(e, hasClosure))
    {
      hide ExprFrom, ExprRight, Entered, Emit;
      ctxs := 1;
      closures := if hasClosure then 1 else 0;
      trouble := OpcodesFromExpression(e, true);
      if trouble.Some? { return; }
      if hasClosure { EmitOpcode(PopClosure); }
      EmitOpcode(Return);
    }

    method CompleteBranch(e: Expr, into: bool, expectVoid: bool) returns (trouble: Maybe<Trouble>)
      modifies this
      ensures Outcome(trouble) == SegmentFrom(old(State()), IfBranch(e, into, expectVoid))
    {
      hide ExprFrom, ExprRight, Entered, Emit;
      ctxs := if into then 1 else 0;
      if expectVoid && into { EmitOpcode(CheckWriteCtxVoid); }
      trouble := OpcodesFromExpression(e, into);
      if trouble.Some? { return; }
      EmitOpcode(EndCode);
      Assert(values == if into then 0 else 1);
      // The value of the branch is the value of the branching instruction.
      if !into { values := values - 1; }
    }

    // An expression whose value, if there is one, has to be void.
    method OpcodesFromDiscarded(e: Expr) returns (trouble: Maybe<Trouble>)
      modifies this
      ensures match ExprFrom(old(State()), e, false)
        case Going(p) => trouble.None? && State() == DiscardTail(p)
        case Stopped(why) => trouble == Some(why)
    {
      hide ExprFrom, ExprRight, Entered, Emit;
      trouble := OpcodesFromExpression(e, false);
      if trouble.None? && values == 1 { EmitOpcode(DiscardVoid); }
    }

    method CompleteLoopBody(e: Expr, step: LoopStep) returns (trouble: Maybe<Trouble>)
      modifies this
      ensures Outcome(trouble) == SegmentFrom(old(State()), LoopBody(e, step))
    {
      hide ExprFrom, ExprRight, Entered, Emit, DiscardTail;
      trouble := OpcodesFromDiscarded(e);
      if trouble.Some? { return; }
      if step.Advance? {
        trouble := OpcodesFromDiscarded(step.e);
        if trouble.Some? { return; }
        Assert(values == 0 && scopes == 0 && ctxs == 0 && closures == 0);
      }
      EmitOpcode(EndCode);
    }

    // The segment of the last hole: the hole is patched with its address.
    method CompleteLastFixup() returns (trouble: Maybe<Trouble>)
      requires Holes(State()) && fixups != []
      modifies this
      ensures Outcome(trouble) == LastFrom(old(State()))
    {
      hide SegmentFrom, SegmentRight, SegmentSound, Clean, SegmentSize, BranchRight, BranchEntered;
      LastIsHole(State());
      var fixup := fixups[|fixups| - 1];
      values, scopes, ctxs, closures := 0, 0, 0, 0;
      codes := codes[fixup.dst := Patch(codes[fixup.dst], fixup.slot, |codes|)];
      fixups := fixups[..|fixups| - 1];
      assert State() == Opened(old(State()));
      trouble := CompleteFixup(fixup.segment);
      if trouble.None? { Assert(values == 0 && scopes == 0 && ctxs == 0 && closures == 0); }
    }

    /** Completes all deferred segments. It ends, because the expressions still to be compiled
        become smaller in sum; afterwards no hole is open, and the segments fill the code one
        behind the other. */
    method CompleteFixups() returns (trouble: Maybe<Trouble>, ghost placed: seq<Placed>)
      requires Holes(State())
      modifies this
      ensures Outcome(trouble) == FixupsFrom(old(State()))
      ensures trouble.None? ==>
        fixups == [] && NoneOpen(codes) && Tiled(codes, placed, |old(codes)|) && Kept(old(codes), codes)
      ensures Clean(old(State())) && old(State()).AtZero() ==> FixupsRight(old(State()), Outcome(trouble))
    {
      hide Holes, LastFrom, TotalSize, Tiled, Kept, NoneOpen, Clean, FixupsRight;
      NothingPlaced(codes);
      placed := FixupsTiled(State(), [], |codes|);
      if Clean(State()) && State().AtZero() { FixupsSpec(State()); }
      trouble := None;
      while fixups != []
        invariant Holes(State()) && trouble.None? && FixupsFrom(State()) == FixupsFrom(old(State()))
        decreases TotalSize(fixups)
      {
        LastGrows(State());
        trouble := CompleteLastFixup();
        if trouble.Some? { return; }
      }
    }

    // The contiguous code of a value, which is consumed behind it.
    method EmitValue(e: Expr) returns (trouble: Maybe<Trouble>)
      modifies this
      ensures match ExprFrom(ValueStart(old(State())), e, false)
        case Going(q) => trouble.None? && State() == ValueEnd(q)
        case Stopped(why) => trouble == Some(why)
    {
      hide ExprFrom, ExprRight, Entered, Emit;
      values, scopes, ctxs, closures := 0, 0, 0, 0;
      trouble := OpcodesFromExpression(e, false);
      if trouble.None? {
        Assert(values >= 1);
        values := values - 1;
        EmitOpcode(EndCode);
      }
    }

    /** Compiles an expression for its value, and everything it defers. That fails exactly when a
        loop stands where a value is stored or a block ends in a definition. Where the accounting
        is right, what is emitted is the code of the expression, and no assertion fails. */
    method OpcodesFromValue(e: Expr) returns (trouble: Maybe<Trouble>, first: nat, ghost placed: seq<Placed>)
      requires Holes(State())
      modifies this
      ensures Outcome(trouble) == ValueFrom(old(State()), e) && first == |old(codes)|
      ensures trouble.None? ==>
        && fixups == [] && NoneOpen(codes) && Kept(old(codes), codes)
        && ExprFrom(ValueStart(old(State())), e, false).Going?
        && Tiled(codes, placed, |ExprFrom(ValueStart(old(State())), e, false).pool.codes| + 1)
      ensures old(fixups) == [] ==>
        && (trouble.None? <==> Accepted(e, false) && Decided(e))
        && (trouble == Some(NeedsFinally) ==> !Accepted(e, false)) && (trouble == Some(Undecided) ==> !Decided(e))
      ensures old(fixups) == [] && old(asserted) && Sound(e, false, 0, 0) && Yields(e) ==>
        ValueRight(old(State()), Outcome(trouble), e)
    {
      hide Holes, ExprFrom, FixupsFrom, Tiled, Kept, NoneOpen, ValueRight, Sound, Yields, Grown, FixupsRight,
           Clean, Size, ValueEnd, Accepted, Decided;
      ghost var p := State();
      ValueEndHoles(p, e);
      placed := [];
      if fixups == [] { ValueDone(p, e); }
      if fixups == [] && asserted && Sound(e, false, 0, 0) && Yields(e) { ValueSpec(State(), e); }
      first := |codes|;
      trouble := EmitValue(e);
      if trouble.Some? { return; }
      ghost var q := State();
      GrownKept(p, q, Size(e) - 1);
      trouble, placed := CompleteFixups();
      if trouble.None? { KeptTrans(p.codes, q.codes, codes); }
    }
  }
}
