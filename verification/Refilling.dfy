/** Holes in emitted code: what stays true when code is appended and a hole is patched. */
module Refilling {
  import opened Basics
  import opened Lang
  import opened Machine
  import opened Coding

  // The address operands of an instruction that are patched after it was emitted.
  function AddressOf(op: Op, slot: nat): Maybe<nat> {
    match op
    case If(thn) => if slot == 0 then Some(thn) else None
    case IfElseOp(_, thn, els) => if slot == 0 then Some(thn) else if slot == 1 then Some(els) else None
    case Loop(_, body) => if slot == 1 then Some(body) else None
    case BindBody(_, body, _) => if slot == 0 then Some(body) else None
    case PrepareArgs(arguments) => if slot < |arguments| then Some(arguments[slot]) else None
    case _ => None
  }

  function Patch(op: Op, slot: nat, address: nat): Op
    requires AddressOf(op, slot).Some?
  {
    match op
    case If(_) => If(address)
    case IfElseOp(into, thn, els) => if slot == 0 then IfElseOp(into, address, els) else IfElseOp(into, thn, address)
    case Loop(cond, _) => Loop(cond, address)
    case BindBody(into, _, count) => BindBody(into, address, count)
    case PrepareArgs(arguments) => PrepareArgs(arguments[slot := address])
  }

  // The same instruction up to holes that have been patched.
  predicate SameUpToHoles(op: Op, op': Op) {
    match op
    case If(_) => op'.If? && Carried(op, op', 0)
    case IfElseOp(into, _, _) => op'.IfElseOp? && op'.into == into && Carried(op, op', 0) && Carried(op, op', 1)
    case Loop(cond, _) => op'.Loop? && op'.cond == cond && Carried(op, op', 1)
    case BindBody(into, _, count) => op'.BindBody? && op'.into == into && op'.count == count && Carried(op, op', 0)
    case PrepareArgs(arguments) =>
      && op'.PrepareArgs? && |op'.arguments| == |arguments|
      && forall i | 0 <= i < |arguments| :: Carried(op, op', i)
    case _ => op' == op
  }

  predicate Carried(op: Op, op': Op, slot: nat) {
    AddressOf(op, slot).Some? && AddressOf(op', slot).Some?
    && (AddressOf(op, slot).value != INVALID ==> AddressOf(op', slot) == AddressOf(op, slot))
  }

  /** `code'` continues `code`: holes that are no longer pending lead to their segments. */
  ghost predicate Refills(code: seq<Op>, pending: set<Fixup>, code': seq<Op>, pending': set<Fixup>) {
    && |code| <= |code'|
    && (forall i | 0 <= i < |code| :: SameUpToHoles(code[i], code'[i]))
    && (forall f | f in pending :: Settled(f, code, code', pending'))
  }

  ghost predicate Settled(f: Fixup, code: seq<Op>, code': seq<Op>, pending': set<Fixup>) {
    f.dst < |code| <= |code'| && AddressOf(code'[f.dst], f.slot).Some? ==>
      var a := AddressOf(code'[f.dst], f.slot).value;
      if a == INVALID then f in pending' else SegmentCoded(code', pending', a, f.segment)
  }

  lemma RefillsAt(code: seq<Op>, pending: set<Fixup>, code': seq<Op>, pending': set<Fixup>, pc: nat, op: Op)
    requires Refills(code, pending, code', pending') && OpAt(code, pc, op)
    ensures pc < |code'| && SameUpToHoles(op, code'[pc])
  {
    hide SegmentCoded, SameUpToHoles, Settled;
  }

  // An instruction without holes stays.
  lemma RefillsOp(code: seq<Op>, pending: set<Fixup>, code': seq<Op>, pending': set<Fixup>, pc: nat, op: Op)
    requires Refills(code, pending, code', pending') && OpAt(code, pc, op)
    requires !op.If? && !op.IfElseOp? && !op.Loop? && !op.BindBody? && !op.PrepareArgs?
    ensures OpAt(code', pc, op)
  {
    hide Refills;
    RefillsAt(code, pending, code', pending', pc, op);
  }

  lemma {:induction false} RefillsFilled(code: seq<Op>, pending: set<Fixup>, code': seq<Op>, pending': set<Fixup>,
                                         dst: nat, slot: nat, segment: Segment)
    requires Refills(code, pending, code', pending') && dst < |code|
    requires AddressOf(code[dst], slot).Some?
    requires Filled(code, pending, dst, slot, AddressOf(code[dst], slot).value, segment)
    requires Carried(code[dst], code'[dst], slot)
    ensures Filled(code', pending', dst, slot, AddressOf(code'[dst], slot).value, segment)
    decreases SegmentSize(segment), 4
  {
    hide SegmentCoded, SameUpToHoles, AddressOf;
    if AddressOf(code[dst], slot).value == INVALID {
      assert Settled(Fixup(dst, slot, segment), code, code', pending');
    } else {
      RefillsSegment(code, pending, code', pending', AddressOf(code[dst], slot).value, segment);
    }
  }

  lemma {:induction false} RefillsSegment(code: seq<Op>, pending: set<Fixup>, code': seq<Op>, pending': set<Fixup>,
                                          pc: nat, s: Segment)
    requires Refills(code, pending, code', pending') && SegmentCoded(code, pending, pc, s)
    ensures SegmentCoded(code', pending', pc, s)
    decreases SegmentSize(s), 3
  {
    hide Refills, Coded, Len, DiscardCoded, OpAt, SameUpToHoles;
    match s
    case FunctionBody(e, hasClosure) =>
      RefillsCoded(code, pending, code', pending', pc, e, true);
      if hasClosure { RefillsOp(code, pending, code', pending', pc + Len(e, true), PopClosure); }
      RefillsOp(code, pending, code', pending', pc + Len(e, true) + Bit(hasClosure), Return);
    case Argument(e) =>
      RefillsCoded(code, pending, code', pending', pc, e, true);
      RefillsOp(code, pending, code', pending', pc + Len(e, true), EndCode);
    case VoidValue =>
      RefillsOp(code, pending, code', pending', pc, ValueVoid(true));
      RefillsOp(code, pending, code', pending', pc + 1, EndCode);
    case IfBranch(e, into, expectVoid) =>
      if expectVoid { RefillsOp(code, pending, code', pending', pc, CheckWriteCtxVoid); }
      RefillsCoded(code, pending, code', pending', pc + Bit(expectVoid), e, into);
      RefillsOp(code, pending, code', pending', pc + Bit(expectVoid) + Len(e, into), EndCode);
    case DiscardedIfBranch(e) =>
      RefillsDiscard(code, pending, code', pending', pc, e);
      RefillsOp(code, pending, code', pending', pc + DiscardLen(e), EndCode);
    case LoopBody(e, step) =>
      RefillsDiscard(code, pending, code', pending', pc, e);
      var at := pc + DiscardLen(e);
      match step {
        case NoStep => RefillsOp(code, pending, code', pending', at, EndCode);
        case Advance(e2) =>
          RefillsDiscard(code, pending, code', pending', at, e2);
          RefillsOp(code, pending, code', pending', at + DiscardLen(e2), EndCode);
      }
  }

  lemma {:induction false} RefillsDiscard(code: seq<Op>, pending: set<Fixup>, code': seq<Op>, pending': set<Fixup>,
                                          pc: nat, e: Expr)
    requires Refills(code, pending, code', pending') && DiscardCoded(code, pending, pc, e)
    ensures DiscardCoded(code', pending', pc, e)
    decreases Size(e), 2
  {
    hide Refills, Coded, Len;
    RefillsCoded(code, pending, code', pending', pc, e, false);
    if Yields(e) { RefillsAt(code, pending, code', pending', pc + Len(e, false), DiscardVoid); }
  }

  lemma {:induction false} RefillsCoded(code: seq<Op>, pending: set<Fixup>, code': seq<Op>, pending': set<Fixup>,
                                        pc: nat, e: Expr, into: bool)
    requires Refills(code, pending, code', pending') && Coded(code, pending, pc, e, into)
    ensures Coded(code', pending', pc, e, into)
    decreases Size(e), 1
  {
    hide Refills, Len, Filled, ItemsCoded, SignatureCoded, ArgsCoded, BinaryCoded, IfElseCoded, IfOnlyCoded, ForCoded,
         SetCoded,
         OpSetCoded, FuncCoded, CallCoded, OpAt, SameUpToHoles;
    match e
    case Unary(op, e1) =>
      RefillsCoded(code, pending, code', pending', pc, e1, false);
      RefillsOp(code, pending, code', pending', pc + Len(e1, false), UnaryOp(into, op));
    case Binary(_, _, _) => RefillsBinary(code, pending, code', pending', pc, e, into);
    case IfElse(_, _, _) => RefillsIfElse(code, pending, code', pending', pc, e, into);
    case IfOnly(_, _) => RefillsIfOnly(code, pending, code', pending', pc, e, into);
    case For(_, _, _) => RefillsFor(code, pending, code', pending', pc, e);
    case Block(_) => RefillsBlock(code, pending, code', pending', pc, e, into);
    case Set(_, _) => RefillsSet(code, pending, code', pending', pc, e, into);
    case OpSet(_, _, _) => RefillsOpSet(code, pending, code', pending', pc, e, into);
    case Func(_, _, _) => RefillsFunc(code, pending, code', pending', pc, e, into);
    case Call(_, _) => RefillsCall(code, pending, code', pending', pc, e, into);
    case _ => RefillsAtom(code, pending, code', pending', pc, e, into);
  }

  lemma RefillsAtom(code: seq<Op>, pending: set<Fixup>, code': seq<Op>, pending': set<Fixup>, pc: nat, e: Expr,
                    into: bool)
    requires e.Lit? || e.Scoped? || e.Closed? || e.GlobalRef?
    requires Refills(code, pending, code', pending') && Coded(code, pending, pc, e, into)
    ensures Coded(code', pending', pc, e, into)
  {
    hide Refills, OpAt, SameUpToHoles;
    match e
    case Lit(n) => RefillsOp(code, pending, code', pending', pc, ValueInteger(into, n));
    case Scoped(out, rank) => RefillsOp(code, pending, code', pending', pc, LoadScope(into, out, rank));
    case Closed(slot) => RefillsOp(code, pending, code', pending', pc, LoadClosure(into, slot));
    case GlobalRef(i) => RefillsOp(code, pending, code', pending', pc, LoadGlobal(into, i));
  }

  lemma {:induction false} RefillsBlock(code: seq<Op>, pending: set<Fixup>, code': seq<Op>, pending': set<Fixup>,
                                        pc: nat, e: Expr, into: bool)
    requires e.Block? && Refills(code, pending, code', pending') && Coded(code, pending, pc, e, into)
    ensures Coded(code', pending', pc, e, into)
    decreases Size(e), 0
  {
    hide Refills, Len, ItemsLen, ItemsCoded, OpAt, SameUpToHoles;
    RefillsOp(code, pending, code', pending', pc, ScopeBegin);
    RefillsItems(code, pending, code', pending', pc + 1, e.items, into);
    RefillsOp(code, pending, code', pending', pc + 1 + ItemsLen(e.items, into),
      if into then ScopeEnd else ScopeEndPreserveTop);
  }

  lemma {:induction false} RefillsBinary(code: seq<Op>, pending: set<Fixup>, code': seq<Op>, pending': set<Fixup>,
                                         pc: nat, e: Expr, into: bool)
    requires e.Binary? && Refills(code, pending, code', pending') && BinaryCoded(code, pending, pc, e, into)
    ensures BinaryCoded(code', pending', pc, e, into)
    decreases Size(e), 0
  {
    hide Refills, Coded, Len;
    var mid := pc + Len(e.lhs, false);
    RefillsCoded(code, pending, code', pending', pc, e.lhs, false);
    RefillsCoded(code, pending, code', pending', mid, e.rhs, false);
    RefillsAt(code, pending, code', pending', mid + Len(e.rhs, false), BinaryOp(into, e.bop));
  }

  lemma {:induction false} RefillsIfElse(code: seq<Op>, pending: set<Fixup>, code': seq<Op>, pending': set<Fixup>,
                                         pc: nat, e: Expr, into: bool)
    requires e.IfElse? && Refills(code, pending, code', pending') && IfElseCoded(code, pending, pc, e, into)
    ensures IfElseCoded(code', pending', pc, e, into)
    decreases Size(e), 0
  {
    hide Refills, Coded, Len, Filled;
    RefillsCoded(code, pending, code', pending', pc, e.cond, false);
    var at := pc + Len(e.cond, false);
    RefillsAt(code, pending, code', pending', at, code[at]);
    RefillsFilled(code, pending, code', pending', at, 0, IfBranch(e.thn, into, false));
    RefillsFilled(code, pending, code', pending', at, 1, IfBranch(e.els, into, false));
  }

  lemma {:induction false} RefillsIfOnly(code: seq<Op>, pending: set<Fixup>, code': seq<Op>, pending': set<Fixup>,
                                         pc: nat, e: Expr, into: bool)
    requires e.IfOnly? && Refills(code, pending, code', pending') && IfOnlyCoded(code, pending, pc, e, into)
    ensures IfOnlyCoded(code', pending', pc, e, into)
    decreases Size(e), 0
  {
    hide Refills, Coded, Len, Filled;
    RefillsCoded(code, pending, code', pending', pc, e.cond, false);
    var at := pc + Len(e.cond, false);
    RefillsAt(code, pending, code', pending', at, code[at]);
    if into {
      RefillsFilled(code, pending, code', pending', at, 0, IfBranch(e.thn, true, true));
      RefillsFilled(code, pending, code', pending', at, 1, VoidValue);
    } else {
      RefillsFilled(code, pending, code', pending', at, 0, DiscardedIfBranch(e.thn));
    }
  }

  lemma {:induction false} RefillsFor(code: seq<Op>, pending: set<Fixup>, code': seq<Op>, pending': set<Fixup>,
                                      pc: nat, e: Expr)
    requires e.For? && Refills(code, pending, code', pending') && ForCoded(code, pending, pc, e)
    ensures ForCoded(code', pending', pc, e)
    decreases Size(e), 0
  {
    hide Refills, Coded, Len, Filled;
    RefillsCoded(code, pending, code', pending', pc, e.cond, false);
    var at := pc + Len(e.cond, false);
    RefillsAt(code, pending, code', pending', at, code[at]);
    RefillsFilled(code, pending, code', pending', at, 1, LoopBody(e.body, e.step));
  }

  lemma {:induction false} RefillsSet(code: seq<Op>, pending: set<Fixup>, code': seq<Op>, pending': set<Fixup>,
                                      pc: nat, e: Expr, into: bool)
    requires e.Set? && Refills(code, pending, code', pending') && SetCoded(code, pending, pc, e, into)
    ensures SetCoded(code', pending', pc, e, into)
    decreases Size(e), 0
  {
    hide Refills, Coded, Len;
    var mid := pc + Len(e.target, false) + 1;
    RefillsCoded(code, pending, code', pending', pc, e.target, false);
    RefillsAt(code, pending, code', pending', mid - 1, SetWriteCtx);
    RefillsCoded(code, pending, code', pending', mid, e.value, true);
    if into { RefillsAt(code, pending, code', pending', mid + Len(e.value, true), ValueVoid(true)); }
  }

  lemma {:induction false} RefillsOpSet(code: seq<Op>, pending: set<Fixup>, code': seq<Op>, pending': set<Fixup>,
                                        pc: nat, e: Expr, into: bool)
    requires e.OpSet? && Refills(code, pending, code', pending') && OpSetCoded(code, pending, pc, e, into)
    ensures OpSetCoded(code', pending', pc, e, into)
    decreases Size(e), 0
  {
    hide Refills, Coded, Len;
    var mid := pc + Len(e.target, false) + 1;
    var end := mid + Len(e.value, false);
    RefillsCoded(code, pending, code', pending', pc, e.target, false);
    RefillsAt(code, pending, code', pending', mid - 1, DuplicateToWriteCtx);
    RefillsCoded(code, pending, code', pending', mid, e.value, false);
    RefillsAt(code, pending, code', pending', end, BinaryOp(true, e.bop));
    if into { RefillsAt(code, pending, code', pending', end + 1, ValueVoid(true)); }
  }

  lemma {:induction false} RefillsFunc(code: seq<Op>, pending: set<Fixup>, code': seq<Op>, pending': set<Fixup>,
                                       pc: nat, e: Expr, into: bool)
    requires e.Func? && Refills(code, pending, code', pending') && FuncCoded(code, pending, pc, e, into)
    ensures FuncCoded(code', pending', pc, e, into)
    decreases Size(e), 0
  {
    hide Refills, Coded, Len, Filled, SignatureCoded, SignatureLen;
    var at := pc + SignatureLen(e.signature) + 1;
    var bind := at + |e.captures|;
    RefillsSignature(code, pending, code', pending', pc, e.signature);
    RefillsAt(code, pending, code', pending', at - 1, MakeSignature(ParamMuts(e.signature)));
    forall i | 0 <= i < |e.captures|
      ensures OpAt(code', at + i, CaptureOp(e.captures[i]))
    {
      assert OpAt(code, at + i, CaptureOp(e.captures[i]));
      RefillsAt(code, pending, code', pending', at + i, CaptureOp(e.captures[i]));
    }
    RefillsAt(code, pending, code', pending', bind, code[bind]);
    RefillsFilled(code, pending, code', pending', bind, 0, FunctionBody(e.body, |e.captures| != 0));
  }

  lemma {:induction false} RefillsCall(code: seq<Op>, pending: set<Fixup>, code': seq<Op>, pending': set<Fixup>,
                                       pc: nat, e: Expr, into: bool)
    requires e.Call? && Refills(code, pending, code', pending') && CallCoded(code, pending, pc, e, into)
    ensures CallCoded(code', pending', pc, e, into)
    decreases Size(e), 0
  {
    hide Refills, Coded, Len, ArgsCoded;
    RefillsCoded(code, pending, code', pending', pc, e.callee, false);
    var at := pc + Len(e.callee, false);
    RefillsAt(code, pending, code', pending', at, code[at]);
    RefillsArgs(code, pending, code', pending', at, 0, e.args);
    RefillsAt(code, pending, code', pending', at + 1, ExecArgs);
    RefillsAt(code, pending, code', pending', at + 2, CallOp(into));
  }

  lemma {:induction false} RefillsArgs(code: seq<Op>, pending: set<Fixup>, code': seq<Op>, pending': set<Fixup>,
                                       dst: nat, slot: nat, args: Args)
    requires Refills(code, pending, code', pending') && dst < |code|
    requires code[dst].PrepareArgs? && |code[dst].arguments| == slot + ArgCount(args)
    requires ArgsCoded(code, pending, dst, slot, code[dst].arguments, args)
    ensures dst < |code'| && code'[dst].PrepareArgs? && |code'[dst].arguments| == |code[dst].arguments|
    ensures ArgsCoded(code', pending', dst, slot, code'[dst].arguments, args)
    decreases ArgsSize(args), 0
  {
    hide Refills, Filled;
    RefillsAt(code, pending, code', pending', dst, code[dst]);
    match args
    case NoArgs =>
    case Arg(e, rest) =>
      assert Carried(code[dst], code'[dst], slot);
      RefillsFilled(code, pending, code', pending', dst, slot, Argument(e));
      RefillsArgs(code, pending, code', pending', dst, slot + 1, rest);
  }

  lemma {:induction false} RefillsSignature(code: seq<Op>, pending: set<Fixup>, code': seq<Op>, pending': set<Fixup>,
                                            pc: nat, sig: Signature)
    requires Refills(code, pending, code', pending') && SignatureCoded(code, pending, pc, sig)
    ensures SignatureCoded(code', pending', pc, sig)
    decreases SignatureSize(sig), 2
  {
    hide Refills, Coded, Len;
    match sig
    case Returns(ret) => RefillsCoded(code, pending, code', pending', pc, ret, false);
    case Param(_, ty, rest) =>
      RefillsCoded(code, pending, code', pending', pc, ty, false);
      RefillsSignature(code, pending, code', pending', pc + Len(ty, false), rest);
  }

  lemma {:induction false} RefillsItems(code: seq<Op>, pending: set<Fixup>, code': seq<Op>, pending': set<Fixup>,
                                        pc: nat, items: Items, into: bool)
    requires Refills(code, pending, code', pending') && ItemsCoded(code, pending, pc, items, into)
    ensures ItemsCoded(code', pending', pc, items, into)
    decreases ItemsSize(items), 0
  {
    hide Refills, Coded, Len, DiscardCoded;
    match items
    case End => RefillsAt(code, pending, code', pending', pc, ValueVoid(into));
    case Let(isMut, value, rest) =>
      var at := pc + Len(value, false);
      RefillsCoded(code, pending, code', pending', pc, value, false);
      RefillsAt(code, pending, code', pending', at, ScopeAllocUntyped(isMut));
      if !rest.End? { RefillsItems(code, pending, code', pending', at + 1, rest, into); }
    case TypedLet(isMut, ty, value, rest) =>
      var at := pc + Len(ty, false);
      RefillsCoded(code, pending, code', pending', pc, ty, false);
      RefillsAt(code, pending, code', pending', at, ScopeAllocTyped(isMut));
      RefillsCoded(code, pending, code', pending', at + 1, value, true);
      if !rest.End? { RefillsItems(code, pending, code', pending', at + 1 + Len(value, true), rest, into); }
    case Do(e, rest) =>
      if rest.End? {
        RefillsCoded(code, pending, code', pending', pc, e, into);
        if !into && !Yields(e) { RefillsAt(code, pending, code', pending', pc + Len(e, into), ValueVoid(false)); }
      } else {
        RefillsDiscard(code, pending, code', pending', pc, e);
        RefillsItems(code, pending, code', pending', pc + DiscardLen(e), rest, into);
      }
  }
}
