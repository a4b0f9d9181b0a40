/** What the compiled code of an expression looks like.

    The code of an expression is contiguous; branches, loop bodies, arguments and function
    bodies are separate segments whose addresses are patched into holes. `Coded` speaks about
    code in which the holes listed in `pending` are still open.
  */
module Coding {
  import opened Lang
  import opened Machine

  /** Address 0 is reserved: it marks a hole. */
  const INVALID: nat := 0

  /** Segments emitted out of line. */
  datatype Segment =
    | FunctionBody(body: Expr, hasClosure: bool)
    | Argument(e: Expr)
    | VoidValue
    | IfBranch(e: Expr, into: bool, expectVoid: bool)
    | DiscardedIfBranch(e: Expr)
    | LoopBody(body: Expr, step: LoopStep)

  /** A hole: operand `slot` of the instruction at `dst`. */
  datatype Fixup = Fixup(dst: nat, slot: nat, segment: Segment)

  // ---------- Sizes ----------

  function Size(e: Expr): (n: nat)
    ensures n >= 1
  {
    match e
    case Lit(_) => 1
    case Scoped(_, _) => 1
    case Closed(_) => 1
    case GlobalRef(_) => 1
    case Unary(_, e1) => 1 + Size(e1)
    case Binary(_, l, r) => 1 + Size(l) + Size(r)
    case IfElse(c, t, f) => 1 + Size(c) + Size(t) + Size(f)
    case IfOnly(c, t) => 2 + Size(c) + Size(t)
    case For(c, body, step) => 1 + Size(c) + Size(body) + StepSize(step)
    case Block(items) => 1 + ItemsSize(items)
    case Set(l, r) => 1 + Size(l) + Size(r)
    case OpSet(_, l, r) => 1 + Size(l) + Size(r)
    case Func(sig, _, body) => 1 + SignatureSize(sig) + Size(body)
    case Call(f, args) => 1 + Size(f) + ArgsSize(args)
  }

  function StepSize(s: LoopStep): nat {
    match s
    case NoStep => 0
    case Advance(e) => Size(e)
  }

  function ItemsSize(items: Items): nat {
    match items
    case End => 0
    case Let(_, value, rest) => 1 + Size(value) + ItemsSize(rest)
    case TypedLet(_, ty, value, rest) => 1 + Size(ty) + Size(value) + ItemsSize(rest)
    case Do(e, rest) => 1 + Size(e) + ItemsSize(rest)
  }

  function SignatureSize(sig: Signature): (n: nat)
    ensures n >= 1
  {
    match sig
    case Returns(ret) => Size(ret)
    case Param(_, ty, rest) => 1 + Size(ty) + SignatureSize(rest)
  }

  function ArgsSize(args: Args): nat {
    match args
    case NoArgs => 0
    case Arg(e, rest) => 1 + Size(e) + ArgsSize(rest)
  }

  function SegmentSize(s: Segment): nat {
    match s
    case FunctionBody(e, _) => Size(e)
    case Argument(e) => Size(e)
    case VoidValue => 1
    case IfBranch(e, _, _) => Size(e)
    case DiscardedIfBranch(e) => Size(e)
    case LoopBody(e, step) => Size(e) + StepSize(step)
  }

  // ---------- Lengths of the contiguous code ----------

  function Bit(b: bool): nat {
    if b then 1 else 0
  }

  function Len(e: Expr, into: bool): (n: nat)
    ensures n >= 1
    decreases e
  {
    match e
    case Lit(_) => 1
    case Scoped(_, _) => 1
    case Closed(_) => 1
    case GlobalRef(_) => 1
    case Unary(_, e1) => Len(e1, false) + 1
    case Binary(_, l, r) => Len(l, false) + Len(r, false) + 1
    case IfElse(c, _, _) => Len(c, false) + 1
    case IfOnly(c, _) => Len(c, false) + 1
    case For(c, _, _) => Len(c, false) + 1
    case Block(items) => 1 + ItemsLen(items, into) + 1
    case Set(l, r) => Len(l, false) + 1 + Len(r, true) + Bit(into)
    case OpSet(_, l, r) => Len(l, false) + 1 + Len(r, false) + 1 + Bit(into)
    case Func(sig, captures, _) => SignatureLen(sig) + 1 + |captures| + 1
    case Call(f, _) => Len(f, false) + 3
  }

  // The statements of a block, including the void value an empty block or a last statement
  // without a value stands for. (A block must not end in a definition.)
  function ItemsLen(items: Items, into: bool): nat
    decreases items
  {
    match items
    case End => 1
    case Let(_, value, rest) => Len(value, false) + 1 + (if rest.End? then 0 else ItemsLen(rest, into))
    case TypedLet(_, ty, value, rest) =>
      Len(ty, false) + 1 + Len(value, true) + (if rest.End? then 0 else ItemsLen(rest, into))
    case Do(e, rest) =>
      if rest.End? then Len(e, into) + Bit(!into && !Yields(e))
      else Len(e, false) + Bit(Yields(e)) + ItemsLen(rest, into)
  }

  function SignatureLen(sig: Signature): nat
    decreases sig
  {
    match sig
    case Returns(ret) => Len(ret, false)
    case Param(_, ty, rest) => Len(ty, false) + SignatureLen(rest)
  }

  // ---------- Which expressions the accounting of the compiler is right for ----------

  /** `values` and `ctxs` are the values and write contexts the current segment has pushed and
      not consumed when the code of `e` starts; `into` says that one of the latter is for `e`.

      Operands must leave a value. A block in a write context is only right when the number
      of open contexts is not 2, because the compiler compares that number with 1 to find
      out whether the block still lacks a value; an empty block, when it is 1 (or, without
      a write context, when no values are open). A loop in a write context is reported as an
      error before any of it is compiled. */
  predicate Sound(e: Expr, into: bool, values: int, ctxs: int)
    decreases e
  {
    match e
    case Lit(_) => true
    case Scoped(_, _) => true
    case Closed(_) => true
    case GlobalRef(_) => true
    case Unary(_, e1) => Yields(e1) && Sound(e1, false, values, ctxs)
    case Binary(_, l, r) =>
      Yields(l) && Yields(r) && Sound(l, false, values, ctxs) && Sound(r, false, values + 1, ctxs)
    case IfElse(c, t, f) =>
      && Yields(c) && Sound(c, false, values, ctxs)
      && (!into ==> Yields(t) && Yields(f))
      && Sound(t, into, 0, Bit(into)) && Sound(f, into, 0, Bit(into))
    case IfOnly(c, t) => Yields(c) && Sound(c, false, values, ctxs) && Sound(t, into, 0, Bit(into))
    case For(c, body, step) =>
      into ||
      (&& Yields(c) && Sound(c, false, values, ctxs) && Sound(body, false, 0, 0)
       && (step.Advance? ==> Sound(step.e, false, 0, 0)))
    case Block(items) =>
      BlockFits(items, into, values, ctxs) && ItemsSound(items, into, values, ctxs)
    case Set(l, r) => Yields(l) && Sound(l, false, values, ctxs) && Sound(r, true, values, ctxs + 1)
    case OpSet(_, l, r) =>
      Yields(l) && Yields(r) && Sound(l, false, values, ctxs) && Sound(r, false, values + 1, ctxs + 1)
    case Func(sig, captures, body) => SignatureSound(sig, values, ctxs) && Sound(body, true, 0, 1)
    case Call(f, args) => Yields(f) && Sound(f, false, values, ctxs) && ArgsSound(args)
  }

  // Whether the compiler finds out correctly if a block still lacks a value.
  predicate BlockFits(items: Items, into: bool, values: int, ctxs: int) {
    if items.End? then (if into then ctxs == 1 else values == 0) else into ==> ctxs != 2
  }

  predicate ItemsSound(items: Items, into: bool, values: int, ctxs: int)
    decreases items
  {
    match items
    case End => true
    case Let(_, value, rest) =>
      Yields(value) && Sound(value, false, values, ctxs) && !rest.End? && ItemsSound(rest, into, values, ctxs)
    case TypedLet(_, ty, value, rest) =>
      && Yields(ty) && Sound(ty, false, values, ctxs) && Sound(value, true, values, ctxs + 1)
      && !rest.End? && ItemsSound(rest, into, values, ctxs)
    case Do(e, rest) =>
      Sound(e, rest.End? && into, values, ctxs) && ItemsSound(rest, into, values, ctxs)
  }

  predicate SignatureSound(sig: Signature, values: int, ctxs: int)
    decreases sig
  {
    match sig
    case Returns(ret) => Yields(ret) && Sound(ret, false, values, ctxs)
    case Param(_, ty, rest) => Yields(ty) && Sound(ty, false, values, ctxs) && SignatureSound(rest, values + 1, ctxs)
  }

  predicate ArgsSound(args: Args)
    decreases args
  {
    match args
    case NoArgs => true
    case Arg(e, rest) => Sound(e, true, 0, 1) && ArgsSound(rest)
  }

  predicate SegmentSound(s: Segment) {
    match s
    case FunctionBody(e, _) => Sound(e, true, 0, 1)
    case Argument(e) => Sound(e, true, 0, 1)
    case VoidValue => true
    case IfBranch(e, into, expectVoid) =>
      Sound(e, into, 0, Bit(into)) && (!into ==> Yields(e)) && (expectVoid ==> into)
    case DiscardedIfBranch(e) => Sound(e, false, 0, 0)
    case LoopBody(e, step) => Sound(e, false, 0, 0) && (step.Advance? ==> Sound(step.e, false, 0, 0))
  }

  // ---------- The code ----------

  predicate OpAt(code: seq<Op>, pc: int, op: Op) {
    0 <= pc < |code| && code[pc] == op
  }

  // A hole is either still to be patched, or holds the address of its segment.
  predicate Filled(code: seq<Op>, pending: set<Fixup>, dst: nat, slot: nat, address: nat, segment: Segment)
    decreases SegmentSize(segment), 4
  {
    if address == INVALID then Fixup(dst, slot, segment) in pending
    else SegmentCoded(code, pending, address, segment)
  }

  predicate SegmentCoded(code: seq<Op>, pending: set<Fixup>, pc: nat, s: Segment)
    decreases SegmentSize(s), 3
  {
    match s
    case FunctionBody(e, hasClosure) =>
      var end := pc + Len(e, true);
      && Coded(code, pending, pc, e, true)
      && (hasClosure ==> OpAt(code, end, PopClosure))
      && OpAt(code, end + Bit(hasClosure), Return)
    case Argument(e) => Coded(code, pending, pc, e, true) && OpAt(code, pc + Len(e, true), EndCode)
    case VoidValue => OpAt(code, pc, ValueVoid(true)) && OpAt(code, pc + 1, EndCode)
    case IfBranch(e, into, expectVoid) =>
      && (expectVoid ==> OpAt(code, pc, CheckWriteCtxVoid))
      && Coded(code, pending, pc + Bit(expectVoid), e, into)
      && OpAt(code, pc + Bit(expectVoid) + Len(e, into), EndCode)
    case DiscardedIfBranch(e) =>
      DiscardCoded(code, pending, pc, e) && OpAt(code, pc + DiscardLen(e), EndCode)
    case LoopBody(e, step) =>
      var at := pc + DiscardLen(e);
      && DiscardCoded(code, pending, pc, e)
      && match step
         case NoStep => OpAt(code, at, EndCode)
         case Advance(e2) => DiscardCoded(code, pending, at, e2) && OpAt(code, at + DiscardLen(e2), EndCode)
  }

  function DiscardLen(e: Expr): nat {
    Len(e, false) + Bit(Yields(e))
  }

  predicate DiscardCoded(code: seq<Op>, pending: set<Fixup>, pc: nat, e: Expr)
    decreases Size(e), 2
  {
    Coded(code, pending, pc, e, false) && (Yields(e) ==> OpAt(code, pc + Len(e, false), DiscardVoid))
  }

  predicate Coded(code: seq<Op>, pending: set<Fixup>, pc: nat, e: Expr, into: bool)
    decreases Size(e), 1
  {
    match e
    case Lit(n) => OpAt(code, pc, ValueInteger(into, n))
    case Scoped(out, rank) => OpAt(code, pc, LoadScope(into, out, rank))
    case Closed(slot) => OpAt(code, pc, LoadClosure(into, slot))
    case GlobalRef(i) => OpAt(code, pc, LoadGlobal(into, i))
    case Unary(op, e1) => Coded(code, pending, pc, e1, false) && OpAt(code, pc + Len(e1, false), UnaryOp(into, op))
    case Binary(op, l, r) => BinaryCoded(code, pending, pc, e, into)
    case IfElse(_, _, _) => IfElseCoded(code, pending, pc, e, into)
    case IfOnly(_, _) => IfOnlyCoded(code, pending, pc, e, into)
    case For(_, _, _) => !into && ForCoded(code, pending, pc, e)
    case Block(items) =>
      && OpAt(code, pc, ScopeBegin)
      && ItemsCoded(code, pending, pc + 1, items, into)
      && OpAt(code, pc + 1 + ItemsLen(items, into), if into then ScopeEnd else ScopeEndPreserveTop)
    case Set(_, _) => SetCoded(code, pending, pc, e, into)
    case OpSet(_, _, _) => OpSetCoded(code, pending, pc, e, into)
    case Func(_, _, _) => FuncCoded(code, pending, pc, e, into)
    case Call(_, _) => CallCoded(code, pending, pc, e, into)
  }

  predicate BinaryCoded(code: seq<Op>, pending: set<Fixup>, pc: nat, e: Expr, into: bool)
    requires e.Binary?
    decreases Size(e), 0
  {
    var mid := pc + Len(e.lhs, false);
    && Coded(code, pending, pc, e.lhs, false) && Coded(code, pending, mid, e.rhs, false)
    && OpAt(code, mid + Len(e.rhs, false), BinaryOp(into, e.bop))
  }

  predicate IfElseCoded(code: seq<Op>, pending: set<Fixup>, pc: nat, e: Expr, into: bool)
    requires e.IfElse?
    decreases Size(e), 0
  {
    var at := pc + Len(e.cond, false);
    && Coded(code, pending, pc, e.cond, false)
    && at < |code| && code[at].IfElseOp? && code[at].into == into
    && Filled(code, pending, at, 0, code[at].thn, IfBranch(e.thn, into, false))
    && Filled(code, pending, at, 1, code[at].els, IfBranch(e.els, into, false))
  }

  predicate IfOnlyCoded(code: seq<Op>, pending: set<Fixup>, pc: nat, e: Expr, into: bool)
    requires e.IfOnly?
    decreases Size(e), 0
  {
    var at := pc + Len(e.cond, false);
    && Coded(code, pending, pc, e.cond, false)
    && at < |code|
    && if into then
         && code[at].IfElseOp? && code[at].into
         && Filled(code, pending, at, 0, code[at].thn, IfBranch(e.thn, true, true))
         && Filled(code, pending, at, 1, code[at].els, VoidValue)
       else
         code[at].If? && Filled(code, pending, at, 0, code[at].thn, DiscardedIfBranch(e.thn))
  }

  predicate ForCoded(code: seq<Op>, pending: set<Fixup>, pc: nat, e: Expr)
    requires e.For?
    decreases Size(e), 0
  {
    var at := pc + Len(e.cond, false);
    && Coded(code, pending, pc, e.cond, false)
    && at < |code| && code[at].Loop? && code[at].cond == pc
    && Filled(code, pending, at, 1, code[at].body, LoopBody(e.body, e.step))
  }

  predicate SetCoded(code: seq<Op>, pending: set<Fixup>, pc: nat, e: Expr, into: bool)
    requires e.Set?
    decreases Size(e), 0
  {
    var mid := pc + Len(e.target, false) + 1;
    && Coded(code, pending, pc, e.target, false) && OpAt(code, mid - 1, SetWriteCtx)
    && Coded(code, pending, mid, e.value, true)
    && (into ==> OpAt(code, mid + Len(e.value, true), ValueVoid(true)))
  }

  predicate OpSetCoded(code: seq<Op>, pending: set<Fixup>, pc: nat, e: Expr, into: bool)
    requires e.OpSet?
    decreases Size(e), 0
  {
    var mid := pc + Len(e.target, false) + 1;
    var end := mid + Len(e.value, false);
    && Coded(code, pending, pc, e.target, false) && OpAt(code, mid - 1, DuplicateToWriteCtx)
    && Coded(code, pending, mid, e.value, false) && OpAt(code, end, BinaryOp(true, e.bop))
    && (into ==> OpAt(code, end + 1, ValueVoid(true)))
  }

  predicate FuncCoded(code: seq<Op>, pending: set<Fixup>, pc: nat, e: Expr, into: bool)
    requires e.Func?
    decreases Size(e), 0
  {
    var at := pc + SignatureLen(e.signature) + 1;
    var bind := at + |e.captures|;
    && SignatureCoded(code, pending, pc, e.signature)
    && OpAt(code, at - 1, MakeSignature(ParamMuts(e.signature)))
    && CapturesCoded(code, at, e.captures)
    && bind < |code| && code[bind].BindBody? && code[bind].into == into && code[bind].count == |e.captures|
    && Filled(code, pending, bind, 0, code[bind].body, FunctionBody(e.body, |e.captures| != 0))
  }

  predicate CallCoded(code: seq<Op>, pending: set<Fixup>, pc: nat, e: Expr, into: bool)
    requires e.Call?
    decreases Size(e), 0
  {
    var at := pc + Len(e.callee, false);
    && Coded(code, pending, pc, e.callee, false)
    && at < |code| && code[at].PrepareArgs? && |code[at].arguments| == ArgCount(e.args)
    && ArgsCoded(code, pending, at, 0, code[at].arguments, e.args)
    && OpAt(code, at + 1, ExecArgs) && OpAt(code, at + 2, CallOp(into))
  }

  predicate ItemsCoded(code: seq<Op>, pending: set<Fixup>, pc: nat, items: Items, into: bool)
    decreases ItemsSize(items), 0
  {
    match items
    case End => OpAt(code, pc, ValueVoid(into))
    case Let(isMut, value, rest) =>
      var at := pc + Len(value, false);
      && Coded(code, pending, pc, value, false) && OpAt(code, at, ScopeAllocUntyped(isMut))
      && (!rest.End? ==> ItemsCoded(code, pending, at + 1, rest, into))
    case TypedLet(isMut, ty, value, rest) =>
      var at := pc + Len(ty, false);
      && Coded(code, pending, pc, ty, false) && OpAt(code, at, ScopeAllocTyped(isMut))
      && Coded(code, pending, at + 1, value, true)
      && (!rest.End? ==> ItemsCoded(code, pending, at + 1 + Len(value, true), rest, into))
    case Do(e, rest) =>
      if rest.End? then
        && Coded(code, pending, pc, e, into)
        && (!into && !Yields(e) ==> OpAt(code, pc + Len(e, into), ValueVoid(false)))
      else
        DiscardCoded(code, pending, pc, e) && ItemsCoded(code, pending, pc + DiscardLen(e), rest, into)
  }

  predicate SignatureCoded(code: seq<Op>, pending: set<Fixup>, pc: nat, sig: Signature)
    decreases SignatureSize(sig), 2
  {
    match sig
    case Returns(ret) => Coded(code, pending, pc, ret, false)
    case Param(_, ty, rest) =>
      Coded(code, pending, pc, ty, false) && SignatureCoded(code, pending, pc + Len(ty, false), rest)
  }

  function CaptureOp(c: Capture): Op {
    match c
    case FromClosure(slot) => LoadClosure(false, slot)
    case FromScope(out, rank) => LoadScope(false, out, rank)
  }

  predicate CapturesCoded(code: seq<Op>, pc: nat, captures: seq<Capture>) {
    forall i | 0 <= i < |captures| :: OpAt(code, pc + i, CaptureOp(captures[i]))
  }

  // Operands `slot` onwards of the instruction at `dst` are the arguments.
  predicate ArgsCoded(code: seq<Op>, pending: set<Fixup>, dst: nat, slot: nat, addresses: seq<nat>, args: Args)
    requires |addresses| == slot + ArgCount(args)
    decreases ArgsSize(args), 0
  {
    match args
    case NoArgs => true
    case Arg(e, rest) =>
      && Filled(code, pending, dst, slot, addresses[slot], Argument(e))
      && ArgsCoded(code, pending, dst, slot + 1, addresses, rest)
  }
}
