/** Where the compiler's accounting goes wrong, on three inputs: what it emits for them, whether it
    notices, and how the interpreter ends. */
module Miscounting {
  import opened Basics
  import opened Lang
  import opened Machine
  import opened Coding
  import opened Emission
  import opened EmissionCases
  import opened Emitter
  import opened Accounting
  import opened Worklist
  import opened OpcodePools

  const NEW_POOL: Pool := Pool([EndCode], [], 0, 0, 0, 0, true)

  // `x = { 1 }` as the body of a function without a result.
  const MISCOUNTED: Expr := Set(Scoped(0, 0), Block(Do(Lit(1), End)))

  // Its code: the block finds one open write context, the function's, and takes it for its own.
  const MISCOUNTED_CODE: seq<Op> := [
    EndCode,
    LoadScope(false, 0, 0), SetWriteCtx, ScopeBegin, ValueInteger(true, 1), ValueVoid(true), ScopeEnd, ValueVoid(true),
    Return]

  // `{ mut x = 1; if 1 == 1 then x = 2 else x = 3; 5 }`.
  function Assigning(n: int): Expr {
    Set(Scoped(0, 0), Lit(n))
  }

  const CONDITIONAL: Expr := IfElse(COMPARED, Assigning(2), Assigning(3))
  const VALUELESS: Expr := Block(Let(true, Lit(1), Do(CONDITIONAL, Do(Lit(5), End))))

  // The branches leave no value, but the value of the conditional is discarded.
  const VALUELESS_CODE: seq<Op> := [
    EndCode,
    ScopeBegin, ValueInteger(false, 1), ScopeAllocUntyped(true),
    ValueInteger(false, 1), ValueInteger(false, 1), BinaryOp(false, Equal), IfElseOp(false, 16, 12), DiscardVoid,
    ValueInteger(false, 5), ScopeEndPreserveTop, EndCode,
    LoadScope(false, 0, 0), SetWriteCtx, ValueInteger(true, 3), EndCode,
    LoadScope(false, 0, 0), SetWriteCtx, ValueInteger(true, 2), EndCode]

  // `{ mut x = 1; -(x = 2) }`.
  const OPERANDLESS: Expr := Block(Let(true, Lit(1), Do(Unary(Negate, Assigning(2)), End)))

  // The operand leaves no value, but one is negated.
  const OPERANDLESS_CODE: seq<Op> := [
    EndCode,
    ScopeBegin, ValueInteger(false, 1), ScopeAllocUntyped(true),
    LoadScope(false, 0, 0), SetWriteCtx, ValueInteger(true, 2), UnaryOp(false, Negate), ValueVoid(false),
    ScopeEndPreserveTop, EndCode]

  // ---------- What is emitted ----------

  // The first `k` instructions of `code` have been emitted.
  function Upto(code: seq<Op>, k: nat, fixups: seq<Fixup>, values: int, scopes: int, ctxs: int, asserted: bool): Pool
    requires k <= |code|
  {
    Pool(code[..k], fixups, values, scopes, ctxs, 0, asserted)
  }

  lemma Next1(code: seq<Op>, k: nat, fixups: seq<Fixup>, p: Pool, op: Op)
    requires k < |code| && code[k] == op && p.codes == code[..k] && p.fixups == fixups && p.closures == 0
    requires OpcodeEffects(op).closures == 0
    ensures var f := OpcodeEffects(op);
      var (v, s, c) := (p.values + f.values, p.scopes + f.scopes, p.ctxs + f.ctxs);
      Emit(p, op) == Upto(code, k + 1, fixups, v, s, c, p.asserted && v >= 0 && s >= 0 && c >= 0)
  {
    assert code[..k] + [op] == code[..k + 1];
  }

  // An assignment to the first variable, as emitted behind the first `k` instructions.
  lemma AssigningFrom(code: seq<Op>, k: nat, p: Pool, n: int)
    requires k + 3 <= |code| && p.codes == code[..k] && p.closures == 0 && p.NonNegative()
    requires code[k] == LoadScope(false, 0, 0) && code[k + 1] == SetWriteCtx && code[k + 2] == ValueInteger(true, n)
    ensures ExprFrom(p, Assigning(n), false)
      == Going(Upto(code, k + 3, p.fixups, p.values, p.scopes, p.ctxs, p.asserted))
  {
    hide Emit;
    var e := Assigning(n);
    Next1(code, k, p.fixups, p, LoadScope(false, 0, 0));
    var p1 := Emit(p, LoadScope(false, 0, 0));
    Next1(code, k + 1, p.fixups, p1, SetWriteCtx);
    var p2 := Emit(p1, SetWriteCtx);
    Next1(code, k + 2, p.fixups, p2, ValueInteger(true, n));
    assert ExprFrom(p, e.target, false) == Going(p1);
    assert ExprFrom(p2, e.value, true) == Going(Emit(p2, ValueInteger(true, n)));
    assert SetFrom(p, e, false) == Going(Emit(p2, ValueInteger(true, n)));
  }

  // `{ 1 }` in a write context, with another one open: the test behind the items takes that one
  // for the block's.
  lemma MiscountedValue(code: seq<Op>, p: Pool, items: Items)
    requires |code| >= 7 && p == Upto(code, 3, [], 0, 0, 2, true) && items == Do(Lit(1), End)
    requires code[3] == ScopeBegin && code[4] == ValueInteger(true, 1) && code[5] == ValueVoid(true)
    requires code[6] == ScopeEnd
    ensures BlockFrom(p, Block(items), true) == Going(Upto(code, 7, [], 0, 0, 0, true))
  {
    hide Emit;
    Next1(code, 3, [], p, ScopeBegin);
    var p1 := Emit(p, ScopeBegin);
    Next1(code, 4, [], p1, ValueInteger(true, 1));
    var p2 := Emit(p1, ValueInteger(true, 1));
    assert ExprFrom(p1, Lit(1), true) == Going(p2);
    assert StatementFrom(p1, Lit(1), true, true) == Going(p2);
    assert ItemsFrom(p2, End, true) == Going(p2);
    assert ItemsFrom(p1, items, true) == Going(p2);
    Next1(code, 5, [], p2, ValueVoid(true));
    Next1(code, 6, [], Emit(p2, ValueVoid(true)), ScopeEnd);
  }

  lemma MiscountedFrom()
    ensures SegmentFrom(NEW_POOL, FunctionBody(MISCOUNTED, false))
      == Going(Pool(MISCOUNTED_CODE, [], 0, 0, -1, 0, false))
  {
    hide Emit, BlockFrom;
    var code, e := MISCOUNTED_CODE, MISCOUNTED;
    var p := NEW_POOL.(ctxs := 1, closures := 0);
    assert p.codes == code[..1];
    Next1(code, 1, [], p, code[1]);
    var p1 := Emit(p, code[1]);
    assert ExprFrom(p, e.target, false) == Going(p1);
    Next1(code, 2, [], p1, code[2]);
    MiscountedValue(code, Emit(p1, code[2]), Do(Lit(1), End));
    var p2 := Upto(code, 7, [], 0, 0, 0, true);
    assert ExprFrom(Emit(p1, code[2]), e.value, true) == Going(p2);
    Next1(code, 7, [], p2, code[7]);
    var p3 := Emit(p2, code[7]);
    assert SetFrom(p, e, true) == Going(p3);
    Next1(code, 8, [], p3, code[8]);
    assert code[..9] == code;
  }

  /** The compiler emits this code for the function body, and its own assertion that no depth is
      negative fails behind the last `ValueVoid`. */
  method CompileMiscounted() returns (code: seq<Op>, openCtxs: int, ghost asserted: bool)
    ensures code == MISCOUNTED_CODE && openCtxs == -1 && !asserted
  {
    hide SegmentFrom;
    var pool := new OpcodePool();
    MiscountedFrom();
    var _ := pool.CompleteFixup(FunctionBody(MISCOUNTED, false));
    code, openCtxs, asserted := pool.codes, pool.ctxs, pool.asserted;
  }

  // A branch that assigns: it ends without the value that is taken from it.
  lemma AssigningBranch(code: seq<Op>, k: nat, p: Pool, n: int)
    requires k + 4 <= |code| && p.codes == code[..k] && p.AtZero()
    requires code[k] == LoadScope(false, 0, 0) && code[k + 1] == SetWriteCtx && code[k + 2] == ValueInteger(true, n)
    requires code[k + 3] == EndCode
    ensures SegmentFrom(p, IfBranch(Assigning(n), false, false)) == Going(Upto(code, k + 4, p.fixups, -1, 0, 0, false))
  {
    hide Emit, ExprFrom;
    AssigningFrom(code, k, p, n);
    var q := Upto(code, k + 3, p.fixups, p.values, p.scopes, p.ctxs, p.asserted);
    assert p.(ctxs := 0) == p;
    Next1(code, k + 3, p.fixups, q, EndCode);
  }

  const THN: Fixup := Fixup(7, 0, IfBranch(Assigning(2), false, false))
  const ELS: Fixup := Fixup(7, 1, IfBranch(Assigning(3), false, false))

  // Before the branches are compiled.
  const OPEN_CODE: seq<Op> := VALUELESS_CODE[..12][7 := IfElseOp(false, INVALID, INVALID)]

  // `1 == 1`.
  const COMPARED: Expr := Binary(Equal, Lit(1), Lit(1))

  lemma ComparedFrom(code: seq<Op>, k: nat, p: Pool)
    requires k + 3 <= |code| && p.codes == code[..k] && p.closures == 0 && p.NonNegative()
    requires code[k] == ValueInteger(false, 1) == code[k + 1] && code[k + 2] == BinaryOp(false, Equal)
    ensures ExprFrom(p, COMPARED, false)
      == Going(Upto(code, k + 3, p.fixups, p.values + 1, p.scopes, p.ctxs, p.asserted))
  {
    hide Emit;
    Next1(code, k, p.fixups, p, ValueInteger(false, 1));
    var p1 := Emit(p, ValueInteger(false, 1));
    Next1(code, k + 1, p.fixups, p1, ValueInteger(false, 1));
    var p2 := Emit(p1, ValueInteger(false, 1));
    Next1(code, k + 2, p.fixups, p2, BinaryOp(false, Equal));
    assert ExprFrom(p, Lit(1), false) == Going(p1);
    assert ExprFrom(p1, Lit(1), false) == Going(p2);
    assert BinaryFrom(p, COMPARED, false) == Going(Emit(p2, BinaryOp(false, Equal)));
  }

  lemma ConditionalFrom(code: seq<Op>, p: Pool)
    requires |code| >= 8 && p == Upto(code, 4, [], 0, 1, 0, true)
    requires code[4] == ValueInteger(false, 1) == code[5] && code[6] == BinaryOp(false, Equal)
    requires code[7] == IfElseOp(false, INVALID, INVALID)
    ensures ExprFrom(p, CONDITIONAL, false) == Going(Upto(code, 8, [THN, ELS], 1, 1, 0, true))
  {
    hide Emit, ExprFrom;
    ComparedFrom(code, 4, p);
    var q, op := Upto(code, 7, [], 1, 1, 0, true), IfElseOp(false, INVALID, INVALID);
    Next1(code, 7, [], q, op);
    assert q.fixups + [THN, ELS] == [THN, ELS];
    assert EmitWith(q, op, [THN, ELS]) == Upto(code, 8, [THN, ELS], 1, 1, 0, true);
    ConditionalParts(p, q);
  }

  lemma ConditionalParts(p: Pool, q: Pool)
    requires ExprFrom(p, COMPARED, false) == Going(q) && |q.codes| == 7
    ensures ExprFrom(p, CONDITIONAL, false)
      == Going(EmitWith(q, IfElseOp(false, INVALID, INVALID), [THN, ELS]))
  {
    hide EmitWith;
    assert IfElseFrom(p, CONDITIONAL, false)
      == Going(EmitWith(q, IfElseOp(false, INVALID, INVALID), IfElseFixups(7, CONDITIONAL, false)));
  }

  // A definition and what follows it.
  lemma DefinitionThen(code: seq<Op>, k: nat, p: Pool, n: int, rest: Items)
    requires k + 2 <= |code| && p.codes == code[..k] && p.fixups == [] && p.closures == 0 && p.NonNegative()
    requires code[k] == ValueInteger(false, n) && code[k + 1] == ScopeAllocUntyped(true) && !rest.End?
    ensures ItemsFrom(p, Let(true, Lit(n), rest), false)
      == ItemsFrom(Upto(code, k + 2, [], p.values, p.scopes, p.ctxs, p.asserted), rest, false)
  {
    hide Emit;
    var items := Let(true, Lit(n), rest);
    Next1(code, k, [], p, code[k]);
    var p1 := Emit(p, code[k]);
    Next1(code, k + 1, [], p1, code[k + 1]);
    assert ExprFrom(p, items.value, false) == Going(p1);
    assert DefinitionFrom(p, items) == Going(Emit(p1, code[k + 1]));
  }

  // A statement whose value is discarded, and what follows it.
  lemma DiscardThen(code: seq<Op>, k: nat, p: Pool, e: Expr, q: Pool, rest: Items)
    requires ExprFrom(p, e, false) == Going(q) && q.values == p.values + 1 && !rest.End?
    requires k < |code| && code[k] == DiscardVoid && q.codes == code[..k] && q.closures == 0 && p.NonNegative()
    requires q.scopes >= 0 && q.ctxs >= 0
    ensures ItemsFrom(p, Do(e, rest), false)
      == ItemsFrom(Upto(code, k + 1, q.fixups, p.values, q.scopes, q.ctxs, q.asserted), rest, false)
  {
    hide Emit, ExprFrom;
    Next1(code, k, q.fixups, q, DiscardVoid);
    assert StatementFrom(p, e, false, false) == Going(Emit(q, DiscardVoid));
  }

  lemma LastLiteral(code: seq<Op>, k: nat, p: Pool, n: int)
    requires k < |code| && code[k] == ValueInteger(false, n) && p.codes == code[..k] && p.closures == 0
    requires p.NonNegative()
    ensures ItemsFrom(p, Do(Lit(n), End), false)
      == Going(Upto(code, k + 1, p.fixups, p.values + 1, p.scopes, p.ctxs, p.asserted))
  {
    hide Emit;
    Next1(code, k, p.fixups, p, ValueInteger(false, n));
    var q := Emit(p, ValueInteger(false, n));
    assert ExprFrom(p, Lit(n), false) == Going(q);
    assert StatementFrom(p, Lit(n), true, false) == Going(q);
    assert ItemsFrom(q, End, false) == Going(q);
  }

  // A definition, the conditional `c` with the code up to `q`, and `5`.
  lemma ValuelessItems(code: seq<Op>, p: Pool, c: Expr, q: Pool, last: Items)
    requires |code| >= 10 && p == Upto(code, 2, [], 0, 1, 0, true) && last == Do(Lit(5), End)
    requires code[2] == ValueInteger(false, 1) && code[3] == ScopeAllocUntyped(true) && code[8] == DiscardVoid
    requires code[9] == ValueInteger(false, 5) && q == Upto(code, 8, [THN, ELS], 1, 1, 0, true)
    requires ExprFrom(Upto(code, 4, [], 0, 1, 0, true), c, false) == Going(q)
    ensures ItemsFrom(p, Let(true, Lit(1), Do(c, last)), false) == Going(Upto(code, 10, [THN, ELS], 1, 1, 0, true))
  {
    hide Emit, ItemsFrom, ExprFrom;
    var p1, p2 := Upto(code, 4, [], 0, 1, 0, true), Upto(code, 9, [THN, ELS], 0, 1, 0, true);
    DefinitionThen(code, 2, p, 1, Do(c, last));
    DiscardThen(code, 8, p1, c, q, last);
    LastLiteral(code, 9, p2, 5);
  }

  // A block for its value.
  lemma BlockValue(code: seq<Op>, items: Items, fixups: seq<Fixup>)
    requires |code| >= 4 && code[0] == EndCode && code[1] == ScopeBegin
    requires code[|code| - 2] == ScopeEndPreserveTop && code[|code| - 1] == EndCode
    requires ItemsFrom(Upto(code, 2, [], 0, 1, 0, true), items, false)
      == Going(Upto(code, |code| - 2, fixups, 1, 1, 0, true))
    ensures Holes(NEW_POOL) && ValueStart(NEW_POOL) == NEW_POOL
    ensures var r := ExprFrom(NEW_POOL, Block(items), false);
      r.Going? && ValueEnd(r.pool) == Pool(code, fixups, 0, 0, 0, 0, true)
  {
    hide Emit, ItemsFrom;
    var k := |code| - 2;
    assert NEW_POOL.codes == code[..1];
    Next1(code, 1, [], NEW_POOL, ScopeBegin);
    var p := Upto(code, k, fixups, 1, 1, 0, true);
    Next1(code, k, fixups, p, ScopeEndPreserveTop);
    assert BlockFrom(NEW_POOL, Block(items), false) == Going(Emit(p, ScopeEndPreserveTop));
    var q := Upto(code, k + 1, fixups, 0, 0, 0, true);
    Next1(code, k + 1, fixups, q, EndCode);
    assert code[..k + 2] == code;
  }

  // The instructions of `VALUELESS`.
  predicate IsOpenCode(code: seq<Op>) {
    && |code| == 12 && code[0] == EndCode && code[1] == ScopeBegin && code[2] == ValueInteger(false, 1)
    && code[3] == ScopeAllocUntyped(true) && code[4] == ValueInteger(false, 1) == code[5]
    && code[6] == BinaryOp(false, Equal) && code[7] == IfElseOp(false, INVALID, INVALID) && code[8] == DiscardVoid
    && code[9] == ValueInteger(false, 5) && code[10] == ScopeEndPreserveTop && code[11] == EndCode
  }

  lemma OpenCode()
    ensures IsOpenCode(OPEN_CODE)
  {
  }

  lemma ValuelessBlock(code: seq<Op>)
    requires IsOpenCode(code)
    ensures ItemsFrom(Upto(code, 2, [], 0, 1, 0, true), VALUELESS.items, false)
      == Going(Upto(code, 10, [THN, ELS], 1, 1, 0, true))
  {
    hide Emit, ItemsFrom, ExprFrom;
    ConditionalFrom(code, Upto(code, 4, [], 0, 1, 0, true));
    ValuelessItems(code, Upto(code, 2, [], 0, 1, 0, true), CONDITIONAL, Upto(code, 8, [THN, ELS], 1, 1, 0, true),
      Do(Lit(5), End));
  }

  // The last hole, for a branch that assigns: it is patched, and the branch fails the compiler's
  // assertion that it leaves a value.
  lemma LastAssigning(p: Pool, code: seq<Op>, n: int)
    requires Holes(p) && p.fixups != [] && LastFixup(p).segment == IfBranch(Assigning(n), false, false)
    requires |code| == |p.codes| + 4 && Opened(p).codes == code[..|p.codes|]
    requires code[|p.codes|..] == [LoadScope(false, 0, 0), SetWriteCtx, ValueInteger(true, n), EndCode]
    ensures var q := Pool(code, p.fixups[..|p.fixups| - 1], -1, 0, 0, 0, false);
      Holes(q) && FixupsFrom(p) == FixupsFrom(q)
  {
    hide Holes, SegmentFrom, TotalSize;
    var k, q := |p.codes|, Opened(p);
    assert forall i | 0 <= i < 4 :: code[k + i] == code[k..][i];
    AssigningBranch(code, k, q, n);
    assert code[..k + 4] == code;
    assert LastFrom(p) == Going(Pool(code, q.fixups, -1, 0, 0, 0, false));
    LastGrows(p);
  }

  lemma ValuelessFixups(p: Pool)
    requires p == Pool(OPEN_CODE, [THN, ELS], 0, 0, 0, 0, true) && Holes(p)
    ensures FixupsFrom(p) == Going(Pool(VALUELESS_CODE, [], -1, 0, 0, 0, false))
  {
    hide Holes, SegmentFrom, TotalSize, FixupsFrom;
    var mid := VALUELESS_CODE[..16][7 := IfElseOp(false, INVALID, 12)];
    assert Opened(p).codes == mid[..12];
    LastAssigning(p, mid, 3);
    assert p.fixups[..1] == [THN];
    var p1 := Pool(mid, [THN], -1, 0, 0, 0, false);
    assert Opened(p1).codes == VALUELESS_CODE[..16];
    LastAssigning(p1, VALUELESS_CODE, 2);
    assert p1.fixups[..0] == [];
    NothingLeft(Pool(VALUELESS_CODE, [], -1, 0, 0, 0, false));
  }

  lemma NothingLeft(p: Pool)
    requires Holes(p) && p.fixups == []
    ensures FixupsFrom(p) == Going(p)
  {
  }

  // The value, then everything deferred.
  lemma ThenFixups(e: Expr, p: Pool, q: Pool)
    requires Holes(NEW_POOL) && ValueStart(NEW_POOL) == NEW_POOL && Holes(p)
    requires ExprFrom(NEW_POOL, e, false).Going? && ValueEnd(ExprFrom(NEW_POOL, e, false).pool) == p
    requires FixupsFrom(p) == Going(q)
    ensures ValueFrom(NEW_POOL, e) == Going(q)
  {
    hide ExprFrom, FixupsFrom, ValueEnd, ValueStart, Holes;
  }

  lemma ValuelessValue(code: seq<Op>, e: Expr)
    requires IsOpenCode(code) && e == VALUELESS
    ensures Holes(NEW_POOL) && ValueStart(NEW_POOL) == NEW_POOL && Holes(Pool(code, [THN, ELS], 0, 0, 0, 0, true))
    ensures var r := ExprFrom(NEW_POOL, e, false);
      r.Going? && ValueEnd(r.pool) == Pool(code, [THN, ELS], 0, 0, 0, 0, true)
  {
    hide ExprFrom, FixupsFrom, ItemsFrom, ValueEnd;
    ValuelessBlock(code);
    BlockValue(code, VALUELESS.items, [THN, ELS]);
    ValueEndHoles(NEW_POOL, e);
  }

  lemma ValuelessFrom(e: Expr)
    requires e == VALUELESS
    ensures Holes(NEW_POOL) && ValueFrom(NEW_POOL, e) == Going(Pool(VALUELESS_CODE, [], -1, 0, 0, 0, false))
  {
    hide ExprFrom, FixupsFrom, ValueEnd, ValueStart, Holes, IsOpenCode, ValueFrom;
    OpenCode();
    ValuelessValue(OPEN_CODE, e);
    var p := Pool(OPEN_CODE, [THN, ELS], 0, 0, 0, 0, true);
    ValuelessFixups(p);
    ThenFixups(e, p, Pool(VALUELESS_CODE, [], -1, 0, 0, 0, false));
  }

  /** The compiler emits this code for the block, and its assertion that a branch of a conditional
      with a value leaves one fails. */
  method CompileValueless() returns (code: seq<Op>, first: nat, ghost asserted: bool)
    ensures code == VALUELESS_CODE && first == 1 && !asserted
  {
    hide ValueFrom, ValueRight, Tiled, Kept, Sound, ExprFrom, Accepted;
    ValuelessFrom(VALUELESS);
    var pool := new OpcodePool();
    var trouble;
    ghost var placed;
    trouble, first, placed := pool.OpcodesFromValue(VALUELESS);
    code, asserted := pool.codes, pool.asserted;
  }

  // `-(x = 2)` as the last statement of a block.
  lemma OperandlessItems(code: seq<Op>, p: Pool, e: Expr)
    requires |code| >= 9 && p == Upto(code, 4, [], 0, 1, 0, true) && e == Unary(Negate, Assigning(2))
    requires code[4] == LoadScope(false, 0, 0) && code[5] == SetWriteCtx && code[6] == ValueInteger(true, 2)
    requires code[7] == UnaryOp(false, Negate) && code[8] == ValueVoid(false)
    ensures ItemsFrom(p, Do(e, End), false) == Going(Upto(code, 9, [], 1, 1, 0, true))
  {
    hide Emit, ExprFrom;
    AssigningFrom(code, 4, p, 2);
    var p1 := Upto(code, 7, [], 0, 1, 0, true);
    Next1(code, 7, [], p1, UnaryOp(false, Negate));
    var p2 := Upto(code, 8, [], 0, 1, 0, true);
    UnaryIs(p, e, p1);
    Next1(code, 8, [], p2, ValueVoid(false));
    LastValueless(p, e, p2);
  }

  lemma LastValueless(p: Pool, e: Expr, q: Pool)
    requires ExprFrom(p, e, false) == Going(q) && q.values == p.values && q.ctxs == p.ctxs
    ensures var r := Emit(q, ValueVoid(false));
      ItemsFrom(p, Do(e, End), false) == Going(r.Assert(r.values == p.values + 1))
  {
    hide Emit, ExprFrom;
    var r := Emit(q, ValueVoid(false));
    var last := r.Assert(r.values == p.values + 1);
    assert StatementFrom(p, e, true, false) == Going(last);
    assert ItemsFrom(last, End, false) == Going(last);
  }

  lemma UnaryIs(p: Pool, e: Expr, q: Pool)
    requires e.Unary? && ExprFrom(p, e.operand, false) == Going(q)
    ensures ExprFrom(p, e, false) == Going(Emit(q, UnaryOp(false, e.uop)))
  {
    hide Emit;
    assert UnaryFrom(p, e, false) == Going(Emit(q, UnaryOp(false, e.uop)));
  }

  lemma OperandlessBlock(code: seq<Op>)
    requires code == OPERANDLESS_CODE
    ensures ItemsFrom(Upto(code, 2, [], 0, 1, 0, true), OPERANDLESS.items, false)
      == Going(Upto(code, 9, [], 1, 1, 0, true))
  {
    hide Emit, ItemsFrom, ExprFrom;
    var e := Unary(Negate, Assigning(2));
    DefinitionThen(code, 2, Upto(code, 2, [], 0, 1, 0, true), 1, Do(e, End));
    OperandlessItems(code, Upto(code, 4, [], 0, 1, 0, true), e);
  }

  lemma OperandlessFrom(e: Expr)
    requires e == OPERANDLESS
    ensures Holes(NEW_POOL) && ValueFrom(NEW_POOL, e) == Going(Pool(OPERANDLESS_CODE, [], 0, 0, 0, 0, true))
  {
    hide ExprFrom, FixupsFrom, ItemsFrom, ValueEnd;
    OperandlessBlock(OPERANDLESS_CODE);
    BlockValue(OPERANDLESS_CODE, OPERANDLESS.items, []);
    ValueEndHoles(NEW_POOL, e);
    NothingLeft(Pool(OPERANDLESS_CODE, [], 0, 0, 0, 0, true));
  }

  /** Here no assertion of the compiler fails. */
  method CompileOperandless() returns (code: seq<Op>, first: nat, ghost asserted: bool)
    ensures code == OPERANDLESS_CODE && first == 1 && asserted
  {
    hide ValueFrom, ValueRight, Tiled, Kept, Sound, ExprFrom, Accepted;
    OperandlessFrom(OPERANDLESS);
    var pool := new OpcodePool();
    var trouble;
    ghost var placed;
    trouble, first, placed := pool.OpcodesFromValue(OPERANDLESS);
    code, asserted := pool.codes, pool.asserted;
  }
}
