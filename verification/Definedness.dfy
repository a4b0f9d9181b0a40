/** Which expressions have a defined meaning: those that are resolved and accepted, and in which
    no block that is to leave a value can leave a place of its own scope. */
module Definedness {
  import opened Basics
  import opened Lang
  import Emission

  // ---------- What is checked ----------

  /** How many members the scopes of the running function have, innermost last, and how many its
      closure has. */
  datatype Shape = Shape(counts: seq<nat>, slots: nat)

  predicate MemberInRange(sh: Shape, out: nat, rank: nat) {
    out < |sh.counts| && rank < sh.counts[|sh.counts| - 1 - out]
  }

  predicate CaptureInRange(sh: Shape, c: Capture) {
    match c
    case FromClosure(slot) => slot < sh.slots
    case FromScope(out, rank) => MemberInRange(sh, out, rank)
  }

  function Inner(sh: Shape): Shape {
    sh.(counts := sh.counts + [0])
  }

  function Longer(sh: Shape): Shape
    requires |sh.counts| > 0
  {
    sh.(counts := sh.counts[..|sh.counts| - 1] + [sh.counts[|sh.counts| - 1] + 1])
  }

  /** All addresses lead to something. */
  predicate Ranged(e: Expr, globals: int, sh: Shape)
    decreases e
  {
    match e
    case Lit(_) => true
    case Scoped(out, rank) => MemberInRange(sh, out, rank)
    case Closed(slot) => slot < sh.slots
    case GlobalRef(i) => i < globals
    case Unary(_, e1) => Ranged(e1, globals, sh)
    case Binary(_, l, r) => Ranged(l, globals, sh) && Ranged(r, globals, sh)
    case IfElse(c, t, f) => Ranged(c, globals, sh) && Ranged(t, globals, sh) && Ranged(f, globals, sh)
    case IfOnly(c, t) => Ranged(c, globals, sh) && Ranged(t, globals, sh)
    case For(c, body, step) =>
      Ranged(c, globals, sh) && Ranged(body, globals, sh) && (step.Advance? ==> Ranged(step.e, globals, sh))
    case Block(items) => ItemsRanged(items, globals, Inner(sh))
    case Set(target, value) => Ranged(target, globals, sh) && Ranged(value, globals, sh)
    case OpSet(_, target, value) => Ranged(target, globals, sh) && Ranged(value, globals, sh)
    case Func(sig, captures, body) =>
      && SignatureRanged(sig, globals, sh) && (forall i | 0 <= i < |captures| :: CaptureInRange(sh, captures[i]))
      && Ranged(body, globals, Shape([|ParamMuts(sig)|], |captures|))
    case Call(callee, args) => Ranged(callee, globals, sh) && ArgsRanged(args, globals, sh)
  }

  predicate ItemsRanged(items: Items, globals: int, sh: Shape)
    decreases items
  {
    |sh.counts| > 0 && match items
    case End => true
    case Let(_, value, rest) => Ranged(value, globals, sh) && ItemsRanged(rest, globals, Longer(sh))
    case TypedLet(_, ty, value, rest) =>
      Ranged(ty, globals, sh) && Ranged(value, globals, sh) && ItemsRanged(rest, globals, Longer(sh))
    case Do(e, rest) => Ranged(e, globals, sh) && ItemsRanged(rest, globals, sh)
  }

  predicate SignatureRanged(sig: Signature, globals: int, sh: Shape)
    decreases sig
  {
    match sig
    case Returns(ret) => Ranged(ret, globals, sh)
    case Param(_, ty, rest) => Ranged(ty, globals, sh) && SignatureRanged(rest, globals, sh)
  }

  predicate ArgsRanged(args: Args, globals: int, sh: Shape)
    decreases args
  {
    match args
    case NoArgs => true
    case Arg(e, rest) => Ranged(e, globals, sh) && ArgsRanged(rest, globals, sh)
  }

  /** The value of `e` may be a place of the scope `out` scopes further out. */
  predicate MayLeave(e: Expr, out: nat)
    decreases e
  {
    match e
    case Scoped(o, _) => o == out
    case IfElse(_, t, f) => MayLeave(t, out) || MayLeave(f, out)
    case Block(items) => ItemsMayLeave(items, out + 1)
    case _ => false
  }

  predicate ItemsMayLeave(items: Items, out: nat)
    decreases items
  {
    match items
    case End => false
    case Let(_, _, rest) => ItemsMayLeave(rest, out)
    case TypedLet(_, _, _, rest) => ItemsMayLeave(rest, out)
    case Do(e, rest) => if rest.End? then MayLeave(e, out) else ItemsMayLeave(rest, out)
  }

  /** No block without a write context can leave a place of its own scope, which ends with it. */
  predicate Tidy(e: Expr, into: bool)
    decreases e
  {
    match e
    case Unary(_, e1) => Tidy(e1, false)
    case Binary(_, l, r) => Tidy(l, false) && Tidy(r, false)
    case IfElse(c, t, f) => Tidy(c, false) && Tidy(t, into) && Tidy(f, into)
    case IfOnly(c, t) => Tidy(c, false) && Tidy(t, into)
    case For(c, body, step) => Tidy(c, false) && Tidy(body, false) && (step.Advance? ==> Tidy(step.e, false))
    case Block(items) => ItemsTidy(items, into) && (into || !ItemsMayLeave(items, 0))
    case Set(target, value) => Tidy(target, false) && Tidy(value, true)
    case OpSet(_, target, value) => Tidy(target, false) && Tidy(value, false)
    case Func(sig, _, body) => SignatureTidy(sig) && Tidy(body, true)
    case Call(callee, args) => Tidy(callee, false) && ArgsTidy(args)
    case _ => true
  }

  predicate ItemsTidy(items: Items, into: bool)
    decreases items
  {
    match items
    case End => true
    case Let(_, value, rest) => Tidy(value, false) && ItemsTidy(rest, into)
    case TypedLet(_, ty, value, rest) => Tidy(ty, false) && Tidy(value, true) && ItemsTidy(rest, into)
    case Do(e, rest) => Tidy(e, rest.End? && into) && ItemsTidy(rest, into)
  }

  predicate SignatureTidy(sig: Signature)
    decreases sig
  {
    match sig
    case Returns(ret) => Tidy(ret, false)
    case Param(_, ty, rest) => Tidy(ty, false) && SignatureTidy(rest)
  }

  predicate ArgsTidy(args: Args)
    decreases args
  {
    match args
    case NoArgs => true
    case Arg(e, rest) => Tidy(e, true) && ArgsTidy(rest)
  }

  predicate Safe(e: Expr, globals: int, sh: Shape, into: bool) {
    Ranged(e, globals, sh) && Tidy(e, into) && Emission.Accepted(e, into)
  }

  // ---------- What holds during the evaluation ----------

  // Function values have safe bodies.
  predicate Good(globals: int, v: V)
    decreases v
  {
    v.VFunc? ==>
      && Safe(v.body, globals, Shape([|v.params|], |v.closure|), true)
      && forall i | 0 <= i < |v.closure| :: Good(globals, v.closure[i])
  }

  predicate GoodCell(globals: int, c: Cell<Expr>) {
    c.val.TypeOf() == c.ty && Good(globals, c.val)
  }

  predicate GoodCells(globals: int, cells: seq<Cell<Expr>>) {
    forall r | 0 <= r < |cells| :: GoodCell(globals, cells[r])
  }

  predicate EnvOk(globals: int, env: Env, sh: Shape) {
    && |env.scopes| == |sh.counts| && |env.closure| == sh.slots
    && (forall s | 0 <= s < |env.scopes| :: |env.scopes[s]| == sh.counts[s] && GoodCells(globals, env.scopes[s]))
    && (forall i | 0 <= i < |env.closure| :: Good(globals, env.closure[i]))
  }

  predicate SameTypes(a: seq<Cell<Expr>>, b: seq<Cell<Expr>>) {
    |a| <= |b| && forall r | 0 <= r < |a| :: b[r].ty == a[r].ty
  }

  // Places stay and keep their types.
  predicate Kept(a: Env, b: Env) {
    |a.scopes| == |b.scopes| && forall s | 0 <= s < |a.scopes| :: SameTypes(a.scopes[s], b.scopes[s])
  }

  predicate GoodOperand(globals: int, env: Env, o: Operand) {
    Readable(env, o) && Good(globals, Read(env, o))
  }

  // `o` is a place only where `e` may leave one.
  predicate Leaves(env: Env, o: Operand, e: Expr) {
    o.Place? ==> o.scope < |env.scopes| && MayLeave(e, |env.scopes| - 1 - o.scope)
  }

  predicate Fits(o: Operand, mode: Mode) {
    mode.Into? ==> o.Temp? && o.v.TypeOf() == mode.ty
  }

  // An expression is evaluated in a given shape.
  predicate Evaluated(globals: int, e: Expr, env: Env, sh: Shape, mode: Mode, r: Result<Operand>) {
    && !r.Undefined?
    && (r.Done? ==>
          && EnvOk(globals, r.env, sh) && Kept(env, r.env) && GoodOperand(globals, r.env, r.value)
          && Fits(r.value, mode) && (mode.Push? ==> Leaves(r.env, r.value, e)))
  }

  lemma KeptTrans(a: Env, b: Env, c: Env)
    requires Kept(a, b) && Kept(b, c)
    ensures Kept(a, c)
  {
    forall s | 0 <= s < |a.scopes|
      ensures SameTypes(a.scopes[s], c.scopes[s])
    {
      assert SameTypes(a.scopes[s], b.scopes[s]) && SameTypes(b.scopes[s], c.scopes[s]);
    }
  }

  // An operand stays good, with a value of the same type.
  lemma StillGood(globals: int, a: Env, b: Env, sh: Shape, sh': Shape, o: Operand)
    requires EnvOk(globals, a, sh) && EnvOk(globals, b, sh') && Kept(a, b) && GoodOperand(globals, a, o)
    ensures GoodOperand(globals, b, o) && Read(b, o).TypeOf() == Read(a, o).TypeOf()
    ensures OperandType(b, o) == OperandType(a, o)
  {
    hide Good;
    if o.Place? {
      assert SameTypes(a.scopes[o.scope], b.scopes[o.scope]);
      assert GoodCells(globals, a.scopes[o.scope]) && GoodCells(globals, b.scopes[o.scope]);
      assert GoodCell(globals, a.scopes[o.scope][o.rank]) && GoodCell(globals, b.scopes[o.scope][o.rank]);
    }
  }

  lemma ReadType(globals: int, env: Env, sh: Shape, o: Operand)
    requires EnvOk(globals, env, sh) && GoodOperand(globals, env, o)
    ensures Read(env, o).TypeOf() == OperandType(env, o)
  {
    hide Good;
    if o.Place? {
      assert GoodCells(globals, env.scopes[o.scope]);
      assert GoodCell(globals, env.scopes[o.scope][o.rank]);
    }
  }

  lemma KeptSelf(env: Env)
    ensures Kept(env, env)
  {
  }

  // A computed value.
  lemma Finished(globals: int, e: Expr, env0: Env, env: Env, sh: Shape, mode: Mode, v: V)
    requires EnvOk(globals, env, sh) && Kept(env0, env) && Good(globals, v)
    ensures Evaluated(globals, e, env0, sh, mode, Finish(v, env, mode))
  {
    hide Good, EnvOk, Kept;
  }

  lemma Loaded(globals: int, e: Expr, env: Env, sh: Shape, mode: Mode, o: Operand)
    requires EnvOk(globals, env, sh) && GoodOperand(globals, env, o) && (o.Place? ==> Leaves(env, o, e))
    ensures Evaluated(globals, e, env, sh, mode, Load(o, env, mode))
  {
    hide Good;
    KeptSelf(env);
    ReadType(globals, env, sh, o);
  }

  // Operators yield plain values.
  lemma UnaryGood(globals: int, op: UnaryKind, v: V)
    ensures ApplyUnary(op, v).Some? ==> Good(globals, ApplyUnary(op, v).value)
  {
  }

  lemma BinaryGood(globals: int, op: BinaryKind, a: V, b: V)
    ensures ApplyBinary(op, a, b).Some? ==> Good(globals, ApplyBinary(op, a, b).value)
  {
    hide ApplyCompare, ApplyArithmetic;
  }

  // Storing keeps shapes and types.
  lemma Stored(globals: int, env: Env, sh: Shape, o: Operand, v: V)
    requires EnvOk(globals, env, sh) && GoodOperand(globals, env, o) && Good(globals, v)
    requires v.TypeOf() == OperandType(env, o)
    ensures EnvOk(globals, Write(env, o, v), sh) && Kept(env, Write(env, o, v))
  {
    hide Good;
    if o.Place? {
      var s, r := o.scope, o.rank;
      assert GoodCells(globals, env.scopes[s]);
      var env' := Write(env, o, v);
      forall t | 0 <= t < |env.scopes|
        ensures |env'.scopes[t]| == sh.counts[t] && GoodCells(globals, env'.scopes[t])
        ensures SameTypes(env.scopes[t], env'.scopes[t])
      {
        assert GoodCells(globals, env.scopes[t]);
        if t == s {
          forall k | 0 <= k < |env'.scopes[t]|
            ensures GoodCell(globals, env'.scopes[t][k])
          {
            assert k != r ==> GoodCell(globals, env.scopes[t][k]);
          }
        }
      }
    }
  }

  // ---------- Scopes ----------

  lemma Opened(globals: int, env: Env, sh: Shape)
    requires EnvOk(globals, env, sh)
    ensures EnvOk(globals, PushScope(env), Inner(sh))
  {
    hide Good, GoodCell;
    assert GoodCells(globals, []);
  }

  lemma Declared(globals: int, env: Env, sh: Shape, c: Cell<Expr>)
    requires EnvOk(globals, env, sh) && |sh.counts| > 0 && GoodCell(globals, c)
    ensures EnvOk(globals, Declare(env, c), Longer(sh)) && Kept(env, Declare(env, c))
  {
    hide Good, GoodCell;
    var env', top := Declare(env, c), |env.scopes| - 1;
    forall s | 0 <= s < |env.scopes|
      ensures |env'.scopes[s]| == Longer(sh).counts[s] && GoodCells(globals, env'.scopes[s])
      ensures SameTypes(env.scopes[s], env'.scopes[s])
    {
      assert GoodCells(globals, env.scopes[s]);
    }
  }

  // The shape behind the items of a block.
  function ItemsShape(items: Items, sh: Shape): (r: Shape)
    requires |sh.counts| > 0
    ensures |r.counts| == |sh.counts| && r.slots == sh.slots
    ensures r.counts[..|r.counts| - 1] == sh.counts[..|sh.counts| - 1]
    decreases items
  {
    match items
    case End => sh
    case Let(_, _, rest) => ItemsShape(rest, Longer(sh))
    case TypedLet(_, _, _, rest) => ItemsShape(rest, Longer(sh))
    case Do(_, rest) => ItemsShape(rest, sh)
  }

  predicate ItemsEvaluated(globals: int, items: Items, env: Env, sh: Shape, mode: Mode, r: Result<Operand>) {
    && |sh.counts| > 0 && !r.Undefined?
    && (r.Done? ==>
          && EnvOk(globals, r.env, ItemsShape(items, sh)) && Kept(env, r.env) && GoodOperand(globals, r.env, r.value)
          && Fits(r.value, mode) && (mode.Push? ==> ItemsLeave(r.env, r.value, items)))
  }

  predicate ItemsLeave(env: Env, o: Operand, items: Items) {
    o.Place? ==> o.scope < |env.scopes| && ItemsMayLeave(items, |env.scopes| - 1 - o.scope)
  }

  lemma PopKept(env: Env, env1: Env)
    requires Kept(PushScope(env), env1)
    ensures |env1.scopes| > 0 && Kept(env, PopScope(env1))
  {
    forall s | 0 <= s < |env.scopes|
      ensures SameTypes(env.scopes[s], PopScope(env1).scopes[s])
    {
      assert SameTypes(PushScope(env).scopes[s], env1.scopes[s]);
    }
  }

  lemma PopOk(globals: int, env: Env, sh: Shape, sh': Shape)
    requires EnvOk(globals, env, sh') && |sh'.counts| == |sh.counts| + 1 && sh'.counts[..|sh.counts|] == sh.counts
    requires sh'.slots == sh.slots
    ensures EnvOk(globals, PopScope(env), sh)
  {
    hide Good, GoodCell;
    var popped := PopScope(env);
    forall s | 0 <= s < |popped.scopes|
      ensures |popped.scopes[s]| == sh.counts[s] && GoodCells(globals, popped.scopes[s])
    {
      assert sh.counts[s] == sh'.counts[..|sh.counts|][s];
      assert GoodCells(globals, env.scopes[s]);
    }
  }

  lemma BlockClosed(globals: int, e: Expr, env: Env, sh: Shape, mode: Mode, r: Result<Operand>)
    requires e.Block? && r.Done? && ItemsEvaluated(globals, e.items, PushScope(env), Inner(sh), mode, r)
    requires mode.Push? ==> !ItemsMayLeave(e.items, 0)
    ensures |r.env.scopes| > 0 && !(r.value.Place? && r.value.scope + 1 == |r.env.scopes|)
    ensures Evaluated(globals, e, env, sh, mode, Done(r.value, PopScope(r.env)))
  {
    hide Good, EnvOk, Kept, ItemsShape;
    PopKept(env, r.env);
    var sh' := ItemsShape(e.items, Inner(sh));
    assert Inner(sh).counts[..|sh.counts|] == sh.counts;
    PopOk(globals, r.env, sh, sh');
    EnvScopes(globals, r.env, sh');
  }

  lemma EnvScopes(globals: int, env: Env, sh: Shape)
    requires EnvOk(globals, env, sh)
    ensures |env.scopes| == |sh.counts|
  {
  }

  // ---------- The evaluation ----------

  ghost predicate Starts(g: seq<Global>, e: Expr, env: Env, sh: Shape, mode: Mode) {
    EnvOk(|g|, env, sh) && Safe(e, |g|, sh, mode.Into?)
  }

  /** A safe expression is never undefined, keeps shapes and types, and delivers what its mode
      asks for. */
  lemma {:induction false} EvalDefined(g: seq<Global>, e: Expr, env: Env, sh: Shape, mode: Mode, fuel: nat)
    requires Starts(g, e, env, sh, mode)
    ensures Evaluated(|g|, e, env, sh, mode, Eval(g, e, env, mode, fuel))
    decreases fuel, e, 3
  {
    hide Starts, Evaluated, Eval;
    match e
    case Lit(_) => AtomDefined(g, e, env, sh, mode, fuel);
    case Scoped(_, _) => AtomDefined(g, e, env, sh, mode, fuel);
    case Closed(_) => AtomDefined(g, e, env, sh, mode, fuel);
    case GlobalRef(_) => AtomDefined(g, e, env, sh, mode, fuel);
    case Unary(_, _) => UnaryDefined(g, e, env, sh, mode, fuel);
    case Binary(_, _, _) => BinaryDefined(g, e, env, sh, mode, fuel);
    case IfElse(_, _, _) => IfElseDefined(g, e, env, sh, mode, fuel);
    case IfOnly(_, _) => IfOnlyDefined(g, e, env, sh, mode, fuel);
    case For(_, _, _) => ForDefined(g, e, env, sh, mode, fuel);
    case Block(_) => BlockDefined(g, e, env, sh, mode, fuel);
    case Set(_, _) => SetDefined(g, e, env, sh, mode, fuel);
    case OpSet(_, _, _) => OpSetDefined(g, e, env, sh, mode, fuel);
    case Func(_, _, _) => FuncDefined(g, e, env, sh, mode, fuel);
    case Call(_, _) => CallDefined(g, e, env, sh, mode, fuel);
  }

  lemma AtomDefined(g: seq<Global>, e: Expr, env: Env, sh: Shape, mode: Mode, fuel: nat)
    requires Starts(g, e, env, sh, mode) && (e.Lit? || e.Scoped? || e.Closed? || e.GlobalRef?)
    ensures Evaluated(|g|, e, env, sh, mode, Eval(g, e, env, mode, fuel))
  {
    match e
    case Lit(n) =>
      KeptSelf(env);
      Finished(|g|, e, env, env, sh, mode, VInt(n));
    case Scoped(out, rank) =>
      var o := ScopedOperand(env, out, rank);
      assert GoodCells(|g|, env.scopes[o.scope]);
      assert GoodCell(|g|, env.scopes[o.scope][o.rank]);
      Loaded(|g|, e, env, sh, mode, o);
    case Closed(slot) => Loaded(|g|, e, env, sh, mode, Fixed(env.closure[slot]));
    case GlobalRef(i) => Loaded(|g|, e, env, sh, mode, Fixed(g[i].Val()));
  }

  // What is known behind a part that was evaluated.
  lemma {:induction false} Part(g: seq<Global>, e: Expr, env: Env, sh: Shape, mode: Mode, fuel: nat)
    requires EnvOk(|g|, env, sh) && Safe(e, |g|, sh, mode.Into?)
    ensures var r := Eval(g, e, env, mode, fuel);
      && !r.Undefined?
      && (r.Done? ==>
            EnvOk(|g|, r.env, sh) && Kept(env, r.env) && GoodOperand(|g|, r.env, r.value) && Fits(r.value, mode)
            && (mode.Push? ==> Leaves(r.env, r.value, e)))
    decreases fuel, e, 4
  {
    hide EnvOk, Safe, Kept, GoodOperand, Fits, Leaves, Eval;
    EvalDefined(g, e, env, sh, mode, fuel);
  }

  lemma {:induction false} UnaryDefined(g: seq<Global>, e: Expr, env: Env, sh: Shape, mode: Mode, fuel: nat)
    requires Starts(g, e, env, sh, mode) && e.Unary?
    ensures Evaluated(|g|, e, env, sh, mode, Eval(g, e, env, mode, fuel))
    decreases fuel, e, 2
  {
    hide EnvOk, Kept, Good, Leaves, Evaluated, ApplyUnary;
    Part(g, e.operand, env, sh, Push, fuel);
    var r := Eval(g, e.operand, env, Push, fuel);
    if r.Done? {
      var v := ApplyUnary(e.uop, Read(r.env, r.value));
      UnaryGood(|g|, e.uop, Read(r.env, r.value));
      if v.Some? { Finished(|g|, e, env, r.env, sh, mode, v.value); }
    }
    Stops(|g|, e, env, sh, mode, Eval(g, e, env, mode, fuel));
  }

  lemma Stops(globals: int, e: Expr, env: Env, sh: Shape, mode: Mode, r: Result<Operand>)
    ensures r.Error? || r.Timeout? ==> Evaluated(globals, e, env, sh, mode, r)
  {
  }

  lemma {:induction false} BinaryDefined(g: seq<Global>, e: Expr, env: Env, sh: Shape, mode: Mode, fuel: nat)
    requires Starts(g, e, env, sh, mode) && e.Binary?
    ensures Evaluated(|g|, e, env, sh, mode, Eval(g, e, env, mode, fuel))
    decreases fuel, e, 2
  {
    hide EnvOk, Kept, Good, Leaves, Evaluated, ApplyBinary, GoodOperand;
    assert Eval(g, e, env, mode, fuel) == EvalBinary(g, e.bop, e.lhs, e.rhs, env, mode, fuel);
    Part(g, e.lhs, env, sh, Push, fuel);
    var r1 := Eval(g, e.lhs, env, Push, fuel);
    if r1.Done? {
      Part(g, e.rhs, r1.env, sh, Push, fuel);
      var r2 := Eval(g, e.rhs, r1.env, Push, fuel);
      if r2.Done? {
        StillGood(|g|, r1.env, r2.env, sh, sh, r1.value);
        KeptTrans(env, r1.env, r2.env);
        OperandReadable(|g|, r2.env, r1.value);
        OperandReadable(|g|, r2.env, r2.value);
        var a, b := Read(r2.env, r1.value), Read(r2.env, r2.value);
        BinaryGood(|g|, e.bop, a, b);
        if ApplyBinary(e.bop, a, b).Some? { Finished(|g|, e, env, r2.env, sh, mode, ApplyBinary(e.bop, a, b).value); }
      }
    }
    Stops(|g|, e, env, sh, mode, Eval(g, e, env, mode, fuel));
  }

  lemma OperandReadable(globals: int, env: Env, o: Operand)
    requires GoodOperand(globals, env, o)
    ensures Readable(env, o) && Good(globals, Read(env, o))
  {
  }

  // The same result for a larger expression that starts earlier.
  lemma Passed(globals: int, e: Expr, e1: Expr, env: Env, env1: Env, sh: Shape, mode: Mode, r: Result<Operand>)
    requires Evaluated(globals, e1, env1, sh, mode, r) && Kept(env, env1)
    requires forall out | mode.Push? && MayLeave(e1, out) :: MayLeave(e, out)
    ensures Evaluated(globals, e, env, sh, mode, r)
  {
    hide EnvOk, Kept, GoodOperand, MayLeave;
    if r.Done? { KeptTrans(env, env1, r.env); }
  }

  lemma {:induction false} IfElseDefined(g: seq<Global>, e: Expr, env: Env, sh: Shape, mode: Mode, fuel: nat)
    requires Starts(g, e, env, sh, mode) && e.IfElse?
    ensures Evaluated(|g|, e, env, sh, mode, Eval(g, e, env, mode, fuel))
    decreases fuel, e, 2
  {
    hide EnvOk, Kept, Good, Leaves, Evaluated;
    Part(g, e.cond, env, sh, Push, fuel);
    var r1 := Eval(g, e.cond, env, Push, fuel);
    if r1.Done? && Read(r1.env, r1.value).VBool? {
      var branch := if Read(r1.env, r1.value).b then e.thn else e.els;
      EvalDefined(g, branch, r1.env, sh, mode, fuel);
      Passed(|g|, e, branch, env, r1.env, sh, mode, Eval(g, branch, r1.env, mode, fuel));
    }
    Stops(|g|, e, env, sh, mode, Eval(g, e, env, mode, fuel));
  }

  // An expression whose value must be void.
  lemma {:induction false} DiscardDefined(g: seq<Global>, e: Expr, env: Env, sh: Shape, fuel: nat)
    requires Starts(g, e, env, sh, Push)
    ensures var r := EvalDiscard(g, e, env, fuel);
      !r.Undefined? && (r.Done? ==> r.value == Temp(VVoid) && EnvOk(|g|, r.env, sh) && Kept(env, r.env))
    decreases fuel, e, 4
  {
    hide EnvOk, Kept, Good, Leaves, Eval;
    EvalDefined(g, e, env, sh, Push, fuel);
  }

  lemma {:induction false} IfOnlyDefined(g: seq<Global>, e: Expr, env: Env, sh: Shape, mode: Mode, fuel: nat)
    requires Starts(g, e, env, sh, mode) && e.IfOnly?
    ensures Evaluated(|g|, e, env, sh, mode, Eval(g, e, env, mode, fuel))
    decreases fuel, e, 2
  {
    hide EnvOk, Kept, Leaves, Evaluated;
    Part(g, e.cond, env, sh, Push, fuel);
    var r1 := Eval(g, e.cond, env, Push, fuel);
    Stops(|g|, e, env, sh, mode, Eval(g, e, env, mode, fuel));
    if r1.Done? && Read(r1.env, r1.value).VBool? {
      if !Read(r1.env, r1.value).b {
        Finished(|g|, e, env, r1.env, sh, mode, VVoid);
      } else if mode.Push? {
        DiscardDefined(g, e.thn, r1.env, sh, fuel);
        var r2 := EvalDiscard(g, e.thn, r1.env, fuel);
        if r2.Done? {
          KeptTrans(env, r1.env, r2.env);
          Finished(|g|, e, env, r2.env, sh, mode, VVoid);
        }
      } else {
        EvalDefined(g, e.thn, r1.env, sh, mode, fuel);
        Passed(|g|, e, e.thn, env, r1.env, sh, mode, Eval(g, e.thn, r1.env, mode, fuel));
      }
    }
  }

  lemma {:induction false} ForDefined(g: seq<Global>, e: Expr, env: Env, sh: Shape, mode: Mode, fuel: nat)
    requires Starts(g, e, env, sh, mode) && e.For?
    ensures Evaluated(|g|, e, env, sh, mode, Eval(g, e, env, mode, fuel))
    decreases fuel, e, 2
  {
    hide EnvOk, Kept, Leaves, Ranged, Tidy;
    LoopDefined(g, e, env, sh, fuel);
    var r := EvalLoop(g, e, env, fuel);
    if r.Done? { Finished(|g|, e, env, r.env, sh, Push, VVoid); }
  }

  lemma {:induction false} LoopDefined(g: seq<Global>, e: Expr, env: Env, sh: Shape, fuel: nat)
    requires Starts(g, e, env, sh, Push) && e.For?
    ensures var r := EvalLoop(g, e, env, fuel);
      !r.Undefined? && (r.Done? ==> r.value == Temp(VVoid) && EnvOk(|g|, r.env, sh) && Kept(env, r.env))
    decreases fuel, e, 1
  {
    hide EnvOk, Kept, Leaves, Good, Eval, EvalDiscard, EvalStep;
    LoopParts(g, e, env, sh);
    Part(g, e.cond, env, sh, Push, fuel);
    var r1 := Eval(g, e.cond, env, Push, fuel);
    if r1.Done? && Read(r1.env, r1.value).VBool? {
      if !Read(r1.env, r1.value).b {
      } else {
        DiscardDefined(g, e.body, r1.env, sh, fuel);
        var r2 := EvalDiscard(g, e.body, r1.env, fuel);
        if r2.Done? {
          StepDefined(g, e.step, r2.env, sh, fuel);
          var r3 := EvalStep(g, e.step, r2.env, fuel);
          if r3.Done? && fuel > 0 {
            LoopDefined(g, e, r3.env, sh, fuel - 1);
            var r4 := EvalLoop(g, e, r3.env, fuel - 1);
            KeptTrans(env, r1.env, r2.env);
            KeptTrans(env, r2.env, r3.env);
            if r4.Done? { KeptTrans(env, r3.env, r4.env); }
          }
        }
      }
    }
  }

  lemma LoopParts(g: seq<Global>, e: Expr, env: Env, sh: Shape)
    requires Starts(g, e, env, sh, Push) && e.For?
    ensures EnvOk(|g|, env, sh) && Safe(e.cond, |g|, sh, false) && Safe(e.body, |g|, sh, false)
    ensures e.step.Advance? ==> Safe(e.step.e, |g|, sh, false)
  {
    hide EnvOk;
  }

  lemma {:induction false} StepDefined(g: seq<Global>, step: LoopStep, env: Env, sh: Shape, fuel: nat)
    requires EnvOk(|g|, env, sh) && (step.Advance? ==> Safe(step.e, |g|, sh, false))
    ensures var r := EvalStep(g, step, env, fuel);
      !r.Undefined? && (r.Done? ==> EnvOk(|g|, r.env, sh) && Kept(env, r.env))
    decreases fuel, step, 0
  {
    hide EnvOk, Kept, Safe, EvalDiscard;
    KeptSelf(env);
    if step.Advance? { DiscardDefined(g, step.e, env, sh, fuel); }
  }

  // ---------- Blocks ----------

  lemma {:induction false} BlockDefined(g: seq<Global>, e: Expr, env: Env, sh: Shape, mode: Mode, fuel: nat)
    requires Starts(g, e, env, sh, mode) && e.Block?
    ensures Evaluated(|g|, e, env, sh, mode, Eval(g, e, env, mode, fuel))
    decreases fuel, e, 2
  {
    hide EnvOk, ItemsEvaluated, Evaluated, EvalItems;
    Opened(|g|, env, sh);
    ItemsDefined(g, e.items, PushScope(env), Inner(sh), mode, fuel);
    var r := EvalItems(g, e.items, PushScope(env), mode, fuel);
    ItemsNotUndefined(|g|, e.items, PushScope(env), Inner(sh), mode, r);
    if r.Done? { BlockClosed(|g|, e, env, sh, mode, r); }
    Stops(|g|, e, env, sh, mode, Eval(g, e, env, mode, fuel));
  }

  lemma ItemsNotUndefined(globals: int, items: Items, env: Env, sh: Shape, mode: Mode, r: Result<Operand>)
    requires |sh.counts| > 0 && ItemsEvaluated(globals, items, env, sh, mode, r)
    ensures !r.Undefined?
  {
    hide EnvOk;
  }

  ghost predicate ItemsStart(g: seq<Global>, items: Items, env: Env, sh: Shape, mode: Mode) {
    && EnvOk(|g|, env, sh) && ItemsRanged(items, |g|, sh) && ItemsTidy(items, mode.Into?)
    && Emission.ItemsAccepted(items, mode.Into?)
  }

  lemma {:induction false} ItemsDefined(g: seq<Global>, items: Items, env: Env, sh: Shape, mode: Mode, fuel: nat)
    requires |sh.counts| > 0 && ItemsStart(g, items, env, sh, mode)
    ensures ItemsEvaluated(|g|, items, env, sh, mode, EvalItems(g, items, env, mode, fuel))
    decreases fuel, items, 2
  {
    hide ItemsStart, ItemsEvaluated;
    match items
    case End => NoItems(g, items, env, sh, mode, fuel);
    case Let(_, _, _) => LetDefined(g, items, env, sh, mode, fuel);
    case TypedLet(_, _, _, _) => TypedLetDefined(g, items, env, sh, mode, fuel);
    case Do(_, _) => DoDefined(g, items, env, sh, mode, fuel);
  }

  lemma NoItems(g: seq<Global>, items: Items, env: Env, sh: Shape, mode: Mode, fuel: nat)
    requires |sh.counts| > 0 && ItemsStart(g, items, env, sh, mode) && items.End?
    ensures ItemsEvaluated(|g|, items, env, sh, mode, EvalItems(g, items, env, mode, fuel))
  {
    hide EnvOk, Kept;
    KeptSelf(env);
  }

  // The items behind a definition.
  lemma RestEvaluated(globals: int, items: Items, rest: Items, env: Env, env1: Env, sh: Shape, sh1: Shape, mode: Mode,
                      r: Result<Operand>)
    requires |sh.counts| > 0 && |sh1.counts| > 0 && ItemsShape(rest, sh1) == ItemsShape(items, sh)
    requires ItemsEvaluated(globals, rest, env1, sh1, mode, r) && Kept(env, env1)
    requires forall out | mode.Push? && ItemsMayLeave(rest, out) :: ItemsMayLeave(items, out)
    ensures ItemsEvaluated(globals, items, env, sh, mode, r)
  {
    hide EnvOk, Kept, GoodOperand, ItemsMayLeave, ItemsShape;
    if r.Done? { KeptTrans(env, env1, r.env); }
  }

  lemma ItemsStop(globals: int, items: Items, env: Env, sh: Shape, mode: Mode, r: Result<Operand>)
    requires |sh.counts| > 0
    ensures r.Error? || r.Timeout? ==> ItemsEvaluated(globals, items, env, sh, mode, r)
  {
  }

  lemma {:induction false} LetDefined(g: seq<Global>, items: Items, env: Env, sh: Shape, mode: Mode, fuel: nat)
    requires |sh.counts| > 0 && ItemsStart(g, items, env, sh, mode) && items.Let?
    ensures ItemsEvaluated(|g|, items, env, sh, mode, EvalItems(g, items, env, mode, fuel))
    decreases fuel, items, 1
  {
    hide EnvOk, Kept, ItemsEvaluated, Good, Eval;
    Part(g, items.value, env, sh, Push, fuel);
    var r1 := Eval(g, items.value, env, Push, fuel);
    ItemsStop(|g|, items, env, sh, mode, EvalItems(g, items, env, mode, fuel));
    if r1.Done? {
      var c := Cell(OperandType(r1.env, r1.value), items.isMut, Read(r1.env, r1.value));
      ReadType(|g|, r1.env, sh, r1.value);
      EnvScopes(|g|, r1.env, sh);
      Declared(|g|, r1.env, sh, c);
      KeptTrans(env, r1.env, Declare(r1.env, c));
      ItemsDefined(g, items.rest, Declare(r1.env, c), Longer(sh), mode, fuel);
      RestEvaluated(|g|, items, items.rest, env, Declare(r1.env, c), sh, Longer(sh), mode,
        EvalItems(g, items.rest, Declare(r1.env, c), mode, fuel));
    }
  }

  lemma {:induction false} TypedLetDefined(g: seq<Global>, items: Items, env: Env, sh: Shape, mode: Mode, fuel: nat)
    requires |sh.counts| > 0 && ItemsStart(g, items, env, sh, mode) && items.TypedLet?
    ensures ItemsEvaluated(|g|, items, env, sh, mode, EvalItems(g, items, env, mode, fuel))
    decreases fuel, items, 1
  {
    hide EnvOk, Kept, ItemsEvaluated, Good, Eval;
    Part(g, items.ty, env, sh, Push, fuel);
    var r1 := Eval(g, items.ty, env, Push, fuel);
    ItemsStop(|g|, items, env, sh, mode, EvalItems(g, items, env, mode, fuel));
    if r1.Done? && Read(r1.env, r1.value).VType? {
      var t := Read(r1.env, r1.value).ty;
      Part(g, items.value, r1.env, sh, Into(t), fuel);
      var r2 := Eval(g, items.value, r1.env, Into(t), fuel);
      if r2.Done? {
        var c := Cell(t, items.isMut, r2.value.v);
        EnvScopes(|g|, r2.env, sh);
        Declared(|g|, r2.env, sh, c);
        KeptTrans(env, r1.env, r2.env);
        KeptTrans(env, r2.env, Declare(r2.env, c));
        ItemsDefined(g, items.rest, Declare(r2.env, c), Longer(sh), mode, fuel);
        RestEvaluated(|g|, items, items.rest, env, Declare(r2.env, c), sh, Longer(sh), mode,
          EvalItems(g, items.rest, Declare(r2.env, c), mode, fuel));
      }
    }
  }

  lemma {:induction false} DoDefined(g: seq<Global>, items: Items, env: Env, sh: Shape, mode: Mode, fuel: nat)
    requires |sh.counts| > 0 && ItemsStart(g, items, env, sh, mode) && items.Do?
    ensures ItemsEvaluated(|g|, items, env, sh, mode, EvalItems(g, items, env, mode, fuel))
    decreases fuel, items, 1
  {
    hide EnvOk, Kept, Good, Eval, EvalDiscard, Safe;
    DoParts(g, items, env, sh, mode);
    if items.rest.End? {
      Part(g, items.e, env, sh, mode, fuel);
      LastDone(g, items, env, sh, mode, fuel);
    } else {
      DiscardDefined(g, items.e, env, sh, fuel);
      var r1 := EvalDiscard(g, items.e, env, fuel);
      if r1.Done? {
        ItemsDefined(g, items.rest, r1.env, sh, mode, fuel);
        RestEvaluated(|g|, items, items.rest, env, r1.env, sh, sh, mode, EvalItems(g, items.rest, r1.env, mode, fuel));
      }
    }
  }

  lemma LastDone(g: seq<Global>, items: Items, env: Env, sh: Shape, mode: Mode, fuel: nat)
    requires |sh.counts| > 0 && items.Do? && items.rest.End?
    requires var r := Eval(g, items.e, env, mode, fuel);
      && !r.Undefined?
      && (r.Done? ==>
            EnvOk(|g|, r.env, sh) && Kept(env, r.env) && GoodOperand(|g|, r.env, r.value) && Fits(r.value, mode)
            && (mode.Push? ==> Leaves(r.env, r.value, items.e)))
    ensures ItemsEvaluated(|g|, items, env, sh, mode, EvalItems(g, items, env, mode, fuel))
  {
    hide EnvOk, Kept, Eval, Good;
    VoidGood(|g|);
    assert ItemsShape(items, sh) == ItemsShape(items.rest, sh) == sh;
    assert forall out :: ItemsMayLeave(items, out) == MayLeave(items.e, out);
    var r, last := Eval(g, items.e, env, mode, fuel), EvalItems(g, items, env, mode, fuel);
    assert r.Done? ==> last == Done(if mode.Push? && !Yields(items.e) then Temp(VVoid) else r.value, r.env);
    assert !r.Done? ==> last == r;
  }

  lemma DoParts(g: seq<Global>, items: Items, env: Env, sh: Shape, mode: Mode)
    requires |sh.counts| > 0 && ItemsStart(g, items, env, sh, mode) && items.Do?
    ensures EnvOk(|g|, env, sh) && Safe(items.e, |g|, sh, items.rest.End? && mode.Into?)
    ensures ItemsRanged(items.rest, |g|, sh) && ItemsTidy(items.rest, mode.Into?)
    ensures Emission.ItemsAccepted(items.rest, mode.Into?)
  {
    hide EnvOk;
  }

  // ---------- Assignments ----------

  lemma {:induction false} SetDefined(g: seq<Global>, e: Expr, env: Env, sh: Shape, mode: Mode, fuel: nat)
    requires Starts(g, e, env, sh, mode) && e.Set?
    ensures Evaluated(|g|, e, env, sh, mode, Eval(g, e, env, mode, fuel))
    decreases fuel, e, 2
  {
    hide EnvOk, Kept, Good, Leaves, Evaluated, GoodOperand, Write;
    Part(g, e.target, env, sh, Push, fuel);
    var r1 := Eval(g, e.target, env, Push, fuel);
    Stops(|g|, e, env, sh, mode, Eval(g, e, env, mode, fuel));
    if r1.Done? {
      OperandReadable(|g|, r1.env, r1.value);
      if Mutable(r1.env, r1.value) {
        var m := Into(OperandType(r1.env, r1.value));
        Part(g, e.value, r1.env, sh, m, fuel);
        var r2 := Eval(g, e.value, r1.env, m, fuel);
        if r2.Done? {
          StillGood(|g|, r1.env, r2.env, sh, sh, r1.value);
          OperandReadable(|g|, r2.env, r1.value);
          OperandReadable(|g|, r2.env, r2.value);
          Stored(|g|, r2.env, sh, r1.value, r2.value.v);
          var env' := Write(r2.env, r1.value, r2.value.v);
          KeptTrans(env, r1.env, r2.env);
          KeptTrans(env, r2.env, env');
          VoidGood(|g|);
          Finished(|g|, e, env, env', sh, mode, VVoid);
        }
      }
    }
  }

  lemma VoidGood(globals: int)
    ensures Good(globals, VVoid)
  {
  }

  lemma {:induction false} OpSetDefined(g: seq<Global>, e: Expr, env: Env, sh: Shape, mode: Mode, fuel: nat)
    requires Starts(g, e, env, sh, mode) && e.OpSet?
    ensures Evaluated(|g|, e, env, sh, mode, Eval(g, e, env, mode, fuel))
    decreases fuel, e, 2
  {
    hide EnvOk, Kept, Good, Leaves, Evaluated, GoodOperand, Write, ApplyBinary;
    Part(g, e.target, env, sh, Push, fuel);
    var r1 := Eval(g, e.target, env, Push, fuel);
    Stops(|g|, e, env, sh, mode, Eval(g, e, env, mode, fuel));
    if r1.Done? {
      OperandReadable(|g|, r1.env, r1.value);
      if Mutable(r1.env, r1.value) {
        Part(g, e.value, r1.env, sh, Push, fuel);
        var r2 := Eval(g, e.value, r1.env, Push, fuel);
        if r2.Done? {
          StillGood(|g|, r1.env, r2.env, sh, sh, r1.value);
          OperandReadable(|g|, r2.env, r1.value);
          OperandReadable(|g|, r2.env, r2.value);
          KeptTrans(env, r1.env, r2.env);
          OpSetStored(|g|, e, env, r1.env, r2.env, sh, mode, r1.value, r2.value);
        }
      }
    }
  }

  lemma OpSetStored(globals: int, e: Expr, env: Env, env1: Env, env2: Env, sh: Shape, mode: Mode, o: Operand,
                    o2: Operand)
    requires e.OpSet? && EnvOk(globals, env2, sh) && Kept(env, env2) && GoodOperand(globals, env2, o)
    requires GoodOperand(globals, env2, o2)
    requires Readable(env1, o) && OperandType(env2, o) == OperandType(env1, o)
    ensures var v := ApplyBinary(e.bop, Read(env2, o), Read(env2, o2));
      v.Some? && v.value.TypeOf() == OperandType(env1, o) ==>
        Evaluated(globals, e, env, sh, mode, Finish(VVoid, Write(env2, o, v.value), mode))
  {
    hide EnvOk, Kept, Good, Evaluated, Write, ApplyBinary;
    var v := ApplyBinary(e.bop, Read(env2, o), Read(env2, o2));
    if v.Some? && v.value.TypeOf() == OperandType(env1, o) {
      BinaryGood(globals, e.bop, Read(env2, o), Read(env2, o2));
      Stored(globals, env2, sh, o, v.value);
      KeptTrans(env, env2, Write(env2, o, v.value));
      VoidGood(globals);
      Finished(globals, e, env, Write(env2, o, v.value), sh, mode, VVoid);
    }
  }

  // ---------- Functions ----------

  ghost predicate AllGood(globals: int, env: Env, ops: seq<Operand>) {
    forall i | 0 <= i < |ops| :: GoodOperand(globals, env, ops[i])
  }

  lemma {:induction false} TypesDefined(g: seq<Global>, sig: Signature, env: Env, sh: Shape, fuel: nat)
    requires EnvOk(|g|, env, sh) && SignatureRanged(sig, |g|, sh) && SignatureTidy(sig)
    requires Emission.SignatureAccepted(sig)
    ensures var r := EvalTypes(g, sig, env, fuel);
      && !r.Undefined?
      && (r.Done? ==>
            EnvOk(|g|, r.env, sh) && Kept(env, r.env) && AllGood(|g|, r.env, r.value)
                && |r.value| == |ParamMuts(sig)| + 1)
    decreases fuel, sig, 0
  {
    hide EnvOk, Kept, GoodOperand, Eval, Leaves;
    match sig
    case Returns(ret) => Part(g, ret, env, sh, Push, fuel);
    case Param(_, ty, rest) =>
      Part(g, ty, env, sh, Push, fuel);
      var r1 := Eval(g, ty, env, Push, fuel);
      if r1.Done? {
        TypesDefined(g, rest, r1.env, sh, fuel);
        var r2 := EvalTypes(g, rest, r1.env, fuel);
        if r2.Done? {
          KeptTrans(env, r1.env, r2.env);
          StillGood(|g|, r1.env, r2.env, sh, sh, r1.value);
          assert forall i | 0 < i < |[r1.value] + r2.value| :: ([r1.value] + r2.value)[i] == r2.value[i - 1];
        }
      }
  }

  lemma CapturesGood(globals: int, env: Env, sh: Shape, captures: seq<Capture>)
    requires EnvOk(globals, env, sh) && forall i | 0 <= i < |captures| :: CaptureInRange(sh, captures[i])
    ensures CapturesReadable(env, captures) && forall i | 0 <= i < |captures| :: Good(globals,
        Captured(env, captures)[i])
  {
    hide Good;
    forall i | 0 <= i < |captures|
      ensures Readable(env, CaptureOperand(env, captures[i]))
      ensures Good(globals, Read(env, CaptureOperand(env, captures[i])))
    {
      assert CaptureInRange(sh, captures[i]);
      var o := CaptureOperand(env, captures[i]);
      if o.Place? {
        assert GoodCells(globals, env.scopes[o.scope]);
        assert GoodCell(globals, env.scopes[o.scope][o.rank]);
      }
    }
  }

  lemma GoodReadable(globals: int, env: Env, ops: seq<Operand>)
    requires AllGood(globals, env, ops)
    ensures AllReadable(env, ops)
  {
    hide Good;
    forall i | 0 <= i < |ops|
      ensures Readable(env, ops[i])
    {
      assert GoodOperand(globals, env, ops[i]);
    }
  }

  lemma {:induction false} FuncDefined(g: seq<Global>, e: Expr, env: Env, sh: Shape, mode: Mode, fuel: nat)
    requires Starts(g, e, env, sh, mode) && e.Func?
    ensures Evaluated(|g|, e, env, sh, mode, Eval(g, e, env, mode, fuel))
    decreases fuel, e, 2
  {
    hide EnvOk, Kept, Evaluated, EvalTypes, AllGood, CaptureInRange, Good;
    TypesDefined(g, e.signature, env, sh, fuel);
    var r1 := EvalTypes(g, e.signature, env, fuel);
    Stops(|g|, e, env, sh, mode, Eval(g, e, env, mode, fuel));
    if r1.Done? {
      GoodReadable(|g|, r1.env, r1.value);
      if AllTypes(r1.env, r1.value) {
        CapturesGood(|g|, r1.env, sh, e.captures);
        var f := FuncValue(e, r1.env, r1.value);
        FuncGood(|g|, e, f, sh);
        Finished(|g|, e, env, r1.env, sh, mode, f);
      }
    }
  }

  function FuncValue(e: Expr, env: Env, ops: seq<Operand>): V
    requires e.Func? && AllReadable(env, ops) && AllTypes(env, ops) && |ops| == |ParamMuts(e.signature)| + 1
    requires CapturesReadable(env, e.captures)
  {
    VFunc(ParamTypes(env, ops, ParamMuts(e.signature)), Read(env, ops[|ops| - 1]).ty, e.body, Captured(env, e.captures))
  }

  lemma FuncGood(globals: int, e: Expr, f: V, sh: Shape)
    requires e.Func? && Ranged(e, globals, sh) && Tidy(e, false) && Emission.Accepted(e, false)
    requires f.VFunc? && f.body == e.body && |f.params| == |ParamMuts(e.signature)| && |f.closure| == |e.captures|
    requires forall i | 0 <= i < |f.closure| :: Good(globals, f.closure[i])
    ensures Good(globals, f)
  {
  }

  // ---------- Calls ----------

  lemma {:induction false} ArgsDefined(g: seq<Global>, args: Args, ps: seq<ParamType>, env: Env, sh: Shape, fuel: nat)
    requires EnvOk(|g|, env, sh) && ArgsRanged(args, |g|, sh) && ArgsTidy(args) && Emission.ArgsAccepted(args)
    requires ArgCount(args) == |ps|
    ensures var r := EvalArgs(g, args, ps, env, fuel);
      && !r.Undefined?
      && (r.Done? ==> EnvOk(|g|, r.env, sh) && Kept(env, r.env) && GoodCells(|g|, r.value) && |r.value| == |ps|)
    decreases fuel, args, 0
  {
    hide EnvOk, Kept, Eval, Leaves, Good;
    match args
    case NoArgs => KeptSelf(env);
    case Arg(e, rest) =>
      Part(g, e, env, sh, Into(ps[0].ty), fuel);
      var r1 := Eval(g, e, env, Into(ps[0].ty), fuel);
      if r1.Done? {
        ArgsDefined(g, rest, ps[1..], r1.env, sh, fuel);
        var r2 := EvalArgs(g, rest, ps[1..], r1.env, fuel);
        if r2.Done? {
          KeptTrans(env, r1.env, r2.env);
          var c := Cell(ps[0].ty, ps[0].isMut, r1.value.v);
          assert GoodCell(|g|, c);
          assert forall i | 0 < i < |[c] + r2.value| :: ([c] + r2.value)[i] == r2.value[i - 1];
        }
      }
  }

  lemma {:induction false} CallDefined(g: seq<Global>, e: Expr, env: Env, sh: Shape, mode: Mode, fuel: nat)
    requires Starts(g, e, env, sh, mode) && e.Call?
    ensures Evaluated(|g|, e, env, sh, mode, Eval(g, e, env, mode, fuel))
    decreases fuel, e, 2
  {
    hide EnvOk, Kept, Good, Leaves, Evaluated, GoodOperand, GoodCells;
    assert Eval(g, e, env, mode, fuel) == EvalCall(g, e.callee, e.args, env, mode, fuel);
    Part(g, e.callee, env, sh, Push, fuel);
    var r1 := Eval(g, e.callee, env, Push, fuel);
    Stops(|g|, e, env, sh, mode, Eval(g, e, env, mode, fuel));
    if r1.Done? {
      OperandReadable(|g|, r1.env, r1.value);
      var f := Read(r1.env, r1.value);
      if f.VFunc? && ArgCount(e.args) == |f.params| {
        ArgsDefined(g, e.args, f.params, r1.env, sh, fuel);
        var r2 := EvalArgs(g, e.args, f.params, r1.env, fuel);
        if r2.Done? {
          KeptTrans(env, r1.env, r2.env);
          StillGood(|g|, r1.env, r2.env, sh, sh, r1.value);
          OperandReadable(|g|, r2.env, r1.value);
          if !(mode.Into? && mode.ty != f.ret) && fuel > 0 {
            CalleeDefined(g, e, Read(r2.env, r1.value), r2.value, env, r2.env, sh, mode, f.ret, fuel - 1);
          }
        }
      }
    }
  }

  // The body runs in the scope of its parameters.
  lemma {:induction false} CalleeDefined(g: seq<Global>, e: Expr, f: V, cells: seq<Cell<Expr>>, env: Env, env1: Env,
                                         sh: Shape,
                                         mode: Mode, ret: Type, fuel: nat)
    requires f.VFunc? && Good(|g|, f) && GoodCells(|g|, cells) && |cells| == |f.params| && f.ret == ret
    requires EnvOk(|g|, env1, sh) && Kept(env, env1) && (mode.Into? ==> mode.ty == ret)
    ensures var r := Eval(g, f.body, Env([cells], f.closure), Into(ret), fuel);
      && !r.Undefined? && (r.Done? ==> r.value.Temp? && Evaluated(|g|, e, env, sh, mode, Done(r.value, env1)))
    decreases fuel, f.body, 5
  {
    hide Kept, GoodCell, GoodCells, Safe, Eval;
    Part(g, f.body, Env([cells], f.closure), Shape([|f.params|], |f.closure|), Into(ret), fuel);
  }

  /** A safe program is defined, however far it is evaluated. */
  lemma AlwaysDefined(g: seq<Global>, e: Expr, fuel: nat)
    requires Safe(e, |g|, Shape([], 0), false)
    ensures !Eval(g, e, Env([], []), Push, fuel).Undefined?
  {
    hide Safe, Eval;
    EvalDefined(g, e, Env([], []), Shape([], 0), Push, fuel);
  }

  // `{ let x = 1; x }` where a value is needed.
  function Untidy(n: int): Expr {
    Block(Let(false, Lit(n), Do(Scoped(0, 0), End)))
  }

  /** Without the condition on blocks the meaning may be undefined, in every run. */
  lemma UntidyUndefined(g: seq<Global>, n: int, fuel: nat)
    ensures Ranged(Untidy(n), |g|, Shape([], 0)) && Emission.Accepted(Untidy(n), false) && !Tidy(Untidy(n), false)
    ensures Eval(g, Untidy(n), Env([], []), Push, fuel) == Undefined
  {
    var env: Env := PushScope(Env([], []));
    var one := Do(Scoped(0, 0), End);
    assert Eval(g, Lit(n), env, Push, fuel) == Done(Temp(VInt(n)), env);
    var env1 := Declare(env, Cell(TInt, false, VInt(n)));
    var c: Cell<Expr> := Cell(TInt, false, VInt(n));
    assert env1 == Declare(env, c) && env.scopes[0] + [c] == [c];
    assert env1.scopes == [[c]];
    assert Eval(g, Scoped(0, 0), env1, Push, fuel) == Done(Place(0, 0), env1);
    assert EvalItems(g, one, env1, Push, fuel) == Done(Place(0, 0), env1);
    assert EvalItems(g, Let(false, Lit(n), one), env, Push, fuel) == Done(Place(0, 0), env1);
    assert ItemsMayLeave(Let(false, Lit(n), one), 0) by { assert ItemsMayLeave(one, 0); }
    UntidyRanged(n, |g|);
  }

  lemma UntidyRanged(n: int, globals: int)
    ensures Ranged(Untidy(n), globals, Shape([], 0)) && Emission.Accepted(Untidy(n), false)
  {
    var one := Do(Scoped(0, 0), End);
    assert Inner(Shape([], 0)) == Shape([0], 0) && Longer(Shape([0], 0)) == Shape([1], 0);
    assert ItemsRanged(one, globals, Shape([1], 0));
    assert ItemsRanged(Let(false, Lit(n), one), globals, Shape([0], 0));
    assert Emission.ItemsAccepted(one, false);
    assert Emission.ItemsAccepted(Let(false, Lit(n), one), false);
  }
}
