/** The fragment of resolved expressions the compiler is proved correct for, and what they
    mean. Names are already replaced by addresses: (`out`, `rank`) for a member of an
    enclosing scope of the same function, `rank` for a member of the function's closure.

    As in the interpreter, an operand is either a place or a temporary: loading a local
    yields its place, whose content is only read when an operator consumes it.
  */
module Lang {
  import opened Basics

  datatype Type = TInt | TBool | TVoid | TType | TFunc(params: seq<ParamType>, ret: Type)
  datatype ParamType = ParamType(ty: Type, isMut: bool)

  /** Values; a function value pairs a body with the values it captured when it was created.
      Bodies are expressions here and code addresses in the interpreter. */
  datatype Value<B> =
    | VInt(n: int)
    | VBool(b: bool)
    | VVoid
    | VType(ty: Type)
    | VFunc(params: seq<ParamType>, ret: Type, body: B, closure: seq<Value<B>>)
  {
    function TypeOf(): Type {
      match this
      case VInt(_) => TInt
      case VBool(_) => TBool
      case VVoid => TVoid
      case VType(_) => TType
      case VFunc(params, ret, _, _) => TFunc(params, ret)
    }
  }

  // An already initialized, immutable global.
  datatype Global = GInt(n: int) | GBool(b: bool) | GVoid | GType(ty: Type) {
    function Val<B>(): Value<B> {
      match this
      case GInt(n) => VInt(n)
      case GBool(b) => VBool(b)
      case GVoid => VVoid
      case GType(ty) => VType(ty)
    }
  }

  datatype UnaryKind = Negate | Plus | LogicalNot
  datatype BinaryKind =
    | Add | Sub | Mul | Div | AddTC | SubTC | MulTC | Mod
    | LogicalAnd | LogicalOr
    | LessThan | GreaterThan | LessOrEqual | GreaterOrEqual | NotEqual | Equal

  datatype Expr =
    | Lit(n: int)
    | Scoped(out: nat, rank: nat)
    | Closed(slot: nat)
    | GlobalRef(index: nat)
    | Unary(uop: UnaryKind, operand: Expr)
    | Binary(bop: BinaryKind, lhs: Expr, rhs: Expr)
    | IfElse(cond: Expr, thn: Expr, els: Expr)
    | IfOnly(cond: Expr, thn: Expr)
    | For(cond: Expr, body: Expr, step: LoopStep)
    | Block(items: Items)
    | Set(target: Expr, value: Expr)
    | OpSet(bop: BinaryKind, target: Expr, value: Expr)
    | Func(signature: Signature, captures: seq<Capture>, body: Expr)
    | Call(callee: Expr, args: Args)

  datatype LoopStep = NoStep | Advance(e: Expr)
  datatype Items =
    | End
    | Let(isMut: bool, value: Expr, rest: Items)
    | TypedLet(isMut: bool, ty: Expr, value: Expr, rest: Items)
    | Do(e: Expr, rest: Items)
  // Parameter types, then the return type.
  datatype Signature = Returns(ret: Expr) | Param(isMut: bool, ty: Expr, rest: Signature)
  datatype Args = NoArgs | Arg(e: Expr, rest: Args)
  // Where a closure member is found when the closure is created.
  datatype Capture = FromClosure(slot: nat) | FromScope(out: nat, rank: nat)

  // ---------- Operators, shared with the interpreter ----------

  // Division and remainder truncate toward zero.
  function TruncDiv(a: int, b: int): int
    requires b != 0
  {
    var q := Abs(a) / Abs(b);
    if (a < 0) == (b < 0) then q else -q
  }

  function Abs(a: int): nat {
    if a < 0 then -a else a
  }

  function ApplyUnary<B>(op: UnaryKind, v: Value<B>): Maybe<Value<B>> {
    match (op, v)
    case (Negate, VInt(n)) => Some(VInt(-n))
    case (Plus, VInt(n)) => Some(VInt(n))
    case (LogicalNot, VBool(b)) => Some(VBool(!b))
    case _ => None
  }

  function ApplyArithmetic(op: BinaryKind, a: int, b: int): Maybe<int> {
    match op
    case Add | AddTC => Some(a + b)
    case Sub | SubTC => Some(a - b)
    case Mul | MulTC => Some(a * b)
    case Div => if b == 0 then None else Some(TruncDiv(a, b))
    case Mod => if b == 0 then None else Some(a - TruncDiv(a, b) * b)
    case _ => None
  }

  function ApplyOrder(op: BinaryKind, a: int, b: int): Maybe<bool> {
    match op
    case LessThan => Some(a < b)
    case GreaterThan => Some(a > b)
    case LessOrEqual => Some(a <= b)
    case GreaterOrEqual => Some(a >= b)
    case _ => None
  }

  // Integers are ordered; booleans, types and void only compare for equality; functions
  // and operands of different types do not compare at all.
  function ApplyCompare<B>(op: BinaryKind, a: Value<B>, b: Value<B>): Maybe<bool> {
    if a.TypeOf() != b.TypeOf() || a.VFunc? || b.VFunc? then None
    else if op == Equal then Some(SameContent(a, b))
    else if op == NotEqual then Some(!SameContent(a, b))
    else if a.VInt? && b.VInt? then ApplyOrder(op, a.n, b.n)
    else None
  }

  function SameContent<B>(a: Value<B>, b: Value<B>): bool {
    match (a, b)
    case (VInt(m), VInt(n)) => m == n
    case (VBool(p), VBool(q)) => p == q
    case (VVoid, VVoid) => true
    case (VType(s), VType(t)) => s == t
    case _ => false
  }

  predicate IsCompare(op: BinaryKind) {
    op in {LessThan, GreaterThan, LessOrEqual, GreaterOrEqual, NotEqual, Equal}
  }

  function ApplyBinary<B>(op: BinaryKind, a: Value<B>, b: Value<B>): Maybe<Value<B>> {
    if IsCompare(op) then
      match ApplyCompare(op, a, b)
      case Some(r) => Some(VBool(r))
      case None => None
    else if op == LogicalAnd then
      if a.VBool? && b.VBool? then Some(VBool(a.b && b.b)) else None
    else if op == LogicalOr then
      if a.VBool? && b.VBool? then Some(VBool(a.b || b.b)) else None
    else if a.VInt? && b.VInt? then
      match ApplyArithmetic(op, a.n, b.n)
      case Some(r) => Some(VInt(r))
      case None => None
    else None
  }

  // ---------- Meaning of expressions ----------

  type V = Value<Expr>

  datatype Cell<B> = Cell(ty: Type, isMut: bool, val: Value<B>)

  /** The scopes of the running function, innermost last, and its closure. */
  datatype EnvOf<B> = Env(scopes: seq<seq<Cell<B>>>, closure: seq<Value<B>>)
  type Env = EnvOf<Expr>

  // A place names a scope by its position; `Fixed` is an immutable location.
  datatype OperandOf<B> = Place(scope: nat, rank: nat) | Temp(v: Value<B>) | Fixed(v: Value<B>)
  type Operand = OperandOf<Expr>

  /** `Timeout` means that the bound on nested iterations and calls was too small, `Undefined`
      that the program leaves the behaviour the interpreter defines. */
  datatype ResultOf<T, B> = Done(value: T, env: EnvOf<B>) | Error | Timeout | Undefined
  type Result<T> = ResultOf<T, Expr>

  /** An expression either leaves an operand or stores a value of a given type. */
  datatype Mode = Push | Into(ty: Type)

  predicate ValidPlace<B>(env: EnvOf<B>, scope: nat, rank: nat) {
    scope < |env.scopes| && rank < |env.scopes[scope]|
  }

  predicate Readable<B>(env: EnvOf<B>, op: OperandOf<B>) {
    op.Place? ==> ValidPlace(env, op.scope, op.rank)
  }

  function Read<B>(env: EnvOf<B>, op: OperandOf<B>): Value<B>
    requires Readable(env, op)
  {
    match op
    case Place(s, r) => env.scopes[s][r].val
    case Temp(v) => v
    case Fixed(v) => v
  }

  function OperandType<B>(env: EnvOf<B>, op: OperandOf<B>): Type
    requires Readable(env, op)
  {
    match op
    case Place(s, r) => env.scopes[s][r].ty
    case Temp(v) => v.TypeOf()
    case Fixed(v) => v.TypeOf()
  }

  predicate Mutable<B>(env: EnvOf<B>, op: OperandOf<B>)
    requires Readable(env, op)
  {
    match op
    case Place(s, r) => env.scopes[s][r].isMut
    case Temp(_) => true
    case Fixed(_) => false
  }

  function Write<B>(env: EnvOf<B>, op: OperandOf<B>, v: Value<B>): EnvOf<B>
    requires Readable(env, op)
  {
    match op
    case Place(s, r) => env.(scopes := env.scopes[s := env.scopes[s][r := env.scopes[s][r].(val := v)]])
    case Temp(_) => env
    case Fixed(_) => env
  }

  // A temporary result, converted to what the context expects.
  function Finish<B>(v: Value<B>, env: EnvOf<B>, mode: Mode): ResultOf<OperandOf<B>, B> {
    if mode.Push? || v.TypeOf() == mode.ty then Done(Temp(v), env) else Error
  }

  // A loaded location.
  function Load<B>(op: OperandOf<B>, env: EnvOf<B>, mode: Mode): ResultOf<OperandOf<B>, B> {
    if !Readable(env, op) then Undefined
    else if mode.Push? then Done(op, env)
    else if OperandType(env, op) == mode.ty then Done(Temp(Read(env, op)), env)
    else Error
  }

  function ScopedOperand(env: Env, out: nat, rank: nat): Operand {
    if out < |env.scopes| then Place(|env.scopes| - 1 - out, rank) else Place(|env.scopes|, rank)
  }

  // Expressions that leave nothing behind when compiled without a write context.
  predicate Yields(e: Expr) {
    !(e.Set? || e.OpSet? || e.For? || e.IfOnly?)
  }

  function PushScope<B>(env: EnvOf<B>): EnvOf<B> {
    env.(scopes := env.scopes + [[]])
  }

  function PopScope<B>(env: EnvOf<B>): EnvOf<B>
    requires |env.scopes| > 0
  {
    env.(scopes := env.scopes[..|env.scopes| - 1])
  }

  function Declare<B>(env: EnvOf<B>, c: Cell<B>): EnvOf<B>
    requires |env.scopes| > 0
  {
    var top := |env.scopes| - 1;
    env.(scopes := env.scopes[top := env.scopes[top] + [c]])
  }

  function CaptureOperand(env: Env, c: Capture): Operand {
    match c
    case FromClosure(slot) => if slot < |env.closure| then Fixed(env.closure[slot]) else Place(|env.scopes|, 0)
    case FromScope(out, rank) => ScopedOperand(env, out, rank)
  }

  predicate CapturesReadable(env: Env, captures: seq<Capture>) {
    forall i | 0 <= i < |captures| :: Readable(env, CaptureOperand(env, captures[i]))
  }

  function Captured(env: Env, captures: seq<Capture>): (vs: seq<V>)
    requires CapturesReadable(env, captures)
  {
    seq(|captures|, i requires 0 <= i < |captures| => Read(env, CaptureOperand(env, captures[i])))
  }

  function ParamMuts(ps: Signature): seq<bool> {
    match ps
    case Returns(_) => []
    case Param(isMut, _, rest) => [isMut] + ParamMuts(rest)
  }

  function ArgCount(args: Args): nat {
    match args
    case NoArgs => 0
    case Arg(_, rest) => 1 + ArgCount(rest)
  }

  predicate AllReadable(env: Env, ops: seq<Operand>) {
    forall i | 0 <= i < |ops| :: Readable(env, ops[i])
  }

  predicate AllTypes(env: Env, ops: seq<Operand>)
    requires AllReadable(env, ops)
  {
    forall i | 0 <= i < |ops| :: Read(env, ops[i]).VType?
  }

  function ParamTypes(env: Env, ops: seq<Operand>, muts: seq<bool>): seq<ParamType>
    requires AllReadable(env, ops) && AllTypes(env, ops) && |muts| <= |ops|
  {
    seq(|muts|, i requires 0 <= i < |muts| => ParamType(Read(env, ops[i]).ty, muts[i]))
  }

  function Eval(g: seq<Global>, e: Expr, env: Env, mode: Mode, fuel: nat): Result<Operand>
    decreases fuel, e, 1
  {
    match e
    case Lit(n) => Finish(VInt(n), env, mode)
    case Scoped(out, rank) => Load(ScopedOperand(env, out, rank), env, mode)
    case Closed(slot) => if slot < |env.closure| then Load(Fixed(env.closure[slot]), env, mode) else Undefined
    case GlobalRef(i) => if i < |g| then Load(Fixed(g[i].Val()), env, mode) else Undefined
    case Unary(op, e1) =>
      (match Eval(g, e1, env, Push, fuel)
       case Done(o1, env1) =>
         if !Readable(env1, o1) then Undefined
         else (match ApplyUnary(op, Read(env1, o1)) case Some(v) => Finish(v, env1, mode) case None => Error)
       case r => r)
    case Binary(op, l, r) => EvalBinary(g, op, l, r, env, mode, fuel)
    case IfElse(c, t, f) =>
      (match Eval(g, c, env, Push, fuel)
       case Done(o, env1) =>
         if !Readable(env1, o) then Undefined
         else if !Read(env1, o).VBool? then Error
         else if Read(env1, o).b then Eval(g, t, env1, mode, fuel)
         else Eval(g, f, env1, mode, fuel)
       case r => r)
    case IfOnly(c, t) =>
      (match Eval(g, c, env, Push, fuel)
       case Done(o, env1) =>
         if !Readable(env1, o) then Undefined
         else if !Read(env1, o).VBool? then Error
         else if !Read(env1, o).b then Finish(VVoid, env1, mode)
         else if mode.Push? then EvalDiscard(g, t, env1, fuel)
         else if mode.ty != TVoid then Error
         else Eval(g, t, env1, mode, fuel)
       case r => r)
    case For(c, body, step) => if mode.Push? then EvalLoop(g, e, env, fuel) else Undefined
    case Block(items) =>
      (match EvalItems(g, items, PushScope(env), mode, fuel)
       case Done(o, env1) =>
         if |env1.scopes| == 0 || (o.Place? && o.scope + 1 == |env1.scopes|) then Undefined
         else Done(o, PopScope(env1))
       case r => r)
    case Set(target, value) =>
      (match Eval(g, target, env, Push, fuel)
       case Done(o, env1) =>
         if !Readable(env1, o) then Undefined
         else if !Mutable(env1, o) then Error
         else
           (match Eval(g, value, env1, Into(OperandType(env1, o)), fuel)
            case Done(v, env2) =>
              if !Readable(env2, o) || !v.Temp? then Undefined else Finish(VVoid, Write(env2, o, v.v), mode)
            case r => r)
       case r => r)
    case OpSet(op, target, value) =>
      (match Eval(g, target, env, Push, fuel)
       case Done(o, env1) =>
         if !Readable(env1, o) then Undefined
         else if !Mutable(env1, o) then Error
         else
           (match Eval(g, value, env1, Push, fuel)
            case Done(o2, env2) =>
              if !Readable(env2, o) || !Readable(env2, o2) then Undefined
              else
                (match ApplyBinary(op, Read(env2, o), Read(env2, o2))
                 case Some(v) =>
                   if v.TypeOf() == OperandType(env1, o) then Finish(VVoid, Write(env2, o, v), mode) else Error
                 case None => Error)
            case r => r)
       case r => r)
    case Func(signature, captures, body) =>
      (match EvalTypes(g, signature, env, fuel)
       case Done(ops, env1) =>
         if !AllReadable(env1, ops) || |ops| != |ParamMuts(signature)| + 1 then Undefined
         else if !AllTypes(env1, ops) then Error
         else if !CapturesReadable(env1, captures) then Undefined
         else
           var sig := ParamTypes(env1, ops, ParamMuts(signature));
           Finish(VFunc(sig, Read(env1, ops[|ops| - 1]).ty, body, Captured(env1, captures)), env1, mode)
       case Error => Error
       case Timeout => Timeout
       case Undefined => Undefined)
    case Call(callee, args) => EvalCall(g, callee, args, env, mode, fuel)
  }

  function EvalBinary(g: seq<Global>, op: BinaryKind, l: Expr, r: Expr, env: Env, mode: Mode,
      fuel: nat): Result<Operand>
    decreases fuel, Binary(op, l, r), 0
  {
    match Eval(g, l, env, Push, fuel)
    case Done(o1, env1) =>
      (match Eval(g, r, env1, Push, fuel)
       case Done(o2, env2) =>
         if !Readable(env2, o1) || !Readable(env2, o2) then Undefined
         else
           (match ApplyBinary(op, Read(env2, o1), Read(env2, o2))
            case Some(v) => Finish(v, env2, mode)
            case None => Error)
       case r => r)
    case r => r
  }

  // Evaluated for its effects; a value it leaves must be void.
  function EvalDiscard(g: seq<Global>, e: Expr, env: Env, fuel: nat): Result<Operand>
    decreases fuel, e, 2
  {
    match Eval(g, e, env, Push, fuel)
    case Done(o, env1) =>
      if !Yields(e) then Done(Temp(VVoid), env1)
      else if !Readable(env1, o) then Undefined
      else if OperandType(env1, o) != TVoid then Error
      else Done(Temp(VVoid), env1)
    case r => r
  }

  function EvalStep(g: seq<Global>, s: LoopStep, env: Env, fuel: nat): Result<Operand>
    decreases fuel, s, 0
  {
    match s
    case NoStep => Done(Temp(VVoid), env)
    case Advance(e) => EvalDiscard(g, e, env, fuel)
  }

  function EvalLoop(g: seq<Global>, e: Expr, env: Env, fuel: nat): Result<Operand>
    requires e.For?
    decreases fuel, e, 0
  {
    match Eval(g, e.cond, env, Push, fuel)
    case Done(o, env1) =>
      if !Readable(env1, o) then Undefined
      else if !Read(env1, o).VBool? then Error
      else if !Read(env1, o).b then Done(Temp(VVoid), env1)
      else
        (match EvalDiscard(g, e.body, env1, fuel)
         case Done(_, env2) =>
           (match EvalStep(g, e.step, env2, fuel)
            case Done(_, env3) => if fuel == 0 then Timeout else EvalLoop(g, e, env3, fuel - 1)
            case r => r)
         case r => r)
    case r => r
  }

  // The statements of a block, in the block's own scope.
  function EvalItems(g: seq<Global>, items: Items, env: Env, mode: Mode, fuel: nat): Result<Operand>
    decreases fuel, items, 0
  {
    match items
    case End => Finish(VVoid, env, mode)
    case Let(isMut, value, rest) =>
      (match Eval(g, value, env, Push, fuel)
       case Done(o, env1) =>
         if !Readable(env1, o) || |env1.scopes| == 0 then Undefined
         else
           EvalItems(g, rest, Declare(env1, Cell(OperandType(env1, o), isMut, Read(env1, o))), mode, fuel)
       case r => r)
    case TypedLet(isMut, ty, value, rest) =>
      (match Eval(g, ty, env, Push, fuel)
       case Done(o, env1) =>
         if !Readable(env1, o) then Undefined
         else if !Read(env1, o).VType? then Error
         else
           var t := Read(env1, o).ty;
           (match Eval(g, value, env1, Into(t), fuel)
            case Done(v, env2) =>
              if !v.Temp? || |env2.scopes| == 0 then Undefined
              else EvalItems(g, rest, Declare(env2, Cell(t, isMut, v.v)), mode, fuel)
            case r => r)
       case r => r)
    case Do(e, rest) =>
      if rest.End? then
        (match Eval(g, e, env, mode, fuel)
         case Done(o, env1) => Done(if mode.Push? && !Yields(e) then Temp(VVoid) else o, env1)
         case r => r)
      else
        (match EvalDiscard(g, e, env, fuel)
         case Done(_, env1) => EvalItems(g, rest, env1, mode, fuel)
         case r => r)
  }

  // The parameter types, in order, followed by the return type.
  function EvalTypes(g: seq<Global>, ps: Signature, env: Env, fuel: nat): Result<seq<Operand>>
    decreases fuel, ps, 0
  {
    match ps
    case Returns(ret) =>
      (match Eval(g, ret, env, Push, fuel)
       case Done(o, env1) => Done([o], env1)
       case Error => Error
       case Timeout => Timeout
       case Undefined => Undefined)
    case Param(_, ty, rest) =>
      (match Eval(g, ty, env, Push, fuel)
       case Done(o, env1) =>
         (match EvalTypes(g, rest, env1, fuel)
          case Done(os, env2) => Done([o] + os, env2)
          case Error => Error
          case Timeout => Timeout
          case Undefined => Undefined)
       case Error => Error
       case Timeout => Timeout
       case Undefined => Undefined)
  }

  // Arguments are stored into the parameters one after the other.
  function EvalArgs(g: seq<Global>, args: Args, ps: seq<ParamType>, env: Env, fuel: nat): Result<seq<Cell<Expr>>>
    requires ArgCount(args) == |ps|
    decreases fuel, args, 0
  {
    match args
    case NoArgs => Done([], env)
    case Arg(e, rest) =>
      (match Eval(g, e, env, Into(ps[0].ty), fuel)
       case Done(v, env1) =>
         if !v.Temp? then Undefined
         else
           (match EvalArgs(g, rest, ps[1..], env1, fuel)
            case Done(cells, env2) => Done([Cell(ps[0].ty, ps[0].isMut, v.v)] + cells, env2)
            case Error => Error
            case Timeout => Timeout
            case Undefined => Undefined)
       case Error => Error
       case Timeout => Timeout
       case Undefined => Undefined)
  }

  function EvalCall(g: seq<Global>, callee: Expr, args: Args, env: Env, mode: Mode, fuel: nat): Result<Operand>
    decreases fuel, Call(callee, args), 0
  {
    match Eval(g, callee, env, Push, fuel)
    case Done(o, env1) =>
      if !Readable(env1, o) then Undefined
      else
        var f := Read(env1, o);
        if !f.VFunc? || ArgCount(args) != |f.params| then Error
        else
          (match EvalArgs(g, args, f.params, env1, fuel)
           case Done(cells, env2) =>
             if !Readable(env2, o) || Read(env2, o).TypeOf() != f.TypeOf() then Undefined
             else if mode.Into? && mode.ty != f.ret then Error
             else if fuel == 0 then Timeout
             else
               var f' := Read(env2, o);
               (match Eval(g, f'.body, Env([cells], f'.closure), Into(f.ret), fuel - 1)
                case Done(v, _) => if v.Temp? then Done(v, env2) else Undefined
                case r => r)
           case Error => Error
           case Timeout => Timeout
           case Undefined => Undefined)
    case r => r
  }
}
