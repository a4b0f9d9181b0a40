/** What the operators of the language mean, said without computing them, and that expressions
    with operators evaluate accordingly. */
module Operations {
  import opened Basics
  import opened Lang
  import opened Named

  // ---------- Numbers ----------

  // The sum of `n` copies of `a`.
  function Copies(a: int, n: nat): int {
    if n == 0 then 0 else a + Copies(a, n - 1)
  }

  predicate Product(a: int, b: int, d: int) {
    if b >= 0 then d == Copies(a, b) else d + Copies(a, -b) == 0
  }

  // Division toward zero: the remainder is shorter than the divisor and on the side of the dividend.
  predicate Divides(a: int, b: int, q: int, r: int) {
    a == q * b + r && -Size(b) < r < Size(b) && (r == 0 || (r < 0 <==> a < 0))
  }

  function Size(b: int): (n: int)
    ensures n >= 0 && (n == b || n == -b)
  {
    if b < 0 then -b else b
  }

  ghost predicate ArithmeticMeans(op: BinaryKind, a: int, b: int, d: Maybe<int>) {
    match op
    case Add | AddTC => d.Some? && d.value - b == a
    case Sub | SubTC => d.Some? && d.value + b == a
    case Mul | MulTC => d.Some? && Product(a, b, d.value)
    case Div => if b == 0 then d.None? else d.Some? && exists r :: Divides(a, b, d.value, r)
    case Mod => if b == 0 then d.None? else d.Some? && exists q :: Divides(a, b, q, d.value)
    case _ => d.None?
  }

  // ---------- Values ----------

  // Functions do not compare, nor do values of different types.
  predicate Comparable<B>(a: Value<B>, b: Value<B>) {
    (a.VInt? && b.VInt?) || (a.VBool? && b.VBool?) || (a.VVoid? && b.VVoid?) || (a.VType? && b.VType?)
  }

  predicate IsArithmetic(op: BinaryKind) {
    op.Add? || op.Sub? || op.Mul? || op.Div? || op.AddTC? || op.SubTC? || op.MulTC? || op.Mod?
  }

  ghost predicate IsTruth<B>(r: Maybe<Value<B>>, truth: bool) {
    r.Some? && r.value.VBool? && (r.value.b <==> truth)
  }

  /** The result of a binary operator on two values; none if it is an error. */
  ghost predicate BinaryMeans<B>(op: BinaryKind, a: Value<B>, b: Value<B>, r: Maybe<Value<B>>) {
    if IsArithmetic(op) then
      if a.VInt? && b.VInt? then
        if r.Some? then r.value.VInt? && ArithmeticMeans(op, a.n, b.n, Some(r.value.n))
        else ArithmeticMeans(op, a.n, b.n, None)
      else r.None?
    else if op.LogicalAnd? || op.LogicalOr? then
      if a.VBool? && b.VBool? then TruthMeans(op, a.b, b.b, r) else r.None?
    else if op.Equal? || op.NotEqual? then
      if Comparable(a, b) then IsTruth(r, if op.Equal? then a == b else a != b) else r.None?
    else if a.VInt? && b.VInt? then OrderMeans(op, a.n, b.n, r)
    else r.None?
  }

  ghost predicate TruthMeans<B>(op: BinaryKind, a: bool, b: bool, r: Maybe<Value<B>>) {
    match (a, b)
    case (true, true) => IsTruth(r, true)
    case (true, false) => IsTruth(r, op.LogicalOr?)
    case (false, true) => IsTruth(r, op.LogicalOr?)
    case (false, false) => IsTruth(r, false)
  }

  // Which of less, equal and greater an order accepts.
  ghost predicate OrderMeans<B>(op: BinaryKind, a: int, b: int, r: Maybe<Value<B>>) {
    if a < b then IsTruth(r, op.LessThan? || op.LessOrEqual?)
    else if b < a then IsTruth(r, op.GreaterThan? || op.GreaterOrEqual?)
    else IsTruth(r, op.LessOrEqual? || op.GreaterOrEqual?)
  }

  ghost predicate UnaryMeans<B>(op: UnaryKind, v: Value<B>, r: Maybe<Value<B>>) {
    match op
    case Negate => if v.VInt? then r.Some? && r.value.VInt? && r.value.n + v.n == 0 else r.None?
    case Plus => if v.VInt? then r == Some(v) else r.None?
    case LogicalNot => if v.VBool? then IsTruth(r, v.b == false) else r.None?
  }

  // ---------- The operators of the interpreter ----------

  lemma {:induction false} CopiesTimes(a: int, n: nat)
    ensures Copies(a, n) == a * n
  {
    if n == 0 {
    } else {
      CopiesTimes(a, n - 1);
      assert a * n == a * (n - 1) + a;
    }
  }

  lemma ProductTimes(a: int, b: int, d: int)
    ensures Product(a, b, d) <==> d == a * b
  {
    if b >= 0 {
      CopiesTimes(a, b);
    } else {
      CopiesTimes(a, -b);
      assert a * -b == -(a * b);
    }
  }

  // Absolute values are divided, then the quotient gets its sign.
  lemma DividesTrunc(a: int, b: int)
    requires b != 0
    ensures Divides(a, b, TruncDiv(a, b), a - TruncDiv(a, b) * b)
  {
    var m: nat, n: nat := Abs(a), Abs(b);
    var q, r := m / n, m % n;
    assert m == q * n + r;
    Signs(q, n);
    assert TruncDiv(a, b) * b == if a < 0 then -(q * n) else q * n;
  }

  lemma Signs(q: int, n: int)
    ensures -q * -n == q * n && q * -n == -(q * n) && -q * n == -(q * n)
  {
  }

  lemma DividesOnce(a: int, b: int, q: int, r: int, q': int, r': int)
    requires Divides(a, b, q, r) && Divides(a, b, q', r')
    ensures q == q' && r == r'
  {
    assert (q - q') * b == r' - r;
    if q - q' > 0 {
      Longer(q - q', b);
    } else if q - q' < 0 {
      Longer(q - q', b);
    }
  }

  lemma Longer(k: int, b: int)
    requires k != 0
    ensures k * b >= Size(b) || k * b <= -Size(b)
  {
    if k > 0 {
      if b >= 0 { assert (k - 1) * b >= 0; assert k * b == (k - 1) * b + b; }
      else { assert (k - 1) * -b >= 0; assert k * b == -((k - 1) * -b) + b; }
    } else {
      if b >= 0 { assert (-k - 1) * b >= 0; assert k * b == -((-k - 1) * b) - b; }
      else { assert (-k - 1) * -b >= 0; assert k * b == (-k - 1) * -b - b; }
    }
  }

  lemma ArithmeticExact(op: BinaryKind, a: int, b: int, d: Maybe<int>)
    ensures ArithmeticMeans(op, a, b, d) <==> d == ApplyArithmetic(op, a, b)
  {
    hide TruncDiv, Divides, Product;
    if d.Some? { ProductTimes(a, b, d.value); }
    if b != 0 {
      var q := TruncDiv(a, b);
      var r := a - q * b;
      DividesTrunc(a, b);
      if d.Some? {
        forall s | Divides(a, b, d.value, s)
          ensures d.value == q
        {
          DividesOnce(a, b, q, r, d.value, s);
        }
        forall s | Divides(a, b, s, d.value)
          ensures d.value == r
        {
          DividesOnce(a, b, q, r, s, d.value);
        }
      }
    }
  }

  /** The operators of the interpreter have that meaning and no other. */
  lemma BinaryExact<B>(op: BinaryKind, a: Value<B>, b: Value<B>, r: Maybe<Value<B>>)
    ensures BinaryMeans(op, a, b, r) <==> r == ApplyBinary(op, a, b)
  {
    hide ApplyArithmetic, ArithmeticMeans;
    if a.VInt? && b.VInt? {
      ArithmeticExact(op, a.n, b.n, None);
      if r.Some? && r.value.VInt? { ArithmeticExact(op, a.n, b.n, Some(r.value.n)); }
    }
  }

  lemma UnaryExact<B>(op: UnaryKind, v: Value<B>, r: Maybe<Value<B>>)
    ensures UnaryMeans(op, v, r) <==> r == ApplyUnary(op, v)
  {
  }

  // ---------- Expressions ----------

  // What is left where a computed value is expected.
  ghost predicate Delivered<B>(r: ResultOf<OperandOf<B>, B>, v: Maybe<Value<B>>, env: EnvOf<B>, mode: Mode) {
    if v.None? || (mode.Into? && v.value.TypeOf() != mode.ty) then r.Error? else r == Done(Temp(v.value), env)
  }

  /** An operator is applied to the values its operands have when all of them are evaluated. */
  lemma UnaryEvaluated(g: seq<Global>, e: Expr, env: Env, mode: Mode, fuel: nat)
    requires e.Unary?
    ensures var r := Eval(g, e.operand, env, Push, fuel);
      r.Done? && Readable(r.env, r.value) ==>
        exists v | UnaryMeans(e.uop, Read(r.env, r.value), v) :: Delivered(Eval(g, e, env, mode, fuel), v, r.env, mode)
  {
    var r := Eval(g, e.operand, env, Push, fuel);
    if r.Done? && Readable(r.env, r.value) {
      var v := ApplyUnary(e.uop, Read(r.env, r.value));
      UnaryExact(e.uop, Read(r.env, r.value), v);
      assert Delivered(Eval(g, e, env, mode, fuel), v, r.env, mode);
    }
  }

  lemma BinaryEvaluated(g: seq<Global>, e: Expr, env: Env, mode: Mode, fuel: nat)
    requires e.Binary?
    ensures var l := Eval(g, e.lhs, env, Push, fuel);
      l.Done? ==>
        var r := Eval(g, e.rhs, l.env, Push, fuel);
        r.Done? && Readable(r.env, l.value) && Readable(r.env, r.value) ==>
          exists v | BinaryMeans(e.bop, Read(r.env, l.value), Read(r.env, r.value), v) ::
            Delivered(Eval(g, e, env, mode, fuel), v, r.env, mode)
  {
    hide ApplyBinary, BinaryMeans;
    var l := Eval(g, e.lhs, env, Push, fuel);
    if l.Done? {
      var r := Eval(g, e.rhs, l.env, Push, fuel);
      if r.Done? && Readable(r.env, l.value) && Readable(r.env, r.value) {
        var v := ApplyBinary(e.bop, Read(r.env, l.value), Read(r.env, r.value));
        BinaryExact(e.bop, Read(r.env, l.value), Read(r.env, r.value), v);
        assert Delivered(Eval(g, e, env, mode, fuel), v, r.env, mode);
      }
    }
  }

  /** The same before names are resolved. */
  lemma NUnaryEvaluated(w: World, e: NExpr, c: Context, env: NEnv, mode: Mode, fuel: nat)
    requires e.NUnary?
    ensures var r := NEval(w, e.operand, c, env, Push, fuel);
      r.Done? && Readable(r.env, r.value) ==>
        exists v | UnaryMeans(e.uop, Read(r.env, r.value), v) ::
          Delivered(NEval(w, e, c, env, mode, fuel), v, r.env, mode)
  {
    var r := NEval(w, e.operand, c, env, Push, fuel);
    if r.Done? && Readable(r.env, r.value) {
      var v := ApplyUnary(e.uop, Read(r.env, r.value));
      UnaryExact(e.uop, Read(r.env, r.value), v);
      assert Delivered(NEval(w, e, c, env, mode, fuel), v, r.env, mode);
    }
  }

  lemma NBinaryEvaluated(w: World, e: NExpr, c: Context, env: NEnv, mode: Mode, fuel: nat)
    requires e.NBinary?
    ensures var l := NEval(w, e.lhs, c, env, Push, fuel);
      l.Done? ==>
        var r := NEval(w, e.rhs, c, l.env, Push, fuel);
        r.Done? && Readable(r.env, l.value) && Readable(r.env, r.value) ==>
          exists v | BinaryMeans(e.bop, Read(r.env, l.value), Read(r.env, r.value), v) ::
            Delivered(NEval(w, e, c, env, mode, fuel), v, r.env, mode)
  {
    hide ApplyBinary, BinaryMeans;
    var l := NEval(w, e.lhs, c, env, Push, fuel);
    if l.Done? {
      var r := NEval(w, e.rhs, c, l.env, Push, fuel);
      if r.Done? && Readable(r.env, l.value) && Readable(r.env, r.value) {
        var v := ApplyBinary(e.bop, Read(r.env, l.value), Read(r.env, r.value));
        BinaryExact(e.bop, Read(r.env, l.value), Read(r.env, r.value), v);
        assert Delivered(NEval(w, e, c, env, mode, fuel), v, r.env, mode);
      }
    }
  }

  // ---------- Types and globals ----------

  /** A value's type tells what kind of value it is, and of a function what it takes and gives. */
  lemma TypesTell<B>(v: Value<B>)
    ensures v.VInt? <==> v.TypeOf() == TInt
    ensures v.VBool? <==> v.TypeOf() == TBool
    ensures v.VVoid? <==> v.TypeOf() == TVoid
    ensures v.VType? <==> v.TypeOf() == TType
    ensures v.VFunc? <==> v.TypeOf().TFunc?
    ensures v.VFunc? ==> v.TypeOf().params == v.params && v.TypeOf().ret == v.ret
  {
  }

  /** A global that is used stands for its content, which cannot be assigned to. */
  lemma GlobalEvaluated(g: seq<Global>, i: nat, env: Env, fuel: nat)
    requires i < |g|
    ensures var r := Eval(g, GlobalRef(i), env, Push, fuel);
      && r.Done? && r.env == env && Readable(env, r.value) && !Mutable(env, r.value)
      && match g[i]
         case GInt(n) => Read(env, r.value) == VInt(n)
         case GBool(b) => Read(env, r.value) == VBool(b)
         case GVoid => Read(env, r.value) == VVoid
         case GType(ty) => Read(env, r.value) == VType(ty)
  {
  }
}
