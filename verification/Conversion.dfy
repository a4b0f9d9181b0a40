/** Closure conversion preserves meaning: a resolved expression does what the named one does. */
module Conversion {
  import opened Basics
  import opened Lang
  import opened Named
  import opened Resolve
  import opened Closures

  // ---------- What a function value stands for ----------

  function Settled(s: LexScope): (names: seq<Name>) {
    if s.defining && |s.names| > 0 then s.names[..|s.names| - 1] else s.names
  }

  predicate DefinedIn(scopes: seq<LexScope>, name: Name) {
    exists i | 0 <= i < |scopes| :: name in Settled(scopes[i])
  }

  // A snapshot holds exactly the variables that were visible.
  ghost predicate SnapshotOf(scopes: seq<LexScope>, captured: seq<Name>) {
    forall name: Name :: name in captured <==> DefinedIn(scopes, name)
  }

  /** The function was created inside `scopes`: `body` is its resolved body, and its closure
      holds the values of `closure`. */
  ghost predicate Made(w: World, scopes: seq<LexScope>, code: Code, body: Expr, closure: seq<Name>) {
    var r := ResolveExpr(w, code.body, Enter(scopes, code.params));
    && LexOk(scopes) && SnapshotOf(scopes, code.captured)
    && r.Resolved? && r.value == body && |r.scopes| == |scopes| + 1 && r.scopes[|scopes|].closure == Some(closure)
  }

  ghost predicate Same(w: World, nv: NV, v: V)
    decreases nv
  {
    match nv
    case VInt(n) => v == VInt(n)
    case VBool(b) => v == VBool(b)
    case VVoid => v == VVoid
    case VType(ty) => v == VType(ty)
    case VFunc(params, ret, code, values) =>
      && v.VFunc? && v.params == params && v.ret == ret
      && |code.params| == |params| && |code.captured| == |values|
      && exists scopes: seq<LexScope>, closure: seq<Name> ::
           && Made(w, scopes, code, v.body, closure) && |v.closure| == |closure|
           && forall k | 0 <= k < |closure| ::
                && closure[k] in code.captured
                && Same(w, values[IndexOf(code.captured, closure[k])], v.closure[k])
  }

  ghost predicate SameCell(w: World, a: Cell<Code>, b: Cell<Expr>) {
    a.ty == b.ty && a.isMut == b.isMut && Same(w, a.val, b.val)
  }

  ghost predicate SameCellSeq(w: World, a: seq<Cell<Code>>, b: seq<Cell<Expr>>) {
    |a| == |b| && forall r | 0 <= r < |a| :: SameCell(w, a[r], b[r])
  }

  ghost predicate SameClosure(w: World, closure: seq<Name>, captured: seq<Name>, a: seq<NV>, b: seq<V>) {
    && |a| == |captured| && |b| == |closure|
    && forall k | 0 <= k < |closure| :: closure[k] in captured && Same(w, a[IndexOf(captured, closure[k])], b[k])
  }

  /** The same variables with the same values; the resolved closure holds those of `closure`. */
  ghost predicate SameEnv(w: World, closure: seq<Name>, c: Context, a: NEnv, b: Env) {
    && |a.scopes| == |b.scopes| == |c.names|
    && (forall s | 0 <= s < |a.scopes| :: |c.names[s]| == |a.scopes[s]| && SameCellSeq(w, a.scopes[s], b.scopes[s]))
    && SameClosure(w, closure, c.captured, a.closure, b.closure)
  }

  ghost predicate SameOperand(w: World, a: NOperand, b: Operand) {
    match a
    case Place(s, r) => b == Place(s, r)
    case Temp(v) => b.Temp? && Same(w, v, b.v)
    case Fixed(v) => b.Fixed? && Same(w, v, b.v)
  }

  /** Both evaluations end the same way. */
  ghost predicate SameResult(w: World, closure: seq<Name>, c: Context, a: NResult<NOperand>, b: Result<Operand>) {
    match a
    case Done(o, env) => b.Done? && SameOperand(w, o, b.value) && SameEnv(w, closure, c, env, b.env)
    case Error => b.Error?
    case Timeout => b.Timeout?
    case Undefined => b.Undefined?
  }

  // ---------- Operands and operators ----------

  lemma SameKinds(w: World, a: NV, b: V)
    requires Same(w, a, b)
    ensures a.TypeOf() == b.TypeOf() && a.VBool? == b.VBool? && a.VType? == b.VType? && a.VFunc? == b.VFunc?
    ensures a.VBool? ==> a.b == b.b
    ensures a.VType? ==> a.ty == b.ty
    ensures a.VFunc? ==> a.params == b.params && a.ret == b.ret
    ensures a.VInt? == b.VInt? && (a.VInt? ==> a.n == b.n)
  {
  }

  lemma SameScalars(w: World)
    ensures forall n :: Same(w, VInt(n), VInt(n))
    ensures forall b :: Same(w, VBool(b), VBool(b))
  {
  }

  lemma SameUnary(w: World, op: UnaryKind, a: NV, b: V)
    requires Same(w, a, b)
    ensures ApplyUnary(op, a).Some? == ApplyUnary(op, b).Some?
    ensures ApplyUnary(op, a).Some? ==> Same(w, ApplyUnary(op, a).value, ApplyUnary(op, b).value)
  {
  }

  lemma SameCompare(w: World, op: BinaryKind, a: NV, b: V, a': NV, b': V)
    requires Same(w, a, b) && Same(w, a', b')
    ensures ApplyCompare(op, a, a') == ApplyCompare(op, b, b')
  {
  }

  lemma SameBinary(w: World, op: BinaryKind, a: NV, b: V, a': NV, b': V)
    requires Same(w, a, b) && Same(w, a', b')
    ensures ApplyBinary(op, a, a').Some? == ApplyBinary(op, b, b').Some?
    ensures ApplyBinary(op, a, a').Some? ==> Same(w, ApplyBinary(op, a, a').value, ApplyBinary(op, b, b').value)
  {
    hide ApplyCompare, ApplyArithmetic, Same;
    SameCompare(w, op, a, b, a', b');
    SameKinds(w, a, b);
    SameKinds(w, a', b');
    SameScalars(w);
  }

  lemma SameRead(w: World, closure: seq<Name>, c: Context, a: NEnv, b: Env, o: NOperand, o': Operand)
    requires SameEnv(w, closure, c, a, b) && SameOperand(w, o, o')
    ensures Readable(a, o) == Readable(b, o')
    ensures Readable(a, o) ==>
      && Same(w, Read(a, o), Read(b, o')) && OperandType(a, o) == OperandType(b, o') && Mutable(a, o) == Mutable(b, o')
  {
    hide Same, SameClosure;
    if o.Place? && o.scope < |a.scopes| {
      assert SameCellSeq(w, a.scopes[o.scope], b.scopes[o.scope]);
      if o.rank < |a.scopes[o.scope]| {
        assert SameCell(w, a.scopes[o.scope][o.rank], b.scopes[o.scope][o.rank]);
      }
    } else if o.Temp? {
      SameKinds(w, o.v, o'.v);
    } else if o.Fixed? {
      SameKinds(w, o.v, o'.v);
    }
  }

  lemma SameWrite(w: World, closure: seq<Name>, c: Context, a: NEnv, b: Env, o: NOperand, o': Operand, v: NV, v': V)
    requires SameEnv(w, closure, c, a, b) && SameOperand(w, o, o') && Readable(a, o) && Same(w, v, v')
    ensures Readable(b, o') && SameEnv(w, closure, c, Write(a, o, v), Write(b, o', v'))
  {
    hide Same, SameClosure;
    SameRead(w, closure, c, a, b, o, o');
    if o.Place? {
      assert SameCellSeq(w, a.scopes[o.scope], b.scopes[o.scope]);
      assert SameCell(w, a.scopes[o.scope][o.rank], b.scopes[o.scope][o.rank]);
      var a', b' := Write(a, o, v), Write(b, o', v');
      forall s | 0 <= s < |a'.scopes|
        ensures |c.names[s]| == |a'.scopes[s]| && SameCellSeq(w, a'.scopes[s], b'.scopes[s])
      {
        assert SameCellSeq(w, a.scopes[s], b.scopes[s]);
      }
    }
  }

  lemma SameFinish(w: World, closure: seq<Name>, c: Context, a: NEnv, b: Env, v: NV, v': V, mode: Mode)
    requires SameEnv(w, closure, c, a, b) && Same(w, v, v')
    ensures SameResult(w, closure, c, Finish(v, a, mode), Finish(v', b, mode))
  {
    hide Same, SameEnv;
    SameKinds(w, v, v');
  }

  lemma SameLoad(w: World, closure: seq<Name>, c: Context, a: NEnv, b: Env, o: NOperand, o': Operand, mode: Mode)
    requires SameEnv(w, closure, c, a, b) && SameOperand(w, o, o')
    ensures SameResult(w, closure, c, Load(o, a, mode), Load(o', b, mode))
  {
    hide Same, SameEnv;
    SameRead(w, closure, c, a, b, o, o');
  }

  // ---------- Names ----------

  function Base(scopes: seq<LexScope>): (b: nat)
    ensures b <= |scopes|
  {
    if Own(scopes).Some? then Own(scopes).value else 0
  }

  function OwnClosure(scopes: seq<LexScope>): seq<Name> {
    if Own(scopes).Some? then scopes[Own(scopes).value].closure.value else []
  }

  /** The context at a point of the program: the running function's own scopes, and what its
      creation found in the scopes around it. */
  ghost predicate ContextOf(scopes: seq<LexScope>, c: Context) {
    var b := Base(scopes);
    && |c.names| == |scopes| - b
    && (forall s | 0 <= s < |c.names| :: c.names[s] == Settled(scopes[b + s]))
    && SnapshotOf(scopes[..b], c.captured)
  }

  lemma {:induction false} IndexOfPrefix(a: seq<Name>, b: seq<Name>, name: Name)
    requires a <= b && name in a
    ensures IndexOf(a, name) == IndexOf(b, name)
  {
    if a[0] != name {
      assert a[1..] <= b[1..];
      IndexOfPrefix(a[1..], b[1..], name);
    }
  }

  lemma {:induction false} IndexOfAppend(a: seq<Name>, b: seq<Name>, name: Name)
    ensures IndexOf(a + b, name) == if name in a then IndexOf(a, name) else |a| + IndexOf(b, name)
  {
    if a == [] {
      assert a + b == b;
    } else if a[0] != name {
      assert (a + b)[1..] == a[1..] + b;
      IndexOfAppend(a[1..], b, name);
    }
  }

  // A name that is not being defined is settled, at the same rank.
  lemma SettledRank(s: LexScope, name: Name)
    requires name in s.names
    ensures BeingDefined(s, name) || (name in Settled(s) && IndexOf(Settled(s), name) == IndexOf(s.names, name))
  {
    if !BeingDefined(s, name) && s.defining {
      var k := IndexOf(s.names, name);
      assert Settled(s)[k] == name;
      IndexOfPrefix(Settled(s), s.names, name);
    }
  }

  lemma FoundCaptured(captured: seq<Name>, name: Name)
    ensures Found([], captured, name) == if name in captured then Some(Kept(IndexOf(captured, name))) else None
  {
    assert BindingNames(CapturedBindings(captured)) == captured;
  }

  lemma {:induction false} FoundStep(names: seq<seq<Name>>, captured: seq<Name>, name: Name)
    requires |names| > 0
    ensures var top := |names| - 1;
      Found(names, captured, name) ==
        if name in names[top] then Some(Local(top, IndexOf(names[top], name)))
        else Found(names[..top], captured, name)
  {
    var top := |names| - 1;
    var bs, rest := ScopeBindings(names[top], top), Visible(names[..top], captured);
    assert BindingNames(bs) == names[top];
    assert BindingNames(bs + rest) == BindingNames(bs) + BindingNames(rest);
    IndexOfAppend(BindingNames(bs), BindingNames(rest), name);
  }

  /** The innermost scope of the function that has the name, or else the snapshot. */
  lemma {:induction false} FoundIn(names: seq<seq<Name>>, captured: seq<Name>, name: Name, s: nat)
    requires s <= |names| && forall j | s <= j < |names| :: name !in names[j]
    ensures s > 0 && name in names[s - 1] ==>
      Found(names, captured, name) == Some(Local(s - 1, IndexOf(names[s - 1], name)))
    ensures s == 0 ==> Found(names, captured, name) == if name in captured then Some(Kept(IndexOf(captured, name)))
        else None
    decreases |names|
  {
    if |names| == 0 {
      FoundCaptured(captured, name);
    } else {
      FoundStep(names, captured, name);
      if s < |names| {
        FoundIn(names[..|names| - 1], captured, name, s);
      }
    }
  }

  // Where a settled name is found, from the scopes.
  lemma FoundFrom(scopes: seq<LexScope>, c: Context, name: Name)
    requires ContextOf(scopes, c)
    requires Find(scopes, name).Some? ==> !BeingDefined(scopes[Find(scopes, name).value], name)
    ensures Find(scopes, name).None? ==> Found(c.names, c.captured, name) == None
    ensures Find(scopes, name).Some? ==>
      var i := Find(scopes, name).value;
      Found(c.names, c.captured, name) ==
        if ClosedOver(scopes, i) then Some(Kept(IndexOf(c.captured, name)))
        else Some(Local(i - Base(scopes), IndexOf(scopes[i].names, name)))
    ensures Find(scopes, name).Some? && ClosedOver(scopes, Find(scopes, name).value) ==> name in c.captured
    ensures Find(scopes, name).Some? && !ClosedOver(scopes, Find(scopes, name).value) ==>
      Find(scopes, name).value >= Base(scopes)
  {
    hide Found, ContextOf, Find;
    match Find(scopes, name)
    case None => FoundNoScope(scopes, c, name);
    case Some(i) =>
      if i >= Base(scopes) { FoundLocal(scopes, c, name, i); } else { FoundKept(scopes, c, name, i); }
  }

  // A name that is in none of the scopes from `low` on is not settled in them either.
  lemma NotFrom(scopes: seq<LexScope>, c: Context, name: Name, low: nat)
    requires ContextOf(scopes, c) && Base(scopes) <= low <= |scopes|
    requires forall j | low <= j < |scopes| :: name !in scopes[j].names
    ensures |c.names| == |scopes| - Base(scopes)
    ensures forall s | low - Base(scopes) <= s < |c.names| :: name !in c.names[s]
  {
    hide Base, SnapshotOf;
    forall s | low - Base(scopes) <= s < |c.names|
      ensures name !in c.names[s]
    {
      assert name !in scopes[Base(scopes) + s].names;
    }
  }

  lemma FoundNoScope(scopes: seq<LexScope>, c: Context, name: Name)
    requires ContextOf(scopes, c) && Find(scopes, name).None?
    ensures Found(c.names, c.captured, name) == None
  {
    hide Found, Find, Own, Settled, Base;
    NotFrom(scopes, c, name, Base(scopes));
    NotSettled(scopes, name);
    FoundIn(c.names, c.captured, name, 0);
  }

  lemma NotSettled(scopes: seq<LexScope>, name: Name)
    requires forall j | 0 <= j < |scopes| :: name !in scopes[j].names
    ensures !DefinedIn(scopes[..Base(scopes)], name)
  {
    hide Base;
  }

  lemma FoundLocal(scopes: seq<LexScope>, c: Context, name: Name, i: nat)
    requires ContextOf(scopes, c) && Find(scopes, name) == Some(i)
    requires !BeingDefined(scopes[i], name) && i >= Base(scopes)
    ensures !ClosedOver(scopes, i)
    ensures Found(c.names, c.captured, name) == Some(Local(i - Base(scopes), IndexOf(scopes[i].names, name)))
  {
    hide Found, Find, Own, Settled, SnapshotOf, IndexOf;
    var b := Base(scopes);
    NotFrom(scopes, c, name, i + 1);
    SettledRank(scopes[i], name);
    assert c.names[i - b] == Settled(scopes[b + (i - b)]);
    FoundIn(c.names, c.captured, name, i - b + 1);
  }

  lemma FoundKept(scopes: seq<LexScope>, c: Context, name: Name, i: nat)
    requires ContextOf(scopes, c) && Find(scopes, name) == Some(i)
    requires !BeingDefined(scopes[i], name) && i < Base(scopes)
    ensures ClosedOver(scopes, i) && name in c.captured
    ensures Found(c.names, c.captured, name) == Some(Kept(IndexOf(c.captured, name)))
  {
    hide Found, Find, Own, Settled, IndexOf;
    NotFrom(scopes, c, name, Base(scopes));
    SettledRank(scopes[i], name);
    assert name in Settled(scopes[..Base(scopes)][i]);
    FoundIn(c.names, c.captured, name, 0);
  }
}
