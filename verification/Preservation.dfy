/** The proof that a resolved program evaluates like the named one, step for step. */
module Preservation {
  import opened Basics
  import opened Lang
  import opened Named
  import opened Resolve
  import opened Closures
  import opened Conversion

  // ---------- From part to part ----------

  lemma Onward(scopes: seq<LexScope>, after: seq<LexScope>, c: Context)
    requires Steady(scopes, after) && LexOk(scopes) && ContextOf(scopes, c)
    ensures LexOk(after) && ContextOf(after, c)
  {
    hide LexOk, SnapshotOf, Settled;
    OwnGrows(scopes, after);
    SettledGrows(scopes, after);
    SnapshotGrows(scopes[..Base(scopes)], after[..Base(scopes)], c.captured);
  }

  lemma SettledGrows(scopes: seq<LexScope>, after: seq<LexScope>)
    requires Grows(scopes, after)
    ensures forall i | 0 <= i < |scopes| :: Settled(after[i]) == Settled(scopes[i])
  {
    forall i | 0 <= i < |scopes|
      ensures Settled(after[i]) == Settled(scopes[i])
    {
      assert ScopeGrows(scopes[i], after[i]);
    }
  }

  lemma SnapshotGrows(a: seq<LexScope>, b: seq<LexScope>, captured: seq<Name>)
    requires SnapshotOf(a, captured) && |a| == |b| && forall i | 0 <= i < |a| :: Settled(a[i]) == Settled(b[i])
    ensures SnapshotOf(b, captured)
  {
    hide DefinedIn, Settled;
    forall name: Name
      ensures DefinedIn(a, name) == DefinedIn(b, name)
    {
      SameDefined(a, b, name);
    }
  }

  lemma SameDefined(a: seq<LexScope>, b: seq<LexScope>, name: Name)
    requires |a| == |b| && forall i | 0 <= i < |a| :: Settled(a[i]) == Settled(b[i])
    ensures DefinedIn(a, name) == DefinedIn(b, name)
  {
    if DefinedIn(a, name) {
      var i :| 0 <= i < |a| && name in Settled(a[i]);
      assert name in Settled(b[i]);
    }
    if DefinedIn(b, name) {
      var i :| 0 <= i < |b| && name in Settled(b[i]);
      assert name in Settled(a[i]);
    }
  }

  lemma Before(scopes: seq<LexScope>, after: seq<LexScope>, closure: seq<Name>)
    requires Grows(scopes, after) && OwnClosure(after) <= closure
    ensures OwnClosure(scopes) <= closure
  {
    OwnGrows(scopes, after);
    if Own(scopes).Some? {
      assert ScopeGrows(scopes[Own(scopes).value], after[Own(scopes).value]);
    }
  }

  /** A resolved expression in its context; `closure` is what the function captures in the end. */
  ghost predicate Fits(w: World, e: NExpr, scopes: seq<LexScope>, closure: seq<Name>, c: Context, r: Expr,
                       after: seq<LexScope>) {
    && ResolveExpr(w, e, scopes) == Resolved(r, after)
    && LexOk(scopes) && ContextOf(scopes, c) && OwnClosure(after) <= closure
  }

  // Two parts in a row.
  lemma TwoParts(w: World, e: NExpr, l: NExpr, r: NExpr, scopes: seq<LexScope>, closure: seq<Name>, c: Context)
    returns (mid: seq<LexScope>)
    requires l < e && r < e && ResolvePair(w, e, l, r, scopes).Resolved?
    requires LexOk(scopes) && ContextOf(scopes, c) && OwnClosure(ResolvePair(w, e, l, r, scopes).scopes) <= closure
    ensures var q := ResolvePair(w, e, l, r, scopes);
      Fits(w, l, scopes, closure, c, q.value.0, mid) && Fits(w, r, mid, closure, c, q.value.1, q.scopes)
    ensures Steady(scopes, ResolvePair(w, e, l, r, scopes).scopes)
  {
    hide ResolveExpr, LexOk, ContextOf, OwnClosure, Grows;
    var q := ResolvePair(w, e, l, r, scopes);
    ExprSteady(w, l, scopes);
    mid := ResolveExpr(w, l, scopes).scopes;
    ExprSteady(w, r, mid);
    Onward(scopes, mid, c);
    Before(mid, q.scopes, closure);
    SteadyTrans(scopes, mid, q.scopes);
  }

  // A part followed by something that only adds captures.
  lemma FirstPart(w: World, e: NExpr, scopes: seq<LexScope>, closure: seq<Name>, c: Context, after: seq<LexScope>)
    requires ResolveExpr(w, e, scopes).Resolved? && LexOk(scopes) && ContextOf(scopes, c)
    requires Steady(ResolveExpr(w, e, scopes).scopes, after) && OwnClosure(after) <= closure
    ensures var r := ResolveExpr(w, e, scopes);
      Fits(w, e, scopes, closure, c, r.value, r.scopes) && LexOk(r.scopes) && ContextOf(r.scopes, c)
  {
    hide ResolveExpr, LexOk, ContextOf, OwnClosure, Grows;
    ExprSteady(w, e, scopes);
    var mid := ResolveExpr(w, e, scopes).scopes;
    Onward(scopes, mid, c);
    Before(mid, after, closure);
  }

  // ---------- Names ----------

  // A variable of an enclosing function: the snapshot and the closure hold the same value.
  lemma PreserveCaptured(w: World, name: Name, scopes: seq<LexScope>, i: nat, closure: seq<Name>, c: Context, a: NEnv,
                         b: Env, o: NOperand, mode: Mode)
    requires i < |scopes| && ClosedOver(scopes, i) && OwnClosure(AddToClosures(scopes, i, name)) <= closure
    requires SameEnv(w, closure, c, a, b) && name in c.captured && o == SiteOperand(a, Kept(IndexOf(c.captured, name)))
    ensures var k := ClosureRank(AddToClosures(scopes, i, name), name);
      k < |b.closure| && SameResult(w, closure, c, Load(o, a, mode), Load(Fixed(b.closure[k]), b, mode))
  {
    hide Same, ContextOf, SameCellSeq, Load, SameResult;
    CapturedRank(scopes, i, name, closure);
    var k := ClosureRank(AddToClosures(scopes, i, name), name);
    assert closure[k] == name;
    SameLoad(w, closure, c, a, b, o, Fixed(b.closure[k]), mode);
  }

  lemma PreserveGlobal(w: World, i: nat, closure: seq<Name>, c: Context, a: NEnv, b: Env, mode: Mode, fuel: nat)
    requires SameEnv(w, closure, c, a, b)
    ensures var o := if i < |w.values| then Fixed(w.values[i].Val()) else Place(|a.scopes|, 0);
      SameResult(w, closure, c, Load(o, a, mode), Eval(w.values, GlobalRef(i), b, mode, fuel))
  {
    hide Same, SameEnv, Load, SameResult;
    if i < |w.values| {
      SameGlobal(w, w.values[i]);
      SameLoad(w, closure, c, a, b, Fixed(w.values[i].Val()), Fixed(w.values[i].Val()), mode);
    } else {
      NowhereLoaded(w, closure, c, a, Place(|a.scopes|, 0), mode);
    }
  }

  lemma PreserveName(w: World, name: Name, scopes: seq<LexScope>, closure: seq<Name>, c: Context, a: NEnv, b: Env,
                     mode: Mode, fuel: nat)
    requires var r := ResolveName(w, name, scopes);
      r.Resolved? && ContextOf(scopes, c) && OwnClosure(r.scopes) <= closure
    requires SameEnv(w, closure, c, a, b)
    ensures SameResult(w, closure, c, Load(NLookup(w, c, a, name), a, mode),
                       Eval(w.values, ResolveName(w, name, scopes).value, b, mode, fuel))
  {
    hide Same, SameEnv, ContextOf, Load, SameResult, OwnClosure, Found, IndexOf, Base, Own, AddToClosures, ClosureRank;
    FoundFrom(scopes, c, name);
    match Find(scopes, name)
    case Some(i) =>
      var o := NLookup(w, c, a, name);
      if ClosedOver(scopes, i) {
        PreserveCaptured(w, name, scopes, i, closure, c, a, b, o, mode);
      } else {
        ScopesCount(scopes, c);
        EnvCount(w, closure, c, a, b);
        SameLoad(w, closure, c, a, b, o, Place(i - Base(scopes), IndexOf(scopes[i].names, name)), mode);
      }
    case None => PreserveGlobal(w, w.Index(name).value, closure, c, a, b, mode, fuel);
  }

  lemma EnvCount(w: World, closure: seq<Name>, c: Context, a: NEnv, b: Env)
    requires SameEnv(w, closure, c, a, b)
    ensures |a.scopes| == |b.scopes| == |c.names|
  {
  }

  lemma ScopesCount(scopes: seq<LexScope>, c: Context)
    requires ContextOf(scopes, c)
    ensures |c.names| == |scopes| - Base(scopes)
  {
  }

  lemma SameGlobal(w: World, g: Global)
    ensures Same(w, g.Val(), g.Val())
  {
  }

  lemma NowhereLoaded(w: World, closure: seq<Name>, c: Context, a: NEnv, o: NOperand, mode: Mode)
    requires !Readable(a, o)
    ensures SameResult(w, closure, c, Load(o, a, mode), Undefined)
  {
  }

  // The rank under which a name is captured.
  lemma CapturedRank(scopes: seq<LexScope>, i: nat, name: Name, closure: seq<Name>)
    requires i < |scopes| && ClosedOver(scopes, i)
    requires OwnClosure(AddToClosures(scopes, i, name)) <= closure
    ensures var k := ClosureRank(AddToClosures(scopes, i, name), name);
      k < |closure| && closure[k] == name
  {
    var after := AddToClosures(scopes, i, name);
    AddGrows(scopes, i, name);
    OwnGrows(scopes, after);
  }

  // ---------- Operators ----------

  lemma PreserveUnary(w: World, e: NExpr, scopes: seq<LexScope>, closure: seq<Name>, c: Context, r: Expr,
                      after: seq<LexScope>,
                      a: NEnv, b: Env, mode: Mode, fuel: nat)
    requires e.NUnary? && Fits(w, e, scopes, closure, c, r, after) && SameEnv(w, closure, c, a, b)
    ensures SameResult(w, closure, c, NEval(w, e, c, a, mode, fuel), Eval(w.values, r, b, mode, fuel))
    decreases fuel, e, 1
  {
    hide Same, SameEnv, SameOperand, LexOk, ContextOf, ApplyUnary, Finish;
    Preserve(w, e.operand, scopes, closure, c, r.operand, after, a, b, Push, fuel);
    var x, y := NEval(w, e.operand, c, a, Push, fuel), Eval(w.values, r.operand, b, Push, fuel);
    if x.Done? {
      SameRead(w, closure, c, x.env, y.env, x.value, y.value);
      if Readable(x.env, x.value) {
        var v, v' := Read(x.env, x.value), Read(y.env, y.value);
        SameUnary(w, e.uop, v, v');
        if ApplyUnary(e.uop, v).Some? {
          SameFinish(w, closure, c, x.env, y.env, ApplyUnary(e.uop, v).value, ApplyUnary(e.uop, v').value, mode);
        }
      }
    }
  }

  lemma PreserveBinary(w: World, e: NExpr, scopes: seq<LexScope>, closure: seq<Name>, c: Context, r: Expr,
                       after: seq<LexScope>,
                       a: NEnv, b: Env, mode: Mode, fuel: nat)
    requires e.NBinary? && Fits(w, e, scopes, closure, c, r, after) && SameEnv(w, closure, c, a, b)
    ensures SameResult(w, closure, c, NEval(w, e, c, a, mode, fuel), Eval(w.values, r, b, mode, fuel))
    decreases fuel, e, 1
  {
    hide Same, SameEnv, SameOperand, LexOk, ContextOf, ApplyBinary, Finish, Read, Readable;
    var mid := TwoParts(w, e, e.lhs, e.rhs, scopes, closure, c);
    Preserve(w, e.lhs, scopes, closure, c, r.lhs, mid, a, b, Push, fuel);
    assert NEval(w, e, c, a, mode, fuel) == NEvalBinary(w, e.bop, e.lhs, e.rhs, c, a, mode, fuel);
    assert Eval(w.values, r, b, mode, fuel) == EvalBinary(w.values, r.bop, r.lhs, r.rhs, b, mode, fuel);
    var x, y := NEval(w, e.lhs, c, a, Push, fuel), Eval(w.values, r.lhs, b, Push, fuel);
    if x.Done? {
      Preserve(w, e.rhs, mid, closure, c, r.rhs, after, x.env, y.env, Push, fuel);
      var x2, y2 := NEval(w, e.rhs, c, x.env, Push, fuel), Eval(w.values, r.rhs, y.env, Push, fuel);
      if x2.Done? {
        SameRead(w, closure, c, x2.env, y2.env, x.value, y.value);
        SameRead(w, closure, c, x2.env, y2.env, x2.value, y2.value);
        if Readable(x2.env, x.value) && Readable(x2.env, x2.value) {
          var v, v' := Read(x2.env, x.value), Read(y2.env, y.value);
          var u, u' := Read(x2.env, x2.value), Read(y2.env, y2.value);
          SameBinary(w, e.bop, v, v', u, u');
          if ApplyBinary(e.bop, v, u).Some? {
            SameFinish(w, closure, c, x2.env, y2.env, ApplyBinary(e.bop, v, u).value, ApplyBinary(e.bop, v', u').value,
              mode);
          }
        }
      }
    }
  }

  // ---------- Conditionals and loops ----------

  // What a condition selects.
  lemma SameCondition(w: World, closure: seq<Name>, c: Context, x: NResult<NOperand>, y: Result<Operand>)
    requires x.Done? && SameResult(w, closure, c, x, y)
    ensures y.Done? && SameEnv(w, closure, c, x.env, y.env) && Readable(x.env, x.value) == Readable(y.env, y.value)
    ensures Readable(x.env, x.value) ==>
      && Read(x.env, x.value).VBool? == Read(y.env, y.value).VBool?
      && (Read(x.env, x.value).VBool? ==> Read(x.env, x.value).b == Read(y.env, y.value).b)
  {
    hide Same, SameEnv, SameOperand;
    SameRead(w, closure, c, x.env, y.env, x.value, y.value);
    if Readable(x.env, x.value) { SameKinds(w, Read(x.env, x.value), Read(y.env, y.value)); }
  }

  lemma PreserveIfElse(w: World, e: NExpr, scopes: seq<LexScope>, closure: seq<Name>, c: Context, r: Expr,
                       after: seq<LexScope>,
                       a: NEnv, b: Env, mode: Mode, fuel: nat)
    requires e.NIfElse? && Fits(w, e, scopes, closure, c, r, after) && SameEnv(w, closure, c, a, b)
    ensures SameResult(w, closure, c, NEval(w, e, c, a, mode, fuel), Eval(w.values, r, b, mode, fuel))
    decreases fuel, e, 1
  {
    hide Same, SameEnv, SameOperand, LexOk, ContextOf, Read, Readable, OwnClosure, Steady;
    var q := ResolvePair(w, e, e.cond, e.thn, scopes);
    ExprSteady(w, e.els, q.scopes);
    BeforePair(w, e, e.cond, e.thn, scopes, closure, c, after);
    var mid := TwoParts(w, e, e.cond, e.thn, scopes, closure, c);
    Preserve(w, e.cond, scopes, closure, c, r.cond, mid, a, b, Push, fuel);
    var x, y := NEval(w, e.cond, c, a, Push, fuel), Eval(w.values, r.cond, b, Push, fuel);
    if x.Done? {
      SameCondition(w, closure, c, x, y);
      if Readable(x.env, x.value) && Read(x.env, x.value).VBool? {
        if Read(x.env, x.value).b {
          Preserve(w, e.thn, mid, closure, c, r.thn, q.scopes, x.env, y.env, mode, fuel);
        } else {
          Preserve(w, e.els, q.scopes, closure, c, r.els, after, x.env, y.env, mode, fuel);
        }
      }
    }
  }

  // A pair of parts, followed by something that only adds captures.
  lemma BeforePair(w: World, e: NExpr, l: NExpr, r: NExpr, scopes: seq<LexScope>, closure: seq<Name>, c: Context,
                   after: seq<LexScope>)
    requires l < e && r < e && ResolvePair(w, e, l, r, scopes).Resolved? && LexOk(scopes) && ContextOf(scopes, c)
    requires Steady(ResolvePair(w, e, l, r, scopes).scopes, after) && OwnClosure(after) <= closure
    ensures var q := ResolvePair(w, e, l, r, scopes);
      OwnClosure(q.scopes) <= closure && LexOk(q.scopes) && ContextOf(q.scopes, c)
  {
    hide ResolvePair, LexOk, ContextOf, OwnClosure, Grows;
    var q := ResolvePair(w, e, l, r, scopes);
    PairSteady(w, e, l, r, scopes);
    Before(q.scopes, after, closure);
    Onward(scopes, q.scopes, c);
  }

  lemma SameDiscard(w: World, closure: seq<Name>, c: Context, x: NResult<NOperand>, y: Result<Operand>)
    requires x.Done? && SameResult(w, closure, c, x, y)
    ensures y.Done? && Readable(x.env, x.value) == Readable(y.env, y.value)
    ensures Readable(x.env, x.value) ==> OperandType(x.env, x.value) == OperandType(y.env, y.value)
    ensures SameResult(w, closure, c, Done(Temp(VVoid), x.env), Done(Temp(VVoid), y.env))
  {
    hide SameEnv;
    SameRead(w, closure, c, x.env, y.env, x.value, y.value);
  }

  lemma SameYields(w: World, e: NExpr, scopes: seq<LexScope>)
    requires ResolveExpr(w, e, scopes).Resolved?
    ensures Yields(ResolveExpr(w, e, scopes).value) == NYields(e)
  {
    hide ResolvePair, ResolveItems, ResolveBody, ResolveSignature, ResolveArgs, ResolveStep, AddToClosures;
  }

  lemma PreserveDiscard(w: World, e: NExpr, scopes: seq<LexScope>, closure: seq<Name>, c: Context, r: Expr,
                        after: seq<LexScope>,
                        a: NEnv, b: Env, fuel: nat)
    requires Fits(w, e, scopes, closure, c, r, after) && SameEnv(w, closure, c, a, b)
    ensures SameResult(w, closure, c, NEvalDiscard(w, e, c, a, fuel), EvalDiscard(w.values, r, b, fuel))
    decreases fuel, e, 4
  {
    hide Same, SameEnv, SameOperand, LexOk, ContextOf, Readable, OperandType, OwnClosure, ResolveExpr, NEval, Eval;
    SameYields(w, e, scopes);
    Preserve(w, e, scopes, closure, c, r, after, a, b, Push, fuel);
    var x, y := NEval(w, e, c, a, Push, fuel), Eval(w.values, r, b, Push, fuel);
    if x.Done? {
      SameDiscard(w, closure, c, x, y);
    }
  }

  lemma PreserveIfOnly(w: World, e: NExpr, scopes: seq<LexScope>, closure: seq<Name>, c: Context, r: Expr,
                       after: seq<LexScope>,
                       a: NEnv, b: Env, mode: Mode, fuel: nat)
    requires e.NIfOnly? && Fits(w, e, scopes, closure, c, r, after) && SameEnv(w, closure, c, a, b)
    ensures SameResult(w, closure, c, NEval(w, e, c, a, mode, fuel), Eval(w.values, r, b, mode, fuel))
    decreases fuel, e, 1
  {
    hide SameEnv, SameOperand, LexOk, ContextOf, Read, Readable, OwnClosure, Finish, NEvalDiscard, EvalDiscard;
    var mid := TwoParts(w, e, e.cond, e.thn, scopes, closure, c);
    Preserve(w, e.cond, scopes, closure, c, r.cond, mid, a, b, Push, fuel);
    var x, y := NEval(w, e.cond, c, a, Push, fuel), Eval(w.values, r.cond, b, Push, fuel);
    if x.Done? {
      SameCondition(w, closure, c, x, y);
      if Readable(x.env, x.value) && Read(x.env, x.value).VBool? {
        if !Read(x.env, x.value).b {
          SameVoid(w, closure, c, x.env, y.env, mode);
        } else if mode.Push? {
          PreserveDiscard(w, e.thn, mid, closure, c, r.thn, after, x.env, y.env, fuel);
        } else if mode.ty == TVoid {
          Preserve(w, e.thn, mid, closure, c, r.thn, after, x.env, y.env, mode, fuel);
        }
      }
    }
  }

  lemma SameVoid(w: World, closure: seq<Name>, c: Context, a: NEnv, b: Env, mode: Mode)
    requires SameEnv(w, closure, c, a, b)
    ensures SameResult(w, closure, c, Finish(VVoid, a, mode), Finish(VVoid, b, mode))
  {
    hide SameEnv;
    SameFinish(w, closure, c, a, b, VVoid, VVoid, mode);
  }

  lemma SameInt(w: World, closure: seq<Name>, c: Context, a: NEnv, b: Env, n: int, mode: Mode)
    requires SameEnv(w, closure, c, a, b)
    ensures SameResult(w, closure, c, Finish(VInt(n), a, mode), Finish(VInt(n), b, mode))
  {
    hide SameEnv;
    SameFinish(w, closure, c, a, b, VInt(n), VInt(n), mode);
  }

  // The parts of a loop, in the order in which they are resolved.
  lemma LoopParts(w: World, e: NExpr, scopes: seq<LexScope>, closure: seq<Name>, c: Context, r: Expr,
                  after: seq<LexScope>)
    returns (s1: seq<LexScope>, s2: seq<LexScope>)
    requires e.NFor? && Fits(w, e, scopes, closure, c, r, after)
    ensures r.For? && Fits(w, e.cond, scopes, closure, c, r.cond, s1) && Fits(w, e.body, s2, closure, c, r.body, after)
    ensures e.step.NAdvance? == r.step.Advance? && (e.step.NAdvance? ==> Fits(w, e.step.e, s1, closure, c, r.step.e,
        s2))
  {
    hide LexOk, ContextOf, OwnClosure, Grows;
    ExprSteady(w, e.cond, scopes);
    s1 := ResolveExpr(w, e.cond, scopes).scopes;
    SteadyRefl(s1);
    StepSteady(w, e.step, s1, s1);
    s2 := ResolveStep(w, e.step, s1).scopes;
    ExprSteady(w, e.body, s2);
    Onward(scopes, s1, c);
    Onward(s1, s2, c);
    Before(s2, after, closure);
    Before(s1, s2, closure);
  }

  lemma PreserveStep(w: World, e: NExpr, scopes: seq<LexScope>, closure: seq<Name>, c: Context, r: Expr,
                     s1: seq<LexScope>, s2: seq<LexScope>,
                     a: NEnv, b: Env, fuel: nat)
    requires e.NFor? && r.For? && SameEnv(w, closure, c, a, b)
    requires e.step.NAdvance? == r.step.Advance? && (e.step.NAdvance? ==> Fits(w, e.step.e, s1, closure, c, r.step.e,
        s2))
    ensures SameResult(w, closure, c, NEvalStep(w, e.step, c, a, fuel), EvalStep(w.values, r.step, b, fuel))
    decreases fuel, e.step
  {
    hide SameEnv, Fits, NEvalDiscard, EvalDiscard;
    if e.step.NAdvance? {
      PreserveDiscard(w, e.step.e, s1, closure, c, r.step.e, s2, a, b, fuel);
    }
  }

  lemma PreserveLoop(w: World, e: NExpr, scopes: seq<LexScope>, closure: seq<Name>, c: Context, r: Expr,
                     after: seq<LexScope>,
                     a: NEnv, b: Env, fuel: nat)
    requires e.NFor? && Fits(w, e, scopes, closure, c, r, after) && SameEnv(w, closure, c, a, b)
    ensures r.For? && SameResult(w, closure, c, NEvalLoop(w, e, c, a, fuel), EvalLoop(w.values, r, b, fuel))
    decreases fuel, e, 1
  {
    hide Same, SameEnv, SameOperand, Fits, Read, Readable, NEvalDiscard, EvalDiscard, NEvalStep, EvalStep, NEval, Eval;
    var s1, s2 := LoopParts(w, e, scopes, closure, c, r, after);
    Preserve(w, e.cond, scopes, closure, c, r.cond, s1, a, b, Push, fuel);
    var x, y := NEval(w, e.cond, c, a, Push, fuel), Eval(w.values, r.cond, b, Push, fuel);
    if x.Done? {
      SameCondition(w, closure, c, x, y);
      if Readable(x.env, x.value) && Read(x.env, x.value).VBool? {
        if !Read(x.env, x.value).b {
          SameDiscard(w, closure, c, x, y);
        } else {
          PreserveDiscard(w, e.body, s2, closure, c, r.body, after, x.env, y.env, fuel);
          var x2, y2 := NEvalDiscard(w, e.body, c, x.env, fuel), EvalDiscard(w.values, r.body, y.env, fuel);
          if x2.Done? {
            PreserveStep(w, e, scopes, closure, c, r, s1, s2, x2.env, y2.env, fuel);
            var x3, y3 := NEvalStep(w, e.step, c, x2.env, fuel), EvalStep(w.values, r.step, y2.env, fuel);
            if x3.Done? && fuel > 0 {
              PreserveLoop(w, e, scopes, closure, c, r, after, x3.env, y3.env, fuel - 1);
            }
          }
        }
      }
    }
  }

  lemma PreserveFor(w: World, e: NExpr, scopes: seq<LexScope>, closure: seq<Name>, c: Context, r: Expr,
                    after: seq<LexScope>,
                    a: NEnv, b: Env, mode: Mode, fuel: nat)
    requires e.NFor? && Fits(w, e, scopes, closure, c, r, after) && SameEnv(w, closure, c, a, b)
    ensures SameResult(w, closure, c, NEval(w, e, c, a, mode, fuel), Eval(w.values, r, b, mode, fuel))
    decreases fuel, e, 2
  {
    hide Same, SameEnv, SameOperand, Fits, NEvalLoop, EvalLoop;
    PreserveLoop(w, e, scopes, closure, c, r, after, a, b, fuel);
  }

  // ---------- Assignments ----------

  lemma PreserveSet(w: World, e: NExpr, scopes: seq<LexScope>, closure: seq<Name>, c: Context, r: Expr,
                    after: seq<LexScope>,
                    a: NEnv, b: Env, mode: Mode, fuel: nat)
    requires e.NSet? && Fits(w, e, scopes, closure, c, r, after) && SameEnv(w, closure, c, a, b)
    ensures SameResult(w, closure, c, NEval(w, e, c, a, mode, fuel), Eval(w.values, r, b, mode, fuel))
    decreases fuel, e, 1
  {
    hide Same, SameEnv, LexOk, ContextOf, Read, Readable, OwnClosure, Finish, Write, Mutable, OperandType;
    var mid := TwoParts(w, e, e.target, e.value, scopes, closure, c);
    Preserve(w, e.target, scopes, closure, c, r.target, mid, a, b, Push, fuel);
    var x, y := NEval(w, e.target, c, a, Push, fuel), Eval(w.values, r.target, b, Push, fuel);
    if x.Done? {
      SameRead(w, closure, c, x.env, y.env, x.value, y.value);
      if Readable(x.env, x.value) && Mutable(x.env, x.value) {
        var into := Into(OperandType(x.env, x.value));
        Preserve(w, e.value, mid, closure, c, r.value, after, x.env, y.env, into, fuel);
        var x2, y2 := NEval(w, e.value, c, x.env, into, fuel), Eval(w.values, r.value, y.env, into, fuel);
        if x2.Done? {
          SameRead(w, closure, c, x2.env, y2.env, x.value, y.value);
          if Readable(x2.env, x.value) && x2.value.Temp? {
            SameWrite(w, closure, c, x2.env, y2.env, x.value, y.value, x2.value.v, y2.value.v);
            SameVoid(w, closure, c, Write(x2.env, x.value, x2.value.v), Write(y2.env, y.value, y2.value.v), mode);
          }
        }
      }
    }
  }

  // Storing the result of an operator.
  lemma SameOperate(w: World, closure: seq<Name>, c: Context, op: BinaryKind, ty: Type, a: NEnv, b: Env,
                    o: NOperand, o': Operand, p: NOperand, p': Operand, mode: Mode)
    requires SameEnv(w, closure, c, a, b) && SameOperand(w, o, o') && SameOperand(w, p, p')
    requires Readable(a, o) && Readable(a, p)
    ensures Readable(b, o') && Readable(b, p')
    ensures
      var x: NResult<NOperand> := match ApplyBinary(op, Read(a, o), Read(a, p))
        case Some(v) => if v.TypeOf() == ty then Finish(VVoid, Write(a, o, v), mode) else Error
        case None => Error;
      var y: Result<Operand> := match ApplyBinary(op, Read(b, o'), Read(b, p'))
        case Some(v) => if v.TypeOf() == ty then Finish(VVoid, Write(b, o', v), mode) else Error
        case None => Error;
      SameResult(w, closure, c, x, y)
  {
    hide Same, SameEnv, SameOperand, ApplyBinary, Finish, Write;
    SameRead(w, closure, c, a, b, o, o');
    SameRead(w, closure, c, a, b, p, p');
    var v, v', u, u' := Read(a, o), Read(b, o'), Read(a, p), Read(b, p');
    SameBinary(w, op, v, v', u, u');
    if ApplyBinary(op, v, u).Some? {
      var z, z' := ApplyBinary(op, v, u).value, ApplyBinary(op, v', u').value;
      SameKinds(w, z, z');
      SameWrite(w, closure, c, a, b, o, o', z, z');
      SameVoid(w, closure, c, Write(a, o, z), Write(b, o', z'), mode);
    }
  }

  lemma PreserveOpSet(w: World, e: NExpr, scopes: seq<LexScope>, closure: seq<Name>, c: Context, r: Expr,
                      after: seq<LexScope>,
                      a: NEnv, b: Env, mode: Mode, fuel: nat)
    requires e.NOpSet? && Fits(w, e, scopes, closure, c, r, after) && SameEnv(w, closure, c, a, b)
    ensures SameResult(w, closure, c, NEval(w, e, c, a, mode, fuel), Eval(w.values, r, b, mode, fuel))
    decreases fuel, e, 1
  {
    hide Same, SameEnv, SameOperand, LexOk, ContextOf, Read, Readable, OwnClosure, Finish, Write, Mutable, OperandType,
         ApplyBinary;
    var mid := TwoParts(w, e, e.target, e.value, scopes, closure, c);
    Preserve(w, e.target, scopes, closure, c, r.target, mid, a, b, Push, fuel);
    var x, y := NEval(w, e.target, c, a, Push, fuel), Eval(w.values, r.target, b, Push, fuel);
    if x.Done? {
      SameRead(w, closure, c, x.env, y.env, x.value, y.value);
      if Readable(x.env, x.value) && Mutable(x.env, x.value) {
        Preserve(w, e.value, mid, closure, c, r.value, after, x.env, y.env, Push, fuel);
        var x2, y2 := NEval(w, e.value, c, x.env, Push, fuel), Eval(w.values, r.value, y.env, Push, fuel);
        if x2.Done? {
          SameRead(w, closure, c, x2.env, y2.env, x.value, y.value);
          SameRead(w, closure, c, x2.env, y2.env, x2.value, y2.value);
          if Readable(x2.env, x.value) && Readable(x2.env, x2.value) {
            SameOperate(w, closure, c, e.bop, OperandType(x.env, x.value), x2.env, y2.env, x.value, y.value, x2.value,
              y2.value, mode);
          }
        }
      }
    }
  }

  // ---------- Blocks ----------

  function OuterContext(c: Context): Context {
    if c.names == [] then c else Context(c.names[..|c.names| - 1], c.captured)
  }

  // The statements of a block end the same way; its own variables are gone.
  ghost predicate SameBlock(w: World, closure: seq<Name>, c: Context, a: NResult<NOperand>, b: Result<Operand>) {
    match a
    case Done(o, env) =>
      && b.Done? && SameOperand(w, o, b.value) && |env.scopes| == |b.env.scopes| == |c.names| + 1
      && SameEnv(w, closure, c, PopScope(env), PopScope(b.env))
    case Error => b.Error?
    case Timeout => b.Timeout?
    case Undefined => b.Undefined?
  }

  lemma SameOuter(w: World, closure: seq<Name>, c: Context, a: NResult<NOperand>, b: Result<Operand>)
    requires |c.names| > 0 && SameResult(w, closure, c, a, b)
    ensures SameBlock(w, closure, OuterContext(c), a, b)
  {
    hide Same, SameCellSeq, SameClosure, SameOperand;
  }

  lemma SamePushed(w: World, closure: seq<Name>, c: Context, a: NEnv, b: Env)
    requires SameEnv(w, closure, c, a, b)
    ensures SameEnv(w, closure, c.Pushed(), PushScope(a), PushScope(b)) && OuterContext(c.Pushed()) == c
  {
    hide Same, SameClosure;
    assert c.Pushed().names[..|c.names|] == c.names;
    var a', b' := PushScope(a), PushScope(b);
    forall s | 0 <= s < |a'.scopes|
      ensures |c.Pushed().names[s]| == |a'.scopes[s]| && SameCellSeq(w, a'.scopes[s], b'.scopes[s])
    {
      if s < |a.scopes| { assert SameCellSeq(w, a.scopes[s], b.scopes[s]); }
    }
  }

  lemma SameDeclared(w: World, closure: seq<Name>, c: Context, a: NEnv, b: Env, name: Name, x: Cell<Code>,
                     y: Cell<Expr>)
    requires |c.names| > 0 && SameEnv(w, closure, c, a, b) && SameCell(w, x, y)
    ensures |a.scopes| > 0 && |b.scopes| > 0
    ensures SameEnv(w, closure, c.Declared(name), Declare(a, x), Declare(b, y))
    ensures OuterContext(c.Declared(name)) == OuterContext(c) && |c.Declared(name).names| == |c.names|
  {
    hide SameCell, SameClosure;
    var a', b', c' := Declare(a, x), Declare(b, y), c.Declared(name);
    forall s | 0 <= s < |a'.scopes|
      ensures |c'.names[s]| == |a'.scopes[s]| && SameCellSeq(w, a'.scopes[s], b'.scopes[s])
    {
      assert SameCellSeq(w, a.scopes[s], b.scopes[s]);
    }
  }

  lemma ContextPushed(scopes: seq<LexScope>, c: Context)
    requires ContextOf(scopes, c) && LexOk(scopes)
    ensures var s := scopes + [LexScope([], false, None)];
      ContextOf(s, c.Pushed()) && LexOk(s) && OwnClosure(s) == OwnClosure(scopes)
  {
    var top := LexScope([], false, None);
    PushOk(scopes, top);
    hide LexOk, SnapshotOf;
    var s := scopes + [top];
    assert s[..|s| - 1] == scopes;
    assert s[..Base(s)] == scopes[..Base(scopes)];
  }

  /** In a block: its scope is open, and none of its definitions is in progress. */
  ghost predicate InBlock(scopes: seq<LexScope>, c: Context) {
    && |scopes| > 0 && |c.names| > 0 && LexOk(scopes) && ContextOf(scopes, c)
    && scopes[|scopes| - 1].closure.None? && !scopes[|scopes| - 1].defining
  }

  lemma OwnTop(scopes: seq<LexScope>, top: LexScope)
    requires |scopes| > 0 && scopes[|scopes| - 1].closure.None? && top.closure.None?
    ensures var s := scopes[|scopes| - 1 := top];
      Own(s) == Own(scopes) && OwnClosure(s) == OwnClosure(scopes) && s[..Base(s)] == scopes[..Base(scopes)]
  {
    var s := scopes[|scopes| - 1 := top];
    assert s[..|s| - 1] == scopes[..|scopes| - 1];
  }

  lemma BeginContext(scopes: seq<LexScope>, c: Context, name: Name)
    requires InBlock(scopes, c) && Begin(scopes, name).Some?
    ensures var s := Begin(scopes, name).value;
      && LexOk(s) && ContextOf(s, c) && WithinBlock(scopes, s) && OwnClosure(s) == OwnClosure(scopes)
      && |s| == |scopes| && s[|s| - 1].closure.None?
      && s[|s| - 1].defining && s[|s| - 1].names == scopes[|scopes| - 1].names + [name]
  {
    BeginSteady(scopes, name);
    hide LexOk, SnapshotOf;
    var s := Begin(scopes, name).value;
    OwnTop(scopes, s[|s| - 1]);
    assert Settled(s[|s| - 1]) == scopes[|scopes| - 1].names;
  }

  lemma CompleteContext(scopes: seq<LexScope>, c: Context, name: Name)
    requires |scopes| > 0 && |c.names| > 0 && LexOk(scopes) && ContextOf(scopes, c)
    requires scopes[|scopes| - 1].closure.None? && scopes[|scopes| - 1].defining
    requires |scopes[|scopes| - 1].names| > 0 && scopes[|scopes| - 1].names[|scopes[|scopes| - 1].names| - 1] == name
    ensures InBlock(Complete(scopes), c.Declared(name)) && OwnClosure(Complete(scopes)) == OwnClosure(scopes)
  {
    hide LexOk, SnapshotOf, Settled, OwnClosure, Own, Base;
    CompleteSteady(scopes);
    var s := Complete(scopes);
    var top := |scopes| - 1;
    OwnTop(scopes, s[top]);
    assert scopes[top := s[top]] == s;
    SettledComplete(scopes[top], name);
    BaseCompleted(scopes, c);
  }

  lemma SettledComplete(s: LexScope, name: Name)
    requires s.defining && |s.names| > 0 && s.names[|s.names| - 1] == name
    ensures Settled(s.(defining := false)) == Settled(s) + [name]
  {
    assert s.names == s.names[..|s.names| - 1] + [name];
  }

  // The innermost scope belongs to the running function.
  lemma BaseCompleted(scopes: seq<LexScope>, c: Context)
    requires |scopes| > 0 && |c.names| > 0 && ContextOf(scopes, c) && scopes[|scopes| - 1].closure.None?
    ensures Base(scopes) < |scopes| && Base(Complete(scopes)) == Base(scopes)
    ensures Base(scopes) + |c.names| == |scopes|
  {
    hide SnapshotOf, Settled;
    OwnTop(scopes, Complete(scopes)[|scopes| - 1]);
  }

  lemma BlockBefore(scopes: seq<LexScope>, after: seq<LexScope>, closure: seq<Name>)
    requires WithinBlock(scopes, after) && OwnClosure(after) <= closure
    ensures OwnClosure(scopes) <= closure
  {
    hide LexOk;
    var a, b := scopes[..|scopes| - 1], after[..|after| - 1];
    assert OwnClosure(b) == OwnClosure(after) && OwnClosure(a) == OwnClosure(scopes);
    Before(a, b, closure);
  }

  ghost predicate ItemsFit(w: World, items: NItems, scopes: seq<LexScope>, closure: seq<Name>, c: Context, r: Items,
                           after: seq<LexScope>) {
    ResolveItems(w, items, scopes) == Resolved(r, after) && InBlock(scopes, c) && OwnClosure(after) <= closure
  }

  lemma ItemsWithin(w: World, items: NItems, scopes: seq<LexScope>, c: Context)
    requires InBlock(scopes, c)
    ensures var r := ResolveItems(w, items, scopes); r.Resolved? ==> WithinBlock(scopes, r.scopes)
  {
    hide LexOk, ContextOf;
    SteadyRefl(scopes);
    SteadyBlock(scopes, scopes);
    ItemsSteady(w, items, scopes, scopes);
  }

  // The parts of a definition without a type.
  lemma LetParts(w: World, items: NItems, scopes: seq<LexScope>, closure: seq<Name>, c: Context, r: Items,
                 after: seq<LexScope>)
    returns (s0: seq<LexScope>, s1: seq<LexScope>)
    requires items.NLet? && ItemsFit(w, items, scopes, closure, c, r, after)
    ensures r.Let? && r.isMut == items.isMut
    ensures Fits(w, items.value, s0, closure, c, r.value, s1)
    ensures ItemsFit(w, items.rest, Complete(s1), closure, c.Declared(items.name), r.rest, after)
  {
    hide ResolveExpr, LexOk, ContextOf, OwnClosure, Begin, Complete, WithinBlock;
    s0 := Begin(scopes, items.name).value;
    BeginContext(scopes, c, items.name);
    var v := ResolveExpr(w, items.value, s0);
    s1 := v.scopes;
    ValueCompleted(w, items.value, s0, c, items.name);
    ItemsWithin(w, items.rest, Complete(s1), c.Declared(items.name));
    BlockBefore(Complete(s1), after, closure);
  }

  // The last part of a definition.
  lemma ValueCompleted(w: World, value: NExpr, s0: seq<LexScope>, c: Context, name: Name)
    requires ResolveExpr(w, value, s0).Resolved? && |s0| > 0 && |c.names| > 0 && LexOk(s0) && ContextOf(s0, c)
    requires s0[|s0| - 1].closure.None? && s0[|s0| - 1].defining
    requires |s0[|s0| - 1].names| > 0 && s0[|s0| - 1].names[|s0[|s0| - 1].names| - 1] == name
    ensures var s1 := ResolveExpr(w, value, s0).scopes;
      && Steady(s0, s1) && LexOk(s1) && ContextOf(s1, c)
      && InBlock(Complete(s1), c.Declared(name)) && OwnClosure(Complete(s1)) == OwnClosure(s1)
  {
    hide ResolveExpr, LexOk, ContextOf, OwnClosure, Complete;
    ExprSteady(w, value, s0);
    var s1 := ResolveExpr(w, value, s0).scopes;
    Onward(s0, s1, c);
    assert ScopeGrows(s0[|s0| - 1], s1[|s1| - 1]);
    CompleteContext(s1, c, name);
  }

  lemma PreserveLet(w: World, items: NItems, scopes: seq<LexScope>, closure: seq<Name>, c: Context, r: Items,
                    after: seq<LexScope>,
                    a: NEnv, b: Env, mode: Mode, fuel: nat)
    requires items.NLet? && ItemsFit(w, items, scopes, closure, c, r, after) && SameEnv(w, closure, c, a, b)
    ensures |c.names| > 0
    ensures SameBlock(w, closure, OuterContext(c), NEvalItems(w, items, c, a, mode, fuel),
        EvalItems(w.values, r, b, mode, fuel))
    decreases fuel, items, 0
  {
    hide SameEnv, SameOperand, Fits, Read, Readable, OperandType, Complete, ResolveItems, OwnClosure, LexOk, ContextOf,
         Same, Declare;
    var s0, s1 := LetParts(w, items, scopes, closure, c, r, after);
    Preserve(w, items.value, s0, closure, c, r.value, s1, a, b, Push, fuel);
    var x, y := NEval(w, items.value, c, a, Push, fuel), Eval(w.values, r.value, b, Push, fuel);
    if x.Done? {
      SameRead(w, closure, c, x.env, y.env, x.value, y.value);
      EnvCount(w, closure, c, x.env, y.env);
      if Readable(x.env, x.value) {
        var d := Cell(OperandType(x.env, x.value), items.isMut, Read(x.env, x.value));
        var d' := Cell(OperandType(y.env, y.value), items.isMut, Read(y.env, y.value));
        SameDeclared(w, closure, c, x.env, y.env, items.name, d, d');
        PreserveItems(w, items.rest, Complete(s1), closure, c.Declared(items.name), r.rest, after, Declare(x.env, d),
          Declare(y.env, d'), mode, fuel);
      }
    }
  }

  // The parts of a definition with a type.
  lemma TypedParts(w: World, items: NItems, scopes: seq<LexScope>, closure: seq<Name>, c: Context, r: Items,
                   after: seq<LexScope>)
    returns (s0: seq<LexScope>, s1: seq<LexScope>, s2: seq<LexScope>)
    requires items.NTypedLet? && ItemsFit(w, items, scopes, closure, c, r, after)
    ensures r.TypedLet? && r.isMut == items.isMut
    ensures Fits(w, items.ty, s0, closure, c, r.ty, s1) && Fits(w, items.value, s1, closure, c, r.value, s2)
    ensures ItemsFit(w, items.rest, Complete(s2), closure, c.Declared(items.name), r.rest, after)
  {
    hide ResolveExpr, LexOk, ContextOf, OwnClosure, Begin, Complete, WithinBlock, Grows;
    s0 := Begin(scopes, items.name).value;
    BeginContext(scopes, c, items.name);
    ExprSteady(w, items.ty, s0);
    s1 := ResolveExpr(w, items.ty, s0).scopes;
    Onward(s0, s1, c);
    TopGrows(s0, s1);
    s2 := ResolveExpr(w, items.value, s1).scopes;
    ValueCompleted(w, items.value, s1, c, items.name);
    ItemsWithin(w, items.rest, Complete(s2), c.Declared(items.name));
    BlockBefore(Complete(s2), after, closure);
    Before(s1, s2, closure);
  }

  lemma TopGrows(a: seq<LexScope>, b: seq<LexScope>)
    requires Steady(a, b) && |a| > 0
    ensures |b| == |a| && ScopeGrows(a[|a| - 1], b[|b| - 1])
  {
    hide LexOk;
  }

  lemma PreserveTypedLet(w: World, items: NItems, scopes: seq<LexScope>, closure: seq<Name>, c: Context, r: Items,
                         after: seq<LexScope>,
                         a: NEnv, b: Env, mode: Mode, fuel: nat)
    requires items.NTypedLet? && ItemsFit(w, items, scopes, closure, c, r, after) && SameEnv(w, closure, c, a, b)
    ensures |c.names| > 0
    ensures SameBlock(w, closure, OuterContext(c), NEvalItems(w, items, c, a, mode, fuel),
        EvalItems(w.values, r, b, mode, fuel))
    decreases fuel, items, 0
  {
    hide SameEnv, Fits, Read, Readable, OperandType, Complete, ResolveItems, OwnClosure, LexOk, ContextOf, Same,
         Declare;
    var s0, s1, s2 := TypedParts(w, items, scopes, closure, c, r, after);
    Preserve(w, items.ty, s0, closure, c, r.ty, s1, a, b, Push, fuel);
    var x, y := NEval(w, items.ty, c, a, Push, fuel), Eval(w.values, r.ty, b, Push, fuel);
    if x.Done? {
      SameRead(w, closure, c, x.env, y.env, x.value, y.value);
      if Readable(x.env, x.value) {
        SameKinds(w, Read(x.env, x.value), Read(y.env, y.value));
        if Read(x.env, x.value).VType? {
          var t := Read(x.env, x.value).ty;
          Preserve(w, items.value, s1, closure, c, r.value, s2, x.env, y.env, Into(t), fuel);
          var x2, y2 := NEval(w, items.value, c, x.env, Into(t), fuel), Eval(w.values, r.value, y.env, Into(t), fuel);
          if x2.Done? && x2.value.Temp? {
            EnvCount(w, closure, c, x2.env, y2.env);
            var d, d' := Cell(t, items.isMut, x2.value.v), Cell(t, items.isMut, y2.value.v);
            SameDeclared(w, closure, c, x2.env, y2.env, items.name, d, d');
            PreserveItems(w, items.rest, Complete(s2), closure, c.Declared(items.name), r.rest, after, Declare(x2.env,
              d), Declare(y2.env, d'), mode, fuel);
          }
        }
      }
    }
  }

  lemma DoParts(w: World, items: NItems, scopes: seq<LexScope>, closure: seq<Name>, c: Context, r: Items,
                after: seq<LexScope>)
    returns (s1: seq<LexScope>)
    requires items.NDo? && ItemsFit(w, items, scopes, closure, c, r, after)
    ensures r.Do? && Fits(w, items.e, scopes, closure, c, r.e, s1) && Yields(r.e) == NYields(items.e)
    ensures ItemsFit(w, items.rest, s1, closure, c, r.rest, after) && r.rest.End? == items.rest.NEnd?
  {
    hide ResolveExpr, LexOk, ContextOf, OwnClosure, WithinBlock, Grows;
    SameYields(w, items.e, scopes);
    ExprSteady(w, items.e, scopes);
    s1 := ResolveExpr(w, items.e, scopes).scopes;
    Onward(scopes, s1, c);
    TopGrows(scopes, s1);
    ItemsWithin(w, items.rest, s1, c);
    BlockBefore(s1, after, closure);
    EndsTogether(w, items.rest, s1);
  }

  lemma EndsTogether(w: World, items: NItems, scopes: seq<LexScope>)
    requires ResolveItems(w, items, scopes).Resolved?
    ensures ResolveItems(w, items, scopes).value.End? == items.NEnd?
  {
    hide ResolveExpr, Begin, Complete;
  }

  lemma PreserveDo(w: World, items: NItems, scopes: seq<LexScope>, closure: seq<Name>, c: Context, r: Items,
                   after: seq<LexScope>,
                   a: NEnv, b: Env, mode: Mode, fuel: nat)
    requires items.NDo? && ItemsFit(w, items, scopes, closure, c, r, after) && SameEnv(w, closure, c, a, b)
    ensures |c.names| > 0
    ensures SameBlock(w, closure, OuterContext(c), NEvalItems(w, items, c, a, mode, fuel),
        EvalItems(w.values, r, b, mode, fuel))
    decreases fuel, items, 0
  {
    hide SameEnv, Fits, ResolveItems, OwnClosure, LexOk, ContextOf, Same, NEval, Eval, NEvalDiscard, EvalDiscard;
    var s1 := DoParts(w, items, scopes, closure, c, r, after);
    if items.rest.NEnd? {
      Preserve(w, items.e, scopes, closure, c, r.e, s1, a, b, mode, fuel);
      var x, y := NEval(w, items.e, c, a, mode, fuel), Eval(w.values, r.e, b, mode, fuel);
      LastResult(w, closure, c, x, y, mode.Push? && !NYields(items.e));
    } else {
      PreserveDiscard(w, items.e, scopes, closure, c, r.e, s1, a, b, fuel);
      var x, y := NEvalDiscard(w, items.e, c, a, fuel), EvalDiscard(w.values, r.e, b, fuel);
      if x.Done? {
        PreserveItems(w, items.rest, s1, closure, c, r.rest, after, x.env, y.env, mode, fuel);
      }
    }
  }

  lemma LastResult(w: World, closure: seq<Name>, c: Context, x: NResult<NOperand>, y: Result<Operand>, voided: bool)
    requires |c.names| > 0 && SameResult(w, closure, c, x, y)
    ensures
      var x' := match x case Done(o, env) => Done(if voided then Temp(VVoid) else o, env) case r => r;
      var y' := match y case Done(o, env) => Done(if voided then Temp(VVoid) else o, env) case r => r;
      SameBlock(w, closure, OuterContext(c), x', y')
  {
    hide SameEnv, SameBlock;
    var x' := match x case Done(o, env) => Done(if voided then Temp(VVoid) else o, env) case r => r;
    var y' := match y case Done(o, env) => Done(if voided then Temp(VVoid) else o, env) case r => r;
    SameOuter(w, closure, c, x', y');
  }

  lemma PreserveItems(w: World, items: NItems, scopes: seq<LexScope>, closure: seq<Name>, c: Context, r: Items,
                      after: seq<LexScope>,
                      a: NEnv, b: Env, mode: Mode, fuel: nat)
    requires ItemsFit(w, items, scopes, closure, c, r, after) && SameEnv(w, closure, c, a, b)
    ensures |c.names| > 0
    ensures SameBlock(w, closure, OuterContext(c), NEvalItems(w, items, c, a, mode, fuel),
        EvalItems(w.values, r, b, mode, fuel))
    decreases fuel, items, 1
  {
    hide SameEnv, SameBlock, LexOk, ContextOf, OwnClosure;
    match items
    case NEnd =>
      SameVoid(w, closure, c, a, b, mode);
      SameOuter(w, closure, c, Finish(VVoid, a, mode), Finish(VVoid, b, mode));
    case NLet(_, _, _, _) => PreserveLet(w, items, scopes, closure, c, r, after, a, b, mode, fuel);
    case NTypedLet(_, _, _, _, _) => PreserveTypedLet(w, items, scopes, closure, c, r, after, a, b, mode, fuel);
    case NDo(_, _) => PreserveDo(w, items, scopes, closure, c, r, after, a, b, mode, fuel);
  }

  lemma PreserveBlock(w: World, e: NExpr, scopes: seq<LexScope>, closure: seq<Name>, c: Context, r: Expr,
                      after: seq<LexScope>,
                      a: NEnv, b: Env, mode: Mode, fuel: nat)
    requires e.NBlock? && Fits(w, e, scopes, closure, c, r, after) && SameEnv(w, closure, c, a, b)
    ensures SameResult(w, closure, c, NEval(w, e, c, a, mode, fuel), Eval(w.values, r, b, mode, fuel))
    decreases fuel, e, 1
  {
    hide SameEnv, LexOk, ContextOf, OwnClosure, ResolveItems, NEvalItems, EvalItems, Same;
    var inner := scopes + [LexScope([], false, None)];
    var q := ResolveItems(w, e.items, inner);
    ContextPushed(scopes, c);
    SamePushed(w, closure, c, a, b);
    ItemsWithin(w, e.items, inner, c.Pushed());
    BlockAfter(inner, q.scopes);
    PreserveItems(w, e.items, inner, closure, c.Pushed(), r.items, q.scopes, PushScope(a), PushScope(b), mode, fuel);
  }

  lemma BlockAfter(inner: seq<LexScope>, after: seq<LexScope>)
    requires WithinBlock(inner, after)
    ensures OwnClosure(after) == OwnClosure(after[..|after| - 1])
  {
    hide LexOk, Grows;
  }

  // ---------- Creating functions ----------

  function TypeOperand(w: World, name: Name): Operand
    requires GlobalType(w, name).Some?
  {
    Fixed(w.values[w.Index(name).value].Val())
  }

  // The operands a signature leaves: the parameter types, then the return type.
  function TypeOperands(w: World, params: seq<NParam>, ret: Name): (os: seq<Operand>)
    requires TypesKnown(w, params, ret)
    ensures |os| == |params| + 1
  {
    seq(|params|, i requires 0 <= i < |params| => TypeOperand(w, params[i].ty)) + [TypeOperand(w, ret)]
  }

  function MutsOf(params: seq<NParam>): (muts: seq<bool>)
    ensures |muts| == |params|
  {
    seq(|params|, i requires 0 <= i < |params| => params[i].isMut)
  }

  lemma TypeEvaluated(w: World, name: Name, names: seq<Name>, scopes: seq<LexScope>, b: Env, fuel: nat)
    requires ResolveType(w, name, names, scopes).Resolved?
    ensures Eval(w.values, ResolveType(w, name, names, scopes).value, b, Push, fuel)
         == if GlobalType(w, name).Some? then Done(TypeOperand(w, name), b) else Undefined
  {
  }

  lemma {:induction false} SignatureEvaluated(w: World, params: seq<NParam>, ret: Name, names: seq<Name>,
                                              scopes: seq<LexScope>, b: Env, fuel: nat)
    requires ResolveSignature(w, params, ret, names, scopes).Resolved?
    ensures var sig := ResolveSignature(w, params, ret, names, scopes).value;
      && ParamMuts(sig) == MutsOf(params)
      && EvalTypes(w.values, sig, b, fuel)
         == if TypesKnown(w, params, ret) then Done(TypeOperands(w, params, ret), b) else Undefined
    decreases |params|
  {
    hide Eval, ResolveType, GlobalType, TypeOperand;
    if params == [] {
      TypeEvaluated(w, ret, names, scopes, b, fuel);
      if TypesKnown(w, params, ret) { assert TypeOperands(w, params, ret) == [TypeOperand(w, ret)]; }
    } else {
      var p, rest := params[0], params[1..];
      var names' := names + [p.name];
      TypeEvaluated(w, p.ty, names', scopes, b, fuel);
      SignatureEvaluated(w, rest, ret, names', scopes, b, fuel);
      assert MutsOf(params) == [p.isMut] + MutsOf(rest);
      assert TypesKnown(w, params, ret) <==> GlobalType(w, p.ty).Some? && TypesKnown(w, rest, ret) by {
        if TypesKnown(w, params, ret) {
          assert forall i | 0 <= i < |rest| :: rest[i] == params[i + 1];
        }
        if GlobalType(w, p.ty).Some? && TypesKnown(w, rest, ret) {
          forall i | 0 <= i < |params|
            ensures GlobalType(w, params[i].ty).Some?
          {
            if i > 0 { assert params[i] == rest[i - 1]; }
          }
        }
      }
      if TypesKnown(w, params, ret) {
        assert TypeOperands(w, params, ret) == [TypeOperand(w, p.ty)] + TypeOperands(w, rest, ret);
      }
    }
  }

  lemma OperandIsType(w: World, name: Name, b: Env)
    requires GlobalType(w, name).Some?
    ensures Readable(b, TypeOperand(w, name)) && Read(b, TypeOperand(w, name)).VType? == GlobalType(w, name).value.Some?
    ensures GlobalType(w, name).value.Some? ==> Read(b, TypeOperand(w, name)).ty == GlobalType(w, name).value.value
  {
  }

  lemma SignatureTypes(w: World, params: seq<NParam>, ret: Name, b: Env)
    requires TypesKnown(w, params, ret)
    ensures var os := TypeOperands(w, params, ret);
      && AllReadable(b, os) && AllTypes(b, os) == TypesAreTypes(w, params, ret)
      && (AllTypes(b, os) ==>
            && ParamTypes(b, os, MutsOf(params)) == NParamTypes(w, params, ret)
            && Read(b, os[|os| - 1]).ty == GlobalType(w, ret).value.value)
  {
    hide GlobalType, TypeOperand, Read, Readable;
    var os := TypeOperands(w, params, ret);
    forall i | 0 <= i < |os|
      ensures var name := if i < |params| then params[i].ty else ret;
        && os[i] == TypeOperand(w, name) && Readable(b, os[i])
        && Read(b, os[i]).VType? == GlobalType(w, name).value.Some?
        && (GlobalType(w, name).value.Some? ==> Read(b, os[i]).ty == GlobalType(w, name).value.value)
    {
      OperandIsType(w, if i < |params| then params[i].ty else ret, b);
    }
    if AllTypes(b, os) {
      forall i | 0 <= i < |params|
        ensures GlobalType(w, params[i].ty).value.Some?
      {
        assert Read(b, os[i]).VType?;
      }
      assert Read(b, os[|params|]).VType?;
      assert ParamTypes(b, os, MutsOf(params)) == NParamTypes(w, params, ret);
    }
    if TypesAreTypes(w, params, ret) {
      forall i | 0 <= i < |os|
        ensures Read(b, os[i]).VType?
      {
      }
    }
  }

  // ---------- What is visible, and what is captured ----------

  lemma {:induction false} VisibleNames(names: seq<seq<Name>>, captured: seq<Name>, name: Name)
    ensures name in BindingNames(Visible(names, captured)) <==> (name in captured
        || exists s | 0 <= s < |names| :: name in names[s])
  {
    var bs := Visible(names, captured);
    if names == [] {
      assert BindingNames(bs) == captured;
    } else {
      var top := |names| - 1;
      VisibleNames(names[..top], captured, name);
      var mine, rest := ScopeBindings(names[top], top), Visible(names[..top], captured);
      assert BindingNames(mine) == names[top];
      assert BindingNames(bs) == names[top] + BindingNames(rest);
      if exists s | 0 <= s < |names| :: name in names[s] {
        var s :| 0 <= s < |names| && name in names[s];
        if s < top { assert name in names[..top][s]; }
      }
    }
  }

  lemma {:induction false} VisibleSites(names: seq<seq<Name>>, captured: seq<Name>, i: nat)
    requires i < |Visible(names, captured)|
    ensures match Visible(names, captured)[i].site
      case Local(s, r) => s < |names| && r < |names[s]|
      case Kept(k) => k < |captured|
  {
    if names != [] {
      var top := |names| - 1;
      if i >= |names[top]| {
        assert Visible(names, captured)[i] == Visible(names[..top], captured)[i - |names[top]|];
        VisibleSites(names[..top], captured, i - |names[top]|);
      }
    }
  }

  lemma SitesReadable(w: World, closure: seq<Name>, c: Context, a: NEnv, b: Env)
    requires SameEnv(w, closure, c, a, b)
    ensures AllSitesReadable(a, c.Bindings())
  {
    hide Same, SameCellSeq;
    var bs := c.Bindings();
    forall i | 0 <= i < |bs|
      ensures Readable(a, SiteOperand(a, bs[i].site))
    {
      VisibleSites(c.names, c.captured, i);
    }
  }

  lemma VisibleIsDefined(scopes: seq<LexScope>, c: Context, name: Name)
    requires ContextOf(scopes, c)
    requires name in c.captured || exists s | 0 <= s < |c.names| :: name in c.names[s]
    ensures DefinedIn(scopes, name)
  {
    var b := Base(scopes);
    if name in c.captured {
      assert DefinedIn(scopes[..b], name);
      var i :| 0 <= i < b && name in Settled(scopes[..b][i]);
      assert name in Settled(scopes[i]);
    } else {
      var s :| 0 <= s < |c.names| && name in c.names[s];
      assert name in Settled(scopes[b + s]);
    }
  }

  lemma DefinedIsVisible(scopes: seq<LexScope>, c: Context, name: Name)
    requires ContextOf(scopes, c) && DefinedIn(scopes, name)
    ensures name in c.captured || exists s | 0 <= s < |c.names| :: name in c.names[s]
  {
    hide Settled;
    var b := Base(scopes);
    var i :| 0 <= i < |scopes| && name in Settled(scopes[i]);
    if i < b {
      assert name in Settled(scopes[..b][i]);
    } else {
      assert name in c.names[i - b];
    }
  }

  /** A snapshot taken now is one of the scopes that are open now. */
  lemma SnapshotNow(scopes: seq<LexScope>, c: Context)
    requires ContextOf(scopes, c)
    ensures SnapshotOf(scopes, BindingNames(c.Bindings()))
  {
    hide Visible, BindingNames, ContextOf, DefinedIn;
    forall name: Name
      ensures name in BindingNames(Visible(c.names, c.captured)) <==> DefinedIn(scopes, name)
    {
      VisibleNames(c.names, c.captured, name);
      if name in BindingNames(Visible(c.names, c.captured)) { VisibleIsDefined(scopes, c, name); }
      if DefinedIn(scopes, name) { DefinedIsVisible(scopes, c, name); }
    }
  }

  // A captured name has the same value in the snapshot and in the closure.
  lemma CaptureSame(w: World, below: seq<LexScope>, closure: seq<Name>, c: Context, a: NEnv, b: Env, name: Name)
    requires Linked(below, name) && ContextOf(below, c) && OwnClosure(below) <= closure && SameEnv(w, closure, c, a, b)
    ensures Found(c.names, c.captured, name).Some?
    ensures SameOperand(w, SiteOperand(a, Found(c.names, c.captured, name).value),
        CaptureOperand(b, CaptureOf(below, name)))
  {
    hide Same, SameEnv, Found, ContextOf, OwnClosure, Base;
    FoundFrom(below, c, name);
    ScopesCount(below, c);
    EnvCount(w, closure, c, a, b);
    if ClosedOver(below, Find(below, name).value) {
      KeptSame(w, below, closure, c, a, b, name);
    }
  }

  // A name that the running function has captured itself.
  lemma KeptSame(w: World, below: seq<LexScope>, closure: seq<Name>, c: Context, a: NEnv, b: Env, name: Name)
    requires Own(below).Some? && name in below[Own(below).value].closure.value && name in c.captured
    requires OwnClosure(below) <= closure && SameEnv(w, closure, c, a, b)
    ensures SameOperand(w, SiteOperand(a, Kept(IndexOf(c.captured, name))),
        CaptureOperand(b, FromClosure(ClosureRank(below, name))))
  {
    hide Same, SameCellSeq;
    var own := OwnClosure(below);
    var k := IndexOf(own, name);
    assert closure[k] == own[k] == name;
  }

  lemma FoundIndex(c: Context, name: Name)
    requires Found(c.names, c.captured, name).Some?
    ensures var bs := c.Bindings();
      var k := IndexOf(BindingNames(bs), name);
      && name in BindingNames(bs) && k < |bs| && bs[k].site == Found(c.names, c.captured, name).value
  {
  }

  lemma CapturesSame(w: World, below: seq<LexScope>, closure: seq<Name>, c: Context, a: NEnv, b: Env, mine: seq<Name>)
    requires ContextOf(below, c) && OwnClosure(below) <= closure && SameEnv(w, closure, c, a, b)
    requires forall name | name in mine :: Linked(below, name)
    requires AllSitesReadable(a, c.Bindings())
    ensures CapturesReadable(b, CaptureList(below, mine))
    ensures SameClosure(w, mine, BindingNames(c.Bindings()), Snapshot(a, c.Bindings()),
        Captured(b, CaptureList(below, mine)))
  {
    hide Same, SameEnv, Found, ContextOf, Visible, SiteOperand, CaptureOperand, CaptureOf, Read, Readable, IndexOf,
         OwnClosure, Linked;
    var bs, cs := c.Bindings(), CaptureList(below, mine);
    forall k | 0 <= k < |mine|
      ensures Readable(b, CaptureOperand(b, cs[k])) && mine[k] in BindingNames(bs)
      ensures Same(w, Snapshot(a, bs)[IndexOf(BindingNames(bs), mine[k])], Read(b, CaptureOperand(b, cs[k])))
    {
      var name := mine[k];
      assert name in mine;
      CaptureSame(w, below, closure, c, a, b, name);
      FoundIndex(c, name);
      var i := IndexOf(BindingNames(bs), name);
      SameRead(w, closure, c, a, b, SiteOperand(a, bs[i].site), CaptureOperand(b, cs[k]));
    }
  }

  // The body of a function, as it is resolved.
  lemma BodyParts(w: World, params: seq<Name>, body: NExpr, scopes: seq<LexScope>, closure: seq<Name>, c: Context,
                  after: seq<LexScope>)
    returns (mine: seq<Name>)
    requires ResolveBody(w, params, body, scopes).Resolved? && ResolveBody(w, params, body, scopes).scopes == after
    requires LexOk(scopes) && ContextOf(scopes, c) && OwnClosure(after) <= closure
    ensures var q := ResolveBody(w, params, body, scopes).value;
      && q.1 == CaptureList(after, mine)
      && (forall captured | SnapshotOf(scopes, captured) :: Made(w, scopes, Code(params, body, captured), q.0, mine))
    ensures ContextOf(after, c) && forall name | name in mine :: Linked(after, name)
  {
    hide ResolveExpr, ContextOf, OwnClosure, Linked, Grows, SnapshotOf;
    BodySteady(w, params, body, scopes);
    var s1 := ResolveExpr(w, body, Enter(scopes, params)).scopes;
    mine := s1[|scopes|].closure.value;
    Onward(scopes, after, c);
    PushOk(scopes, LexScope(params, false, Some([])));
    assert ClosureOk(s1, |scopes|);
    assert s1[..|scopes|] == after;
  }

  lemma FunctionSame(w: World, scopes: seq<LexScope>, mine: seq<Name>, params: seq<ParamType>, ret: Type, code: Code,
                     body: Expr,
                     values: seq<NV>, values': seq<V>)
    requires Made(w, scopes, code, body, mine) && SameClosure(w, mine, code.captured, values, values')
    requires |code.params| == |params|
    ensures Same(w, VFunc(params, ret, code, values), VFunc(params, ret, body, values'))
  {
    hide Made;
  }

  lemma PreserveFunc(w: World, e: NExpr, scopes: seq<LexScope>, closure: seq<Name>, c: Context, r: Expr,
                     after: seq<LexScope>,
                     a: NEnv, b: Env, mode: Mode, fuel: nat)
    requires e.NFunc? && Fits(w, e, scopes, closure, c, r, after) && SameEnv(w, closure, c, a, b)
    ensures SameResult(w, closure, c, NEval(w, e, c, a, mode, fuel), Eval(w.values, r, b, mode, fuel))
  {
    hide Same, SameEnv, LexOk, ContextOf, OwnClosure, ResolveSignature, ResolveBody, EvalTypes, TypesKnown,
         TypesAreTypes, AllSitesReadable,
         CapturesReadable, Snapshot, Captured, NParamTypes, ParamTypes, Finish, AllTypes, AllReadable, GlobalType,
             Read, TypeOperands, Made,
         SnapshotOf, Linked, SameClosure, Visible, BindingNames, CaptureList;
    SignatureEvaluated(w, e.params, e.ret, [], scopes, b, fuel);
    SitesReadable(w, closure, c, a, b);
    var bs := c.Bindings();
    if TypesKnown(w, e.params, e.ret) {
      SignatureTypes(w, e.params, e.ret, b);
      if TypesAreTypes(w, e.params, e.ret) {
        var mine := BodyParts(w, NParamNames(e.params), e.body, scopes, closure, c, after);
        CapturesSame(w, after, closure, c, a, b, mine);
        SnapshotNow(scopes, c);
        var code := Code(NParamNames(e.params), e.body, BindingNames(bs));
        ParamsCount(w, e.params, e.ret);
        var types, ret := NParamTypes(w, e.params, e.ret), GlobalType(w, e.ret).value.value;
        var values, values' := Snapshot(a, bs), Captured(b, CaptureList(after, mine));
        FunctionSame(w, scopes, mine, types, ret, code, r.body, values, values');
        SameFinish(w, closure, c, a, b, VFunc(types, ret, code, values), VFunc(types, ret, r.body, values'), mode);
      }
    }
  }

  lemma ParamsCount(w: World, params: seq<NParam>, ret: Name)
    requires TypesKnown(w, params, ret) && TypesAreTypes(w, params, ret)
    ensures |NParamTypes(w, params, ret)| == |params| && GlobalType(w, ret).Some? && GlobalType(w, ret).value.Some?
  {
  }

  // ---------- Calls ----------

  ghost predicate SameArgs(w: World, closure: seq<Name>, c: Context, a: NResult<seq<Cell<Code>>>,
                           b: Result<seq<Cell<Expr>>>) {
    match a
    case Done(cells, env) => b.Done? && SameCellSeq(w, cells, b.value) && SameEnv(w, closure, c, env, b.env)
    case Error => b.Error?
    case Timeout => b.Timeout?
    case Undefined => b.Undefined?
  }

  ghost predicate ArgsFit(w: World, args: NArgs, scopes: seq<LexScope>, closure: seq<Name>, c: Context, r: Args,
                          after: seq<LexScope>) {
    && ResolveArgs(w, args, scopes) == Resolved(r, after)
    && LexOk(scopes) && ContextOf(scopes, c) && OwnClosure(after) <= closure
  }

  lemma ArgParts(w: World, args: NArgs, scopes: seq<LexScope>, closure: seq<Name>, c: Context, r: Args,
                 after: seq<LexScope>)
    returns (s1: seq<LexScope>)
    requires args.NArg? && ArgsFit(w, args, scopes, closure, c, r, after)
    ensures r.Arg? && Fits(w, args.e, scopes, closure, c, r.e, s1)
    ensures ArgsFit(w, args.rest, s1, closure, c, r.rest, after)
  {
    hide ResolveExpr, LexOk, ContextOf, OwnClosure, Grows;
    s1 := ResolveExpr(w, args.e, scopes).scopes;
    SteadyRefl(s1);
    ArgsSteady(w, args.rest, s1, s1);
    FirstPart(w, args.e, scopes, closure, c, after);
  }

  lemma SameArgCount(w: World, args: NArgs, scopes: seq<LexScope>)
    requires ResolveArgs(w, args, scopes).Resolved?
    ensures ArgCount(ResolveArgs(w, args, scopes).value) == NArgCount(args)
    decreases args
  {
    hide ResolveExpr;
    if args.NArg? { SameArgCount(w, args.rest, ResolveExpr(w, args.e, scopes).scopes); }
  }

  lemma PreserveArgs(w: World, args: NArgs, ps: seq<ParamType>, scopes: seq<LexScope>, closure: seq<Name>, c: Context,
                     r: Args,
                     after: seq<LexScope>, a: NEnv, b: Env, fuel: nat)
    requires ArgsFit(w, args, scopes, closure, c, r, after) && SameEnv(w, closure, c, a, b)
    requires NArgCount(args) == |ps| == ArgCount(r)
    ensures SameArgs(w, closure, c, NEvalArgs(w, args, ps, c, a, fuel), EvalArgs(w.values, r, ps, b, fuel))
    decreases fuel, args, 0
  {
    hide Same, SameEnv, Fits, LexOk, ContextOf, OwnClosure, NEval, Eval;
    match args
    case NNoArgs =>
    case NArg(e, rest) =>
      var s1 := ArgParts(w, args, scopes, closure, c, r, after);
      Preserve(w, e, scopes, closure, c, r.e, s1, a, b, Into(ps[0].ty), fuel);
      var x, y := NEval(w, e, c, a, Into(ps[0].ty), fuel), Eval(w.values, r.e, b, Into(ps[0].ty), fuel);
      if x.Done? && x.value.Temp? {
        PreserveArgs(w, rest, ps[1..], s1, closure, c, r.rest, after, x.env, y.env, fuel);
      }
  }

  // Inside the function called.
  lemma CalleeFits(w: World, scopes: seq<LexScope>, code: Code, body: Expr, mine: seq<Name>)
    returns (after: seq<LexScope>)
    requires Made(w, scopes, code, body, mine)
    ensures Fits(w, code.body, Enter(scopes, code.params), mine, Context([code.params], code.captured), body, after)
  {
    hide ResolveExpr, SnapshotOf, Linked;
    var top := LexScope(code.params, false, Some([]));
    var inner := Enter(scopes, code.params);
    PushOk(scopes, top);
    hide LexOk;
    assert inner[..|scopes|] == scopes;
    after := ResolveExpr(w, code.body, inner).scopes;
  }

  // The value of a call, once the callee and the arguments are known.
  lemma PreserveCallee(w: World, f: NV, f': V, cells: seq<Cell<Code>>, cells': seq<Cell<Expr>>, ret: Type,
                       closure: seq<Name>, c: Context,
                       a: NEnv, b: Env, fuel: nat)
    requires f.VFunc? && Same(w, f, f') && SameCellSeq(w, cells, cells') && SameEnv(w, closure, c, a, b)
    requires |cells| == |f.params|
    ensures
      var x := match NEval(w, f.body.body, Context([f.body.params], f.body.captured), Env([cells], f.closure),
          Into(ret), fuel)
        case Done(v, _) => if v.Temp? then Done(v, a) else Undefined
        case r => r;
      var y := match Eval(w.values, f'.body, Env([cells'], f'.closure), Into(ret), fuel)
        case Done(v, _) => if v.Temp? then Done(v, b) else Undefined
        case r => r;
      SameResult(w, closure, c, x, y)
    decreases fuel, f.body.body, 4
  {
    hide SameEnv, Made, Fits, NEval, Eval, SameCellSeq;
    var code := f.body;
    var scopes, mine :| Made(w, scopes, code, f'.body, mine) && |f'.closure| == |mine|
      && forall k | 0 <= k < |mine| ::
           mine[k] in code.captured && Same(w, f.closure[IndexOf(code.captured, mine[k])], f'.closure[k]);
    var after := CalleeFits(w, scopes, code, f'.body, mine);
    var c' := Context([code.params], code.captured);
    CalleeEnv(w, mine, code, cells, cells', f.closure, f'.closure);
    Preserve(w, code.body, Enter(scopes, code.params), mine, c', f'.body, after, Env([cells], f.closure),
        Env([cells'], f'.closure),
             Into(ret), fuel);
  }

  lemma CalleeEnv(w: World, mine: seq<Name>, code: Code, cells: seq<Cell<Code>>, cells': seq<Cell<Expr>>,
                  values: seq<NV>, values': seq<V>)
    requires SameCellSeq(w, cells, cells') && |cells| == |code.params|
    requires |values| == |code.captured| && |values'| == |mine|
    requires forall k | 0 <= k < |mine| ::
      mine[k] in code.captured && Same(w, values[IndexOf(code.captured, mine[k])], values'[k])
    ensures SameEnv(w, mine, Context([code.params], code.captured), Env([cells], values), Env([cells'], values'))
  {
    hide Same, SameCellSeq;
  }

  lemma SameFunction(w: World, f: NV, f': V)
    requires Same(w, f, f')
    ensures f.VFunc? == f'.VFunc? && (f.VFunc? ==> f.params == f'.params && f.ret == f'.ret)
  {
  }

  lemma ArgsArity(w: World, args: NArgs, ps: seq<ParamType>, c: Context, a: NEnv, fuel: nat)
    requires NArgCount(args) == |ps|
    ensures var x := NEvalArgs(w, args, ps, c, a, fuel); x.Done? ==> |x.value| == |ps|
    decreases args
  {
    hide NEval;
    if args.NArg? {
      var x := NEval(w, args.e, c, a, Into(ps[0].ty), fuel);
      if x.Done? { ArgsArity(w, args.rest, ps[1..], c, x.env, fuel); }
    }
  }

  lemma CallParts(w: World, e: NExpr, scopes: seq<LexScope>, closure: seq<Name>, c: Context, r: Expr,
                  after: seq<LexScope>)
    returns (s1: seq<LexScope>)
    requires e.NCall? && Fits(w, e, scopes, closure, c, r, after)
    ensures r.Call? && Fits(w, e.callee, scopes, closure, c, r.callee, s1)
    ensures ArgsFit(w, e.args, s1, closure, c, r.args, after)
    ensures ArgCount(r.args) == NArgCount(e.args)
  {
    hide LexOk, ContextOf, OwnClosure, Grows;
    s1 := ResolveExpr(w, e.callee, scopes).scopes;
    SteadyRefl(s1);
    ArgsSteady(w, e.args, s1, s1);
    FirstPart(w, e.callee, scopes, closure, c, after);
    SameArgCount(w, e.args, s1);
  }

  lemma PreserveCall(w: World, e: NExpr, scopes: seq<LexScope>, closure: seq<Name>, c: Context, r: Expr,
                     after: seq<LexScope>,
                     a: NEnv, b: Env, mode: Mode, fuel: nat)
    requires e.NCall? && Fits(w, e, scopes, closure, c, r, after) && SameEnv(w, closure, c, a, b)
    ensures SameResult(w, closure, c, NEval(w, e, c, a, mode, fuel), Eval(w.values, r, b, mode, fuel))
    decreases fuel, e, 1
  {
    hide Same, SameEnv, SameOperand, Fits, ArgsFit, Read, Readable, NEvalArgs, EvalArgs, SameCellSeq;
    var s1 := CallParts(w, e, scopes, closure, c, r, after);
    Preserve(w, e.callee, scopes, closure, c, r.callee, s1, a, b, Push, fuel);
    assert NEval(w, e, c, a, mode, fuel) == NEvalCall(w, e.callee, e.args, c, a, mode, fuel);
    assert Eval(w.values, r, b, mode, fuel) == EvalCall(w.values, r.callee, r.args, b, mode, fuel);
    var x, y := NEval(w, e.callee, c, a, Push, fuel), Eval(w.values, r.callee, b, Push, fuel);
    if x.Done? {
      SameRead(w, closure, c, x.env, y.env, x.value, y.value);
      if Readable(x.env, x.value) {
        SameFunction(w, Read(x.env, x.value), Read(y.env, y.value));
        var f := Read(x.env, x.value);
        if f.VFunc? && NArgCount(e.args) == |f.params| {
          PreserveArgs(w, e.args, f.params, s1, closure, c, r.args, after, x.env, y.env, fuel);
          var x2, y2 := NEvalArgs(w, e.args, f.params, c, x.env, fuel), EvalArgs(w.values, r.args, f.params, y.env,
            fuel);
          if x2.Done? {
            SameRead(w, closure, c, x2.env, y2.env, x.value, y.value);
            if Readable(x2.env, x.value) {
              var g, g' := Read(x2.env, x.value), Read(y2.env, y.value);
              SameKinds(w, g, g');
              SameKinds(w, f, Read(y.env, y.value));
              if g.TypeOf() == f.TypeOf() && !(mode.Into? && mode.ty != f.ret) && fuel > 0 {
                ArgsArity(w, e.args, f.params, c, x.env, fuel);
                PreserveCallee(w, g, g', x2.value, y2.value, f.ret, closure, c, x2.env, y2.env, fuel - 1);
              }
            }
          }
        }
      }
    }
  }

  lemma Preserve(w: World, e: NExpr, scopes: seq<LexScope>, closure: seq<Name>, c: Context, r: Expr,
                 after: seq<LexScope>,
                 a: NEnv, b: Env, mode: Mode, fuel: nat)
    requires Fits(w, e, scopes, closure, c, r, after) && SameEnv(w, closure, c, a, b)
    ensures SameResult(w, closure, c, NEval(w, e, c, a, mode, fuel), Eval(w.values, r, b, mode, fuel))
    decreases fuel, e, 3
  {
    hide Same, SameEnv, SameResult, LexOk, ContextOf;
    match e
    case NLit(n) => SameInt(w, closure, c, a, b, n, mode);
    case NName(name) => PreserveName(w, name, scopes, closure, c, a, b, mode, fuel);
    case NUnary(_, _) => PreserveUnary(w, e, scopes, closure, c, r, after, a, b, mode, fuel);
    case NBinary(_, _, _) => PreserveBinary(w, e, scopes, closure, c, r, after, a, b, mode, fuel);
    case NIfElse(_, _, _) => PreserveIfElse(w, e, scopes, closure, c, r, after, a, b, mode, fuel);
    case NIfOnly(_, _) => PreserveIfOnly(w, e, scopes, closure, c, r, after, a, b, mode, fuel);
    case NFor(_, _, _) => PreserveFor(w, e, scopes, closure, c, r, after, a, b, mode, fuel);
    case NSet(_, _) => PreserveSet(w, e, scopes, closure, c, r, after, a, b, mode, fuel);
    case NOpSet(_, _, _) => PreserveOpSet(w, e, scopes, closure, c, r, after, a, b, mode, fuel);
    case NBlock(_) => PreserveBlock(w, e, scopes, closure, c, r, after, a, b, mode, fuel);
    case NFunc(_, _, _) => PreserveFunc(w, e, scopes, closure, c, r, after, a, b, mode, fuel);
    case NCall(_, _) => PreserveCall(w, e, scopes, closure, c, r, after, a, b, mode, fuel);
  }
}
