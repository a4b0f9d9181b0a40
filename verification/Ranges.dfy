/** Resolution yields addresses that lead to something: the expressions it produces are in range. */
module Ranges {
  import opened Basics
  import opened Lang
  import opened Named
  import opened Resolve
  import opened Closures
  import opened Conversion
  import opened Definedness

  // Every global name has a value.
  predicate Valued(w: World) {
    |w.prelude| + |w.file| <= |w.values|
  }

  function Count(s: LexScope): nat {
    |Settled(s)|
  }

  /** The scopes of the running function, seen from the open scopes. */
  function ShapeOf(scopes: seq<LexScope>, slots: nat): (sh: Shape)
    ensures |sh.counts| == |scopes| - Base(scopes)
  {
    var b := Base(scopes);
    Shape(seq<nat>(|scopes| - b, s requires 0 <= s < |scopes| - b => Count(scopes[b + s])), slots)
  }

  lemma ShapeGrows(a: seq<LexScope>, b: seq<LexScope>, slots: nat)
    requires Grows(a, b)
    ensures ShapeOf(a, slots) == ShapeOf(b, slots)
  {
    hide Own;
    OwnGrows(a, b);
    var x, y := ShapeOf(a, slots), ShapeOf(b, slots);
    forall s | 0 <= s < |x.counts|
      ensures x.counts[s] == y.counts[s]
    {
      var j := Base(a) + s;
      assert ScopeGrows(a[j], b[j]);
      assert Base(a) == Base(b) && Settled(a[j]) == Settled(b[j]);
      assert x.counts[s] == Count(a[j]) && y.counts[s] == Count(b[j]);
    }
    assert x.counts == y.counts;
  }

  lemma ClosureGrows(a: seq<LexScope>, b: seq<LexScope>)
    requires Grows(a, b)
    ensures |OwnClosure(a)| <= |OwnClosure(b)|
  {
    hide Own;
    OwnGrows(a, b);
    if Own(a).Some? { assert ScopeGrows(a[Own(a).value], b[Own(a).value]); }
  }

  // A scope that is no function's.
  lemma OwnBelow(a: seq<LexScope>)
    requires |a| > 0 && a[|a| - 1].closure.None?
    ensures Own(a) == Own(a[..|a| - 1]) && OwnClosure(a) == OwnClosure(a[..|a| - 1]) && Base(a) == Base(a[..|a| - 1])
  {
  }

  lemma ClosureWithin(a: seq<LexScope>, b: seq<LexScope>)
    requires WithinBlock(a, b)
    ensures |OwnClosure(a)| <= |OwnClosure(b)|
  {
    hide Own, OwnClosure, Base, Grows, LexOk;
    OwnBelow(a);
    OwnBelow(b);
    ClosureGrows(a[..|a| - 1], b[..|b| - 1]);
  }

  // ---------- Names ----------

  lemma MemberRanged(scopes: seq<LexScope>, name: Name, slots: nat)
    requires Find(scopes, name).Some?
    requires !BeingDefined(scopes[Find(scopes, name).value], name) && !ClosedOver(scopes, Find(scopes, name).value)
    ensures var i := Find(scopes, name).value;
      MemberInRange(ShapeOf(scopes, slots), |scopes| - 1 - i, IndexOf(scopes[i].names, name))
  {
    hide Find, Own, Settled, IndexOf;
    var i := Find(scopes, name).value;
    SettledRank(scopes[i], name);
    var b, sh := Base(scopes), ShapeOf(scopes, slots);
    assert sh.counts[i - b] == Count(scopes[b + (i - b)]);
  }

  lemma NameRanged(w: World, name: Name, scopes: seq<LexScope>, slots: nat)
    requires Valued(w) && ResolveName(w, name, scopes).Resolved?
    requires |OwnClosure(ResolveName(w, name, scopes).scopes)| <= slots
    ensures Ranged(ResolveName(w, name, scopes).value, |w.values|, ShapeOf(scopes, slots))
  {
    hide Find, Own, Settled, IndexOf;
    match Find(scopes, name)
    case Some(i) =>
      if ClosedOver(scopes, i) {
        var after := AddToClosures(scopes, i, name);
        AddGrows(scopes, i, name);
        OwnGrows(scopes, after);
        assert name in after[Own(after).value].closure.value;
      } else {
        MemberRanged(scopes, name, slots);
      }
    case None =>
  }

  lemma CaptureRanged(below: seq<LexScope>, name: Name, slots: nat)
    requires Linked(below, name) && |OwnClosure(below)| <= slots
    ensures CaptureInRange(ShapeOf(below, slots), CaptureOf(below, name))
  {
    hide Find, Own, Settled, IndexOf;
    if !ClosedOver(below, Find(below, name).value) { MemberRanged(below, name, slots); }
  }

  // ---------- Expressions ----------

  // Resolution started at `a`, has come to `b`, and the closure has room for `slots` captures.
  ghost predicate Between(w: World, a: seq<LexScope>, b: seq<LexScope>) {
    Valued(w) && LexOk(a) && Steady(a, b)
  }

  lemma BetweenSelf(w: World, a: seq<LexScope>)
    requires Valued(w) && LexOk(a)
    ensures Between(w, a, a)
  {
    hide LexOk;
    SteadyRefl(a);
  }

  // An expression resolved on the way.
  lemma {:induction false} AtRanged(w: World, e: NExpr, a: seq<LexScope>, b: seq<LexScope>, slots: nat)
    requires Between(w, a, b) && ResolveExpr(w, e, b).Resolved? && |OwnClosure(ResolveExpr(w, e, b).scopes)| <= slots
    ensures Ranged(ResolveExpr(w, e, b).value, |w.values|, ShapeOf(a, slots))
    ensures Between(w, a, ResolveExpr(w, e, b).scopes) && |OwnClosure(b)| <= slots
    decreases e, 3
  {
    hide LexOk, ShapeOf, OwnClosure, ResolveExpr, Grows;
    var c := ResolveExpr(w, e, b).scopes;
    ExprSteady(w, e, b);
    SteadyTrans(a, b, c);
    ClosureGrows(b, c);
    ExprRanged(w, e, b, slots);
    ShapeGrows(a, b, slots);
  }

  lemma {:induction false} ExprRanged(w: World, e: NExpr, scopes: seq<LexScope>, slots: nat)
    requires Valued(w) && LexOk(scopes)
    requires ResolveExpr(w, e, scopes).Resolved? && |OwnClosure(ResolveExpr(w, e, scopes).scopes)| <= slots
    ensures Ranged(ResolveExpr(w, e, scopes).value, |w.values|, ShapeOf(scopes, slots))
    decreases e, 2
  {
    hide LexOk, ShapeOf, OwnClosure, ResolveName, ResolveSignature, ResolveBody, ResolveItems, Between, ResolvePair,
         ResolveStep,
         ResolveArgs;
    BetweenSelf(w, scopes);
    match e
    case NLit(_) =>
    case NName(name) => NameRanged(w, name, scopes, slots);
    case NUnary(_, e1) => AtRanged(w, e1, scopes, scopes, slots);
    case NBinary(_, l, r) => PairRanged(w, e, l, r, scopes, slots);
    case NIfElse(c, t, f) => IfElseRanged(w, e, scopes, slots);
    case NIfOnly(c, t) => PairRanged(w, e, c, t, scopes, slots);
    case NFor(_, _, _) => ForRanged(w, e, scopes, slots);
    case NBlock(items) => BlockRanged(w, items, scopes, slots);
    case NSet(l, r) => PairRanged(w, e, l, r, scopes, slots);
    case NOpSet(_, l, r) => PairRanged(w, e, l, r, scopes, slots);
    case NFunc(params, ret, body) => FuncRanged(w, e, scopes, slots);
    case NCall(_, _) => CallRanged(w, e, scopes, slots);
  }

  lemma {:induction false} PairRanged(w: World, e: NExpr, l: NExpr, r: NExpr, scopes: seq<LexScope>, slots: nat)
    requires l < e && r < e && Valued(w) && LexOk(scopes)
    requires ResolvePair(w, e, l, r, scopes).Resolved? && |OwnClosure(ResolvePair(w, e, l, r, scopes).scopes)| <= slots
    ensures var q := ResolvePair(w, e, l, r, scopes);
      && Ranged(q.value.0, |w.values|, ShapeOf(scopes, slots)) && Ranged(q.value.1, |w.values|, ShapeOf(scopes, slots))
      && Between(w, scopes, q.scopes)
    decreases e, 0
  {
    hide LexOk, ShapeOf, OwnClosure, ResolveExpr, Steady, Ranged;
    ExprSteady(w, l, scopes);
    AtRanged(w, r, scopes, ResolveExpr(w, l, scopes).scopes, slots);
    ExprRanged(w, l, scopes, slots);
  }

  lemma {:induction false} IfElseRanged(w: World, e: NExpr, scopes: seq<LexScope>, slots: nat)
    requires e.NIfElse? && Valued(w) && LexOk(scopes)
    requires ResolveExpr(w, e, scopes).Resolved? && |OwnClosure(ResolveExpr(w, e, scopes).scopes)| <= slots
    ensures Ranged(ResolveExpr(w, e, scopes).value, |w.values|, ShapeOf(scopes, slots))
    decreases e, 1
  {
    hide LexOk, ShapeOf, OwnClosure, Steady, ResolvePair;
    var q := ResolvePair(w, e, e.cond, e.thn, scopes);
    PairSteady(w, e, e.cond, e.thn, scopes);
    AtRanged(w, e.els, scopes, q.scopes, slots);
    PairRanged(w, e, e.cond, e.thn, scopes, slots);
  }

  lemma {:induction false} ForRanged(w: World, e: NExpr, scopes: seq<LexScope>, slots: nat)
    requires e.NFor? && Valued(w) && LexOk(scopes)
    requires ResolveExpr(w, e, scopes).Resolved? && |OwnClosure(ResolveExpr(w, e, scopes).scopes)| <= slots
    ensures Ranged(ResolveExpr(w, e, scopes).value, |w.values|, ShapeOf(scopes, slots))
    decreases e, 1
  {
    hide LexOk, ShapeOf, OwnClosure, Steady;
    var s1 := ResolveExpr(w, e.cond, scopes).scopes;
    ExprSteady(w, e.cond, scopes);
    var s2 := ResolveStep(w, e.step, s1).scopes;
    StepSteady(w, e.step, scopes, s1);
    AtRanged(w, e.body, scopes, s2, slots);
    if e.step.NAdvance? { AtRanged(w, e.step.e, scopes, s1, slots); }
    ExprRanged(w, e.cond, scopes, slots);
  }

  lemma {:induction false} CallRanged(w: World, e: NExpr, scopes: seq<LexScope>, slots: nat)
    requires e.NCall? && Valued(w) && LexOk(scopes)
    requires ResolveExpr(w, e, scopes).Resolved? && |OwnClosure(ResolveExpr(w, e, scopes).scopes)| <= slots
    ensures Ranged(ResolveExpr(w, e, scopes).value, |w.values|, ShapeOf(scopes, slots))
    decreases e, 1
  {
    hide LexOk, ShapeOf, OwnClosure, Steady, ResolveArgs;
    var s1 := ResolveExpr(w, e.callee, scopes).scopes;
    ExprSteady(w, e.callee, scopes);
    ArgsInRange(w, e.args, scopes, s1, slots);
    ExprRanged(w, e.callee, scopes, slots);
  }

  lemma {:induction false} ArgsInRange(w: World, args: NArgs, a: seq<LexScope>, b: seq<LexScope>, slots: nat)
    requires Between(w, a, b) && ResolveArgs(w, args, b).Resolved?
    requires |OwnClosure(ResolveArgs(w, args, b).scopes)| <= slots
    ensures ArgsRanged(ResolveArgs(w, args, b).value, |w.values|, ShapeOf(a, slots)) && |OwnClosure(b)| <= slots
    decreases args, 0
  {
    hide LexOk, ShapeOf, OwnClosure, Steady, ResolveExpr, Ranged;
    match args
    case NNoArgs =>
    case NArg(e, rest) =>
      ThenSteady(w, e, a, b);
      ArgsInRange(w, rest, a, ResolveExpr(w, e, b).scopes, slots);
      AtRanged(w, e, a, b, slots);
  }

  // ---------- Blocks ----------

  // The block's own scope is innermost, with no definition open.
  ghost predicate InBlock(w: World, b: seq<LexScope>) {
    Valued(w) && LexOk(b) && |b| > 0 && b[|b| - 1].closure.None? && !b[|b| - 1].defining
  }

  lemma ShapeBegin(b: seq<LexScope>, name: Name, slots: nat)
    requires |b| > 0 && b[|b| - 1].closure.None? && !b[|b| - 1].defining && Begin(b, name).Some?
    ensures ShapeOf(Begin(b, name).value, slots) == ShapeOf(b, slots) && |ShapeOf(b, slots).counts| > 0
    ensures Begin(b, name).value[|b| - 1].defining && Begin(b, name).value[|b| - 1].closure.None?
  {
    hide Own;
    var b' := Begin(b, name).value;
    OwnBelow(b);
    OwnBelow(b');
    assert b'[..|b| - 1] == b[..|b| - 1];
    var x, y := ShapeOf(b', slots), ShapeOf(b, slots);
    assert |x.counts| == |y.counts|;
    forall s | 0 <= s < |x.counts|
      ensures x.counts[s] == y.counts[s]
    {
      if Base(b) + s < |b| - 1 { assert b'[Base(b) + s] == b[Base(b) + s]; }
    }
    assert x.counts == y.counts;
  }

  lemma ShapeComplete(b: seq<LexScope>, c: seq<LexScope>, slots: nat)
    requires |b| > 0 && b[|b| - 1].closure.None? && b[|b| - 1].defining && |b[|b| - 1].names| > 0 && Grows(b, c)
    ensures |ShapeOf(b, slots).counts| > 0 && ShapeOf(Complete(c), slots) == Longer(ShapeOf(b, slots))
    ensures Complete(c) != [] && Complete(c)[|c| - 1].closure.None? && !Complete(c)[|c| - 1].defining
  {
    hide Own;
    ShapeGrows(b, c, slots);
    assert ScopeGrows(b[|b| - 1], c[|b| - 1]);
    var d := Complete(c);
    OwnBelow(c);
    OwnBelow(b);
    OwnBelow(d);
    assert d[..|c| - 1] == c[..|c| - 1];
    var x, y := ShapeOf(d, slots), ShapeOf(c, slots);
    assert |x.counts| == |y.counts|;
    assert Count(d[|d| - 1]) == Count(c[|c| - 1]) + 1;
    forall s | 0 <= s < |x.counts|
      ensures x.counts[s] == Longer(y).counts[s]
    {
      if Base(c) + s < |c| - 1 { assert d[Base(c) + s] == c[Base(c) + s]; }
    }
    assert x.counts == Longer(y).counts;
  }

  // Behind a part of a definition or a statement.
  lemma {:induction false} StaysInBlock(w: World, e: NExpr, b: seq<LexScope>)
    requires LexOk(b) && |b| > 0 && b[|b| - 1].closure.None? && ResolveExpr(w, e, b).Resolved?
    ensures var c := ResolveExpr(w, e, b).scopes;
      Grows(b, c) && LexOk(c) && WithinBlock(b, c) && |c| == |b| && c[|c| - 1].closure.None?
          && c[|c| - 1].defining == b[|b| - 1].defining
  {
    hide LexOk, ResolveExpr;
    ExprSteady(w, e, b);
    var c := ResolveExpr(w, e, b).scopes;
    SteadyBlock(b, c);
    assert ScopeGrows(b[|b| - 1], c[|b| - 1]);
  }

  lemma {:induction false} ItemsInRange(w: World, items: NItems, b: seq<LexScope>, slots: nat)
    requires InBlock(w, b) && ResolveItems(w, items, b).Resolved?
    requires |OwnClosure(ResolveItems(w, items, b).scopes)| <= slots
    ensures ItemsRanged(ResolveItems(w, items, b).value, |w.values|, ShapeOf(b, slots)) && |OwnClosure(b)| <= slots
    decreases items, 1
  {
    hide InBlock, ResolveItems, OwnClosure, ShapeOf;
    match items
    case NEnd => NoneInRange(w, items, b, slots);
    case NDo(_, _) => DoInRange(w, items, b, slots);
    case NLet(_, _, _, _) => LetInRange(w, items, b, slots);
    case NTypedLet(_, _, _, _, _) => TypedLetInRange(w, items, b, slots);
  }

  lemma NoneInRange(w: World, items: NItems, b: seq<LexScope>, slots: nat)
    requires items.NEnd?
    requires InBlock(w, b) && ResolveItems(w, items, b).Resolved?
    requires |OwnClosure(ResolveItems(w, items, b).scopes)| <= slots
    ensures ItemsRanged(ResolveItems(w, items, b).value, |w.values|, ShapeOf(b, slots)) && |OwnClosure(b)| <= slots
  {
    hide LexOk;
    OwnBelow(b);
  }

  lemma {:induction false} DoInRange(w: World, items: NItems, b: seq<LexScope>, slots: nat)
    requires items.NDo?
    requires InBlock(w, b) && ResolveItems(w, items, b).Resolved?
    requires |OwnClosure(ResolveItems(w, items, b).scopes)| <= slots
    ensures ItemsRanged(ResolveItems(w, items, b).value, |w.values|, ShapeOf(b, slots)) && |OwnClosure(b)| <= slots
    decreases items, 0
  {
    hide LexOk, OwnClosure, ShapeOf, ResolveExpr, Ranged, Grows, WithinBlock;
    var c := ResolveExpr(w, items.e, b).scopes;
    StaysInBlock(w, items.e, b);
    ItemsInRange(w, items.rest, c, slots);
    ClosureGrows(b, c);
    ExprRanged(w, items.e, b, slots);
    ShapeGrows(b, c, slots);
  }

  // The scopes in the middle of a definition.
  lemma BeginInBlock(w: World, b: seq<LexScope>, name: Name)
    requires InBlock(w, b) && Begin(b, name).Some?
    ensures var b' := Begin(b, name).value;
      LexOk(b') && WithinBlock(b, b') && |b'| == |b| && b'[|b| - 1].closure.None? && b'[|b| - 1].defining
          && |b'[|b| - 1].names| > 0
  {
    hide LexOk;
    BeginSteady(b, name);
  }

  lemma CompleteInBlock(w: World, b: seq<LexScope>, c: seq<LexScope>)
    requires Valued(w) && LexOk(b) && |b| > 0 && b[|b| - 1].closure.None? && Grows(b, c) && LexOk(c)
    ensures InBlock(w, Complete(c)) && WithinBlock(c, Complete(c))
  {
    hide LexOk;
    assert ScopeGrows(b[|b| - 1], c[|b| - 1]);
    CompleteSteady(c);
  }

  lemma {:induction false} LetInRange(w: World, items: NItems, b: seq<LexScope>, slots: nat)
    requires items.NLet?
    requires InBlock(w, b) && ResolveItems(w, items, b).Resolved?
    requires |OwnClosure(ResolveItems(w, items, b).scopes)| <= slots
    ensures ItemsRanged(ResolveItems(w, items, b).value, |w.values|, ShapeOf(b, slots)) && |OwnClosure(b)| <= slots
    decreases items, 0
  {
    hide LexOk, OwnClosure, ShapeOf, ResolveExpr, Ranged, Grows, WithinBlock, Begin, Complete, Longer;
    var b' := Begin(b, items.name).value;
    var c := ResolveExpr(w, items.value, b').scopes;
    BeginInBlock(w, b, items.name);
    ShapeBegin(b, items.name, slots);
    StaysInBlock(w, items.value, b');
    CompleteInBlock(w, b', c);
    ShapeComplete(b', c, slots);
    ItemsInRange(w, items.rest, Complete(c), slots);
    ClosureWithin(c, Complete(c));
    ExprRanged(w, items.value, b', slots);
    ClosureGrows(b', c);
    ClosureWithin(b, b');
  }

  lemma {:induction false} TypedLetInRange(w: World, items: NItems, b: seq<LexScope>, slots: nat)
    requires items.NTypedLet?
    requires InBlock(w, b) && ResolveItems(w, items, b).Resolved?
    requires |OwnClosure(ResolveItems(w, items, b).scopes)| <= slots
    ensures ItemsRanged(ResolveItems(w, items, b).value, |w.values|, ShapeOf(b, slots)) && |OwnClosure(b)| <= slots
    decreases items, 0
  {
    hide LexOk, OwnClosure, ShapeOf, ResolveExpr, Ranged, Grows, WithinBlock, Begin, Complete, Longer;
    var b' := Begin(b, items.name).value;
    var c := ResolveExpr(w, items.ty, b').scopes;
    BeginInBlock(w, b, items.name);
    ShapeBegin(b, items.name, slots);
    StaysInBlock(w, items.ty, b');
    var d := ResolveExpr(w, items.value, c).scopes;
    StaysInBlock(w, items.value, c);
    GrowsTrans(b', c, d);
    CompleteInBlock(w, b', d);
    ShapeComplete(b', d, slots);
    ItemsInRange(w, items.rest, Complete(d), slots);
    ClosureWithin(d, Complete(d));
    ExprRanged(w, items.value, c, slots);
    ShapeGrows(b', c, slots);
    ClosureGrows(c, d);
    ExprRanged(w, items.ty, b', slots);
    ClosureGrows(b', c);
    ClosureWithin(b, b');
  }

  lemma {:induction false} BlockRanged(w: World, items: NItems, scopes: seq<LexScope>, slots: nat)
    requires Valued(w) && LexOk(scopes)
    requires ResolveExpr(w, NBlock(items), scopes).Resolved?
    requires |OwnClosure(ResolveExpr(w, NBlock(items), scopes).scopes)| <= slots
    ensures Ranged(ResolveExpr(w, NBlock(items), scopes).value, |w.values|, ShapeOf(scopes, slots))
    decreases items, 2
  {
    hide LexOk, ShapeOf, OwnClosure, ResolveItems, Grows, ItemsRanged;
    var top := LexScope([], false, None);
    var a := scopes + [top];
    PushOk(scopes, top);
    SteadyRefl(a);
    SteadyBlock(a, a);
    ItemsSteady(w, items, a, a);
    var s1 := ResolveItems(w, items, a).scopes;
    OwnBelow(s1);
    ItemsInRange(w, items, a, slots);
    ShapeInner(scopes, top, slots);
  }

  lemma ShapeInner(scopes: seq<LexScope>, top: LexScope, slots: nat)
    requires top == LexScope([], false, None)
    ensures ShapeOf(scopes + [top], slots) == Inner(ShapeOf(scopes, slots))
  {
    hide Own;
    var a := scopes + [top];
    OwnBelow(a);
    assert a[..|a| - 1] == scopes;
    var x, y := ShapeOf(a, slots), Inner(ShapeOf(scopes, slots));
    assert |x.counts| == |y.counts|;
    forall s | 0 <= s < |x.counts|
      ensures x.counts[s] == y.counts[s]
    {
      if Base(a) + s < |scopes| { assert a[Base(a) + s] == scopes[Base(a) + s]; }
    }
    assert x.counts == y.counts;
  }

  // ---------- Functions ----------

  lemma TypeRanged(w: World, name: Name, names: seq<Name>, scopes: seq<LexScope>, sh: Shape)
    requires Valued(w) && ResolveType(w, name, names, scopes).Resolved?
    ensures Ranged(ResolveType(w, name, names, scopes).value, |w.values|, sh)
  {
    hide IndexOf;
  }

  lemma {:induction false} SignatureInRange(w: World, params: seq<NParam>, ret: Name, names: seq<Name>,
                                            scopes: seq<LexScope>, sh: Shape)
    requires Valued(w) && ResolveSignature(w, params, ret, names, scopes).Resolved?
    ensures var sig := ResolveSignature(w, params, ret, names, scopes).value;
      SignatureRanged(sig, |w.values|, sh) && |ParamMuts(sig)| == |params|
    decreases |params|
  {
    hide ResolveType, Ranged;
    if params == [] {
      TypeRanged(w, ret, names, scopes, sh);
    } else {
      TypeRanged(w, params[0].ty, names + [params[0].name], scopes, sh);
      SignatureInRange(w, params[1..], ret, names + [params[0].name], scopes, sh);
    }
  }

  lemma ShapeEnter(scopes: seq<LexScope>, params: seq<Name>, slots: nat)
    ensures ShapeOf(Enter(scopes, params), slots) == Shape([|params|], slots)
    ensures forall s | Grows(Enter(scopes, params), s) :: |s| == |scopes| + 1 && Own(s) == Some(|scopes|)
  {
    hide Grows;
    var a := Enter(scopes, params);
    assert Own(a) == Some(|scopes|);
    assert a[|scopes|] == LexScope(params, false, Some([]));
    assert |ShapeOf(a, slots).counts| == 1 && ShapeOf(a, slots).counts[0] == Count(a[|scopes| + 0]);
    assert ShapeOf(a, slots).counts == [|params|];
    forall s | Grows(a, s)
      ensures |s| == |scopes| + 1 && Own(s) == Some(|scopes|)
    {
      OwnGrows(a, s);
      GrowsLength(a, s);
    }
  }

  lemma GrowsLength(a: seq<LexScope>, b: seq<LexScope>)
    requires Grows(a, b)
    ensures |a| == |b|
  {
  }

  lemma CapturesRanged(scopes: seq<LexScope>, s1: seq<LexScope>, slots: nat)
    requires |s1| > 0 && s1[|s1| - 1].closure.Some? && LexOk(s1)
    requires Grows(scopes, s1[..|s1| - 1]) && |OwnClosure(s1[..|s1| - 1])| <= slots
    ensures var cs := CaptureList(s1[..|s1| - 1], s1[|s1| - 1].closure.value);
      forall i | 0 <= i < |cs| :: CaptureInRange(ShapeOf(scopes, slots), cs[i])
  {
    hide ShapeOf, OwnClosure, Grows, Linked, CaptureOf;
    var below, closure := s1[..|s1| - 1], s1[|s1| - 1].closure.value;
    assert ClosureOk(s1, |s1| - 1);
    ShapeGrows(scopes, below, slots);
    forall i | 0 <= i < |closure|
      ensures CaptureInRange(ShapeOf(scopes, slots), CaptureOf(below, closure[i]))
    {
      CaptureRanged(below, closure[i], slots);
    }
  }

  lemma {:induction false} FuncRanged(w: World, e: NExpr, scopes: seq<LexScope>, slots: nat)
    requires e.NFunc? && Valued(w) && LexOk(scopes)
    requires ResolveExpr(w, e, scopes).Resolved? && |OwnClosure(ResolveExpr(w, e, scopes).scopes)| <= slots
    ensures Ranged(ResolveExpr(w, e, scopes).value, |w.values|, ShapeOf(scopes, slots))
    decreases e, 1
  {
    hide LexOk, ShapeOf, OwnClosure, Grows, ResolveSignature, CaptureInRange, CaptureList;
    var params := NParamNames(e.params);
    SignatureInRange(w, e.params, e.ret, [], scopes, ShapeOf(scopes, slots));
    var b := ResolveExpr(w, e.body, Enter(scopes, params));
    BodySteady(w, params, e.body, scopes);
    PushOk(scopes, LexScope(params, false, Some([])));
    var s1 := b.scopes;
    ShapeEnter(scopes, params, |s1[|s1| - 1].closure.value|);
    OwnLast(s1);
    ExprRanged(w, e.body, Enter(scopes, params), |s1[|s1| - 1].closure.value|);
    CapturesRanged(scopes, s1, slots);
    ListLength(s1[..|s1| - 1], s1[|s1| - 1].closure.value);
  }

  lemma OwnLast(s: seq<LexScope>)
    requires |s| > 0 && s[|s| - 1].closure.Some?
    ensures OwnClosure(s) == s[|s| - 1].closure.value
  {
  }

  lemma ListLength(below: seq<LexScope>, closure: seq<Name>)
    ensures |CaptureList(below, closure)| == |closure|
  {
  }

  /** What resolution accepts in an empty environment is in range. */
  lemma ResolvedInRange(w: World, e: NExpr)
    requires Valued(w) && ResolveExpr(w, e, []).Resolved?
    ensures Ranged(ResolveExpr(w, e, []).value, |w.values|, Shape([], 0))
  {
    hide ResolveExpr, Steady;
    ExprSteady(w, e, []);
    NothingOpened(w, ResolveExpr(w, e, []).scopes);
    ExprRanged(w, e, [], 0);
    assert ShapeOf([], 0) == Shape([], 0);
  }

  lemma NothingOpened(w: World, scopes: seq<LexScope>)
    requires Steady([], scopes)
    ensures OwnClosure(scopes) == []
  {
  }
}
