/** What resolution does to the open scopes: definitions stay, closures only grow, and every
    captured name leads, through all functions in between, to its innermost definition. */
module Closures {
  import opened Basics
  import opened Lang
  import opened Named
  import opened Resolve

  predicate ScopeGrows(a: LexScope, b: LexScope) {
    && b.names == a.names && b.defining == a.defining && b.closure.Some? == a.closure.Some?
    && (a.closure.Some? ==> a.closure.value <= b.closure.value)
  }

  predicate Grows(a: seq<LexScope>, b: seq<LexScope>) {
    |a| == |b| && forall j | 0 <= j < |a| :: ScopeGrows(a[j], b[j])
  }

  /** The chain of a captured name: it starts at the innermost definition, and a function in
      between has captured the name itself. */
  predicate Linked(below: seq<LexScope>, name: Name) {
    var i := Find(below, name);
    && i.Some? && !BeingDefined(below[i.value], name)
    && (ClosedOver(below, i.value) ==> name in below[Own(below).value].closure.value)
  }

  ghost predicate ClosureOk(scopes: seq<LexScope>, j: nat)
    requires j < |scopes|
  {
    scopes[j].closure.Some? ==> forall name | name in scopes[j].closure.value :: Linked(scopes[..j], name)
  }

  ghost predicate LexOk(scopes: seq<LexScope>) {
    forall j | 0 <= j < |scopes| :: ClosureOk(scopes, j)
  }

  lemma GrowsRefl(a: seq<LexScope>)
    ensures Grows(a, a)
  {
  }

  lemma GrowsTrans(a: seq<LexScope>, b: seq<LexScope>, c: seq<LexScope>)
    requires Grows(a, b) && Grows(b, c)
    ensures Grows(a, c)
  {
    forall j | 0 <= j < |a|
      ensures ScopeGrows(a[j], c[j])
    {
      assert ScopeGrows(a[j], b[j]) && ScopeGrows(b[j], c[j]);
    }
  }

  lemma GrowsPrefix(a: seq<LexScope>, b: seq<LexScope>, j: nat)
    requires Grows(a, b) && j <= |a|
    ensures Grows(a[..j], b[..j])
  {
    assert forall i | 0 <= i < j :: ScopeGrows(a[i], b[i]);
  }

  lemma {:induction false} FindGrows(a: seq<LexScope>, b: seq<LexScope>, name: Name)
    requires Grows(a, b)
    ensures Find(a, name) == Find(b, name)
  {
    if |a| > 0 {
      assert ScopeGrows(a[|a| - 1], b[|a| - 1]);
      GrowsPrefix(a, b, |a| - 1);
      FindGrows(a[..|a| - 1], b[..|a| - 1], name);
    }
  }

  lemma {:induction false} OwnGrows(a: seq<LexScope>, b: seq<LexScope>)
    requires Grows(a, b)
    ensures Own(a) == Own(b)
  {
    if |a| > 0 {
      assert ScopeGrows(a[|a| - 1], b[|a| - 1]);
      GrowsPrefix(a, b, |a| - 1);
      OwnGrows(a[..|a| - 1], b[..|a| - 1]);
    }
  }

  lemma LinkedGrows(a: seq<LexScope>, b: seq<LexScope>, name: Name)
    requires Grows(a, b) && Linked(a, name)
    ensures Linked(b, name)
  {
    FindGrows(a, b, name);
    OwnGrows(a, b);
    assert ScopeGrows(a[Find(a, name).value], b[Find(a, name).value]);
    if ClosedOver(a, Find(a, name).value) {
      assert ScopeGrows(a[Own(a).value], b[Own(a).value]);
      var k := IndexOf(a[Own(a).value].closure.value, name);
      assert b[Own(a).value].closure.value[k] == name;
    }
  }

  // The scopes below a scope decide what a name means there.
  lemma {:induction false} FindBelow(scopes: seq<LexScope>, j: nat, name: Name)
    requires j <= |scopes| && forall i | j <= i < |scopes| :: name !in scopes[i].names
    ensures Find(scopes, name) == Find(scopes[..j], name)
    decreases |scopes| - j
  {
    if j < |scopes| {
      FindBelow(scopes, j + 1, name);
      assert scopes[..j + 1][..j] == scopes[..j];
    } else {
      assert scopes[..j] == scopes;
    }
  }

  lemma AddGrows(scopes: seq<LexScope>, i: nat, name: Name)
    ensures Grows(scopes, AddToClosures(scopes, i, name))
  {
  }

  lemma AddLinked(scopes: seq<LexScope>, name: Name, j: nat)
    requires Find(scopes, name).Some? && !BeingDefined(scopes[Find(scopes, name).value], name)
    requires Find(scopes, name).value < j < |scopes|
    ensures Linked(AddToClosures(scopes, Find(scopes, name).value, name)[..j], name)
  {
    var i := Find(scopes, name).value;
    var after := AddToClosures(scopes, i, name);
    AddGrows(scopes, i, name);
    GrowsPrefix(scopes, after, j);
    FindBelow(scopes, j, name);
    FindGrows(scopes[..j], after[..j], name);
  }

  lemma AddOk(scopes: seq<LexScope>, name: Name)
    requires LexOk(scopes) && Find(scopes, name).Some? && !BeingDefined(scopes[Find(scopes, name).value], name)
    ensures LexOk(AddToClosures(scopes, Find(scopes, name).value, name))
  {
    hide Linked;
    var i := Find(scopes, name).value;
    var after := AddToClosures(scopes, i, name);
    AddGrows(scopes, i, name);
    forall j | 0 <= j < |after|
      ensures ClosureOk(after, j)
    {
      if after[j].closure.Some? {
        assert ClosureOk(scopes, j);
        forall n | n in after[j].closure.value
          ensures Linked(after[..j], n)
        {
          if n in scopes[j].closure.value {
            GrowsPrefix(scopes, after, j);
            LinkedGrows(scopes[..j], after[..j], n);
          } else {
            AddLinked(scopes, name, j);
          }
        }
      }
    }
  }

  // A new innermost scope without captures.
  lemma PushOk(scopes: seq<LexScope>, top: LexScope)
    requires LexOk(scopes) && (top.closure.Some? ==> top.closure.value == [])
    ensures LexOk(scopes + [top])
  {
    hide Linked;
    forall j | 0 <= j < |scopes + [top]|
      ensures ClosureOk(scopes + [top], j)
    {
      if j < |scopes| {
        assert ClosureOk(scopes, j);
        assert (scopes + [top])[..j] == scopes[..j];
      }
    }
  }

  lemma PopOk(scopes: seq<LexScope>)
    requires |scopes| > 0 && LexOk(scopes)
    ensures LexOk(scopes[..|scopes| - 1])
  {
    hide Linked;
    var below := scopes[..|scopes| - 1];
    forall j | 0 <= j < |below|
      ensures ClosureOk(below, j)
    {
      assert ClosureOk(scopes, j);
      assert below[..j] == scopes[..j];
    }
  }

  // Definitions in the innermost scope do not matter to the closures.
  lemma TopOk(scopes: seq<LexScope>, top: LexScope)
    requires |scopes| > 0 && LexOk(scopes) && scopes[|scopes| - 1].closure.None? && top.closure.None?
    ensures LexOk(scopes[|scopes| - 1 := top])
  {
    PopOk(scopes);
    PushOk(scopes[..|scopes| - 1], top);
    assert scopes[|scopes| - 1 := top] == scopes[..|scopes| - 1] + [top];
  }

  // ---------- Resolution ----------

  ghost predicate Steady(a: seq<LexScope>, b: seq<LexScope>) {
    Grows(a, b) && (LexOk(a) ==> LexOk(b))
  }

  lemma SteadyTrans(a: seq<LexScope>, b: seq<LexScope>, c: seq<LexScope>)
    requires Steady(a, b) && Steady(b, c)
    ensures Steady(a, c)
  {
    hide LexOk, Grows;
    GrowsTrans(a, b, c);
  }

  lemma NameSteady(w: World, name: Name, scopes: seq<LexScope>)
    ensures var r := ResolveName(w, name, scopes); r.Resolved? ==> Steady(scopes, r.scopes)
  {
    hide LexOk, Grows;
    GrowsRefl(scopes);
    var i := Find(scopes, name);
    if i.Some? && !BeingDefined(scopes[i.value], name) {
      AddGrows(scopes, i.value, name);
      if LexOk(scopes) { AddOk(scopes, name); }
    }
  }

  lemma {:induction false} ExprSteady(w: World, e: NExpr, scopes: seq<LexScope>)
    ensures var r := ResolveExpr(w, e, scopes); r.Resolved? ==> Steady(scopes, r.scopes)
    decreases e, 1
  {
    hide Steady, ResolveName, ResolveSignature;
    SteadyRefl(scopes);
    match e
    case NLit(_) =>
    case NName(name) => NameSteady(w, name, scopes);
    case NUnary(_, e1) => ExprSteady(w, e1, scopes);
    case NBinary(_, l, r) => PairSteady(w, e, l, r, scopes);
    case NIfElse(c, t, f) =>
      PairSteady(w, e, c, t, scopes);
      var r := ResolvePair(w, e, c, t, scopes);
      if r.Resolved? { ThenSteady(w, f, scopes, r.scopes); }
    case NIfOnly(c, t) => PairSteady(w, e, c, t, scopes);
    case NFor(c, body, step) =>
      ExprSteady(w, c, scopes);
      var r := ResolveExpr(w, c, scopes);
      if r.Resolved? {
        StepSteady(w, step, scopes, r.scopes);
        var r2 := ResolveStep(w, step, r.scopes);
        if r2.Resolved? { ThenSteady(w, body, scopes, r2.scopes); }
      }
    case NBlock(items) => BlockSteady(w, items, scopes);
    case NSet(l, r) => PairSteady(w, e, l, r, scopes);
    case NOpSet(_, l, r) => PairSteady(w, e, l, r, scopes);
    case NFunc(params, _, body) => BodySteady(w, NParamNames(params), body, scopes);
    case NCall(f, args) =>
      ExprSteady(w, f, scopes);
      var r := ResolveExpr(w, f, scopes);
      if r.Resolved? { ArgsSteady(w, args, scopes, r.scopes); }
  }

  lemma SteadyRefl(a: seq<LexScope>)
    ensures Steady(a, a)
  {
    GrowsRefl(a);
  }

  lemma {:induction false} ThenSteady(w: World, e: NExpr, a: seq<LexScope>, b: seq<LexScope>)
    requires Steady(a, b)
    ensures var r := ResolveExpr(w, e, b); r.Resolved? ==> Steady(a, r.scopes)
    decreases e, 2
  {
    hide Steady, ResolveExpr;
    ExprSteady(w, e, b);
    var r := ResolveExpr(w, e, b);
    if r.Resolved? { SteadyTrans(a, b, r.scopes); }
  }

  lemma {:induction false} PairSteady(w: World, e: NExpr, l: NExpr, r: NExpr, scopes: seq<LexScope>)
    requires l < e && r < e
    ensures var q := ResolvePair(w, e, l, r, scopes); q.Resolved? ==> Steady(scopes, q.scopes)
    decreases e, 0
  {
    hide Steady;
    ExprSteady(w, l, scopes);
    var q := ResolveExpr(w, l, scopes);
    if q.Resolved? { ThenSteady(w, r, scopes, q.scopes); }
  }

  lemma {:induction false} StepSteady(w: World, step: NStep, a: seq<LexScope>, b: seq<LexScope>)
    requires Steady(a, b)
    ensures var r := ResolveStep(w, step, b); r.Resolved? ==> Steady(a, r.scopes)
    decreases step, 0
  {
    hide Steady;
    if step.NAdvance? { ThenSteady(w, step.e, a, b); }
  }

  lemma {:induction false} ArgsSteady(w: World, args: NArgs, a: seq<LexScope>, b: seq<LexScope>)
    requires Steady(a, b)
    ensures var r := ResolveArgs(w, args, b); r.Resolved? ==> Steady(a, r.scopes)
    decreases args, 0
  {
    hide Steady;
    match args
    case NNoArgs =>
    case NArg(e, rest) =>
      ThenSteady(w, e, a, b);
      var r := ResolveExpr(w, e, b);
      if r.Resolved? { ArgsSteady(w, rest, a, r.scopes); }
  }

  lemma PopSteady(scopes: seq<LexScope>, top: LexScope, after: seq<LexScope>)
    requires Steady(scopes + [top], after) && (top.closure.Some? ==> top.closure.value == [])
    ensures |after| == |scopes| + 1 && Steady(scopes, after[..|after| - 1])
    ensures ScopeGrows(top, after[|after| - 1])
    ensures LexOk(scopes) ==> LexOk(after)
  {
    hide LexOk, ScopeGrows;
    GrowsPrefix(scopes + [top], after, |scopes|);
    assert (scopes + [top])[..|scopes|] == scopes;
    assert (scopes + [top])[|scopes|] == top;
    if LexOk(scopes) {
      PushOk(scopes, top);
      PopOk(after);
    }
  }

  lemma {:induction false} BodySteady(w: World, params: seq<Name>, body: NExpr, scopes: seq<LexScope>)
    ensures var r := ResolveBody(w, params, body, scopes); r.Resolved? ==> Steady(scopes, r.scopes)
    ensures var r := ResolveExpr(w, body, Enter(scopes, params));
      r.Resolved? ==>
        |r.scopes| == |scopes| + 1 && r.scopes[|scopes|].closure.Some? && Steady(Enter(scopes, params), r.scopes)
    decreases body, 2
  {
    hide Steady, ResolveExpr;
    ExprSteady(w, body, Enter(scopes, params));
    var r := ResolveExpr(w, body, Enter(scopes, params));
    if r.Resolved? { PopSteady(scopes, LexScope(params, false, Some([])), r.scopes); }
  }

  // Between the statements of a block: `top` is the block's scope.
  ghost predicate WithinBlock(a: seq<LexScope>, b: seq<LexScope>) {
    && |a| == |b| > 0 && a[|a| - 1].closure.None? && b[|b| - 1].closure.None?
    && Grows(a[..|a| - 1], b[..|b| - 1]) && (LexOk(a) ==> LexOk(b))
  }

  lemma BlockTrans(a: seq<LexScope>, b: seq<LexScope>, c: seq<LexScope>)
    requires WithinBlock(a, b) && WithinBlock(b, c)
    ensures WithinBlock(a, c)
  {
    hide LexOk, Grows;
    GrowsTrans(a[..|a| - 1], b[..|b| - 1], c[..|c| - 1]);
  }

  lemma SteadyBlock(a: seq<LexScope>, b: seq<LexScope>)
    requires Steady(a, b) && |a| > 0 && a[|a| - 1].closure.None?
    ensures WithinBlock(a, b)
  {
    hide LexOk;
    GrowsPrefix(a, b, |a| - 1);
    assert ScopeGrows(a[|a| - 1], b[|a| - 1]);
  }

  lemma BeginSteady(a: seq<LexScope>, name: Name)
    requires |a| > 0 && a[|a| - 1].closure.None? && Begin(a, name).Some?
    ensures WithinBlock(a, Begin(a, name).value)
  {
    hide LexOk;
    var b := Begin(a, name).value;
    assert b[..|b| - 1] == a[..|a| - 1];
    GrowsRefl(a[..|a| - 1]);
    if LexOk(a) { TopOk(a, b[|b| - 1]); }
  }

  lemma CompleteSteady(a: seq<LexScope>)
    requires |a| > 0 && a[|a| - 1].closure.None?
    ensures WithinBlock(a, Complete(a))
  {
    hide LexOk;
    var b := Complete(a);
    assert b[..|b| - 1] == a[..|a| - 1];
    GrowsRefl(a[..|a| - 1]);
    if LexOk(a) { TopOk(a, b[|b| - 1]); }
  }

  // The parts of a definition.
  lemma {:induction false} PartSteady(w: World, e: NExpr, a: seq<LexScope>, b: seq<LexScope>)
    requires WithinBlock(a, b)
    ensures var r := ResolveExpr(w, e, b); r.Resolved? ==> WithinBlock(a, r.scopes)
    decreases e, 2
  {
    hide ResolveExpr, LexOk, Grows;
    ExprSteady(w, e, b);
    var r := ResolveExpr(w, e, b);
    if r.Resolved? {
      SteadyBlock(b, r.scopes);
      BlockTrans(a, b, r.scopes);
    }
  }

  lemma {:induction false} ItemsSteady(w: World, items: NItems, a: seq<LexScope>, b: seq<LexScope>)
    requires WithinBlock(a, b)
    ensures var r := ResolveItems(w, items, b); r.Resolved? ==> WithinBlock(a, r.scopes)
    decreases items, 0
  {
    hide WithinBlock, Begin, Complete, ResolveExpr;
    match items
    case NEnd =>
    case NDo(e, rest) =>
      PartSteady(w, e, a, b);
      var r := ResolveExpr(w, e, b);
      if r.Resolved? { ItemsSteady(w, rest, a, r.scopes); }
    case NLet(name, _, value, rest) =>
      if Begin(b, name).Some? {
        BeginFrom(a, b, name);
        PartSteady(w, value, a, Begin(b, name).value);
        var r := ResolveExpr(w, value, Begin(b, name).value);
        if r.Resolved? {
          CompleteFrom(a, r.scopes);
          ItemsSteady(w, rest, a, Complete(r.scopes));
        }
      }
    case NTypedLet(name, _, ty, value, rest) =>
      if Begin(b, name).Some? {
        BeginFrom(a, b, name);
        PartSteady(w, ty, a, Begin(b, name).value);
        var r1 := ResolveExpr(w, ty, Begin(b, name).value);
        if r1.Resolved? {
          PartSteady(w, value, a, r1.scopes);
          var r := ResolveExpr(w, value, r1.scopes);
          if r.Resolved? {
            CompleteFrom(a, r.scopes);
            ItemsSteady(w, rest, a, Complete(r.scopes));
          }
        }
      }
  }

  lemma BeginFrom(a: seq<LexScope>, b: seq<LexScope>, name: Name)
    requires WithinBlock(a, b) && Begin(b, name).Some?
    ensures WithinBlock(a, Begin(b, name).value)
  {
    hide LexOk, Grows;
    BeginSteady(b, name);
    BlockTrans(a, b, Begin(b, name).value);
  }

  lemma CompleteFrom(a: seq<LexScope>, b: seq<LexScope>)
    requires WithinBlock(a, b)
    ensures WithinBlock(a, Complete(b))
  {
    hide LexOk, Grows;
    CompleteSteady(b);
    BlockTrans(a, b, Complete(b));
  }

  lemma {:induction false} BlockSteady(w: World, items: NItems, scopes: seq<LexScope>)
    ensures var r := ResolveItems(w, items, scopes + [LexScope([], false, None)]);
      r.Resolved? ==> |r.scopes| == |scopes| + 1 && Steady(scopes, r.scopes[..|scopes|])
    decreases items, 1
  {
    hide ResolveItems, LexOk, Grows;
    var top := LexScope([], false, None);
    var a := scopes + [top];
    SteadyRefl(a);
    SteadyBlock(a, a);
    ItemsSteady(w, items, a, a);
    var r := ResolveItems(w, items, a);
    if r.Resolved? {
      assert a[..|scopes|] == scopes;
      if LexOk(scopes) {
        PushOk(scopes, top);
        PopOk(r.scopes);
      }
    }
  }
}
