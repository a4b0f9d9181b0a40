/** Resolution succeeds for exactly the texts whose names are right, and otherwise names the first
    thing that is wrong. */
module Resolvability {
  import opened Basics
  import opened Lang
  import opened Named
  import opened Resolve
  import opened Closures
  import opened Naming

  // What the open scopes have in sight.
  function SightOf(scopes: seq<LexScope>): Sight {
    if scopes == [] then NOTHING_SEEN
    else TopSight(SightOf(scopes[..|scopes| - 1]), scopes[|scopes| - 1])
  }

  function TopSight(s: Sight, top: LexScope): Sight {
    var t := s.With(NamesOf(top.names));
    Sight(t.seen, t.unfinished + Unfinished(top))
  }

  function Unfinished(s: LexScope): set<Name> {
    set name | name in s.names && BeingDefined(s, name)
  }

  lemma NothingUnfinished(s: LexScope)
    requires !s.defining
    ensures Unfinished(s) == {}
  {
  }

  lemma {:induction false} FindSees(scopes: seq<LexScope>, name: Name)
    ensures var i := Find(scopes, name);
      && (i.Some? <==> name in SightOf(scopes).seen)
      && (name in SightOf(scopes).unfinished <==> i.Some? && BeingDefined(scopes[i.value], name))
  {
    if scopes != [] { FindSees(scopes[..|scopes| - 1], name); }
  }

  lemma {:induction false} SightGrows(a: seq<LexScope>, b: seq<LexScope>)
    requires Grows(a, b)
    ensures SightOf(a) == SightOf(b)
  {
    if a != [] {
      GrowsPrefix(a, b, |a| - 1);
      SightGrows(a[..|a| - 1], b[..|b| - 1]);
      assert ScopeGrows(a[|a| - 1], b[|b| - 1]);
    }
  }

  // The outcome that a list of faults stands for.
  predicate Follows<T>(r: Resolution<T>, faults: seq<Problem>) {
    if faults == [] then r.Resolved? else r == Rejected(faults[0])
  }

  lemma IsIndexed(w: World, name: Name)
    ensures w.Index(name).Some? <==> IsGlobal(w, name)
  {
  }

  lemma NameFollows(w: World, name: Name, scopes: seq<LexScope>)
    ensures Follows(ResolveName(w, name, scopes), NameFaults(w, name, SightOf(scopes)))
  {
    hide Find, SightOf;
    FindSees(scopes, name);
    IsIndexed(w, name);
  }

  lemma {:induction false} SignatureFollows(w: World, params: seq<NParam>, ret: Name, names: seq<Name>,
                                            scopes: seq<LexScope>)
    ensures Follows(ResolveSignature(w, params, ret, names, scopes),
                    SignatureFaults(w, params, ret, NamesOf(names), SightOf(scopes)))
    decreases |params|
  {
    hide Find, SightOf, ResolveType, TypeFaults;
    if params == [] {
      TypeFollows(w, ret, names, scopes);
    } else {
      var names' := names + [params[0].name];
      assert NamesOf(names') == NamesOf(names) + {params[0].name};
      TypeFollows(w, params[0].ty, names', scopes);
      SignatureFollows(w, params[1..], ret, names', scopes);
    }
  }

  lemma TypeFollows(w: World, name: Name, names: seq<Name>, scopes: seq<LexScope>)
    ensures Follows(ResolveType(w, name, names, scopes), TypeFaults(w, name, SightOf(scopes).With(NamesOf(names))))
  {
    hide Find, SightOf;
    FindSees(scopes, name);
    IsIndexed(w, name);
  }

  // ---------- Scopes that open and close ----------

  lemma EnterSight(scopes: seq<LexScope>, params: seq<Name>)
    ensures SightOf(Enter(scopes, params)) == SightOf(scopes).With(NamesOf(params))
  {
    assert Enter(scopes, params)[..|scopes|] == scopes;
  }

  lemma BlockSight(scopes: seq<LexScope>)
    ensures SightOf(scopes + [LexScope([], false, None)]) == SightOf(scopes)
  {
    assert (scopes + [LexScope([], false, None)])[..|scopes|] == scopes;
    assert SightOf(scopes).With({}) == SightOf(scopes);
  }

  /** Between the statements of a block: `names` are those of its scope. */
  ghost predicate InBlock(scopes: seq<LexScope>, names: set<Name>) {
    scopes != [] && !scopes[|scopes| - 1].defining && NamesOf(scopes[|scopes| - 1].names) == names
  }

  // In a definition, which is the last of its scope.
  ghost predicate InDefinition(scopes: seq<LexScope>, names: set<Name>) {
    scopes != [] && scopes[|scopes| - 1].defining && NamesOf(scopes[|scopes| - 1].names) == names
  }

  lemma {:induction false} LastIndex(names: seq<Name>, name: Name)
    requires name !in names
    ensures IndexOf(names + [name], name) == |names|
    ensures forall other | other in names :: IndexOf(names + [name], other) < |names|
  {
    if names != [] {
      assert (names + [name])[1..] == names[1..] + [name];
      LastIndex(names[1..], name);
    }
  }

  lemma BeginSight(scopes: seq<LexScope>, name: Name, names: set<Name>)
    requires InBlock(scopes, names)
    ensures Begin(scopes, name).None? <==> name in names
    ensures Begin(scopes, name).Some? ==>
      InDefinition(Begin(scopes, name).value, names + {name})
      && SightOf(Begin(scopes, name).value) == SightOf(scopes).Defining(name)
  {
    hide IndexOf;
    if name !in names {
      var top := scopes[|scopes| - 1];
      var a := Begin(scopes, name).value;
      LastIndex(top.names, name);
      assert a[..|a| - 1] == scopes[..|scopes| - 1];
      var s := SightOf(scopes[..|scopes| - 1]);
      var top' := a[|a| - 1];
      assert NamesOf(top'.names) == names + {name};
      assert Unfinished(top') == {name};
      NothingUnfinished(top);
      assert SightOf(scopes) == s.With(names);
      assert SightOf(a).seen == SightOf(scopes).Defining(name).seen;
      assert SightOf(a).unfinished == SightOf(scopes).Defining(name).unfinished;
    }
  }

  lemma CompleteSight(scopes: seq<LexScope>, name: Name, names: set<Name>, s: Sight)
    requires InDefinition(scopes, names) && name in names && SightOf(scopes) == s.Defining(name)
    requires s.unfinished !! (names - {name})
    ensures InBlock(Complete(scopes), names) && SightOf(Complete(scopes)) == s.With({name})
  {
    var a := Complete(scopes);
    var top := scopes[|scopes| - 1];
    assert a[..|a| - 1] == scopes[..|scopes| - 1];
    var below := SightOf(scopes[..|scopes| - 1]);
    NothingUnfinished(a[|a| - 1]);
    assert SightOf(a) == below.With(names);
    assert SightOf(a).seen == s.With({name}).seen;
    assert SightOf(a).unfinished == below.unfinished - names;
  }

  lemma SteadySight(a: seq<LexScope>, b: seq<LexScope>)
    requires Steady(a, b)
    ensures SightOf(a) == SightOf(b)
    ensures forall names :: InBlock(a, names) ==> InBlock(b, names)
    ensures forall names :: InDefinition(a, names) ==> InDefinition(b, names)
  {
    hide SightOf;
    SightGrows(a, b);
    if a != [] { assert ScopeGrows(a[|a| - 1], b[|b| - 1]); }
  }

  // ---------- Expressions ----------

  /** What resolution says about an expression is what is wrong with its names: nothing, if it is
      resolved, and the first fault in the text, if it is rejected. */
  lemma {:induction false} ExprFollows(w: World, e: NExpr, scopes: seq<LexScope>)
    ensures Follows(ResolveExpr(w, e, scopes), Faults(w, e, SightOf(scopes)))
    decreases e, 1
  {
    hide SightOf, ResolveName, NameFaults, ResolveSignature, SignatureFaults, ResolveBody, ResolveItems, ItemsFaults,
         ResolveStep, StepFaults, ResolveArgs, ArgsFaults, ResolvePair;
    match e
    case NLit(_) =>
    case NName(name) => NameFollows(w, name, scopes);
    case NUnary(_, e1) => ExprFollows(w, e1, scopes);
    case NBinary(_, l, r) => PairFollows(w, e, l, r, scopes);
    case NIfElse(c, t, f) =>
      PairFollows(w, e, c, t, scopes);
      PairSteady(w, e, c, t, scopes);
      var q := ResolvePair(w, e, c, t, scopes);
      if q.Resolved? { ThenFollows(w, f, scopes, q.scopes); }
    case NIfOnly(c, t) => PairFollows(w, e, c, t, scopes);
    case NFor(_, _, _) => LoopFollows(w, e, scopes);
    case NBlock(items) => BlockFollows(w, items, scopes);
    case NSet(l, r) => PairFollows(w, e, l, r, scopes);
    case NOpSet(_, l, r) => PairFollows(w, e, l, r, scopes);
    case NFunc(params, ret, body) =>
      SignatureFollows(w, params, ret, [], scopes);
      assert NamesOf([]) == {};
      BodyFollows(w, NParamNames(params), body, scopes);
    case NCall(f, args) =>
      ExprFollows(w, f, scopes);
      ExprSteady(w, f, scopes);
      var r := ResolveExpr(w, f, scopes);
      if r.Resolved? { ArgsFollow(w, args, scopes, r.scopes); }
  }

  // The same behind what has been resolved before.
  lemma {:induction false} ThenFollows(w: World, e: NExpr, a: seq<LexScope>, b: seq<LexScope>)
    requires Steady(a, b)
    ensures Follows(ResolveExpr(w, e, b), Faults(w, e, SightOf(a)))
    decreases e, 2
  {
    hide SightOf, ResolveExpr, Faults, Steady;
    SteadySight(a, b);
    ExprFollows(w, e, b);
  }

  lemma {:induction false} PairFollows(w: World, e: NExpr, l: NExpr, r: NExpr, scopes: seq<LexScope>)
    requires l < e && r < e
    ensures Follows(ResolvePair(w, e, l, r, scopes), Faults(w, l, SightOf(scopes)) + Faults(w, r, SightOf(scopes)))
    decreases e, 0
  {
    hide SightOf, ResolveExpr, Faults, Steady;
    ExprFollows(w, l, scopes);
    ExprSteady(w, l, scopes);
    var q := ResolveExpr(w, l, scopes);
    if q.Resolved? { ThenFollows(w, r, scopes, q.scopes); }
  }

  lemma {:induction false} StepFollows(w: World, step: NStep, a: seq<LexScope>, b: seq<LexScope>)
    requires Steady(a, b)
    ensures Follows(ResolveStep(w, step, b), StepFaults(w, step, SightOf(a)))
    decreases step, 0
  {
    hide SightOf, ResolveExpr, Faults, Steady;
    if step.NAdvance? { ThenFollows(w, step.e, a, b); }
  }

  lemma {:induction false} LoopFollows(w: World, e: NExpr, scopes: seq<LexScope>)
    requires e.NFor?
    ensures Follows(ResolveExpr(w, e, scopes), Faults(w, e, SightOf(scopes)))
    decreases e, 0
  {
    hide SightOf, ResolveStep, StepFaults, Steady;
    ExprFollows(w, e.cond, scopes);
    ExprSteady(w, e.cond, scopes);
    var r := ResolveExpr(w, e.cond, scopes);
    if r.Resolved? {
      StepFollows(w, e.step, scopes, r.scopes);
      StepSteady(w, e.step, scopes, r.scopes);
      var r2 := ResolveStep(w, e.step, r.scopes);
      if r2.Resolved? { ThenFollows(w, e.body, scopes, r2.scopes); }
    }
  }

  lemma {:induction false} ArgsFollow(w: World, args: NArgs, a: seq<LexScope>, b: seq<LexScope>)
    requires Steady(a, b)
    ensures Follows(ResolveArgs(w, args, b), ArgsFaults(w, args, SightOf(a)))
    decreases args, 0
  {
    hide SightOf, ResolveExpr, Faults, Steady;
    match args
    case NNoArgs =>
    case NArg(e, rest) =>
      ThenFollows(w, e, a, b);
      ThenSteady(w, e, a, b);
      var r := ResolveExpr(w, e, b);
      if r.Resolved? { ArgsFollow(w, rest, a, r.scopes); }
  }

  lemma {:induction false} BodyFollows(w: World, params: seq<Name>, body: NExpr, scopes: seq<LexScope>)
    ensures Follows(ResolveBody(w, params, body, scopes), Faults(w, body, SightOf(scopes).With(NamesOf(params))))
    decreases body, 2
  {
    hide SightOf, ResolveExpr, Faults, Steady, Enter;
    EnterSight(scopes, params);
    ExprFollows(w, body, Enter(scopes, params));
    BodySteady(w, params, body, scopes);
  }

  lemma {:induction false} BlockFollows(w: World, items: NItems, scopes: seq<LexScope>)
    ensures Follows(ResolveExpr(w, NBlock(items), scopes), ItemsFaults(w, items, {}, SightOf(scopes)))
    decreases items, 1
  {
    hide SightOf, ResolveItems, ItemsFaults, Steady;
    var inner := scopes + [LexScope([], false, None)];
    BlockSight(scopes);
    assert NamesOf([]) == {};
    ItemsFollow(w, items, {}, inner);
    BlockSteady(w, items, scopes);
  }

  lemma {:induction false} ItemsFollow(w: World, items: NItems, names: set<Name>, scopes: seq<LexScope>)
    requires InBlock(scopes, names)
    ensures Follows(ResolveItems(w, items, scopes), ItemsFaults(w, items, names, SightOf(scopes)))
    decreases items, 0
  {
    hide SightOf, ResolveExpr, Faults, Begin, Complete, InBlock, Steady;
    match items
    case NEnd =>
    case NDo(e, rest) =>
      ExprFollows(w, e, scopes);
      ExprSteady(w, e, scopes);
      var r := ResolveExpr(w, e, scopes);
      if r.Resolved? {
        SteadySight(scopes, r.scopes);
        ItemsFollow(w, rest, names, r.scopes);
      }
    case NLet(name, _, value, rest) =>
      BeginSight(scopes, name, names);
      if Begin(scopes, name).Some? {
        var a := Begin(scopes, name).value;
        ExprFollows(w, value, a);
        ExprSteady(w, value, a);
        var r := ResolveExpr(w, value, a);
        if r.Resolved? {
          SteadySight(a, r.scopes);
          Finished(scopes, r.scopes, name, names);
          ItemsFollow(w, rest, names + {name}, Complete(r.scopes));
        }
      }
    case NTypedLet(name, _, ty, value, rest) =>
      BeginSight(scopes, name, names);
      if Begin(scopes, name).Some? {
        var a := Begin(scopes, name).value;
        ExprFollows(w, ty, a);
        ExprSteady(w, ty, a);
        var r1 := ResolveExpr(w, ty, a);
        if r1.Resolved? {
          ThenFollows(w, value, a, r1.scopes);
          ThenSteady(w, value, a, r1.scopes);
          var r := ResolveExpr(w, value, r1.scopes);
          if r.Resolved? {
            SteadySight(a, r.scopes);
            Finished(scopes, r.scopes, name, names);
            ItemsFollow(w, rest, names + {name}, Complete(r.scopes));
          }
        }
      }
  }

  // The definition that was begun in `a` is complete.
  lemma Finished(a: seq<LexScope>, b: seq<LexScope>, name: Name, names: set<Name>)
    requires InBlock(a, names) && InDefinition(b, names + {name}) && SightOf(b) == SightOf(a).Defining(name)
    ensures InBlock(Complete(b), names + {name}) && SightOf(Complete(b)) == SightOf(a).With({name})
  {
    hide Complete;
    var top := a[|a| - 1];
    NothingUnfinished(top);
    assert SightOf(a).unfinished !! names;
    CompleteSight(b, name, names + {name}, SightOf(a));
  }

  /** A whole text is resolved if and only if every name it uses is in sight or global, none is used
      in its own definition, no scope has one twice, and the types of signatures are global. */
  lemma ResolvedExactly(w: World, e: NExpr)
    ensures ResolveExpr(w, e, []).Resolved? <==> WellNamed(w, e)
    ensures !WellNamed(w, e) ==> ResolveExpr(w, e, []) == Rejected(Faults(w, e, NOTHING_SEEN)[0])
  {
    hide ResolveExpr, Faults;
    ExprFollows(w, e, []);
  }
}
