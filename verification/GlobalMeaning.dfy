/** Initialising globals on demand gives every expression its recursive meaning, reports an error
    exactly for the expressions that have none, and runs every initializer at most once. */
module GlobalMeaning {
  import opened Basics
  import opened Globals
  import opened Demand

  // ---------- The values ----------

  /** Every complete global has the value that its definition means. */
  ghost predicate Known(p: Program, m: Memory) {
    forall g | 0 <= g < |m.status| && m.status[g].Complete? :: Means(p, Global(g), m.status[g].value)
  }

  lemma {:induction false} ExprSound(p: Program, m: Memory, e: Expr, into: bool)
    requires Fitting(p, m) && InRange(e, |p.definitions|) && Known(p, m) && DemandExpr(p, m, e, into).Ok?
    ensures var r := DemandExpr(p, m, e, into); Known(p, r.memory) && Means(p, e, r.value)
    decreases Unbegun(m.status), 0, e, 1
  {
    hide Means, Known, Unbegun;
    match e
    case Number(n) => NumberMeans(p, n);
    case Global(g) => GlobalSound(p, m, g);
    case Binary(_, l, r) =>
      ExprSound(p, m, l, false);
      var r1 := DemandExpr(p, m, l, false);
      ExprSound(p, r1.memory, r, false);
      BinaryMeans(p, e, r1.value, DemandExpr(p, r1.memory, r, false).value);
    case IfElse(c, t, f) =>
      ExprSound(p, m, c, false);
      var r1 := DemandExpr(p, m, c, false);
      var branch := if r1.value != 0 then t else f;
      ExprSound(p, r1.memory, branch, into);
      IfElseMeans(p, e, r1.value, DemandExpr(p, r1.memory, branch, into).value);
  }

  lemma NumberMeans(p: Program, n: int)
    ensures Means(p, Number(n), n)
  {
    assert Naive(p, Number(n), 0) == Some(n);
  }

  lemma {:induction false} GlobalSound(p: Program, m: Memory, g: nat)
    requires Fitting(p, m) && g < |p.definitions| && Known(p, m) && DemandGlobal(p, m, g).Ok?
    ensures var r := DemandGlobal(p, m, g); Known(p, r.memory) && Means(p, Global(g), r.value)
    decreases Unbegun(m.status), 0, Global(g), 0
  {
    hide Means, DemandDefinition;
    if m.status[g].Untouched? {
      UnbegunUpdate(m.status, g, Pending(0));
      var begun := Begun(m, g);
      DefinitionSound(p, begun, g);
    }
  }

  lemma {:induction false} DefinitionSound(p: Program, m: Memory, g: nat)
    requires Fitting(p, m) && g < |p.definitions| && Known(p, m) && DemandDefinition(p, m, p.definitions[g]).Ok?
    ensures var r := DemandDefinition(p, m, p.definitions[g]); Known(p, r.memory) && Means(p, Global(g), r.value)
    decreases Unbegun(m.status), 1
  {
    hide Means, DemandExpr, Known, Unbegun;
    var d := p.definitions[g];
    var m1 := m;
    if d.Typed? {
      ExprSound(p, m, d.ty, false);
      var r := DemandExpr(p, m, d.ty, false);
      assert Defined(p, d.ty) by { assert Means(p, d.ty, r.value); }
      m1 := r.memory;
    }
    ExprSound(p, m1, d.value, d.Typed?);
    GlobalMeans(p, g, DemandExpr(p, m1, d.value, d.Typed?).value);
  }

  // ---------- Circular definitions ----------

  // A demand that runs into a global that is being initialised has a meaning only if that global
  // has one with no more nesting.
  lemma {:induction false} CycleNeeds(p: Program, m: Memory, e: Expr, into: bool, fuel: nat) returns (h: nat, k: nat)
    requires Fitting(p, m) && InRange(e, |p.definitions|) && Known(p, m)
    requires DemandExpr(p, m, e, into).Cycle? && Naive(p, e, fuel).Some?
    ensures h < |m.status| && m.status[h].Pending? && k <= fuel && Naive(p, Global(h), k).Some?
    decreases fuel, 1, e
  {
    hide Known, Means, Unbegun, DemandDefinition;
    h, k := 0, 0;
    match e
    case Global(g) =>
      if m.status[g].Pending? {
        h, k := g, fuel;
      } else {
        BegunKnown(p, m, g);
        h, k := DefinitionNeeds(p, Begun(m, g), g, fuel);
        if h == g { h, k := CycleNeeds(p, m, e, into, k); }
      }
    case Binary(_, l, r) =>
      var r1 := DemandExpr(p, m, l, false);
      if r1.Cycle? {
        h, k := CycleNeeds(p, m, l, false, fuel);
      } else {
        ExprSound(p, m, l, false);
        h, k := CycleNeeds(p, r1.memory, r, false, fuel);
      }
    case IfElse(c, t, f) =>
      var r1 := DemandExpr(p, m, c, false);
      if r1.Cycle? {
        h, k := CycleNeeds(p, m, c, false, fuel);
      } else {
        ExprSound(p, m, c, false);
        OneMeaning(p, c, r1.value, fuel);
        h, k := CycleNeeds(p, r1.memory, if r1.value != 0 then t else f, into, fuel);
      }
  }

  lemma BegunKnown(p: Program, m: Memory, g: nat)
    requires Known(p, m) && g < |m.status|
    ensures Known(p, Begun(m, g))
  {
    hide Means;
  }

  lemma {:induction false} DefinitionNeeds(p: Program, m: Memory, g: nat, fuel: nat) returns (h: nat, k: nat)
    requires Fitting(p, m) && g < |p.definitions| && Known(p, m)
    requires DemandDefinition(p, m, p.definitions[g]).Cycle? && Naive(p, Global(g), fuel).Some?
    ensures h < |m.status| && m.status[h].Pending? && k < fuel && Naive(p, Global(h), k).Some?
    decreases fuel, 0
  {
    hide Known, Means, DemandExpr, Unbegun;
    var d := p.definitions[g];
    var m1 := m;
    if d.Typed? {
      var r := DemandExpr(p, m, d.ty, false);
      if r.Cycle? {
        h, k := CycleNeeds(p, m, d.ty, false, fuel - 1);
        return;
      }
      ExprSound(p, m, d.ty, false);
      m1 := r.memory;
    }
    h, k := CycleNeeds(p, m1, d.value, d.Typed?, fuel - 1);
  }

  /** Between two demands nothing is being initialised, and the complete globals are right. */
  ghost predicate Settled(p: Program, m: Memory) {
    Fitting(p, m) && (forall g | 0 <= g < |m.status| :: !m.status[g].Pending?) && Known(p, m)
  }

  /** Demand on a settled memory succeeds exactly for what has a meaning, and gives it. */
  lemma DemandIsMeaning(p: Program, m: Memory, e: Expr, into: bool)
    requires Settled(p, m) && InRange(e, |p.definitions|)
    ensures var r := DemandExpr(p, m, e, into);
      (r.Ok? <==> Defined(p, e)) && (r.Ok? ==> Settled(p, r.memory) && Means(p, e, r.value))
  {
    hide Means, DemandExpr, Unbegun;
    var r := DemandExpr(p, m, e, into);
    if r.Ok? {
      ExprSound(p, m, e, into);
    } else if Defined(p, e) {
      var v :| Means(p, e, v);
      var fuel := FuelOf(p, e, v);
      var h, k := CycleNeeds(p, m, e, into, fuel);
      assert false;
    }
  }

  lemma FuelOf(p: Program, e: Expr, v: int) returns (fuel: nat)
    requires Means(p, e, v)
    ensures Naive(p, e, fuel) == Some(v)
  {
    fuel :| Naive(p, e, fuel) == Some(v);
  }

  /** Loading a global, from anywhere: what its definition means arrives on the value stack or in
      the write context, and nothing else changes but the globals it needed and the temporary
      data they left; if its definition has no meaning, the run ends in an error. */
  lemma GlobalLoad(p: Program, s: State, g: nat, into: bool, rest: seq<Instr>)
    requires AtExpr(p, s, Global(g), into, rest) && Settled(p, s.memory)
    ensures !Defined(p, Global(g)) ==> Exec(p, s) == Circular
    ensures Defined(p, Global(g)) ==>
      var r := DemandExpr(p, s.memory, Global(g), into);
      && r.Ok? && Settled(p, r.memory) && Means(p, Global(g), r.value) && r.memory.status[g] == Complete(r.value)
      && (into ==> CanStore(Landed(s, r, rest))) && Exec(p, s) == Exec(p, Delivered(s, r, rest, into))
      && (r.left == [] <==> NamesOnly(p, s.memory, Global(g), into))
  {
    hide Exec, Means, Settled, Code, NamesOnly, AtExpr, CanStore, Landed, Delivered;
    Facts(p, s, g, into, rest);
    var r := DemandGlobal(p, s.memory, g);
    DemandIsMeaning(p, s.memory, Global(g), into);
    RunLoad(p, s, g, into, rest);
    if r.Ok? { LeftNothing(p, s.memory, Global(g), into); }
  }

  lemma Facts(p: Program, s: State, g: nat, into: bool, rest: seq<Instr>)
    requires AtExpr(p, s, Global(g), into, rest)
    ensures Fitting(p, s.memory) && InRange(Global(g), |p.definitions|)
  {
  }

  // ---------- Temporary data ----------

  /** Nothing is computed on the way but for definitions with a type: the evaluation meets names,
      and conditionals between names. */
  ghost predicate NamesOnly(p: Program, m: Memory, e: Expr, into: bool)
    requires Fitting(p, m) && InRange(e, |p.definitions|) && DemandExpr(p, m, e, into).Ok?
    decreases Unbegun(m.status), e
  {
    match e
    case Number(_) => into
    case Global(g) =>
      m.status[g].Complete? || p.definitions[g].Typed? || (
        UnbegunUpdate(m.status, g, Pending(0));
        GlobalLeft(p, m, g);
        NamesOnly(p, Begun(m, g), p.definitions[g].value, false))
    case Binary(_, l, r) =>
      into && NamesOnly(p, m, l, false) && NamesOnly(p, DemandExpr(p, m, l, false).memory, r, false)
    case IfElse(c, t, f) =>
      var r := DemandExpr(p, m, c, false);
      NamesOnly(p, m, c, false) && NamesOnly(p, r.memory, if r.value != 0 then t else f, into)
  }

  lemma GlobalLeft(p: Program, m: Memory, g: nat)
    requires Fitting(p, m) && g < |p.definitions| && m.status[g].Untouched? && DemandGlobal(p, m, g).Ok?
    ensures var d := p.definitions[g];
      if d.Typed? then DemandGlobal(p, m, g).left == []
      else DemandExpr(p, Begun(m, g), d.value, false).Ok?
           && DemandGlobal(p, m, g).left == DemandExpr(p, Begun(m, g), d.value, false).left
  {
    UnbegunUpdate(m.status, g, Pending(0));
    assert DemandDefinition(p, Begun(m, g), p.definitions[g]).Ok?;
  }

  lemma {:induction false} LeftNothing(p: Program, m: Memory, e: Expr, into: bool)
    requires Fitting(p, m) && InRange(e, |p.definitions|) && DemandExpr(p, m, e, into).Ok?
    ensures DemandExpr(p, m, e, into).left == [] <==> NamesOnly(p, m, e, into)
    decreases Unbegun(m.status), e
  {
    hide Unbegun;
    match e
    case Number(_) =>
    case Global(g) =>
      if m.status[g].Untouched? {
        UnbegunUpdate(m.status, g, Pending(0));
        GlobalLeft(p, m, g);
        if p.definitions[g].Untyped? { LeftNothing(p, Begun(m, g), p.definitions[g].value, false); }
      }
    case Binary(_, l, r) =>
      LeftNothing(p, m, l, false);
      LeftNothing(p, DemandExpr(p, m, l, false).memory, r, false);
    case IfElse(c, t, f) =>
      var r := DemandExpr(p, m, c, false);
      LeftNothing(p, m, c, false);
      LeftNothing(p, r.memory, if r.value != 0 then t else f, into);
  }
}
