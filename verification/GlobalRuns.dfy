/** Whole runs over the globals of a file. */
module GlobalRuns {
  import opened Basics
  import opened Globals
  import opened Demand
  import opened GlobalMeaning

  /** Before anything is loaded. */
  function Fresh(p: Program): Memory {
    Memory(seq(|p.definitions|, _ => Untouched), [])
  }

  lemma FreshSettled(p: Program)
    requires Valid(p)
    ensures Settled(p, Fresh(p))
  {
  }

  // ---------- A program over the globals ----------

  /** A program evaluates expressions, onto the value stack or through write contexts. */
  datatype Item = Show(e: Expr) | Store(id: nat, e: Expr)

  function ItemCode(i: Item): seq<Instr> {
    match i
    case Show(e) => Code(e, false)
    case Store(id, e) => [OpenContext(id)] + Code(e, true)
  }

  function HostCode(items: seq<Item>): (code: seq<Instr>)
    ensures |code| > 0
  {
    if items == [] then [EndCode] else ItemCode(items[0]) + HostCode(items[1..])
  }

  function Start(p: Program, items: seq<Item>): State {
    State(HostCode(items), Fresh(p), [], [], [], [], [], [])
  }

  function Shown(items: seq<Item>, vs: seq<int>): seq<int>
    requires |items| == |vs|
  {
    if items == [] then []
    else (if items[0].Show? then [vs[0]] else []) + Shown(items[1..], vs[1..])
  }

  function Written(items: seq<Item>, vs: seq<int>): seq<(nat, int)>
    requires |items| == |vs|
  {
    if items == [] then []
    else (if items[0].Store? then [(items[0].id, vs[0])] else []) + Written(items[1..], vs[1..])
  }

  ghost predicate AllInRange(p: Program, items: seq<Item>) {
    forall i | 0 <= i < |items| :: InRange(items[i].e, |p.definitions|)
  }

  ghost predicate AllDefined(p: Program, items: seq<Item>) {
    forall i | 0 <= i < |items| :: Defined(p, items[i].e)
  }

  ghost predicate AllMean(p: Program, items: seq<Item>, vs: seq<int>) {
    |vs| == |items| && forall i | 0 <= i < |items| :: Means(p, items[i].e, vs[i])
  }

  // What a finished run shows and stores, everything else being as at its start.
  ghost predicate Finishes(p: Program, s: State, items: seq<Item>, vs: seq<int>, r: StepResult) {
    && AllMean(p, items, vs) && r.Halt?
    && r.final.values == s.values + Shown(items, vs) && r.final.written == s.written + Written(items, vs)
    && r.final.contexts == s.contexts && r.final.activations == [] && r.final.inits == s.inits
    && Settled(p, r.final.memory)
  }

  lemma {:induction false} RunHost(p: Program, s: State, items: seq<Item>) returns (vs: seq<int>)
    requires Settled(p, s.memory) && AllInRange(p, items) && s.code == HostCode(items) && s.activations == []
    ensures AllDefined(p, items) ==> Finishes(p, s, items, vs, Exec(p, s))
    ensures !AllDefined(p, items) ==> Exec(p, s) == Circular
    decreases |items|
  {
    hide Exec, Step, DemandExpr, Settled, Means, Code;
    vs := [];
    if items == [] {
      HostEnd(p, s);
      assert s.values + Shown([], []) == s.values && s.written + Written([], []) == s.written;
    } else {
      var e, rest := items[0].e, HostCode(items[1..]);
      var r := RunItem(p, s, items[0], rest);
      if Defined(p, e) {
        vs := RunHost(p, ItemDone(s, items[0], r, rest), items[1..]);
        vs := [r.value] + vs;
        if AllDefined(p, items[1..]) { JoinFinishes(p, s, items, vs, r, rest); }
        assert AllDefined(p, items) <==> AllDefined(p, items[1..]) by { DefinedParts(p, items); }
      } else {
        assert !AllDefined(p, items);
      }
    }
  }

  lemma DefinedParts(p: Program, items: seq<Item>)
    requires items != []
    ensures AllDefined(p, items) <==> Defined(p, items[0].e) && AllDefined(p, items[1..])
  {
    hide Defined;
    assert AllDefined(p, items) ==> Defined(p, items[0].e);
    if AllDefined(p, items) {
      forall i | 0 <= i < |items| - 1
        ensures Defined(p, items[1..][i].e)
      {
        assert items[1..][i] == items[i + 1];
      }
    } else if Defined(p, items[0].e) {
      var i :| 0 <= i < |items| && !Defined(p, items[i].e);
      assert items[1..][i - 1] == items[i];
    }
  }

  lemma HostEnd(p: Program, s: State)
    requires s.code == [EndCode] && s.activations == []
    ensures Exec(p, s) == Halt(s)
  {
  }

  // Behind an item.
  function ItemDone(s: State, i: Item, r: Demanded, rest: seq<Instr>): State
    requires r.Ok?
  {
    var s1 := Landed(s, r, rest);
    match i
    case Show(_) => s1.(values := s.values + [r.value])
    case Store(id, _) => s1.(written := s.written + [(id, r.value)])
  }

  lemma RunItem(p: Program, s: State, i: Item, rest: seq<Instr>) returns (r: Demanded)
    requires Settled(p, s.memory) && InRange(i.e, |p.definitions|) && s.code == ItemCode(i) + rest
    ensures !Defined(p, i.e) ==> Exec(p, s) == Circular
    ensures Defined(p, i.e) ==>
      r.Ok? && Means(p, i.e, r.value) && Settled(p, r.memory) && Exec(p, s) == Exec(p, ItemDone(s, i, r, rest))
  {
    hide Exec, DemandExpr, Means, Known, Code, Unbegun;
    r := DemandExpr(p, s.memory, i.e, i.Store?);
    DemandIsMeaning(p, s.memory, i.e, i.Store?);
    match i
    case Show(e) =>
      RunExpr(p, s, e, false, rest);
    case Store(id, e) =>
      var s1 := s.(code := Code(e, true) + rest, contexts := s.contexts + [Out(id)]);
      assert s.code[1..] == s1.code;
      ExecStep(p, s, s1);
      RunExpr(p, s1, e, true, rest);
      assert Front(s1.contexts) == s.contexts;
  }

  lemma JoinFinishes(p: Program, s: State, items: seq<Item>, vs: seq<int>, r: Demanded, rest: seq<Instr>)
    requires items != [] && vs != [] && r.Ok? && r.value == vs[0] && Means(p, items[0].e, r.value)
    requires Exec(p, s) == Exec(p, ItemDone(s, items[0], r, rest))
    requires Finishes(p, ItemDone(s, items[0], r, rest), items[1..], vs[1..], Exec(p, s))
    ensures Finishes(p, s, items, vs, Exec(p, s))
  {
    hide Exec, Means, Settled;
    var final := Exec(p, s).final;
    forall i | 0 <= i < |items|
      ensures Means(p, items[i].e, vs[i])
    {
      if i > 0 { assert Means(p, items[1..][i - 1].e, vs[1..][i - 1]); }
    }
    assert final.values == s.values + Shown(items, vs);
    assert final.written == s.written + Written(items, vs);
  }

  /** A program halts exactly if all its expressions have a meaning, whatever they share and in
      whatever order they need the globals; it then has their values. Otherwise it ends with the
      error for circular initializations. */
  lemma ProgramMeans(p: Program, items: seq<Item>) returns (vs: seq<int>)
    requires Valid(p) && AllInRange(p, items)
    ensures AllDefined(p, items) ==>
      && Exec(p, Start(p, items)).Halt? && AllMean(p, items, vs)
      && Exec(p, Start(p, items)).final.values == Shown(items, vs)
      && Exec(p, Start(p, items)).final.written == Written(items, vs)
    ensures !AllDefined(p, items) ==> Exec(p, Start(p, items)) == Circular
  {
    hide Exec, Settled, HostCode, Shown, Written, AllDefined;
    FreshSettled(p);
    vs := RunHost(p, Start(p, items), items);
    if AllDefined(p, items) {
      assert [] + Shown(items, vs) == Shown(items, vs) && [] + Written(items, vs) == Written(items, vs);
    }
  }

  // ---------- Every reachable state ----------

  function RunN(p: Program, s: State, n: nat): StepResult
    decreases n
  {
    if n == 0 then Next(s)
    else
      match Step(p, s)
      case Next(s') => RunN(p, s', n - 1)
      case r => r
  }

  ghost predicate NoRepeats(gs: seq<nat>) {
    forall i, j | 0 <= i < j < |gs| :: gs[i] != gs[j]
  }

  function RunningGlobals(inits: seq<Initialization>): seq<nat> {
    seq(|inits|, i requires 0 <= i < |inits| => inits[i].g)
  }

  /** The globals begun are those that have a status, each of them once; those pending are the
      running initializations, each of them once. */
  ghost predicate BegunOnce(s: State) {
    var m := s.memory;
    && NoRepeats(m.started) && (forall g: nat :: g in m.started <==> g < |m.status| && !m.status[g].Untouched?)
    && NoRepeats(RunningGlobals(s.inits))
    && (forall g: nat :: g in RunningGlobals(s.inits) <==> g < |m.status| && m.status[g].Pending?)
  }

  lemma RunningFront(inits: seq<Initialization>)
    requires inits != []
    ensures RunningGlobals(inits) == RunningGlobals(Front(inits)) + [Top(inits).g]
  {
  }

  lemma RunningMore(inits: seq<Initialization>, i: Initialization)
    ensures RunningGlobals(inits + [i]) == RunningGlobals(inits) + [i.g]
  {
  }

  lemma PutKeeps(s: State, v: int, into: bool, computed: bool)
    requires BegunOnce(s) && Put(s, v, into, computed).Next?
    ensures BegunOnce(Put(s, v, into, computed).next)
    ensures Put(s, v, into, computed).next.memory.started == s.memory.started
  {
    hide RunningGlobals, NoRepeats;
    assert into && Top(s.contexts).Cell? ==> Top(s.contexts).g in RunningGlobals(s.inits);
  }

  lemma PrepareKeeps(s: State, g: nat)
    requires BegunOnce(s) && StepPrepare(s, g).Next?
    ensures BegunOnce(StepPrepare(s, g).next) && s.memory.started <= StepPrepare(s, g).next.memory.started
  {
    hide RunningGlobals;
    RunningMore(s.inits, Initialization(g, |s.temps|));
    assert g !in s.memory.started && g !in RunningGlobals(s.inits);
  }

  // The initialization on top ends with the value `v`.
  lemma EndKeeps(s: State, s': State, v: int)
    requires BegunOnce(s) && Initializing(s) && s'.inits == Front(s.inits)
    requires s'.memory == Completed(s.memory, Top(s.inits).g, v)
    ensures BegunOnce(s')
  {
    hide RunningGlobals, NoRepeats;
    RunningFront(s.inits);
    var g := Top(s.inits).g;
    LastApart(RunningGlobals(s'.inits), g);
    assert g in RunningGlobals(s.inits) && s.memory.status[g].Pending?;
  }

  lemma LastApart(gs: seq<nat>, g: nat)
    requires NoRepeats(gs + [g])
    ensures NoRepeats(gs) && g !in gs && g in gs + [g] && forall h: nat :: h in gs <==> h in gs + [g] && h != g
  {
    var all := gs + [g];
    assert all[|gs|] == g;
    forall i | 0 <= i < |gs|
      ensures gs[i] != g
    {
      assert all[i] == gs[i];
    }
    forall i, j | 0 <= i < j < |gs|
      ensures gs[i] != gs[j]
    {
      assert all[i] == gs[i] && all[j] == gs[j];
    }
  }

  lemma StepKeeps(p: Program, s: State)
    requires BegunOnce(s) && Step(p, s).Next?
    ensures BegunOnce(Step(p, s).next) && s.memory.started <= Step(p, s).next.memory.started
  {
    hide RunningGlobals, NoRepeats, Put;
    match s.code[0]
    case Prepare(g) => PrepareKeeps(s, g);
    case Load(g, into) =>
      if s.memory.status[g].Complete? { PutKeeps(Advance(s), s.memory.status[g].value, into, false); }
    case Value(n, into) => PutKeeps(Advance(s), n, into, true);
    case Apply(op, into) =>
      var base := |s.values| - 2;
      var s1 := Advance(s.(values := s.values[..base]));
      PutKeeps(s1, p.apply(op, s.values[base], s.values[base + 1]), into, true);
    case AllocUntyped => EndKeeps(s, Step(p, s).next, Top(s.values));
    case AllocComplete => EndKeeps(s, Step(p, s).next, s.memory.status[Top(s.inits).g].cell);
    case _ =>
  }

  // Where a run stops with the error: an initializer is entered that is still running.
  ghost predicate StopsCircular(p: Program, s: State, n: nat) {
    RunN(p, s, n).Next? && BegunOnce(RunN(p, s, n).next) && ReentersRunning(RunN(p, s, n).next)
  }

  ghost predicate ReentersRunning(s: State) {
    s.code != [] && s.code[0].Prepare? && s.code[0].g in RunningGlobals(s.inits)
  }

  lemma CircularHere(p: Program, s: State)
    requires BegunOnce(s) && Step(p, s) == Circular
    ensures ReentersRunning(s)
  {
    hide RunningGlobals, NoRepeats;
  }

  /** In every state that any code reaches, each initializer has been begun at most once; a run
      stops with the error for circular initializations only at an initializer that is running. */
  lemma {:induction false} ReachedOnce(p: Program, s: State, n: nat)
    requires BegunOnce(s)
    ensures var r := RunN(p, s, n);
      && (r.Next? ==> BegunOnce(r.next) && s.memory.started <= r.next.memory.started)
      && (r.Halt? ==> BegunOnce(r.final) && s.memory.started <= r.final.memory.started)
      && (r.Circular? ==> exists k :: 0 <= k < n && StopsCircular(p, s, k))
    decreases n
  {
    hide Step, BegunOnce, ReentersRunning;
    if n > 0 {
      var r := Step(p, s);
      if r.Next? {
        StepKeeps(p, s);
        ReachedOnce(p, r.next, n - 1);
        if RunN(p, s, n).Circular? {
          var k :| 0 <= k < n - 1 && StopsCircular(p, r.next, k);
          assert RunN(p, s, k + 1) == RunN(p, r.next, k);
          assert StopsCircular(p, s, k + 1);
        }
      } else if r.Halt? {
        HaltsHere(p, s);
      } else if r.Circular? {
        CircularHere(p, s);
        assert StopsCircular(p, s, 0);
      }
    }
  }

  lemma HaltsHere(p: Program, s: State)
    requires Step(p, s).Halt?
    ensures Step(p, s).final == s
  {
  }

  /** So in every run of a program, of any length, each initializer is begun at most once. */
  lemma ProgramOnce(p: Program, items: seq<Item>, n: nat)
    requires RunN(p, Start(p, items), n).Next?
    ensures BegunOnce(RunN(p, Start(p, items), n).next)
  {
    assert BegunOnce(Start(p, items));
    hide Step, BegunOnce;
    ReachedOnce(p, Start(p, items), n);
  }

  // ---------- Temporary data that stays ----------

  /** `let a = 1` leaves its number on the temporary data of whoever loads it first. */
  lemma UntypedLeaves(p: Program, s: State, rest: seq<Instr>)
    requires p.definitions == [Untyped(Number(1))] && s.memory == Fresh(p) && s.code == [Load(0, false)] + rest
    ensures Exec(p, s) == Exec(p, s.(code := rest, memory := Memory([Complete(1)], [0]), values := s.values + [1],
                                     temps := s.temps + [1]))
  {
    hide Exec;
    RunLoad(p, s, 0, false, rest);
    LoadedOne(p, s.memory);
  }

  lemma LoadedOne(p: Program, m: Memory)
    requires p.definitions == [Untyped(Number(1))] && m == Fresh(p)
    ensures DemandGlobal(p, m, 0) == Ok(Memory([Complete(1)], [0]), 1, [1])
  {
    var begun := Begun(m, 0);
    assert begun == Memory([Pending(0)], [0]);
    assert DemandExpr(p, begun, Number(1), false) == Ok(begun, 1, [1]);
    assert DemandDefinition(p, begun, Untyped(Number(1))) == Ok(begun, 1, [1]);
    assert Completed(begun, 0, 1) == Memory([Complete(1)], [0]);
  }
}
