/** Blocks: the scope they open, the definitions in it, and what is left when it closes. */
module Blocks {
  import opened Basics
  import opened Lang
  import opened Machine
  import opened Coding
  import opened Relation
  import opened Steps

  function BlockScopes(m0: M): seq<Scope> {
    m0.scopes + [Scope(|m0.members|, |m0.temps|)]
  }

  function InScope(m0: M, d: Data): M {
    With(m0, d).(scopes := BlockScopes(m0))
  }

  // What remains of the data when the scope closes.
  function Outer(m0: M, d: Data): Data
    requires |m0.members| <= |d.members|
  {
    Data(d.members[..|m0.members|], m0.temps)
  }

  /** Between the statements of a block entered with `env0` and `m0`. */
  ghost predicate InBlock(code: seq<Op>, env0: Env, m0: M, env: Env, d: Data) {
    && |env.scopes| == |env0.scopes| + 1
    && |d.members| == |m0.members| + |env.scopes[|env0.scopes|]|
    && m0.temps <= d.temps
    && Rel(code, env, BlockScopes(m0), m0.closures, d.members)
    && Keeps(code, m0.scopes, m0.closures, env0, DataOf(m0), PopScope(env), Outer(m0, d))
  }

  /** What it means to simulate the statements of a block. */
  ghost predicate BlockSimulated(p: Program, pc: nat, m: M, env0: Env, m0: M, mode: Mode, r: Result<Operand>,
                                 fuel: nat, end: int, s: Sim) {
    if r.Done? then
      && InBlock(p.code, env0, m0, r.env, s.d)
      && if mode.Push? then
           && OperandRel(p.code, BlockScopes(m0), r.env, s.d, |m0.temps|, r.value, s.x)
           && Reaches(p, pc, m, s.n, end, Left(InScope(m0, s.d), true, s.x))
         else
           && r.value.Temp? && r.value.v.TypeOf() == mode.ty && ValueRel(p.code, r.value.v, s.w)
           && Reaches(p, pc, m, s.n, end, Stored(InScope(m0, s.d), s.w))
    else Cut(p, pc, m, r, fuel, s.n)
  }

  // ---------- Environments with one scope more or less ----------

  lemma FirstOuter(env: Env, scopes: seq<Scope>, more: seq<Scope>, s: nat)
    requires |more| == 1 && s < |env.scopes| - 1 && |env.scopes| <= |scopes| + 1
    ensures First(env, scopes + more, s) == First(PopScope(env), scopes, s)
  {
  }

  lemma RelPopped(code: seq<Op>, env: Env, scopes: seq<Scope>, top: Scope, closures: seq<seq<W>>,
                  members: seq<Cell<nat>>)
    requires |env.scopes| > 0 && top.firstMember <= |members|
    requires Rel(code, env, scopes + [top], closures, members)
    ensures Rel(code, PopScope(env), scopes, closures, members[..top.firstMember])
  {
    hide CellRel, ClosureRel;
    var env' := PopScope(env);
    var t := |env.scopes| - 1;
    assert First(env, scopes + [top], t) == top.firstMember;
    forall s | 0 <= s < t
      ensures First(env', scopes, s) == First(env, scopes + [top], s)
      ensures ScopeRel(code, env'.scopes[s], First(env', scopes, s), members[..top.firstMember])
    {
      FirstOuter(env, scopes, [top], s);
      assert First(env, scopes + [top], s) + |env.scopes[s]| <= First(env, scopes + [top], t);
      assert ScopeRel(code, env.scopes[s], First(env, scopes + [top], s), members);
    }
    forall s, u | 0 <= s < u < t
      ensures First(env', scopes, s) + |env'.scopes[s]| <= First(env', scopes, u)
    {
      assert First(env, scopes + [top], s) + |env.scopes[s]| <= First(env, scopes + [top], u);
    }
  }

  lemma RelPushed(code: seq<Op>, env: Env, scopes: seq<Scope>, temps: nat, closures: seq<seq<W>>,
                  members: seq<Cell<nat>>)
    requires Rel(code, env, scopes, closures, members)
    ensures Rel(code, PushScope(env), scopes + [Scope(|members|, temps)], closures, members)
  {
    hide CellRel, ClosureRel;
    var scopes' := scopes + [Scope(|members|, temps)];
    var env' := PushScope(env);
    forall s | 0 <= s < |env'.scopes|
      ensures s < |env.scopes| ==> First(env', scopes', s) == First(env, scopes, s)
      ensures ScopeRel(code, env'.scopes[s], First(env', scopes', s), members)
    {
      if s < |env.scopes| {
        assert ScopeRel(code, env.scopes[s], First(env, scopes, s), members);
      }
    }
  }

  // More members at the end do not matter.
  lemma RelMore(code: seq<Op>, env: Env, scopes: seq<Scope>, closures: seq<seq<W>>, members: seq<Cell<nat>>,
                more: seq<Cell<nat>>)
    requires Rel(code, env, scopes, closures, members)
    ensures Rel(code, env, scopes, closures, members + more)
  {
    hide CellRel, ClosureRel;
    forall s | 0 <= s < |env.scopes|
      ensures ScopeRel(code, env.scopes[s], First(env, scopes, s), members + more)
    {
      assert ScopeRel(code, env.scopes[s], First(env, scopes, s), members);
    }
  }

  // A new variable of the innermost scope.
  lemma RelDeclared(code: seq<Op>, env: Env, scopes: seq<Scope>, closures: seq<seq<W>>, members: seq<Cell<nat>>,
                    c: Cell<Expr>, d: Cell<nat>)
    requires |env.scopes| > 0 && Rel(code, env, scopes, closures, members) && CellRel(code, c, d)
    requires |members| == First(env, scopes, |env.scopes| - 1) + |env.scopes[|env.scopes| - 1]|
    ensures Rel(code, Declare(env, c), scopes, closures, members + [d])
  {
    hide CellRel, ClosureRel;
    var env' := Declare(env, c);
    RelMore(code, env, scopes, closures, members, [d]);
    forall s | 0 <= s < |env'.scopes|
      ensures First(env', scopes, s) == First(env, scopes, s)
      ensures ScopeRel(code, env'.scopes[s], First(env', scopes, s), members + [d])
    {
      assert ScopeRel(code, env.scopes[s], First(env, scopes, s), members + [d]);
    }
    forall s, t | 0 <= s < t < |env'.scopes|
      ensures First(env', scopes, s) + |env'.scopes[s]| <= First(env', scopes, t)
    {
      assert First(env, scopes, s) + |env.scopes[s]| <= First(env, scopes, t);
    }
  }

  // Members appended after the variables can be cut off again.
  lemma KeepsCut(code: seq<Op>, scopes: seq<Scope>, closures: seq<seq<W>>, env: Env, d: Data, more: seq<Cell<nat>>,
                 env': Env, d': Data)
    requires Rel(code, env, scopes, closures, d.members)
    requires Keeps(code, scopes, closures, env, Data(d.members + more, d.temps), env', d')
    ensures Keeps(code, scopes, closures, env, d, env', Data(d'.members[..|d.members|], d'.temps))
  {
    hide CellRel, ClosureRel, Owned;
    var k := |d.members|;
    var members := d'.members[..k];
    forall s | 0 <= s < |env'.scopes|
      ensures ScopeRel(code, env'.scopes[s], First(env', scopes, s), members)
    {
      assert SameCells(env.scopes[s], env'.scopes[s]);
      assert ScopeRel(code, env.scopes[s], First(env, scopes, s), d.members);
      assert ScopeRel(code, env'.scopes[s], First(env', scopes, s), d'.members);
    }
    assert Rel(code, env', scopes, closures, members);
    assert OthersKept(env, scopes, d.members, members) by {
      forall i | 0 <= i < k && !Owned(env, scopes, i)
        ensures members[i] == d.members[i]
      {
        assert (d.members + more)[i] == d.members[i];
      }
    }
    assert SameTypes(d.members, members) by {
      assert forall i | 0 <= i < k :: (d.members + more)[i] == d.members[i];
    }
  }

  // ---------- Through a block ----------

  lemma BlockEntered(code: seq<Op>, env: Env, m: M)
    requires Rel(code, env, m.scopes, m.closures, m.members)
    ensures InBlock(code, env, m, PushScope(env), DataOf(m)) && InScope(m, DataOf(m)) == m.(scopes := BlockScopes(m))
  {
    RelPushed(code, env, m.scopes, |m.temps|, m.closures, m.members);
    hide Rel, Keeps;
    assert PopScope(PushScope(env)) == env;
    assert Outer(m, DataOf(m)) == DataOf(m);
    KeepsRefl(code, m.scopes, m.closures, env, DataOf(m));
  }

  lemma ShapePopped(env: Env, env': Env)
    requires |env.scopes| > 0 && SameShape(env, env')
    ensures SameShape(PopScope(env), PopScope(env'))
  {
    forall s | 0 <= s < |env.scopes| - 1
      ensures SameCells(PopScope(env).scopes[s], PopScope(env').scopes[s])
    {
      assert SameCells(env.scopes[s], env'.scopes[s]);
    }
  }

  lemma OwnedOuter(env: Env, m0: M, i: nat)
    requires 0 < |env.scopes| <= |m0.scopes| + 1 && i < |m0.members|
    requires Owned(env, BlockScopes(m0), i)
    ensures Owned(PopScope(env), m0.scopes, i)
  {
    var top := Scope(|m0.members|, |m0.temps|);
    var s :| 0 <= s < |env.scopes|
      && First(env, BlockScopes(m0), s) <= i < First(env, BlockScopes(m0), s) + |env.scopes[s]|;
    assert s < |env.scopes| - 1;
    FirstOuter(env, m0.scopes, [top], s);
  }

  lemma KeepsOuter(code: seq<Op>, m0: M, env: Env, d: Data, env': Env, d': Data)
    requires |env.scopes| > 0 && |m0.members| <= |d.members|
    requires Keeps(code, BlockScopes(m0), m0.closures, env, d, env', d')
    ensures |m0.members| <= |d'.members|
    ensures Keeps(code, m0.scopes, m0.closures, PopScope(env), Outer(m0, d), PopScope(env'), Outer(m0, d'))
  {
    hide Owned, ScopeRel, ClosureRel;
    var k := |m0.members|;
    RelPopped(code, env', m0.scopes, Scope(|m0.members|, |m0.temps|), m0.closures, d'.members);
    ShapePopped(env, env');
    hide Rel, SameShape;
    forall i | 0 <= i < k && !Owned(PopScope(env), m0.scopes, i)
      ensures d'.members[..k][i] == d.members[..k][i]
    {
      if Owned(env, BlockScopes(m0), i) {
        OwnedOuter(env, m0, i);
      }
    }
    assert SameTypes(d.members[..k], d'.members[..k]);
  }

  lemma BlockKept(code: seq<Op>, env0: Env, m0: M, env: Env, d: Data, env': Env, d': Data)
    requires InBlock(code, env0, m0, env, d)
    requires Keeps(code, BlockScopes(m0), m0.closures, env, d, env', d')
    ensures InBlock(code, env0, m0, env', d') && |d.temps| <= |d'.temps|
  {
    hide Owned, Rel, OthersKept;
    KeepsOuter(code, m0, env, d, env', d');
    assert SameCells(env.scopes[|env0.scopes|], env'.scopes[|env0.scopes|]);
    KeepsTrans(code, m0.scopes, m0.closures, env0, DataOf(m0), PopScope(env), Outer(m0, d), PopScope(env'), Outer(m0,
      d'));
  }

  lemma BlockDeclared(code: seq<Op>, env0: Env, m0: M, env: Env, d: Data, c: Cell<Expr>, c': Cell<nat>)
    requires InBlock(code, env0, m0, env, d) && CellRel(code, c, c')
    ensures |env.scopes| > 0
    ensures InBlock(code, env0, m0, Declare(env, c), Data(d.members + [c'], d.temps))
  {
    hide Owned, OthersKept, Keeps, CellRel, ScopeRel;
    RelDeclared(code, env, BlockScopes(m0), m0.closures, d.members, c, c');
    hide Rel;
    assert PopScope(Declare(env, c)) == PopScope(env);
    assert Outer(m0, Data(d.members + [c'], d.temps)) == Outer(m0, d);
  }

  lemma BlockContext(code: seq<Op>, env0: Env, m0: M, env: Env, d: Data, mode: Mode)
    requires InBlock(code, env0, m0, env, d) && InContext(m0, mode)
    ensures InContext(InScope(m0, d), mode)
  {
    hide Rel, Owned, SameShape, OthersKept;
    if mode.Into? {
      var l := Top(m0.ctxs);
      if l.Member? {
        assert Outer(m0, d).members[l.i] == d.members[l.i];
      } else if l.TempLoc? {
        assert m0.temps[l.i] == d.temps[l.i];
      }
    }
  }

  // ---------- Statements ----------

  lemma LetStep(p: Program, pc: nat, m0: M, isMut: bool, d: Data, x: Loc)
    requires OpAt(p.code, pc, ScopeAllocUntyped(isMut)) && LocOk(With(m0, d), x)
    ensures Step(p.code, p.globals, pc, Left(InScope(m0, d), true, x))
         == Next(pc + 1, InScope(m0, Data(d.members + [At(With(m0, d), x).(isMut := isMut)], d.temps)))
  {
    var m1 := Left(InScope(m0, d), true, x);
    StepPlain(p, pc, m1, ScopeAllocUntyped(isMut));
    SameLocation(m1, With(m0, d), x);
    assert PopValue(m1) == InScope(m0, d);
  }

  // The variable exists, void, before its value is computed; its type is the expected one.
  lemma TypedLetStep(p: Program, pc: nat, m0: M, isMut: bool, d: Data, x: Loc)
    requires OpAt(p.code, pc, ScopeAllocTyped(isMut)) && LocOk(With(m0, d), x)
    requires At(With(m0, d), x).ty == At(With(m0, d), x).val.TypeOf()
    ensures var v := At(With(m0, d), x).val;
      Step(p.code, p.globals, pc, Left(InScope(m0, d), true, x))
         == if !v.VType? then Fault
            else Next(pc + 1, Binding(m0, d, Cell(v.ty, isMut, VVoid)))
  {
    var m1 := Left(InScope(m0, d), true, x);
    StepPlain(p, pc, m1, ScopeAllocTyped(isMut));
    SameLocation(m1, With(m0, d), x);
    assert PopValue(m1) == InScope(m0, d);
  }

  // The state in which the value of a new variable `c` is computed.
  function Binding(m0: M, d: Data, c: Cell<nat>): M {
    InScope(m0, Data(d.members + [c], d.temps)).(ctxs := m0.ctxs + [Member(|d.members|)])
  }

  lemma BindingReady(p: Program, e: Expr, pc: nat, env0: Env, m0: M, env: Env, d: Data, c: Cell<nat>, vs: nat, cs: nat)
    requires InBlock(p.code, env0, m0, env, d) && Coded(p.code, {}, pc, e, true) && Sound(e, true, vs, cs)
    ensures Ready(p, e, pc, env, Binding(m0, d, c), Into(c.ty), vs, cs)
  {
    hide Coded, Sound, Rel, Keeps;
    RelMore(p.code, env, BlockScopes(m0), m0.closures, d.members, [c]);
  }

  // The new variable has its value.
  lemma Bound(code: seq<Op>, env0: Env, m0: M, env: Env, d: Data, c: Cell<nat>, env1: Env, d1: Data, v: V, w: W)
    returns (d2: Data)
    requires InBlock(code, env0, m0, env, d)
    requires Keeps(code, BlockScopes(m0), m0.closures, env, Data(d.members + [c], d.temps), env1, d1)
    requires ValueRel(code, v, w) && v.TypeOf() == c.ty
    ensures |env1.scopes| > 0
    ensures InBlock(code, env0, m0, Declare(env1, Cell(c.ty, c.isMut, v)), d2)
    ensures Stored(With(Binding(m0, d, c), d1), w) == InScope(m0, d2)
  {
    hide Rel, Owned, OthersKept, ValueRel;
    var k := |d.members|;
    KeepsCut(code, BlockScopes(m0), m0.closures, env, d, [c], env1, d1);
    var cut := Data(d1.members[..k], d1.temps);
    BlockKept(code, env0, m0, env, d, env1, cut);
    var c' := Cell(c.ty, c.isMut, w);
    BlockDeclared(code, env0, m0, env1, cut, Cell(c.ty, c.isMut, v), c');
    d2 := Data(cut.members + [c'], d1.temps);
    assert (d.members + [c])[k] == c;
    var m1 := With(Binding(m0, d, c), d1);
    assert m1.members[k := m1.members[k].(val := w)] == d2.members;
    assert Front(m1.ctxs) == m0.ctxs;
  }

  // ---------- Putting statements together ----------

  lemma ItemsCut(p: Program, pc: nat, m: M, env0: Env, m0: M, mode: Mode, r: Result<Operand>, fuel: nat, end: nat,
                 env1: Env, mode1: Mode, leaves1: bool, end1: nat, s: Sim)
    requires !r.Done? && Simulated(p, pc, env1, m, mode1, leaves1, r, fuel, end1, s)
    ensures BlockSimulated(p, pc, m, env0, m0, mode, r, fuel, end, s)
  {
    hide Run, Cut, InBlock;
  }

  lemma ItemsFault(p: Program, pc: nat, m: M, env0: Env, m0: M, mode: Mode, fuel: nat, end: nat, a: nat, pc1: nat,
                   m1: M)
    returns (s: Sim)
    requires Reaches(p, pc, m, a, pc1, m1) && Step(p.code, p.globals, pc1, m1) == Fault
    ensures BlockSimulated(p, pc, m, env0, m0, mode, Error, fuel, end, s)
  {
    hide Run, Step;
    ThenStep(p, pc, m, a, pc1, m1);
    s := Sim(a + 1, DataOf(m), FixedLoc(VVoid), VVoid);
  }

  lemma ItemsPrefixed(p: Program, pc: nat, m: M, env0: Env, m0: M, mode: Mode, r: Result<Operand>, fuel: nat, end: nat,
                      a: nat, pc1: nat, m1: M, s1: Sim)
    returns (s: Sim)
    requires Reaches(p, pc, m, a, pc1, m1) && BlockSimulated(p, pc1, m1, env0, m0, mode, r, fuel, end, s1)
    ensures BlockSimulated(p, pc, m, env0, m0, mode, r, fuel, end, s)
  {
    hide Run, Cut, InBlock, ValueRel, OperandRel, Reaches;
    s := s1.(n := a + s1.n);
    if r.Done? {
      var m2 := if mode.Push? then Left(InScope(m0, s1.d), true, s1.x) else Stored(InScope(m0, s1.d), s1.w);
      Then(p, pc, m, a, pc1, m1, s1.n, end, m2);
    } else {
      ThenCut(p, pc, m, a, pc1, m1, r, fuel, fuel, s1.n);
    }
  }

  lemma OperandOlder(code: seq<Op>, scopes: seq<Scope>, env: Env, d: Data, start: nat, start': nat, o: Operand, x: Loc)
    requires OperandRel(code, scopes, env, d, start, o, x) && start' <= start
    ensures OperandRel(code, scopes, env, d, start', o, x)
  {
  }

  // The value of the last statement is that of the block.
  lemma ItemsLast(p: Program, pc: nat, env0: Env, m0: M, env: Env, d: Data, mode: Mode, r: Result<Operand>, fuel: nat,
                  end: nat, s: Sim)
    requires InBlock(p.code, env0, m0, env, d)
    requires Simulated(p, pc, env, InScope(m0, d), mode, true, r, fuel, end, s)
    ensures BlockSimulated(p, pc, InScope(m0, d), env0, m0, mode, r, fuel, end, s)
  {
    hide Run, Cut, ValueRel, OperandRel, Reaches, Rel, Keeps;
    if r.Done? {
      BlockKept(p.code, env0, m0, env, d, r.env, s.d);
      assert With(InScope(m0, d), s.d) == InScope(m0, s.d);
      if mode.Push? {
        OperandOlder(p.code, BlockScopes(m0), r.env, s.d, |d.temps|, |m0.temps|, r.value, s.x);
      }
    }
  }

  // A last statement without a value stands for void.
  lemma ItemsVoid(p: Program, pc: nat, env0: Env, m0: M, env: Env, d: Data, r: Result<Operand>, fuel: nat, end: nat,
                  s1: Sim)
    returns (s: Sim)
    requires InBlock(p.code, env0, m0, env, d) && r.Done?
    requires Simulated(p, pc, env, InScope(m0, d), Push, false, r, fuel, end, s1)
    requires OpAt(p.code, end, ValueVoid(false))
    ensures BlockSimulated(p, pc, InScope(m0, d), env0, m0, Push, Done(Temp(VVoid), r.env), fuel, end + 1, s)
  {
    hide Run, Cut, OperandRel, Reaches, Rel, Keeps, Step, SimulatedFrom, ValueRel, PutTemporary;
    var m := InScope(m0, d);
    NothingLeft(p, pc, env, m, r, fuel, end, s1);
    VoidStep(p, end, With(m, s1.d), false);
    s := Finishing(p, pc, env, m, Push, fuel, s1.n, end, With(m, s1.d), r.env, s1.d, VVoid, VVoid, end + 1);
    ItemsLast(p, pc, env0, m0, env, d, Push, Done(Temp(VVoid), r.env), fuel, end + 1, s);
  }

  // ---------- The end of a block ----------

  lemma BlockReady(p: Program, e: Expr, pc: nat, env: Env, m: M, mode: Mode, vs: nat, cs: nat)
    requires e.Block? && Ready(p, e, pc, env, m, mode, vs, cs)
    ensures ItemsSound(e.items, mode.Into?, vs, cs) && Len(e, mode.Into?) == ItemsLen(e.items, mode.Into?) + 2
    ensures OpAt(p.code, pc, ScopeBegin) && ItemsCoded(p.code, {}, pc + 1, e.items, mode.Into?)
    ensures OpAt(p.code, pc + 1 + ItemsLen(e.items, mode.Into?), if mode.Into? then ScopeEnd else ScopeEndPreserveTop)
  {
    hide Rel, OpAt, InContext, ItemsCoded, ItemsSound, ItemsLen, BlockFits;
  }

  lemma BeginStep(p: Program, pc: nat, m: M)
    requires OpAt(p.code, pc, ScopeBegin)
    ensures Step(p.code, p.globals, pc, m) == Next(pc + 1, InScope(m, DataOf(m)))
  {
    StepPlain(p, pc, m, ScopeBegin);
  }

  // The result of a block with a value: temporaries move to the start of the scope.
  function Surviving(m0: M, d: Data, x: Loc): (Data, Loc)
    requires |m0.members| <= |d.members|
  {
    if x.TempLoc? && |m0.temps| <= x.i < |d.temps| then
      (Data(d.members[..|m0.members|], m0.temps + [d.temps[x.i]]), TempLoc(|m0.temps|))
    else (Outer(m0, d), x)
  }

  lemma EndPreserveStep(p: Program, pc: nat, m0: M, d: Data, x: Loc)
    requires OpAt(p.code, pc, ScopeEndPreserveTop) && |m0.members| <= |d.members| && m0.temps <= d.temps
    ensures var (d', x') := Surviving(m0, d, x);
      Step(p.code, p.globals, pc, Left(InScope(m0, d), true, x)) == Next(pc + 1, Left(With(m0, d'), true, x'))
  {
    var m1 := Left(InScope(m0, d), true, x);
    StepPlain(p, pc, m1, ScopeEndPreserveTop);
    assert Front(m1.scopes) == m0.scopes;
    assert Front(m1.values) == m0.values;
    assert d.temps[..|m0.temps|] == m0.temps;
  }

  lemma EndStep(p: Program, pc: nat, m0: M, d: Data, w: W)
    requires OpAt(p.code, pc, ScopeEnd) && |m0.members| <= |d.members| && m0.temps <= d.temps
    requires |m0.ctxs| > 0 && LocOk(m0, Top(m0.ctxs))
    ensures Step(p.code, p.globals, pc, Stored(InScope(m0, d), w)) == Next(pc + 1, Stored(With(m0, Outer(m0, d)), w))
  {
    var m1 := Stored(InScope(m0, d), w);
    StepPlain(p, pc, m1, ScopeEnd);
    assert m1.scopes == BlockScopes(m0) && Front(m1.scopes) == m0.scopes;
    var m2 := Stored(With(m0, Outer(m0, d)), w);
    assert m1.members[..|m0.members|] == m2.members;
    assert m1.temps[..|m0.temps|] == m2.temps;
  }

  // The operand of a block that does not name one of the block's own variables.
  lemma SurvivingOperand(code: seq<Op>, env0: Env, m0: M, env: Env, d: Data, o: Operand, x: Loc)
    requires InBlock(code, env0, m0, env, d) && OperandRel(code, BlockScopes(m0), env, d, |m0.temps|, o, x)
    requires !(o.Place? && o.scope + 1 == |env.scopes|)
    ensures var (d', x') := Surviving(m0, d, x);
      && Keeps(code, m0.scopes, m0.closures, env0, DataOf(m0), PopScope(env), d')
      && OperandRel(code, m0.scopes, PopScope(env), d', |m0.temps|, o, x')
  {
    hide Rel, SameShape, OthersKept, ValueRel;
    if o.Place? {
      FirstOuter(env, m0.scopes, [Scope(|m0.members|, |m0.temps|)], o.scope);
    }
  }

  lemma BlockLeaves(p: Program, pc: nat, env: Env, m: M, r: Result<Operand>, fuel: nat, end: nat, s1: Sim)
    returns (s: Sim)
    requires OpAt(p.code, pc, ScopeBegin) && OpAt(p.code, end, ScopeEndPreserveTop)
    requires r.Done? && BlockSimulated(p, pc + 1, InScope(m, DataOf(m)), env, m, Push, r, fuel, end, s1)
    requires !(r.value.Place? && r.value.scope + 1 == |r.env.scopes|)
    ensures |r.env.scopes| > 0
    ensures Simulated(p, pc, env, m, Push, true, Done(r.value, PopScope(r.env)), fuel, end + 1, s)
  {
    hide Run, Step, Cut, ValueRel, OperandRel, Rel, Keeps;
    var m0 := InScope(m, DataOf(m));
    Here(p, pc, m);
    BeginStep(p, pc, m);
    ThenStep(p, pc, m, 0, pc, m);
    var m1 := Left(InScope(m, s1.d), true, s1.x);
    Then(p, pc, m, 1, pc + 1, m0, s1.n, end, m1);
    EndPreserveStep(p, end, m, s1.d, s1.x);
    ThenStep(p, pc, m, 1 + s1.n, end, m1);
    SurvivingOperand(p.code, env, m, r.env, s1.d, r.value, s1.x);
    var (d', x') := Surviving(m, s1.d, s1.x);
    s := Sim(s1.n + 2, d', x', VVoid);
  }

  lemma BlockStores(p: Program, pc: nat, env: Env, m: M, mode: Mode, r: Result<Operand>, fuel: nat, end: nat, s1: Sim)
    returns (s: Sim)
    requires OpAt(p.code, pc, ScopeBegin) && OpAt(p.code, end, ScopeEnd) && InContext(m, mode)
    requires r.Done? && mode.Into? && BlockSimulated(p, pc + 1, InScope(m, DataOf(m)), env, m, mode, r, fuel, end, s1)
    ensures |r.env.scopes| > 0
    ensures Simulated(p, pc, env, m, mode, true, Done(r.value, PopScope(r.env)), fuel, end + 1, s)
  {
    hide Run, Step, Cut, ValueRel, OperandRel, Rel, Keeps, Stored;
    var m0 := InScope(m, DataOf(m));
    Here(p, pc, m);
    BeginStep(p, pc, m);
    ThenStep(p, pc, m, 0, pc, m);
    var m1 := Stored(InScope(m, s1.d), s1.w);
    Then(p, pc, m, 1, pc + 1, m0, s1.n, end, m1);
    EndStep(p, end, m, s1.d, s1.w);
    ThenStep(p, pc, m, 1 + s1.n, end, m1);
    s := Sim(s1.n + 2, Outer(m, s1.d), s1.x, s1.w);
  }

  lemma BlockCut(p: Program, pc: nat, env: Env, m: M, mode: Mode, r: Result<Operand>, fuel: nat, end: nat, s1: Sim)
    returns (s: Sim)
    requires OpAt(p.code, pc, ScopeBegin)
    requires !r.Done? && BlockSimulated(p, pc + 1, InScope(m, DataOf(m)), env, m, mode, r, fuel, end, s1)
    ensures Simulated(p, pc, env, m, mode, true, r, fuel, end + 1, s)
  {
    hide Run, Step, Cut;
    Here(p, pc, m);
    BeginStep(p, pc, m);
    ThenStep(p, pc, m, 0, pc, m);
    ThenCut(p, pc, m, 1, pc + 1, InScope(m, DataOf(m)), r, fuel, fuel, s1.n);
    s := s1.(n := s1.n + 1);
  }
}
