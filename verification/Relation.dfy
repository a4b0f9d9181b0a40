/** How the interpreter's stacks represent an environment, and the steps every case of the
    simulation proof shares. */
module Relation {
  import opened Basics
  import opened Lang
  import opened Machine
  import opened Coding

  datatype Program = Program(code: seq<Op>, globals: seq<Global>)

  // ---------- Values and environments ----------

  /** Function values correspond when the address is that of the compiled body. */
  ghost predicate ValueRel(code: seq<Op>, v: V, w: W)
    decreases v
  {
    match v
    case VInt(n) => w == VInt(n)
    case VBool(b) => w == VBool(b)
    case VVoid => w == VVoid
    case VType(ty) => w == VType(ty)
    case VFunc(params, ret, body, closure) =>
      && w.VFunc? && w.params == params && w.ret == ret
      && Sound(body, true, 0, 1)
      && SegmentCoded(code, {}, w.body, FunctionBody(body, closure != []))
      && |w.closure| == |closure|
      && forall i | 0 <= i < |closure| :: ValueRel(code, closure[i], w.closure[i])
  }

  ghost predicate CellRel(code: seq<Op>, c: Cell<Expr>, d: Cell<nat>) {
    c.ty == d.ty && c.isMut == d.isMut && c.val.TypeOf() == c.ty && ValueRel(code, c.val, d.val)
  }

  // The cells of a scope lie next to each other, from member `first` on.
  ghost predicate ScopeRel(code: seq<Op>, cells: seq<Cell<Expr>>, first: nat, members: seq<Cell<nat>>) {
    && first + |cells| <= |members|
    && forall r | 0 <= r < |cells| :: CellRel(code, cells[r], members[first + r])
  }

  // The scopes of the running function are the topmost ones.
  function First(env: Env, scopes: seq<Scope>, s: nat): nat
    requires s < |env.scopes| <= |scopes|
  {
    scopes[|scopes| - |env.scopes| + s].firstMember
  }

  ghost predicate ClosureRel(code: seq<Op>, closure: seq<V>, closures: seq<seq<W>>) {
    closure == [] ||
    (&& |closures| > 0 && |Top(closures)| == |closure|
     && forall i | 0 <= i < |closure| :: ValueRel(code, closure[i], Top(closures)[i]))
  }

  ghost predicate Rel(code: seq<Op>, env: Env, scopes: seq<Scope>, closures: seq<seq<W>>, members: seq<Cell<nat>>) {
    && |env.scopes| <= |scopes|
    && ClosureRel(code, env.closure, closures)
    && (forall s | 0 <= s < |env.scopes| :: ScopeRel(code, env.scopes[s], First(env, scopes, s), members))
    && (forall s, t | 0 <= s < t < |env.scopes| ::
          First(env, scopes, s) + |env.scopes[s]| <= First(env, scopes, t))
  }

  // Members that hold variables of the running function.
  ghost predicate Owned(env: Env, scopes: seq<Scope>, i: nat)
    requires |env.scopes| <= |scopes|
  {
    exists s :: 0 <= s < |env.scopes| && First(env, scopes, s) <= i < First(env, scopes, s) + |env.scopes[s]|
  }

  predicate SameCells(a: seq<Cell<Expr>>, b: seq<Cell<Expr>>) {
    |a| == |b| && forall r | 0 <= r < |a| :: a[r].ty == b[r].ty && a[r].isMut == b[r].isMut
  }

  predicate SameShape(env: Env, env': Env) {
    && |env'.scopes| == |env.scopes| && env'.closure == env.closure
    && forall s | 0 <= s < |env.scopes| :: SameCells(env.scopes[s], env'.scopes[s])
  }

  /** The part of the machine that expressions change for good. */
  datatype Data = Data(members: seq<Cell<nat>>, temps: seq<Cell<nat>>)

  function DataOf(m: M): Data {
    Data(m.members, m.temps)
  }

  function With(m: M, d: Data): M {
    m.(members := d.members, temps := d.temps)
  }

  predicate SameTypes(a: seq<Cell<nat>>, b: seq<Cell<nat>>) {
    |a| == |b| && forall i | 0 <= i < |a| :: a[i].ty == b[i].ty && a[i].isMut == b[i].isMut
  }

  ghost predicate OthersKept(env: Env, scopes: seq<Scope>, a: seq<Cell<nat>>, b: seq<Cell<nat>>)
    requires |env.scopes| <= |scopes| && |a| == |b|
  {
    forall i | 0 <= i < |a| && !Owned(env, scopes, i) :: b[i] == a[i]
  }

  /** What evaluating an expression keeps: no variable appears or disappears, members that
      are not variables of the running function and existing temporaries do not change. */
  ghost predicate Keeps(code: seq<Op>, scopes: seq<Scope>, closures: seq<seq<W>>, env: Env, d: Data, env': Env,
                        d': Data) {
    && |env.scopes| <= |scopes|
    && SameTypes(d.members, d'.members) && d.temps <= d'.temps
    && SameShape(env, env') && Rel(code, env', scopes, closures, d'.members)
    && OthersKept(env, scopes, d.members, d'.members)
  }

  // The location an operand is at; temporaries created since are at `start` or above.
  ghost predicate OperandRel(code: seq<Op>, scopes: seq<Scope>, env: Env, d: Data, start: nat, o: Operand, x: Loc) {
    Readable(env, o) &&
    match o
    case Place(s, r) => |env.scopes| <= |scopes| && x == Member(First(env, scopes, s) + r)
    case Temp(v) =>
      && x.TempLoc? && start <= x.i < |d.temps|
      && d.temps[x.i].ty == v.TypeOf() && d.temps[x.i].isMut && ValueRel(code, v, d.temps[x.i].val)
    case Fixed(v) => x.FixedLoc? && ValueRel(code, v, x.v)
  }

  // ---------- Basic facts ----------

  lemma TypesAgree(code: seq<Op>, v: V, w: W)
    requires ValueRel(code, v, w)
    ensures v.TypeOf() == w.TypeOf()
  {
  }

  lemma UnaryAgrees(code: seq<Op>, op: UnaryKind, v: V, w: W)
    requires ValueRel(code, v, w)
    ensures ApplyUnary(op, v).Some? == ApplyUnary(op, w).Some?
    ensures ApplyUnary(op, v).Some? ==> ValueRel(code, ApplyUnary(op, v).value, ApplyUnary(op, w).value)
  {
  }

  lemma CompareAgrees(code: seq<Op>, op: BinaryKind, v: V, w: W, v': V, w': W)
    requires ValueRel(code, v, w) && ValueRel(code, v', w')
    ensures ApplyCompare(op, v, v') == ApplyCompare(op, w, w')
  {
    TypesAgree(code, v, w);
    TypesAgree(code, v', w');
  }

  lemma BinaryAgrees(code: seq<Op>, op: BinaryKind, v: V, w: W, v': V, w': W)
    requires ValueRel(code, v, w) && ValueRel(code, v', w')
    ensures ApplyBinary(op, v, v').Some? == ApplyBinary(op, w, w').Some?
    ensures ApplyBinary(op, v, v').Some? ==> ValueRel(code, ApplyBinary(op, v, v').value, ApplyBinary(op, w, w').value)
  {
    hide ApplyCompare, ApplyArithmetic;
    CompareAgrees(code, op, v, w, v', w');
  }

  // The operand's content and type are those of its location.
  lemma OperandAt(code: seq<Op>, m: M, env: Env, d: Data, start: nat, o: Operand, x: Loc)
    requires Rel(code, env, m.scopes, m.closures, d.members)
    requires OperandRel(code, m.scopes, env, d, start, o, x)
    ensures Readable(env, o) && LocOk(With(m, d), x)
    ensures ValueRel(code, Read(env, o), At(With(m, d), x).val)
    ensures At(With(m, d), x).ty == OperandType(env, o) == Read(env, o).TypeOf()
    ensures At(With(m, d), x).isMut == Mutable(env, o)
  {
    if o.Place? {
      assert ScopeRel(code, env.scopes[o.scope], First(env, m.scopes, o.scope), d.members);
      assert CellRel(code, env.scopes[o.scope][o.rank], d.members[First(env, m.scopes, o.scope) + o.rank]);
    } else if o.Fixed? {
      TypesAgree(code, o.v, x.v);
    }
  }

  lemma SameShapeTrans(a: Env, b: Env, c: Env)
    requires SameShape(a, b) && SameShape(b, c)
    ensures SameShape(a, c)
  {
    forall s | 0 <= s < |a.scopes|
      ensures SameCells(a.scopes[s], c.scopes[s])
    {
      assert SameCells(a.scopes[s], b.scopes[s]) && SameCells(b.scopes[s], c.scopes[s]);
    }
  }

  lemma OwnedShape(env: Env, env': Env, scopes: seq<Scope>, i: nat)
    requires |env.scopes| <= |scopes| && SameShape(env, env')
    ensures Owned(env, scopes, i) == Owned(env', scopes, i)
  {
    forall s | 0 <= s < |env.scopes|
      ensures First(env, scopes, s) == First(env', scopes, s) && |env.scopes[s]| == |env'.scopes[s]|
    {
      assert SameCells(env.scopes[s], env'.scopes[s]);
    }
  }

  lemma KeepsRefl(code: seq<Op>, scopes: seq<Scope>, closures: seq<seq<W>>, env: Env, d: Data)
    requires Rel(code, env, scopes, closures, d.members)
    ensures Keeps(code, scopes, closures, env, d, env, d)
  {
  }

  lemma KeepsTrans(code: seq<Op>, scopes: seq<Scope>, closures: seq<seq<W>>, a: Env, d: Data, b: Env, e: Data, c: Env,
                   f: Data)
    requires Keeps(code, scopes, closures, a, d, b, e) && Keeps(code, scopes, closures, b, e, c, f)
    ensures Keeps(code, scopes, closures, a, d, c, f)
  {
    hide Rel, Owned;
    SameShapeTrans(a, b, c);
    forall i | 0 <= i < |d.members| && !Owned(a, scopes, i)
      ensures f.members[i] == d.members[i]
    {
      OwnedShape(a, b, scopes, i);
    }
  }

  // More temporaries change nothing.
  lemma KeepsTemps(code: seq<Op>, scopes: seq<Scope>, closures: seq<seq<W>>, env: Env, d: Data, env': Env, d': Data,
                   more: seq<Cell<nat>>)
    requires Keeps(code, scopes, closures, env, d, env', d')
    ensures Keeps(code, scopes, closures, env, d, env', d'.(temps := d'.temps + more))
  {
    hide Rel, Owned;
  }

  lemma OperandKept(code: seq<Op>, scopes: seq<Scope>, closures: seq<seq<W>>, env: Env, d: Data, env': Env, d': Data,
                    start: nat, o: Operand, x: Loc)
    requires OperandRel(code, scopes, env, d, start, o, x)
    requires Keeps(code, scopes, closures, env, d, env', d')
    ensures OperandRel(code, scopes, env', d', start, o, x)
    ensures Readable(env, o) && Readable(env', o)
    ensures OperandType(env', o) == OperandType(env, o) && Mutable(env', o) == Mutable(env, o)
  {
    hide Rel, Owned;
    if o.Place? {
      assert SameCells(env.scopes[o.scope], env'.scopes[o.scope]);
    }
  }

  // ---------- Writing a variable ----------

  lemma PlaceDistinct(code: seq<Op>, env: Env, scopes: seq<Scope>, closures: seq<seq<W>>, members: seq<Cell<nat>>,
                      s: nat, r: nat, t: nat, q: nat)
    requires Rel(code, env, scopes, closures, members) && ValidPlace(env, s, r) && ValidPlace(env, t, q)
    ensures First(env, scopes, s) + r == First(env, scopes, t) + q ==> s == t && r == q
  {
  }

  lemma WriteRel(code: seq<Op>, env: Env, scopes: seq<Scope>, closures: seq<seq<W>>, members: seq<Cell<nat>>,
                 s: nat, r: nat, v: V, w: W)
    requires Rel(code, env, scopes, closures, members) && ValidPlace(env, s, r)
    requires ValueRel(code, v, w) && v.TypeOf() == env.scopes[s][r].ty
    ensures First(env, scopes, s) + r < |members|
    ensures var i := First(env, scopes, s) + r;
      Rel(code, Write(env, Place(s, r), v), scopes, closures, members[i := members[i].(val := w)])
  {
    hide ValueRel;
    var i := First(env, scopes, s) + r;
    assert ScopeRel(code, env.scopes[s], First(env, scopes, s), members);
    var env' := Write(env, Place(s, r), v);
    var members' := members[i := members[i].(val := w)];
    forall t | 0 <= t < |env.scopes|
      ensures ScopeRel(code, env'.scopes[t], First(env', scopes, t), members')
    {
      assert ScopeRel(code, env.scopes[t], First(env, scopes, t), members);
      forall q | 0 <= q < |env.scopes[t]|
        ensures CellRel(code, env'.scopes[t][q], members'[First(env, scopes, t) + q])
      {
        PlaceDistinct(code, env, scopes, closures, members, s, r, t, q);
        assert CellRel(code, env.scopes[t][q], members[First(env, scopes, t) + q]);
      }
    }
  }

  lemma UpdateKeepsOthers(env: Env, scopes: seq<Scope>, members: seq<Cell<nat>>, i: nat, w: W)
    requires |env.scopes| <= |scopes| && i < |members| && Owned(env, scopes, i)
    ensures OthersKept(env, scopes, members, members[i := members[i].(val := w)])
    ensures SameTypes(members, members[i := members[i].(val := w)])
  {
    hide Owned;
  }

  lemma WriteShape(env: Env, s: nat, r: nat, v: V)
    requires ValidPlace(env, s, r)
    ensures SameShape(env, Write(env, Place(s, r), v))
  {
  }

  lemma RelScopes(code: seq<Op>, env: Env, scopes: seq<Scope>, closures: seq<seq<W>>, members: seq<Cell<nat>>)
    requires Rel(code, env, scopes, closures, members)
    ensures |env.scopes| <= |scopes|
  {
    hide ScopeRel;
  }

  lemma PlaceOwned(env: Env, scopes: seq<Scope>, s: nat, r: nat)
    requires |env.scopes| <= |scopes| && ValidPlace(env, s, r)
    ensures Owned(env, scopes, First(env, scopes, s) + r)
  {
    hide First;
  }

  lemma WritePlaceKeeps(code: seq<Op>, m: M, env: Env, d: Data, s: nat, r: nat, v: V, w: W)
    requires Rel(code, env, m.scopes, m.closures, d.members) && ValidPlace(env, s, r)
    requires ValueRel(code, v, w) && v.TypeOf() == env.scopes[s][r].ty
    ensures First(env, m.scopes, s) + r < |d.members|
    ensures Keeps(code, m.scopes, m.closures, env, d, Write(env, Place(s, r), v),
                  DataOf(Store(With(m, d), Member(First(env, m.scopes, s) + r), w)))
  {
    hide ValueRel, Rel, ScopeRel, Owned, SameShape, OthersKept, SameTypes, First, Write;
    RelScopes(code, env, m.scopes, m.closures, d.members);
    WriteRel(code, env, m.scopes, m.closures, d.members, s, r, v, w);
    var i: nat := First(env, m.scopes, s) + r;
    PlaceOwned(env, m.scopes, s, r);
    UpdateKeepsOthers(env, m.scopes, d.members, i, w);
    WriteShape(env, s, r, v);
  }

  // Storing through the location of an operand is writing the operand.
  lemma WriteKeeps(code: seq<Op>, m: M, env: Env, d: Data, start: nat, o: Operand, x: Loc, v: V, w: W)
    requires Rel(code, env, m.scopes, m.closures, d.members)
    requires OperandRel(code, m.scopes, env, d, start, o, x) && Mutable(env, o)
    requires ValueRel(code, v, w) && v.TypeOf() == OperandType(env, o)
    ensures LocOk(With(m, d), x)
    ensures o.Place? ==> Keeps(code, m.scopes, m.closures, env, d, Write(env, o, v), DataOf(Store(With(m, d), x, w)))
    ensures !o.Place? ==> Write(env, o, v) == env && x.TempLoc? && x.i >= start
                          && Store(With(m, d), x, w).members == d.members
  {
    hide Rel, Keeps, ValueRel;
    if o.Place? {
      WritePlaceKeeps(code, m, env, d, o.scope, o.rank, v, w);
    }
  }

  // ---------- Runs ----------

  ghost predicate Reaches(p: Program, pc: nat, m: M, n: nat, pc': int, m': M) {
    pc' >= 0 && Run(p.code, p.globals, pc, m, n) == Next(pc', m')
  }

  /** A run that does not come to the end of the code: an error is reported, or, when the
      bound on the evaluation was too small, at least that many steps are taken. */
  ghost predicate Cut<T>(p: Program, pc: nat, m: M, r: Result<T>, fuel: nat, n: nat) {
    match r
    case Done(_, _) => false
    case Error => Run(p.code, p.globals, pc, m, n) == Fault
    case Timeout => n >= fuel && Run(p.code, p.globals, pc, m, n).Next?
    case Undefined => true
  }

  lemma Here(p: Program, pc: nat, m: M)
    ensures Reaches(p, pc, m, 0, pc, m)
  {
  }

  lemma Then(p: Program, pc: nat, m: M, a: nat, pc1: nat, m1: M, b: nat, pc2: nat, m2: M)
    requires Reaches(p, pc, m, a, pc1, m1) && Reaches(p, pc1, m1, b, pc2, m2)
    ensures Reaches(p, pc, m, a + b, pc2, m2)
  {
    hide Run, Step;
    RunAppend(p.code, p.globals, pc, m, a, pc1, m1, b);
  }

  lemma ThenCut<T>(p: Program, pc: nat, m: M, a: nat, pc1: nat, m1: M, r: Result<T>, fuel1: nat, fuel: nat, b: nat)
    requires Reaches(p, pc, m, a, pc1, m1) && Cut(p, pc1, m1, r, fuel1, b) && a + fuel1 >= fuel
    ensures Cut(p, pc, m, r, fuel, a + b)
  {
    hide Run, Step;
    RunAppend(p.code, p.globals, pc, m, a, pc1, m1, b);
  }

  lemma OneStep(p: Program, pc: nat, m: M)
    ensures Run(p.code, p.globals, pc, m, 1) == Step(p.code, p.globals, pc, m)
  {
    hide Step;
    var s := Step(p.code, p.globals, pc, m);
    if s.Next? {
      assert Run(p.code, p.globals, s.pc, s.m, 0) == s;
    }
  }

  lemma ThenStep(p: Program, pc: nat, m: M, a: nat, pc1: nat, m1: M)
    requires Reaches(p, pc, m, a, pc1, m1)
    ensures Run(p.code, p.globals, pc, m, a + 1) == Step(p.code, p.globals, pc1, m1)
  {
    hide Run, Step;
    RunAppend(p.code, p.globals, pc, m, a, pc1, m1, 1);
    OneStep(p, pc1, m1);
  }

  lemma StepPlain(p: Program, pc: nat, m: M, op: Op)
    requires OpAt(p.code, pc, op) && !op.ConsumesWriteCtx()
    ensures Step(p.code, p.globals, pc, m) == Handle(p.globals, op, pc, m, None)
  {
    hide Handle;
  }

  // Instructions whose mode is that of the expression they end.
  function Consumed(m: M, into: bool): M {
    if into && |m.ctxs| > 0 then m.(ctxs := Front(m.ctxs)) else m
  }

  function Target(m: M, into: bool): Maybe<Loc> {
    if into && |m.ctxs| > 0 then Some(Top(m.ctxs)) else None
  }

  lemma StepInto(p: Program, pc: nat, m: M, op: Op, into: bool)
    requires OpAt(p.code, pc, op) && op.ConsumesWriteCtx() == into && (into ==> |m.ctxs| > 0)
    ensures Step(p.code, p.globals, pc, m) == Handle(p.globals, op, pc, Consumed(m, into), Target(m, into))
  {
    hide Handle;
  }

  // ---------- What it means to simulate an evaluation ----------

  /** Steps taken, the data afterwards, the location left or the value stored. */
  datatype Sim = Sim(n: nat, d: Data, x: Loc, w: W)

  // The consumed context receives a value.
  function Stored(m: M, w: W): M {
    if |m.ctxs| > 0 && LocOk(m, Top(m.ctxs)) then Store(m.(ctxs := Front(m.ctxs)), Top(m.ctxs), w) else m
  }

  function Left(m: M, leaves: bool, x: Loc): M {
    if leaves then m.(values := m.values + [x]) else m
  }

  // A write context for a value of the expected type is on top.
  ghost predicate InContext(m: M, mode: Mode) {
    mode.Into? ==> |m.ctxs| > 0 && LocOk(m, Top(m.ctxs)) && At(m, Top(m.ctxs)).ty == mode.ty
  }

  /** From `pc0` and `m0`, the machine does what the evaluation with result `r` does: it comes
      to `end` with the operand pushed or the value stored, every other stack as in `m`. */
  ghost predicate SimulatedFrom(p: Program, pc0: nat, m0: M, env: Env, m: M, mode: Mode, leaves: bool,
                                r: Result<Operand>, fuel: nat, end: int, s: Sim) {
    if r.Done? then
      && Keeps(p.code, m.scopes, m.closures, env, DataOf(m), r.env, s.d)
      && if mode.Push? then
           && (leaves ==> OperandRel(p.code, m.scopes, r.env, s.d, |m.temps|, r.value, s.x))
           && Reaches(p, pc0, m0, s.n, end, Left(With(m, s.d), leaves, s.x))
         else
           && r.value.Temp? && r.value.v.TypeOf() == mode.ty && ValueRel(p.code, r.value.v, s.w)
           && Reaches(p, pc0, m0, s.n, end, Stored(With(m, s.d), s.w))
    else Cut(p, pc0, m0, r, fuel, s.n)
  }

  ghost predicate Simulated(p: Program, pc: nat, env: Env, m: M, mode: Mode, leaves: bool, r: Result<Operand>,
                            fuel: nat, end: int, s: Sim) {
    SimulatedFrom(p, pc, m, env, m, mode, leaves, r, fuel, end, s)
  }

  // The same after some steps that kept the variables.
  lemma Continued(p: Program, pc: nat, env: Env, m: M, mode: Mode, leaves: bool, r: Result<Operand>, fuel: nat,
                  end: nat,
                  a: nat, pc0: nat, m0: M, env1: Env, d1: Data, fuel1: nat, s1: Sim)
    returns (s: Sim)
    requires Keeps(p.code, m.scopes, m.closures, env, DataOf(m), env1, d1)
    requires Reaches(p, pc, m, a, pc0, m0) && a + fuel1 >= fuel
    requires SimulatedFrom(p, pc0, m0, env1, With(m, d1), mode, leaves, r, fuel1, end, s1)
    ensures Simulated(p, pc, env, m, mode, leaves, r, fuel, end, s) && s.n >= a
  {
    hide Run, Rel, ValueRel, Owned, Reaches, Cut, Stored, Left, Keeps;
    s := s1.(n := a + s1.n);
    if r.Done? {
      assert With(With(m, d1), s1.d) == With(m, s1.d);
      KeepsTrans(p.code, m.scopes, m.closures, env, DataOf(m), env1, d1, r.env, s1.d);
      TempsGrow(p.code, m.scopes, m.closures, env, DataOf(m), env1, d1);
      if mode.Push? {
        Then(p, pc, m, a, pc0, m0, s1.n, end, Left(With(m, s1.d), leaves, s1.x));
      } else {
        Then(p, pc, m, a, pc0, m0, s1.n, end, Stored(With(m, s1.d), s1.w));
      }
    } else {
      ThenCut(p, pc, m, a, pc0, m0, r, fuel1, fuel, s1.n);
    }
  }

  lemma TempsGrow(code: seq<Op>, scopes: seq<Scope>, closures: seq<seq<W>>, env: Env, d: Data, env': Env, d': Data)
    requires Keeps(code, scopes, closures, env, d, env', d')
    ensures |d.temps| <= |d'.temps|
  {
    hide Rel, SameShape, OthersKept, SameTypes;
  }

  lemma StepEnd(p: Program, pc: nat, m: M, ret: nat, m1: M)
    requires OpAt(p.code, pc, EndCode) && m1 == Activate(m, ret)
    ensures Step(p.code, p.globals, pc, m1) == Next(ret, m)
  {
    StepPlain(p, pc, m1, EndCode);
    assert Resume(m1) == Next(ret, m);
  }

  // A segment ends by returning to the activation it was entered with.
  lemma SegmentEnds(p: Program, a: nat, env: Env, m: M, mode: Mode, leaves: bool, r: Result<Operand>, fuel: nat,
                    end: nat,
                    ret: nat, s1: Sim)
    returns (s: Sim)
    requires Simulated(p, a, env, Activate(m, ret), mode, leaves, r, fuel, end, s1) && OpAt(p.code, end, EndCode)
    ensures SimulatedFrom(p, a, Activate(m, ret), env, m, mode, leaves, r, fuel, ret, s)
  {
    hide Run, Rel, ValueRel, Owned, Keeps, Cut, Step, OpAt, OperandRel;
    s := s1.(n := s1.n + 1);
    if r.Done? {
      var m0 := Activate(m, ret);
      var m1 := if mode.Push? then Left(With(m, s1.d), leaves, s1.x) else Stored(With(m, s1.d), s1.w);
      ThenStep(p, a, m0, s1.n, end, Activate(m1, ret));
      StepEnd(p, end, m1, ret, Activate(m1, ret));
    } else {
      s := s1;
    }
  }

  lemma ContextKept(code: seq<Op>, env: Env, m: M, env': Env, d: Data, mode: Mode)
    requires Keeps(code, m.scopes, m.closures, env, DataOf(m), env', d) && InContext(m, mode)
    ensures InContext(With(m, d), mode)
  {
    hide Rel, Owned, SameShape, OthersKept;
  }

  // The last step of an expression produces a temporary.
  lemma Finishing(p: Program, pc: nat, env: Env, m: M, mode: Mode, fuel: nat,
                  a: nat, pc1: nat, m1: M, env1: Env, d1: Data, v: V, w: W, end: nat)
    returns (s: Sim)
    requires Reaches(p, pc, m, a, pc1, m1)
    requires Keeps(p.code, m.scopes, m.closures, env, DataOf(m), env1, d1)
    requires Step(p.code, p.globals, pc1, m1)
          == PutTemporary(end, Consumed(With(m, d1), mode.Into?), Target(m, mode.Into?), w)
    requires ValueRel(p.code, v, w) && InContext(m, mode)
    ensures Simulated(p, pc, env, m, mode, true, Finish(v, env1, mode), fuel, end, s)
  {
    hide Run, Step, Rel, ValueRel, Owned;
    ThenStep(p, pc, m, a, pc1, m1);
    TypesAgree(p.code, v, w);
    ContextKept(p.code, env, m, env1, d1, mode);
    if mode.Push? {
      var cell := Cell(w.TypeOf(), true, w);
      KeepsTemps(p.code, m.scopes, m.closures, env, DataOf(m), env1, d1, [cell]);
      s := Sim(a + 1, d1.(temps := d1.temps + [cell]), TempLoc(|d1.temps|), w);
    } else {
      s := Sim(a + 1, d1, FixedLoc(w), w);
    }
  }

  // The last step of an expression loads a location.
  lemma Loading(p: Program, pc: nat, env: Env, m: M, mode: Mode, fuel: nat,
                a: nat, pc1: nat, m1: M, env1: Env, d1: Data, o: Operand, x: Loc, end: nat)
    returns (s: Sim)
    requires Reaches(p, pc, m, a, pc1, m1)
    requires Keeps(p.code, m.scopes, m.closures, env, DataOf(m), env1, d1)
    requires Step(p.code, p.globals, pc1, m1)
          == PutLocation(end, Consumed(With(m, d1), mode.Into?), Target(m, mode.Into?), x)
    requires OperandRel(p.code, m.scopes, env1, d1, |m.temps|, o, x) && InContext(m, mode)
    ensures Simulated(p, pc, env, m, mode, true, Load(o, env1, mode), fuel, end, s)
  {
    hide Run, Step, Rel, ValueRel, Owned;
    ThenStep(p, pc, m, a, pc1, m1);
    OperandAt(p.code, m, env1, d1, |m.temps|, o, x);
    ContextKept(p.code, env, m, env1, d1, mode);
    s := Sim(a + 1, d1, x, At(With(m, d1), x).val);
  }
}
