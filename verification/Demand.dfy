/** What a load of a global means: its initializer is evaluated on demand and once, unless it
    needs its own value. */
module Demand {
  import opened Basics
  import opened Globals

  // ---------- The meaning without memory ----------

  /** Every use of a global evaluates its definition again; `fuel` bounds the nesting. */
  function Naive(p: Program, e: Expr, fuel: nat): Maybe<int>
    decreases fuel, e
  {
    match e
    case Number(n) => Some(n)
    case Global(g) => if g >= |p.definitions| || fuel == 0 then None else NaiveDefinition(p, p.definitions[g], fuel - 1)
    case Binary(op, l, r) =>
      var a, b := Naive(p, l, fuel), Naive(p, r, fuel);
      if a.None? || b.None? then None else Some(p.apply(op, a.value, b.value))
    case IfElse(c, t, f) =>
      var v := Naive(p, c, fuel);
      if v.None? then None else if v.value != 0 then Naive(p, t, fuel) else Naive(p, f, fuel)
  }

  function NaiveDefinition(p: Program, d: Definition, fuel: nat): Maybe<int>
    decreases fuel, d
  {
    if d.Typed? && Naive(p, d.ty, fuel).None? then None else Naive(p, d.value, fuel)
  }

  /** The value of an expression; an expression that needs itself has none. */
  ghost predicate Means(p: Program, e: Expr, v: int) {
    exists fuel: nat :: Naive(p, e, fuel) == Some(v)
  }

  ghost predicate Defined(p: Program, e: Expr) {
    exists v :: Means(p, e, v)
  }

  lemma {:induction false} NaiveMore(p: Program, e: Expr, fuel: nat, more: nat)
    requires fuel <= more && Naive(p, e, fuel).Some?
    ensures Naive(p, e, more) == Naive(p, e, fuel)
    decreases fuel, e
  {
    match e
    case Number(_) =>
    case Global(g) =>
      var d := p.definitions[g];
      if d.Typed? { NaiveMore(p, d.ty, fuel - 1, more - 1); }
      NaiveMore(p, d.value, fuel - 1, more - 1);
    case Binary(_, l, r) =>
      NaiveMore(p, l, fuel, more);
      NaiveMore(p, r, fuel, more);
    case IfElse(c, t, f) =>
      NaiveMore(p, c, fuel, more);
      NaiveMore(p, if Naive(p, c, fuel).value != 0 then t else f, fuel, more);
  }

  lemma OneMeaning(p: Program, e: Expr, v: int, fuel: nat)
    requires Means(p, e, v) && Naive(p, e, fuel).Some?
    ensures Naive(p, e, fuel) == Some(v)
  {
    var k: nat :| Naive(p, e, k) == Some(v);
    if k <= fuel { NaiveMore(p, e, k, fuel); } else { NaiveMore(p, e, fuel, k); }
  }

  lemma BinaryMeans(p: Program, e: Expr, a: int, b: int)
    requires e.Binary? && Means(p, e.l, a) && Means(p, e.r, b)
    ensures Means(p, e, p.apply(e.op, a, b))
  {
    var i: nat :| Naive(p, e.l, i) == Some(a);
    var j: nat :| Naive(p, e.r, j) == Some(b);
    var k := i + j;
    NaiveMore(p, e.l, i, k);
    NaiveMore(p, e.r, j, k);
    assert Naive(p, e, k) == Some(p.apply(e.op, a, b));
  }

  lemma IfElseMeans(p: Program, e: Expr, a: int, b: int)
    requires e.IfElse? && Means(p, e.c, a) && Means(p, if a != 0 then e.t else e.f, b)
    ensures Means(p, e, b)
  {
    var branch := if a != 0 then e.t else e.f;
    var i: nat :| Naive(p, e.c, i) == Some(a);
    var j: nat :| Naive(p, branch, j) == Some(b);
    var k := i + j;
    NaiveMore(p, e.c, i, k);
    NaiveMore(p, branch, j, k);
    assert Naive(p, e, k) == Some(b);
  }

  lemma GlobalMeans(p: Program, g: nat, v: int)
    requires g < |p.definitions| && Means(p, p.definitions[g].value, v)
    requires p.definitions[g].Typed? ==> Defined(p, p.definitions[g].ty)
    ensures Means(p, Global(g), v)
  {
    var d := p.definitions[g];
    var i: nat :| Naive(p, d.value, i) == Some(v);
    var k := i;
    if d.Typed? {
      var w :| Means(p, d.ty, w);
      var j: nat :| Naive(p, d.ty, j) == Some(w);
      k := i + j;
      NaiveMore(p, d.ty, j, k);
    }
    NaiveMore(p, d.value, i, k);
    assert Naive(p, Global(g), k + 1) == Some(v);
  }

  // ---------- The meaning with memory ----------

  /** `left` is the temporary data that the evaluation leaves behind. */
  datatype Demanded = Ok(memory: Memory, value: int, left: seq<int>) | Cycle

  ghost predicate Fitting(p: Program, m: Memory) {
    Valid(p) && |m.status| == |p.definitions|
  }

  ghost predicate Grown(m: Memory, m': Memory) {
    && |m'.status| == |m.status| && Unbegun(m'.status) <= Unbegun(m.status) && m.started <= m'.started
    && (forall h | 0 <= h < |m.status| :: !m.status[h].Untouched? ==> m'.status[h] == m.status[h])
    && (forall h | 0 <= h < |m.status| :: m'.status[h].Pending? ==> m.status[h].Pending?)
  }

  lemma GrownTrans(a: Memory, b: Memory, c: Memory)
    requires Grown(a, b) && Grown(b, c)
    ensures Grown(a, c)
  {
  }

  // What is computed without a write context is temporary data.
  function Own(v: int, into: bool): seq<int> {
    if into then [] else [v]
  }

  function Completed(m: Memory, g: nat, v: int): Memory
    requires g < |m.status|
  {
    Memory(m.status[g := Complete(v)], m.started)
  }

  lemma CompletedGrown(m: Memory, m': Memory, g: nat, v: int)
    requires g < |m.status| && m.status[g].Untouched? && Grown(Begun(m, g), m')
    ensures Unbegun(Begun(m, g).status) < Unbegun(m.status)
    ensures Grown(m, Completed(m', g, v))
  {
    UnbegunUpdate(m.status, g, Pending(0));
    UnbegunUpdate(m'.status, g, Complete(v));
    hide Unbegun;
    assert m.started <= Begun(m, g).started;
  }

  /** The globals that are complete stay so, those being initialised stay pending, and those
      needed become complete; or the demand runs into a global that is being initialised. */
  function DemandExpr(p: Program, m: Memory, e: Expr, into: bool): (r: Demanded)
    requires Fitting(p, m) && InRange(e, |p.definitions|)
    ensures r.Ok? ==> Grown(m, r.memory)
    decreases Unbegun(m.status), 0, e, 1
  {
    match e
    case Number(n) => Ok(m, n, Own(n, into))
    case Global(g) => DemandGlobal(p, m, g)
    case Binary(op, l, r) =>
      (match DemandExpr(p, m, l, false)
       case Cycle => Cycle
       case Ok(m1, a, t1) =>
         (match DemandExpr(p, m1, r, false)
          case Cycle => Cycle
          case Ok(m2, b, t2) =>
            var v := p.apply(op, a, b);
            Ok(m2, v, t1 + t2 + Own(v, into))))
    case IfElse(c, t, f) =>
      (match DemandExpr(p, m, c, false)
       case Cycle => Cycle
       case Ok(m1, a, t1) =>
         (match DemandExpr(p, m1, if a != 0 then t else f, into)
          case Cycle => Cycle
          case Ok(m2, v, t2) => Ok(m2, v, t1 + t2)))
  }

  function DemandGlobal(p: Program, m: Memory, g: nat): (r: Demanded)
    requires Fitting(p, m) && g < |p.definitions|
    ensures r.Ok? ==> Grown(m, r.memory) && r.memory.status[g] == Complete(r.value)
    decreases Unbegun(m.status), 0, Global(g), 0
  {
    match m.status[g]
    case Complete(v) => Ok(m, v, [])
    case Pending(_) => Cycle
    case Untouched =>
      UnbegunUpdate(m.status, g, Pending(0));
      match DemandDefinition(p, Begun(m, g), p.definitions[g])
      case Cycle => Cycle
      case Ok(m', v, left) => CompletedGrown(m, m', g, v); Ok(Completed(m', g, v), v, left)
  }

  // The temporary data of a definition with a type does not stay.
  function DemandDefinition(p: Program, m: Memory, d: Definition): (r: Demanded)
    requires Fitting(p, m) && DefinitionInRange(d, |p.definitions|)
    ensures r.Ok? ==> Grown(m, r.memory)
    decreases Unbegun(m.status), 1
  {
    match d
    case Untyped(e) => DemandExpr(p, m, e, false)
    case Typed(ty, e) =>
      match DemandExpr(p, m, ty, false)
      case Cycle => Cycle
      case Ok(m1, _, _) =>
        match DemandExpr(p, m1, e, true)
        case Cycle => Cycle
        case Ok(m2, v, _) => Ok(m2, v, [])
  }

  // ---------- The interpreter does what the demand says ----------

  lemma ExecStep(p: Program, s: State, s': State)
    requires Step(p, s) == Next(s')
    ensures Exec(p, s) == Exec(p, s')
  {
    hide Step;
  }

  lemma CircularStep(p: Program, s: State)
    requires Step(p, s) == Circular
    ensures Exec(p, s) == Circular
  {
    hide Step;
  }

  // What is left to do is `rest`, and `r` has been computed meanwhile.
  function Landed(s: State, r: Demanded, rest: seq<Instr>): State
    requires r.Ok?
  {
    s.(code := rest, memory := r.memory, temps := s.temps + r.left)
  }

  function Delivered(s: State, r: Demanded, rest: seq<Instr>, into: bool): State
    requires r.Ok? && (into ==> CanStore(Landed(s, r, rest)))
  {
    var s1 := Landed(s, r, rest);
    if into then Stored(s1, r.value) else s1.(values := s.values + [r.value])
  }

  lemma StillStores(s: State, r: Demanded, rest: seq<Instr>)
    requires CanStore(s) && r.Ok? && Grown(s.memory, r.memory)
    ensures CanStore(Landed(s, r, rest))
  {
  }

  // The machine is about to compute `e`.
  ghost predicate AtExpr(p: Program, s: State, e: Expr, into: bool, rest: seq<Instr>) {
    && Fitting(p, s.memory) && InRange(e, |p.definitions|)
    && s.code == Code(e, into) + rest && (into ==> CanStore(s))
  }

  ghost predicate Computes(p: Program, s: State, r: Demanded, rest: seq<Instr>, into: bool) {
    if r.Cycle? then Exec(p, s) == Circular
    else (into ==> CanStore(Landed(s, r, rest))) && Exec(p, s) == Exec(p, Delivered(s, r, rest, into))
  }

  /** The code of an expression delivers the value, leaves the temporary data, and changes
      nothing else; with a global that needs itself the run ends in an error. */
  lemma {:induction false} RunExpr(p: Program, s: State, e: Expr, into: bool, rest: seq<Instr>)
    requires AtExpr(p, s, e, into, rest)
    ensures Computes(p, s, DemandExpr(p, s.memory, e, into), rest, into)
    decreases Unbegun(s.memory.status), 0, e, 2
  {
    match e
    case Number(n) => RunNumber(p, s, n, into, rest);
    case Global(g) => RunLoad(p, s, g, into, rest);
    case Binary(_, _, _) => RunBinary(p, s, e, into, rest);
    case IfElse(_, _, _) => RunIfElse(p, s, e, into, rest);
  }

  lemma RunNumber(p: Program, s: State, n: int, into: bool, rest: seq<Instr>)
    requires AtExpr(p, s, Number(n), into, rest)
    ensures Computes(p, s, Ok(s.memory, n, Own(n, into)), rest, into)
  {
    hide Exec;
    var r := Ok(s.memory, n, Own(n, into));
    assert s.code[0] == Value(n, into) && s.code[1..] == rest;
    if into { StillStores(s, r, rest); }
    assert s.temps + [] == s.temps;
    ExecStep(p, s, Delivered(s, r, rest, into));
  }

  lemma {:induction false} RunBinary(p: Program, s: State, e: Expr, into: bool, rest: seq<Instr>)
    requires e.Binary? && AtExpr(p, s, e, into, rest)
    ensures Computes(p, s, DemandExpr(p, s.memory, e, into), rest, into)
    decreases Unbegun(s.memory.status), 0, e, 1
  {
    hide Exec, Step, Unbegun;
    var after := [Apply(e.op, into)] + rest;
    var rest1 := Code(e.r, false) + after;
    assert Code(e, into) + rest == Code(e.l, false) + rest1;
    RunExpr(p, s, e.l, false, rest1);
    var r1 := DemandExpr(p, s.memory, e.l, false);
    if r1.Ok? {
      var s1 := Delivered(s, r1, rest1, false);
      RunExpr(p, s1, e.r, false, after);
      var r2 := DemandExpr(p, r1.memory, e.r, false);
      if r2.Ok? {
        var s2 := Delivered(s1, r2, after, false);
        GrownTrans(s.memory, r1.memory, r2.memory);
        ApplyStep(p, s, s2, e.op, r1, r2, into, rest);
      }
    }
  }

  lemma ApplyStep(p: Program, s: State, s2: State, op: nat, r1: Demanded, r2: Demanded, into: bool, rest: seq<Instr>)
    requires r1.Ok? && r2.Ok? && (into ==> CanStore(s)) && Grown(s.memory, r2.memory)
    requires s2 == s.(code := [Apply(op, into)] + rest, memory := r2.memory, temps := s.temps + r1.left + r2.left,
                      values := s.values + [r1.value] + [r2.value])
    ensures var v := p.apply(op, r1.value, r2.value);
      var r := Ok(r2.memory, v, r1.left + r2.left + Own(v, into));
      (into ==> CanStore(Landed(s, r, rest))) && Exec(p, s2) == Exec(p, Delivered(s, r, rest, into))
  {
    hide Exec, Unbegun;
    var v := p.apply(op, r1.value, r2.value);
    var r := Ok(r2.memory, v, r1.left + r2.left + Own(v, into));
    if into { StillStores(s, r, rest); }
    assert s2.code[0] == Apply(op, into) && s2.code[1..] == rest;
    assert s2.values[..|s.values|] == s.values;
    assert s.temps + r.left == s.temps + r1.left + r2.left + Own(v, into);
    assert s.temps + r1.left + r2.left + [] == s.temps + r1.left + r2.left;
    ExecStep(p, s2, Delivered(s, r, rest, into));
  }

  lemma {:induction false} RunIfElse(p: Program, s: State, e: Expr, into: bool, rest: seq<Instr>)
    requires e.IfElse? && AtExpr(p, s, e, into, rest)
    ensures Computes(p, s, DemandExpr(p, s.memory, e, into), rest, into)
    decreases Unbegun(s.memory.status), 0, e, 1
  {
    hide Exec, Step, Unbegun;
    var t, f := Code(e.t, into) + [EndCode], Code(e.f, into) + [EndCode];
    var rest1 := [Branch(t, f)] + rest;
    assert Code(e, into) + rest == Code(e.c, false) + rest1;
    RunExpr(p, s, e.c, false, rest1);
    var r1 := DemandExpr(p, s.memory, e.c, false);
    if r1.Ok? {
      var s1 := Delivered(s, r1, rest1, false);
      var branch := if r1.value != 0 then e.t else e.f;
      var s2 := s.(code := Code(branch, into) + [EndCode], memory := r1.memory, temps := s.temps + r1.left,
                   activations := s.activations + [rest]);
      BranchStep(p, s, s1, s2, t, f, r1, rest);
      if into { StillStores(s, r1, rest); }
      RunExpr(p, s2, branch, into, [EndCode]);
      var r2 := DemandExpr(p, r1.memory, branch, into);
      if r2.Ok? {
        GrownTrans(s.memory, r1.memory, r2.memory);
        BranchEnd(p, s, s2, r1, r2, into, rest);
      }
    }
  }

  lemma BranchStep(p: Program, s: State, s1: State, s2: State, t: seq<Instr>, f: seq<Instr>, r1: Demanded,
                   rest: seq<Instr>)
    requires r1.Ok? && s1 == Delivered(s, r1, [Branch(t, f)] + rest, false)
    requires s2 == s.(code := if r1.value != 0 then t else f, memory := r1.memory, temps := s.temps + r1.left,
                      activations := s.activations + [rest])
    ensures Exec(p, s1) == Exec(p, s2)
  {
    hide Exec;
    assert s1.code[0] == Branch(t, f) && s1.code[1..] == rest && Front(s1.values) == s.values;
    ExecStep(p, s1, s2);
  }

  lemma BranchEnd(p: Program, s: State, s2: State, r1: Demanded, r2: Demanded, into: bool, rest: seq<Instr>)
    requires r1.Ok? && r2.Ok? && (into ==> CanStore(s)) && Grown(s.memory, r2.memory)
    requires s2
      == s.(code := s2.code, memory := r1.memory, temps := s.temps + r1.left, activations := s.activations + [rest])
    requires into ==> CanStore(Landed(s2, r2, [EndCode]))
    ensures var r := Ok(r2.memory, r2.value, r1.left + r2.left);
      && (into ==> CanStore(Landed(s, r, rest)))
      && Exec(p, Delivered(s2, r2, [EndCode], into)) == Exec(p, Delivered(s, r, rest, into))
  {
    hide Exec, Unbegun;
    var r := Ok(r2.memory, r2.value, r1.left + r2.left);
    if into { StillStores(s, r, rest); }
    var s3 := Delivered(s2, r2, [EndCode], into);
    assert s.temps + r1.left + r2.left == s.temps + r.left;
    assert Front(s3.activations) == s.activations;
    ExecStep(p, s3, Delivered(s, r, rest, into));
  }

  lemma {:induction false} RunLoad(p: Program, s: State, g: nat, into: bool, rest: seq<Instr>)
    requires AtExpr(p, s, Global(g), into, rest)
    ensures Computes(p, s, DemandGlobal(p, s.memory, g), rest, into)
    decreases Unbegun(s.memory.status), 0, Global(g), 1
  {
    hide Exec, Step, Unbegun, Grown, DemandGlobal;
    var r := DemandGlobal(p, s.memory, g);
    Retry(p, s, g, into, rest);
    if r.Ok? {
      LoadStep(p, s, g, into, rest, r);
    }
  }

  // A load that finds its value.
  lemma LoadStep(p: Program, s: State, g: nat, into: bool, rest: seq<Instr>, r: Demanded)
    requires AtExpr(p, s, Global(g), into, rest) && r.Ok? && Grown(s.memory, r.memory)
    requires r.memory.status[g] == Complete(r.value)
    ensures into ==> CanStore(Landed(s, r, rest))
    ensures Exec(p, Landed(s, r, s.code)) == Exec(p, Delivered(s, r, rest, into))
  {
    hide Exec, Unbegun;
    if into { StillStores(s, r, rest); }
    var s1 := Landed(s, r, s.code);
    assert s1.code[0] == Load(g, into) && s1.code[1..] == rest;
    assert s1.temps + [] == s1.temps;
    ExecStep(p, s1, Delivered(s, r, rest, into));
  }

  /** A load without a value runs the initializer and comes back to itself: the same instruction,
      the value stack, the write contexts, the activations and the running initializations as at
      the first attempt, and the temporary data that the initializers left on top of its own. */
  lemma {:induction false} Retry(p: Program, s: State, g: nat, into: bool, rest: seq<Instr>)
    requires AtExpr(p, s, Global(g), into, rest)
    ensures var r := DemandGlobal(p, s.memory, g);
      if r.Ok? then Exec(p, s) == Exec(p, Landed(s, r, s.code)) else Exec(p, s) == Circular
    decreases Unbegun(s.memory.status), 0, Global(g), 0
  {
    hide Exec, Step, Unbegun, Grown, DemandDefinition, Code, DefinitionCode;
    assert s.temps + [] == s.temps;
    if s.memory.status[g].Complete? {
      assert Landed(s, DemandGlobal(p, s.memory, g), s.code) == s;
    } else {
      var s1 := s.(code := InitializerCode(p, g), activations := s.activations + [s.code]);
      JumpStep(p, s, g, into, rest, s1);
      if s.memory.status[g].Pending? {
        PrepareStep(p, s1, g, s1);
      } else {
        var s2 := s1.(code := DefinitionCode(p.definitions[g]), memory := Begun(s.memory, g),
                      inits := s.inits + [Initialization(g, |s.temps|)]);
        PrepareStep(p, s1, g, s2);
        UnbegunUpdate(s.memory.status, g, Pending(0));
        RunDefinition(p, s, s2, g);
      }
    }
  }

  lemma JumpStep(p: Program, s: State, g: nat, into: bool, rest: seq<Instr>, s1: State)
    requires AtExpr(p, s, Global(g), into, rest) && !s.memory.status[g].Complete?
    requires s1 == s.(code := InitializerCode(p, g), activations := s.activations + [s.code])
    ensures Exec(p, s) == Exec(p, s1)
  {
    hide Exec, InitializerCode, Unbegun;
    assert s.code[0] == Load(g, into);
    ExecStep(p, s, s1);
  }

  lemma PrepareStep(p: Program, s1: State, g: nat, s2: State)
    requires g < |p.definitions| && s1.code == InitializerCode(p, g) && g < |s1.memory.status|
    requires !s1.memory.status[g].Complete?
    requires s2 == if s1.memory.status[g].Pending? then s1 else
      s1.(code := DefinitionCode(p.definitions[g]), memory := Begun(s1.memory, g),
          inits := s1.inits + [Initialization(g, |s1.temps|)])
    ensures Exec(p, s1) == if s1.memory.status[g].Pending? then Circular else Exec(p, s2)
  {
    hide Exec, DefinitionCode;
    assert s1.code[0] == Prepare(g) && s1.code[1..] == DefinitionCode(p.definitions[g]);
    if s1.memory.status[g].Pending? { CircularStep(p, s1); } else { ExecStep(p, s1, s2); }
  }

  // An initializer, begun in the state `s`, from behind its first instruction.
  lemma {:induction false} RunDefinition(p: Program, s: State, s2: State, g: nat)
    requires Fitting(p, s.memory) && g < |p.definitions| && s.memory.status[g].Untouched?
    requires s2 == s.(code := DefinitionCode(p.definitions[g]), activations := s.activations + [s.code],
                      memory := Begun(s.memory, g), inits := s.inits + [Initialization(g, |s.temps|)])
    ensures var r := DemandDefinition(p, s2.memory, p.definitions[g]);
      if r.Cycle? then Exec(p, s2) == Circular
      else Exec(p, s2) == Exec(p, s.(memory := Completed(r.memory, g, r.value), temps := s.temps + r.left))
    decreases Unbegun(s2.memory.status), 1
  {
    hide Exec, Step, Unbegun, DemandExpr, Code;
    assert s.temps + [] == s.temps;
    match p.definitions[g]
    case Untyped(e) =>
      var rest := [AllocUntyped, EndCode];
      RunExpr(p, s2, e, false, rest);
      var r := DemandExpr(p, s2.memory, e, false);
      if r.Ok? { UntypedEnd(p, s, s2, g, r); }
    case Typed(ty, e) =>
      var rest := Code(e, true) + [AllocComplete, EndCode];
      RunExpr(p, s2, ty, false, [AllocTyped] + rest);
      var r1 := DemandExpr(p, s2.memory, ty, false);
      if r1.Ok? {
        var s3 := s2.(code := rest, memory := r1.memory, temps := s.temps + r1.left,
          contexts := s.contexts + [Cell(g)]);
        AllocTypedStep(p, s, s2, g, r1, rest, s3);
        RunExpr(p, s3, e, true, [AllocComplete, EndCode]);
        var r2 := DemandExpr(p, r1.memory, e, true);
        if r2.Ok? {
          GrownTrans(s2.memory, r1.memory, r2.memory);
          TypedEnd(p, s, s3, g, r2);
        }
      }
  }

  lemma UntypedEnd(p: Program, s: State, s2: State, g: nat, r: Demanded)
    requires r.Ok? && g < |s.memory.status| && Grown(Begun(s.memory, g), r.memory)
    requires s2 == s.(code := s2.code, activations := s.activations + [s.code], memory := s2.memory,
                      inits := s.inits + [Initialization(g, |s.temps|)])
    ensures Exec(p, Delivered(s2, r, [AllocUntyped, EndCode], false))
         == Exec(p, s.(memory := Completed(r.memory, g, r.value), temps := s.temps + r.left))
  {
    hide Exec, Unbegun;
    var s3 := Delivered(s2, r, [AllocUntyped, EndCode], false);
    assert s3.code[1..] == [EndCode] && Front(s3.values) == s.values && Front(s3.inits) == s.inits;
    var s4 := s3.(code := [EndCode], memory := Completed(r.memory, g, r.value), values := s.values, inits := s.inits);
    ExecStep(p, s3, s4);
    assert Front(s4.activations) == s.activations;
    ExecStep(p, s4, s.(memory := s4.memory, temps := s.temps + r.left));
  }

  lemma AllocTypedStep(p: Program, s: State, s2: State, g: nat, r: Demanded, rest: seq<Instr>, s3: State)
    requires r.Ok? && g < |s.memory.status| && Grown(Begun(s.memory, g), r.memory)
    requires s2 == s.(code := s2.code, activations := s2.activations, memory := s2.memory,
                      inits := s.inits + [Initialization(g, |s.temps|)])
    requires s3 == s2.(code := rest, memory := r.memory, temps := s.temps + r.left, contexts := s.contexts + [Cell(g)])
    ensures Exec(p, Delivered(s2, r, [AllocTyped] + rest, false)) == Exec(p, s3) && CanStore(s3)
  {
    hide Exec, Unbegun;
    var s' := Delivered(s2, r, [AllocTyped] + rest, false);
    assert s'.code[1..] == rest && Front(s'.values) == s.values;
    ExecStep(p, s', s3);
  }

  lemma TypedEnd(p: Program, s: State, s3: State, g: nat, r: Demanded)
    requires r.Ok? && g < |s.memory.status| && Grown(Begun(s.memory, g), r.memory)
    requires s3 == s.(code := s3.code, activations := s.activations + [s.code], memory := s3.memory, temps := s3.temps,
                      inits := s.inits + [Initialization(g, |s.temps|)], contexts := s.contexts + [Cell(g)])
    requires s.temps <= s3.temps && CanStore(Landed(s3, r, [AllocComplete, EndCode]))
    ensures Exec(p, Delivered(s3, r, [AllocComplete, EndCode], true))
         == Exec(p, s.(memory := Completed(r.memory, g, r.value)))
  {
    hide Exec, Unbegun;
    var s4 := Delivered(s3, r, [AllocComplete, EndCode], true);
    assert Front(s3.contexts) == s.contexts && s4.code[1..] == [EndCode] && Front(s4.inits) == s.inits;
    assert s4.temps[..|s.temps|] == s.temps;
    assert s4.memory.status[g := Complete(r.value)] == r.memory.status[g := Complete(r.value)];
    var s5 := s4.(code := [EndCode], memory := Completed(r.memory, g, r.value), temps := s.temps, inits := s.inits);
    ExecStep(p, s4, s5);
    assert Front(s5.activations) == s.activations;
    ExecStep(p, s5, s.(memory := s5.memory));
  }
}
