/** Functions: creating them with their captured values, passing arguments, and returning. */
module Calls {
  import opened Basics
  import opened Lang
  import opened Machine
  import opened Coding
  import opened Relation
  import opened Steps
  import opened Blocks

  // ---------- Signatures ----------

  /** Steps taken, the data afterwards and the locations left. */
  datatype Sims = Sims(n: nat, d: Data, xs: seq<Loc>)

  function LeftAll(m: M, d: Data, xs: seq<Loc>): M {
    With(m, d).(values := m.values + xs)
  }

  ghost predicate OperandsRel(code: seq<Op>, scopes: seq<Scope>, env: Env, d: Data, start: nat, os: seq<Operand>,
                              xs: seq<Loc>) {
    |os| == |xs| && forall i | 0 <= i < |os| :: OperandRel(code, scopes, env, d, start, os[i], xs[i])
  }

  ghost predicate TypesSimulated(p: Program, pc: nat, env: Env, m: M, r: Result<seq<Operand>>, fuel: nat, end: int,
                                 s: Sims) {
    if r.Done? then
      && Keeps(p.code, m.scopes, m.closures, env, DataOf(m), r.env, s.d)
      && OperandsRel(p.code, m.scopes, r.env, s.d, |m.temps|, r.value, s.xs)
      && Reaches(p, pc, m, s.n, end, LeftAll(m, s.d, s.xs))
    else Cut(p, pc, m, r, fuel, s.n)
  }

  lemma TypesCut(p: Program, pc: nat, env: Env, m: M, r: Result<seq<Operand>>, fuel: nat, end: nat,
                 r1: Result<Operand>, end1: nat, s1: Sim)
    returns (s: Sims)
    requires !r1.Done? && Simulated(p, pc, env, m, Push, true, r1, fuel, end1, s1)
    requires r1.Error? ==> r.Error?
    requires r1.Timeout? ==> r.Timeout?
    requires r1.Undefined? ==> r.Undefined?
    ensures TypesSimulated(p, pc, env, m, r, fuel, end, s)
  {
    hide Run, Keeps;
    s := Sims(s1.n, s1.d, []);
  }

  // The operand of the return type.
  lemma TypesOne(p: Program, pc: nat, env: Env, m: M, r: Result<Operand>, fuel: nat, end: nat, s1: Sim)
    returns (s: Sims)
    requires r.Done? && Simulated(p, pc, env, m, Push, true, r, fuel, end, s1)
    ensures TypesSimulated(p, pc, env, m, Done([r.value], r.env), fuel, end, s)
  {
    hide Run, Keeps, Reaches, OperandRel;
    s := Sims(s1.n, s1.d, [s1.x]);
    assert After(m, s1) == LeftAll(m, s1.d, [s1.x]);
  }

  lemma TypesMore(p: Program, pc: nat, env: Env, m: M, r1: Result<Operand>, fuel: nat, mid: nat, s1: Sim,
                  r2: Result<seq<Operand>>, end: nat, s2: Sims)
    returns (s: Sims)
    requires r1.Done? && Simulated(p, pc, env, m, Push, true, r1, fuel, mid, s1)
    requires r2.Done? && TypesSimulated(p, mid, r1.env, After(m, s1), r2, fuel, end, s2)
    ensures TypesSimulated(p, pc, env, m, Done([r1.value] + r2.value, r2.env), fuel, end, s)
  {
    hide Run, Keeps, Reaches, OperandRel, Rel, SimulatedFrom;
    OperandLeft(p, pc, env, m, r1, fuel, mid, s1);
    KeepsTrans(p.code, m.scopes, m.closures, env, DataOf(m), r1.env, s1.d, r2.env, s2.d);
    TempsGrow(p.code, m.scopes, m.closures, env, DataOf(m), r1.env, s1.d);
    var os, xs := [r1.value] + r2.value, [s1.x] + s2.xs;
    OperandKept(p.code, m.scopes, m.closures, r1.env, s1.d, r2.env, s2.d, |m.temps|, r1.value, s1.x);
    forall i | 0 <= i < |os|
      ensures OperandRel(p.code, m.scopes, r2.env, s2.d, |m.temps|, os[i], xs[i])
    {
      if i > 0 {
        OperandOlder(p.code, m.scopes, r2.env, s2.d, |s1.d.temps|, |m.temps|, r2.value[i - 1], s2.xs[i - 1]);
      }
    }
    s := Sims(s1.n + s2.n, s2.d, xs);
    var m1 := LeftAll(After(m, s1), s2.d, s2.xs);
    assert m1 == LeftAll(m, s2.d, xs) by { assert (m.values + [s1.x]) + s2.xs == m.values + xs; }
    Then(p, pc, m, s1.n, mid, After(m, s1), s2.n, end, m1);
  }

  lemma TypesMoreCut(p: Program, pc: nat, env: Env, m: M, r1: Result<Operand>, fuel: nat, mid: nat, s1: Sim,
                     r2: Result<seq<Operand>>, end: nat, s2: Sims)
    returns (s: Sims)
    requires r1.Done? && Simulated(p, pc, env, m, Push, true, r1, fuel, mid, s1)
    requires !r2.Done? && TypesSimulated(p, mid, r1.env, After(m, s1), r2, fuel, end, s2)
    ensures TypesSimulated(p, pc, env, m, r2, fuel, end, s)
  {
    hide Run, Keeps, Reaches, OperandRel, Cut;
    ThenCut(p, pc, m, s1.n, mid, After(m, s1), r2, fuel, fuel, s2.n);
    s := s2.(n := s1.n + s2.n);
  }

  // The contents of the operands on top of the values.
  lemma TopContents(code: seq<Op>, m: M, env: Env, d: Data, os: seq<Operand>, xs: seq<Loc>) returns (vs: seq<W>)
    requires Rel(code, env, m.scopes, m.closures, d.members)
    requires OperandsRel(code, m.scopes, env, d, |m.temps|, os, xs)
    ensures AllReadable(env, os) && ValuesOk(LeftAll(m, d, xs), |xs|)
    ensures vs == TopValues(LeftAll(m, d, xs), |xs|) && |vs| == |os|
    ensures forall i | 0 <= i < |os| :: ValueRel(code, Read(env, os[i]), vs[i])
    ensures DropValues(LeftAll(m, d, xs), |xs|) == With(m, d)
  {
    hide Rel, OperandRel, ValueRel, At, LocOk, Read, Readable;
    var m1 := LeftAll(m, d, xs);
    forall i | 0 <= i < |os|
      ensures Readable(env, os[i]) && m1.values[|m.values| + i] == xs[i] && LocOk(m1, xs[i])
      ensures ValueRel(code, Read(env, os[i]), At(m1, xs[i]).val)
    {
      OperandAt(code, m, env, d, |m.temps|, os[i], xs[i]);
      SameLocation(With(m, d), m1, xs[i]);
    }
    forall i | |m1.values| - |xs| <= i < |m1.values|
      ensures LocOk(m1, m1.values[i])
    {
      assert m1.values[|m.values| + (i - |m.values|)] == xs[i - |m.values|];
    }
    vs := TopValues(m1, |xs|);
    assert m1.values[..|m.values|] == m.values;
  }

  lemma TypesAllAgree(code: seq<Op>, env: Env, os: seq<Operand>, vs: seq<W>)
    requires AllReadable(env, os) && |vs| == |os|
    requires forall i | 0 <= i < |os| :: ValueRel(code, Read(env, os[i]), vs[i])
    ensures AllTypes(env, os) == AllVType(vs)
    ensures AllTypes(env, os) ==> forall i | 0 <= i < |os| :: Read(env, os[i]).ty == vs[i].ty
  {
    hide ValueRel;
    forall i | 0 <= i < |os|
      ensures Read(env, os[i]).VType? == vs[i].VType? && (vs[i].VType? ==> Read(env, os[i]).ty == vs[i].ty)
    {
      VTypeAgrees(code, Read(env, os[i]), vs[i]);
    }
  }

  // ---------- Creating a function ----------

  // The new signature, on top of the values.
  function SignatureCell(params: seq<ParamType>, ret: Type): Cell<nat> {
    Cell(TType, true, VType(TFunc(params, ret)))
  }

  function WithSignature(d: Data, params: seq<ParamType>, ret: Type): Data {
    d.(temps := d.temps + [SignatureCell(params, ret)])
  }

  lemma SignatureStep(p: Program, pc: nat, m: M, env: Env, d: Data, os: seq<Operand>, xs: seq<Loc>, muts: seq<bool>)
    requires OpAt(p.code, pc, MakeSignature(muts)) && |os| == |muts| + 1
    requires Rel(p.code, env, m.scopes, m.closures, d.members)
    requires OperandsRel(p.code, m.scopes, env, d, |m.temps|, os, xs)
    ensures AllReadable(env, os)
    ensures Step(p.code, p.globals, pc, LeftAll(m, d, xs))
         == if !AllTypes(env, os) then Fault
            else
              var params, ret := ParamTypes(env, os, muts), Read(env, os[|muts|]).ty;
              Next(pc + 1, LeftAll(m, WithSignature(d, params, ret), [TempLoc(|d.temps|)]))
  {
    hide Rel, OperandRel, ValueRel, Step;
    var m1 := LeftAll(m, d, xs);
    var vs := TopContents(p.code, m, env, d, os, xs);
    TypesAllAgree(p.code, env, os, vs);
    StepPlain(p, pc, m1, MakeSignature(muts));
    assert Step(p.code, p.globals, pc, m1) == StepSignature(pc + 1, m1, muts);
    if AllTypes(env, os) {
      assert ParamTypes(env, os, muts)
          == seq(|muts|, i requires 0 <= i < |muts| => ParamType(vs[i].ty, muts[i]));
    }
  }

  function CaptureLoc(env: Env, m: M, c: Capture): Loc
    requires Readable(env, CaptureOperand(env, c)) && |env.scopes| <= |m.scopes|
    requires env.closure != [] ==> |m.closures| > 0 && |Top(m.closures)| == |env.closure|
  {
    match c
    case FromClosure(slot) => FixedLoc(Top(m.closures)[slot])
    case FromScope(out, rank) => Member(First(env, m.scopes, |env.scopes| - 1 - out) + rank)
  }

  function CaptureLocs(env: Env, m: M, captures: seq<Capture>): (xs: seq<Loc>)
    requires CapturesReadable(env, captures) && |env.scopes| <= |m.scopes|
    requires env.closure != [] ==> |m.closures| > 0 && |Top(m.closures)| == |env.closure|
  {
    seq(|captures|, i requires 0 <= i < |captures| => CaptureLoc(env, m, captures[i]))
  }

  lemma CaptureRel(p: Program, m: M, env: Env, d: Data, c: Capture)
    requires Rel(p.code, env, m.scopes, m.closures, d.members) && Readable(env, CaptureOperand(env, c))
    ensures OperandRel(p.code, m.scopes, env, d, |m.temps|, CaptureOperand(env, c), CaptureLoc(env, m, c))
  {
    hide ScopeRel;
  }

  lemma CaptureStep(p: Program, pc: nat, m: M, env: Env, d: Data, c: Capture, m1: M)
    requires OpAt(p.code, pc, CaptureOp(c))
    requires Rel(p.code, env, m.scopes, m.closures, d.members) && Readable(env, CaptureOperand(env, c))
    requires m1.scopes == m.scopes && m1.closures == m.closures && m1.members == d.members
    ensures Step(p.code, p.globals, pc, m1) == Next(pc + 1, m1.(values := m1.values + [CaptureLoc(env, m, c)]))
  {
    hide ValueRel;
    StepPlain(p, pc, m1, CaptureOp(c));
    var o := CaptureOperand(env, c);
    if o.Place? {
      assert ScopeRel(p.code, env.scopes[o.scope], First(env, m.scopes, o.scope), d.members);
    }
  }

  // The captured values are loaded one after the other.
  lemma {:induction false} CapturesRun(p: Program, pc: nat, m: M, env: Env, d: Data, captures: seq<Capture>, k: nat,
                                       m1: M)
    requires k <= |captures| && CapturesCoded(p.code, pc, captures) && CapturesReadable(env, captures)
    requires Rel(p.code, env, m.scopes, m.closures, d.members)
    requires m1.scopes == m.scopes && m1.closures == m.closures && m1.members == d.members
    ensures Reaches(p, pc, m1, k, pc + k, m1.(values := m1.values + CaptureLocs(env, m, captures)[..k]))
  {
    hide Rel, ScopeRel, CaptureOperand, CaptureOp, CaptureLoc, Run, Step, Readable;
    RelClosures(p.code, env, m, d);
    var xs := CaptureLocs(env, m, captures);
    if k == 0 {
      Here(p, pc, m1);
      assert m1.values + xs[..0] == m1.values;
    } else {
      CapturesRun(p, pc, m, env, d, captures, k - 1, m1);
      var m2 := m1.(values := m1.values + xs[..k - 1]);
      assert OpAt(p.code, pc + (k - 1), CaptureOp(captures[k - 1]));
      CaptureStep(p, pc + k - 1, m, env, d, captures[k - 1], m2);
      assert m2.values + [xs[k - 1]] == m1.values + xs[..k] by { assert xs[..k] == xs[..k - 1] + [xs[k - 1]]; }
      ThenStep(p, pc, m1, k - 1, pc + k - 1, m2);
    }
  }

  lemma RelClosures(code: seq<Op>, env: Env, m: M, d: Data)
    requires Rel(code, env, m.scopes, m.closures, d.members)
    ensures |env.scopes| <= |m.scopes|
    ensures env.closure != [] ==> |m.closures| > 0 && |Top(m.closures)| == |env.closure|
  {
    hide ScopeRel;
  }

  // One captured value, with the values left for the closure.
  lemma CaptureContent(p: Program, m: M, env: Env, d: Data, captures: seq<Capture>, x: Loc, m1: M, i: nat)
    requires Rel(p.code, env, m.scopes, m.closures, d.members) && CapturesReadable(env, captures) && i < |captures|
    requires |env.scopes| <= |m.scopes|
    requires env.closure != [] ==> |m.closures| > 0 && |Top(m.closures)| == |env.closure|
    requires m1 == LeftAll(m, d, [x]).(values := m.values + [x] + CaptureLocs(env, m, captures))
    ensures m1.values[|m.values| + 1 + i] == CaptureLocs(env, m, captures)[i]
    ensures LocOk(m1, CaptureLocs(env, m, captures)[i])
    ensures Readable(env, CaptureOperand(env, captures[i]))
    ensures ValueRel(p.code, Read(env, CaptureOperand(env, captures[i])), At(m1, CaptureLocs(env, m, captures)[i]).val)
  {
    hide Rel, OperandRel, ValueRel, At, LocOk, CaptureLoc, CaptureOperand, Read, Readable;
    var x' := CaptureLocs(env, m, captures)[i];
    CaptureRel(p, m, env, d, captures[i]);
    OperandAt(p.code, m, env, d, |m.temps|, CaptureOperand(env, captures[i]), x');
    SameLocation(With(m, d), m1, x');
  }

  // The signature and the captured values, on top of the values.
  lemma CaptureContents(p: Program, m: M, env: Env, d: Data, captures: seq<Capture>, x: Loc, m1: M) returns (ws: seq<W>)
    requires Rel(p.code, env, m.scopes, m.closures, d.members) && CapturesReadable(env, captures)
    requires LocOk(With(m, d), x)
    requires |env.scopes| <= |m.scopes|
    requires env.closure != [] ==> |m.closures| > 0 && |Top(m.closures)| == |env.closure|
    requires m1 == LeftAll(m, d, [x]).(values := m.values + [x] + CaptureLocs(env, m, captures))
    ensures ValuesOk(m1, |captures| + 1)
    ensures TopValues(m1, |captures| + 1) == [At(With(m, d), x).val] + ws
    ensures |ws| == |captures| && forall i | 0 <= i < |ws| :: ValueRel(p.code, Captured(env, captures)[i], ws[i])
    ensures DropValues(m1, |captures| + 1) == With(m, d)
  {
    hide Rel, OperandRel, ValueRel, At, LocOk, CaptureLoc, CaptureOperand, Read, Readable;
    var k := |m.values|;
    var xs := CaptureLocs(env, m, captures);
    SameLocation(With(m, d), m1, x);
    assert m1.values[k] == x;
    forall i | 0 <= i < |captures|
      ensures m1.values[k + 1 + i] == xs[i] && LocOk(m1, xs[i])
      ensures ValueRel(p.code, Captured(env, captures)[i], At(m1, xs[i]).val)
    {
      CaptureContent(p, m, env, d, captures, x, m1, i);
    }
    forall i | k <= i < |m1.values|
      ensures LocOk(m1, m1.values[i])
    {
      if i > k { assert m1.values[k + 1 + (i - k - 1)] == xs[i - k - 1]; }
    }
    ws := TopSplit(m1, k, |captures|);
    assert m1.values[..k] == m.values;
  }

  lemma TopSplit(m: M, k: nat, n: nat) returns (ws: seq<W>)
    requires |m.values| == k + 1 + n && forall i | k <= i < |m.values| :: LocOk(m, m.values[i])
    ensures ValuesOk(m, n + 1) && TopValues(m, n + 1) == [At(m, m.values[k]).val] + ws
    ensures |ws| == n && forall i | 0 <= i < n :: ws[i] == At(m, m.values[k + 1 + i]).val
  {
    hide At, LocOk;
    var vs := TopValues(m, n + 1);
    ws := vs[1..];
    assert vs == [vs[0]] + ws;
  }

  lemma BindBodyStep(p: Program, pc: nat, m1: M, into: bool, body: nat, params: seq<ParamType>, ret: Type, ws: seq<W>)
    requires OpAt(p.code, pc, BindBody(into, body, |ws|)) && (into ==> |m1.ctxs| > 0)
    requires ValuesOk(m1, |ws| + 1) && TopValues(m1, |ws| + 1) == [VType(TFunc(params, ret))] + ws
    ensures Step(p.code, p.globals, pc, m1)
         == PutTemporary(pc + 1, Consumed(DropValues(m1, |ws| + 1), into), Target(m1, into),
             VFunc(params, ret, body, ws))
  {
    hide PutTemporary, At;
    StepInto(p, pc, m1, BindBody(into, body, |ws|), into);
    var m2 := Consumed(m1, into);
    forall i | |m2.values| - (|ws| + 1) <= i < |m2.values|
      ensures LocOk(m2, m2.values[i]) && At(m2, m2.values[i]) == At(m1, m1.values[i])
    {
      SameLocation(m1, m2, m1.values[i]);
    }
    assert TopValues(m2, |ws| + 1) == TopValues(m1, |ws| + 1);
  }

  // The parts of the code that creates a function.
  lemma FuncReady(p: Program, e: Expr, pc: nat, env: Env, m: M, mode: Mode, vs: nat, cs: nat) returns (body: nat)
    requires e.Func? && Ready(p, e, pc, env, m, mode, vs, cs)
    ensures SignatureCoded(p.code, {}, pc, e.signature) && SignatureSound(e.signature, vs, cs)
    ensures var at := pc + SignatureLen(e.signature) + 1;
      var bind := at + |e.captures|;
      && OpAt(p.code, at - 1, MakeSignature(ParamMuts(e.signature)))
      && CapturesCoded(p.code, at, e.captures)
      && OpAt(p.code, bind, BindBody(mode.Into?, body, |e.captures|))
      && pc + Len(e, mode.Into?) == bind + 1
    ensures SegmentCoded(p.code, {}, body, FunctionBody(e.body, |e.captures| != 0)) && Sound(e.body, true, 0, 1)
  {
    hide Rel, SegmentCoded, SignatureCoded, SignatureSound, CapturesCoded, Filled, InContext;
    assert FuncCoded(p.code, {}, pc, e, mode.Into?);
    var bind := pc + SignatureLen(e.signature) + 1 + |e.captures|;
    body := p.code[bind].body;
    NoHole(p.code, bind, 0, body, FunctionBody(e.body, |e.captures| != 0));
  }

  // The captured values, then the function value.
  lemma FuncBound(p: Program, e: Expr, pc: nat, env: Env, m: M, mode: Mode, fuel: nat, a: nat, at: nat, env1: Env,
                  d: Data,
                  x: Loc, params: seq<ParamType>, ret: Type, body: nat)
    returns (s: Sim)
    requires e.Func? && InContext(m, mode) && Keeps(p.code, m.scopes, m.closures, env, DataOf(m), env1, d)
    requires LocOk(With(m, d), x) && At(With(m, d), x).val == VType(TFunc(params, ret))
    requires Reaches(p, pc, m, a, at, LeftAll(m, d, [x]))
    requires CapturesCoded(p.code, at, e.captures)
    requires OpAt(p.code, at + |e.captures|, BindBody(mode.Into?, body, |e.captures|))
    requires SegmentCoded(p.code, {}, body, FunctionBody(e.body, |e.captures| != 0)) && Sound(e.body, true, 0, 1)
    requires CapturesReadable(env1, e.captures)
    ensures Simulated(p, pc, env, m, mode, true, Finish(VFunc(params, ret, e.body, Captured(env1, e.captures)), env1,
        mode), fuel,
                      at + |e.captures| + 1, s)
  {
    hide Run, Step, Rel, Keeps, OperandRel, Cut, SegmentCoded, Sound, Finish, CapturesCoded, PutTemporary,
         SimulatedFrom, At, LocOk;
    KeepsRel(p.code, m.scopes, m.closures, env, DataOf(m), env1, d);
    var m1 := LeftAll(m, d, [x]);
    CapturesRun(p, at, m, env1, d, e.captures, |e.captures|, m1);
    RelClosures(p.code, env1, m, d);
    var locs := CaptureLocs(env1, m, e.captures);
    assert locs[..|e.captures|] == locs;
    var m2 := m1.(values := m.values + [x] + locs);
    Then(p, pc, m, a, at, m1, |e.captures|, at + |e.captures|, m2);
    var ws := CaptureContents(p, m, env1, d, e.captures, x, m2);
    BindBodyStep(p, at + |e.captures|, m2, mode.Into?, body, params, ret, ws);
    FuncRel(p.code, params, ret, e.body, Captured(env1, e.captures), body, ws);
    s := Finishing(p, pc, env, m, mode, fuel, a + |e.captures|, at + |e.captures|, m2, env1, d,
                   VFunc(params, ret, e.body, Captured(env1, e.captures)), VFunc(params, ret, body, ws),
                     at + |e.captures| + 1);
  }

  lemma FuncRel(code: seq<Op>, params: seq<ParamType>, ret: Type, e: Expr, vs: seq<V>, body: nat, ws: seq<W>)
    requires SegmentCoded(code, {}, body, FunctionBody(e, |vs| != 0)) && Sound(e, true, 0, 1)
    requires |ws| == |vs| && forall i | 0 <= i < |vs| :: ValueRel(code, vs[i], ws[i])
    ensures ValueRel(code, VFunc(params, ret, e, vs), VFunc(params, ret, body, ws))
  {
    hide SegmentCoded, Sound;
  }

  // From the operands of the signature to the function value.
  lemma FuncMade(p: Program, e: Expr, pc: nat, env: Env, m: M, mode: Mode, fuel: nat, r: Result<seq<Operand>>,
                 s1: Sims, body: nat)
    returns (s: Sim)
    requires e.Func? && InContext(m, mode)
    requires r.Done? && TypesSimulated(p, pc, env, m, r, fuel, pc + SignatureLen(e.signature), s1)
    requires var at := pc + SignatureLen(e.signature) + 1;
      && OpAt(p.code, at - 1, MakeSignature(ParamMuts(e.signature)))
      && CapturesCoded(p.code, at, e.captures)
      && OpAt(p.code, at + |e.captures|, BindBody(mode.Into?, body, |e.captures|))
    requires SegmentCoded(p.code, {}, body, FunctionBody(e.body, |e.captures| != 0)) && Sound(e.body, true, 0, 1)
    requires AllReadable(r.env, r.value) && |r.value| == |ParamMuts(e.signature)| + 1
    requires AllTypes(r.env, r.value) && CapturesReadable(r.env, e.captures)
    ensures
      var muts := ParamMuts(e.signature);
      var v := VFunc(ParamTypes(r.env, r.value, muts), Read(r.env, r.value[|r.value| - 1]).ty, e.body, Captured(r.env,
        e.captures));
      Simulated(p, pc, env, m, mode, true, Finish(v, r.env, mode), fuel,
          pc + SignatureLen(e.signature) + 1 + |e.captures| + 1, s)
  {
    hide Run, Step, Rel, Keeps, OperandRel, Cut, SegmentCoded, Sound, Finish, CapturesCoded, OperandsRel, InContext,
         SimulatedFrom,
         SignatureLen, OpAt;
    var env1, os := r.env, r.value;
    var at := pc + SignatureLen(e.signature) + 1;
    var params, ret := ParamTypes(env1, os, ParamMuts(e.signature)), Read(env1, os[|os| - 1]).ty;
    KeepsRel(p.code, m.scopes, m.closures, env, DataOf(m), env1, s1.d);
    SignatureStep(p, at - 1, m, env1, s1.d, os, s1.xs, ParamMuts(e.signature));
    ThenStep(p, pc, m, s1.n, at - 1, LeftAll(m, s1.d, s1.xs));
    var d := WithSignature(s1.d, params, ret);
    KeepsTemps(p.code, m.scopes, m.closures, env, DataOf(m), env1, s1.d, [SignatureCell(params, ret)]);
    s := FuncBound(p, e, pc, env, m, mode, fuel, s1.n + 1, at, env1, d, TempLoc(|s1.d.temps|), params, ret, body);
  }

  lemma FuncNotTypes(p: Program, e: Expr, pc: nat, env: Env, m: M, mode: Mode, fuel: nat, r: Result<seq<Operand>>,
                     s1: Sims, end: nat)
    returns (s: Sim)
    requires e.Func?
    requires r.Done? && TypesSimulated(p, pc, env, m, r, fuel, pc + SignatureLen(e.signature), s1)
    requires OpAt(p.code, pc + SignatureLen(e.signature), MakeSignature(ParamMuts(e.signature)))
    requires AllReadable(r.env, r.value) && |r.value| == |ParamMuts(e.signature)| + 1 && !AllTypes(r.env, r.value)
    ensures Simulated(p, pc, env, m, mode, true, Error, fuel, end, s)
  {
    hide Run, Step, Rel, Keeps, OperandRel, OperandsRel, SimulatedFrom, SignatureLen;
    KeepsRel(p.code, m.scopes, m.closures, env, DataOf(m), r.env, s1.d);
    SignatureStep(p, pc + SignatureLen(e.signature), m, r.env, s1.d, r.value, s1.xs, ParamMuts(e.signature));
    s := Faults(p, pc, env, m, mode, true, fuel, end, s1.n, pc + SignatureLen(e.signature), LeftAll(m, s1.d, s1.xs));
  }

  lemma FuncCut(p: Program, pc: nat, env: Env, m: M, mode: Mode, fuel: nat, r: Result<seq<Operand>>, s1: Sims, mid: nat,
                r': Result<Operand>, end: nat)
    returns (s: Sim)
    requires !r.Done? && TypesSimulated(p, pc, env, m, r, fuel, mid, s1)
    requires r.Error? ==> r'.Error?
    requires r.Timeout? ==> r'.Timeout?
    requires r.Undefined? ==> r'.Undefined?
    ensures Simulated(p, pc, env, m, mode, true, r', fuel, end, s)
  {
    hide Run;
    s := Sim(s1.n, s1.d, FixedLoc(VVoid), VVoid);
  }

  // ---------- Arguments ----------

  // While arguments are passed: the callee `x` is on top of the values and the parameters
  // `cells` have received their arguments.
  function Passing(m: M, d: Data, x: Loc, cells: seq<Cell<nat>>, arguments: seq<nat>, params: seq<ParamType>,
      ret: Type): M {
    With(m, d).(
      members := d.members + cells,
      values := m.values + [x],
      callbacks := m.callbacks + arguments,
      packs := m.packs + [Pack(params, ret, |m.members|, |cells|, |arguments|)])
  }

  function EmptyParam(param: ParamType): Cell<nat> {
    Cell(param.ty, param.isMut, VVoid)
  }

  // While the next argument is evaluated into the parameter `c`.
  function PassingNext(m: M, d: Data, x: Loc, cells: seq<Cell<nat>>, c: Cell<nat>, arguments: seq<nat>,
                       params: seq<ParamType>, ret: Type): M {
    Passing(m, d, x, cells + [c], arguments, params, ret).(ctxs := m.ctxs + [Member(|d.members| + |cells|)])
  }

  datatype ArgsSim = ArgsSim(n: nat, d: Data, cells: seq<Cell<nat>>)

  ghost predicate ArgsSimulated(p: Program, pc: nat, env: Env, m: M, d: Data, x: Loc, cells: seq<Cell<nat>>,
                                arguments: seq<nat>,
                                params: seq<ParamType>, ret: Type, r: Result<seq<Cell<Expr>>>, fuel: nat, s: ArgsSim) {
    var m0 := Passing(m, d, x, cells, arguments, params, ret);
    if r.Done? then
      && Keeps(p.code, m.scopes, m.closures, env, d, r.env, s.d)
      && |s.cells| == |cells| + |r.value| && s.cells[..|cells|] == cells
      && (forall i | 0 <= i < |r.value| :: CellRel(p.code, r.value[i], s.cells[|cells| + i]))
      && Reaches(p, pc, m0, s.n, pc + 1, Passing(m, s.d, x, s.cells, arguments, params, ret))
    else Cut(p, pc, m0, r, fuel, s.n)
  }

  lemma PrepareStep(p: Program, pc: nat, m: M, d: Data, x: Loc, arguments: seq<nat>)
    requires OpAt(p.code, pc, PrepareArgs(arguments)) && LocOk(With(m, d), x) && |d.members| == |m.members|
    ensures Step(p.code, p.globals, pc, Left(With(m, d), true, x))
         == match At(With(m, d), x).ty
            case TFunc(params, ret) =>
              if |arguments| != |params| then Fault else Next(pc + 1, Passing(m, d, x, [], arguments, params, ret))
            case _ => Fault
  {
    var m1 := Left(With(m, d), true, x);
    StepPlain(p, pc, m1, PrepareArgs(arguments));
    SameLocation(m1, With(m, d), x);
    assert d.members + [] == d.members;
  }

  lemma ExecStep(p: Program, pc: nat, m: M, d: Data, x: Loc, cells: seq<Cell<nat>>, arguments: seq<nat>,
                 params: seq<ParamType>, ret: Type)
    requires OpAt(p.code, pc, ExecArgs) && |params| == |arguments| && |cells| <= |params|
    ensures Step(p.code, p.globals, pc, Passing(m, d, x, cells, arguments, params, ret))
         == if |cells| < |params| then
              Next(arguments[|cells|],
                   Activate(PassingNext(m, d, x, cells, EmptyParam(params[|cells|]), arguments, params, ret), pc))
            else Next(pc + 1, Passing(m, d, x, cells, arguments, params, ret))
  {
    var m1 := Passing(m, d, x, cells, arguments, params, ret);
    StepPlain(p, pc, m1, ExecArgs);
    var pack := Top(m1.packs);
    if |cells| < |params| {
      var c := EmptyParam(params[|cells|]);
      assert m1.callbacks[|m.callbacks| + |cells|] == arguments[|cells|];
      assert (d.members + cells) + [c] == d.members + (cells + [c]);
      assert Front(m1.packs) == m.packs;
    }
  }

  lemma NotOwnedBeyond(code: seq<Op>, env: Env, scopes: seq<Scope>, closures: seq<seq<W>>, members: seq<Cell<nat>>,
                       i: nat)
    requires Rel(code, env, scopes, closures, members) && i >= |members|
    ensures !Owned(env, scopes, i)
  {
    hide CellRel, ClosureRel;
    forall s | 0 <= s < |env.scopes|
      ensures First(env, scopes, s) + |env.scopes[s]| <= |members|
    {
      assert ScopeRel(code, env.scopes[s], First(env, scopes, s), members);
    }
  }

  lemma ArgReady(p: Program, e: Expr, pc: nat, env: Env, m: M, d: Data, x: Loc, cells: seq<Cell<nat>>, c: Cell<nat>,
                 arguments: seq<nat>, params: seq<ParamType>, ret: Type, back: nat)
    requires Rel(p.code, env, m.scopes, m.closures, d.members)
    requires Coded(p.code, {}, pc, e, true) && Sound(e, true, 0, 1)
    ensures Ready(p, e, pc, env, Activate(PassingNext(m, d, x, cells, c, arguments, params, ret), back), Into(c.ty), 0,
        1)
  {
    hide Rel, Coded, Sound;
    RelMore(p.code, env, m.scopes, m.closures, d.members, cells + [c]);
  }

  // Parameters that have received their arguments are not variables of the caller.
  lemma ParamsKept(code: seq<Op>, scopes: seq<Scope>, closures: seq<seq<W>>, env: Env, d: Data, more: seq<Cell<nat>>,
                   env1: Env, d1: Data)
    requires Rel(code, env, scopes, closures, d.members)
    requires Keeps(code, scopes, closures, env, Data(d.members + more, d.temps), env1, d1)
    ensures |d1.members| == |d.members| + |more| && d1.members[|d.members|..] == more
    ensures Keeps(code, scopes, closures, env, d, env1, Data(d1.members[..|d.members|], d1.temps))
  {
    KeepsCut(code, scopes, closures, env, d, more, env1, d1);
    hide Rel, Owned, SameShape;
    forall i | |d.members| <= i < |d1.members|
      ensures d1.members[i] == more[i - |d.members|]
    {
      NotOwnedBeyond(code, env, scopes, closures, d.members, i);
      assert (d.members + more)[i] == more[i - |d.members|];
    }
  }

  // The argument is stored and the next one is due.
  lemma ArgPassed(p: Program, e: Expr, pc: nat, env: Env, m: M, d: Data, x: Loc, cells: seq<Cell<nat>>, c: Cell<nat>,
                  arguments: seq<nat>, params: seq<ParamType>, ret: Type, back: nat, r: Result<Operand>, fuel: nat,
                      s1: Sim)
    returns (d2: Data, c': Cell<nat>)
    requires Rel(p.code, env, m.scopes, m.closures, d.members) && |d.members| == |m.members|
    requires r.Done? && Simulated(p, pc, env, Activate(PassingNext(m, d, x, cells, c, arguments, params, ret), back),
        Into(c.ty), Yields(e),
                                  r, fuel, pc + Len(e, true), s1)
    requires OpAt(p.code, pc + Len(e, true), EndCode)
    ensures r.value.Temp? && c'.ty == c.ty && CellRel(p.code, Cell(c.ty, c.isMut, r.value.v), c')
    ensures Keeps(p.code, m.scopes, m.closures, env, d, r.env, d2) && |d2.members| == |d.members|
    ensures Reaches(p, pc, Activate(PassingNext(m, d, x, cells, c, arguments, params, ret), back), s1.n + 1, back,
                    Passing(m, d2, x, cells + [c'], arguments, params, ret))
  {
    hide Run, Step, Rel, Keeps, ValueRel, Cut, Len, OpAt;
    var m0 := PassingNext(m, d, x, cells, c, arguments, params, ret);
    var m1 := Activate(m0, back);
    ValueStored(p, pc, env, m1, Into(c.ty), Yields(e), r, fuel, pc + Len(e, true), s1);
    var k := |d.members|;
    ParamsKept(p.code, m.scopes, m.closures, env, d, cells + [c], r.env, s1.d);
    d2 := Data(s1.d.members[..k], s1.d.temps);
    c' := Cell(c.ty, c.isMut, s1.w);
    var m2 := Passing(m, d2, x, cells + [c'], arguments, params, ret);
    ArgStoredState(m, d, x, cells, c, arguments, params, ret, back, s1.d, s1.w);
    StepEnd(p, pc + Len(e, true), m2, back, Activate(m2, back));
    ThenStep(p, pc, m1, s1.n, pc + Len(e, true), Activate(m2, back));
  }

  lemma ArgStoredState(m: M, d: Data, x: Loc, cells: seq<Cell<nat>>, c: Cell<nat>, arguments: seq<nat>,
                       params: seq<ParamType>,
                       ret: Type, back: nat, d1: Data, w: W)
    requires |d1.members| == |d.members| + |cells| + 1 && d1.members[|d.members|..] == cells + [c]
    ensures Stored(With(Activate(PassingNext(m, d, x, cells, c, arguments, params, ret), back), d1), w)
         == Activate(Passing(m, Data(d1.members[..|d.members|], d1.temps), x, cells + [Cell(c.ty, c.isMut, w)],
             arguments, params, ret), back)
  {
    var i := |d.members| + |cells|;
    assert d1.members[i] == c by { assert d1.members[|d.members|..][|cells|] == c; }
    assert d1.members == d1.members[..|d.members|] + (cells + [c]);
    assert d1.members[i := Cell(c.ty, c.isMut, w)] == d1.members[..|d.members|] + (cells + [Cell(c.ty, c.isMut, w)]);
    assert Front(m.ctxs + [Member(i)]) == m.ctxs;
  }

  lemma ArgsDone(p: Program, pc: nat, env: Env, m: M, d: Data, x: Loc, cells: seq<Cell<nat>>, arguments: seq<nat>,
                 params: seq<ParamType>, ret: Type, fuel: nat)
    returns (s: ArgsSim)
    requires OpAt(p.code, pc, ExecArgs) && |params| == |arguments| == |cells|
    requires Rel(p.code, env, m.scopes, m.closures, d.members)
    ensures ArgsSimulated(p, pc, env, m, d, x, cells, arguments, params, ret, Done([], env), fuel, s)
  {
    hide Run, Step, Rel, Keeps, ValueRel;
    var m0 := Passing(m, d, x, cells, arguments, params, ret);
    ExecStep(p, pc, m, d, x, cells, arguments, params, ret);
    Here(p, pc, m0);
    ThenStep(p, pc, m0, 0, pc, m0);
    KeepsRefl(p.code, m.scopes, m.closures, env, d);
    s := ArgsSim(1, d, cells);
  }

  lemma ArgsMore(p: Program, pc: nat, env: Env, m: M, d: Data, x: Loc, cells: seq<Cell<nat>>, arguments: seq<nat>,
                 params: seq<ParamType>, ret: Type, fuel: nat, a: nat, env1: Env, d1: Data, c: Cell<Expr>,
                     c': Cell<nat>,
                 r: Result<seq<Cell<Expr>>>, s1: ArgsSim)
    returns (s: ArgsSim)
    requires Reaches(p, pc, Passing(m, d, x, cells, arguments, params, ret), a, pc,
        Passing(m, d1, x, cells + [c'], arguments, params, ret))
    requires Keeps(p.code, m.scopes, m.closures, env, d, env1, d1) && CellRel(p.code, c, c')
    requires ArgsSimulated(p, pc, env1, m, d1, x, cells + [c'], arguments, params, ret, r, fuel, s1)
    ensures r.Done? ==>
      ArgsSimulated(p, pc, env, m, d, x, cells, arguments, params, ret, Done([c] + r.value, r.env), fuel, s)
    ensures !r.Done? ==> ArgsSimulated(p, pc, env, m, d, x, cells, arguments, params, ret, r, fuel, s)
  {
    hide Run, Step, Rel, Keeps, ValueRel, Passing, CellRel, Cut;
    s := s1.(n := a + s1.n);
    var m0, m1 := Passing(m, d, x, cells, arguments, params, ret), Passing(m, d1, x, cells + [c'], arguments, params,
      ret);
    if r.Done? {
      KeepsTrans(p.code, m.scopes, m.closures, env, d, env1, d1, r.env, s1.d);
      Then(p, pc, m0, a, pc, m1, s1.n, pc + 1, Passing(m, s1.d, x, s1.cells, arguments, params, ret));
      var cs := [c] + r.value;
      assert s.cells[..|cells|] == (cells + [c'])[..|cells|]
          == cells by { assert s.cells[..|cells| + 1][..|cells|] == s.cells[..|cells|]; }
      assert s.cells[|cells|] == c' by { assert s.cells[..|cells| + 1][|cells|] == c'; }
      forall i | 0 <= i < |cs|
        ensures CellRel(p.code, cs[i], s.cells[|cells| + i])
      {
        if i > 0 { assert s.cells[|cells + [c']| + (i - 1)] == s.cells[|cells| + i]; }
      }
    } else {
      ThenCut(p, pc, m0, a, pc, m1, r, fuel, fuel, s1.n);
    }
  }

  lemma ArgsCut(p: Program, pc: nat, env: Env, m: M, d: Data, x: Loc, cells: seq<Cell<nat>>, arguments: seq<nat>,
                params: seq<ParamType>, ret: Type, fuel: nat, a: nat, pc1: nat, env1: Env, m1: M, mode1: Mode,
                    leaves1: bool,
                r: Result<Operand>, end1: nat, s1: Sim, r': Result<seq<Cell<Expr>>>)
    returns (s: ArgsSim)
    requires Reaches(p, pc, Passing(m, d, x, cells, arguments, params, ret), a, pc1, m1)
    requires !r.Done? && Simulated(p, pc1, env1, m1, mode1, leaves1, r, fuel, end1, s1)
    requires r.Error? ==> r'.Error?
    requires r.Timeout? ==> r'.Timeout?
    requires r.Undefined? ==> r'.Undefined?
    ensures ArgsSimulated(p, pc, env, m, d, x, cells, arguments, params, ret, r', fuel, s)
  {
    hide Run, Keeps, Passing;
    assert Cut(p, pc1, m1, r', fuel, s1.n);
    ThenCut(p, pc, Passing(m, d, x, cells, arguments, params, ret), a, pc1, m1, r', fuel, fuel, s1.n);
    s := ArgsSim(a + s1.n, d, cells);
  }

  // ---------- Calls ----------

  // In the callee: its parameters are a new scope, the result goes to the write context of
  // the call or, without one, to a new temporary.
  function Callee(m: M, into: bool, d: Data, cells: seq<Cell<nat>>, ret: Type, closure: seq<W>, next: nat): M {
    var temps := if into then d.temps else d.temps + [Cell(ret, true, VVoid)];
    With(m, Data(d.members + cells, temps)).(
      values := if into then m.values else m.values + [TempLoc(|d.temps|)],
      ctxs := if into then m.ctxs else m.ctxs + [TempLoc(|d.temps|)],
      scopes := m.scopes + [Scope(|m.members|, |temps|)],
      closures := if closure == [] then m.closures else m.closures + [closure],
      calls := m.calls + [|m.activations|],
      activations := m.activations + [next])
  }

  lemma CallStep(p: Program, pc: nat, m: M, into: bool, d: Data, x: Loc, cells: seq<Cell<nat>>, arguments: seq<nat>,
                 params: seq<ParamType>, ret: Type)
    requires OpAt(p.code, pc, CallOp(into)) && |d.members| == |m.members|
    requires LocOk(With(m, d), x) && At(With(m, d), x).val.VFunc?
    requires into ==> |m.ctxs| > 0 && LocOk(With(m, d), Top(m.ctxs))
    ensures var f := At(With(m, d), x).val;
      Step(p.code, p.globals, pc, Passing(m, d, x, cells, arguments, params, ret))
         == if into && At(With(m, d), Top(m.ctxs)).ty != ret then Fault
            else Next(f.body, Callee(m, into, d, cells, ret, f.closure, pc + 1))
  {
    var m1 := Passing(m, d, x, cells, arguments, params, ret);
    StepInto(p, pc, m1, CallOp(into), into);
    var m2 := Consumed(m1, into);
    LocationMore(With(m, d), m2, cells, x);
    if into { LocationMore(With(m, d), m2, cells, Top(m.ctxs)); }
    assert Front(m1.values) == m.values && Front(m1.packs) == m.packs;
    assert m1.callbacks[..|m1.callbacks| - |arguments|] == m.callbacks;
    assert into ==> Front(m.ctxs) + [Top(m.ctxs)] == m.ctxs;
  }

  lemma LocationMore(m: M, m': M, more: seq<Cell<nat>>, x: Loc)
    requires m'.members == m.members + more && m.temps == m'.temps && LocOk(m, x)
    ensures LocOk(m', x) && At(m, x) == At(m', x)
  {
  }

  lemma CalleeReady(p: Program, e: Expr, pc: nat, m: M, into: bool, d: Data, cells: seq<Cell<Expr>>,
                    cells': seq<Cell<nat>>,
                    ret: Type, closure: seq<V>, closure': seq<W>, next: nat)
    requires |d.members| == |m.members| && |cells| == |cells'|
    requires forall i | 0 <= i < |cells| :: CellRel(p.code, cells[i], cells'[i])
    requires |closure| == |closure'| && forall i | 0 <= i < |closure| :: ValueRel(p.code, closure[i], closure'[i])
    requires Coded(p.code, {}, pc, e, true) && Sound(e, true, 0, 1)
    requires into ==> |m.ctxs| > 0 && LocOk(With(m, d), Top(m.ctxs)) && At(With(m, d), Top(m.ctxs)).ty == ret
    ensures Ready(p, e, pc, Env([cells], closure), Callee(m, into, d, cells', ret, closure', next), Into(ret), 0, 1)
  {
    hide Coded, Sound, ValueRel, CellRel;
    var c := Callee(m, into, d, cells', ret, closure', next);
    if into { LocationMore(With(m, d), c, cells', Top(m.ctxs)); }
    assert First(Env([cells], closure), c.scopes, 0) == |m.members|;
    assert ScopeRel(p.code, cells, |m.members|, c.members) by {
      assert forall i | 0 <= i < |cells| :: c.members[|m.members| + i] == cells'[i];
    }
  }

  // The caller's members are not the callee's variables.
  lemma CallerKept(code: seq<Op>, m: M, into: bool, d: Data, cells: seq<Cell<Expr>>, cells': seq<Cell<nat>>, ret: Type,
                   closure: seq<V>, closure': seq<W>, next: nat, env1: Env, d1: Data)
    requires |d.members| == |m.members|
    requires var c := Callee(m, into, d, cells', ret, closure', next);
      Keeps(code, c.scopes, c.closures, Env([cells], closure), DataOf(c), env1, d1)
    ensures |d1.members| >= |m.members| && d1.members[..|m.members|] == d.members
    ensures Callee(m, into, d, cells', ret, closure', next).temps <= d1.temps
  {
    hide Rel, SameShape;
    var c := Callee(m, into, d, cells', ret, closure', next);
    var env := Env([cells], closure);
    forall i | 0 <= i < |m.members|
      ensures d1.members[i] == d.members[i]
    {
      assert !Owned(env, c.scopes, i);
      assert c.members[i] == d.members[i];
    }
  }

  // The state after the callee has returned `w`.
  function Returned(m: M, into: bool, d: Data, ret: Type, w: W): M {
    if into then Stored(With(m, d), w)
    else Left(With(m, d.(temps := d.temps + [Cell(ret, true, w)])), true, TempLoc(|d.temps|))
  }

  lemma ReturnFrom(p: Program, pc: nat, m: M, scopes: seq<Scope>, s: Scope, calls: seq<nat>, activations: seq<nat>,
                   next: nat)
    requires OpAt(p.code, pc, Return)
    requires m.scopes == scopes + [s] && s.firstMember <= |m.members| && s.temps <= |m.temps|
    requires m.calls == calls + [|activations|] && m.activations == activations + [next]
    ensures Step(p.code, p.globals, pc, m)
         == Next(next, m.(scopes := scopes, members := m.members[..s.firstMember], temps := m.temps[..s.temps],
                          calls := calls, activations := activations))
  {
    StepPlain(p, pc, m, Return);
    assert Front(m.scopes) == scopes && Front(m.calls) == calls;
    assert m.activations[..|activations| + 1] == activations + [next];
    assert Front(activations + [next]) == activations;
  }

  lemma ReturnStep(p: Program, pc: nat, m: M, into: bool, d: Data, cells: seq<Cell<nat>>, ret: Type, closure: seq<W>,
                   next: nat,
                   d1: Data, w: W, m1: M)
    requires OpAt(p.code, pc, Return) && |d.members| == |m.members|
    requires into ==> |m.ctxs| > 0 && LocOk(With(m, d), Top(m.ctxs))
    requires |d1.members| >= |m.members| && d1.members[..|m.members|] == d.members
    requires Callee(m, into, d, cells, ret, closure, next).temps <= d1.temps
    requires m1 == Stored(With(Callee(m, into, d, cells, ret, closure, next), d1), w).(closures := m.closures)
    ensures Step(p.code, p.globals, pc, m1) == Next(next, Returned(m, into, d, ret, w))
  {
    hide Step;
    var c := Callee(m, into, d, cells, ret, closure, next);
    StoredBelow(m, into, d, c, d1, ret, w);
    ReturnFrom(p, pc, m1, m.scopes, Scope(|m.members|, |c.temps|), m.calls, m.activations, next);
    assert !into ==> Front(m.ctxs + [TempLoc(|d.temps|)]) == m.ctxs;
  }

  lemma StoredBelow(m: M, into: bool, d: Data, c: M, d1: Data, ret: Type, w: W)
    requires into ==> |m.ctxs| > 0 && LocOk(With(m, d), Top(m.ctxs))
    requires |d1.members| >= |d.members| && d1.members[..|d.members|] == d.members && c.temps <= d1.temps
    requires c.ctxs == if into then m.ctxs else m.ctxs + [TempLoc(|d.temps|)]
    requires c.temps == if into then d.temps else d.temps + [Cell(ret, true, VVoid)]
    ensures var m1 := Stored(With(c, d1), w);
      && |m1.members| >= |d.members| && |m1.temps| >= |c.temps|
      && m1.members[..|d.members|] == Returned(m, into, d, ret, w).members
      && m1.temps[..|c.temps|] == Returned(m, into, d, ret, w).temps
  {
    var m1 := Stored(With(c, d1), w);
    var m2 := Returned(m, into, d, ret, w);
    var l := Top(c.ctxs);
    if l.Member? {
      assert d1.members[l.i] == d1.members[..|d.members|][l.i];
      assert m1.members[..|d.members|] == m2.members;
    } else if l.TempLoc? {
      assert d1.temps[l.i] == c.temps[l.i];
      assert m1.temps[..|c.temps|] == m2.temps;
    }
  }

  lemma PopClosureStep(p: Program, pc: nat, m: M, closures: seq<seq<W>>, closure: seq<W>)
    requires OpAt(p.code, pc, PopClosure) && m.closures == closures + [closure]
    ensures Step(p.code, p.globals, pc, m) == Next(pc + 1, m.(closures := closures))
  {
    StepPlain(p, pc, m, PopClosure);
    assert Front(m.closures) == closures;
  }

  lemma BodyEnds(p: Program, pc: nat, e: Expr, hasClosure: bool)
    requires SegmentCoded(p.code, {}, pc, FunctionBody(e, hasClosure))
    ensures hasClosure ==> OpAt(p.code, pc + Len(e, true), PopClosure)
    ensures OpAt(p.code, pc + Len(e, true) + Bit(hasClosure), Return)
  {
    hide Coded, Len;
  }

  // A closure that was made available to the callee goes.
  lemma ClosurePopped(p: Program, pc: nat, c: M, n: nat, at: nat, m: M, closures: seq<seq<W>>, closure: seq<W>)
    returns (at': nat, n': nat)
    requires Reaches(p, pc, c, n, at, m) && m.closures == if closure == [] then closures else closures + [closure]
    requires closure != [] ==> OpAt(p.code, at, PopClosure)
    ensures at' == at + Bit(closure != []) && Reaches(p, pc, c, n', at', m.(closures := closures))
  {
    hide Step;
    at', n' := at, n;
    if closure != [] {
      PopClosureStep(p, at, m, closures, closure);
      ThenStep(p, pc, c, n, at, m);
      at', n' := at + 1, n + 1;
    } else {
      assert m.(closures := closures) == m;
    }
  }

  // From the end of the body back to the caller.
  lemma CalleeReturns(p: Program, e: Expr, pc: nat, env: Env, m: M, mode: Mode, d: Data, cells: seq<Cell<Expr>>,
                      cells': seq<Cell<nat>>,
                      ret: Type, closure: seq<V>, closure': seq<W>, next: nat, r: Result<Operand>, fuel: nat,
                          fuel': nat, s1: Sim)
    returns (s: Sim)
    requires |d.members| == |m.members| && |closure| == |closure'| && Rel(p.code, env, m.scopes, m.closures, d.members)
    requires InContext(With(m, d), mode) && (mode.Into? ==> mode.ty == ret)
    requires SegmentCoded(p.code, {}, pc, FunctionBody(e, closure != []))
    requires r.Done? && Simulated(p, pc, Env([cells], closure), Callee(m, mode.Into?, d, cells', ret, closure', next),
        Into(ret), Yields(e),
                                  r, fuel, pc + Len(e, true), s1)
    ensures r.value.Temp?
    ensures SimulatedFrom(p, pc, Callee(m, mode.Into?, d, cells', ret, closure', next), env, With(m, d), mode, true,
                          Done(r.value, env), fuel', next, s)
  {
    hide Run, Step, Rel, Keeps, ValueRel, Cut, Len, Coded, InContext, Stored, SegmentCoded, Returned;
    var into := mode.Into?;
    var c := Callee(m, into, d, cells', ret, closure', next);
    ValueStored(p, pc, Env([cells], closure), c, Into(ret), Yields(e), r, fuel, pc + Len(e, true), s1);
    CallerKept(p.code, m, into, d, cells, cells', ret, closure, closure', next, r.env, s1.d);
    var m1 := Stored(With(c, s1.d), s1.w);
    StoredStacks(With(c, s1.d), s1.w);
    BodyEnds(p, pc, e, closure != []);
    var at, n := ClosurePopped(p, pc, c, s1.n, pc + Len(e, true), m1, m.closures, closure');
    var m2 := m1.(closures := m.closures);
    ContextHolds(With(m, d), mode);
    ReturnStep(p, at, m, into, d, cells', ret, closure', next, s1.d, s1.w, m2);
    ThenStep(p, pc, c, n, at, m2);
    s := CallDone(p, pc, c, env, m, mode, d, ret, r.value.v, s1.w, n + 1, next, fuel');
  }

  lemma StoredStacks(m: M, w: W)
    ensures Stored(m, w).closures == m.closures
  {
  }

  lemma ContextHolds(m: M, mode: Mode)
    requires InContext(m, mode)
    ensures mode.Into? ==> |m.ctxs| > 0 && LocOk(m, Top(m.ctxs)) && At(m, Top(m.ctxs)).ty == mode.ty
  {
  }

  lemma CallDone(p: Program, pc: nat, m0: M, env: Env, m: M, mode: Mode, d: Data, ret: Type, v: V, w: W, n: nat,
                 next: nat, fuel: nat)
    returns (s: Sim)
    requires Rel(p.code, env, m.scopes, m.closures, d.members)
    requires ValueRel(p.code, v, w) && v.TypeOf() == ret && (mode.Into? ==> mode.ty == ret)
    requires Reaches(p, pc, m0, n, next, Returned(m, mode.Into?, d, ret, w))
    ensures SimulatedFrom(p, pc, m0, env, With(m, d), mode, true, Done(Temp(v), env), fuel, next, s)
  {
    hide Run, Rel, ValueRel, Owned, Stored;
    var d1 := if mode.Into? then d else d.(temps := d.temps + [Cell(ret, true, w)]);
    KeepsRefl(p.code, m.scopes, m.closures, env, d);
    KeepsTemps(p.code, m.scopes, m.closures, env, d, env, d, [Cell(ret, true, w)]);
    s := Sim(n, d1, TempLoc(|d.temps|), w);
  }

  lemma KeepsCount(code: seq<Op>, scopes: seq<Scope>, closures: seq<seq<W>>, env: Env, d: Data, env': Env, d': Data)
    requires Keeps(code, scopes, closures, env, d, env', d')
    ensures |d'.members| == |d.members|
  {
    hide Rel, SameShape, OthersKept;
  }

  lemma CutFrom(p: Program, pc: nat, env0: Env, c: M, mode0: Mode, leaves: bool, r: Result<Operand>, fuel: nat,
                end0: nat, s: Sim,
                env: Env, m: M, mode: Mode, end: nat)
    requires !r.Done? && Simulated(p, pc, env0, c, mode0, leaves, r, fuel, end0, s)
    ensures SimulatedFrom(p, pc, c, env, m, mode, true, r, fuel, end, s)
  {
    hide Run, Keeps, ValueRel, OperandRel, Reaches, Cut;
  }

  lemma ArgsCutShort(p: Program, pc: nat, env: Env, m: M, mode: Mode, fuel: nat, a: nat, at: nat, env1: Env, d1: Data,
                     x: Loc,
                     arguments: seq<nat>, params: seq<ParamType>, ret: Type, r: Result<seq<Cell<Expr>>>, end: nat,
                         s1: ArgsSim)
    returns (s: Sim)
    requires Reaches(p, pc, m, a, at, Passing(m, d1, x, [], arguments, params, ret))
    requires !r.Done? && ArgsSimulated(p, at, env1, m, d1, x, [], arguments, params, ret, r, fuel, s1)
    ensures var r' := match r case Error => Error case Timeout => Timeout case _ => Undefined;
      Simulated(p, pc, env, m, mode, true, r', fuel, end, s)
  {
    hide Run, Keeps, Passing;
    ThenCut(p, pc, m, a, at, Passing(m, d1, x, [], arguments, params, ret), r, fuel, fuel, s1.n);
    s := Sim(a + s1.n, d1, x, VVoid);
  }
}
