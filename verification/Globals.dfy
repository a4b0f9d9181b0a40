/** Globals of a file are initialised when they are first loaded. A load that finds its global
    without a value activates itself again and jumps to the global's initializer. */
module Globals {
  import opened Basics

  /** Initializers load other globals, possibly depending on the values of some. */
  datatype Expr =
    | Number(n: int)
    | Global(g: nat)
    | Binary(op: nat, l: Expr, r: Expr)
    | IfElse(c: Expr, t: Expr, f: Expr)

  datatype Definition = Untyped(value: Expr) | Typed(ty: Expr, value: Expr)

  datatype Program = Program(definitions: seq<Definition>, apply: (nat, int, int) -> int)

  // An instruction with a set `into` delivers through a write context.
  datatype Instr =
    | Prepare(g: nat)                              // FileMemberAllocPrepare
    | Load(g: nat, into: bool)                     // LoadGlobal
    | Value(n: int, into: bool)                    // ValueInteger
    | Apply(op: nat, into: bool)                   // BinaryArithmeticOp and the like
    | Branch(thn: seq<Instr>, els: seq<Instr>)     // IfElse
    | AllocTyped                                   // FileMemberAllocTyped
    | AllocComplete                                // FileMemberAllocComplete
    | AllocUntyped                                 // FileMemberAllocUntyped
    | OpenContext(id: nat)
    | EndCode

  /** A global whose initializer runs is pending, `cell` being its memory once that is allocated. */
  datatype Status = Untouched | Pending(cell: int) | Complete(value: int)

  // `started` lists the globals whose initializer was begun, in order.
  datatype Memory = Memory(status: seq<Status>, started: seq<nat>)

  datatype Target = Cell(g: nat) | Out(id: nat)

  // A running initialization and the height of the temporary data when it was begun.
  datatype Initialization = Initialization(g: nat, height: nat)

  /** `code` is the code from the current address on, up to the end of its segment. */
  datatype State = State(
    code: seq<Instr>, memory: Memory, values: seq<int>, temps: seq<int>, contexts: seq<Target>,
    activations: seq<seq<Instr>>, inits: seq<Initialization>, written: seq<(nat, int)>)

  datatype StepResult = Next(next: State) | Halt(final: State) | Circular | AssertionFailed

  predicate InRange(e: Expr, n: nat) {
    match e
    case Number(_) => true
    case Global(g) => g < n
    case Binary(_, l, r) => InRange(l, n) && InRange(r, n)
    case IfElse(c, t, f) => InRange(c, n) && InRange(t, n) && InRange(f, n)
  }

  predicate DefinitionInRange(d: Definition, n: nat) {
    InRange(d.value, n) && (d.Typed? ==> InRange(d.ty, n))
  }

  ghost predicate Valid(p: Program) {
    forall g | 0 <= g < |p.definitions| :: DefinitionInRange(p.definitions[g], |p.definitions|)
  }

  // ---------- Code ----------

  function Code(e: Expr, into: bool): (code: seq<Instr>)
    ensures |code| > 0
  {
    match e
    case Number(n) => [Value(n, into)]
    case Global(g) => [Load(g, into)]
    case Binary(op, l, r) => Code(l, false) + Code(r, false) + [Apply(op, into)]
    case IfElse(c, t, f) => Code(c, false) + [Branch(Code(t, into) + [EndCode], Code(f, into) + [EndCode])]
  }

  function DefinitionCode(d: Definition): seq<Instr> {
    match d
    case Untyped(e) => Code(e, false) + [AllocUntyped, EndCode]
    case Typed(ty, e) => Code(ty, false) + ([AllocTyped] + (Code(e, true) + [AllocComplete, EndCode]))
  }

  function InitializerCode(p: Program, g: nat): seq<Instr>
    requires g < |p.definitions|
  {
    [Prepare(g)] + DefinitionCode(p.definitions[g])
  }

  // ---------- One instruction ----------

  predicate HasStatus(m: Memory, g: nat) {
    g < |m.status|
  }

  function Advance(s: State): State {
    s.(code := if s.code == [] then [] else s.code[1..])
  }

  // Something can be stored through the top write context.
  predicate CanStore(s: State) {
    && s.contexts != []
    && (Top(s.contexts).Cell? ==> HasStatus(s.memory, Top(s.contexts).g) && s.memory.status[Top(s.contexts).g].Pending?)
  }

  function Stored(s: State, v: int): State
    requires CanStore(s)
  {
    var s1 := s.(contexts := Front(s.contexts));
    match Top(s.contexts)
    case Out(id) => s1.(written := s.written + [(id, v)])
    case Cell(g) => s1.(memory := s.memory.(status := s.memory.status[g := Pending(v)]))
  }

  // Delivers a value that is computed (`push_temporary_value`) or that has a place of its own
  // (`push_location_value`).
  function Put(s: State, v: int, into: bool, computed: bool): StepResult {
    if into then if CanStore(s) then Next(Stored(s, v)) else AssertionFailed
    else Next(s.(values := s.values + [v], temps := s.temps + if computed then [v] else []))
  }

  function Step(p: Program, s: State): StepResult {
    if s.code == [] then AssertionFailed
    else
      match s.code[0]
      case Prepare(g) => StepPrepare(s, g)
      case Load(g, into) => StepLoad(p, s, g, into)
      case Value(n, into) => Put(Advance(s), n, into, true)
      case Apply(op, into) => StepApply(p, s, op, into)
      case Branch(t, f) => StepBranch(s, t, f)
      case AllocTyped => StepAllocTyped(s)
      case AllocComplete => StepAllocComplete(s)
      case AllocUntyped => StepAllocUntyped(s)
      case OpenContext(id) => Next(Advance(s.(contexts := s.contexts + [Out(id)])))
      case EndCode =>
        if s.activations == [] then Halt(s)
        else Next(s.(code := Top(s.activations), activations := Front(s.activations)))
  }

  function StepPrepare(s: State, g: nat): StepResult {
    if !HasStatus(s.memory, g) || s.memory.status[g].Complete? then AssertionFailed
    else if s.memory.status[g].Pending? then Circular
    else Next(Advance(s.(memory := Begun(s.memory, g), inits := s.inits + [Initialization(g, |s.temps|)])))
  }

  function Begun(m: Memory, g: nat): Memory
    requires g < |m.status|
  {
    Memory(m.status[g := Pending(0)], m.started + [g])
  }

  function StepLoad(p: Program, s: State, g: nat, into: bool): StepResult {
    if !HasStatus(s.memory, g) || g >= |p.definitions| || (into && s.contexts == []) then AssertionFailed
    else if s.memory.status[g].Complete? then Put(Advance(s), s.memory.status[g].value, into, false)
    else
      // The write context, already popped, is pushed back.
      Next(s.(code := InitializerCode(p, g), activations := s.activations + [s.code]))
  }

  function StepApply(p: Program, s: State, op: nat, into: bool): StepResult {
    if |s.values| < 2 then AssertionFailed
    else
      var base := |s.values| - 2;
      Put(Advance(s.(values := s.values[..base])), p.apply(op, s.values[base], s.values[base + 1]), into, true)
  }

  function StepBranch(s: State, t: seq<Instr>, f: seq<Instr>): StepResult {
    if s.values == [] || s.code == [] then AssertionFailed
    else
      Next(s.(
        code := if Top(s.values) != 0 then t else f, values := Front(s.values),
        activations := s.activations + [s.code[1..]]))
  }

  predicate Initializing(s: State) {
    s.inits != [] && HasStatus(s.memory, Top(s.inits).g)
  }

  function StepAllocTyped(s: State): StepResult {
    if s.values == [] || !Initializing(s) then AssertionFailed
    else Next(Advance(s.(values := Front(s.values), contexts := s.contexts + [Cell(Top(s.inits).g)])))
  }

  // The temporary data of the initializer goes.
  function StepAllocComplete(s: State): StepResult {
    if !Initializing(s) || !s.memory.status[Top(s.inits).g].Pending?
        || Top(s.inits).height > |s.temps| then AssertionFailed
    else
      var i := Top(s.inits);
      var m := s.memory.(status := s.memory.status[i.g := Complete(s.memory.status[i.g].cell)]);
      Next(Advance(s.(memory := m, temps := s.temps[..i.height], inits := Front(s.inits))))
  }

  // The temporary data of the initializer stays.
  function StepAllocUntyped(s: State): StepResult {
    if s.values == [] || !Initializing(s) then AssertionFailed
    else
      var m := s.memory.(status := s.memory.status[Top(s.inits).g := Complete(Top(s.values))]);
      Next(Advance(s.(memory := m, values := Front(s.values), inits := Front(s.inits))))
  }

  // ---------- Whole runs ----------

  function Unbegun(status: seq<Status>): nat {
    if status == [] then 0 else (if status[0].Untouched? then 1 else 0) + Unbegun(status[1..])
  }

  lemma {:induction false} UnbegunUpdate(status: seq<Status>, g: nat, v: Status)
    requires g < |status|
    ensures Unbegun(status[g := v])
         == Unbegun(status) - (if status[g].Untouched? then 1 else 0) + (if v.Untouched? then 1 else 0)
  {
    if g > 0 {
      assert status[g := v][1..] == status[1..][g - 1 := v];
      UnbegunUpdate(status[1..], g - 1, v);
    } else {
      assert status[0 := v][1..] == status[1..];
    }
  }

  // The instructions in a piece of code, those of the branches included.
  function CodeSize(code: seq<Instr>): nat {
    if code == [] then 0 else InstrSize(code[0]) + CodeSize(code[1..])
  }

  function InstrSize(i: Instr): (n: nat)
    ensures n > 0
  {
    if i.Branch? then 1 + CodeSize(i.thn) + CodeSize(i.els) else 1
  }

  function SizeAll(codes: seq<seq<Instr>>): nat {
    if codes == [] then 0 else SizeAll(Front(codes)) + CodeSize(Top(codes))
  }

  predicate AtPrepare(s: State) {
    s.code != [] && s.code[0].Prepare?
  }

  // Jumps into an initializer are paid for by the global it begins, everything else by the code
  // that is left.
  function Ahead(s: State): nat {
    2 * Unbegun(s.memory.status) + (if AtPrepare(s) then 0 else 1)
  }

  function Behind(s: State): nat {
    CodeSize(s.code) + SizeAll(s.activations)
  }

  lemma StepProgress(p: Program, s: State)
    requires Step(p, s).Next?
    ensures Ahead(Step(p, s).next) <= Ahead(s)
    ensures Ahead(Step(p, s).next) == Ahead(s) ==> Behind(Step(p, s).next) < Behind(s)
  {
    hide Unbegun, CodeSize, SizeAll, StepPrepare, StepLoad, StepApply, StepBranch, StepAllocTyped, StepAllocComplete,
         StepAllocUntyped, Put;
    match s.code[0]
    case Prepare(g) => PrepareProgress(s, g);
    case Load(g, into) => LoadProgress(p, s, g, into);
    case Value(n, into) => PutProgress(s, Advance(s), n, into, true);
    case Apply(op, into) => ApplyProgress(p, s, op, into);
    case Branch(t, f) => BranchProgress(s, t, f);
    case OpenContext(_) => SizeOf(s.code);
    case EndCode => ReturnProgress(s);
    case _ => AllocProgress(p, s);
  }

  lemma SizeOf(code: seq<Instr>)
    requires code != []
    ensures CodeSize(code[1..]) < CodeSize(code)
  {
  }

  lemma PutProgress(s: State, s1: State, v: int, into: bool, computed: bool)
    requires s.code != [] && s1.code == s.code[1..] && s1.activations == s.activations && s1.memory == s.memory
    requires Put(s1, v, into, computed).Next? && !AtPrepare(s)
    ensures Ahead(Put(s1, v, into, computed).next) <= Ahead(s) && Behind(Put(s1, v, into, computed).next) < Behind(s)
  {
    hide Unbegun, CodeSize, SizeAll;
    SizeOf(s.code);
    if into && Top(s1.contexts).Cell? { UnbegunUpdate(s.memory.status, Top(s1.contexts).g, Pending(v)); }
  }

  lemma PrepareProgress(s: State, g: nat)
    requires s.code != [] && s.code[0].Prepare? && StepPrepare(s, g).Next?
    ensures Ahead(StepPrepare(s, g).next) <= Ahead(s)
    ensures Ahead(StepPrepare(s, g).next) == Ahead(s) ==> Behind(StepPrepare(s, g).next) < Behind(s)
  {
    hide Unbegun, CodeSize, SizeAll;
    UnbegunUpdate(s.memory.status, g, Pending(0));
  }

  lemma LoadProgress(p: Program, s: State, g: nat, into: bool)
    requires s.code != [] && s.code[0] == Load(g, into) && StepLoad(p, s, g, into).Next?
    ensures Ahead(StepLoad(p, s, g, into).next) <= Ahead(s)
    ensures Ahead(StepLoad(p, s, g, into).next) == Ahead(s) ==> Behind(StepLoad(p, s, g, into).next) < Behind(s)
  {
    hide Unbegun, CodeSize, SizeAll, Put;
    if s.memory.status[g].Complete? { PutProgress(s, Advance(s), s.memory.status[g].value, into, false); }
  }

  lemma ApplyProgress(p: Program, s: State, op: nat, into: bool)
    requires s.code != [] && s.code[0] == Apply(op, into) && StepApply(p, s, op, into).Next?
    ensures Ahead(StepApply(p, s, op, into).next) <= Ahead(s) && Behind(StepApply(p, s, op, into).next) < Behind(s)
  {
    hide Unbegun, CodeSize, SizeAll, Put;
    var base := |s.values| - 2;
    PutProgress(s, Advance(s.(values := s.values[..base])), p.apply(op, s.values[base], s.values[base + 1]), into,
      true);
  }

  lemma BranchProgress(s: State, t: seq<Instr>, f: seq<Instr>)
    requires s.code != [] && s.code[0] == Branch(t, f) && StepBranch(s, t, f).Next?
    ensures Ahead(StepBranch(s, t, f).next) <= Ahead(s) && Behind(StepBranch(s, t, f).next) < Behind(s)
  {
    hide Unbegun;
    var rest := s.code[1..];
    assert InstrSize(s.code[0]) == 1 + CodeSize(t) + CodeSize(f);
    assert CodeSize(s.code) == InstrSize(s.code[0]) + CodeSize(rest);
    assert SizeAll(s.activations + [rest]) == SizeAll(s.activations) + CodeSize(rest) by {
      assert Front(s.activations + [rest]) == s.activations;
    }
  }

  lemma ReturnProgress(s: State)
    requires s.code != [] && s.code[0].EndCode? && s.activations != []
    ensures var s' := s.(code := Top(s.activations), activations := Front(s.activations));
      Ahead(s') <= Ahead(s) && Behind(s') < Behind(s)
  {
    hide Unbegun;
  }

  lemma AllocProgress(p: Program, s: State)
    requires s.code != [] && (s.code[0].AllocTyped? || s.code[0].AllocComplete? || s.code[0].AllocUntyped?)
    requires Step(p, s).Next?
    ensures Ahead(Step(p, s).next) <= Ahead(s) && Behind(Step(p, s).next) < Behind(s)
  {
    hide Unbegun, CodeSize, SizeAll;
    SizeOf(s.code);
    var g := Top(s.inits).g;
    if s.code[0].AllocUntyped? {
      UnbegunUpdate(s.memory.status, g, Complete(Top(s.values)));
    } else if s.code[0].AllocComplete? {
      UnbegunUpdate(s.memory.status, g, Complete(s.memory.status[g].cell));
    }
  }

  /** The interpreter loop. That this is a function says that every run ends, whatever the globals
      refer to. */
  function Exec(p: Program, s: State): (r: StepResult)
    ensures !r.Next?
    decreases Ahead(s), Behind(s)
  {
    match Step(p, s)
    case Next(s') => StepProgress(p, s); Exec(p, s')
    case r => r
  }
}
