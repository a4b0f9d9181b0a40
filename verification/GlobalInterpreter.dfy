/** The interpreter's stacks and the states of a file's globals, changed in place. */
module GlobalInterpreters {
  import opened Basics
  import opened Globals
  import opened GlobalRuns

  datatype Outcome = Running | Finished | CircularInitialization | Failed

  class GlobalInterpreter {
    const program: Program
    const status: array<Status>
    var code: seq<Instr>
    var values: seq<int>
    var temps: seq<int>
    var contexts: seq<Target>
    var activations: seq<seq<Instr>>
    var inits: seq<Initialization>
    var written: seq<(nat, int)>
    ghost var started: seq<nat>

    constructor (program: Program, items: seq<Item>)
      ensures this.program == program && fresh(status)
      ensures Contents() == Start(program, items)
    {
      this.program := program;
      status := new Status[|program.definitions|](_ => Untouched);
      code := HostCode(items);
      values, temps, contexts, activations, inits, written, started := [], [], [], [], [], [], [];
      new;
      assert status[..] == Fresh(program).status;
    }

    ghost function Contents(): State
      reads this, status
    {
      State(code, Memory(status[..], started), values, temps, contexts, activations, inits, written)
    }

    // What a step did, against the same step on values.
    ghost predicate Did(step: StepResult, r: Outcome)
      reads this, status
    {
      match step
      case Next(s) => r == Running && Contents() == s
      case Halt(s) => r == Finished && Contents() == s
      case Circular => r == CircularInitialization
      case AssertionFailed => r == Failed
    }

    method SetStatus(g: nat, s: Status)
      requires g < status.Length
      modifies status
      ensures status[..] == old(status[..])[g := s]
    {
      status[g] := s;
    }

    method MoveOn()
      modifies this`code
      ensures Contents() == old(Advance(Contents()))
    {
      if code != [] { code := code[1..]; }
    }

    // Whether the top write context, if there is one, can be written through.
    method WritesThrough() returns (ok: bool)
      ensures ok == CanStore(Contents())
    {
      if contexts == [] { return false; }
      match Top(contexts)
      case Out(_) => ok := true;
      case Cell(g) => ok := g < status.Length && status[g].Pending?;
    }

    method PutValue(v: int, into: bool, computed: bool) returns (r: Outcome)
      modifies this`values, this`temps, this`contexts, this`written, status
      ensures Did(old(Put(Contents(), v, into, computed)), r)
    {
      if into {
        var ok := WritesThrough();
        if !ok { return Failed; }
        var target := Top(contexts);
        contexts := Front(contexts);
        match target
        case Out(id) => written := written + [(id, v)];
        case Cell(g) => SetStatus(g, Pending(v));
      } else {
        values := values + [v];
        temps := temps + if computed then [v] else [];
      }
      r := Running;
    }

    method HandlePrepare(g: nat) returns (r: Outcome)
      modifies this`code, this`inits, this`started, status
      ensures Did(old(StepPrepare(Contents(), g)), r)
    {
      if g >= status.Length || status[g].Complete? { return Failed; }
      if status[g].Pending? { return CircularInitialization; }
      SetStatus(g, Pending(0));
      inits := inits + [Initialization(g, |temps|)];
      started := started + [g];
      MoveOn();
      r := Running;
    }

    // The interpreter loop pops the write context before it calls the handler.
    method HandleLoadGlobal(g: nat, into: bool) returns (r: Outcome)
      modifies this, status
      ensures Did(old(StepLoad(program, Contents(), g, into)), r)
    {
      if g >= status.Length || g >= |program.definitions| || (into && contexts == []) { return Failed; }
      match status[g]
      case Complete(v) =>
        MoveOn();
        r := PutValue(v, into, false);
      case _ =>
        ghost var before := contexts;
        if into {
          var context := Top(contexts);
          contexts := Front(contexts);
          contexts := contexts + [context];
          assert contexts == before;
        }
        activations := activations + [code];
        code := InitializerCode(program, g);
        r := Running;
    }

    method HandleApply(op: nat, into: bool) returns (r: Outcome)
      modifies this, status
      ensures Did(old(StepApply(program, Contents(), op, into)), r)
    {
      if |values| < 2 { return Failed; }
      var base := |values| - 2;
      var v := program.apply(op, values[base], values[base + 1]);
      values := values[..base];
      MoveOn();
      r := PutValue(v, into, true);
    }

    method HandleBranch(thn: seq<Instr>, els: seq<Instr>) returns (r: Outcome)
      modifies this`code, this`values, this`activations
      ensures Did(old(StepBranch(Contents(), thn, els)), r)
    {
      if values == [] || code == [] { return Failed; }
      activations := activations + [code[1..]];
      code := if Top(values) != 0 then thn else els;
      values := Front(values);
      r := Running;
    }

    method HandleAllocTyped() returns (r: Outcome)
      modifies this`code, this`values, this`contexts
      ensures Did(old(StepAllocTyped(Contents())), r)
    {
      if values == [] || inits == [] || Top(inits).g >= status.Length { return Failed; }
      values := Front(values);
      contexts := contexts + [Cell(Top(inits).g)];
      MoveOn();
      r := Running;
    }

    method HandleAllocComplete() returns (r: Outcome)
      modifies this`code, this`temps, this`inits, status
      ensures Did(old(StepAllocComplete(Contents())), r)
    {
      if inits == [] || Top(inits).g >= status.Length || Top(inits).height > |temps| { return Failed; }
      var init := Top(inits);
      match status[init.g]
      case Pending(cell) =>
        SetStatus(init.g, Complete(cell));
        temps := temps[..init.height];
        inits := Front(inits);
        MoveOn();
        r := Running;
      case _ => r := Failed;
    }

    method HandleAllocUntyped() returns (r: Outcome)
      modifies this`code, this`values, this`inits, status
      ensures Did(old(StepAllocUntyped(Contents())), r)
    {
      if values == [] || inits == [] || Top(inits).g >= status.Length { return Failed; }
      SetStatus(Top(inits).g, Complete(Top(values)));
      inits := Front(inits);
      values := Front(values);
      MoveOn();
      r := Running;
    }

    method HandleEndCode() returns (r: Outcome)
      requires code != [] && code[0].EndCode?
      modifies this`code, this`activations
      ensures Did(old(Step(program, Contents())), r)
    {
      if activations == [] { return Finished; }
      code := Top(activations);
      activations := Front(activations);
      r := Running;
    }

    // One instruction.
    method HandleOpcode() returns (r: Outcome)
      modifies this, status
      ensures Did(old(Step(program, Contents())), r)
    {
      hide StepPrepare, StepLoad, StepApply, StepBranch, StepAllocTyped, StepAllocComplete, StepAllocUntyped, Put;
      if code == [] { return Failed; }
      match code[0]
      case Prepare(g) => r := HandlePrepare(g);
      case Load(g, into) => r := HandleLoadGlobal(g, into);
      case Value(n, into) =>
        MoveOn();
        r := PutValue(n, into, true);
      case Apply(op, into) => r := HandleApply(op, into);
      case Branch(thn, els) => r := HandleBranch(thn, els);
      case AllocTyped => r := HandleAllocTyped();
      case AllocComplete => r := HandleAllocComplete();
      case AllocUntyped => r := HandleAllocUntyped();
      case OpenContext(id) =>
        contexts := contexts + [Out(id)];
        MoveOn();
        r := Running;
      case EndCode => r := HandleEndCode();
    }

    /** Runs to the end, as the loop on values does. */
    method Run() returns (r: Outcome)
      modifies this, status
      ensures r != Running && Did(old(Exec(program, Contents())), r)
    {
      hide Step;
      r := Running;
      while r == Running
        invariant r == Running ==> Exec(program, Contents()) == old(Exec(program, Contents()))
        invariant r != Running ==> Did(old(Exec(program, Contents())), r)
        decreases if r == Running then 1 else 0, Ahead(Contents()), Behind(Contents())
      {
        ghost var s := Contents();
        r := HandleOpcode();
        if r == Running { StepProgress(program, s); }
      }
    }
  }
}
