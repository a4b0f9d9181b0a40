/** The lexical analyser in its own form: a stack of scopes, each function's with a growing
    closure whose entries say where the captured value comes from. */
module LexicalAnalysers {
  import opened Basics
  import opened Lang
  import opened Named
  import opened Resolve
  import opened Closures
  import opened Conversion
  import opened Naming
  import opened Resolvability

  /** Where a captured value is found: `sourceOut` scopes further out than the function's own
      scope, there under `sourceRank`, or in the closure of that scope's function. */
  datatype ClosureEntry = ClosureEntry(name: Name, sourceRank: nat, sourceOut: nat, sourceIsClosure: bool)

  // An occupied slot of the hash table that holds the entries of a closure.
  datatype ClosureSlot = ClosureSlot(rank: nat, entry: ClosureEntry)

  /** The table has every entry, with its rank, and nothing else. */
  ghost predicate Hashed(slots: seq<Maybe<ClosureSlot>>, entries: seq<ClosureEntry>) {
    && (forall i | 0 <= i < |slots| && slots[i].Some? ::
          slots[i].value.rank < |entries| && slots[i].value.entry == entries[slots[i].value.rank])
    && (forall k | 0 <= k < |entries| :: Some(ClosureSlot(k, entries[k])) in slots)
  }

  datatype Scope = Scope(names: seq<Name>, defining: bool, closure: Maybe<seq<ClosureEntry>>)

  function EntryNames(es: seq<ClosureEntry>): (names: seq<Name>)
    ensures |names| == |es|
  {
    seq(|es|, k requires 0 <= k < |es| => es[k].name)
  }

  function Shape(s: Scope): LexScope {
    LexScope(s.names, s.defining, match s.closure case Some(es) => Some(EntryNames(es)) case None => None)
  }

  function Shapes(scopes: seq<Scope>): (r: seq<LexScope>)
    ensures |r| == |scopes| && forall j | 0 <= j < |r| :: r[j] == Shape(scopes[j])
  {
    seq(|scopes|, j requires 0 <= j < |scopes| => Shape(scopes[j]))
  }

  /** The one right entry for a name captured by a function whose scope comes after `below`. */
  function EntryFor(below: seq<LexScope>, name: Name): ClosureEntry {
    match Find(below, name)
    case Some(i) =>
      if ClosedOver(below, i) then ClosureEntry(name, ClosureRank(below, name), |below| - Own(below).value, true)
      else ClosureEntry(name, IndexOf(below[i].names, name), |below| - i, false)
    case None => ClosureEntry(name, 0, 0, false)
  }

  ghost predicate EntriesRight(scopes: seq<Scope>, j: nat)
    requires j < |scopes|
  {
    scopes[j].closure.Some? ==>
      forall k | 0 <= k < |scopes[j].closure.value| ::
        scopes[j].closure.value[k] == EntryFor(Shapes(scopes)[..j], scopes[j].closure.value[k].name)
  }

  /** Every chain of captures ends at the innermost definition of its name, and no closure
      mixes two definitions. */
  ghost predicate Valid(scopes: seq<Scope>) {
    LexOk(Shapes(scopes)) && forall j | 0 <= j < |scopes| :: EntriesRight(scopes, j)
  }

  // Captures that are added later do not change an entry.
  lemma EntryGrows(a: seq<LexScope>, b: seq<LexScope>, name: Name)
    requires Grows(a, b) && Linked(a, name)
    ensures EntryFor(a, name) == EntryFor(b, name)
  {
    FindGrows(a, b, name);
    OwnGrows(a, b);
    assert ScopeGrows(a[Find(a, name).value], b[Find(a, name).value]);
    if ClosedOver(a, Find(a, name).value) {
      assert ScopeGrows(a[Own(a).value], b[Own(a).value]);
      IndexOfPrefix(a[Own(a).value].closure.value, b[Own(a).value].closure.value, name);
    }
  }

  // The closure list of a function: entries are relative to the scope around the function.
  function CaptureFrom(e: ClosureEntry): Capture {
    if e.sourceIsClosure then FromClosure(e.sourceRank)
    else FromScope(if e.sourceOut > 0 then e.sourceOut - 1 else 0, e.sourceRank)
  }

  lemma CaptureRight(below: seq<LexScope>, name: Name)
    requires Find(below, name).Some?
    ensures CaptureFrom(EntryFor(below, name)) == CaptureOf(below, name)
  {
  }

  // ---------- Changing one scope ----------

  lemma ShapesUpdate(scopes: seq<Scope>, j: nat, s: Scope)
    requires j < |scopes|
    ensures Shapes(scopes[j := s]) == Shapes(scopes)[j := Shape(s)]
  {
  }

  lemma ShapesPrefix(scopes: seq<Scope>, j: nat)
    requires j <= |scopes|
    ensures Shapes(scopes[..j]) == Shapes(scopes)[..j]
  {
  }

  lemma RightPrefix(scopes: seq<Scope>, more: seq<Scope>, j: nat)
    requires j < |scopes| && EntriesRight(scopes, j)
    ensures EntriesRight(scopes + more, j)
  {
    assert (scopes + more)[j] == scopes[j];
    assert Shapes(scopes + more)[..j] == Shapes(scopes)[..j];
  }

  lemma PushValid(scopes: seq<Scope>, s: Scope)
    requires Valid(scopes) && (s.closure.Some? ==> s.closure.value == [])
    ensures Valid(scopes + [s]) && Shapes(scopes + [s]) == Shapes(scopes) + [Shape(s)]
  {
    hide LexOk, EntriesRight;
    assert Shapes(scopes + [s]) == Shapes(scopes) + [Shape(s)];
    PushOk(Shapes(scopes), Shape(s));
    forall j | 0 <= j < |scopes + [s]|
      ensures EntriesRight(scopes + [s], j)
    {
      if j < |scopes| {
        RightPrefix(scopes, [s], j);
      } else {
        NothingWrong(scopes + [s], j);
      }
    }
  }

  lemma NothingWrong(scopes: seq<Scope>, j: nat)
    requires j < |scopes| && (scopes[j].closure.Some? ==> scopes[j].closure.value == [])
    ensures EntriesRight(scopes, j)
  {
  }

  lemma PopValid(scopes: seq<Scope>)
    requires Valid(scopes) && |scopes| > 0
    ensures Valid(scopes[..|scopes| - 1]) && Shapes(scopes[..|scopes| - 1]) == Shapes(scopes)[..|scopes| - 1]
  {
    hide LexOk;
    var below := scopes[..|scopes| - 1];
    ShapesPrefix(scopes, |scopes| - 1);
    PopOk(Shapes(scopes));
    forall j | 0 <= j < |below|
      ensures EntriesRight(below, j)
    {
      assert EntriesRight(scopes, j);
      assert Shapes(below)[..j] == Shapes(scopes)[..j];
    }
  }

  // A change of the innermost scope's definitions.
  lemma TopValid(scopes: seq<Scope>, s: Scope)
    requires Valid(scopes) && |scopes| > 0 && scopes[|scopes| - 1].closure.None? && s.closure.None?
    ensures Valid(scopes[|scopes| - 1 := s])
    ensures Shapes(scopes[|scopes| - 1 := s]) == Shapes(scopes)[|scopes| - 1 := Shape(s)]
  {
    hide Valid;
    PopValid(scopes);
    PushValid(scopes[..|scopes| - 1], s);
    assert scopes[|scopes| - 1 := s] == scopes[..|scopes| - 1] + [s];
    ShapesUpdate(scopes, |scopes| - 1, s);
  }

  // ---------- Capturing a name ----------

  lemma EntryStep(below: seq<LexScope>, s: LexScope, name: Name)
    requires Find(below, name).Some? && name !in s.names
    ensures EntryFor(below + [s], name) ==
      if s.closure.Some? then ClosureEntry(name, IndexOf(s.closure.value, name), 1, true)
      else EntryFor(below, name).(sourceOut := EntryFor(below, name).sourceOut + 1)
  {
    var b := below + [s];
    assert b[..|b| - 1] == below;
    assert Find(b, name) == Find(below, name);
    assert Own(b) == if s.closure.Some? then Some(|below|) else Own(below);
  }

  // `name`, defined in scope `i`, has been entered into the closures below scope `j`.
  function AddedUpTo(scopes: seq<LexScope>, i: nat, name: Name, j: nat): (r: seq<LexScope>)
    ensures |r| == |scopes|
    ensures forall t | 0 <= t < |r| :: r[t] == if i < t < j then Captures(scopes[t], name) else scopes[t]
  {
    seq(|scopes|, t requires 0 <= t < |scopes| => if i < t < j then Captures(scopes[t], name) else scopes[t])
  }

  lemma AddedGrows(scopes: seq<LexScope>, i: nat, name: Name, j: nat)
    ensures Grows(scopes, AddedUpTo(scopes, i, name, j))
    ensures j >= |scopes| ==> AddedUpTo(scopes, i, name, j) == AddToClosures(scopes, i, name)
  {
  }

  // The entries of closures stay right while lower closures grow.
  lemma RightGrows(before: seq<Scope>, after: seq<Scope>, t: nat)
    requires t < |before| == |after| && after[t].closure == before[t].closure
    requires LexOk(Shapes(before)) && EntriesRight(before, t) && Grows(Shapes(before)[..t], Shapes(after)[..t])
    ensures EntriesRight(after, t)
  {
    hide Linked, EntryFor, Grows;
    if after[t].closure.Some? {
      var es := after[t].closure.value;
      assert ClosureOk(Shapes(before), t);
      forall k | 0 <= k < |es|
        ensures es[k] == EntryFor(Shapes(after)[..t], es[k].name)
      {
        assert Shapes(before)[t] == Shape(before[t]);
        assert EntryNames(es)[k] == es[k].name;
        EntryGrows(Shapes(before)[..t], Shapes(after)[..t], es[k].name);
      }
    }
  }

  /** In the middle of a capture: scopes below `j` are done. */
  ghost predicate Capturing(old_: seq<Scope>, now: seq<Scope>, i: nat, name: Name, j: nat) {
    && |now| == |old_| && i < j <= |old_|
    && Shapes(now) == AddedUpTo(Shapes(old_), i, name, j)
    && (forall t | j <= t < |now| :: now[t] == old_[t])
    && (forall t | 0 <= t < |now| :: EntriesRight(now, t))
  }

  lemma CapturePlain(old_: seq<Scope>, now: seq<Scope>, i: nat, name: Name, j: nat)
    requires Capturing(old_, now, i, name, j) && j < |old_| && old_[j].closure.None?
    ensures Capturing(old_, now, i, name, j + 1)
  {
    hide EntriesRight;
    var a, b := AddedUpTo(Shapes(old_), i, name, j), AddedUpTo(Shapes(old_), i, name, j + 1);
    assert a == b;
  }

  lemma CapturePresent(old_: seq<Scope>, now: seq<Scope>, i: nat, name: Name, j: nat)
    requires Capturing(old_, now, i, name, j) && j < |old_| && old_[j].closure.Some?
    requires name in EntryNames(old_[j].closure.value)
    ensures Capturing(old_, now, i, name, j + 1)
  {
    hide EntriesRight;
    assert Shapes(old_)[j] == Shape(old_[j]);
    var a, b := AddedUpTo(Shapes(old_), i, name, j), AddedUpTo(Shapes(old_), i, name, j + 1);
    assert a == b;
  }

  lemma CaptureAbsent(old_: seq<Scope>, now: seq<Scope>, i: nat, name: Name, j: nat, s: Scope)
    requires Valid(old_) && Capturing(old_, now, i, name, j) && j < |old_| && old_[j].closure.Some?
    requires name !in EntryNames(old_[j].closure.value)
    requires s == old_[j].(closure := Some(old_[j].closure.value + [EntryFor(Shapes(now)[..j], name)]))
    requires EntryFor(Shapes(now)[..j], name).name == name
    ensures Capturing(old_, now[j := s], i, name, j + 1)
  {
    hide EntriesRight, EntryFor, LexOk, Captures;
    var after := now[j := s];
    ShapesUpdate(now, j, s);
    NewEntryShape(old_[j], EntryFor(Shapes(now)[..j], name), s);
    assert Shapes(after) == AddedUpTo(Shapes(old_), i, name, j + 1);
    forall t | 0 <= t < |after|
      ensures EntriesRight(after, t)
    {
      assert EntriesRight(now, t);
      if t < j {
        SamePrefixRight(now, after, t);
      } else if t == j {
        NewEntryRight(now, after, j, name);
      } else {
        assert EntriesRight(old_, t);
        AddedGrows(Shapes(old_), i, name, j + 1);
        GrowsPrefix(Shapes(old_), Shapes(after), t);
        RightGrows(old_, after, t);
      }
    }
  }

  lemma NewEntryShape(s: Scope, e: ClosureEntry, s': Scope)
    requires s.closure.Some? && s' == s.(closure := Some(s.closure.value + [e]))
    requires e.name !in EntryNames(s.closure.value)
    ensures Shape(s') == Captures(Shape(s), e.name)
  {
    assert EntryNames(s.closure.value + [e]) == EntryNames(s.closure.value) + [e.name];
  }

  lemma SamePrefixRight(a: seq<Scope>, b: seq<Scope>, t: nat)
    requires t < |a| == |b| && a[..t] == b[..t] && a[t] == b[t] && EntriesRight(a, t)
    ensures EntriesRight(b, t)
  {
    hide EntryFor;
    ShapesPrefix(a, t);
    ShapesPrefix(b, t);
  }

  lemma NewEntryRight(now: seq<Scope>, after: seq<Scope>, j: nat, name: Name)
    requires j < |now| == |after| && after[..j] == now[..j] && EntriesRight(now, j) && now[j].closure.Some?
    requires EntryFor(Shapes(now)[..j], name).name == name
    requires after[j].closure == Some(now[j].closure.value + [EntryFor(Shapes(now)[..j], name)])
    ensures EntriesRight(after, j)
  {
    hide EntryFor;
    ShapesPrefix(now, j);
    ShapesPrefix(after, j);
  }

  class LexicalAnalyser {
    const world: World
    var scopes: seq<Scope>

    function State(): (r: seq<LexScope>)
      reads this
      ensures |r| == |scopes|
    {
      Shapes(scopes)
    }

    ghost predicate Ok()
      reads this
    {
      Valid(scopes)
    }

    constructor (world: World)
      ensures this.world == world && scopes == [] && Ok()
    {
      this.world := world;
      scopes := [];
    }

    method PushScope(names: seq<Name>, hasClosure: bool)
      requires Ok()
      modifies this
      ensures Ok() && State() == old(State()) + [LexScope(names, false, if hasClosure then Some([]) else None)]
    {
      var s := Scope(names, false, if hasClosure then Some([]) else None);
      PushValid(scopes, s);
      scopes := scopes + [s];
    }

    method PopScope()
      requires Ok() && |scopes| > 0
      modifies this
      ensures Ok() && State() == old(State())[..|old(scopes)| - 1]
    {
      PopValid(scopes);
      scopes := scopes[..|scopes| - 1];
    }

    // A definition is entered before its parts are resolved; a name must be new in its scope.
    method BeginDefinition(name: Name) returns (ok: bool)
      requires Ok() && |scopes| > 0 && scopes[|scopes| - 1].closure.None?
      modifies this
      ensures ok <==> Begin(old(State()), name).Some?
      ensures ok ==> Ok() && State() == Begin(old(State()), name).value
      ensures |scopes| > 0 && scopes[|scopes| - 1].closure.None?
      ensures !ok ==> scopes == old(scopes)
    {
      hide Valid;
      var top := |scopes| - 1;
      if name in scopes[top].names { return false; }
      var s := scopes[top].(names := scopes[top].names + [name], defining := true);
      TopValid(scopes, s);
      scopes := scopes[top := s];
      ok := true;
    }

    method CompleteDefinition()
      requires Ok() && |scopes| > 0 && scopes[|scopes| - 1].closure.None?
      modifies this
      ensures Ok() && State() == Complete(old(State()))
      ensures |scopes| > 0 && scopes[|scopes| - 1].closure.None?
    {
      hide Valid;
      var top := |scopes| - 1;
      var s := scopes[top].(defining := false);
      TopValid(scopes, s);
      scopes := scopes[top := s];
    }

    /** Enters `name`, the variable `definitionRank` of scope `i`, into the closures of all
        functions inside that scope, unless it is there already; then it is the same variable. */
    method AddNameToClosures(name: Name, definitionRank: nat, i: nat) returns (rank: nat)
      requires Ok() && Find(State(), name) == Some(i) && !BeingDefined(State()[i], name) && ClosedOver(State(), i)
      requires definitionRank == IndexOf(State()[i].names, name)
      modifies this
      ensures Ok() && State() == AddToClosures(old(State()), i, name) && rank == ClosureRank(State(), name)
    {
      hide Valid, LexOk, EntryFor, Capturing, Find, Own, Shapes;
      rank := definitionRank;
      var sourceIndex, isClosure := i, false;
      var j := i + 1;
      ghost var before := scopes;
      CaptureBegins(before, i, name);
      while j < |scopes|
        invariant |scopes| == |before| && i < j <= |scopes| && sourceIndex < j && Capturing(before, scopes, i, name, j)
        invariant ClosureEntry(name, rank, j - sourceIndex, isClosure) == EntryFor(Shapes(scopes)[..j], name)
      {
        CaptureAdvances(before, scopes, i, name, j);
        var s := scopes[j];
        if s.closure.Some? {
          var entries := s.closure.value;
          var k := IndexOf(EntryNames(entries), name);
          if k == |entries| {
            scopes := scopes[j := s.(closure := Some(entries + [ClosureEntry(name, rank, j - sourceIndex,
                isClosure)]))];
          } else {
            // The entry cannot be for another definition of the same name.
            assert entries[k].sourceRank == rank && entries[k].sourceIsClosure == isClosure;
          }
          rank, sourceIndex, isClosure := k, j, true;
        }
        j := j + 1;
      }
      CaptureEnds(before, scopes, i, name);
    }

    /** The address of a name: the scopes are searched from the inside out; a function between
        the use and the definition makes the name a captured one. */
    method ResolveIdentifier(name: Name) returns (r: Maybe<Expr>)
      requires Ok()
      modifies this
      ensures r.Some? ==> Ok() && ResolveName(world, name, old(State())) == Resolved(r.value, State())
      ensures r.None? ==> ResolveName(world, name, old(State())).Rejected?
      ensures r.Some? <==> NameFaults(world, name, SightOf(old(State()))) == []
    {
      hide Valid, IndexOf, Find, Own, SightOf, NameFaults;
      NameFollows(world, name, State());
      var i, closedOver := |scopes|, false;
      while i > 0
        invariant 0 <= i <= |scopes| && scopes == old(scopes)
        invariant forall j | i <= j < |scopes| :: name !in State()[j].names
        invariant closedOver <==> exists j | i <= j < |scopes| :: State()[j].closure.Some?
      {
        i := i - 1;
        var s := scopes[i];
        assert State()[i] == Shape(s);
        if name in s.names {
          FoundAt(State(), name, i, closedOver);
          if BeingDefined(Shape(s), name) { return None; }
          var rank := IndexOf(s.names, name);
          if closedOver {
            rank := AddNameToClosures(name, rank, i);
            return Some(Closed(rank));
          }
          return Some(Scoped(|scopes| - 1 - i, rank));
        }
        if s.closure.Some? { closedOver := true; }
      }
      FoundNowhere(State(), name);
      match world.Index(name)
      case Some(k) => r := Some(GlobalRef(k));
      case None => r := None;
    }

    /** The closure list of a function, relative to the scope around it: whatever hash slots the
        entries are in, each goes to its rank. */
    method ClosureList(ghost entries: seq<ClosureEntry>, count: nat, slots: seq<Maybe<ClosureSlot>>)
      returns (captures: seq<Capture>)
      requires count == |entries| && Hashed(slots, entries)
      ensures |captures| == |entries| && forall k | 0 <= k < |entries| :: captures[k] == CaptureFrom(entries[k])
    {
      hide CaptureFrom;
      var list := new Capture[count](_ => FromClosure(0));
      var i := 0;
      while i < |slots|
        invariant 0 <= i <= |slots|
        invariant forall j | 0 <= j < i && slots[j].Some? ::
          list[slots[j].value.rank] == CaptureFrom(entries[slots[j].value.rank])
      {
        if slots[i].Some? { list[slots[i].value.rank] := CaptureFrom(slots[i].value.entry); }
        i := i + 1;
      }
      captures := list[..];
    }

    // Some arrangement of the entries; nothing depends on which.
    method HashSlots(entries: seq<ClosureEntry>) returns (slots: seq<Maybe<ClosureSlot>>)
      ensures Hashed(slots, entries)
    {
      slots := seq(|entries|, k requires 0 <= k < |entries| => Some(ClosureSlot(k, entries[k])));
      assert forall k | 0 <= k < |entries| :: slots[k] == Some(ClosureSlot(k, entries[k]));
    }

    /** Resolves all names of an expression; it fails exactly where something is wrong with them. */
    method ResolveNames(e: NExpr) returns (r: Maybe<Expr>)
      requires Ok()
      modifies this
      ensures r.Some? ==> Ok() && ResolveExpr(world, e, old(State())) == Resolved(r.value, State())
      ensures r.None? ==> ResolveExpr(world, e, old(State())).Rejected?
      ensures r.Some? <==> Faults(world, e, SightOf(old(State()))) == []
      decreases e, 1
    {
      hide Valid, ResolveName, ResolveSignature, SightOf, Faults;
      ExprFollows(world, e, State());
      match e
      case NLit(n) => r := Some(Lit(n));
      case NName(name) => r := ResolveIdentifier(name);
      case NUnary(op, e1) =>
        r := ResolveNames(e1);
        if r.Some? { r := Some(Unary(op, r.value)); }
      case NBinary(op, x, y) =>
        var q := ResolveTwo(e, x, y);
        r := if q.Some? then Some(Binary(op, q.value.0, q.value.1)) else None;
      case NIfElse(c, t, f) =>
        var q := ResolveTwo(e, c, t);
        if q.None? { return None; }
        r := ResolveNames(f);
        if r.Some? { r := Some(IfElse(q.value.0, q.value.1, r.value)); }
      case NIfOnly(c, t) =>
        var q := ResolveTwo(e, c, t);
        r := if q.Some? then Some(IfOnly(q.value.0, q.value.1)) else None;
      case NFor(_, _, _) => r := ResolveLoop(e);
      case NBlock(items) => r := ResolveBlock(e);
      case NSet(x, y) =>
        var q := ResolveTwo(e, x, y);
        r := if q.Some? then Some(Set(q.value.0, q.value.1)) else None;
      case NOpSet(op, x, y) =>
        var q := ResolveTwo(e, x, y);
        r := if q.Some? then Some(OpSet(op, q.value.0, q.value.1)) else None;
      case NFunc(_, _, _) => r := ResolveFunction(e);
      case NCall(f, args) =>
        r := ResolveNames(f);
        if r.None? { return; }
        var rs := ResolveArguments(args);
        r := if rs.Some? then Some(Call(r.value, rs.value)) else None;
    }

    method ResolveTwo(ghost e: NExpr, x: NExpr, y: NExpr) returns (r: Maybe<(Expr, Expr)>)
      requires Ok() && x < e && y < e
      modifies this
      ensures r.Some? ==> Ok() && ResolvePair(world, e, x, y, old(State())) == Resolved(r.value, State())
      ensures r.None? ==> ResolvePair(world, e, x, y, old(State())).Rejected?
      decreases e, 0
    {
      hide Valid, ResolveExpr;
      var p := ResolveNames(x);
      if p.None? { return None; }
      var q := ResolveNames(y);
      r := if q.Some? then Some((p.value, q.value)) else None;
    }

    method ResolveLoop(e: NExpr) returns (r: Maybe<Expr>)
      requires Ok() && e.NFor?
      modifies this
      ensures r.Some? ==> Ok() && ResolveExpr(world, e, old(State())) == Resolved(r.value, State())
      ensures r.None? ==> ResolveExpr(world, e, old(State())).Rejected?
      decreases e, 0
    {
      hide Valid;
      var c := ResolveNames(e.cond);
      if c.None? { return None; }
      var step := NoStep;
      if e.step.NAdvance? {
        var s := ResolveNames(e.step.e);
        if s.None? { return None; }
        step := Advance(s.value);
      }
      var b := ResolveNames(e.body);
      r := if b.Some? then Some(For(c.value, b.value, step)) else None;
    }

    method ResolveArguments(args: NArgs) returns (r: Maybe<Args>)
      requires Ok()
      modifies this
      ensures r.Some? ==> Ok() && ResolveArgs(world, args, old(State())) == Resolved(r.value, State())
      ensures r.None? ==> ResolveArgs(world, args, old(State())).Rejected?
      decreases args, 0
    {
      hide Valid, ResolveExpr;
      match args
      case NNoArgs => r := Some(NoArgs);
      case NArg(e, rest) =>
        var p := ResolveNames(e);
        if p.None? { return None; }
        r := ResolveArguments(rest);
        if r.Some? { r := Some(Arg(p.value, r.value)); }
    }

    method ResolveBlock(e: NExpr) returns (r: Maybe<Expr>)
      requires Ok() && e.NBlock?
      modifies this
      ensures r.Some? ==> Ok() && ResolveExpr(world, e, old(State())) == Resolved(r.value, State())
      ensures r.None? ==> ResolveExpr(world, e, old(State())).Rejected?
      decreases e, 0
    {
      hide Valid, ResolveItems;
      PushScope([], false);
      var items := ResolveStatements(e.items);
      if items.None? { return None; }
      PopScope();
      r := Some(Block(items.value));
    }

    // The statements of a block whose scope is open.
    method ResolveStatements(items: NItems) returns (r: Maybe<Items>)
      requires Ok() && |scopes| > 0 && scopes[|scopes| - 1].closure.None?
      modifies this
      ensures r.Some? ==> Ok() && ResolveItems(world, items, old(State())) == Resolved(r.value, State())
      ensures r.Some? ==> |scopes| > 0 && scopes[|scopes| - 1].closure.None?
      ensures r.None? ==> ResolveItems(world, items, old(State())).Rejected?
      decreases items, 1
    {
      hide Valid, ResolveExpr, Begin, Complete;
      match items
      case NEnd => r := Some(End);
      case NDo(e, rest) =>
        var p := ResolveStatement(e);
        if p.None? { return None; }
        r := ResolveStatements(rest);
        if r.Some? { r := Some(Do(p.value, r.value)); }
      case NLet(_, _, _, _) => r := ResolveUntyped(items);
      case NTypedLet(_, _, _, _, _) => r := ResolveTyped(items);
    }

    method ResolveUntyped(items: NItems) returns (r: Maybe<Items>)
      requires Ok() && |scopes| > 0 && scopes[|scopes| - 1].closure.None? && items.NLet?
      modifies this
      ensures r.Some? ==> Ok() && ResolveItems(world, items, old(State())) == Resolved(r.value, State())
      ensures r.Some? ==> |scopes| > 0 && scopes[|scopes| - 1].closure.None?
      ensures r.None? ==> ResolveItems(world, items, old(State())).Rejected?
      decreases items, 0
    {
      hide Valid, ResolveExpr, Begin, Complete;
      var ok := BeginDefinition(items.name);
      if !ok { return None; }
      var v := ResolveStatement(items.value);
      if v.None? { return None; }
      CompleteDefinition();
      r := ResolveStatements(items.rest);
      if r.Some? { r := Some(Let(items.isMut, v.value, r.value)); }
    }

    method ResolveTyped(items: NItems) returns (r: Maybe<Items>)
      requires Ok() && |scopes| > 0 && scopes[|scopes| - 1].closure.None? && items.NTypedLet?
      modifies this
      ensures r.Some? ==> Ok() && ResolveItems(world, items, old(State())) == Resolved(r.value, State())
      ensures r.Some? ==> |scopes| > 0 && scopes[|scopes| - 1].closure.None?
      ensures r.None? ==> ResolveItems(world, items, old(State())).Rejected?
      decreases items, 0
    {
      hide Valid, ResolveExpr, Begin, Complete;
      var ok := BeginDefinition(items.name);
      if !ok { return None; }
      var t := ResolveStatement(items.ty);
      if t.None? { return None; }
      var v := ResolveStatement(items.value);
      if v.None? { return None; }
      CompleteDefinition();
      r := ResolveStatements(items.rest);
      if r.Some? { r := Some(TypedLet(items.isMut, t.value, v.value, r.value)); }
    }

    // An expression in a block: the block's scope stays the innermost one.
    method ResolveStatement(e: NExpr) returns (r: Maybe<Expr>)
      requires Ok() && |scopes| > 0 && scopes[|scopes| - 1].closure.None?
      modifies this
      ensures r.Some? ==> Ok() && ResolveExpr(world, e, old(State())) == Resolved(r.value, State())
      ensures r.Some? ==> |scopes| > 0 && scopes[|scopes| - 1].closure.None?
      ensures r.None? ==> ResolveExpr(world, e, old(State())).Rejected?
      decreases e, 2
    {
      hide Valid, ResolveExpr;
      r := ResolveNames(e);
      if r.Some? {
        ExprSteady(world, e, old(State()));
        TopStays(old(State()), State());
        TopShape(old(scopes));
        TopShape(scopes);
      }
    }

    method ResolveFunction(e: NExpr) returns (r: Maybe<Expr>)
      requires Ok() && e.NFunc?
      modifies this
      ensures r.Some? ==> Ok() && ResolveExpr(world, e, old(State())) == Resolved(r.value, State())
      ensures r.None? ==> ResolveExpr(world, e, old(State())).Rejected?
      decreases e, 0
    {
      hide Valid, ResolveSignature, LexOk, Grows, Linked, EntryFor;
      var signature := ResolveSignature(world, e.params, e.ret, [], State());
      if signature.Rejected? { return None; }
      var params := NParamNames(e.params);
      PushScope(params, true);
      var body := ResolveNames(e.body);
      if body.None? { return None; }
      BodySteady(world, params, e.body, old(State()));
      var top := |scopes| - 1;
      TopShape(scopes);
      var entries := scopes[top].closure.value;
      var slots := HashSlots(entries);
      var captures := ClosureList(entries, |entries|, slots);
      ClosureListRight(scopes, captures);
      PopScope();
      r := Some(Func(signature.value, captures, body.value));
    }
  }

  lemma FoundAt(scopes: seq<LexScope>, name: Name, i: nat, closedOver: bool)
    requires i < |scopes| && name in scopes[i].names && forall j | i < j < |scopes| :: name !in scopes[j].names
    requires closedOver <==> exists j | i < j < |scopes| :: scopes[j].closure.Some?
    ensures Find(scopes, name) == Some(i) && ClosedOver(scopes, i) == closedOver
  {
  }

  lemma FoundNowhere(scopes: seq<LexScope>, name: Name)
    requires forall j | 0 <= j < |scopes| :: name !in scopes[j].names
    ensures Find(scopes, name) == None
  {
  }

  lemma TopShape(scopes: seq<Scope>)
    requires |scopes| > 0
    ensures Shapes(scopes)[|scopes| - 1].closure.Some? == scopes[|scopes| - 1].closure.Some?
  {
  }

  lemma TopStays(a: seq<LexScope>, b: seq<LexScope>)
    requires Steady(a, b) && |a| > 0
    ensures |b| == |a| && b[|b| - 1].closure.Some? == a[|a| - 1].closure.Some?
  {
    hide LexOk;
    assert ScopeGrows(a[|a| - 1], b[|b| - 1]);
  }

  lemma ClosureListRight(scopes: seq<Scope>, captures: seq<Capture>)
    requires Valid(scopes) && |scopes| > 0 && scopes[|scopes| - 1].closure.Some?
    requires |captures| == |scopes[|scopes| - 1].closure.value|
    requires forall k | 0 <= k < |captures| :: captures[k] == CaptureFrom(scopes[|scopes| - 1].closure.value[k])
    ensures var s := Shapes(scopes);
      captures == CaptureList(s[..|s| - 1], s[|s| - 1].closure.value)
  {
    hide Find, Own, EntryFor, CaptureFrom, CaptureOf;
    var top := |scopes| - 1;
    var es, below := scopes[top].closure.value, Shapes(scopes)[..top];
    assert EntriesRight(scopes, top) && ClosureOk(Shapes(scopes), top);
    assert Shapes(scopes)[top] == Shape(scopes[top]);
    forall k | 0 <= k < |captures|
      ensures captures[k] == CaptureOf(below, EntryNames(es)[k])
    {
      assert EntryNames(es)[k] in Shapes(scopes)[top].closure.value;
      CaptureRight(below, EntryNames(es)[k]);
    }
  }

  lemma CaptureBegins(scopes: seq<Scope>, i: nat, name: Name)
    requires Valid(scopes) && Find(Shapes(scopes), name) == Some(i)
    ensures i < |scopes| && Capturing(scopes, scopes, i, name, i + 1)
    ensures EntryFor(Shapes(scopes)[..i + 1], name)
      == ClosureEntry(name, IndexOf(Shapes(scopes)[i].names, name), 1, false)
  {
    hide LexOk, EntriesRight;
    assert Shapes(scopes) == AddedUpTo(Shapes(scopes), i, name, i + 1);
    var below := Shapes(scopes)[..i + 1];
    FindBelow(Shapes(scopes), i + 1, name);
  }

  // What one more scope does to the entry of `name`, and to the state.
  lemma CaptureAdvances(old_: seq<Scope>, now: seq<Scope>, i: nat, name: Name, j: nat)
    requires Valid(old_) && Find(Shapes(old_), name) == Some(i) && Capturing(old_, now, i, name, j) && j < |now|
    ensures
      var e := EntryFor(Shapes(now)[..j], name);
      var s := now[j];
      if s.closure.None? then
        Capturing(old_, now, i, name, j + 1) && EntryFor(Shapes(now)[..j + 1], name) == e.(sourceOut := e.sourceOut + 1)
      else
        var k := IndexOf(EntryNames(s.closure.value), name);
        if k < |s.closure.value| then
          && Capturing(old_, now, i, name, j + 1) && s.closure.value[k] == e
          && EntryFor(Shapes(now)[..j + 1], name) == ClosureEntry(name, k, 1, true)
        else
          var after := now[j := s.(closure := Some(s.closure.value + [e]))];
          && Capturing(old_, after, i, name, j + 1)
          && EntryFor(Shapes(after)[..j + 1], name) == ClosureEntry(name, k, 1, true)
  {
    hide Valid, LexOk, EntriesRight, EntryFor, Find;
    CaptureFinds(old_, now, i, name, j);
    var e, s := EntryFor(Shapes(now)[..j], name), now[j];
    assert Shapes(now)[..j + 1] == Shapes(now)[..j] + [Shape(s)];
    if s.closure.None? {
      CapturePlain(old_, now, i, name, j);
      EntryStep(Shapes(now)[..j], Shape(s), name);
    } else {
      var k := IndexOf(EntryNames(s.closure.value), name);
      if k < |s.closure.value| {
        CapturePresent(old_, now, i, name, j);
        EntryStep(Shapes(now)[..j], Shape(s), name);
        EntryThere(now, j, k);
      } else {
        var s' := s.(closure := Some(s.closure.value + [e]));
        var after := now[j := s'];
        CaptureAbsent(old_, now, i, name, j, s');
        ShapesUpdate(now, j, s');
        assert Shapes(after)[..j + 1] == Shapes(now)[..j] + [Shape(s')];
        EntryStep(Shapes(now)[..j], Shape(s'), name);
        NewRank(s.closure.value, e);
      }
    }
  }

  lemma EntryThere(now: seq<Scope>, j: nat, k: nat)
    requires j < |now| && EntriesRight(now, j) && now[j].closure.Some? && k < |now[j].closure.value|
    ensures now[j].closure.value[k] == EntryFor(Shapes(now)[..j], now[j].closure.value[k].name)
  {
  }

  lemma NewRank(es: seq<ClosureEntry>, e: ClosureEntry)
    requires e.name !in EntryNames(es)
    ensures IndexOf(EntryNames(es + [e]), e.name) == |es|
  {
    assert EntryNames(es + [e]) == EntryNames(es) + [e.name];
    IndexOfAppend(EntryNames(es), [e.name], e.name);
  }

  lemma CaptureFinds(old_: seq<Scope>, now: seq<Scope>, i: nat, name: Name, j: nat)
    requires Find(Shapes(old_), name) == Some(i) && Capturing(old_, now, i, name, j) && j < |now|
    ensures Find(Shapes(now)[..j], name) == Some(i) && name !in Shape(now[j]).names
    ensures EntryFor(Shapes(now)[..j], name).name == name
    ensures EntriesRight(now, j)
  {
    hide EntriesRight;
    AddedGrows(Shapes(old_), i, name, j);
    FindGrows(Shapes(old_), Shapes(now), name);
    FindBelow(Shapes(now), j, name);
    assert Shapes(now)[j] == Shape(now[j]);
  }

  lemma CaptureEnds(old_: seq<Scope>, now: seq<Scope>, i: nat, name: Name)
    requires Valid(old_) && Find(Shapes(old_), name) == Some(i) && !BeingDefined(Shapes(old_)[i], name)
    requires ClosedOver(Shapes(old_), i)
    requires |now| == |old_| && Capturing(old_, now, i, name, |now|)
    ensures Valid(now) && Shapes(now) == AddToClosures(Shapes(old_), i, name)
    ensures EntryFor(Shapes(now)[..|now|], name).sourceRank == ClosureRank(Shapes(now), name)
  {
    hide EntriesRight, LexOk;
    AddedGrows(Shapes(old_), i, name, |now|);
    AddOk(Shapes(old_), name);
    FindGrows(Shapes(old_), Shapes(now), name);
    OwnGrows(Shapes(old_), Shapes(now));
    assert Shapes(now)[..|now|] == Shapes(now);
  }
}
