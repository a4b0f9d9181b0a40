/** Which texts have all their names right, said about the text alone: what is in sight where a name
    is used, and what is wrong with it, without addresses, closures or an analyser. */
module Naming {
  import opened Basics
  import opened Named
  import opened Resolve

  /** The local names in sight, and those among them whose own definition is not complete. */
  datatype Sight = Sight(seen: set<Name>, unfinished: set<Name>) {
    function With(names: set<Name>): Sight {
      Sight(seen + names, unfinished - names)
    }

    function Defining(name: Name): Sight {
      Sight(seen + {name}, unfinished + {name})
    }
  }

  const NOTHING_SEEN: Sight := Sight({}, {})

  predicate IsGlobal(w: World, name: Name) {
    name in w.prelude || name in w.file
  }

  function NamesOf(names: seq<Name>): set<Name> {
    set name | name in names
  }

  // A name must be in sight or global, and must not be used in its own definition.
  function NameFaults(w: World, name: Name, s: Sight): seq<Problem> {
    if name in s.unfinished then [SelfReference]
    else if name in s.seen || IsGlobal(w, name) then []
    else [NotDefined]
  }

  // A type in a signature must be global.
  function TypeFaults(w: World, name: Name, s: Sight): seq<Problem> {
    if name in s.seen then [LocalType] else if IsGlobal(w, name) then [] else [NotDefined]
  }

  // `names` is the scope the definition goes to.
  function NewFaults(name: Name, names: set<Name>): seq<Problem> {
    if name in names then [Duplicate] else []
  }

  // A parameter is in sight of its own type and of all that follows.
  function SignatureFaults(w: World, params: seq<NParam>, ret: Name, names: set<Name>, s: Sight): seq<Problem>
    decreases |params|
  {
    if params == [] then TypeFaults(w, ret, s.With(names))
    else
      var names' := names + {params[0].name};
      NewFaults(params[0].name, names) + TypeFaults(w, params[0].ty, s.With(names'))
      + SignatureFaults(w, params[1..], ret, names', s)
  }

  /** Everything that is wrong with the names of an expression, in the order of the text. */
  function Faults(w: World, e: NExpr, s: Sight): seq<Problem>
    decreases e
  {
    match e
    case NLit(_) => []
    case NName(name) => NameFaults(w, name, s)
    case NUnary(_, e1) => Faults(w, e1, s)
    case NBinary(_, l, r) => Faults(w, l, s) + Faults(w, r, s)
    case NIfElse(c, t, f) => Faults(w, c, s) + Faults(w, t, s) + Faults(w, f, s)
    case NIfOnly(c, t) => Faults(w, c, s) + Faults(w, t, s)
    case NFor(c, body, step) => Faults(w, c, s) + StepFaults(w, step, s) + Faults(w, body, s)
    case NBlock(items) => ItemsFaults(w, items, {}, s)
    case NSet(l, r) => Faults(w, l, s) + Faults(w, r, s)
    case NOpSet(_, l, r) => Faults(w, l, s) + Faults(w, r, s)
    case NFunc(params, ret, body) =>
      SignatureFaults(w, params, ret, {}, s) + Faults(w, body, s.With(NamesOf(NParamNames(params))))
    case NCall(f, args) => Faults(w, f, s) + ArgsFaults(w, args, s)
  }

  function StepFaults(w: World, step: NStep, s: Sight): seq<Problem>
    decreases step
  {
    match step
    case NNoStep => []
    case NAdvance(e) => Faults(w, e, s)
  }

  // A definition is in sight of its own parts, unfinished, and then of the rest of the block.
  function ItemsFaults(w: World, items: NItems, names: set<Name>, s: Sight): seq<Problem>
    decreases items
  {
    match items
    case NEnd => []
    case NLet(name, _, value, rest) =>
      NewFaults(name, names) + Faults(w, value, s.Defining(name))
      + ItemsFaults(w, rest, names + {name}, s.With({name}))
    case NTypedLet(name, _, ty, value, rest) =>
      NewFaults(name, names) + Faults(w, ty, s.Defining(name)) + Faults(w, value, s.Defining(name))
      + ItemsFaults(w, rest, names + {name}, s.With({name}))
    case NDo(e, rest) => Faults(w, e, s) + ItemsFaults(w, rest, names, s)
  }

  function ArgsFaults(w: World, args: NArgs, s: Sight): seq<Problem>
    decreases args
  {
    match args
    case NNoArgs => []
    case NArg(e, rest) => Faults(w, e, s) + ArgsFaults(w, rest, s)
  }

  /** A text without a fault. */
  predicate WellNamed(w: World, e: NExpr) {
    Faults(w, e, NOTHING_SEEN) == []
  }
}
