/** Name resolution and closure conversion, as a function of the scopes that are open.

    Names become addresses: of a variable in an enclosing scope of the same function, of a
    captured value, or of a global. A name that is used across functions is entered into the
    closures of all functions between its definition and its use. */
module Resolve {
  import opened Basics
  import opened Lang
  import opened Named

  /** An open scope: its definitions in order of their ranks; whether the last one is still
      being defined; and, for a function, the names its closure holds so far, by rank. */
  datatype LexScope = LexScope(names: seq<Name>, defining: bool, closure: Maybe<seq<Name>>)

  datatype Problem = NotDefined | Duplicate | SelfReference | LocalType

  datatype Resolution<T> = Resolved(value: T, scopes: seq<LexScope>) | Rejected(problem: Problem)

  // ---------- Scopes ----------

  // The innermost scope that defines `name`.
  function Find(scopes: seq<LexScope>, name: Name): (i: Maybe<nat>)
    ensures i.Some? ==> i.value < |scopes| && name in scopes[i.value].names
    ensures i.Some? ==> forall j | i.value < j < |scopes| :: name !in scopes[j].names
    ensures i.None? ==> forall j | 0 <= j < |scopes| :: name !in scopes[j].names
  {
    if scopes == [] then None
    else if name in scopes[|scopes| - 1].names then Some(|scopes| - 1)
    else Find(scopes[..|scopes| - 1], name)
  }

  // The scope of the innermost function.
  function Own(scopes: seq<LexScope>): (i: Maybe<nat>)
    ensures i.Some? ==> i.value < |scopes| && scopes[i.value].closure.Some?
    ensures i.Some? ==> forall j | i.value < j < |scopes| :: scopes[j].closure.None?
    ensures i.None? ==> forall j | 0 <= j < |scopes| :: scopes[j].closure.None?
  {
    if scopes == [] then None
    else if scopes[|scopes| - 1].closure.Some? then Some(|scopes| - 1)
    else Own(scopes[..|scopes| - 1])
  }

  // A variable of scope `i` belongs to an enclosing function.
  predicate ClosedOver(scopes: seq<LexScope>, i: nat) {
    Own(scopes).Some? && i < Own(scopes).value
  }

  predicate BeingDefined(s: LexScope, name: Name) {
    s.defining && IndexOf(s.names, name) + 1 == |s.names|
  }

  function Captures(s: LexScope, name: Name): LexScope {
    if s.closure.Some? && name !in s.closure.value then s.(closure := Some(s.closure.value + [name])) else s
  }

  // `name`, defined in scope `i`, is needed in all functions inside that scope.
  function AddToClosures(scopes: seq<LexScope>, i: nat, name: Name): (r: seq<LexScope>)
    ensures |r| == |scopes|
    ensures forall j | 0 <= j < |r| :: r[j] == if i < j then Captures(scopes[j], name) else scopes[j]
  {
    seq(|scopes|, j requires 0 <= j < |scopes| => if i < j then Captures(scopes[j], name) else scopes[j])
  }

  function ClosureRank(scopes: seq<LexScope>, name: Name): nat {
    if Own(scopes).Some? then IndexOf(scopes[Own(scopes).value].closure.value, name) else 0
  }

  // ---------- Expressions ----------

  function ResolveName(w: World, name: Name, scopes: seq<LexScope>): Resolution<Expr> {
    match Find(scopes, name)
    case Some(i) =>
      if BeingDefined(scopes[i], name) then Rejected(SelfReference)
      else if ClosedOver(scopes, i) then
        var after := AddToClosures(scopes, i, name);
        Resolved(Closed(ClosureRank(after, name)), after)
      else Resolved(Scoped(|scopes| - 1 - i, IndexOf(scopes[i].names, name)), scopes)
    case None =>
      match w.Index(name)
      case Some(k) => Resolved(GlobalRef(k), scopes)
      case None => Rejected(NotDefined)
  }

  /** Where the value of `name` is when the function whose scope comes next is created. */
  function CaptureOf(below: seq<LexScope>, name: Name): Capture {
    match Find(below, name)
    case Some(i) =>
      if ClosedOver(below, i) then FromClosure(ClosureRank(below, name))
      else FromScope(|below| - 1 - i, IndexOf(below[i].names, name))
    case None => FromScope(|below|, 0)
  }

  function CaptureList(below: seq<LexScope>, closure: seq<Name>): (cs: seq<Capture>)
    ensures |cs| == |closure|
  {
    seq(|closure|, k requires 0 <= k < |closure| => CaptureOf(below, closure[k]))
  }

  // A type in a signature must be a global.
  function ResolveType(w: World, name: Name, names: seq<Name>, scopes: seq<LexScope>): Resolution<Expr> {
    if name in names || Find(scopes, name).Some? then Rejected(LocalType)
    else
      match w.Index(name)
      case Some(k) => Resolved(GlobalRef(k), scopes)
      case None => Rejected(NotDefined)
  }

  // `names` are the parameters so far, including the current one.
  function ResolveSignature(w: World, params: seq<NParam>, ret: Name, names: seq<Name>,
      scopes: seq<LexScope>): Resolution<Signature>
    decreases |params|
  {
    if params == [] then
      match ResolveType(w, ret, names, scopes)
      case Resolved(e, _) => Resolved(Returns(e), scopes)
      case Rejected(p) => Rejected(p)
    else if params[0].name in names then Rejected(Duplicate)
    else
      match ResolveType(w, params[0].ty, names + [params[0].name], scopes)
      case Resolved(e, _) =>
        (match ResolveSignature(w, params[1..], ret, names + [params[0].name], scopes)
         case Resolved(sig, _) => Resolved(Param(params[0].isMut, e, sig), scopes)
         case Rejected(p) => Rejected(p))
      case Rejected(p) => Rejected(p)
  }

  function Enter(scopes: seq<LexScope>, params: seq<Name>): seq<LexScope> {
    scopes + [LexScope(params, false, Some([]))]
  }

  function ResolveExpr(w: World, e: NExpr, scopes: seq<LexScope>): Resolution<Expr>
    decreases e, 1
  {
    match e
    case NLit(n) => Resolved(Lit(n), scopes)
    case NName(name) => ResolveName(w, name, scopes)
    case NUnary(op, e1) =>
      (match ResolveExpr(w, e1, scopes)
       case Resolved(r1, s1) => Resolved(Unary(op, r1), s1)
       case Rejected(p) => Rejected(p))
    case NBinary(op, l, r) =>
      (match ResolvePair(w, e, l, r, scopes)
       case Resolved(lr, s1) => Resolved(Binary(op, lr.0, lr.1), s1)
       case Rejected(p) => Rejected(p))
    case NIfElse(c, t, f) =>
      (match ResolvePair(w, e, c, t, scopes)
       case Resolved(ct, s1) =>
         (match ResolveExpr(w, f, s1)
          case Resolved(r, s2) => Resolved(IfElse(ct.0, ct.1, r), s2)
          case Rejected(p) => Rejected(p))
       case Rejected(p) => Rejected(p))
    case NIfOnly(c, t) =>
      (match ResolvePair(w, e, c, t, scopes)
       case Resolved(ct, s1) => Resolved(IfOnly(ct.0, ct.1), s1)
       case Rejected(p) => Rejected(p))
    case NFor(c, body, step) =>
      (match ResolveExpr(w, c, scopes)
       case Resolved(rc, s1) =>
         (match ResolveStep(w, step, s1)
          case Resolved(rs, s2) =>
            (match ResolveExpr(w, body, s2)
             case Resolved(rb, s3) => Resolved(For(rc, rb, rs), s3)
             case Rejected(p) => Rejected(p))
          case Rejected(p) => Rejected(p))
       case Rejected(p) => Rejected(p))
    case NBlock(items) =>
      (match ResolveItems(w, items, scopes + [LexScope([], false, None)])
       case Resolved(r, s1) => if s1 == [] then Rejected(NotDefined) else Resolved(Block(r), s1[..|s1| - 1])
       case Rejected(p) => Rejected(p))
    case NSet(l, r) =>
      (match ResolvePair(w, e, l, r, scopes)
       case Resolved(lr, s1) => Resolved(Set(lr.0, lr.1), s1)
       case Rejected(p) => Rejected(p))
    case NOpSet(op, l, r) =>
      (match ResolvePair(w, e, l, r, scopes)
       case Resolved(lr, s1) => Resolved(OpSet(op, lr.0, lr.1), s1)
       case Rejected(p) => Rejected(p))
    case NFunc(params, ret, body) =>
      (match ResolveSignature(w, params, ret, [], scopes)
       case Resolved(sig, _) =>
         (match ResolveBody(w, NParamNames(params), body, scopes)
          case Resolved(b, s1) => Resolved(Func(sig, b.1, b.0), s1)
          case Rejected(p) => Rejected(p))
       case Rejected(p) => Rejected(p))
    case NCall(f, args) =>
      (match ResolveExpr(w, f, scopes)
       case Resolved(r, s1) =>
         (match ResolveArgs(w, args, s1)
          case Resolved(rs, s2) => Resolved(Call(r, rs), s2)
          case Rejected(p) => Rejected(p))
       case Rejected(p) => Rejected(p))
  }

  function ResolveStep(w: World, step: NStep, scopes: seq<LexScope>): Resolution<LoopStep>
    decreases step, 0
  {
    match step
    case NNoStep => Resolved(NoStep, scopes)
    case NAdvance(e) =>
      (match ResolveExpr(w, e, scopes)
       case Resolved(r, s1) => Resolved(Advance(r), s1)
       case Rejected(p) => Rejected(p))
  }

  // Two parts of `e`, one after the other.
  function ResolvePair(w: World, ghost e: NExpr, l: NExpr, r: NExpr, scopes: seq<LexScope>): Resolution<(Expr, Expr)>
    requires l < e && r < e
    decreases e, 0
  {
    match ResolveExpr(w, l, scopes)
    case Resolved(rl, s1) =>
      (match ResolveExpr(w, r, s1)
       case Resolved(rr, s2) => Resolved((rl, rr), s2)
       case Rejected(p) => Rejected(p))
    case Rejected(p) => Rejected(p)
  }

  // The body of a function, what it captures, and the scopes around the function.
  function ResolveBody(w: World, params: seq<Name>, body: NExpr, scopes: seq<LexScope>): Resolution<(Expr,
      seq<Capture>)>
    decreases body, 2
  {
    match ResolveExpr(w, body, Enter(scopes, params))
    case Resolved(b, s1) =>
      if s1 == [] || s1[|s1| - 1].closure.None? then Rejected(NotDefined)
      else
        var below := s1[..|s1| - 1];
        Resolved((b, CaptureList(below, s1[|s1| - 1].closure.value)), below)
    case Rejected(p) => Rejected(p)
  }

  // A definition is entered into the innermost scope before its parts are resolved.
  function Begin(scopes: seq<LexScope>, name: Name): Maybe<seq<LexScope>> {
    if scopes == [] || name in scopes[|scopes| - 1].names then None
    else
      var top := |scopes| - 1;
      Some(scopes[top := scopes[top].(names := scopes[top].names + [name], defining := true)])
  }

  function Complete(scopes: seq<LexScope>): seq<LexScope> {
    if scopes == [] then [] else scopes[|scopes| - 1 := scopes[|scopes| - 1].(defining := false)]
  }

  function ResolveItems(w: World, items: NItems, scopes: seq<LexScope>): Resolution<Items>
    decreases items, 0
  {
    match items
    case NEnd => Resolved(End, scopes)
    case NLet(name, isMut, value, rest) =>
      (match Begin(scopes, name)
       case None => Rejected(Duplicate)
       case Some(s0) =>
         (match ResolveExpr(w, value, s0)
          case Resolved(v, s1) =>
            (match ResolveItems(w, rest, Complete(s1))
             case Resolved(r, s2) => Resolved(Let(isMut, v, r), s2)
             case Rejected(p) => Rejected(p))
          case Rejected(p) => Rejected(p)))
    case NTypedLet(name, isMut, ty, value, rest) =>
      (match Begin(scopes, name)
       case None => Rejected(Duplicate)
       case Some(s0) =>
         (match ResolveExpr(w, ty, s0)
          case Resolved(t, s1) =>
            (match ResolveExpr(w, value, s1)
             case Resolved(v, s2) =>
               (match ResolveItems(w, rest, Complete(s2))
                case Resolved(r, s3) => Resolved(TypedLet(isMut, t, v, r), s3)
                case Rejected(p) => Rejected(p))
             case Rejected(p) => Rejected(p))
          case Rejected(p) => Rejected(p)))
    case NDo(e, rest) =>
      (match ResolveExpr(w, e, scopes)
       case Resolved(r1, s1) =>
         (match ResolveItems(w, rest, s1)
          case Resolved(r, s2) => Resolved(Do(r1, r), s2)
          case Rejected(p) => Rejected(p))
       case Rejected(p) => Rejected(p))
  }

  function ResolveArgs(w: World, args: NArgs, scopes: seq<LexScope>): Resolution<Args>
    decreases args, 0
  {
    match args
    case NNoArgs => Resolved(NoArgs, scopes)
    case NArg(e, rest) =>
      (match ResolveExpr(w, e, scopes)
       case Resolved(r1, s1) =>
         (match ResolveArgs(w, rest, s1)
          case Resolved(r, s2) => Resolved(Arg(r1, r), s2)
          case Rejected(p) => Rejected(p))
       case Rejected(p) => Rejected(p))
  }
}
