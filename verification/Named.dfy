/** The fragment before name resolution, and what it means when functions capture by value:
    creating a function copies every variable that is visible at that point. */
module Named {
  import opened Basics
  import opened Lang

  type Name = nat

  datatype NExpr =
    | NLit(n: int)
    | NName(name: Name)
    | NUnary(uop: UnaryKind, operand: NExpr)
    | NBinary(bop: BinaryKind, lhs: NExpr, rhs: NExpr)
    | NIfElse(cond: NExpr, thn: NExpr, els: NExpr)
    | NIfOnly(cond: NExpr, thn: NExpr)
    | NFor(cond: NExpr, body: NExpr, step: NStep)
    | NBlock(items: NItems)
    | NSet(target: NExpr, value: NExpr)
    | NOpSet(bop: BinaryKind, target: NExpr, value: NExpr)
    | NFunc(params: seq<NParam>, ret: Name, body: NExpr)
    | NCall(callee: NExpr, args: NArgs)

  datatype NStep = NNoStep | NAdvance(e: NExpr)
  datatype NItems =
    | NEnd
    | NLet(name: Name, isMut: bool, value: NExpr, rest: NItems)
    | NTypedLet(name: Name, isMut: bool, ty: NExpr, value: NExpr, rest: NItems)
    | NDo(e: NExpr, rest: NItems)
  // Parameter and return types are names of globals.
  datatype NParam = NParam(name: Name, isMut: bool, ty: Name)
  datatype NArgs = NNoArgs | NArg(e: NExpr, rest: NArgs)

  /** The body of a function value: its parameters, and the names of what it captured. */
  datatype Code = Code(params: seq<Name>, body: NExpr, captured: seq<Name>)

  type NV = Value<Code>
  type NEnv = EnvOf<Code>
  type NOperand = OperandOf<Code>
  type NResult<T> = ResultOf<T, Code>

  /** Global names: the prelude's and the file's. */
  datatype Globals = Globals(prelude: seq<Name>, file: seq<Name>)

  // ---------- Looking up names ----------

  function IndexOf(names: seq<Name>, name: Name): (k: nat)
    ensures k <= |names| && (k < |names| <==> name in names)
    ensures k < |names| ==> names[k] == name
  {
    if names == [] then 0
    else if names[0] == name then 0
    else 1 + IndexOf(names[1..], name)
  }

  /** Where a visible variable is: in a scope of the running function, or captured. */
  datatype Site = Local(scope: nat, rank: nat) | Kept(k: nat)
  datatype Binding = Binding(name: Name, site: Site)

  function ScopeBindings(names: seq<Name>, scope: nat): (bs: seq<Binding>)
    ensures |bs| == |names|
  {
    seq(|names|, r requires 0 <= r < |names| => Binding(names[r], Local(scope, r)))
  }

  function CapturedBindings(captured: seq<Name>): (bs: seq<Binding>)
    ensures |bs| == |captured|
  {
    seq(|captured|, k requires 0 <= k < |captured| => Binding(captured[k], Kept(k)))
  }

  // What is visible, innermost first.
  function Visible(names: seq<seq<Name>>, captured: seq<Name>): seq<Binding> {
    if names == [] then CapturedBindings(captured)
    else ScopeBindings(names[|names| - 1], |names| - 1) + Visible(names[..|names| - 1], captured)
  }

  function BindingNames(bs: seq<Binding>): (names: seq<Name>)
    ensures |names| == |bs|
  {
    seq(|bs|, i requires 0 <= i < |bs| => bs[i].name)
  }

  /** The running function: the names of its variables, scope by scope, and of its captures. */
  datatype Context = Context(names: seq<seq<Name>>, captured: seq<Name>) {
    function Bindings(): seq<Binding> {
      Visible(names, captured)
    }

    function Pushed(): Context {
      Context(names + [[]], captured)
    }

    function Declared(name: Name): Context
      requires |names| > 0
    {
      var top := |names| - 1;
      Context(names[top := names[top] + [name]], captured)
    }
  }

  // An unreadable operand stands for a variable that does not exist.
  function SiteOperand(env: NEnv, site: Site): NOperand {
    match site
    case Local(scope, rank) => Place(scope, rank)
    case Kept(k) => if k < |env.closure| then Fixed(env.closure[k]) else Place(|env.scopes|, 0)
  }

  /** Global names, those of the prelude and those of the file, and what they stand for. */
  datatype World = World(prelude: seq<Name>, file: seq<Name>, values: seq<Global>) {
    // A name of the file hides one of the prelude.
    function Index(name: Name): (k: Maybe<nat>)
      ensures k.Some? <==> name in prelude || name in file
      ensures k.Some? ==> k.value < |prelude| + |file| && (prelude + file)[k.value] == name
      ensures name in file ==> k.Some? && k.value >= |prelude|
    {
      if name in file then Some(|prelude| + IndexOf(file, name))
      else if name in prelude then Some(IndexOf(prelude, name))
      else None
    }
  }

  // The innermost binding of a name.
  function Found(names: seq<seq<Name>>, captured: seq<Name>, name: Name): Maybe<Site> {
    var bs := Visible(names, captured);
    var k := IndexOf(BindingNames(bs), name);
    if k < |bs| then Some(bs[k].site) else None
  }

  function NLookup(w: World, c: Context, env: NEnv, name: Name): NOperand {
    match Found(c.names, c.captured, name)
    case Some(site) => SiteOperand(env, site)
    case None =>
      match w.Index(name)
      case Some(i) => if i < |w.values| then Fixed(w.values[i].Val()) else Place(|env.scopes|, 0)
      case None => Place(|env.scopes|, 0)
  }

  // ---------- Functions ----------

  predicate AllSitesReadable(env: NEnv, bs: seq<Binding>) {
    forall i | 0 <= i < |bs| :: Readable(env, SiteOperand(env, bs[i].site))
  }

  function Snapshot(env: NEnv, bs: seq<Binding>): (vs: seq<NV>)
    requires AllSitesReadable(env, bs)
    ensures |vs| == |bs|
  {
    seq(|bs|, i requires 0 <= i < |bs| => Read(env, SiteOperand(env, bs[i].site)))
  }

  // The type a global stands for.
  function GlobalType(w: World, name: Name): Maybe<Maybe<Type>> {
    match w.Index(name)
    case Some(i) =>
      if i >= |w.values| then None
      else Some(match w.values[i] case GType(ty) => Some(ty) case _ => None)
    case None => None
  }

  predicate TypesKnown(w: World, params: seq<NParam>, ret: Name) {
    GlobalType(w, ret).Some? && forall i | 0 <= i < |params| :: GlobalType(w, params[i].ty).Some?
  }

  predicate TypesAreTypes(w: World, params: seq<NParam>, ret: Name)
    requires TypesKnown(w, params, ret)
  {
    GlobalType(w, ret).value.Some? && forall i | 0 <= i < |params| :: GlobalType(w, params[i].ty).value.Some?
  }

  function NParamTypes(w: World, params: seq<NParam>, ret: Name): seq<ParamType>
    requires TypesKnown(w, params, ret) && TypesAreTypes(w, params, ret)
  {
    seq(|params|, i requires 0 <= i < |params| => ParamType(GlobalType(w, params[i].ty).value.value, params[i].isMut))
  }

  function NParamNames(params: seq<NParam>): (names: seq<Name>)
    ensures |names| == |params|
  {
    seq(|params|, i requires 0 <= i < |params| => params[i].name)
  }

  function NArgCount(args: NArgs): nat {
    match args
    case NNoArgs => 0
    case NArg(_, rest) => 1 + NArgCount(rest)
  }

  // Expressions that are not used for a value.
  predicate NYields(e: NExpr) {
    !(e.NSet? || e.NOpSet? || e.NFor? || e.NIfOnly?)
  }

  // ---------- Meaning ----------

  function NEval(w: World, e: NExpr, c: Context, env: NEnv, mode: Mode, fuel: nat): NResult<NOperand>
    decreases fuel, e, 1
  {
    match e
    case NLit(n) => Finish(VInt(n), env, mode)
    case NName(name) => Load(NLookup(w, c, env, name), env, mode)
    case NUnary(op, e1) =>
      (match NEval(w, e1, c, env, Push, fuel)
       case Done(o1, env1) =>
         if !Readable(env1, o1) then Undefined
         else (match ApplyUnary(op, Read(env1, o1)) case Some(v) => Finish(v, env1, mode) case None => Error)
       case r => r)
    case NBinary(op, l, r) => NEvalBinary(w, op, l, r, c, env, mode, fuel)
    case NIfElse(cond, t, f) =>
      (match NEval(w, cond, c, env, Push, fuel)
       case Done(o, env1) =>
         if !Readable(env1, o) then Undefined
         else if !Read(env1, o).VBool? then Error
         else if Read(env1, o).b then NEval(w, t, c, env1, mode, fuel)
         else NEval(w, f, c, env1, mode, fuel)
       case r => r)
    case NIfOnly(cond, t) =>
      (match NEval(w, cond, c, env, Push, fuel)
       case Done(o, env1) =>
         if !Readable(env1, o) then Undefined
         else if !Read(env1, o).VBool? then Error
         else if !Read(env1, o).b then Finish(VVoid, env1, mode)
         else if mode.Push? then NEvalDiscard(w, t, c, env1, fuel)
         else if mode.ty != TVoid then Error
         else NEval(w, t, c, env1, mode, fuel)
       case r => r)
    case NFor(_, _, _) => if mode.Push? then NEvalLoop(w, e, c, env, fuel) else Undefined
    case NBlock(items) =>
      (match NEvalItems(w, items, c.Pushed(), PushScope(env), mode, fuel)
       case Done(o, env1) =>
         if |env1.scopes| == 0 || (o.Place? && o.scope + 1 == |env1.scopes|) then Undefined
         else Done(o, PopScope(env1))
       case r => r)
    case NSet(target, value) =>
      (match NEval(w, target, c, env, Push, fuel)
       case Done(o, env1) =>
         if !Readable(env1, o) then Undefined
         else if !Mutable(env1, o) then Error
         else
           (match NEval(w, value, c, env1, Into(OperandType(env1, o)), fuel)
            case Done(v, env2) =>
              if !Readable(env2, o) || !v.Temp? then Undefined else Finish(VVoid, Write(env2, o, v.v), mode)
            case r => r)
       case r => r)
    case NOpSet(op, target, value) =>
      (match NEval(w, target, c, env, Push, fuel)
       case Done(o, env1) =>
         if !Readable(env1, o) then Undefined
         else if !Mutable(env1, o) then Error
         else
           (match NEval(w, value, c, env1, Push, fuel)
            case Done(o2, env2) =>
              if !Readable(env2, o) || !Readable(env2, o2) then Undefined
              else
                (match ApplyBinary(op, Read(env2, o), Read(env2, o2))
                 case Some(v) =>
                   if v.TypeOf() == OperandType(env1, o) then Finish(VVoid, Write(env2, o, v), mode) else Error
                 case None => Error)
            case r => r)
       case r => r)
    case NFunc(params, ret, body) =>
      var bs := c.Bindings();
      if !TypesKnown(w, params, ret) then Undefined
      else if !TypesAreTypes(w, params, ret) then Error
      else if !AllSitesReadable(env, bs) then Undefined
      else
        var f := VFunc(NParamTypes(w, params, ret), GlobalType(w, ret).value.value,
                       Code(NParamNames(params), body, BindingNames(bs)), Snapshot(env, bs));
        Finish(f, env, mode)
    case NCall(callee, args) => NEvalCall(w, callee, args, c, env, mode, fuel)
  }

  function NEvalBinary(w: World, op: BinaryKind, l: NExpr, r: NExpr, c: Context, env: NEnv, mode: Mode,
      fuel: nat): NResult<NOperand>
    decreases fuel, NBinary(op, l, r), 0
  {
    match NEval(w, l, c, env, Push, fuel)
    case Done(o1, env1) =>
      (match NEval(w, r, c, env1, Push, fuel)
       case Done(o2, env2) =>
         if !Readable(env2, o1) || !Readable(env2, o2) then Undefined
         else
           (match ApplyBinary(op, Read(env2, o1), Read(env2, o2))
            case Some(v) => Finish(v, env2, mode)
            case None => Error)
       case r => r)
    case r => r
  }

  function NEvalDiscard(w: World, e: NExpr, c: Context, env: NEnv, fuel: nat): NResult<NOperand>
    decreases fuel, e, 2
  {
    match NEval(w, e, c, env, Push, fuel)
    case Done(o, env1) =>
      if !NYields(e) then Done(Temp(VVoid), env1)
      else if !Readable(env1, o) then Undefined
      else if OperandType(env1, o) != TVoid then Error
      else Done(Temp(VVoid), env1)
    case r => r
  }

  function NEvalStep(w: World, s: NStep, c: Context, env: NEnv, fuel: nat): NResult<NOperand>
    decreases fuel, s, 0
  {
    match s
    case NNoStep => Done(Temp(VVoid), env)
    case NAdvance(e) => NEvalDiscard(w, e, c, env, fuel)
  }

  function NEvalLoop(w: World, e: NExpr, c: Context, env: NEnv, fuel: nat): NResult<NOperand>
    requires e.NFor?
    decreases fuel, e, 0
  {
    match NEval(w, e.cond, c, env, Push, fuel)
    case Done(o, env1) =>
      if !Readable(env1, o) then Undefined
      else if !Read(env1, o).VBool? then Error
      else if !Read(env1, o).b then Done(Temp(VVoid), env1)
      else
        (match NEvalDiscard(w, e.body, c, env1, fuel)
         case Done(_, env2) =>
           (match NEvalStep(w, e.step, c, env2, fuel)
            case Done(_, env3) => if fuel == 0 then Timeout else NEvalLoop(w, e, c, env3, fuel - 1)
            case r => r)
         case r => r)
    case r => r
  }

  // A definition is visible in the statements after it.
  function NEvalItems(w: World, items: NItems, c: Context, env: NEnv, mode: Mode, fuel: nat): NResult<NOperand>
    decreases fuel, items, 0
  {
    match items
    case NEnd => Finish(VVoid, env, mode)
    case NLet(name, isMut, value, rest) =>
      (match NEval(w, value, c, env, Push, fuel)
       case Done(o, env1) =>
         if !Readable(env1, o) || |env1.scopes| == 0 || |c.names| == 0 then Undefined
         else
           NEvalItems(w, rest, c.Declared(name), Declare(env1, Cell(OperandType(env1, o), isMut, Read(env1, o))), mode,
               fuel)
       case r => r)
    case NTypedLet(name, isMut, ty, value, rest) =>
      (match NEval(w, ty, c, env, Push, fuel)
       case Done(o, env1) =>
         if !Readable(env1, o) then Undefined
         else if !Read(env1, o).VType? then Error
         else
           var t := Read(env1, o).ty;
           (match NEval(w, value, c, env1, Into(t), fuel)
            case Done(v, env2) =>
              if !v.Temp? || |env2.scopes| == 0 || |c.names| == 0 then Undefined
              else NEvalItems(w, rest, c.Declared(name), Declare(env2, Cell(t, isMut, v.v)), mode, fuel)
            case r => r)
       case r => r)
    case NDo(e, rest) =>
      if rest.NEnd? then
        (match NEval(w, e, c, env, mode, fuel)
         case Done(o, env1) => Done(if mode.Push? && !NYields(e) then Temp(VVoid) else o, env1)
         case r => r)
      else
        (match NEvalDiscard(w, e, c, env, fuel)
         case Done(_, env1) => NEvalItems(w, rest, c, env1, mode, fuel)
         case r => r)
  }

  function NEvalArgs(w: World, args: NArgs, ps: seq<ParamType>, c: Context, env: NEnv,
      fuel: nat): NResult<seq<Cell<Code>>>
    requires NArgCount(args) == |ps|
    decreases fuel, args, 0
  {
    match args
    case NNoArgs => Done([], env)
    case NArg(e, rest) =>
      (match NEval(w, e, c, env, Into(ps[0].ty), fuel)
       case Done(v, env1) =>
         if !v.Temp? then Undefined
         else
           (match NEvalArgs(w, rest, ps[1..], c, env1, fuel)
            case Done(cells, env2) => Done([Cell(ps[0].ty, ps[0].isMut, v.v)] + cells, env2)
            case Error => Error
            case Timeout => Timeout
            case Undefined => Undefined)
       case Error => Error
       case Timeout => Timeout
       case Undefined => Undefined)
  }

  // The callee sees its parameters and what it captured, not the caller's variables.
  function NEvalCall(w: World, callee: NExpr, args: NArgs, c: Context, env: NEnv, mode: Mode,
      fuel: nat): NResult<NOperand>
    decreases fuel, NCall(callee, args), 0
  {
    match NEval(w, callee, c, env, Push, fuel)
    case Done(o, env1) =>
      if !Readable(env1, o) then Undefined
      else
        var f := Read(env1, o);
        if !f.VFunc? || NArgCount(args) != |f.params| then Error
        else
          (match NEvalArgs(w, args, f.params, c, env1, fuel)
           case Done(cells, env2) =>
             if !Readable(env2, o) || Read(env2, o).TypeOf() != f.TypeOf() then Undefined
             else if mode.Into? && mode.ty != f.ret then Error
             else if fuel == 0 then Timeout
             else
               var f' := Read(env2, o);
               (match NEval(w, f'.body.body, Context([f'.body.params], f'.body.captured), Env([cells], f'.closure),
                   Into(f.ret), fuel - 1)
                case Done(v, _) => if v.Temp? then Done(v, env2) else Undefined
                case r => r)
           case Error => Error
           case Timeout => Timeout
           case Undefined => Undefined)
    case r => r
  }
}
