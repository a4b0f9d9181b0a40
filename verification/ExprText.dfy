/** Expressions as they are written, with explicit parentheses, and when a text needs none. */
module ExprText {
  import opened Ast
  import opened Operators

  datatype Expr =
    | Name(source: nat, name: nat)
    | Leaf(source: nat, info: Operators.Leaf)
    | Implied(source: nat, nameSource: nat, name: nat)
    | Paren(source: nat, inner: Expr, closeSource: nat)
    | Prefix(source: nat, sign: nat, isMut: bool, mutSource: nat, inner: Expr)
    | Postfix(source: nat, sign: nat, inner: Expr)
    | Infix(source: nat, sign: nat, left: Expr, right: Expr)
    | Member(source: nat, inner: Expr, nameSource: nat, name: nat)
    | Call(source: nat, inner: Expr, args: Exprs)
    | Index(source: nat, inner: Expr, index: Expr, closeSource: nat)
    | ArrayType(source: nat, count: Expr, closeSource: nat, inner: Expr)
  // The arguments of a call with the token behind each: a comma, at the end a parenthesis.
  datatype Exprs = NoArgs(closeSource: nat) | Arg(arg: Expr, commaSource: nat, rest: Exprs)

  function TreeOf(e: Expr): Tree {
    match e
    case Name(source, name) => Node(IdentInfo(name, source), Nil)
    case Leaf(_, info) => Node(info, Nil)
    case Implied(source, _, name) => Node(ImpliedInfo(name, source), Nil)
    case Paren(_, inner, _) => TreeOf(inner)
    case Prefix(source, sign, isMut, _, inner) =>
      Node(Info(if IsUnary(sign) then Unary(sign).tag else INVALID, if isMut then IS_MUT else 0, source, []),
          One(TreeOf(inner)))
    case Postfix(source, sign, inner) => Node(SignInfo(source, sign), One(TreeOf(inner)))
    case Infix(source, sign, left, right) => Node(SignInfo(source, sign), Cons(TreeOf(left), One(TreeOf(right))))
    case Member(source, inner, _, name) => Node(MemberInfo(name, source), One(TreeOf(inner)))
    case Call(source, inner, args) => Node(CallInfo(source), Cons(TreeOf(inner), ForestOf(args)))
    case Index(source, inner, index, _) => Node(IndexInfo(source), Cons(TreeOf(inner), One(TreeOf(index))))
    case ArrayType(source, count, _, inner) =>
      Node(Info(TAG_ARRAY_TYPE, 0, source, []), Cons(TreeOf(count), One(TreeOf(inner))))
  }

  function SignInfo(source: nat, sign: nat): Info {
    Info(if IsBinary(sign) then Binary(sign).tag else INVALID, 0, source, [])
  }

  function ForestOf(args: Exprs): Forest {
    match args
    case NoArgs(_) => Nil
    case Arg(arg, _, rest) => Cons(TreeOf(arg), ForestOf(rest))
  }

  // ---------- The text of an expression ----------

  function Length(e: Expr): (n: nat)
    ensures n >= 1
  {
    match e
    case Name(_, _) => 1
    case Leaf(_, _) => 1
    case Implied(_, _, _) => 2
    case Paren(_, inner, _) => 2 + Length(inner)
    case Prefix(_, _, isMut, _, inner) => (if isMut then 2 else 1) + Length(inner)
    case Postfix(_, _, inner) => Length(inner) + 1
    case Infix(_, _, left, right) => Length(left) + 1 + Length(right)
    case Member(_, inner, _, _) => Length(inner) + 2
    case Call(_, inner, args) => Length(inner) + 1 + ArgsLength(args)
    case Index(_, inner, index, _) => Length(inner) + 1 + Length(index) + 1
    case ArrayType(_, count, _, inner) => 1 + Length(count) + 1 + Length(inner)
  }

  function ArgsLength(args: Exprs): (n: nat)
    ensures n >= 1
  {
    match args
    case NoArgs(_) => 1
    case Arg(arg, _, NoArgs(_)) => Length(arg) + 1
    case Arg(arg, _, rest) => Length(arg) + 1 + ArgsLength(rest)
  }

  predicate At(input: seq<Lexeme>, pos: nat, token: Token, source: nat) {
    pos < |input| && input[pos] == Lexeme(token, source)
  }

  /** The text of `e` stands in the input from `pos` on. */
  predicate Reads(input: seq<Lexeme>, pos: nat, e: Expr)
    decreases e
  {
    match e
    case Name(source, name) => At(input, pos, Ident(name), source)
    case Leaf(source, info) => At(input, pos, Literal(info), source)
    case Implied(source, nameSource, name) => At(input, pos, Dot, source) && At(input, pos + 1, Ident(name), nameSource)
    case Paren(source, inner, closeSource) =>
      && At(input, pos, Sign(PAREN_L), source) && Reads(input, pos + 1, inner)
      && At(input, pos + 1 + Length(inner), ParenR, closeSource)
    case Prefix(source, sign, isMut, mutSource, inner) =>
      && At(input, pos, Sign(sign), source) && (isMut ==> At(input, pos + 1, Mut, mutSource))
      && Reads(input, pos + (if isMut then 2 else 1), inner)
    case Postfix(source, sign, inner) => Reads(input, pos, inner) && At(input, pos + Length(inner), Sign(sign), source)
    case Infix(source, sign, left, right) =>
      && Reads(input, pos, left) && At(input, pos + Length(left), Sign(sign), source)
      && Reads(input, pos + Length(left) + 1, right)
    case Member(source, inner, nameSource, name) =>
      && Reads(input, pos, inner) && At(input, pos + Length(inner), Dot, source)
      && At(input, pos + Length(inner) + 1, Ident(name), nameSource)
    case Call(source, inner, args) =>
      && Reads(input, pos, inner) && At(input, pos + Length(inner), Sign(PAREN_L), source)
      && ReadsArgs(input, pos + Length(inner) + 1, args)
    case Index(source, inner, index, closeSource) =>
      && Reads(input, pos, inner) && At(input, pos + Length(inner), BracketL, source)
      && Reads(input, pos + Length(inner) + 1, index)
      && At(input, pos + Length(inner) + 1 + Length(index), BracketR, closeSource)
    case ArrayType(source, count, closeSource, inner) =>
      && At(input, pos, BracketL, source) && Reads(input, pos + 1, count)
      && At(input, pos + 1 + Length(count), BracketR, closeSource)
      && Reads(input, pos + 1 + Length(count) + 1, inner)
  }

  predicate ReadsArgs(input: seq<Lexeme>, pos: nat, args: Exprs)
    decreases args
  {
    match args
    case NoArgs(closeSource) => At(input, pos, ParenR, closeSource)
    case Arg(arg, _, NoArgs(closeSource)) => Reads(input, pos, arg) && At(input, pos + Length(arg), ParenR, closeSource)
    case Arg(arg, commaSource, rest) =>
      && Reads(input, pos, arg) && At(input, pos + Length(arg), Comma, commaSource)
      && ReadsArgs(input, pos + Length(arg) + 1, rest)
  }

  // ---------- When the text needs no further parentheses ----------

  predicate LooserThan(sign: nat, top: OperatorDesc) {
    IsBinary(sign) && !Pops(Binary(sign).precedence, Binary(sign).isRightToLeft, top)
  }

  /** No operator at the left edge of `e` pops the operator in front of `e`. */
  predicate LeftOk(e: Expr, top: OperatorDesc) {
    match e
    case Prefix(_, sign, _, _, _) => IsUnary(sign) && !Pops(Unary(sign).precedence, Unary(sign).isRightToLeft, top)
    case ArrayType(_, _, _, _) => !Pops(ARRAY_TYPE.precedence, ARRAY_TYPE.isRightToLeft, top)
    case Postfix(_, sign, inner) => LeftOk(inner, top) && LooserThan(sign, top)
    case Infix(_, sign, left, _) => LeftOk(left, top) && LooserThan(sign, top)
    case Member(_, inner, _, _) => LeftOk(inner, top) && !Pops(1, true, top)
    case Call(_, inner, _) => LeftOk(inner, top) && !Pops(1, true, top)
    case Index(_, inner, _, _) => LeftOk(inner, top) && !Pops(1, true, top)
    case _ => true
  }

  /** An operator behind `e` pops all operators that `e` leaves on the stack. */
  predicate RightOk(e: Expr, precedence: nat, equal: bool) {
    match e
    case Prefix(_, sign, _, _, inner) =>
      IsUnary(sign) && Pops(precedence, equal, Unary(sign)) && RightOk(inner, precedence, equal)
    case ArrayType(_, _, _, inner) => Pops(precedence, equal, ARRAY_TYPE) && RightOk(inner, precedence, equal)
    case Postfix(_, sign, _) => IsBinary(sign) && Pops(precedence, equal, Binary(sign))
    case Infix(_, sign, _, right) =>
      IsBinary(sign) && Pops(precedence, equal, Binary(sign)) && RightOk(right, precedence, equal)
    case _ => true
  }

  // Nothing of `e` is left on the operator stack behind it.
  predicate Closed(e: Expr) {
    !e.Prefix? && !e.ArrayType? && !e.Postfix? && !e.Infix?
  }

  /** The text parses as it is meant: every operand has parentheses where precedence and
      associativity require them. Without `complex` no assignment is recognised, not even in
      parentheses. */
  predicate WellFormed(e: Expr, complex: bool) {
    match e
    case Name(_, _) => true
    case Leaf(_, _) => true
    case Implied(_, _, _) => true
    case Paren(_, inner, _) => WellFormed(inner, complex)
    case Prefix(_, sign, isMut, _, inner) =>
      && IsUnary(sign) && sign != PAREN_L && (isMut ==> Unary(sign).takesMut)
      && WellFormed(inner, complex) && LeftOk(inner, Unary(sign))
    case Postfix(_, sign, inner) =>
      IsBinary(sign) && !Binary(sign).isBinary && WellFormed(inner, complex) && Closed(inner)
    case Infix(_, sign, left, right) =>
      && IsBinary(sign) && Binary(sign).isBinary && (complex || sign != ASSIGN)
      && WellFormed(left, complex) && WellFormed(right, complex)
      && RightOk(left, Binary(sign).precedence, Binary(sign).isRightToLeft) && LeftOk(right, Binary(sign))
    case Member(_, inner, _, _) => WellFormed(inner, complex) && RightOk(inner, 1, true)
    case Call(_, inner, args) => WellFormed(inner, complex) && RightOk(inner, 1, true) && ArgsWellFormed(args)
    case Index(_, inner, index, _) => WellFormed(inner, complex) && RightOk(inner, 1, true) && WellFormed(index, false)
    case ArrayType(_, count, _, inner) =>
      WellFormed(count, false) && WellFormed(inner, complex) && LeftOk(inner, ARRAY_TYPE)
  }

  predicate ArgsWellFormed(args: Exprs) {
    match args
    case NoArgs(_) => true
    case Arg(arg, _, rest) => WellFormed(arg, true) && ArgsWellFormed(rest)
  }

  // ---------- Stack use ----------

  // How many operators and operands the text of `e` puts on the stacks at most.
  function OpsNeeded(e: Expr): nat {
    match e
    case Name(_, _) => 0
    case Leaf(_, _) => 0
    case Implied(_, _, _) => 0
    case Paren(_, inner, _) => 1 + OpsNeeded(inner)
    case Prefix(_, _, _, _, inner) => 1 + OpsNeeded(inner)
    case Postfix(_, _, inner) => Max(OpsNeeded(inner), 1)
    case Infix(_, _, left, right) => Max(OpsNeeded(left), 1 + OpsNeeded(right))
    case Member(_, inner, _, _) => OpsNeeded(inner)
    case Call(_, inner, _) => OpsNeeded(inner)
    case Index(_, inner, _, _) => OpsNeeded(inner)
    case ArrayType(_, _, _, inner) => 1 + OpsNeeded(inner)
  }

  function OperandsNeeded(e: Expr): (n: nat)
    ensures n >= 1
  {
    match e
    case Name(_, _) => 1
    case Leaf(_, _) => 1
    case Implied(_, _, _) => 1
    case Paren(_, inner, _) => OperandsNeeded(inner)
    case Prefix(_, _, _, _, inner) => OperandsNeeded(inner)
    case Postfix(_, _, inner) => OperandsNeeded(inner)
    case Infix(_, _, left, right) => Max(OperandsNeeded(left), 1 + OperandsNeeded(right))
    case Member(_, inner, _, _) => OperandsNeeded(inner)
    case Call(_, inner, _) => OperandsNeeded(inner)
    case Index(_, inner, _, _) => OperandsNeeded(inner)
    case ArrayType(_, _, _, inner) => 1 + OperandsNeeded(inner)
  }

  predicate Room(s: Stacks, e: Expr) {
    && |s.ops| + OpsNeeded(e) <= MAX_OPERATORS && |s.operands| + OperandsNeeded(e) <= MAX_OPERANDS
    && NestedRoom(e)
  }

  // Arguments, indices and element counts are parsed with stacks of their own.
  predicate NestedRoom(e: Expr)
    decreases e, 0
  {
    match e
    case Name(_, _) => true
    case Leaf(_, _) => true
    case Implied(_, _, _) => true
    case Paren(_, inner, _) => NestedRoom(inner)
    case Prefix(_, _, _, _, inner) => NestedRoom(inner)
    case Postfix(_, _, inner) => NestedRoom(inner)
    case Infix(_, _, left, right) => NestedRoom(left) && NestedRoom(right)
    case Member(_, inner, _, _) => NestedRoom(inner)
    case Call(_, inner, args) => NestedRoom(inner) && ArgsRoom(args)
    case Index(_, inner, index, _) => NestedRoom(inner) && Small(index)
    case ArrayType(_, count, _, inner) => Small(count) && NestedRoom(inner)
  }

  // Fits on empty stacks.
  predicate Small(e: Expr)
    decreases e, 1
  {
    OpsNeeded(e) <= MAX_OPERATORS && OperandsNeeded(e) <= MAX_OPERANDS && NestedRoom(e)
  }

  predicate ArgsRoom(args: Exprs)
    decreases args, 0
  {
    match args
    case NoArgs(_) => true
    case Arg(arg, _, rest) => Small(arg) && ArgsRoom(rest)
  }

  // ---------- What an expression leaves on the stacks ----------

  function PrefixOp(source: nat, sign: nat, isMut: bool): Pending
    requires IsUnary(sign)
  {
    Pending(Unary(sign), if isMut then IS_MUT else 0, source)
  }

  function BinaryOp(source: nat, sign: nat): Pending
    requires IsBinary(sign)
  {
    Pending(Binary(sign), 0, source)
  }

  function ArrayOp(source: nat): Pending {
    Pending(ARRAY_TYPE, 0, source)
  }

  function Pushed(s: Stacks, op: Pending): Stacks {
    Stacks(s.ops + [op], s.operands)
  }

  function With(s: Stacks, t: Tree): Stacks {
    Stacks(s.ops, s.operands + [t])
  }

  function After(s: Stacks, e: Expr, complex: bool): Stacks
    requires WellFormed(e, complex)
    decreases e
  {
    match e
    case Prefix(source, sign, isMut, _, inner) => After(Pushed(s, PrefixOp(source, sign, isMut)), inner, complex)
    case ArrayType(source, count, _, inner) => After(Pushed(With(s, TreeOf(count)), ArrayOp(source)), inner, complex)
    case Postfix(source, sign, inner) => Pushed(With(s, TreeOf(inner)), BinaryOp(source, sign))
    case Infix(source, sign, left, right) =>
      After(Pushed(With(s, TreeOf(left)), BinaryOp(source, sign)), right, complex)
    case _ => With(s, TreeOf(e))
  }
}
