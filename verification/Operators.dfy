/** The operator-precedence core of the expression parser on values: the operator tables, the two
    stacks, and the loop of `parse_expr` over the tokens it handles itself. */
module Operators {
  import opened Basics
  import opened Ast

  datatype OperatorDesc = OperatorDesc(tag: nat, takesMut: bool, precedence: nat, isRightToLeft: bool, isBinary: bool)

  // A parenthesis on the operator stack builds no node.
  const INVALID: nat := 0
  const IS_MUT: nat := 2

  const TAG_CALL: nat := 36
  const TAG_IDENTIFIER: nat := 25
  const TAG_IMPLIED_MEMBER: nat := 51
  const TAG_MEMBER: nat := 70
  const TAG_SET: nat := 77
  const TAG_ARRAY_TYPE: nat := 91
  const TAG_ARRAY_INDEX: nat := 92

  // Operator tokens are numbered from the opening parenthesis on. The first sixteen may start an
  // operand; the last three of these and all that follow may come after one.
  const PAREN_L: nat := 0
  const FIRST_BINARY: nat := 13
  const ASSIGN: nat := 36

  const UNARY_OPERATORS: seq<OperatorDesc> := [
    OperatorDesc(INVALID, false, 10, false, true), // (
    OperatorDesc(41, false, 8, false, false),      // eval
    OperatorDesc(42, false, 8, false, false),      // try
    OperatorDesc(43, false, 8, false, false),      // defer
    OperatorDesc(44, false, 2, false, false),      // distinct
    OperatorDesc(47, false, 2, false, false),      // ~
    OperatorDesc(48, false, 2, false, false),      // !
    OperatorDesc(49, true, 2, false, false),       // ?
    OperatorDesc(50, false, 2, false, false),      // ...
    OperatorDesc(37, false, 2, false, false),      // [...]
    OperatorDesc(39, true, 2, false, false),       // [*]
    OperatorDesc(40, true, 2, false, false),       // [?]
    OperatorDesc(38, true, 2, false, false),       // []
    OperatorDesc(52, true, 2, false, false),       // *
    OperatorDesc(53, false, 2, false, false),      // -
    OperatorDesc(54, false, 2, false, false)]      // +

  const BINARY_OPERATORS: seq<OperatorDesc> := [
    OperatorDesc(57, false, 2, true, true),        // *
    OperatorDesc(56, false, 3, true, true),        // -
    OperatorDesc(55, false, 3, true, true),        // +
    OperatorDesc(58, false, 2, true, true),        // /
    OperatorDesc(59, false, 3, true, true),        // +:
    OperatorDesc(60, false, 3, true, true),        // -:
    OperatorDesc(61, false, 2, true, true),        // *:
    OperatorDesc(62, false, 2, true, true),        // %
    OperatorDesc(45, false, 1, false, false),      // .&
    OperatorDesc(46, false, 1, false, false),      // .*
    OperatorDesc(63, false, 6, true, true),        // &
    OperatorDesc(64, false, 6, true, true),        // |
    OperatorDesc(65, false, 6, true, true),        // ^
    OperatorDesc(66, false, 4, true, true),        // <<
    OperatorDesc(67, false, 4, true, true),        // >>
    OperatorDesc(68, false, 7, true, true),        // &&
    OperatorDesc(69, false, 7, true, true),        // ||
    OperatorDesc(71, false, 5, true, true),        // <
    OperatorDesc(72, false, 5, true, true),        // >
    OperatorDesc(73, false, 5, true, true),        // <=
    OperatorDesc(74, false, 5, true, true),        // >=
    OperatorDesc(75, false, 5, true, true),        // !=
    OperatorDesc(76, false, 5, true, true),        // ==
    OperatorDesc(TAG_SET, false, 9, false, true),  // =
    OperatorDesc(78, false, 9, false, true),       // +=
    OperatorDesc(79, false, 9, false, true),       // -=
    OperatorDesc(80, false, 9, false, true),       // *=
    OperatorDesc(81, false, 9, false, true),       // /=
    OperatorDesc(82, false, 9, false, true),       // +:=
    OperatorDesc(83, false, 9, false, true),       // -:=
    OperatorDesc(84, false, 9, false, true),       // *:=
    OperatorDesc(85, false, 9, false, true),       // %=
    OperatorDesc(86, false, 9, false, true),       // &=
    OperatorDesc(87, false, 9, false, true),       // |=
    OperatorDesc(88, false, 9, false, true),       // ^=
    OperatorDesc(89, false, 9, false, true),       // <<=
    OperatorDesc(90, false, 9, false, true)]       // >>=

  const ARRAY_TYPE: OperatorDesc := OperatorDesc(TAG_ARRAY_TYPE, false, 2, false, true)

  predicate IsUnary(sign: nat) {
    sign < |UNARY_OPERATORS|
  }

  predicate IsBinary(sign: nat) {
    FIRST_BINARY <= sign < FIRST_BINARY + |BINARY_OPERATORS|
  }

  function Unary(sign: nat): OperatorDesc
    requires IsUnary(sign)
  {
    UNARY_OPERATORS[sign]
  }

  function Binary(sign: nat): OperatorDesc
    requires IsBinary(sign)
  {
    BINARY_OPERATORS[sign - FIRST_BINARY]
  }

  // What the parser relies on in its tables.
  lemma UnaryTable(sign: nat)
    requires IsUnary(sign) && sign != PAREN_L
    ensures var d := Unary(sign);
      d.tag != INVALID && !d.isBinary && !d.isRightToLeft && (d.precedence == 2 || d.precedence == 8)
  {
  }

  lemma BinaryTable(sign: nat)
    requires IsBinary(sign)
    ensures Binary(sign).tag != INVALID && 1 <= Binary(sign).precedence <= 9
    ensures !Binary(sign).isBinary ==> Binary(sign).precedence == 1 && !Binary(sign).isRightToLeft
    ensures Binary(sign).isBinary ==> 2 <= Binary(sign).precedence
  {
  }

  // ---------- Tokens ----------

  // A literal is a node without children; its attachment is what the lexer produced.
  type Leaf = i: Info | |i.attachment| < 255 witness Info(0, 0, 0, [])

  datatype Token =
    | Ident(name: nat)
    | Literal(info: Leaf)
    | Sign(ordinal: nat)
    | ParenR | BracketL | BracketR | Dot | DoubleDot | Comma | Colon | Mut
    | Definition // starts a definition: let, pub
    | Construct  // starts an operand with a parser of its own: blocks, if, for, switch, func, trait, initializers
    | Suffix     // continues an operand with a parser of its own: catch, impl
    | Other      // anything else, and the end of the source

  datatype Lexeme = Lexeme(token: Token, source: nat)

  datatype ParseError =
    | ExpectOperand | UnaryMissingOperand | BinaryMissingOperand | CountMismatch
    | TooManyOperators | TooManyOperands
    | ArrayTypeToken | ArrayIndexToken | CallToken | MemberToken | ImpliedMemberToken
    | NotModelled

  datatype Parsed<T> = Ok(value: T) | Err(error: ParseError)

  function Peek(input: seq<Lexeme>, pos: nat): Lexeme {
    if pos < |input| then input[pos] else Lexeme(Other, 0)
  }

  // ---------- The two stacks ----------

  datatype Pending = Pending(desc: OperatorDesc, flags: nat, source: nat)
  datatype Stacks = Stacks(ops: seq<Pending>, operands: seq<Tree>)

  const MAX_OPERATORS: nat := 64
  const MAX_OPERANDS: nat := 127

  function One(t: Tree): Forest {
    Cons(t, Nil)
  }

  function UnaryNode(op: Pending, t: Tree): Tree {
    Node(Info(op.desc.tag, op.flags, op.source, []), One(t))
  }

  function BinaryNode(op: Pending, l: Tree, r: Tree): Tree {
    Node(Info(op.desc.tag, op.flags, op.source, []), Cons(l, One(r)))
  }

  // The operators a new one with this precedence pops: those that bind tighter, and its equals if
  // it says so. The flag is named for right-to-left order but makes operators left-associative.
  predicate Pops(precedence: nat, equal: bool, top: OperatorDesc) {
    top.precedence < precedence || (top.precedence == precedence && equal)
  }

  function PopOperator(s: Stacks): (r: Parsed<Stacks>)
    requires s.ops != []
    ensures r.Ok? ==> |r.value.ops| == |s.ops| - 1
  {
    var op, rest, n := Top(s.ops), Front(s.ops), |s.operands|;
    if op.desc.tag == INVALID then Ok(Stacks(rest, s.operands))
    else if op.desc.isBinary then
      if n <= 1 then Err(BinaryMissingOperand)
      else Ok(Stacks(rest, s.operands[..n - 2] + [BinaryNode(op, s.operands[n - 2], s.operands[n - 1])]))
    else if n == 0 then Err(UnaryMissingOperand)
    else Ok(Stacks(rest, s.operands[..n - 1] + [UnaryNode(op, s.operands[n - 1])]))
  }

  function PopTo(s: Stacks, precedence: nat, equal: bool): (r: Parsed<Stacks>)
    ensures r.Ok? ==> |r.value.ops| <= |s.ops|
    decreases |s.ops|
  {
    if s.ops == [] || !Pops(precedence, equal, Top(s.ops).desc) then Ok(s)
    else
      match PopOperator(s)
      case Err(e) => Err(e)
      case Ok(s') => PopTo(s', precedence, equal)
  }

  function PopRemaining(s: Stacks): Parsed<Tree>
    decreases |s.ops|
  {
    if s.ops == [] then
      if |s.operands| != 1 then Err(CountMismatch) else Ok(s.operands[0])
    else
      match PopOperator(s)
      case Err(e) => Err(e)
      case Ok(s') => PopRemaining(s')
  }

  function PushOperand(s: Stacks, t: Tree): Parsed<Stacks> {
    if |s.operands| == MAX_OPERANDS then Err(TooManyOperands) else Ok(Stacks(s.ops, s.operands + [t]))
  }

  function PushOperator(s: Stacks, op: Pending): Parsed<Stacks> {
    var popped := if op.desc.tag == INVALID then Ok(s) else PopTo(s, op.desc.precedence, op.desc.isRightToLeft);
    match popped
    case Err(e) => Err(e)
    case Ok(s') => if |s'.ops| == MAX_OPERATORS then Err(TooManyOperators) else Ok(Stacks(s'.ops + [op], s'.operands))
  }

  // A postfix construct: pops what binds as tight as member access, then takes the last operand
  // as its first child.
  function Wrap(s: Stacks, info: Info, more: Forest): Parsed<Stacks>
    requires s.operands != []
  {
    Ok(Stacks(s.ops, Front(s.operands) + [Node(info, Cons(Top(s.operands), more))]))
  }

  function IdentInfo(name: nat, source: nat): Info {
    Info(TAG_IDENTIFIER, 0, source, [name])
  }

  function MemberInfo(name: nat, source: nat): Info {
    Info(TAG_MEMBER, 0, source, [name])
  }

  function ImpliedInfo(name: nat, source: nat): Info {
    Info(TAG_IMPLIED_MEMBER, 0, source, [name])
  }

  function CallInfo(source: nat): Info {
    Info(TAG_CALL, 0, source, [])
  }

  function IndexInfo(source: nat): Info {
    Info(TAG_ARRAY_INDEX, 0, source, [])
  }

  // ---------- parse_expr ----------

  predicate Within(r: Parsed<(Tree, nat)>, input: seq<Lexeme>, pos: nat) {
    r.Ok? ==> pos <= r.value.1 <= |input|
  }

  /** An expression from `pos` on, and where it ends. */
  function ParseExpr(input: seq<Lexeme>, pos: nat, complex: bool): (r: Parsed<(Tree, nat)>)
    requires pos <= |input|
    ensures Within(r, input, pos)
    decreases |input| - pos, 3
  {
    Loop(input, pos, Stacks([], []), true, complex)
  }

  function Loop(input: seq<Lexeme>, pos: nat, s: Stacks, expecting: bool, complex: bool): (r: Parsed<(Tree, nat)>)
    requires pos <= |input|
    ensures Within(r, input, pos)
    decreases |input| - pos, 2
  {
    if expecting then AtOperand(input, pos, s, complex) else AtOperator(input, pos, s, complex)
  }

  // On with the next token, unless a stack operation failed.
  function Next(input: seq<Lexeme>, pos: nat, s: Parsed<Stacks>, expecting: bool,
      complex: bool): (r: Parsed<(Tree, nat)>)
    requires pos <= |input|
    ensures Within(r, input, pos)
    decreases |input| - pos, 3
  {
    match s
    case Err(e) => Err(e)
    case Ok(s') => Loop(input, pos, s', expecting, complex)
  }

  function AtOperand(input: seq<Lexeme>, pos: nat, s: Stacks, complex: bool): (r: Parsed<(Tree, nat)>)
    requires pos <= |input|
    ensures Within(r, input, pos)
    decreases |input| - pos, 1
  {
    var lexeme := Peek(input, pos);
    match lexeme.token
    case Ident(name) => Next(input, pos + 1, PushOperand(s, Node(IdentInfo(name, lexeme.source), Nil)), false, complex)
    case Literal(info) => Next(input, pos + 1, PushOperand(s, Node(info, Nil)), false, complex)
    case Dot => AtImpliedMember(input, pos, s, complex)
    case BracketL => AtArrayType(input, pos, s, complex)
    case Sign(sign) => if IsUnary(sign) then AtPrefix(input, pos, s, sign, complex) else Err(ExpectOperand)
    case Construct => Err(NotModelled)
    case _ => Err(ExpectOperand)
  }

  function AtImpliedMember(input: seq<Lexeme>, pos: nat, s: Stacks, complex: bool): (r: Parsed<(Tree, nat)>)
    requires pos < |input|
    ensures Within(r, input, pos)
    decreases |input| - pos, 0
  {
    var name := Peek(input, pos + 1).token;
    if !name.Ident? then Err(ImpliedMemberToken)
    else Next(input, pos + 2, PushOperand(s, Node(ImpliedInfo(name.name, input[pos].source), Nil)), false, complex)
  }

  function AtArrayType(input: seq<Lexeme>, pos: nat, s: Stacks, complex: bool): (r: Parsed<(Tree, nat)>)
    requires pos < |input|
    ensures Within(r, input, pos)
    decreases |input| - pos, 0
  {
    match ParseExpr(input, pos + 1, false)
    case Err(e) => Err(e)
    case Ok((count, end)) =>
      if !Peek(input, end).token.BracketR? then Err(ArrayTypeToken)
      else
        match PushOperand(s, count)
        case Err(e) => Err(e)
        case Ok(s') => Next(input, end + 1, PushOperator(s', Pending(ARRAY_TYPE, 0, input[pos].source)), true, complex)
  }

  function AtPrefix(input: seq<Lexeme>, pos: nat, s: Stacks, sign: nat, complex: bool): (r: Parsed<(Tree, nat)>)
    requires pos < |input| && IsUnary(sign)
    ensures Within(r, input, pos)
    decreases |input| - pos, 0
  {
    var desc, source := Unary(sign), input[pos].source;
    if desc.takesMut && Peek(input, pos + 1).token.Mut? then
      Next(input, pos + 2, PushOperator(s, Pending(desc, IS_MUT, source)), true, complex)
    else
      Next(input, pos + 1, PushOperator(s, Pending(desc, 0, source)), true, complex)
  }

  function AtOperator(input: seq<Lexeme>, pos: nat, s: Stacks, complex: bool): (r: Parsed<(Tree, nat)>)
    requires pos <= |input|
    ensures Within(r, input, pos)
    decreases |input| - pos, 1
  {
    var token := Peek(input, pos).token;
    if token == Sign(PAREN_L) || token.BracketL? || token.Dot? then
      match PopTo(s, 1, true)
      case Err(e) => Err(e)
      case Ok(s') =>
        // Cannot happen behind an operand; the source asserts it.
        if s'.operands == [] then Err(CountMismatch)
        else if token.Dot? then AtMember(input, pos, s', complex)
        else if token.BracketL? then AtIndex(input, pos, s', complex)
        else AtCall(input, pos, s', complex)
    else if token.ParenR? then AtParenR(input, pos, s, complex)
    else if token.Suffix? then Err(NotModelled)
    else if token.Sign? && IsBinary(token.ordinal) && (complex || token.ordinal != ASSIGN) then
      var desc := Binary(token.ordinal);
      Next(input, pos + 1, PushOperator(s, Pending(desc, 0, input[pos].source)), desc.isBinary, complex)
    else
      match PopRemaining(s)
      case Err(e) => Err(e)
      case Ok(t) => Ok((t, pos))
  }

  function AtMember(input: seq<Lexeme>, pos: nat, s: Stacks, complex: bool): (r: Parsed<(Tree, nat)>)
    requires pos < |input| && s.operands != []
    ensures Within(r, input, pos)
    decreases |input| - pos, 0
  {
    var name := Peek(input, pos + 1).token;
    if !name.Ident? then Err(MemberToken)
    else Next(input, pos + 2, Wrap(s, MemberInfo(name.name, input[pos].source), Nil), false, complex)
  }

  function AtIndex(input: seq<Lexeme>, pos: nat, s: Stacks, complex: bool): (r: Parsed<(Tree, nat)>)
    requires pos < |input| && s.operands != []
    ensures Within(r, input, pos)
    decreases |input| - pos, 0
  {
    if Peek(input, pos + 1).token.DoubleDot? then Err(NotModelled)
    else
      match ParseExpr(input, pos + 1, false)
      case Err(e) => Err(e)
      case Ok((index, end)) =>
        if Peek(input, end).token.DoubleDot? then Err(NotModelled)
        else if !Peek(input, end).token.BracketR? then Err(ArrayIndexToken)
        else Next(input, end + 1, Wrap(s, IndexInfo(input[pos].source), One(index)), false, complex)
  }

  function AtCall(input: seq<Lexeme>, pos: nat, s: Stacks, complex: bool): (r: Parsed<(Tree, nat)>)
    requires pos < |input| && s.operands != []
    ensures Within(r, input, pos)
    decreases |input| - pos, 0
  {
    match Arguments(input, pos + 1)
    case Err(e) => Err(e)
    case Ok((args, end)) => Next(input, end + 1, Wrap(s, CallInfo(input[pos].source), args), false, complex)
  }

  // The arguments of a call, up to the closing parenthesis.
  function Arguments(input: seq<Lexeme>, pos: nat): (r: Parsed<(Forest, nat)>)
    requires pos <= |input|
    ensures r.Ok? ==> pos <= r.value.1 < |input| && input[r.value.1].token.ParenR?
    decreases |input| - pos, 4
  {
    var token := Peek(input, pos).token;
    if token.ParenR? then Ok((Nil, pos))
    else if token.Mut? || token.Definition? || (token.Ident? && Peek(input, pos + 1).token.Colon?) then Err(NotModelled)
    else
      match ParseExpr(input, pos, true)
      case Err(e) => Err(e)
      case Ok((arg, end)) =>
        if Peek(input, end).token.Comma? then
          match Arguments(input, end + 1)
          case Err(e) => Err(e)
          case Ok((rest, last)) => Ok((Cons(arg, rest), last))
        else if Peek(input, end).token.ParenR? then Ok((One(arg), end))
        else Err(CallToken)
  }

  // Closes a parenthesis; without one on the stack the expression ends in front of it.
  function AtParenR(input: seq<Lexeme>, pos: nat, s: Stacks, complex: bool): (r: Parsed<(Tree, nat)>)
    requires pos < |input|
    ensures Within(r, input, pos)
    decreases |input| - pos, 0
  {
    match PopTo(s, 10, false)
    case Err(e) => Err(e)
    case Ok(s') =>
      if s'.ops == [] then
        if |s'.operands| != 1 then Err(CountMismatch) else Ok((s'.operands[0], pos))
      else Next(input, pos + 1, Ok(Stacks(Front(s'.ops), s'.operands)), false, complex)
  }
}
