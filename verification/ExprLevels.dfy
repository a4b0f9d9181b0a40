/** How tight the operators of the language bind, by what they are, and that the parser groups
    operands so. Only proofs look at the operator tables. */
module ExprLevels {
  import opened Basics
  import opened Ast
  import opened Operators
  import opened OperatorNames
  import opened ExprText
  import opened ExprRoundTrip

  /** From tight to loose. The prefixes other than keywords are as tight as multiplication. */
  datatype Level = Access | Factor | Term | Shift | Comparison | Bitwise | Logical | Keyword | Assignment

  predicate Tighter(a: Level, b: Level) {
    match a
    case Access => !b.Access?
    case Factor => !b.Access? && !b.Factor?
    case Term => b.Shift? || b.Comparison? || b.Bitwise? || b.Logical? || b.Keyword? || b.Assignment?
    case Shift => b.Comparison? || b.Bitwise? || b.Logical? || b.Keyword? || b.Assignment?
    case Comparison => b.Bitwise? || b.Logical? || b.Keyword? || b.Assignment?
    case Bitwise => b.Logical? || b.Keyword? || b.Assignment?
    case Logical => b.Keyword? || b.Assignment?
    case Keyword => b.Assignment?
    case Assignment => false
  }

  predicate IsFactor(sign: nat) {
    sign == OP_MUL_OR_TYP_PTR || sign == OP_DIV || sign == OP_MUL_TC || sign == OP_MOD
  }

  predicate IsTerm(sign: nat) {
    sign == OP_ADD || sign == OP_SUB || sign == OP_ADD_TC || sign == OP_SUB_TC
  }

  predicate IsShift(sign: nat) {
    sign == OP_SHL || sign == OP_SHR
  }

  predicate IsComparison(sign: nat) {
    sign == OP_LT || sign == OP_GT || sign == OP_LE || sign == OP_GE || sign == OP_NE || sign == OP_EQ
  }

  predicate IsBitwise(sign: nat) {
    sign == OP_AND || sign == OP_OR || sign == OP_XOR
  }

  predicate IsLogical(sign: nat) {
    sign == OP_LOG_AND || sign == OP_LOG_OR
  }

  predicate IsAssignment(sign: nat) {
    sign == OP_SET || sign == OP_SET_ADD || sign == OP_SET_SUB || sign == OP_SET_MUL || sign == OP_SET_DIV
    || sign == OP_SET_ADD_TC || sign == OP_SET_SUB_TC || sign == OP_SET_MUL_TC || sign == OP_SET_MOD
    || sign == OP_SET_AND || sign == OP_SET_OR || sign == OP_SET_XOR || sign == OP_SET_SHL || sign == OP_SET_SHR
  }

  // The level of a binary operator.
  function InfixLevel(sign: nat): Maybe<Level> {
    if IsFactor(sign) then Some(Factor)
    else if IsTerm(sign) then Some(Term)
    else if IsShift(sign) then Some(Shift)
    else if IsComparison(sign) then Some(Comparison)
    else if IsBitwise(sign) then Some(Bitwise)
    else if IsLogical(sign) then Some(Logical)
    else if IsAssignment(sign) then Some(Assignment)
    else None
  }

  predicate IsPostfix(sign: nat) {
    sign == UOP_ADDR || sign == UOP_DEREF
  }

  predicate IsKeyword(sign: nat) {
    sign == KWD_EVAL || sign == KWD_TRY || sign == KWD_DEFER
  }

  // Prefixes that may be followed by `mut`.
  predicate IsPointer(sign: nat) {
    sign == TYP_OPT_PTR || sign == TYP_MULTI_PTR || sign == TYP_OPT_MULTI_PTR || sign == TYP_SLICE
    || sign == OP_MUL_OR_TYP_PTR
  }

  predicate IsPlainPrefix(sign: nat) {
    sign == KWD_DISTINCT || sign == UOP_NOT || sign == UOP_LOG_NOT || sign == TYP_VAR || sign == TYP_TAIL_ARRAY
    || sign == OP_SUB || sign == OP_ADD
  }

  function PrefixLevel(sign: nat): Maybe<Level> {
    if IsKeyword(sign) then Some(Keyword)
    else if IsPointer(sign) || IsPlainPrefix(sign) then Some(Factor)
    else None
  }

  /** Of two operators around an operand, the one in front takes it if it is tighter, or as tight and
      no assignment. */
  predicate FrontFirst(front: Level, behind: Level) {
    Tighter(front, behind) || (front == behind && !front.Assignment?)
  }

  // ---------- What the tables say about that ----------

  function Precedence(l: Level): nat {
    match l
    case Access => 1
    case Factor => 2
    case Term => 3
    case Shift => 4
    case Comparison => 5
    case Bitwise => 6
    case Logical => 7
    case Keyword => 8
    case Assignment => 9
  }

  lemma InfixSigns(sign: nat)
    ensures InfixLevel(sign).Some? <==> IsBinary(sign) && Binary(sign).isBinary
    ensures IsPostfix(sign) <==> IsBinary(sign) && !Binary(sign).isBinary
    ensures IsPostfix(sign) ==> Binary(sign).precedence == Precedence(Access) && !Binary(sign).isRightToLeft
  {
  }

  lemma InfixLevels(sign: nat)
    requires InfixLevel(sign).Some? && IsBinary(sign)
    ensures Binary(sign).precedence == Precedence(InfixLevel(sign).value)
  {
    hide InfixLevel;
    if sign < OP_AND { ArithmeticLevels(sign); } else { OtherLevels(sign); }
  }

  lemma ArithmeticLevels(sign: nat)
    requires InfixLevel(sign).Some? && IsBinary(sign) && sign < OP_AND
    ensures Binary(sign).precedence == Precedence(InfixLevel(sign).value)
  {
  }

  lemma OtherLevels(sign: nat)
    requires InfixLevel(sign).Some? && IsBinary(sign) && sign >= OP_AND
    ensures Binary(sign).precedence == Precedence(InfixLevel(sign).value)
  {
  }

  // The flag makes operators left-associative.
  lemma InfixFlags(sign: nat)
    requires InfixLevel(sign).Some? && IsBinary(sign)
    ensures Binary(sign).isRightToLeft == !InfixLevel(sign).value.Assignment?
  {
  }

  lemma InfixNodes(sign: nat)
    requires IsBinary(sign)
    ensures Binary(sign).tag == NodeBehind(sign)
  {
    hide NodeBehind;
    if sign < OP_SHL { ArithmeticNodes(sign); } else { OtherNodes(sign); }
  }

  lemma ArithmeticNodes(sign: nat)
    requires IsBinary(sign) && sign < OP_SHL
    ensures Binary(sign).tag == NodeBehind(sign)
  {
  }

  lemma OtherNodes(sign: nat)
    requires IsBinary(sign) && sign >= OP_SHL
    ensures Binary(sign).tag == NodeBehind(sign)
  {
  }

  lemma PrefixSigns(sign: nat)
    ensures PrefixLevel(sign).Some? <==> IsUnary(sign) && sign != PAREN_L
    ensures PrefixLevel(sign).Some? ==>
      && Unary(sign).precedence == Precedence(PrefixLevel(sign).value) && !Unary(sign).isRightToLeft
      && Unary(sign).takesMut == IsPointer(sign) && Unary(sign).tag == NodeInFront(sign)
  {
  }

  lemma KeywordTable(sign: nat, op: nat)
    requires IsUnary(sign) && sign != PAREN_L && IsBinary(op) && Binary(op).isBinary
    ensures IsKeyword(sign) <==> Unary(sign).precedence == 8
    ensures IsAssignment(op) <==> op >= ASSIGN
  {
  }

  // ---------- Grouping ----------

  // An operand that is closed on both sides, possibly with operators behind it.
  predicate Primary(e: Expr) {
    Closed(e) || e.Postfix?
  }

  predicate Operand(e: Expr, complex: bool) {
    WellFormed(e, complex) && Primary(e)
  }

  lemma {:induction false} PrimaryOk(e: Expr, complex: bool, top: OperatorDesc)
    requires Operand(e, complex) && top.precedence >= 2
    ensures LeftOk(e, top)
    decreases e, 0
  {
    match e
    case Postfix(_, sign, inner) =>
      InfixSigns(sign);
      PrimaryOk(inner, complex, top);
    case Member(_, inner, _, _) => AccessedOk(inner, complex, top);
    case Call(_, inner, _) => AccessedOk(inner, complex, top);
    case Index(_, inner, _, _) => AccessedOk(inner, complex, top);
    case _ =>
  }

  lemma {:induction false} AccessedOk(e: Expr, complex: bool, top: OperatorDesc)
    requires WellFormed(e, complex) && RightOk(e, 1, true) && top.precedence >= 2
    ensures LeftOk(e, top)
    decreases e, 1
  {
    hide LeftOk;
    if e.Prefix? { UnaryTable(e.sign); }
    if e.Infix? { BinaryTable(e.sign); }
    PrimaryOk(e, complex, top);
  }

  lemma PrimaryEnds(e: Expr, complex: bool, precedence: nat, equal: bool)
    requires Operand(e, complex) && precedence >= 2
    ensures RightOk(e, precedence, equal)
  {
    if e.Postfix? { InfixSigns(e.sign); }
  }

  function InfixTree(source: nat, sign: nat, l: Tree, r: Tree): Tree {
    Node(Info(NodeBehind(sign), 0, source, []), Cons(l, Cons(r, Nil)))
  }

  function PrefixTree(source: nat, sign: nat, isMut: bool, t: Tree): Tree {
    Node(Info(NodeInFront(sign), if isMut then IS_MUT else 0, source, []), Cons(t, Nil))
  }

  predicate Recognised(sign: nat, complex: bool) {
    InfixLevel(sign).Some? && (complex || sign != OP_SET)
  }

  lemma InfixExactly(source: nat, sign: nat, x: Expr, y: Expr, complex: bool)
    requires Recognised(sign, complex)
    ensures IsBinary(sign)
    ensures WellFormed(Infix(source, sign, x, y), complex) <==>
      && WellFormed(x, complex) && WellFormed(y, complex)
      && RightOk(x, Binary(sign).precedence, Binary(sign).isRightToLeft) && LeftOk(y, Binary(sign))
    ensures TreeOf(Infix(source, sign, x, y)) == InfixTree(source, sign, TreeOf(x), TreeOf(y))
  {
    hide RightOk, LeftOk, InfixLevel;
    InfixSigns(sign);
    InfixNodes(sign);
  }

  lemma PopsExactly(front: OperatorDesc, sign: nat, level: Level)
    requires front.precedence == Precedence(level) && InfixLevel(sign).Some? && IsBinary(sign)
    ensures Pops(Binary(sign).precedence, Binary(sign).isRightToLeft, front)
      <==> FrontFirst(level, InfixLevel(sign).value)
  {
    hide InfixLevel;
    InfixLevels(sign);
    InfixFlags(sign);
  }

  /** Two binary operators around an operand. */
  lemma InfixGroups(x: Expr, s1: nat, t1: nat, y: Expr, s2: nat, t2: nat, z: Expr, complex: bool)
    requires Operand(x, complex) && Operand(y, complex) && Operand(z, complex)
    requires Recognised(t1, complex) && Recognised(t2, complex)
    ensures WellFormed(Infix(s2, t2, Infix(s1, t1, x, y), z), complex)
      <==> FrontFirst(InfixLevel(t1).value, InfixLevel(t2).value)
    ensures WellFormed(Infix(s1, t1, x, Infix(s2, t2, y, z)), complex)
      <==> !FrontFirst(InfixLevel(t1).value, InfixLevel(t2).value)
  {
    hide InfixLevel, WellFormed, FrontFirst, Pops, Primary;
    InfixExactly(s1, t1, x, y, complex);
    InfixExactly(s2, t2, y, z, complex);
    InfixExactly(s2, t2, Infix(s1, t1, x, y), z, complex);
    InfixExactly(s1, t1, x, Infix(s2, t2, y, z), complex);
    Bounds(t1);
    Bounds(t2);
    OperandsFit(x, complex, t1);
    OperandsFit(y, complex, t1);
    OperandsFit(y, complex, t2);
    OperandsFit(z, complex, t2);
    InfixLevels(t1);
    PopsExactly(Binary(t1), t2, InfixLevel(t1).value);
  }

  lemma Bounds(sign: nat)
    requires InfixLevel(sign).Some? && IsBinary(sign)
    ensures Binary(sign).precedence >= 2
  {
    hide InfixLevel;
    InfixLevels(sign);
    InfixSigns(sign);
    BinaryTable(sign);
  }

  lemma OperandsFit(e: Expr, complex: bool, sign: nat)
    requires Operand(e, complex) && IsBinary(sign) && Binary(sign).precedence >= 2
    ensures LeftOk(e, Binary(sign)) && RightOk(e, Binary(sign).precedence, Binary(sign).isRightToLeft)
  {
    hide LeftOk, RightOk, WellFormed, Primary;
    PrimaryOk(e, complex, Binary(sign));
    PrimaryEnds(e, complex, Binary(sign).precedence, Binary(sign).isRightToLeft);
  }

  /** The text `x op1 y op2 z` is grouped by the levels of the operators. */
  lemma InfixGrouped(input: seq<Lexeme>, pos: nat, x: Expr, s1: nat, t1: nat, y: Expr, s2: nat, t2: nat, z: Expr,
                     complex: bool)
    requires Operand(x, complex) && Operand(y, complex) && Operand(z, complex)
    requires Recognised(t1, complex) && Recognised(t2, complex)
    requires Reads(input, pos, Infix(s2, t2, Infix(s1, t1, x, y), z))
    requires Small(Infix(s2, t2, Infix(s1, t1, x, y), z)) && Small(Infix(s1, t1, x, Infix(s2, t2, y, z)))
    requires Ends(Peek(input, pos + Length(x) + Length(y) + Length(z) + 2).token, complex)
    ensures pos <= |input|
    ensures ParseExpr(input, pos, complex)
      == Ok((if FrontFirst(InfixLevel(t1).value, InfixLevel(t2).value)
             then InfixTree(s2, t2, InfixTree(s1, t1, TreeOf(x), TreeOf(y)), TreeOf(z))
             else InfixTree(s1, t1, TreeOf(x), InfixTree(s2, t2, TreeOf(y), TreeOf(z))),
             pos + Length(x) + Length(y) + Length(z) + 2))
  {
    hide InfixLevel, WellFormed, FrontFirst, Primary, ParseExpr, Ends, TreeOf, Small, Reads, Length;
    var l, r := Infix(s2, t2, Infix(s1, t1, x, y), z), Infix(s1, t1, x, Infix(s2, t2, y, z));
    SameText(input, pos, x, s1, t1, y, s2, t2, z);
    InfixGroups(x, s1, t1, y, s2, t2, z, complex);
    InfixTrees(x, s1, t1, y, s2, t2, z, complex);
    if FrontFirst(InfixLevel(t1).value, InfixLevel(t2).value) {
      Whole(input, pos, l, complex);
    } else {
      Whole(input, pos, r, complex);
    }
  }

  lemma InfixTrees(x: Expr, s1: nat, t1: nat, y: Expr, s2: nat, t2: nat, z: Expr, complex: bool)
    requires Recognised(t1, complex) && Recognised(t2, complex)
    ensures TreeOf(Infix(s2, t2, Infix(s1, t1, x, y), z))
      == InfixTree(s2, t2, InfixTree(s1, t1, TreeOf(x), TreeOf(y)), TreeOf(z))
    ensures TreeOf(Infix(s1, t1, x, Infix(s2, t2, y, z)))
      == InfixTree(s1, t1, TreeOf(x), InfixTree(s2, t2, TreeOf(y), TreeOf(z)))
  {
    hide InfixLevel, WellFormed, TreeOf, Recognised;
    InfixExactly(s1, t1, x, y, complex);
    InfixExactly(s2, t2, y, z, complex);
    InfixExactly(s2, t2, Infix(s1, t1, x, y), z, complex);
    InfixExactly(s1, t1, x, Infix(s2, t2, y, z), complex);
  }

  lemma SameText(input: seq<Lexeme>, pos: nat, x: Expr, s1: nat, t1: nat, y: Expr, s2: nat, t2: nat, z: Expr)
    requires Reads(input, pos, Infix(s2, t2, Infix(s1, t1, x, y), z))
    ensures Reads(input, pos, Infix(s1, t1, x, Infix(s2, t2, y, z)))
    ensures Length(Infix(s2, t2, Infix(s1, t1, x, y), z)) == Length(x) + Length(y) + Length(z) + 2
    ensures Length(Infix(s1, t1, x, Infix(s2, t2, y, z))) == Length(x) + Length(y) + Length(z) + 2
  {
  }

  // ---------- Prefixes ----------

  lemma PrefixExactly(source: nat, sign: nat, isMut: bool, mutSource: nat, x: Expr, complex: bool)
    requires PrefixLevel(sign).Some? && (isMut ==> IsPointer(sign))
    ensures IsUnary(sign)
    ensures WellFormed(Prefix(source, sign, isMut, mutSource, x), complex) <==>
      WellFormed(x, complex) && LeftOk(x, Unary(sign))
    ensures TreeOf(Prefix(source, sign, isMut, mutSource, x)) == PrefixTree(source, sign, isMut, TreeOf(x))
  {
    hide LeftOk, PrefixLevel, IsPointer;
    PrefixSigns(sign);
  }

  // The same prefix in front of another operand.
  function Around(p: Expr, x: Expr): Expr
    requires p.Prefix?
  {
    Prefix(p.source, p.sign, p.isMut, p.mutSource, x)
  }

  /** A prefix in front of the first operand of a binary operator. */
  lemma PrefixGroups(p: Expr, y: Expr, s2: nat, t2: nat, complex: bool)
    requires p.Prefix? && PrefixLevel(p.sign).Some? && (p.isMut ==> IsPointer(p.sign))
    requires Operand(p.inner, complex) && Operand(y, complex) && Recognised(t2, complex)
    ensures WellFormed(p, complex)
    ensures WellFormed(Infix(s2, t2, p, y), complex)
      <==> FrontFirst(PrefixLevel(p.sign).value, InfixLevel(t2).value)
    ensures WellFormed(Around(p, Infix(s2, t2, p.inner, y)), complex)
      <==> !FrontFirst(PrefixLevel(p.sign).value, InfixLevel(t2).value)
  {
    hide InfixLevel, PrefixLevel, IsPointer, WellFormed, FrontFirst, Pops, Primary;
    var x, t1 := p.inner, p.sign;
    PrefixExactly(p.source, t1, p.isMut, p.mutSource, x, complex);
    PrefixExactly(p.source, t1, p.isMut, p.mutSource, Infix(s2, t2, x, y), complex);
    InfixExactly(s2, t2, x, y, complex);
    InfixExactly(s2, t2, p, y, complex);
    Bounds(t2);
    OperandsFit(x, complex, t2);
    OperandsFit(y, complex, t2);
    PrefixSigns(t1);
    UnaryTable(t1);
    PrimaryOk(x, complex, Unary(t1));
    PopsExactly(Unary(t1), t2, PrefixLevel(t1).value);
  }

  /** The text `prefix x op y` is grouped by their levels, and `prefix x` takes all that is behind `x`. */
  lemma PrefixGrouped(input: seq<Lexeme>, pos: nat, p: Expr, y: Expr, s2: nat, t2: nat, complex: bool)
    requires p.Prefix? && PrefixLevel(p.sign).Some? && (p.isMut ==> IsPointer(p.sign))
    requires Operand(p.inner, complex) && Operand(y, complex) && Recognised(t2, complex)
    requires Reads(input, pos, Infix(s2, t2, p, y))
    requires Small(Infix(s2, t2, p, y)) && Small(Around(p, Infix(s2, t2, p.inner, y)))
    requires Ends(Peek(input, pos + Length(p) + 1 + Length(y)).token, complex)
    ensures pos <= |input|
    ensures ParseExpr(input, pos, complex)
      == Ok((if FrontFirst(PrefixLevel(p.sign).value, InfixLevel(t2).value)
             then InfixTree(s2, t2, PrefixTree(p.source, p.sign, p.isMut, TreeOf(p.inner)), TreeOf(y))
             else PrefixTree(p.source, p.sign, p.isMut, InfixTree(s2, t2, TreeOf(p.inner), TreeOf(y))),
             pos + Length(p) + 1 + Length(y)))
  {
    hide InfixLevel, PrefixLevel, IsPointer, WellFormed, FrontFirst, Primary, ParseExpr, Ends, TreeOf, Small, Reads,
         Length, InfixTree, PrefixTree, Around;
    var l, r := Infix(s2, t2, p, y), Around(p, Infix(s2, t2, p.inner, y));
    SamePrefixText(input, pos, p, y, s2, t2);
    PrefixGroups(p, y, s2, t2, complex);
    PrefixTrees(p, y, s2, t2, complex);
    if FrontFirst(PrefixLevel(p.sign).value, InfixLevel(t2).value) {
      Whole(input, pos, l, complex);
    } else {
      Whole(input, pos, r, complex);
    }
  }

  lemma PrefixTrees(p: Expr, y: Expr, s2: nat, t2: nat, complex: bool)
    requires p.Prefix? && PrefixLevel(p.sign).Some? && (p.isMut ==> IsPointer(p.sign)) && Recognised(t2, complex)
    ensures TreeOf(Infix(s2, t2, p, y))
      == InfixTree(s2, t2, PrefixTree(p.source, p.sign, p.isMut, TreeOf(p.inner)), TreeOf(y))
    ensures TreeOf(Around(p, Infix(s2, t2, p.inner, y)))
      == PrefixTree(p.source, p.sign, p.isMut, InfixTree(s2, t2, TreeOf(p.inner), TreeOf(y)))
  {
    hide InfixLevel, PrefixLevel, IsPointer, WellFormed, TreeOf, Recognised;
    PrefixExactly(p.source, p.sign, p.isMut, p.mutSource, p.inner, complex);
    PrefixExactly(p.source, p.sign, p.isMut, p.mutSource, Infix(s2, t2, p.inner, y), complex);
    InfixExactly(s2, t2, p.inner, y, complex);
    InfixExactly(s2, t2, p, y, complex);
  }

  lemma SamePrefixText(input: seq<Lexeme>, pos: nat, p: Expr, y: Expr, s2: nat, t2: nat)
    requires p.Prefix? && Reads(input, pos, Infix(s2, t2, p, y))
    ensures Reads(input, pos, Around(p, Infix(s2, t2, p.inner, y)))
    ensures Length(Around(p, Infix(s2, t2, p.inner, y))) == Length(p) + 1 + Length(y)
    ensures Length(Infix(s2, t2, p, y)) == Length(p) + 1 + Length(y)
  {
  }

  // ---------- Three names ----------

  function NameTree(name: nat, source: nat): Tree {
    Node(Info(NODE_IDENTIFIER, 0, source, [name]), Nil)
  }

  /** For any three names and any two operators, without further conditions. */
  lemma NamesGrouped(a: nat, t1: nat, b: nat, t2: nat, c: nat)
    requires InfixLevel(t1).Some? && InfixLevel(t2).Some?
    ensures var input := [Lexeme(Ident(a), 0), Lexeme(Sign(t1), 1), Lexeme(Ident(b), 2), Lexeme(Sign(t2), 3),
                          Lexeme(Ident(c), 4)];
      ParseExpr(input, 0, true)
        == Ok((if FrontFirst(InfixLevel(t1).value, InfixLevel(t2).value)
               then InfixTree(3, t2, InfixTree(1, t1, NameTree(a, 0), NameTree(b, 2)), NameTree(c, 4))
               else InfixTree(1, t1, NameTree(a, 0), InfixTree(3, t2, NameTree(b, 2), NameTree(c, 4))), 5))
  {
    hide InfixLevel, FrontFirst, ParseExpr;
    var input := [Lexeme(Ident(a), 0), Lexeme(Sign(t1), 1), Lexeme(Ident(b), 2), Lexeme(Sign(t2), 3),
                  Lexeme(Ident(c), 4)];
    assert Peek(input, 5).token == Other;
    NamesRead(input, a, t1, b, t2, c);
    NamesSmall(a, t1, b, t2, c);
    InfixGrouped(input, 0, Name(0, a), 1, t1, Name(2, b), 3, t2, Name(4, c), true);
  }

  lemma NamesRead(input: seq<Lexeme>, a: nat, t1: nat, b: nat, t2: nat, c: nat)
    requires input == [Lexeme(Ident(a), 0), Lexeme(Sign(t1), 1), Lexeme(Ident(b), 2), Lexeme(Sign(t2), 3),
                       Lexeme(Ident(c), 4)]
    ensures Reads(input, 0, Infix(3, t2, Infix(1, t1, Name(0, a), Name(2, b)), Name(4, c)))
  {
    var x, y, z := Name(0, a), Name(2, b), Name(4, c);
    assert Reads(input, 0, x) && Reads(input, 2, y) && Reads(input, 4, z);
    assert Length(x) == 1 && Length(Infix(1, t1, x, y)) == 3;
    assert Reads(input, 0, Infix(1, t1, x, y));
  }

  lemma NamesSmall(a: nat, t1: nat, b: nat, t2: nat, c: nat)
    ensures Small(Infix(3, t2, Infix(1, t1, Name(0, a), Name(2, b)), Name(4, c)))
    ensures Small(Infix(1, t1, Name(0, a), Infix(3, t2, Name(2, b), Name(4, c))))
  {
    assert NestedRoom(Infix(1, t1, Name(0, a), Name(2, b))) && NestedRoom(Infix(3, t2, Name(2, b), Name(4, c)));
    assert OpsNeeded(Infix(1, t1, Name(0, a), Name(2, b))) == 1 && OpsNeeded(Infix(3, t2, Name(2, b), Name(4, c))) == 1;
    assert OperandsNeeded(Infix(1, t1, Name(0, a), Name(2, b))) == 2;
    assert OperandsNeeded(Infix(3, t2, Name(2, b), Name(4, c))) == 2;
  }

  // ---------- Other nodes ----------

  /** Which node each form builds. */
  lemma FormNodes(e: Expr)
    ensures e.Name? || e.Implied? || e.Member? ==> TreeOf(e).info.attachment == [e.name]
    ensures e.Name? ==> TreeOf(e).info.tag == NODE_IDENTIFIER
    ensures e.Implied? ==> TreeOf(e).info.tag == NODE_IMPLIED_MEMBER
    ensures e.Member? ==> TreeOf(e).info.tag == NODE_MEMBER
    ensures e.Call? ==> TreeOf(e).info.tag == NODE_CALL
    ensures e.Index? ==> TreeOf(e).info.tag == NODE_OP_ARRAY_INDEX
    ensures e.ArrayType? ==> TreeOf(e).info.tag == NODE_OP_TYPE_ARRAY
    ensures e.Postfix? && IsPostfix(e.sign) ==> TreeOf(e).info.tag == NodeBehind(e.sign)
    ensures e.Infix? && InfixLevel(e.sign).Some? ==> TreeOf(e).info.tag == NodeBehind(e.sign)
    ensures e.Prefix? && PrefixLevel(e.sign).Some? ==> TreeOf(e).info.tag == NodeInFront(e.sign)
  {
    hide InfixLevel, PrefixLevel, IsPostfix, NodeBehind, NodeInFront;
    if e.Postfix? || e.Infix? {
      InfixSigns(e.sign);
      if IsBinary(e.sign) { InfixNodes(e.sign); }
    } else if e.Prefix? {
      PrefixSigns(e.sign);
    }
  }

  // An element count is a prefix, too.
  lemma ArrayTable()
    ensures ARRAY_TYPE.precedence == Precedence(Factor) && !ARRAY_TYPE.isRightToLeft && ARRAY_TYPE.isBinary
  {
  }
}
