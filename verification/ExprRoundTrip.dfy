/** Reading back the text of an expression. */
module ExprRoundTrip {
  import opened Basics
  import opened Ast
  import opened Operators
  import opened ExprText

  // ---------- Popping what an expression left on the stacks ----------

  lemma PopUnary(s: Stacks, op: Pending, t: Tree)
    requires op.desc.tag != INVALID && !op.desc.isBinary
    ensures PopOperator(With(Pushed(s, op), t)) == Ok(With(s, UnaryNode(op, t)))
  {
    var p := With(Pushed(s, op), t);
    assert Front(p.ops) == s.ops && p.operands[..|p.operands| - 1] == s.operands;
  }

  lemma PopBinary(s: Stacks, op: Pending, l: Tree, r: Tree)
    requires op.desc.tag != INVALID && op.desc.isBinary
    ensures PopOperator(With(Pushed(With(s, l), op), r)) == Ok(With(s, BinaryNode(op, l, r)))
  {
    var p := With(Pushed(With(s, l), op), r);
    assert Front(p.ops) == s.ops && p.operands[..|p.operands| - 2] == s.operands;
  }

  lemma PopToStep(s: Stacks, op: Pending, t: Tree, next: Stacks, precedence: nat, equal: bool)
    requires Pops(precedence, equal, op.desc) && PopOperator(With(Pushed(s, op), t)) == Ok(next)
    ensures PopTo(With(Pushed(s, op), t), precedence, equal) == PopTo(next, precedence, equal)
  {
    hide PopOperator, Pops;
    assert Top(With(Pushed(s, op), t).ops) == op;
  }

  /** An operator behind `e` that may pop what `e` left finds the finished tree. */
  lemma {:induction false} Reduce(s: Stacks, e: Expr, complex: bool, precedence: nat, equal: bool)
    requires WellFormed(e, complex) && RightOk(e, precedence, equal)
    ensures PopTo(After(s, e, complex), precedence, equal) == PopTo(With(s, TreeOf(e)), precedence, equal)
    decreases e
  {
    hide PopTo, PopOperator, Pops;
    match e
    case Prefix(source, sign, isMut, _, inner) =>
      var op := PrefixOp(source, sign, isMut);
      UnaryTable(sign);
      Reduce(Pushed(s, op), inner, complex, precedence, equal);
      PopUnary(s, op, TreeOf(inner));
      PopToStep(s, op, TreeOf(inner), With(s, TreeOf(e)), precedence, equal);
    case ArrayType(source, count, _, inner) =>
      var s', op := With(s, TreeOf(count)), ArrayOp(source);
      Reduce(Pushed(s', op), inner, complex, precedence, equal);
      PopBinary(s, op, TreeOf(count), TreeOf(inner));
      PopToStep(s', op, TreeOf(inner), With(s, TreeOf(e)), precedence, equal);
    case Postfix(source, sign, inner) =>
      var op := BinaryOp(source, sign);
      BinaryTable(sign);
      PopUnary(s, op, TreeOf(inner));
      PopToStep(s, op, TreeOf(inner), With(s, TreeOf(e)), precedence, equal);
      assert After(s, e, complex) == With(Pushed(s, op), TreeOf(inner));
    case Infix(source, sign, left, right) =>
      var s', op := With(s, TreeOf(left)), BinaryOp(source, sign);
      BinaryTable(sign);
      Reduce(Pushed(s', op), right, complex, precedence, equal);
      PopBinary(s, op, TreeOf(left), TreeOf(right));
      PopToStep(s', op, TreeOf(right), With(s, TreeOf(e)), precedence, equal);
    case _ =>
  }

  lemma RemainingStep(s: Stacks, op: Pending, t: Tree, next: Stacks)
    requires PopOperator(With(Pushed(s, op), t)) == Ok(next)
    ensures PopRemaining(With(Pushed(s, op), t)) == PopRemaining(next)
  {
    hide PopOperator;
  }

  lemma {:induction false} ReduceAll(s: Stacks, e: Expr, complex: bool)
    requires WellFormed(e, complex)
    ensures PopRemaining(After(s, e, complex)) == PopRemaining(With(s, TreeOf(e)))
    decreases e
  {
    hide PopRemaining, PopOperator;
    match e
    case Prefix(source, sign, isMut, _, inner) =>
      var op := PrefixOp(source, sign, isMut);
      UnaryTable(sign);
      ReduceAll(Pushed(s, op), inner, complex);
      PopUnary(s, op, TreeOf(inner));
      RemainingStep(s, op, TreeOf(inner), With(s, TreeOf(e)));
    case ArrayType(source, count, _, inner) =>
      var s', op := With(s, TreeOf(count)), ArrayOp(source);
      ReduceAll(Pushed(s', op), inner, complex);
      PopBinary(s, op, TreeOf(count), TreeOf(inner));
      RemainingStep(s', op, TreeOf(inner), With(s, TreeOf(e)));
    case Postfix(source, sign, inner) =>
      var op := BinaryOp(source, sign);
      BinaryTable(sign);
      PopUnary(s, op, TreeOf(inner));
      RemainingStep(s, op, TreeOf(inner), With(s, TreeOf(e)));
      assert After(s, e, complex) == With(Pushed(s, op), TreeOf(inner));
    case Infix(source, sign, left, right) =>
      var s', op := With(s, TreeOf(left)), BinaryOp(source, sign);
      BinaryTable(sign);
      ReduceAll(Pushed(s', op), right, complex);
      PopBinary(s, op, TreeOf(left), TreeOf(right));
      RemainingStep(s', op, TreeOf(right), With(s, TreeOf(e)));
    case _ =>
  }

  // ---------- Closing parentheses ----------

  predicate Stops(s: Stacks, precedence: nat, equal: bool) {
    s.ops == [] || !Pops(precedence, equal, Top(s.ops).desc)
  }

  lemma Stopped(s: Stacks, t: Tree, precedence: nat, equal: bool)
    requires Stops(s, precedence, equal)
    ensures PopTo(With(s, t), precedence, equal) == Ok(With(s, t))
  {
  }

  lemma Reduced(s: Stacks, e: Expr, complex: bool, precedence: nat, equal: bool)
    requires WellFormed(e, complex) && RightOk(e, precedence, equal) && Stops(s, precedence, equal)
    ensures PopTo(After(s, e, complex), precedence, equal) == Ok(With(s, TreeOf(e)))
  {
    hide PopTo, Stops, WellFormed, RightOk, TreeOf, After;
    Reduce(s, e, complex, precedence, equal);
    Stopped(s, TreeOf(e), precedence, equal);
  }

  /** Every expression may stand in parentheses. */
  lemma {:induction false} InParens(e: Expr, complex: bool)
    requires WellFormed(e, complex)
    ensures LeftOk(e, Unary(PAREN_L)) && RightOk(e, 10, false)
    decreases e
  {
    match e
    case Prefix(_, sign, _, _, inner) => UnaryTable(sign); InParens(inner, complex);
    case ArrayType(_, _, _, inner) => InParens(inner, complex);
    case Postfix(_, sign, inner) => BinaryTable(sign); InParens(inner, complex);
    case Infix(_, sign, left, right) => BinaryTable(sign); InParens(left, complex); InParens(right, complex);
    case Member(_, inner, _, _) => InParens(inner, complex);
    case Call(_, inner, _) => InParens(inner, complex);
    case Index(_, inner, _, _) => InParens(inner, complex);
    case _ =>
  }

  // ---------- The first tokens ----------

  lemma {:induction false} ReadsInside(input: seq<Lexeme>, pos: nat, e: Expr)
    requires Reads(input, pos, e)
    ensures pos + Length(e) <= |input|
    decreases e
  {
    match e
    case Paren(_, _, _) =>
    case Prefix(_, _, isMut, _, inner) => ReadsInside(input, pos + (if isMut then 2 else 1), inner);
    case Infix(_, _, left, right) => ReadsInside(input, pos + Length(left) + 1, right);
    case Call(_, inner, args) => ArgsInside(input, pos + Length(inner) + 1, args);
    case ArrayType(_, count, _, inner) => ReadsInside(input, pos + 1 + Length(count) + 1, inner);
    case _ =>
  }

  lemma {:induction false} ArgsInside(input: seq<Lexeme>, pos: nat, args: Exprs)
    requires ReadsArgs(input, pos, args)
    ensures pos + ArgsLength(args) <= |input|
    decreases args
  {
    match args
    case NoArgs(_) =>
    case Arg(arg, _, rest) => if rest.Arg? { ArgsInside(input, pos + Length(arg) + 1, rest); }
  }

  /** No expression starts with a token that has a meaning of its own in front of one. */
  lemma {:induction false} FirstToken(input: seq<Lexeme>, pos: nat, e: Expr)
    requires Reads(input, pos, e)
    ensures pos < |input| && pos + Length(e) <= |input|
    ensures !input[pos].token.Mut? && !input[pos].token.Definition? && !input[pos].token.ParenR?
    ensures !input[pos].token.DoubleDot?
    ensures input[pos].token.Ident? && Length(e) > 1 ==> !input[pos + 1].token.Colon?
    decreases e
  {
    ReadsInside(input, pos, e);
    match e
    case Postfix(_, _, inner) => FirstToken(input, pos, inner);
    case Infix(_, _, left, right) => FirstToken(input, pos, left);
    case Member(_, inner, _, _) => FirstToken(input, pos, inner);
    case Call(_, inner, args) => FirstToken(input, pos, inner);
    case Index(_, inner, index, _) => FirstToken(input, pos, inner);
    case _ =>
  }

  // ---------- Reading an expression ----------

  predicate Fresh(s: Stacks, e: Expr) {
    s.ops == [] || LeftOk(e, Top(s.ops).desc)
  }

  predicate Bounded(s: Stacks) {
    |s.ops| <= MAX_OPERATORS && |s.operands| <= MAX_OPERANDS
  }

  predicate Readable(input: seq<Lexeme>, pos: nat, e: Expr, s: Stacks, complex: bool) {
    Reads(input, pos, e) && WellFormed(e, complex) && Fresh(s, e) && Bounded(s) && pos + Length(e) <= |input|
  }

  /** The loop arrives behind the text of `e` with `e` on the stacks, or runs out of room. */
  predicate Consumed(input: seq<Lexeme>, pos: nat, e: Expr, s: Stacks, complex: bool) {
    && WellFormed(e, complex) && pos + Length(e) <= |input|
    && if Room(s, e) then
         Loop(input, pos, s, true, complex) == Loop(input, pos + Length(e), After(s, e, complex), false, complex)
       else
         Loop(input, pos, s, true, complex).Err?
  }

  lemma {:induction false} Consume(input: seq<Lexeme>, pos: nat, e: Expr, s: Stacks, complex: bool)
    requires Readable(input, pos, e, s, complex)
    ensures Consumed(input, pos, e, s, complex)
    decreases e, 1
  {
    hide Consumed, Readable;
    match e
    case Name(_, _) => ConsumeName(input, pos, e, s, complex);
    case Leaf(_, _) => ConsumeLeaf(input, pos, e, s, complex);
    case Implied(_, _, _) => ConsumeImplied(input, pos, e, s, complex);
    case Paren(_, _, _) => ConsumeParen(input, pos, e, s, complex);
    case Prefix(_, _, _, _, _) => ConsumePrefix(input, pos, e, s, complex);
    case Postfix(_, _, _) => ConsumePostfix(input, pos, e, s, complex);
    case Infix(_, _, _, _) => ConsumeInfix(input, pos, e, s, complex);
    case Member(_, _, _, _) => ConsumeMember(input, pos, e, s, complex);
    case Call(_, _, _) => ConsumeCall(input, pos, e, s, complex);
    case Index(_, _, _, _) => ConsumeIndex(input, pos, e, s, complex);
    case ArrayType(_, _, _, _) => ConsumeArrayType(input, pos, e, s, complex);
  }

  // What a step of the loop does, one step at a time.
  lemma LoopStep(input: seq<Lexeme>, pos: nat, s: Stacks, complex: bool)
    requires pos <= |input|
    ensures Loop(input, pos, s, true, complex) == AtOperand(input, pos, s, complex)
    ensures Loop(input, pos, s, false, complex) == AtOperator(input, pos, s, complex)
  {
    hide AtOperand, AtOperator;
  }

  lemma NextStep(input: seq<Lexeme>, pos: nat, r: Parsed<Stacks>, expecting: bool, complex: bool)
    requires pos <= |input|
    ensures r.Ok? ==> Next(input, pos, r, expecting, complex) == Loop(input, pos, r.value, expecting, complex)
    ensures r.Err? ==> Next(input, pos, r, expecting, complex).Err?
  {
    hide Loop;
  }

  lemma ConsumeName(input: seq<Lexeme>, pos: nat, e: Expr, s: Stacks, complex: bool)
    requires Readable(input, pos, e, s, complex) && e.Name?
    ensures Consumed(input, pos, e, s, complex)
  {
    hide Loop, Next;
    LoopStep(input, pos, s, complex);
    NextStep(input, pos + 1, PushOperand(s, TreeOf(e)), false, complex);
  }

  lemma ConsumeLeaf(input: seq<Lexeme>, pos: nat, e: Expr, s: Stacks, complex: bool)
    requires Readable(input, pos, e, s, complex) && e.Leaf?
    ensures Consumed(input, pos, e, s, complex)
  {
    hide Loop, Next;
    LoopStep(input, pos, s, complex);
    NextStep(input, pos + 1, PushOperand(s, TreeOf(e)), false, complex);
  }

  lemma ConsumeImplied(input: seq<Lexeme>, pos: nat, e: Expr, s: Stacks, complex: bool)
    requires Readable(input, pos, e, s, complex) && e.Implied?
    ensures Consumed(input, pos, e, s, complex)
  {
    hide Loop, Next;
    LoopStep(input, pos, s, complex);
    assert AtOperand(input, pos, s, complex) == AtImpliedMember(input, pos, s, complex);
    NextStep(input, pos + 2, PushOperand(s, TreeOf(e)), false, complex);
  }

  // ---------- Parentheses ----------

  lemma {:induction false} ConsumeParen(input: seq<Lexeme>, pos: nat, e: Expr, s: Stacks, complex: bool)
    requires Readable(input, pos, e, s, complex) && e.Paren?
    ensures Consumed(input, pos, e, s, complex)
    decreases e, 0
  {
    hide Loop, LeftOk, RightOk, TreeOf, PopTo, WellFormed, Reads, After;
    ParenParts(input, pos, e, complex);
    var inner, paren := e.inner, Pending(Unary(PAREN_L), 0, e.source);
    PrefixStep(input, pos, s, s, PAREN_L, false, complex);
    InParens(inner, complex);
    if |s.ops| < MAX_OPERATORS {
      var s', end := Pushed(s, paren), pos + 1 + Length(inner);
      Consume(input, pos + 1, inner, s', complex);
      if Room(s', inner) {
        Reduced(s', inner, complex, 10, false);
        CloseStep(input, end, s, After(s', inner, complex), paren, TreeOf(inner), complex);
      }
    }
  }

  lemma ParenParts(input: seq<Lexeme>, pos: nat, e: Expr, complex: bool)
    requires Reads(input, pos, e) && WellFormed(e, complex) && e.Paren? && pos + Length(e) <= |input|
    ensures pos + Length(e) == pos + 1 + Length(e.inner) + 1 && WellFormed(e.inner, complex)
    ensures TreeOf(e) == TreeOf(e.inner)
    ensures input[pos] == Lexeme(Sign(PAREN_L), e.source) && Reads(input, pos + 1, e.inner)
    ensures input[pos + 1 + Length(e.inner)].token == ParenR
    ensures forall s :: After(s, e, complex) == With(s, TreeOf(e))
  {
  }

  // A prefix operator or an opening parenthesis.
  lemma PrefixStep(input: seq<Lexeme>, pos: nat, s: Stacks, popped: Stacks, sign: nat, isMut: bool, complex: bool)
    requires pos < |input| && input[pos].token == Sign(sign) && IsUnary(sign)
    requires isMut == (Unary(sign).takesMut && Peek(input, pos + 1).token.Mut?)
    requires
      if sign == PAREN_L then popped == s
      else PopTo(s, Unary(sign).precedence, Unary(sign).isRightToLeft) == Ok(popped)
    ensures |popped.ops| == MAX_OPERATORS ==> Loop(input, pos, s, true, complex).Err?
    ensures |popped.ops| != MAX_OPERATORS ==>
      pos + (if isMut then 2 else 1) <= |input| &&
      Loop(input, pos, s, true, complex)
      == Loop(input, pos + (if isMut then 2 else 1), Pushed(popped, PrefixOp(input[pos].source, sign, isMut)), true,
          complex)
  {
    hide PopTo, Loop, Next, Unary;
    PushStep(s, popped, PrefixOp(input[pos].source, sign, isMut), sign);
    LoopStep(input, pos, s, complex);
    assert AtOperand(input, pos, s, complex) == AtPrefix(input, pos, s, sign, complex);
    NextStep(input, pos + (if isMut then 2 else 1), PushOperator(s, PrefixOp(input[pos].source, sign, isMut)), true,
      complex);
  }

  lemma PushStep(s: Stacks, popped: Stacks, op: Pending, sign: nat)
    requires IsUnary(sign) && op.desc == Unary(sign)
    requires
      if sign == PAREN_L then popped == s
      else PopTo(s, Unary(sign).precedence, Unary(sign).isRightToLeft) == Ok(popped)
    ensures PushOperator(s, op) == if |popped.ops| == MAX_OPERATORS then Err(TooManyOperators)
        else Ok(Pushed(popped, op))
  {
    hide PopTo;
    if sign != PAREN_L { UnaryTable(sign); }
  }

  lemma CloseStep(input: seq<Lexeme>, pos: nat, s: Stacks, before: Stacks, paren: Pending, t: Tree, complex: bool)
    requires pos < |input| && input[pos].token == ParenR
    requires PopTo(before, 10, false) == Ok(With(Pushed(s, paren), t))
    ensures Loop(input, pos, before, false, complex) == Loop(input, pos + 1, With(s, t), false, complex)
  {
    hide PopTo, Loop, Next;
    LoopStep(input, pos, before, complex);
    assert AtOperator(input, pos, before, complex) == AtParenR(input, pos, before, complex);
    assert Front(With(Pushed(s, paren), t).ops) == s.ops;
    NextStep(input, pos + 1, Ok(With(s, t)), false, complex);
  }

  // ---------- Operators ----------

  lemma {:induction false} ConsumePrefix(input: seq<Lexeme>, pos: nat, e: Expr, s: Stacks, complex: bool)
    requires Readable(input, pos, e, s, complex) && e.Prefix?
    ensures Consumed(input, pos, e, s, complex)
    decreases e, 0
  {
    hide Loop, LeftOk, RightOk, TreeOf, PopTo, WellFormed, Reads, After, Unary;
    PrefixParts(input, pos, e, s, complex);
    PrefixStep(input, pos, s, s, e.sign, e.isMut, complex);
    if |s.ops| < MAX_OPERATORS {
      Consume(input, pos + (if e.isMut then 2 else 1), e.inner, Pushed(s, PrefixOp(e.source, e.sign, e.isMut)),
        complex);
    }
  }

  lemma PrefixParts(input: seq<Lexeme>, pos: nat, e: Expr, s: Stacks, complex: bool)
    requires Readable(input, pos, e, s, complex) && e.Prefix?
    ensures IsUnary(e.sign) && e.sign != PAREN_L && WellFormed(e.inner, complex) && LeftOk(e.inner, Unary(e.sign))
    ensures input[pos] == Lexeme(Sign(e.sign), e.source) && Reads(input, pos + (if e.isMut then 2 else 1), e.inner)
    ensures e.isMut == (Unary(e.sign).takesMut && Peek(input, pos + 1).token.Mut?)
    ensures PopTo(s, Unary(e.sign).precedence, Unary(e.sign).isRightToLeft) == Ok(s)
    ensures pos + Length(e) == pos + (if e.isMut then 2 else 1) + Length(e.inner)
    ensures After(s, e, complex) == After(Pushed(s, PrefixOp(e.source, e.sign, e.isMut)), e.inner, complex)
  {
    FirstToken(input, pos + (if e.isMut then 2 else 1), e.inner);
  }

  // A binary or postfix operator behind an operand.
  lemma OperatorStep(input: seq<Lexeme>, pos: nat, s: Stacks, popped: Stacks, sign: nat, complex: bool)
    requires pos < |input| && input[pos].token == Sign(sign) && IsBinary(sign) && (complex || sign != ASSIGN)
    requires PopTo(s, Binary(sign).precedence, Binary(sign).isRightToLeft) == Ok(popped)
    ensures |popped.ops| == MAX_OPERATORS ==> Loop(input, pos, s, false, complex).Err?
    ensures |popped.ops| != MAX_OPERATORS ==>
      Loop(input, pos, s, false, complex) == Loop(input, pos + 1, Pushed(popped, BinaryOp(input[pos].source, sign)),
          Binary(sign).isBinary, complex)
  {
    hide PopTo, Loop, Next, Binary;
    BinaryTable(sign);
    LoopStep(input, pos, s, complex);
    NextStep(input, pos + 1, PushOperator(s, BinaryOp(input[pos].source, sign)), Binary(sign).isBinary, complex);
  }

  lemma {:induction false} ConsumePostfix(input: seq<Lexeme>, pos: nat, e: Expr, s: Stacks, complex: bool)
    requires Readable(input, pos, e, s, complex) && e.Postfix?
    ensures Consumed(input, pos, e, s, complex)
    decreases e, 0
  {
    hide Loop, LeftOk, RightOk, TreeOf, PopTo, WellFormed, Reads, After, Binary;
    PostfixParts(input, pos, e, s, complex);
    Consume(input, pos, e.inner, s, complex);
    if Room(s, e.inner) {
      OperatorStep(input, pos + Length(e.inner), With(s, TreeOf(e.inner)), With(s, TreeOf(e.inner)), e.sign, complex);
    }
  }

  lemma PostfixParts(input: seq<Lexeme>, pos: nat, e: Expr, s: Stacks, complex: bool)
    requires Readable(input, pos, e, s, complex) && e.Postfix?
    ensures Readable(input, pos, e.inner, s, complex) && IsBinary(e.sign) && !Binary(e.sign).isBinary
    ensures e.sign != ASSIGN
    ensures input[pos + Length(e.inner)] == Lexeme(Sign(e.sign), e.source) && Length(e) == Length(e.inner) + 1
    ensures After(s, e.inner, complex) == With(s, TreeOf(e.inner))
    ensures After(s, e, complex) == Pushed(With(s, TreeOf(e.inner)), BinaryOp(e.source, e.sign))
    ensures PopTo(With(s, TreeOf(e.inner)), Binary(e.sign).precedence, Binary(e.sign).isRightToLeft)
      == Ok(With(s, TreeOf(e.inner)))
  {
    BinaryTable(e.sign);
    Stopped(s, TreeOf(e.inner), Binary(e.sign).precedence, Binary(e.sign).isRightToLeft);
  }

  lemma {:induction false} ConsumeInfix(input: seq<Lexeme>, pos: nat, e: Expr, s: Stacks, complex: bool)
    requires Readable(input, pos, e, s, complex) && e.Infix?
    ensures Consumed(input, pos, e, s, complex)
    decreases e, 0
  {
    hide Loop, LeftOk, RightOk, TreeOf, PopTo, WellFormed, Reads, After, Binary;
    InfixParts(input, pos, e, s, complex);
    var l, r, middle := e.left, e.right, pos + Length(e.left);
    Consume(input, pos, l, s, complex);
    if Room(s, l) {
      Reduced(s, l, complex, Binary(e.sign).precedence, Binary(e.sign).isRightToLeft);
      OperatorStep(input, middle, After(s, l, complex), With(s, TreeOf(l)), e.sign, complex);
      if |s.ops| < MAX_OPERATORS {
        Consume(input, middle + 1, r, Pushed(With(s, TreeOf(l)), BinaryOp(e.source, e.sign)), complex);
      }
    }
  }

  lemma InfixParts(input: seq<Lexeme>, pos: nat, e: Expr, s: Stacks, complex: bool)
    requires Readable(input, pos, e, s, complex) && e.Infix?
    ensures Readable(input, pos, e.left, s, complex) && IsBinary(e.sign) && Binary(e.sign).isBinary
        && (complex || e.sign != ASSIGN)
    ensures input[pos + Length(e.left)] == Lexeme(Sign(e.sign), e.source)
    ensures Length(e) == Length(e.left) + 1 + Length(e.right)
    ensures Reads(input, pos + Length(e.left) + 1, e.right) && WellFormed(e.right, complex)
    ensures LeftOk(e.right, Binary(e.sign))
    ensures RightOk(e.left, Binary(e.sign).precedence, Binary(e.sign).isRightToLeft)
    ensures Stops(s, Binary(e.sign).precedence, Binary(e.sign).isRightToLeft)
    ensures After(s, e, complex) == After(Pushed(With(s, TreeOf(e.left)), BinaryOp(e.source, e.sign)), e.right, complex)
  {
  }

  // ---------- Member access, calls and indices ----------

  lemma SuffixStep(input: seq<Lexeme>, pos: nat, s: Stacks, popped: Stacks, complex: bool)
    requires pos < |input| && PopTo(s, 1, true) == Ok(popped) && popped.operands != []
    ensures input[pos].token.Dot? ==> Loop(input, pos, s, false, complex) == AtMember(input, pos, popped, complex)
    ensures input[pos].token.BracketL? ==> Loop(input, pos, s, false, complex) == AtIndex(input, pos, popped, complex)
    ensures input[pos].token == Sign(PAREN_L) ==>
      Loop(input, pos, s, false, complex) == AtCall(input, pos, popped, complex)
  {
    hide Loop, PopTo, AtMember, AtIndex, AtCall, AtParenR, Next, PopRemaining, PushOperator;
    LoopStep(input, pos, s, complex);
  }

  lemma {:induction false} ConsumeMember(input: seq<Lexeme>, pos: nat, e: Expr, s: Stacks, complex: bool)
    requires Readable(input, pos, e, s, complex) && e.Member?
    ensures Consumed(input, pos, e, s, complex)
    decreases e, 0
  {
    hide Loop, LeftOk, RightOk, PopTo, WellFormed, Reads, After, AtOperator, AtOperand;
    MemberParts(input, pos, e, s, complex);
    var inner, dot := e.inner, pos + Length(e.inner);
    Consume(input, pos, inner, s, complex);
    if Room(s, inner) {
      Reduced(s, inner, complex, 1, true);
      var s' := With(s, TreeOf(inner));
      SuffixStep(input, dot, After(s, inner, complex), s', complex);
      Wrapped(s, TreeOf(inner), MemberInfo(e.name, e.source), Nil);
      NextStep(input, dot + 2, Wrap(s', MemberInfo(e.name, e.source), Nil), false, complex);
    }
  }

  lemma MemberParts(input: seq<Lexeme>, pos: nat, e: Expr, s: Stacks, complex: bool)
    requires Readable(input, pos, e, s, complex) && e.Member?
    ensures Readable(input, pos, e.inner, s, complex) && RightOk(e.inner, 1, true) && Stops(s, 1, true)
    ensures input[pos + Length(e.inner)] == Lexeme(Dot, e.source) && Length(e) == Length(e.inner) + 2
    ensures input[pos + Length(e.inner) + 1].token == Ident(e.name)
    ensures After(s, e, complex) == With(s, TreeOf(e))
  {
  }

  lemma Wrapped(s: Stacks, t: Tree, info: Info, more: Forest)
    ensures Wrap(With(s, t), info, more) == Ok(With(s, Node(info, Cons(t, more))))
  {
    assert Front(With(s, t).operands) == s.operands;
  }

  lemma {:induction false} ConsumeCall(input: seq<Lexeme>, pos: nat, e: Expr, s: Stacks, complex: bool)
    requires Readable(input, pos, e, s, complex) && e.Call?
    ensures Consumed(input, pos, e, s, complex)
    decreases e, 0
  {
    hide Loop, LeftOk, RightOk, PopTo, WellFormed, Reads, ReadsArgs, After, Arguments, TreeOf, ForestOf, AtOperator,
         AtOperand;
    CallParts(input, pos, e, s, complex);
    var inner, open := e.inner, pos + Length(e.inner);
    Consume(input, pos, inner, s, complex);
    if Room(s, inner) {
      Reduced(s, inner, complex, 1, true);
      var s' := With(s, TreeOf(inner));
      SuffixStep(input, open, After(s, inner, complex), s', complex);
      ConsumeArgs(input, open + 1, e.args);
      Wrapped(s, TreeOf(inner), CallInfo(e.source), ForestOf(e.args));
      NextStep(input, pos + Length(e), Wrap(s', CallInfo(e.source), ForestOf(e.args)), false, complex);
    }
  }

  lemma CallParts(input: seq<Lexeme>, pos: nat, e: Expr, s: Stacks, complex: bool)
    requires Readable(input, pos, e, s, complex) && e.Call?
    ensures Readable(input, pos, e.inner, s, complex) && RightOk(e.inner, 1, true) && Stops(s, 1, true)
    ensures input[pos + Length(e.inner)] == Lexeme(Sign(PAREN_L), e.source)
    ensures Length(e) == Length(e.inner) + 1 + ArgsLength(e.args)
    ensures ReadsArgs(input, pos + Length(e.inner) + 1, e.args) && ArgsWellFormed(e.args)
    ensures After(s, e, complex) == With(s, TreeOf(e))
    ensures TreeOf(e) == Node(CallInfo(e.source), Cons(TreeOf(e.inner), ForestOf(e.args)))
  {
  }

  /** The arguments of a call, each on stacks of its own. */
  lemma {:induction false} ConsumeArgs(input: seq<Lexeme>, pos: nat, args: Exprs)
    requires ReadsArgs(input, pos, args) && ArgsWellFormed(args)
    ensures pos + ArgsLength(args) <= |input|
    ensures ArgsRoom(args) ==> Arguments(input, pos) == Ok((ForestOf(args), pos + ArgsLength(args) - 1))
    ensures !ArgsRoom(args) ==> Arguments(input, pos).Err?
    decreases args, 0
  {
    hide Loop, LeftOk, RightOk, PopTo, WellFormed, Reads, After, ParseExpr, TreeOf, Small;
    ArgsInside(input, pos, args);
    match args
    case NoArgs(_) =>
    case Arg(arg, _, rest) =>
      FirstToken(input, pos, arg);
      Whole(input, pos, arg, true);
      if rest.Arg? {
        ConsumeArgs(input, pos + Length(arg) + 1, rest);
      } else {
        assert ArgsRoom(rest);
      }
  }

  lemma {:induction false} ConsumeIndex(input: seq<Lexeme>, pos: nat, e: Expr, s: Stacks, complex: bool)
    requires Readable(input, pos, e, s, complex) && e.Index?
    ensures Consumed(input, pos, e, s, complex)
    decreases e, 0
  {
    hide Loop, LeftOk, RightOk, PopTo, WellFormed, Reads, After, ParseExpr, TreeOf, AtOperator, AtOperand, AtIndex;
    IndexParts(input, pos, e, s, complex);
    var inner, open, index := e.inner, pos + Length(e.inner), e.index;
    Consume(input, pos, inner, s, complex);
    if Room(s, inner) {
      Reduced(s, inner, complex, 1, true);
      var s' := With(s, TreeOf(inner));
      SuffixStep(input, open, After(s, inner, complex), s', complex);
      FirstToken(input, open + 1, index);
      Whole(input, open + 1, index, false);
      IndexStep(input, open, s, TreeOf(inner), ParseExpr(input, open + 1, false), complex);
    }
  }

  lemma IndexStep(input: seq<Lexeme>, pos: nat, s: Stacks, t: Tree, index: Parsed<(Tree, nat)>, complex: bool)
    requires pos < |input| && !Peek(input, pos + 1).token.DoubleDot? && index == ParseExpr(input, pos + 1, false)
    requires index.Ok? ==> Peek(input, index.value.1).token.BracketR?
    ensures index.Err? ==> AtIndex(input, pos, With(s, t), complex).Err?
    ensures index.Ok? ==>
      AtIndex(input, pos, With(s, t), complex) == Loop(input, index.value.1 + 1,
          With(s, Node(IndexInfo(input[pos].source), Cons(t, One(index.value.0)))), false, complex)
  {
    hide ParseExpr, Loop;
    if index.Ok? { Wrapped(s, t, IndexInfo(input[pos].source), One(index.value.0)); }
  }

  lemma IndexParts(input: seq<Lexeme>, pos: nat, e: Expr, s: Stacks, complex: bool)
    requires Readable(input, pos, e, s, complex) && e.Index?
    ensures Readable(input, pos, e.inner, s, complex) && RightOk(e.inner, 1, true) && Stops(s, 1, true)
    ensures input[pos + Length(e.inner)] == Lexeme(BracketL, e.source)
    ensures Length(e) == Length(e.inner) + 1 + Length(e.index) + 1
    ensures Reads(input, pos + Length(e.inner) + 1, e.index) && WellFormed(e.index, false)
    ensures input[pos + Length(e.inner) + 1 + Length(e.index)].token == BracketR
    ensures After(s, e, complex) == With(s, TreeOf(e))
    ensures TreeOf(e) == Node(IndexInfo(e.source), Cons(TreeOf(e.inner), One(TreeOf(e.index))))
  {
  }

  lemma {:induction false} ConsumeArrayType(input: seq<Lexeme>, pos: nat, e: Expr, s: Stacks, complex: bool)
    requires Readable(input, pos, e, s, complex) && e.ArrayType?
    ensures Consumed(input, pos, e, s, complex)
    decreases e, 0
  {
    hide Loop, LeftOk, RightOk, PopTo, WellFormed, Reads, After, ParseExpr, TreeOf;
    ArrayTypeParts(input, pos, e, s, complex);
    var count, end, s' := e.count, pos + 1 + Length(e.count), With(s, TreeOf(e.count));
    Whole(input, pos + 1, count, false);
    LoopStep(input, pos, s, complex);
    assert AtOperand(input, pos, s, complex) == AtArrayType(input, pos, s, complex);
    if Small(count) && |s.operands| < MAX_OPERANDS {
      NextStep(input, end + 1, PushOperator(s', ArrayOp(e.source)), true, complex);
      if |s.ops| < MAX_OPERATORS {
        Consume(input, end + 1, e.inner, Pushed(s', ArrayOp(e.source)), complex);
      }
    }
  }

  lemma ArrayTypeParts(input: seq<Lexeme>, pos: nat, e: Expr, s: Stacks, complex: bool)
    requires Readable(input, pos, e, s, complex) && e.ArrayType?
    ensures input[pos] == Lexeme(BracketL, e.source) && Length(e) == 1 + Length(e.count) + 1 + Length(e.inner)
    ensures Reads(input, pos + 1, e.count) && WellFormed(e.count, false)
    ensures input[pos + 1 + Length(e.count)].token == BracketR
    ensures Reads(input, pos + 1 + Length(e.count) + 1, e.inner) && WellFormed(e.inner, complex)
    ensures LeftOk(e.inner, ARRAY_TYPE)
    ensures PopTo(With(s, TreeOf(e.count)), 2, false) == Ok(With(s, TreeOf(e.count)))
    ensures After(s, e, complex) == After(Pushed(With(s, TreeOf(e.count)), ArrayOp(e.source)), e.inner, complex)
  {
    Stopped(s, TreeOf(e.count), 2, false);
  }

  // ---------- Whole expressions ----------

  /** Tokens at which an expression ends. */
  predicate Ends(token: Token, complex: bool) {
    token.ParenR?
    || (!token.Dot? && !token.BracketL? && !token.Suffix?
        && !(token.Sign? && (token.ordinal == PAREN_L
            || (IsBinary(token.ordinal) && (complex || token.ordinal != ASSIGN)))))
  }

  /** The text of an expression reads back as its tree if it fits on the stacks, and as an error
      if it does not. */
  lemma {:induction false} Whole(input: seq<Lexeme>, pos: nat, e: Expr, complex: bool)
    requires Reads(input, pos, e) && WellFormed(e, complex)
    requires Ends(Peek(input, pos + Length(e)).token, complex)
    ensures pos + Length(e) <= |input|
    ensures if Small(e) then ParseExpr(input, pos, complex) == Ok((TreeOf(e), pos + Length(e)))
            else ParseExpr(input, pos, complex).Err?
    decreases e, 2
  {
    hide Loop, LeftOk, RightOk, PopTo, PopRemaining, WellFormed, Reads, After, TreeOf, OpsNeeded, OperandsNeeded,
         NestedRoom;
    FirstToken(input, pos, e);
    var none := Stacks([], []);
    Consume(input, pos, e, none, complex);
    if Small(e) {
      InParens(e, complex);
      Reduced(none, e, complex, 10, false);
      ReduceAll(none, e, complex);
      EndStep(input, pos + Length(e), After(none, e, complex), TreeOf(e), complex);
    }
  }

  // Behind the last operator: a closing parenthesis that is not ours, or any other token.
  lemma EndStep(input: seq<Lexeme>, pos: nat, s: Stacks, t: Tree, complex: bool)
    requires pos <= |input| && Ends(Peek(input, pos).token, complex)
    requires PopTo(s, 10, false) == Ok(With(Stacks([], []), t))
    requires PopRemaining(s) == PopRemaining(With(Stacks([], []), t))
    ensures Loop(input, pos, s, false, complex) == Ok((t, pos))
  {
    hide PopTo, Loop;
    LoopStep(input, pos, s, complex);
    OneLeft(t);
  }

  lemma OneLeft(t: Tree)
    ensures PopRemaining(With(Stacks([], []), t)) == Ok(t)
  {
  }
}
