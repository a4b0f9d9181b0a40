/** Which texts the expression parser accepts: those of the language, whatever their grouping, where
    closing parentheses may be missing at the end of an expression. */
module ExprAccepted {
  import opened Basics
  import opened Ast
  import opened Operators
  import opened ExprText
  import opened ExprRoundTrip
  import opened ExprPrinter
  import opened ExprSources
  import opened ExprFuture

  // ---------- Written expressions ----------

  /** `e` is written from `pos` to `end`, where `open` parentheses are not closed. */
  ghost predicate Written(input: seq<Lexeme>, pos: nat, end: nat, e: Expr, open: nat)
    decreases e, 0
  {
    match e
    case Name(source, name) => At(input, pos, Ident(name), source) && end == pos + 1 && open == 0
    case Leaf(source, info) => At(input, pos, Literal(info), source) && end == pos + 1 && open == 0
    case Implied(source, nameSource, name) =>
      At(input, pos, Dot, source) && At(input, pos + 1, Ident(name), nameSource) && end == pos + 2 && open == 0
    case Paren(source, inner, closeSource) =>
      && At(input, pos, Sign(PAREN_L), source)
      && if open > 0 then Written(input, pos + 1, end, inner, open - 1)
         else end > 0 && Written(input, pos + 1, end - 1, inner, 0) && At(input, end - 1, ParenR, closeSource)
    case Prefix(source, sign, isMut, mutSource, inner) =>
      && At(input, pos, Sign(sign), source) && (isMut ==> At(input, pos + 1, Mut, mutSource))
      && Written(input, pos + (if isMut then 2 else 1), end, inner, open)
    case Postfix(source, sign, inner) =>
      open == 0 && end > 0 && Written(input, pos, end - 1, inner, 0) && At(input, end - 1, Sign(sign), source)
    case Infix(source, sign, left, right) =>
      exists m: nat ::
        (Written(input, pos, m, left, 0) && At(input, m, Sign(sign), source) && Written(input, m + 1, end, right, open))
    case Member(source, inner, nameSource, name) =>
      open == 0 && end > 1 && Written(input, pos, end - 2, inner, 0) && At(input, end - 2, Dot, source)
      && At(input, end - 1, Ident(name), nameSource)
    case Call(source, inner, args) =>
      open == 0 && exists m: nat ::
        (Written(input, pos, m, inner, 0) && At(input, m, Sign(PAREN_L), source)
         && ArgsWritten(input, m + 1, end, args))
    case Index(source, inner, index, closeSource) =>
      open == 0 && end > 0 && At(input, end - 1, BracketR, closeSource)
      && exists m: nat ::
        (Written(input, pos, m, inner, 0) && At(input, m, BracketL, source) && Enclosed(input, m + 1, end - 1, index))
    case ArrayType(source, count, closeSource, inner) =>
      At(input, pos, BracketL, source)
      && exists m: nat ::
        (Enclosed(input, pos + 1, m, count) && At(input, m, BracketR, closeSource)
         && Written(input, m + 1, end, inner, open))
  }

  // An expression of its own, between other tokens.
  ghost predicate Enclosed(input: seq<Lexeme>, pos: nat, end: nat, e: Expr)
    decreases e, 1
  {
    exists open: nat :: Written(input, pos, end, e, open)
  }

  // The arguments of a call and its closing parenthesis, possibly behind a comma.
  ghost predicate ArgsWritten(input: seq<Lexeme>, pos: nat, end: nat, args: Exprs)
    decreases args, 0
  {
    match args
    case NoArgs(closeSource) => At(input, pos, ParenR, closeSource) && end == pos + 1
    case Arg(arg, commaSource, rest) =>
      exists m: nat :: Enclosed(input, pos, m, arg) && ArgsBehind(input, m, end, commaSource, rest)
  }

  ghost predicate ArgsBehind(input: seq<Lexeme>, m: nat, end: nat, commaSource: nat, rest: Exprs)
    decreases rest, 1
  {
    if At(input, m, Comma, commaSource) then ArgsWritten(input, m + 1, end, rest)
    else rest.NoArgs? && At(input, m, ParenR, rest.closeSource) && end == m + 1
  }

  ghost predicate Span(input: seq<Lexeme>, pos: nat, end: nat, e: Expr, open: nat, complex: bool) {
    Proper(e, complex) && Written(input, pos, end, e, open)
  }

  // ---------- Parentheses on the stack ----------

  function Parens(ops: seq<Pending>): nat {
    if ops == [] then 0 else (if Top(ops).desc.tag == INVALID then 1 else 0) + Parens(Front(ops))
  }

  ghost predicate Known(s: Stacks) {
    forall i | 0 <= i < |s.ops| :: KnownOp(s.ops[i])
  }

  lemma {:induction false} PopToParens(s: Stacks, precedence: nat, equal: bool)
    requires Known(s) && PopTo(s, precedence, equal).Ok? && (precedence < 10 || (precedence == 10 && !equal))
    ensures Known(PopTo(s, precedence, equal).value)
    ensures Parens(PopTo(s, precedence, equal).value.ops) == Parens(s.ops)
    decreases |s.ops|
  {
    hide KnownOp, Parens;
    if s.ops != [] && Pops(precedence, equal, Top(s.ops).desc) {
      PopKeeps(s, precedence, equal);
      PopToParens(PopOperator(s).value, precedence, equal);
    }
  }

  lemma PopKeeps(s: Stacks, precedence: nat, equal: bool)
    requires Known(s) && s.ops != [] && Pops(precedence, equal, Top(s.ops).desc) && PopOperator(s).Ok?
    requires precedence < 10 || (precedence == 10 && !equal)
    ensures Known(PopOperator(s).value) && Parens(PopOperator(s).value.ops) == Parens(s.ops)
  {
    hide KnownOp;
    NotParen(Top(s.ops), precedence, equal);
  }

  lemma NotParen(op: Pending, precedence: nat, equal: bool)
    requires KnownOp(op) && Pops(precedence, equal, op.desc) && (precedence < 10 || (precedence == 10 && !equal))
    ensures op.desc.tag != INVALID
  {
    if sign :| IsUnary(sign) && op.desc == Unary(sign) {
      if sign != PAREN_L { UnaryTable(sign); }
    } else if sign :| IsBinary(sign) && op.desc == Binary(sign) {
      BinaryTable(sign);
    }
  }

  lemma PushParens(s: Stacks, op: Pending)
    requires Known(s) && KnownOp(op) && PushOperator(s, op).Ok?
    ensures Known(PushOperator(s, op).value)
    ensures Parens(PushOperator(s, op).value.ops) == Parens(s.ops) + (if op.desc.tag == INVALID then 1 else 0)
  {
    hide KnownOp, PopTo;
    if op.desc.tag != INVALID {
      LoosestOperator(op);
      PopToParens(s, op.desc.precedence, op.desc.isRightToLeft);
    }
  }

  lemma LoosestOperator(op: Pending)
    requires KnownOp(op) && op.desc.tag != INVALID
    ensures op.desc.precedence < 10
  {
    if sign :| IsUnary(sign) && op.desc == Unary(sign) {
      UnaryTable(sign);
    } else if sign :| IsBinary(sign) && op.desc == Binary(sign) {
      BinaryTable(sign);
    }
  }

  // ---------- The loop ----------

  /** What the parser goes on to where `e` ends: the end of the expression, or the parenthesis that
      closes the innermost open one. */
  datatype Exit = Ended | Closing(s: Stacks)

  ghost predicate Leaves(input: seq<Lexeme>, q: nat, open: nat, x: Exit, depth: nat, complex: bool, r: (Tree, nat)) {
    match x
    case Ended =>
      && q == r.1 && Ends(Peek(input, q).token, complex)
      && (open + depth > 0 ==> !Peek(input, q).token.ParenR?)
    case Closing(s) =>
      && open == 0 && q < |input| && input[q].token.ParenR? && Known(s) && Parens(s.ops) + 1 == depth
      && Loop(input, q + 1, s, false, complex) == Ok(r)
  }

  lemma {:induction false} WrittenWithin(input: seq<Lexeme>, pos: nat, end: nat, e: Expr, open: nat)
    requires Written(input, pos, end, e, open)
    ensures pos < end <= |input|
    decreases e, 0
  {
    match e
    case Paren(_, inner, _) =>
      if open > 0 {
        WrittenWithin(input, pos + 1, end, inner, open - 1);
      } else {
        WrittenWithin(input, pos + 1, end - 1, inner, 0);
      }
    case Prefix(_, _, isMut, _, inner) => WrittenWithin(input, pos + (if isMut then 2 else 1), end, inner, open);
    case Postfix(_, _, inner) => WrittenWithin(input, pos, end - 1, inner, 0);
    case Infix(source, sign, left, right) =>
      var m: nat :| Written(input, pos, m, left, 0) && At(input, m, Sign(sign), source)
        && Written(input, m + 1, end, right, open);
      WrittenWithin(input, pos, m, left, 0);
      WrittenWithin(input, m + 1, end, right, open);
    case Member(_, inner, _, _) => WrittenWithin(input, pos, end - 2, inner, 0);
    case Call(source, inner, args) =>
      var m: nat :| Written(input, pos, m, inner, 0) && At(input, m, Sign(PAREN_L), source)
        && ArgsWritten(input, m + 1, end, args);
      WrittenWithin(input, pos, m, inner, 0);
      ArgsWithin(input, m + 1, end, args);
    case Index(source, inner, index, _) =>
      var m: nat :| Written(input, pos, m, inner, 0) && At(input, m, BracketL, source)
        && Enclosed(input, m + 1, end - 1, index);
      WrittenWithin(input, pos, m, inner, 0);
      EnclosedWithin(input, m + 1, end - 1, index);
    case ArrayType(_, count, closeSource, inner) =>
      var m: nat :| Enclosed(input, pos + 1, m, count) && At(input, m, BracketR, closeSource)
        && Written(input, m + 1, end, inner, open);
      EnclosedWithin(input, pos + 1, m, count);
      WrittenWithin(input, m + 1, end, inner, open);
    case _ =>
  }

  lemma {:induction false} EnclosedWithin(input: seq<Lexeme>, pos: nat, end: nat, e: Expr)
    requires Enclosed(input, pos, end, e)
    ensures pos < end <= |input|
    decreases e, 1
  {
    hide Written;
    var k: nat :| Written(input, pos, end, e, k);
    WrittenWithin(input, pos, end, e, k);
  }

  lemma {:induction false} ArgsWithin(input: seq<Lexeme>, pos: nat, end: nat, args: Exprs)
    requires ArgsWritten(input, pos, end, args)
    ensures pos < end <= |input|
    decreases args, 0
  {
    match args
    case NoArgs(_) =>
    case Arg(arg, commaSource, rest) =>
      var m: nat :| Enclosed(input, pos, m, arg) && ArgsBehind(input, m, end, commaSource, rest);
      EnclosedWithin(input, pos, m, arg);
      if At(input, m, Comma, commaSource) { ArgsWithin(input, m + 1, end, rest); }
  }

  lemma SpanWithin(input: seq<Lexeme>, pos: nat, end: nat, e: Expr, open: nat, complex: bool)
    requires Span(input, pos, end, e, open, complex)
    ensures pos < end <= |input|
  {
    hide Written, Proper;
    WrittenWithin(input, pos, end, e, open);
  }

  /** In front of an operand: an expression is written there. */
  lemma {:induction false} AcceptOperand(input: seq<Lexeme>, pos: nat, s: Stacks, complex: bool, r: (Tree, nat))
    returns (e: Expr, q: nat, open: nat, x: Exit)
    requires pos <= |input| && Known(s) && Loop(input, pos, s, true, complex) == Ok(r)
    ensures Span(input, pos, q, e, open, complex) && Leaves(input, q, open, x, Parens(s.ops), complex, r)
    decreases |input| - pos, 3
  {
    hide Span, Leaves, Parens, KnownOp, AtPrefix, AtArrayType, AtImpliedMember, Next;
    var lexeme := Peek(input, pos);
    match lexeme.token
    case Ident(name) =>
      SpanAtom(input, pos, Name(lexeme.source, name), complex);
      e, q, open, x := AcceptLeaf(input, pos, pos + 1, Name(lexeme.source, name), s,
        Node(IdentInfo(name, lexeme.source), Nil), complex, r);
    case Literal(info) =>
      SpanAtom(input, pos, Leaf(lexeme.source, info), complex);
      e, q, open, x := AcceptLeaf(input, pos, pos + 1, Leaf(lexeme.source, info), s, Node(info, Nil), complex, r);
    case Dot => e, q, open, x := AcceptImplied(input, pos, s, complex, r);
    case BracketL => e, q, open, x := AcceptArrayType(input, pos, s, complex, r);
    case Sign(sign) =>
      if sign == PAREN_L {
        e, q, open, x := AcceptParen(input, pos, s, complex, r);
      } else {
        e, q, open, x := AcceptPrefix(input, pos, s, sign, complex, r);
      }
    case _ => assert false;
  }

  lemma SpanAtom(input: seq<Lexeme>, pos: nat, e: Expr, complex: bool)
    requires (e.Name? && At(input, pos, Ident(e.name), e.source))
          || (e.Leaf? && At(input, pos, Literal(e.info), e.source))
    ensures Span(input, pos, pos + 1, e, 0, complex)
  {
  }

  lemma {:induction false} AcceptLeaf(input: seq<Lexeme>, pos: nat, pos': nat, e0: Expr, s: Stacks, t: Tree,
                                      complex: bool, r: (Tree, nat))
    returns (e: Expr, q: nat, open: nat, x: Exit)
    requires pos < pos' <= |input| && Known(s) && Span(input, pos, pos', e0, 0, complex)
    requires Next(input, pos', PushOperand(s, t), false, complex) == Ok(r)
    ensures Span(input, pos, q, e, open, complex) && Leaves(input, q, open, x, Parens(s.ops), complex, r)
    decreases |input| - pos, 0
  {
    hide Span, Leaves, Parens, KnownOp, Loop;
    e, q, open, x := AcceptBehind(input, pos, pos', e0, PushOperand(s, t).value, complex, r);
  }

  lemma {:induction false} AcceptImplied(input: seq<Lexeme>, pos: nat, s: Stacks, complex: bool, r: (Tree, nat))
    returns (e: Expr, q: nat, open: nat, x: Exit)
    requires pos < |input| && input[pos].token.Dot? && Known(s)
    requires AtImpliedMember(input, pos, s, complex) == Ok(r)
    ensures Span(input, pos, q, e, open, complex) && Leaves(input, q, open, x, Parens(s.ops), complex, r)
    decreases |input| - pos, 1
  {
    hide Leaves, Parens, KnownOp, Next;
    var name := Peek(input, pos + 1).token;
    e := Implied(input[pos].source, Peek(input, pos + 1).source, name.name);
    assert Span(input, pos, pos + 2, e, 0, complex);
    e, q, open, x := AcceptLeaf(input, pos, pos + 2, e, s,
      Node(ImpliedInfo(name.name, input[pos].source), Nil), complex, r);
  }

  lemma {:induction false} AcceptParen(input: seq<Lexeme>, pos: nat, s: Stacks, complex: bool, r: (Tree, nat))
    returns (e: Expr, q: nat, open: nat, x: Exit)
    requires pos < |input| && input[pos].token == Sign(PAREN_L) && Known(s)
    requires AtPrefix(input, pos, s, PAREN_L, complex) == Ok(r)
    ensures Span(input, pos, q, e, open, complex) && Leaves(input, q, open, x, Parens(s.ops), complex, r)
    decreases |input| - pos, 0
  {
    hide Span, Parens, KnownOp, Loop, PushOperator, Leaves;
    var op := Pending(Unary(PAREN_L), 0, input[pos].source);
    assert KnownOp(op) by { KnownUnary(op, PAREN_L); }
    PushParens(s, op);
    var inner;
    inner, q, open, x := AcceptOperand(input, pos + 1, PushOperator(s, op).value, complex, r);
    SpanWithin(input, pos + 1, q, inner, open, complex);
    LeavesInner(input, q, open, x, Parens(s.ops), complex, r);
    if x.Ended? {
      e := Paren(input[pos].source, inner, 0);
      SpanOpen(input, pos, q, e, open, complex);
      open := open + 1;
    } else {
      e := Paren(input[pos].source, inner, input[q].source);
      SpanClosed(input, pos, q, e, complex);
      e, q, open, x := AcceptBehind(input, pos, q + 1, e, x.s, complex, r);
    }
  }

  lemma KnownUnary(op: Pending, sign: nat)
    requires IsUnary(sign) && op.desc == Unary(sign)
    ensures KnownOp(op)
  {
  }

  lemma KnownBinary(op: Pending, sign: nat)
    requires IsBinary(sign) && op.desc == Binary(sign)
    ensures KnownOp(op)
  {
  }

  // Leaving what is inside a parenthesis.
  lemma LeavesInner(input: seq<Lexeme>, q: nat, open: nat, x: Exit, depth: nat, complex: bool, r: (Tree, nat))
    requires Leaves(input, q, open, x, depth + 1, complex, r)
    ensures x.Ended? ==> Leaves(input, q, open + 1, x, depth, complex, r)
    ensures x.Closing? ==>
      open == 0 && q < |input| && input[q].token.ParenR? && Known(x.s) && Parens(x.s.ops) == depth
      && Loop(input, q + 1, x.s, false, complex) == Ok(r)
  {
    hide Loop, Parens;
  }

  lemma SpanOpen(input: seq<Lexeme>, pos: nat, q: nat, e: Expr, open: nat, complex: bool)
    requires e.Paren? && At(input, pos, Sign(PAREN_L), e.source) && Span(input, pos + 1, q, e.inner, open, complex)
    ensures Span(input, pos, q, e, open + 1, complex)
  {
  }

  lemma SpanClosed(input: seq<Lexeme>, pos: nat, q: nat, e: Expr, complex: bool)
    requires e.Paren? && At(input, pos, Sign(PAREN_L), e.source) && Span(input, pos + 1, q, e.inner, 0, complex)
    requires At(input, q, ParenR, e.closeSource)
    ensures Span(input, pos, q + 1, e, 0, complex)
  {
  }

  lemma {:induction false} AcceptPrefix(input: seq<Lexeme>, pos: nat, s: Stacks, sign: nat, complex: bool,
                                        r: (Tree, nat))
    returns (e: Expr, q: nat, open: nat, x: Exit)
    requires pos < |input| && input[pos].token == Sign(sign) && IsUnary(sign) && sign != PAREN_L && Known(s)
    requires AtPrefix(input, pos, s, sign, complex) == Ok(r)
    ensures Span(input, pos, q, e, open, complex) && Leaves(input, q, open, x, Parens(s.ops), complex, r)
    decreases |input| - pos, 0
  {
    hide Span, Parens, KnownOp, Loop, PushOperator, Leaves, Unary;
    var isMut := Unary(sign).takesMut && Peek(input, pos + 1).token.Mut?;
    var op := Pending(Unary(sign), if isMut then IS_MUT else 0, input[pos].source);
    KnownUnary(op, sign);
    PrefixTag(sign);
    PushParens(s, op);
    var inner;
    var pos' := if isMut then pos + 2 else pos + 1;
    inner, q, open, x := AcceptOperand(input, pos', PushOperator(s, op).value, complex, r);
    e := Prefix(input[pos].source, sign, isMut, Peek(input, pos + 1).source, inner);
    SpanPrefix(input, pos, q, e, open, complex);
  }

  lemma PrefixTag(sign: nat)
    requires IsUnary(sign) && sign != PAREN_L
    ensures Unary(sign).tag != INVALID
  {
    UnaryTable(sign);
  }

  lemma SpanPrefix(input: seq<Lexeme>, pos: nat, q: nat, e: Expr, open: nat, complex: bool)
    requires e.Prefix? && IsUnary(e.sign) && e.sign != PAREN_L && (e.isMut ==> Unary(e.sign).takesMut)
    requires At(input, pos, Sign(e.sign), e.source) && (e.isMut ==> At(input, pos + 1, Mut, e.mutSource))
    requires Span(input, if e.isMut then pos + 2 else pos + 1, q, e.inner, open, complex)
    ensures Span(input, pos, q, e, open, complex)
  {
  }

  lemma {:induction false} AcceptArrayType(input: seq<Lexeme>, pos: nat, s: Stacks, complex: bool, r: (Tree, nat))
    returns (e: Expr, q: nat, open: nat, x: Exit)
    requires pos < |input| && input[pos].token.BracketL? && Known(s)
    requires AtArrayType(input, pos, s, complex) == Ok(r)
    ensures Span(input, pos, q, e, open, complex) && Leaves(input, q, open, x, Parens(s.ops), complex, r)
    decreases |input| - pos, 0
  {
    hide Span, Parens, KnownOp, Loop, PushOperator, Leaves, ParseExpr;
    var count, k := AcceptParse(input, pos + 1, false);
    var t, m := ParseExpr(input, pos + 1, false).value.0, ParseExpr(input, pos + 1, false).value.1;
    var op := Pending(ARRAY_TYPE, 0, input[pos].source);
    ArrayKnown(op);
    var s1 := PushOperand(s, t).value;
    PushParens(s1, op);
    var inner;
    inner, q, open, x := AcceptOperand(input, m + 1, PushOperator(s1, op).value, complex, r);
    e := ArrayType(input[pos].source, count, input[m].source, inner);
    SpanArrayType(input, pos, m, q, e, k, open, complex);
  }

  lemma ArrayKnown(op: Pending)
    requires op.desc == ARRAY_TYPE
    ensures KnownOp(op) && op.desc.tag != INVALID
  {
  }

  lemma SpanArrayType(input: seq<Lexeme>, pos: nat, m: nat, q: nat, e: Expr, k: nat, open: nat, complex: bool)
    requires e.ArrayType? && At(input, pos, BracketL, e.source) && Span(input, pos + 1, m, e.count, k, false)
    requires At(input, m, BracketR, e.closeSource) && Span(input, m + 1, q, e.inner, open, complex)
    ensures Span(input, pos, q, e, open, complex)
  {
    hide Proper;
    assert Enclosed(input, pos + 1, m, e.count);
    ProperArray(e, complex);
  }

  lemma ProperArray(e: Expr, complex: bool)
    requires e.ArrayType? && Proper(e.count, false) && Proper(e.inner, complex)
    ensures Proper(e, complex)
  {
  }

  // ---------- Behind an operand ----------

  /** Behind an expression: it goes on with an operator, or ends. */
  lemma {:induction false} AcceptBehind(input: seq<Lexeme>, a: nat, pos: nat, e0: Expr, s: Stacks, complex: bool,
                                        r: (Tree, nat))
    returns (e: Expr, q: nat, open: nat, x: Exit)
    requires a < pos <= |input| && Known(s) && Span(input, a, pos, e0, 0, complex)
    requires Loop(input, pos, s, false, complex) == Ok(r)
    ensures Span(input, a, q, e, open, complex) && Leaves(input, q, open, x, Parens(s.ops), complex, r)
    decreases |input| - pos, 4
  {
    hide Span, Parens, KnownOp, PopTo, PushOperator, PopRemaining, AtMember, AtIndex, AtCall, AtParenR, Next, Binary;
    var token := Peek(input, pos).token;
    if token == Sign(PAREN_L) || token.BracketL? || token.Dot? {
      PopToParens(s, 1, true);
      var s' := PopTo(s, 1, true).value;
      if token.Dot? {
        e, q, open, x := AcceptMember(input, a, pos, e0, s', complex, r);
      } else if token.BracketL? {
        e, q, open, x := AcceptIndex(input, a, pos, e0, s', complex, r);
      } else {
        e, q, open, x := AcceptCall(input, a, pos, e0, s', complex, r);
      }
    } else if token.ParenR? {
      q, x := AcceptParenR(input, pos, s, complex, r);
      e, open := e0, 0;
    } else if token.Sign? && IsBinary(token.ordinal) && (complex || token.ordinal != ASSIGN) {
      e, q, open, x := AcceptBinary(input, a, pos, e0, s, token.ordinal, complex, r);
    } else {
      e, q, open, x := e0, pos, 0, Ended;
    }
  }

  lemma {:induction false} AcceptMember(input: seq<Lexeme>, a: nat, pos: nat, e0: Expr, s: Stacks, complex: bool,
                                        r: (Tree, nat))
    returns (e: Expr, q: nat, open: nat, x: Exit)
    requires a < pos < |input| && Known(s) && Span(input, a, pos, e0, 0, complex) && s.operands != []
    requires input[pos].token.Dot? && AtMember(input, pos, s, complex) == Ok(r)
    ensures Span(input, a, q, e, open, complex) && Leaves(input, q, open, x, Parens(s.ops), complex, r)
    decreases |input| - pos, 0
  {
    hide Span, Parens, KnownOp, Loop, Leaves;
    var name := Peek(input, pos + 1).token.name;
    e := Member(input[pos].source, e0, input[pos + 1].source, name);
    SpanMember(input, a, pos, e, complex);
    var s' := Wrap(s, MemberInfo(name, input[pos].source), Nil).value;
    e, q, open, x := AcceptBehind(input, a, pos + 2, e, s', complex, r);
  }

  lemma SpanMember(input: seq<Lexeme>, a: nat, pos: nat, e: Expr, complex: bool)
    requires e.Member? && Span(input, a, pos, e.inner, 0, complex) && At(input, pos, Dot, e.source)
    requires At(input, pos + 1, Ident(e.name), e.nameSource)
    ensures Span(input, a, pos + 2, e, 0, complex)
  {
  }

  lemma {:induction false} AcceptIndex(input: seq<Lexeme>, a: nat, pos: nat, e0: Expr, s: Stacks, complex: bool,
                                       r: (Tree, nat))
    returns (e: Expr, q: nat, open: nat, x: Exit)
    requires a < pos < |input| && Known(s) && Span(input, a, pos, e0, 0, complex) && s.operands != []
    requires input[pos].token.BracketL? && AtIndex(input, pos, s, complex) == Ok(r)
    ensures Span(input, a, q, e, open, complex) && Leaves(input, q, open, x, Parens(s.ops), complex, r)
    decreases |input| - pos, 0
  {
    hide Span, Parens, KnownOp, Loop, Leaves, ParseExpr;
    var index, k := AcceptParse(input, pos + 1, false);
    var t, end := ParseExpr(input, pos + 1, false).value.0, ParseExpr(input, pos + 1, false).value.1;
    e := Index(input[pos].source, e0, index, input[end].source);
    SpanIndex(input, a, pos, end, e, k, complex);
    var s' := Wrap(s, IndexInfo(input[pos].source), One(t)).value;
    e, q, open, x := AcceptBehind(input, a, end + 1, e, s', complex, r);
  }

  lemma SpanIndex(input: seq<Lexeme>, a: nat, pos: nat, end: nat, e: Expr, k: nat, complex: bool)
    requires e.Index? && Span(input, a, pos, e.inner, 0, complex) && At(input, pos, BracketL, e.source)
    requires Span(input, pos + 1, end, e.index, k, false) && At(input, end, BracketR, e.closeSource)
    ensures Span(input, a, end + 1, e, 0, complex)
  {
    hide Proper;
    assert Enclosed(input, pos + 1, end, e.index);
    ProperIndex(e, complex);
  }

  lemma ProperIndex(e: Expr, complex: bool)
    requires e.Index? && Proper(e.inner, complex) && Proper(e.index, false)
    ensures Proper(e, complex)
  {
  }

  lemma {:induction false} AcceptCall(input: seq<Lexeme>, a: nat, pos: nat, e0: Expr, s: Stacks, complex: bool,
                                      r: (Tree, nat))
    returns (e: Expr, q: nat, open: nat, x: Exit)
    requires a < pos < |input| && Known(s) && Span(input, a, pos, e0, 0, complex) && s.operands != []
    requires input[pos].token == Sign(PAREN_L) && AtCall(input, pos, s, complex) == Ok(r)
    ensures Span(input, a, q, e, open, complex) && Leaves(input, q, open, x, Parens(s.ops), complex, r)
    decreases |input| - pos, 0
  {
    hide Span, Parens, KnownOp, Loop, Leaves, Arguments, ArgsWritten;
    var args := AcceptArguments(input, pos + 1);
    var f, end := Arguments(input, pos + 1).value.0, Arguments(input, pos + 1).value.1;
    e := Call(input[pos].source, e0, args);
    SpanCall(input, a, pos, end, e, complex);
    var s' := Wrap(s, CallInfo(input[pos].source), f).value;
    e, q, open, x := AcceptBehind(input, a, end + 1, e, s', complex, r);
  }

  lemma SpanCall(input: seq<Lexeme>, a: nat, pos: nat, end: nat, e: Expr, complex: bool)
    requires e.Call? && Span(input, a, pos, e.inner, 0, complex) && At(input, pos, Sign(PAREN_L), e.source)
    requires ArgsWritten(input, pos + 1, end + 1, e.args) && ArgsProper(e.args)
    ensures Span(input, a, end + 1, e, 0, complex)
  {
  }

  lemma {:induction false} AcceptBinary(input: seq<Lexeme>, a: nat, pos: nat, e0: Expr, s: Stacks, sign: nat,
                                        complex: bool, r: (Tree, nat))
    returns (e: Expr, q: nat, open: nat, x: Exit)
    requires a < pos < |input| && Known(s) && Span(input, a, pos, e0, 0, complex)
    requires input[pos].token == Sign(sign) && IsBinary(sign) && (complex || sign != ASSIGN)
    requires Next(input, pos + 1, PushOperator(s, Pending(Binary(sign), 0, input[pos].source)), Binary(sign).isBinary,
      complex) == Ok(r)
    ensures Span(input, a, q, e, open, complex) && Leaves(input, q, open, x, Parens(s.ops), complex, r)
    decreases |input| - pos, 0
  {
    hide Span, Parens, KnownOp, Loop, Leaves, PushOperator, Binary;
    var op := Pending(Binary(sign), 0, input[pos].source);
    KnownBinary(op, sign);
    InfixTag(sign);
    PushParens(s, op);
    var s1 := PushOperator(s, op).value;
    if Binary(sign).isBinary {
      var right;
      right, q, open, x := AcceptOperand(input, pos + 1, s1, complex, r);
      e := Infix(input[pos].source, sign, e0, right);
      SpanInfix(input, a, pos, q, e, open, complex);
    } else {
      e := Postfix(input[pos].source, sign, e0);
      SpanPostfix(input, a, pos, e, complex);
      e, q, open, x := AcceptBehind(input, a, pos + 1, e, s1, complex, r);
    }
  }

  lemma InfixTag(sign: nat)
    requires IsBinary(sign)
    ensures Binary(sign).tag != INVALID
  {
    BinaryTable(sign);
  }

  lemma SpanInfix(input: seq<Lexeme>, a: nat, pos: nat, q: nat, e: Expr, open: nat, complex: bool)
    requires e.Infix? && IsBinary(e.sign) && Binary(e.sign).isBinary && (complex || e.sign != ASSIGN)
    requires Span(input, a, pos, e.left, 0, complex) && At(input, pos, Sign(e.sign), e.source)
    requires Span(input, pos + 1, q, e.right, open, complex)
    ensures Span(input, a, q, e, open, complex)
  {
  }

  lemma SpanPostfix(input: seq<Lexeme>, a: nat, pos: nat, e: Expr, complex: bool)
    requires e.Postfix? && IsBinary(e.sign) && !Binary(e.sign).isBinary
    requires Span(input, a, pos, e.inner, 0, complex) && At(input, pos, Sign(e.sign), e.source)
    ensures Span(input, a, pos + 1, e, 0, complex)
  {
  }

  lemma AcceptParenR(input: seq<Lexeme>, pos: nat, s: Stacks, complex: bool, r: (Tree, nat))
    returns (q: nat, x: Exit)
    requires pos < |input| && Known(s) && input[pos].token.ParenR? && AtParenR(input, pos, s, complex) == Ok(r)
    ensures q == pos && Leaves(input, q, 0, x, Parens(s.ops), complex, r)
  {
    hide KnownOp, PopTo, Loop;
    q := pos;
    PopToParens(s, 10, false);
    PopToStops(s, 10, false);
    var s' := PopTo(s, 10, false).value;
    if s'.ops == [] {
      x := Ended;
    } else {
      ParenOnly(Top(s'.ops));
      x := Closing(Stacks(Front(s'.ops), s'.operands));
    }
  }

  lemma {:induction false} PopToStops(s: Stacks, precedence: nat, equal: bool)
    requires PopTo(s, precedence, equal).Ok?
    ensures var s' := PopTo(s, precedence, equal).value; s'.ops == [] || !Pops(precedence, equal, Top(s'.ops).desc)
    decreases |s.ops|
  {
    hide Pops, PopOperator;
    if s.ops != [] && Pops(precedence, equal, Top(s.ops).desc) { PopToStops(PopOperator(s).value, precedence, equal); }
  }

  // ---------- Whole expressions ----------

  /** What the parser accepts is an expression of the language, whatever its grouping, and it ends where
      no operator follows; parentheses may be open at its end. */
  lemma {:induction false} AcceptParse(input: seq<Lexeme>, pos: nat, complex: bool)
    returns (e: Expr, open: nat)
    requires pos <= |input| && ParseExpr(input, pos, complex).Ok?
    ensures var end := ParseExpr(input, pos, complex).value.1;
      && Span(input, pos, end, e, open, complex) && Ends(Peek(input, end).token, complex)
      && (open > 0 ==> !Peek(input, end).token.ParenR?)
    decreases |input| - pos, 4
  {
    hide Span, Loop;
    var r := ParseExpr(input, pos, complex).value;
    var q, x;
    e, q, open, x := AcceptOperand(input, pos, Stacks([], []), complex, r);
  }

  lemma {:induction false} AcceptArguments(input: seq<Lexeme>, pos: nat)
    returns (args: Exprs)
    requires pos <= |input| && Arguments(input, pos).Ok?
    ensures ArgsWritten(input, pos, Arguments(input, pos).value.1 + 1, args) && ArgsProper(args)
    decreases |input| - pos, 5
  {
    hide ParseExpr, Written, Proper, Ends;
    if Peek(input, pos).token.ParenR? {
      args := NoArgs(input[pos].source);
    } else {
      var arg, k := AcceptParse(input, pos, true);
      var m := ParseExpr(input, pos, true).value.1;
      assert Enclosed(input, pos, m, arg);
      if Peek(input, m).token.Comma? {
        var rest := AcceptArguments(input, m + 1);
        args := Arg(arg, input[m].source, rest);
      } else {
        args := Arg(arg, 0, NoArgs(input[m].source));
      }
    }
  }

  /** An input: a parenthesis that is never closed. */
  lemma UnclosedParen(x: nat)
    ensures ParseExpr([Lexeme(Sign(PAREN_L), 0), Lexeme(Ident(x), 1)], 0, true) == Ok((TreeOf(Name(1, x)), 2))
  {
    hide PopTo, Loop, Next;
    var input, none := [Lexeme(Sign(PAREN_L), 0), Lexeme(Ident(x), 1)], Stacks([], []);
    var s := Pushed(none, Pending(Unary(PAREN_L), 0, 0));
    PrefixStep(input, 0, none, none, PAREN_L, false, true);
    ConsumeName(input, 1, Name(1, x), s, true);
    var s1 := With(s, TreeOf(Name(1, x)));
    OneLeft(TreeOf(Name(1, x)));
    assert PopOperator(s1) == Ok(With(none, TreeOf(Name(1, x))));
    LoopStep(input, 2, s1, true);
    assert Peek(input, 2).token == Other;
    assert PopRemaining(s1) == Ok(TreeOf(Name(1, x)));
  }
}
