/** Writing expressions down with the parentheses they need, and what happens without them. */
module ExprPrinter {
  import opened Basics
  import opened Ast
  import opened Operators
  import opened ExprText
  import opened ExprRoundTrip

  function Text(e: Expr): (r: seq<Lexeme>)
    ensures |r| == Length(e)
  {
    match e
    case Name(source, name) => [Lexeme(Ident(name), source)]
    case Leaf(source, info) => [Lexeme(Literal(info), source)]
    case Implied(source, nameSource, name) => [Lexeme(Dot, source), Lexeme(Ident(name), nameSource)]
    case Paren(source, inner, closeSource) =>
      [Lexeme(Sign(PAREN_L), source)] + Text(inner) + [Lexeme(ParenR, closeSource)]
    case Prefix(source, sign, isMut, mutSource, inner) =>
      [Lexeme(Sign(sign), source)] + (if isMut then [Lexeme(Mut, mutSource)] else []) + Text(inner)
    case Postfix(source, sign, inner) => Text(inner) + [Lexeme(Sign(sign), source)]
    case Infix(source, sign, left, right) => Text(left) + [Lexeme(Sign(sign), source)] + Text(right)
    case Member(source, inner, nameSource, name) => Text(inner) + [Lexeme(Dot, source), Lexeme(Ident(name), nameSource)]
    case Call(source, inner, args) => Text(inner) + [Lexeme(Sign(PAREN_L), source)] + ArgsText(args)
    case Index(source, inner, index, closeSource) =>
      Text(inner) + [Lexeme(BracketL, source)] + Text(index) + [Lexeme(BracketR, closeSource)]
    case ArrayType(source, count, closeSource, inner) =>
      [Lexeme(BracketL, source)] + Text(count) + [Lexeme(BracketR, closeSource)] + Text(inner)
  }

  function ArgsText(args: Exprs): (r: seq<Lexeme>)
    ensures |r| == ArgsLength(args)
  {
    match args
    case NoArgs(closeSource) => [Lexeme(ParenR, closeSource)]
    case Arg(arg, _, NoArgs(closeSource)) => Text(arg) + [Lexeme(ParenR, closeSource)]
    case Arg(arg, commaSource, rest) => Text(arg) + [Lexeme(Comma, commaSource)] + ArgsText(rest)
  }

  predicate Holds(input: seq<Lexeme>, pos: nat, text: seq<Lexeme>) {
    pos + |text| <= |input| && input[pos..pos + |text|] == text
  }

  lemma HoldsParts(input: seq<Lexeme>, pos: nat, a: seq<Lexeme>, b: seq<Lexeme>)
    requires Holds(input, pos, a + b)
    ensures Holds(input, pos, a) && Holds(input, pos + |a|, b)
  {
    assert input[pos..pos + |a|] == (a + b)[..|a|];
    assert input[pos + |a|..pos + |a| + |b|] == (a + b)[|a|..];
  }

  lemma HoldsOne(input: seq<Lexeme>, pos: nat, token: Token, source: nat)
    requires Holds(input, pos, [Lexeme(token, source)])
    ensures At(input, pos, token, source)
  {
    assert input[pos] == input[pos..pos + 1][0];
  }

  lemma HoldsAround(input: seq<Lexeme>, pos: nat, a: seq<Lexeme>, token: Token, source: nat, b: seq<Lexeme>)
    requires Holds(input, pos, a + [Lexeme(token, source)] + b)
    ensures Holds(input, pos, a) && At(input, pos + |a|, token, source) && Holds(input, pos + |a| + 1, b)
  {
    hide Holds;
    HoldsParts(input, pos, a + [Lexeme(token, source)], b);
    HoldsParts(input, pos, a, [Lexeme(token, source)]);
    HoldsOne(input, pos + |a|, token, source);
  }

  /** An input that holds the text of an expression reads as that expression. */
  lemma {:induction false} TextReads(input: seq<Lexeme>, pos: nat, e: Expr)
    requires Holds(input, pos, Text(e))
    ensures Reads(input, pos, e)
    decreases e, 1
  {
    hide Holds, Text, Reads;
    match e
    case Name(_, _) => AtomReads(input, pos, e);
    case Leaf(_, _) => AtomReads(input, pos, e);
    case Implied(_, _, _) => AtomReads(input, pos, e);
    case Paren(_, _, _) => ParenReads(input, pos, e);
    case Prefix(_, _, _, _, _) => PrefixReads(input, pos, e);
    case Postfix(_, _, _) => InfixReads(input, pos, e);
    case Infix(_, _, _, _) => InfixReads(input, pos, e);
    case Member(_, _, _, _) => MemberReads(input, pos, e);
    case Call(_, _, _) => CallReads(input, pos, e);
    case Index(_, _, _, _) => IndexReads(input, pos, e);
    case ArrayType(_, _, _, _) => ArrayTypeReads(input, pos, e);
  }

  lemma AtomReads(input: seq<Lexeme>, pos: nat, e: Expr)
    requires Holds(input, pos, Text(e)) && (e.Name? || e.Leaf? || e.Implied?)
    ensures Reads(input, pos, e)
  {
    hide Holds;
    match e
    case Name(source, name) => HoldsOne(input, pos, Ident(name), source);
    case Leaf(source, info) => HoldsOne(input, pos, Literal(info), source);
    case Implied(source, nameSource, name) =>
      var ident := [Lexeme(Ident(name), nameSource)];
      assert Text(e) == [] + [Lexeme(Dot, source)] + ident;
      HoldsAround(input, pos, [], Dot, source, ident);
      HoldsOne(input, pos + 1, Ident(name), nameSource);
  }

  lemma {:induction false} ParenReads(input: seq<Lexeme>, pos: nat, e: Expr)
    requires Holds(input, pos, Text(e)) && e.Paren?
    ensures Reads(input, pos, e)
    decreases e, 0
  {
    hide Holds;
    var open := [Lexeme(Sign(PAREN_L), e.source)];
    assert Text(e) == open + Text(e.inner) + [Lexeme(ParenR, e.closeSource)] + [];
    HoldsAround(input, pos, open + Text(e.inner), ParenR, e.closeSource, []);
    HoldsParts(input, pos, open, Text(e.inner));
    HoldsOne(input, pos, Sign(PAREN_L), e.source);
    TextReads(input, pos + 1, e.inner);
  }

  lemma {:induction false} PrefixReads(input: seq<Lexeme>, pos: nat, e: Expr)
    requires Holds(input, pos, Text(e)) && e.Prefix?
    ensures Reads(input, pos, e)
    decreases e, 0
  {
    hide Holds;
    var sign, mut := [Lexeme(Sign(e.sign), e.source)], if e.isMut then [Lexeme(Mut, e.mutSource)] else [];
    HoldsParts(input, pos, sign + mut, Text(e.inner));
    HoldsParts(input, pos, sign, mut);
    HoldsOne(input, pos, Sign(e.sign), e.source);
    if e.isMut { HoldsOne(input, pos + 1, Mut, e.mutSource); }
    TextReads(input, pos + 1 + |mut|, e.inner);
  }

  lemma {:induction false} InfixReads(input: seq<Lexeme>, pos: nat, e: Expr)
    requires Holds(input, pos, Text(e)) && (e.Infix? || e.Postfix?)
    ensures Reads(input, pos, e)
    decreases e, 0
  {
    hide Holds;
    var left := if e.Infix? then e.left else e.inner;
    var right := if e.Infix? then Text(e.right) else [];
    assert Text(e) == Text(left) + [Lexeme(Sign(e.sign), e.source)] + right;
    HoldsAround(input, pos, Text(left), Sign(e.sign), e.source, right);
    TextReads(input, pos, left);
    if e.Infix? { TextReads(input, pos + Length(left) + 1, e.right); }
  }

  lemma {:induction false} MemberReads(input: seq<Lexeme>, pos: nat, e: Expr)
    requires Holds(input, pos, Text(e)) && e.Member?
    ensures Reads(input, pos, e)
    decreases e, 0
  {
    hide Holds;
    var ident := [Lexeme(Ident(e.name), e.nameSource)];
    assert Text(e) == Text(e.inner) + [Lexeme(Dot, e.source)] + ident;
    HoldsAround(input, pos, Text(e.inner), Dot, e.source, ident);
    TextReads(input, pos, e.inner);
    HoldsOne(input, pos + Length(e.inner) + 1, Ident(e.name), e.nameSource);
  }

  lemma {:induction false} CallReads(input: seq<Lexeme>, pos: nat, e: Expr)
    requires Holds(input, pos, Text(e)) && e.Call?
    ensures Reads(input, pos, e)
    decreases e, 0
  {
    hide Holds;
    HoldsAround(input, pos, Text(e.inner), Sign(PAREN_L), e.source, ArgsText(e.args));
    TextReads(input, pos, e.inner);
    ArgsTextReads(input, pos + Length(e.inner) + 1, e.args);
  }

  lemma {:induction false} IndexReads(input: seq<Lexeme>, pos: nat, e: Expr)
    requires Holds(input, pos, Text(e)) && e.Index?
    ensures Reads(input, pos, e)
    decreases e, 0
  {
    hide Holds;
    var front := Text(e.inner) + [Lexeme(BracketL, e.source)] + Text(e.index);
    assert Text(e) == front + [Lexeme(BracketR, e.closeSource)] + [];
    HoldsAround(input, pos, front, BracketR, e.closeSource, []);
    HoldsAround(input, pos, Text(e.inner), BracketL, e.source, Text(e.index));
    TextReads(input, pos, e.inner);
    TextReads(input, pos + Length(e.inner) + 1, e.index);
  }

  lemma {:induction false} ArrayTypeReads(input: seq<Lexeme>, pos: nat, e: Expr)
    requires Holds(input, pos, Text(e)) && e.ArrayType?
    ensures Reads(input, pos, e)
    decreases e, 0
  {
    hide Holds;
    var open := [Lexeme(BracketL, e.source)];
    HoldsAround(input, pos, open + Text(e.count), BracketR, e.closeSource, Text(e.inner));
    HoldsParts(input, pos, open, Text(e.count));
    HoldsOne(input, pos, BracketL, e.source);
    TextReads(input, pos + 1, e.count);
    TextReads(input, pos + 1 + Length(e.count) + 1, e.inner);
  }

  lemma {:induction false} ArgsTextReads(input: seq<Lexeme>, pos: nat, args: Exprs)
    requires Holds(input, pos, ArgsText(args))
    ensures ReadsArgs(input, pos, args)
    decreases args, 0
  {
    hide Holds, Reads, Text;
    match args
    case NoArgs(closeSource) => HoldsOne(input, pos, ParenR, closeSource);
    case Arg(arg, commaSource, rest) =>
      if rest.NoArgs? {
        assert ArgsText(args) == Text(arg) + [Lexeme(ParenR, rest.closeSource)] + [];
        HoldsAround(input, pos, Text(arg), ParenR, rest.closeSource, []);
      } else {
        HoldsAround(input, pos, Text(arg), Comma, commaSource, ArgsText(rest));
        ArgsTextReads(input, pos + Length(arg) + 1, rest);
      }
      TextReads(input, pos, arg);
  }

  // ---------- Adding parentheses ----------

  /** An operator tree: operators where operators belong, and no assignment where the parser
      does not look for one. Parentheses may be missing. */
  predicate Proper(e: Expr, complex: bool) {
    match e
    case Name(_, _) => true
    case Leaf(_, _) => true
    case Implied(_, _, _) => true
    case Paren(_, inner, _) => Proper(inner, complex)
    case Prefix(_, sign, isMut, _, inner) =>
      IsUnary(sign) && sign != PAREN_L && (isMut ==> Unary(sign).takesMut) && Proper(inner, complex)
    case Postfix(_, sign, inner) => IsBinary(sign) && !Binary(sign).isBinary && Proper(inner, complex)
    case Infix(_, sign, left, right) =>
      IsBinary(sign) && Binary(sign).isBinary && (complex || sign != ASSIGN) && Proper(left, complex)
          && Proper(right, complex)
    case Member(_, inner, _, _) => Proper(inner, complex)
    case Call(_, inner, args) => Proper(inner, complex) && ArgsProper(args)
    case Index(_, inner, index, _) => Proper(inner, complex) && Proper(index, false)
    case ArrayType(_, count, _, inner) => Proper(count, false) && Proper(inner, complex)
  }

  predicate ArgsProper(args: Exprs) {
    match args
    case NoArgs(_) => true
    case Arg(arg, _, rest) => Proper(arg, true) && ArgsProper(rest)
  }

  function ParenUnless(ok: bool, e: Expr): Expr {
    if ok then e else Paren(0, e, 0)
  }

  // Parentheses around the operands that need them, and around no others.
  function Parenthesize(e: Expr): Expr {
    match e
    case Paren(source, inner, closeSource) => Paren(source, Parenthesize(inner), closeSource)
    case Prefix(source, sign, isMut, mutSource, inner) =>
      var i := Parenthesize(inner);
      Prefix(source, sign, isMut, mutSource, ParenUnless(IsUnary(sign) && LeftOk(i, Unary(sign)), i))
    case Postfix(source, sign, inner) =>
      var i := Parenthesize(inner);
      Postfix(source, sign, ParenUnless(Closed(i), i))
    case Infix(source, sign, left, right) =>
      var l, r := Parenthesize(left), Parenthesize(right);
      Infix(source, sign,
        ParenUnless(IsBinary(sign) && RightOk(l, Binary(sign).precedence, Binary(sign).isRightToLeft), l),
        ParenUnless(IsBinary(sign) && LeftOk(r, Binary(sign)), r))
    case Member(source, inner, nameSource, name) =>
      var i := Parenthesize(inner);
      Member(source, ParenUnless(RightOk(i, 1, true), i), nameSource, name)
    case Call(source, inner, args) =>
      var i := Parenthesize(inner);
      Call(source, ParenUnless(RightOk(i, 1, true), i), ParenthesizeArgs(args))
    case Index(source, inner, index, closeSource) =>
      var i := Parenthesize(inner);
      Index(source, ParenUnless(RightOk(i, 1, true), i), Parenthesize(index), closeSource)
    case ArrayType(source, count, closeSource, inner) =>
      var i := Parenthesize(inner);
      ArrayType(source, Parenthesize(count), closeSource, ParenUnless(LeftOk(i, ARRAY_TYPE), i))
    case _ => e
  }

  function ParenthesizeArgs(args: Exprs): Exprs {
    match args
    case NoArgs(_) => args
    case Arg(arg, commaSource, rest) => Arg(Parenthesize(arg), commaSource, ParenthesizeArgs(rest))
  }

  /** Parenthesizing leaves the tree alone and makes the text well-formed. */
  lemma {:induction false} ParenthesizeProper(e: Expr, complex: bool)
    requires Proper(e, complex)
    ensures WellFormed(Parenthesize(e), complex) && TreeOf(Parenthesize(e)) == TreeOf(e)
    decreases e
  {
    hide LeftOk, RightOk, Unary, Binary;
    match e
    case Paren(_, inner, _) => ParenthesizeProper(inner, complex);
    case Prefix(_, _, _, _, inner) => ParenthesizeProper(inner, complex); ParenFits(Parenthesize(inner));
    case Postfix(_, _, inner) => ParenthesizeProper(inner, complex); ParenFits(Parenthesize(inner));
    case Infix(_, _, left, right) =>
      ParenthesizeProper(left, complex);
      ParenthesizeProper(right, complex);
      ParenFits(Parenthesize(left));
      ParenFits(Parenthesize(right));
    case Member(_, inner, _, _) => ParenthesizeProper(inner, complex); ParenFits(Parenthesize(inner));
    case Call(_, inner, args) =>
      ParenthesizeProper(inner, complex);
      ParenFits(Parenthesize(inner));
      ParenthesizeArgsProper(args);
    case Index(_, inner, index, _) =>
      ParenthesizeProper(inner, complex);
      ParenFits(Parenthesize(inner));
      ParenthesizeProper(index, false);
    case ArrayType(_, count, _, inner) =>
      ParenthesizeProper(count, false);
      ParenthesizeProper(inner, complex);
      ParenFits(Parenthesize(inner));
    case _ =>
  }

  lemma {:induction false} ParenthesizeArgsProper(args: Exprs)
    requires ArgsProper(args)
    ensures ArgsWellFormed(ParenthesizeArgs(args)) && ForestOf(ParenthesizeArgs(args)) == ForestOf(args)
    decreases args
  {
    match args
    case NoArgs(_) =>
    case Arg(arg, _, rest) => ParenthesizeProper(arg, true); ParenthesizeArgsProper(rest);
  }

  lemma ParenFits(e: Expr)
    ensures forall top :: LeftOk(Paren(0, e, 0), top)
    ensures forall p, q :: RightOk(Paren(0, e, 0), p, q)
  {
  }

  /** No parentheses are added where none are needed. */
  lemma {:induction false} ParenthesizeMinimal(e: Expr, complex: bool)
    requires WellFormed(e, complex)
    ensures Parenthesize(e) == e
    decreases e
  {
    hide LeftOk, RightOk, Unary, Binary;
    match e
    case Paren(_, inner, _) => ParenthesizeMinimal(inner, complex);
    case Prefix(_, _, _, _, inner) => ParenthesizeMinimal(inner, complex);
    case Postfix(_, _, inner) => ParenthesizeMinimal(inner, complex);
    case Infix(_, _, left, right) => ParenthesizeMinimal(left, complex); ParenthesizeMinimal(right, complex);
    case Member(_, inner, _, _) => ParenthesizeMinimal(inner, complex);
    case Call(_, inner, args) => ParenthesizeMinimal(inner, complex); ParenthesizeArgsMinimal(args);
    case Index(_, inner, index, _) => ParenthesizeMinimal(inner, complex); ParenthesizeMinimal(index, false);
    case ArrayType(_, count, _, inner) => ParenthesizeMinimal(count, false); ParenthesizeMinimal(inner, complex);
    case _ =>
  }

  lemma {:induction false} ParenthesizeArgsMinimal(args: Exprs)
    requires ArgsWellFormed(args)
    ensures ParenthesizeArgs(args) == args
    decreases args
  {
    match args
    case NoArgs(_) =>
    case Arg(arg, _, rest) => ParenthesizeMinimal(arg, true); ParenthesizeArgsMinimal(rest);
  }

  // ---------- Round trips ----------

  /** Writing any operator tree with the parentheses it needs and parsing it gives the tree back,
      exactly if it fits on the stacks. */
  lemma RoundTrip(e: Expr, complex: bool, rest: seq<Lexeme>)
    requires Proper(e, complex) && Ends(Peek(rest, 0).token, complex)
    ensures var text := Text(Parenthesize(e));
      if Small(Parenthesize(e)) then ParseExpr(text + rest, 0, complex) == Ok((TreeOf(e), |text|))
      else ParseExpr(text + rest, 0, complex).Err?
  {
    hide ParseExpr, Parenthesize, Text, Reads, WellFormed, TreeOf, Small, Proper, Ends;
    var p := Parenthesize(e);
    var input := Text(p) + rest;
    ParenthesizeProper(e, complex);
    assert Holds(input, 0, Text(p));
    TextReads(input, 0, p);
    assert Peek(input, Length(p)) == Peek(rest, 0);
    Whole(input, 0, p, complex);
  }

  /** Two well-formed readings of a text have the same tree. */
  lemma Unambiguous(a: Expr, b: Expr, complex: bool)
    requires WellFormed(a, complex) && WellFormed(b, complex) && Small(a) && Text(a) == Text(b)
    ensures TreeOf(a) == TreeOf(b)
  {
    hide ParseExpr, Text, Reads, WellFormed, TreeOf, Small;
    var input := Text(a);
    assert Holds(input, 0, Text(a)) && Holds(input, 0, Text(b));
    TextReads(input, 0, a);
    TextReads(input, 0, b);
    Whole(input, 0, a, complex);
    Whole(input, 0, b, complex);
  }

  const TIMES: nat := 13
  const EVAL: nat := 1

  // x = a * eval b, what it means, and the tree it is parsed to.
  function TightText(x: nat, a: nat, b: nat): seq<Lexeme> {
    [Lexeme(Ident(x), 0), Lexeme(Sign(ASSIGN), 1), Lexeme(Ident(a), 2), Lexeme(Sign(TIMES), 3), Lexeme(Sign(EVAL), 4),
        Lexeme(Ident(b), 5)]
  }

  function TightMeant(x: nat, a: nat, b: nat): Expr {
    Infix(1, ASSIGN, Name(0, x), Infix(3, TIMES, Name(2, a), Prefix(4, EVAL, false, 0, Name(5, b))))
  }

  function TightParsed(x: nat, a: nat, b: nat): Expr {
    Infix(1, ASSIGN, Infix(3, TIMES, Name(0, x), Name(2, a)), Prefix(4, EVAL, false, 0, Name(5, b)))
  }

  /** Why `eval`, `try` and `defer` need parentheses behind a tighter operator: `x = a * eval b`
      becomes the tree of `x * a = eval b`, without an error. */
  lemma TightEval(x: nat, a: nat, b: nat)
    ensures Text(TightMeant(x, a, b)) == TightText(x, a, b)
    ensures ParseExpr(TightText(x, a, b), 0, true) == Ok((TreeOf(TightParsed(x, a, b)), 6))
    ensures TreeOf(TightParsed(x, a, b)) != TreeOf(TightMeant(x, a, b))
  {
    hide Loop, PopTo, PopRemaining, After, Text, TreeOf, RightOk, LeftOk, Reads;
    var text, none := TightText(x, a, b), Stacks([], []);
    var parsed := TightParsed(x, a, b);
    TightForms(x, a, b);
    TightName(text, 0, x, none);
    OperatorStep(text, 1, With(none, NameTree(x, 0)), With(none, NameTree(x, 0)), ASSIGN, true);
    var s1 := Pushed(With(none, NameTree(x, 0)), BinaryOp(1, ASSIGN));
    TightName(text, 2, a, s1);
    OperatorStep(text, 3, With(s1, NameTree(a, 2)), With(s1, NameTree(a, 2)), TIMES, true);
    var s2 := Pushed(With(s1, NameTree(a, 2)), BinaryOp(3, TIMES));
    var product := With(Stacks([BinaryOp(1, ASSIGN)], []), TreeOf(parsed.left));
    PrefixStep(text, 4, s2, product, EVAL, false, true);
    var s3 := Pushed(product, PrefixOp(4, EVAL, false));
    TightName(text, 5, b, s3);
    Reduced(none, parsed, true, 10, false);
    ReduceAll(none, parsed, true);
    EndStep(text, 6, With(s3, NameTree(b, 5)), TreeOf(parsed), true);
  }

  function NameTree(name: nat, source: nat): Tree {
    TreeOf(Name(source, name))
  }

  lemma TightName(text: seq<Lexeme>, pos: nat, name: nat, s: Stacks)
    requires pos < |text| && text[pos] == Lexeme(Ident(name), pos) && |s.ops| < MAX_OPERATORS
    requires |s.operands| < MAX_OPERANDS
    ensures Loop(text, pos, s, true, true) == Loop(text, pos + 1, With(s, NameTree(name, pos)), false, true)
  {
    ConsumeName(text, pos, Name(pos, name), s, true);
  }

  // The stacks along the way: `eval` pops the multiplication before its right operand is there.
  lemma TightForms(x: nat, a: nat, b: nat)
    ensures Text(TightMeant(x, a, b)) == TightText(x, a, b)
    ensures var parsed, none := TightParsed(x, a, b), Stacks([], []);
      var s0 := With(none, NameTree(x, 0));
      var s1 := With(Pushed(s0, BinaryOp(1, ASSIGN)), NameTree(a, 2));
      var product := With(Stacks([BinaryOp(1, ASSIGN)], []), TreeOf(parsed.left));
      && WellFormed(parsed, true) && RightOk(parsed, 10, false) && TreeOf(parsed) != TreeOf(TightMeant(x, a, b))
      && PopTo(s0, 9, false) == Ok(s0) && PopTo(s1, 2, true) == Ok(s1)
      && PopTo(Pushed(s1, BinaryOp(3, TIMES)), 8, false) == Ok(product)
      && With(Pushed(product, PrefixOp(4, EVAL, false)), NameTree(b, 5)) == After(none, parsed, true)
  {
    TightText1(x, a, b);
    TightProduct(x, a);
    TightAfter(x, a, b);
  }

  lemma TightText1(x: nat, a: nat, b: nat)
    ensures Text(TightMeant(x, a, b)) == TightText(x, a, b)
  {
    var meant, text := TightMeant(x, a, b), TightText(x, a, b);
    assert Text(meant.right.right) == text[4..];
    assert Text(meant.right) == text[2..];
  }

  lemma TightProduct(x: nat, a: nat)
    ensures var s0 := With(Stacks([], []), NameTree(x, 0));
      var s1 := With(Pushed(s0, BinaryOp(1, ASSIGN)), NameTree(a, 2));
      PopTo(Pushed(s1, BinaryOp(3, TIMES)), 8, false)
      == Ok(With(Stacks([BinaryOp(1, ASSIGN)], []), TreeOf(Infix(3, TIMES, Name(0, x), Name(2, a)))))
  {
    var op := Pushed(Stacks([], []), BinaryOp(1, ASSIGN));
    var s0 := With(Stacks([], []), NameTree(x, 0));
    var s1 := With(Pushed(s0, BinaryOp(1, ASSIGN)), NameTree(a, 2));
    assert Pushed(s1, BinaryOp(3, TIMES)) == With(Pushed(With(op, NameTree(x, 0)), BinaryOp(3, TIMES)), NameTree(a, 2));
    PopBinary(op, BinaryOp(3, TIMES), NameTree(x, 0), NameTree(a, 2));
    PopToStep(With(op, NameTree(x, 0)), BinaryOp(3, TIMES), NameTree(a, 2),
      With(op, BinaryNode(BinaryOp(3, TIMES), NameTree(x, 0), NameTree(a, 2))), 8, false);
    assert op == Stacks([BinaryOp(1, ASSIGN)], []);
    Stopped(op, BinaryNode(BinaryOp(3, TIMES), NameTree(x, 0), NameTree(a, 2)), 8, false);
  }

  lemma TightAfter(x: nat, a: nat, b: nat)
    ensures var parsed := TightParsed(x, a, b);
      var product := With(Stacks([BinaryOp(1, ASSIGN)], []), TreeOf(parsed.left));
      WellFormed(parsed, true)
      && With(Pushed(product, PrefixOp(4, EVAL, false)), NameTree(b, 5)) == After(Stacks([], []), parsed, true)
  {
    var parsed := TightParsed(x, a, b);
    var none := Stacks([], []);
    var product := With(Stacks([BinaryOp(1, ASSIGN)], []), TreeOf(parsed.left));
    assert Pushed(With(none, TreeOf(parsed.left)), BinaryOp(1, ASSIGN)) == product;
    assert WellFormed(parsed.right.inner, true);
    assert LeftOk(parsed.right.inner, Unary(EVAL));
    assert WellFormed(parsed.right, true);
    assert WellFormed(parsed.left.left, true) && WellFormed(parsed.left.right, true);
    assert WellFormed(parsed.left, true);
    assert RightOk(parsed.left, 9, false) && LeftOk(parsed.right, Binary(ASSIGN));
    assert After(none, parsed, true) == After(product, parsed.right, true);
    assert After(product, parsed.right, true)
      == After(Pushed(product, PrefixOp(4, EVAL, false)), parsed.right.inner, true);
  }

  // ---------- Runs of postfix operators ----------

  // The first operator of the run becomes the outermost node...
  function Nest(run: seq<Pending>, t: Tree): Tree {
    if run == [] then t else UnaryNode(run[0], Nest(run[1..], t))
  }

  // ...where the last one should.
  function Chain(run: seq<Pending>, t: Tree): Tree {
    if run == [] then t else UnaryNode(Top(run), Chain(Front(run), t))
  }

  function Reversed(run: seq<Pending>): (r: seq<Pending>)
    ensures |r| == |run|
  {
    if run == [] then [] else Reversed(run[1..]) + [run[0]]
  }

  const ADDRESS_OF: nat := 21
  const DEREFERENCE: nat := 22

  predicate PostfixAt(input: seq<Lexeme>, pos: nat, sign: nat, op: Pending) {
    pos < |input| && (sign == ADDRESS_OF || sign == DEREFERENCE) && input[pos].token == Sign(sign)
        && op == BinaryOp(input[pos].source, sign)
  }

  // A run of postfix operators stands at `pos`.
  predicate RunAt(input: seq<Lexeme>, pos: nat, run: seq<Pending>) {
    pos + |run| <= |input|
    && forall k | 0 <= k < |run| :: PostfixAt(input, pos + k, ADDRESS_OF, run[k])
        || PostfixAt(input, pos + k, DEREFERENCE, run[k])
  }

  lemma {:induction false} NestLast(run: seq<Pending>, op: Pending, t: Tree)
    ensures Nest(run + [op], t) == Nest(run, UnaryNode(op, t))
  {
    if run != [] {
      assert (run + [op])[1..] == run[1..] + [op];
      NestLast(run[1..], op, t);
    } else {
      assert ([] + [op])[1..] == [];
    }
  }

  lemma {:induction false} ChainNests(run: seq<Pending>, t: Tree)
    ensures Chain(Reversed(run), t) == Nest(run, t)
  {
    if run != [] {
      var r := Reversed(run);
      assert Top(r) == run[0] && Front(r) == Reversed(run[1..]);
      ChainNests(run[1..], t);
    }
  }

  lemma {:induction false} ReversedTwice(run: seq<Pending>)
    ensures Reversed(Reversed(run)) == run
  {
    if run != [] {
      ReversedTwice(run[1..]);
      ReversedAppend(Reversed(run[1..]), run[0]);
      assert run == [run[0]] + run[1..];
    }
  }

  lemma {:induction false} ReversedAppend(run: seq<Pending>, op: Pending)
    ensures Reversed(run + [op]) == [op] + Reversed(run)
  {
    if run != [] {
      assert (run + [op])[1..] == run[1..] + [op];
      ReversedAppend(run[1..], op);
    } else {
      assert ([] + [op])[1..] == [];
    }
  }

  predicate PostfixOps(run: seq<Pending>) {
    forall k | 0 <= k < |run| :: run[k].flags == 0
        && (run[k].desc == Binary(ADDRESS_OF) || run[k].desc == Binary(DEREFERENCE))
  }

  lemma {:induction false} NestInjective(a: seq<Pending>, b: seq<Pending>, t: Tree)
    requires PostfixOps(a) && PostfixOps(b) && |a| == |b| && Nest(a, t) == Nest(b, t)
    ensures a == b
  {
    if a != [] {
      assert UnaryNode(a[0], Nest(a[1..], t)) == UnaryNode(b[0], Nest(b[1..], t));
      NestInjective(a[1..], b[1..], t);
      assert a[0] == b[0];
      assert a == [a[0]] + a[1..] && b == [b[0]] + b[1..];
    }
  }

  lemma ReversedOps(run: seq<Pending>)
    requires PostfixOps(run)
    ensures PostfixOps(Reversed(run))
    decreases |run|
  {
    if run != [] { ReversedOps(run[1..]); }
  }

  /** The tree of a run is the meant one exactly if the run reads the same backwards. */
  lemma RunMeaning(run: seq<Pending>, t: Tree)
    requires PostfixOps(run)
    ensures Nest(run, t) == Chain(run, t) <==> run == Reversed(run)
  {
    ReversedTwice(run);
    ChainNests(Reversed(run), t);
    ReversedOps(run);
    if Nest(run, t) == Chain(run, t) { NestInjective(run, Reversed(run), t); }
  }

  lemma {:induction false} PopRun(run: seq<Pending>, t: Tree)
    requires PostfixOps(run)
    ensures PopTo(Stacks(run, [t]), 10, false) == Ok(Stacks([], [Nest(run, t)]))
    ensures PopRemaining(Stacks(run, [t])) == Ok(Nest(run, t))
    decreases |run|
  {
    hide PopOperator, Binary;
    if run != [] {
      var op, front := Top(run), Front(run);
      assert run == front + [op];
      PostfixTable(op.desc);
      PopUnary(Stacks(front, []), op, t);
      assert With(Pushed(Stacks(front, []), op), t) == Stacks(run, [t]);
      assert With(Stacks(front, []), UnaryNode(op, t)) == Stacks(front, [UnaryNode(op, t)]);
      NestLast(front, op, t);
      PopRun(front, UnaryNode(op, t));
    }
  }

  lemma PostfixTable(d: OperatorDesc)
    requires d == Binary(ADDRESS_OF) || d == Binary(DEREFERENCE)
    ensures d.tag != INVALID && !d.isBinary && d.precedence == 1 && !d.isRightToLeft
  {
  }

  // Every operator of the run is pushed, none is popped.
  lemma {:induction false} PushRun(input: seq<Lexeme>, pos: nat, run: seq<Pending>, k: nat, t: Tree, complex: bool)
    requires RunAt(input, pos, run) && k <= |run| <= MAX_OPERATORS
    ensures Loop(input, pos, Stacks([], [t]), false, complex)
      == Loop(input, pos + k, Stacks(run[..k], [t]), false, complex)
    decreases k
  {
    hide Loop, PopTo, Binary;
    if k == 0 {
      assert run[..0] == [];
    } else {
      PushRun(input, pos, run, k - 1, t, complex);
      var at, s := pos + k - 1, Stacks(run[..k - 1], [t]);
      var sign := if PostfixAt(input, at, ADDRESS_OF, run[k - 1]) then ADDRESS_OF else DEREFERENCE;
      PostfixTable(Binary(sign));
      NothingPopped(input, pos, run, k - 1, t);
      OperatorStep(input, at, s, s, sign, complex);
      assert Pushed(s, run[k - 1]) == Stacks(run[..k], [t]);
    }
  }

  lemma NothingPopped(input: seq<Lexeme>, pos: nat, run: seq<Pending>, k: nat, t: Tree)
    requires RunAt(input, pos, run) && k <= |run|
    ensures PopTo(Stacks(run[..k], [t]), 1, false) == Ok(Stacks(run[..k], [t]))
  {
    hide Binary;
    if k > 0 {
      PostfixTable(Binary(if PostfixAt(input, pos + k - 1, ADDRESS_OF, run[k - 1]) then ADDRESS_OF else DEREFERENCE));
      assert Top(run[..k]) == run[k - 1];
    }
  }

  lemma RunOps(input: seq<Lexeme>, pos: nat, run: seq<Pending>)
    requires RunAt(input, pos, run)
    ensures PostfixOps(run) && pos + |run| <= |input|
  {
    hide Binary;
  }

  /** A run of `.&` and `.*` behind an operand comes out in reverse. */
  lemma PostfixRun(input: seq<Lexeme>, pos: nat, e: Expr, run: seq<Pending>, complex: bool)
    requires Reads(input, pos, e) && WellFormed(e, complex) && Closed(e) && Small(e) && |run| <= MAX_OPERATORS
    requires RunAt(input, pos + Length(e), run) && Ends(Peek(input, pos + Length(e) + |run|).token, complex)
    ensures pos <= |input| && ParseExpr(input, pos, complex) == Ok((Nest(run, TreeOf(e)), pos + Length(e) + |run|))
    ensures Nest(run, TreeOf(e)) == Chain(run, TreeOf(e)) <==> run == Reversed(run)
  {
    hide ParseExpr, Loop, Reads, WellFormed, TreeOf, Nest, Chain, RunAt, Small, PostfixOps, Reversed, Ends, Peek,
         Closed;
    ConsumeClosed(input, pos, e, complex);
    RunOps(input, pos + Length(e), run);
    RunStep(input, pos + Length(e), run, TreeOf(e), complex);
    RunMeaning(run, TreeOf(e));
  }

  lemma ConsumeClosed(input: seq<Lexeme>, pos: nat, e: Expr, complex: bool)
    requires Reads(input, pos, e) && WellFormed(e, complex) && Closed(e) && Small(e)
    ensures pos + Length(e) <= |input|
    ensures ParseExpr(input, pos, complex) == Loop(input, pos + Length(e), Stacks([], [TreeOf(e)]), false, complex)
  {
    hide Loop, Reads, WellFormed, TreeOf, OpsNeeded, OperandsNeeded, NestedRoom, After, Closed;
    ReadsInside(input, pos, e);
    Consume(input, pos, e, Stacks([], []), complex);
    ClosedAfter(Stacks([], []), e, complex);
    assert With(Stacks([], []), TreeOf(e)) == Stacks([], [TreeOf(e)]);
  }

  lemma RunStep(input: seq<Lexeme>, pos: nat, run: seq<Pending>, t: Tree, complex: bool)
    requires RunAt(input, pos, run) && |run| <= MAX_OPERATORS && pos + |run| <= |input|
    requires Ends(Peek(input, pos + |run|).token, complex)
    ensures Loop(input, pos, Stacks([], [t]), false, complex) == Ok((Nest(run, t), pos + |run|))
  {
    hide Loop, PopTo, PopRemaining, Nest, RunAt, PostfixOps, Ends;
    PushRun(input, pos, run, |run|, t, complex);
    assert run[..|run|] == run;
    RunOps(input, pos, run);
    PopRun(run, t);
    OneLeft(Nest(run, t));
    assert With(Stacks([], []), Nest(run, t)) == Stacks([], [Nest(run, t)]);
    EndStep(input, pos + |run|, Stacks(run, [t]), Nest(run, t), complex);
  }

  lemma ClosedAfter(s: Stacks, e: Expr, complex: bool)
    requires WellFormed(e, complex) && Closed(e)
    ensures After(s, e, complex) == With(s, TreeOf(e))
  {
  }
}
