/** A text parses as it is meant only if it is well-formed: a node that is made too early lacks
    something, and no node is changed afterwards. */
module ExprNecessity {
  import opened Basics
  import opened Ast
  import opened Operators
  import opened ExprText
  import opened ExprRoundTrip
  import opened ExprPrinter
  import opened ExprSources
  import opened ExprFuture
  import opened ExprAgreement
  import ExprLevels

  // The parser is in front of `e`, with `s` on its stacks.
  ghost predicate InFront(input: seq<Lexeme>, lo: nat, pos: nat, e: Expr, s: Stacks, complex: bool) {
    && CleanAt(input, lo, pos, s) && Bounded(s) && Reads(input, pos, e) && Proper(e, complex)
    && pos + Length(e) <= |input|
  }

  // The node of the operator in front of `e` has to contain all of `e`.
  ghost predicate Encloses(t: Tree, s: Stacks, e: Expr) {
    s.ops == [] || Top(s.ops).desc.tag == INVALID ||
    forall u | Has(t, u) && u.info.source == Top(s.ops).source :: Sources(TreeOf(e)) <= Sources(u)
  }

  // The result is as `e` and what is in front of it are meant.
  ghost predicate Meant(t: Tree, s: Stacks, e: Expr) {
    Agrees(t, e) && Encloses(t, s, e)
  }

  // ---------- Operators left on the stack ----------

  lemma KnownTable(op: Pending)
    requires KnownOp(op)
    ensures op.desc.precedence >= 1 && (op.desc.tag == INVALID ==> op.desc == Unary(PAREN_L))
  {
    if sign :| IsUnary(sign) && op.desc == Unary(sign) {
      if sign != PAREN_L { UnaryTable(sign); }
    } else if sign :| IsBinary(sign) && op.desc == Binary(sign) {
      BinaryTable(sign);
    }
  }

  predicate Outer(e: Expr) {
    e.Prefix? || e.Postfix? || e.Member? || e.Call? || e.Index? || e.ArrayType?
  }

  lemma KidsInside(e: Expr)
    ensures Outer(e) ==> Sources(TreeOf(e.inner)) <= Sources(TreeOf(e))
    ensures e.Infix? ==> Sources(TreeOf(e.left)) <= Sources(TreeOf(e)) && Sources(TreeOf(e.right)) <= Sources(TreeOf(e))
    ensures e.Infix? || Outer(e) ==> TreeOf(e).info.source == e.source && e.source in Sources(TreeOf(e))
  {
    if e.Infix? { OneForest(TreeOf(e.right)); }
    if e.ArrayType? { OneForest(TreeOf(e.inner)); }
  }

  // One more operator in front of those of the last operand.
  lemma LeavesOn(ops: seq<Pending>, op: Pending, r: seq<Pending>, inside: set<nat>, outside: set<nat>, precedence: nat,
                 equal: bool, ok: bool)
    requires ops + [op] <= r && inside <= outside && op.source in outside
    requires forall k | |ops| + 1 <= k < |r| :: r[k].source in inside
    requires ok <==> forall k | |ops| + 1 <= k < |r| :: Pops(precedence, equal, r[k].desc)
    ensures ops <= r && r != ops && forall k | |ops| <= k < |r| :: r[k].source in outside
    ensures Pops(precedence, equal, op.desc) && ok <==> forall k | |ops| <= k < |r| :: Pops(precedence, equal,
        r[k].desc)
  {
    hide Pops;
    assert r[|ops|] == (ops + [op])[|ops|];
    assert ops == (ops + [op])[..|ops|];
  }

  // The operators that `e` leaves on the stack, and what `RightOk` says about them.
  lemma {:induction false} Leaves(s: Stacks, e: Expr, complex: bool, precedence: nat, equal: bool)
    requires WellFormed(e, complex)
    ensures var r := After(s, e, complex).ops;
      && s.ops <= r && (Closed(e) <==> r == s.ops)
      && (forall k | |s.ops| <= k < |r| :: r[k].source in Sources(TreeOf(e)))
      && (RightOk(e, precedence, equal) <==> forall k | |s.ops| <= k < |r| :: Pops(precedence, equal, r[k].desc))
    decreases e
  {
    hide Pops, LeftOk, Sources, TreeOf;
    KidsInside(e);
    var r := After(s, e, complex).ops;
    match e
    case Prefix(source, sign, isMut, _, inner) =>
      var op := PrefixOp(source, sign, isMut);
      Leaves(Pushed(s, op), inner, complex, precedence, equal);
      LeavesOn(s.ops, op, r, Sources(TreeOf(inner)), Sources(TreeOf(e)), precedence, equal, RightOk(inner, precedence,
        equal));
    case ArrayType(source, count, _, inner) =>
      var op := ArrayOp(source);
      Leaves(Pushed(With(s, TreeOf(count)), op), inner, complex, precedence, equal);
      LeavesOn(s.ops, op, r, Sources(TreeOf(inner)), Sources(TreeOf(e)), precedence, equal, RightOk(inner, precedence,
        equal));
    case Infix(source, sign, left, right) =>
      var op := BinaryOp(source, sign);
      Leaves(Pushed(With(s, TreeOf(left)), op), right, complex, precedence, equal);
      LeavesOn(s.ops, op, r, Sources(TreeOf(right)), Sources(TreeOf(e)), precedence, equal, RightOk(right, precedence,
        equal));
    case Postfix(source, sign, inner) =>
      LeavesOn(s.ops, BinaryOp(source, sign), r, {}, Sources(TreeOf(e)), precedence, equal, true);
    case _ =>
  }

  // Popping stops at an operator that `e` left, unless it may pop all of them.
  lemma Stuck(a: set<nat>, s: Stacks, e: Expr, complex: bool, precedence: nat, equal: bool) returns (m: nat)
    requires WellFormed(e, complex) && Clean(a, After(s, e, complex)) && !RightOk(e, precedence, equal)
    requires PopTo(After(s, e, complex), precedence, equal).Ok?
    ensures var s1 := PopTo(After(s, e, complex), precedence, equal).value;
      |s.ops| <= m < |s1.ops| && s1.ops[m].source in Sources(TreeOf(e))
  {
    hide Pops, Clean, Moves, PopTo, WellFormed, RightOk, Sources, After, TreeOf;
    var r := After(s, e, complex);
    Leaves(s, e, complex, precedence, equal);
    PopToMoves(a, r, precedence, equal);
    var s1 := PopTo(r, precedence, equal).value;
    var k :| |s.ops| <= k < |r.ops| && !Pops(precedence, equal, r.ops[k].desc);
    assert k < |s1.ops|;
    m := k;
    assert s1.ops[m] == r.ops[m];
  }

  // The operator in front of `e` is not popped before all of `e` has been read.
  lemma TopStays(a: set<nat>, x: nat, s: Stacks, e: Expr, precedence: nat, equal: bool, t: Tree)
    requires Clean(a, s) && x in Sources(TreeOf(e)) && x !in a && Encloses(t, s, e)
    requires precedence < 10 && PopTo(s, precedence, equal).Ok? && Completes(PopTo(s, precedence, equal).value, t)
    ensures Stops(s, precedence, equal) && PopTo(s, precedence, equal) == Ok(s)
  {
    hide Has, Sources, KnownOp, Waiting, TreeOf;
    var s1 := PopTo(s, precedence, equal).value;
    if s.ops != [] {
      KnownTable(s.ops[|s.ops| - 1]);
      var k := |s.ops| - 1;
      if s.ops[k].desc.tag != INVALID && Pops(precedence, equal, s.ops[k].desc) {
        PopToMoves(a, s, precedence, equal);
        assert OpMoves(s, k, s1);
        Shorter(s, s1, precedence, equal);
        var u :| OnStack(s1, u) && Made(s, k, u);
        StackSources(a, s1, u);
        assert false;
      }
    }
  }

  lemma StackSources(a: set<nat>, s: Stacks, u: Tree)
    requires Clean(a, s) && OnStack(s, u)
    ensures Sources(u) <= a
  {
    hide Has, Sources, KnownOp, Waiting;
    var t :| t in s.operands && Has(t, u);
    HasSources(t, u);
  }

  lemma Shorter(s: Stacks, s1: Stacks, precedence: nat, equal: bool)
    requires s.ops != [] && Pops(precedence, equal, Top(s.ops).desc) && s1.ops <= s.ops
    requires s1.ops == [] || !Pops(precedence, equal, Top(s1.ops).desc)
    ensures |s1.ops| < |s.ops|
  {
  }

  // ---------- The stacks behind an expression ----------

  lemma WithAt(input: seq<Lexeme>, lo: nat, pos: nat, pos': nat, s: Stacks, t: Tree)
    requires CleanAt(input, lo, pos, s) && pos <= pos' <= |input| && Sources(t) <= Tokens(input, pos, pos')
    ensures CleanAt(input, lo, pos', With(s, t))
  {
    hide Clean, Moves, Sources;
    TokensApart(input, lo, pos, pos');
    OperandClean(Tokens(input, lo, pos), Tokens(input, pos, pos'), s, t);
    CleanMore(Tokens(input, lo, pos) + Tokens(input, pos, pos'), Tokens(input, lo, pos'), With(s, t));
  }

  lemma PushedOpAt(input: seq<Lexeme>, lo: nat, pos: nat, pos': nat, s: Stacks, op: Pending)
    requires CleanAt(input, lo, pos, s) && pos < pos' <= |input| && op.source == SourceOf(input[pos]) && KnownOp(op)
    ensures CleanAt(input, lo, pos', Pushed(s, op)) && Moves(s, Pushed(s, op))
  {
    hide Clean, Moves, Sources, KnownOp;
    NotYet(input, lo, pos, pos);
    OperatorClean(Tokens(input, lo, pos), s, op);
    CleanMore(Tokens(input, lo, pos) + {op.source}, Tokens(input, lo, pos'), Pushed(s, op));
  }

  lemma CountAt(input: seq<Lexeme>, lo: nat, pos: nat, end: nat, s: Stacks, count: Tree, op: Pending)
    requires CleanAt(input, lo, pos, s) && pos < end < |input| && Sources(count) <= Tokens(input, pos + 1, end)
    requires op.source == SourceOf(input[pos]) && KnownOp(op)
    ensures Clean(Tokens(input, lo, pos) + Tokens(input, pos + 1, end), With(s, count))
    ensures op.source !in Tokens(input, lo, pos) + Tokens(input, pos + 1, end)
    ensures CleanAt(input, lo, end + 1, Pushed(With(s, count), op))
  {
    hide Clean, Moves, Sources, KnownOp;
    var a, b := Tokens(input, lo, pos), Tokens(input, pos + 1, end);
    TokensApart(input, lo, pos, end);
    TokensMore(input, pos + 1, end, pos, end);
    OperandClean(a, b, s, count);
    NotYet(input, lo, pos, pos);
    assert op.source !in a + b;
    OperatorClean(a + b, With(s, count), op);
    CleanMore(a + b + {op.source}, Tokens(input, lo, end + 1), Pushed(With(s, count), op));
  }

  lemma PrefixKnown(source: nat, sign: nat, isMut: bool)
    requires IsUnary(sign)
    ensures KnownOp(PrefixOp(source, sign, isMut))
  {
  }

  lemma BinaryKnown(source: nat, sign: nat)
    requires IsBinary(sign)
    ensures KnownOp(BinaryOp(source, sign))
  {
  }

  lemma {:induction false} AfterClean(input: seq<Lexeme>, lo: nat, pos: nat, e: Expr, s: Stacks, complex: bool)
    requires CleanAt(input, lo, pos, s) && Reads(input, pos, e) && WellFormed(e, complex)
    ensures CleanAt(input, lo, pos + Length(e), After(s, e, complex))
    decreases e, 1
  {
    hide CleanAt, Distinct, TreeFrom, TreeOf, LeftOk, RightOk, Reads, WellFormed, Length;
    CleanDistinct(input, lo, pos, s);
    match e
    case Prefix(_, _, _, _, _) => AfterPrefix(input, lo, pos, e, s, complex);
    case ArrayType(_, _, _, _) => AfterArrayType(input, lo, pos, e, s, complex);
    case Infix(_, _, _, _) => AfterInfix(input, lo, pos, e, s, complex);
    case Postfix(_, _, _) => AfterPostfix(input, lo, pos, e, s, complex);
    case _ => AfterTree(input, lo, pos, pos + Length(e), e, s);
  }

  // A finished operand.
  lemma AfterTree(input: seq<Lexeme>, lo: nat, pos: nat, end: nat, e: Expr, s: Stacks)
    requires CleanAt(input, lo, pos, s) && Reads(input, pos, e) && end == pos + Length(e)
    ensures CleanAt(input, lo, end, With(s, TreeOf(e)))
  {
    hide Clean, TreeOf, Reads, Length, Sources, Apart;
    TreeFromText(input, pos, e);
    WithAt(input, lo, pos, end, s, TreeOf(e));
  }

  lemma {:induction false} AfterPrefix(input: seq<Lexeme>, lo: nat, pos: nat, e: Expr, s: Stacks, complex: bool)
    requires CleanAt(input, lo, pos, s) && Reads(input, pos, e) && WellFormed(e, complex) && e.Prefix?
    ensures CleanAt(input, lo, pos + Length(e), After(s, e, complex))
    decreases e, 0
  {
    hide CleanAt, LeftOk, KnownOp;
    var at, op := pos + (if e.isMut then 2 else 1), PrefixOp(e.source, e.sign, e.isMut);
    ReadsInside(input, at, e.inner);
    PrefixKnown(e.source, e.sign, e.isMut);
    PushedOpAt(input, lo, pos, at, s, op);
    AfterClean(input, lo, at, e.inner, Pushed(s, op), complex);
  }

  lemma {:induction false} AfterArrayType(input: seq<Lexeme>, lo: nat, pos: nat, e: Expr, s: Stacks, complex: bool)
    requires CleanAt(input, lo, pos, s) && Reads(input, pos, e) && WellFormed(e, complex) && e.ArrayType?
    ensures CleanAt(input, lo, pos + Length(e), After(s, e, complex))
    decreases e, 0
  {
    hide CleanAt, Distinct, LeftOk, Sources, Apart, Reads, WellFormed, After, TreeOf, Length;
    ArrayTypeShape(input, pos, e, s, complex);
    var at := pos + 1 + Length(e.count);
    CleanDistinct(input, lo, pos, s);
    TreeFromText(input, pos + 1, e.count);
    CountAt(input, lo, pos, at, s, TreeOf(e.count), ArrayOp(e.source));
    AfterClean(input, lo, at + 1, e.inner, Pushed(With(s, TreeOf(e.count)), ArrayOp(e.source)), complex);
  }

  lemma ArrayTypeShape(input: seq<Lexeme>, pos: nat, e: Expr, s: Stacks, complex: bool)
    requires Reads(input, pos, e) && WellFormed(e, complex) && e.ArrayType?
    ensures pos < |input| && SourceOf(input[pos]) == e.source && Reads(input, pos + 1, e.count)
    ensures WellFormed(e.inner, complex)
    ensures pos + 1 + Length(e.count) < |input| && Reads(input, pos + 1 + Length(e.count) + 1, e.inner)
    ensures Length(e) == 1 + Length(e.count) + 1 + Length(e.inner)
    ensures After(s, e, complex) == After(Pushed(With(s, TreeOf(e.count)), ArrayOp(e.source)), e.inner, complex)
  {
    hide LeftOk, TreeOf;
  }

  lemma {:induction false} AfterInfix(input: seq<Lexeme>, lo: nat, pos: nat, e: Expr, s: Stacks, complex: bool)
    requires CleanAt(input, lo, pos, s) && Reads(input, pos, e) && WellFormed(e, complex) && e.Infix?
    ensures CleanAt(input, lo, pos + Length(e), After(s, e, complex))
    decreases e, 0
  {
    hide CleanAt, LeftOk, RightOk, KnownOp, TreeOf, Reads, WellFormed, After, Length;
    InfixShape(input, pos, e, s, complex);
    var at, s1 := pos + Length(e.left), With(s, TreeOf(e.left));
    AfterTree(input, lo, pos, at, e.left, s);
    BinaryKnown(e.source, e.sign);
    PushedOpAt(input, lo, at, at + 1, s1, BinaryOp(e.source, e.sign));
    AfterClean(input, lo, at + 1, e.right, Pushed(s1, BinaryOp(e.source, e.sign)), complex);
  }

  lemma InfixShape(input: seq<Lexeme>, pos: nat, e: Expr, s: Stacks, complex: bool)
    requires Reads(input, pos, e) && WellFormed(e, complex) && e.Infix?
    ensures IsBinary(e.sign) && Reads(input, pos, e.left) && WellFormed(e.left, complex) && WellFormed(e.right, complex)
    ensures pos + Length(e.left) < |input| && SourceOf(input[pos + Length(e.left)]) == e.source
    ensures Reads(input, pos + Length(e.left) + 1, e.right) && Length(e) == Length(e.left) + 1 + Length(e.right)
    ensures After(s, e, complex) == After(Pushed(With(s, TreeOf(e.left)), BinaryOp(e.source, e.sign)), e.right, complex)
  {
    hide LeftOk, RightOk, TreeOf, Binary;
  }

  lemma AfterPostfix(input: seq<Lexeme>, lo: nat, pos: nat, e: Expr, s: Stacks, complex: bool)
    requires CleanAt(input, lo, pos, s) && Reads(input, pos, e) && WellFormed(e, complex) && e.Postfix?
    ensures CleanAt(input, lo, pos + Length(e), After(s, e, complex))
  {
    hide CleanAt, KnownOp, TreeOf;
    var at, s1 := pos + Length(e.inner), With(s, TreeOf(e.inner));
    AfterTree(input, lo, pos, at, e.inner, s);
    BinaryKnown(e.source, e.sign);
    PushedOpAt(input, lo, at, at + 1, s1, BinaryOp(e.source, e.sign));
  }

  // What has been shown about an expression lets the parser arrive behind it.
  lemma Arrives(input: seq<Lexeme>, lo: nat, pos: nat, e: Expr, s: Stacks, complex: bool, r: (Tree, nat))
    requires InFront(input, lo, pos, e, s, complex) && WellFormed(e, complex) && Fresh(s, e)
    requires Loop(input, pos, s, true, complex) == Ok(r)
    ensures Room(s, e) && Loop(input, pos + Length(e), After(s, e, complex), false, complex) == Ok(r)
    ensures CleanAt(input, lo, pos + Length(e), After(s, e, complex))
  {
    hide Reads, WellFormed, Fresh, Loop, After, CleanAt, Proper, Room;
    Consume(input, pos, e, s, complex);
    AfterClean(input, lo, pos, e, s, complex);
  }

  // ---------- One step of a run that ends well ----------

  // A prefix operator or an opening parenthesis.
  lemma PrefixGoesOn(input: seq<Lexeme>, lo: nat, pos: nat, s: Stacks, sign: nat, isMut: bool, complex: bool, r: (Tree,
                     nat))
    returns (s1: Stacks)
    requires CleanAt(input, lo, pos, s) && pos < |input| && input[pos].token == Sign(sign) && IsUnary(sign)
    requires isMut == (Unary(sign).takesMut && Peek(input, pos + 1).token.Mut?)
    requires Loop(input, pos, s, true, complex) == Ok(r)
    ensures if sign == PAREN_L then s1 == s else PopTo(s, Unary(sign).precedence, Unary(sign).isRightToLeft) == Ok(s1)
    ensures |s1.ops| != MAX_OPERATORS && pos + (if isMut then 2 else 1) <= |input|
    ensures Loop(input, pos + (if isMut then 2 else 1), Pushed(s1, PrefixOp(input[pos].source, sign, isMut)), true,
        complex) == Ok(r)
    ensures CleanAt(input, lo, pos + (if isMut then 2 else 1), Pushed(s1, PrefixOp(input[pos].source, sign, isMut)))
    ensures Completes(s1, r.0)
  {
    hide Loop, CleanAt, Completes, Unary, PopTo, Moves, Next;
    var op := PrefixOp(input[pos].source, sign, isMut);
    s1 := s;
    PushedOk(input, pos, s, sign, isMut, complex, r);
    if sign != PAREN_L { s1 := PopTo(s, Unary(sign).precedence, Unary(sign).isRightToLeft).value; }
    PrefixStep(input, pos, s, s1, sign, isMut, complex);
    PoppedClean(input, lo, pos, s, s1, Unary(sign).precedence, Unary(sign).isRightToLeft);
    PrefixKnown(input[pos].source, sign, isMut);
    Behind(input, lo, pos, pos + (if isMut then 2 else 1), s1, op, true, complex, r);
  }

  lemma PushedOk(input: seq<Lexeme>, pos: nat, s: Stacks, sign: nat, isMut: bool, complex: bool, r: (Tree, nat))
    requires pos < |input| && input[pos].token == Sign(sign) && IsUnary(sign)
    requires isMut == (Unary(sign).takesMut && Peek(input, pos + 1).token.Mut?)
    requires Loop(input, pos, s, true, complex) == Ok(r)
    ensures sign != PAREN_L ==> PopTo(s, Unary(sign).precedence, Unary(sign).isRightToLeft).Ok?
  {
    hide Loop, PopTo, Unary;
    LoopStep(input, pos, s, complex);
    if sign != PAREN_L { UnaryTable(sign); }
    NextStep(input, pos + (if isMut then 2 else 1), PushOperator(s, PrefixOp(input[pos].source, sign, isMut)), true,
      complex);
  }

  lemma PoppedClean(input: seq<Lexeme>, lo: nat, pos: nat, s: Stacks, s1: Stacks, precedence: nat, equal: bool)
    requires CleanAt(input, lo, pos, s) && (s1 == s || PopTo(s, precedence, equal) == Ok(s1))
    ensures CleanAt(input, lo, pos, s1) && Moves(s, s1)
  {
    hide Clean, Moves, PopTo, Tokens, Distinct;
    if s1 == s { MovesSelf(s); } else { PopToMoves(Tokens(input, lo, pos), s, precedence, equal); }
  }

  // Behind an operator that was pushed.
  lemma Behind(input: seq<Lexeme>, lo: nat, pos: nat, pos': nat, s1: Stacks, op: Pending, expecting: bool,
               complex: bool, r: (Tree, nat))
    requires CleanAt(input, lo, pos, s1) && pos < pos' <= |input| && op.source == SourceOf(input[pos]) && KnownOp(op)
    requires Loop(input, pos', Pushed(s1, op), expecting, complex) == Ok(r)
    ensures CleanAt(input, lo, pos', Pushed(s1, op)) && Completes(Pushed(s1, op), r.0) && Completes(s1, r.0)
  {
    hide Loop, CleanAt, Completes, Moves, KnownOp, Sources, Tokens;
    PushedOpAt(input, lo, pos, pos', s1, op);
    FutureLoop(input, lo, pos', Pushed(s1, op), expecting, complex);
    CompletesBefore(s1, Pushed(s1, op), r.0);
  }

  // A binary or postfix operator.
  lemma OperatorGoesOn(input: seq<Lexeme>, lo: nat, pos: nat, s: Stacks, sign: nat, complex: bool, r: (Tree, nat))
    returns (s1: Stacks)
    requires CleanAt(input, lo, pos, s) && pos < |input| && input[pos].token == Sign(sign) && IsBinary(sign)
    requires (complex || sign != ASSIGN) && Loop(input, pos, s, false, complex) == Ok(r)
    ensures PopTo(s, Binary(sign).precedence, Binary(sign).isRightToLeft) == Ok(s1) && |s1.ops| != MAX_OPERATORS
    ensures Loop(input, pos + 1, Pushed(s1, BinaryOp(input[pos].source, sign)), Binary(sign).isBinary, complex) == Ok(r)
    ensures CleanAt(input, lo, pos + 1, Pushed(s1, BinaryOp(input[pos].source, sign)))
    ensures Completes(s1, r.0) && Completes(Pushed(s1, BinaryOp(input[pos].source, sign)), r.0)
  {
    hide Loop, CleanAt, Completes, Binary, PopTo, Moves;
    OperatorOk(input, pos, s, sign, complex, r);
    s1 := PopTo(s, Binary(sign).precedence, Binary(sign).isRightToLeft).value;
    OperatorStep(input, pos, s, s1, sign, complex);
    PoppedClean(input, lo, pos, s, s1, Binary(sign).precedence, Binary(sign).isRightToLeft);
    BinaryKnown(input[pos].source, sign);
    Behind(input, lo, pos, pos + 1, s1, BinaryOp(input[pos].source, sign), Binary(sign).isBinary, complex, r);
  }

  lemma OperatorOk(input: seq<Lexeme>, pos: nat, s: Stacks, sign: nat, complex: bool, r: (Tree, nat))
    requires pos < |input| && input[pos].token == Sign(sign) && IsBinary(sign)
    requires (complex || sign != ASSIGN) && Loop(input, pos, s, false, complex) == Ok(r)
    ensures PopTo(s, Binary(sign).precedence, Binary(sign).isRightToLeft).Ok?
  {
    hide Loop, PopTo, Binary;
    LoopStep(input, pos, s, complex);
    BinaryTable(sign);
    NextStep(input, pos + 1, PushOperator(s, BinaryOp(input[pos].source, sign)), Binary(sign).isBinary, complex);
  }

  // ---------- Well-formedness is needed ----------

  // The node of an operator is made before those of the operators below it.
  lemma NodeLacks(s: Stacks, op: Pending, t: Tree, e: Expr, m: nat)
    requires Completes(Pushed(s, op), t) && RootAgrees(t, e) && op.source == TreeOf(e).info.source
    requires op.desc.tag != INVALID
    requires m < |s.ops|
    ensures s.ops[m].source !in Sources(TreeOf(e))
  {
    hide Has, Sources, TreeOf;
    var p := Pushed(s, op);
    assert OpCompletes(p, |s.ops|, t);
    var u :| Has(t, u) && Made(p, |s.ops|, u);
    assert p.ops[m] == s.ops[m];
  }

  lemma {:induction false} Necessary(input: seq<Lexeme>, lo: nat, pos: nat, e: Expr, s: Stacks, complex: bool,
                                     r: (Tree, nat))
    requires InFront(input, lo, pos, e, s, complex) && Meant(r.0, s, e) && Loop(input, pos, s, true, complex) == Ok(r)
    ensures WellFormed(e, complex) && Fresh(s, e)
    decreases e, 2
  {
    hide InFront, Meant, Loop;
    match e
    case Paren(_, _, _) => NecessaryParen(input, lo, pos, e, s, complex, r);
    case Prefix(_, _, _, _, _) => NecessaryPrefix(input, lo, pos, e, s, complex, r);
    case Postfix(_, _, _) => NecessaryPostfix(input, lo, pos, e, s, complex, r);
    case Infix(_, _, _, _) => NecessaryInfix(input, lo, pos, e, s, complex, r);
    case Member(_, _, _, _) => NecessarySuffix(input, lo, pos, e, s, complex, r);
    case Call(_, _, _) => NecessarySuffix(input, lo, pos, e, s, complex, r);
    case Index(_, _, _, _) => NecessarySuffix(input, lo, pos, e, s, complex, r);
    case ArrayType(_, _, _, _) => NecessaryArrayType(input, lo, pos, e, s, complex, r);
    case _ =>
  }

  // An expression with stacks of its own.
  lemma {:induction false} Nested(input: seq<Lexeme>, pos: nat, e: Expr, complex: bool, t: Tree, r: (Tree, nat))
    requires Reads(input, pos, e) && Proper(e, complex) && Distinct(input) && Agrees(t, e) && Has(t, r.0)
    requires pos <= |input| && ParseExpr(input, pos, complex) == Ok(r)
    ensures WellFormed(e, complex)
    decreases e, 3
  {
    hide Loop, Has, Agrees, Reads, Proper;
    AgreesInside(t, r.0, e);
    ReadsInside(input, pos, e);
    Necessary(input, pos, pos, e, Stacks([], []), complex, r);
  }

  // ---------- Prefix operators and parentheses ----------

  lemma PrefixGiven(input: seq<Lexeme>, lo: nat, pos: nat, e: Expr, s: Stacks, complex: bool, t: Tree)
    requires e.Prefix? && InFront(input, lo, pos, e, s, complex) && Meant(t, s, e)
    ensures IsUnary(e.sign) && e.sign != PAREN_L && Unary(e.sign).tag != INVALID && Unary(e.sign).precedence < 10
    ensures pos < |input| && input[pos] == Lexeme(Sign(e.sign), e.source) && SourceOf(input[pos]) == e.source
    ensures e.isMut == (Unary(e.sign).takesMut && Peek(input, pos + 1).token.Mut?)
    ensures Agrees(t, e.inner) && RootAgrees(t, e) && (e.isMut ==> Unary(e.sign).takesMut)
    ensures var at := pos + (if e.isMut then 2 else 1);
      Reads(input, at, e.inner) && Proper(e.inner, complex) && at + Length(e.inner) <= |input|
  {
    hide CleanAt, Encloses, RootAgrees, Unary;
    UnaryTable(e.sign);
    FirstToken(input, pos + (if e.isMut then 2 else 1), e.inner);
  }

  lemma {:induction false} NecessaryPrefix(input: seq<Lexeme>, lo: nat, pos: nat, e: Expr, s: Stacks, complex: bool,
                                           r: (Tree, nat))
    requires e.Prefix?
    requires InFront(input, lo, pos, e, s, complex) && Meant(r.0, s, e) && Loop(input, pos, s, true, complex) == Ok(r)
    ensures WellFormed(e, complex) && Fresh(s, e)
    decreases e, 0
  {
    hide Loop, Clean, Completes, Encloses, Has, Sources, TreeOf, WellFormed, LeftOk, PopTo, Unary, Reads, Proper, Pops,
         RootAgrees;
    PrefixGiven(input, lo, pos, e, s, complex, r.0);
    var inner, op, at := e.inner, PrefixOp(e.source, e.sign, e.isMut), pos + if e.isMut then 2 else 1;
    KidsInside(e);
    var s1 := PrefixGoesOn(input, lo, pos, s, e.sign, e.isMut, complex, r);
    NotYet(input, lo, pos, pos);
    TopStays(Tokens(input, lo, pos), e.source, s, e, Unary(e.sign).precedence, Unary(e.sign).isRightToLeft, r.0);
    EnclosedBy(r.0, s1, op, e, inner);
    Necessary(input, lo, at, inner, Pushed(s1, op), complex, r);
    PrefixDone(s, e, complex, op);
  }

  lemma PrefixDone(s: Stacks, e: Expr, complex: bool, op: Pending)
    requires e.Prefix? && IsUnary(e.sign) && e.sign != PAREN_L && (e.isMut ==> Unary(e.sign).takesMut)
    requires WellFormed(e.inner, complex) && Stops(s, Unary(e.sign).precedence, Unary(e.sign).isRightToLeft)
    requires op.desc == Unary(e.sign) && Fresh(Pushed(s, op), e.inner)
    ensures WellFormed(e, complex) && Fresh(s, e)
  {
    hide Pops, Unary;
  }

  lemma {:induction false} NecessaryParen(input: seq<Lexeme>, lo: nat, pos: nat, e: Expr, s: Stacks, complex: bool,
                                          r: (Tree, nat))
    requires e.Paren?
    requires InFront(input, lo, pos, e, s, complex) && Meant(r.0, s, e) && Loop(input, pos, s, true, complex) == Ok(r)
    ensures WellFormed(e, complex) && Fresh(s, e)
    decreases e, 0
  {
    hide Loop, CleanAt, Completes, Has, TreeOf, RootAgrees, PopTo;
    var op := PrefixOp(e.source, PAREN_L, false);
    var s1 := PrefixGoesOn(input, lo, pos, s, PAREN_L, false, complex, r);
    Necessary(input, lo, pos + 1, e.inner, Pushed(s1, op), complex, r);
  }

  // ---------- Postfix operators ----------

  lemma PostfixGiven(input: seq<Lexeme>, lo: nat, pos: nat, e: Expr, s: Stacks, complex: bool, t: Tree)
    requires e.Postfix? && InFront(input, lo, pos, e, s, complex) && Meant(t, s, e)
    ensures InFront(input, lo, pos, e.inner, s, complex) && Agrees(t, e.inner) && RootAgrees(t, e)
    ensures IsBinary(e.sign) && !Binary(e.sign).isBinary && e.sign != ASSIGN && Binary(e.sign).tag != INVALID
    ensures Binary(e.sign).precedence == 1 && !Binary(e.sign).isRightToLeft
    ensures var at := pos + Length(e.inner); at < |input| && input[at] == Lexeme(Sign(e.sign), e.source)
  {
    hide CleanAt, Encloses, RootAgrees;
    BinaryTable(e.sign);
  }

  // No operator binds tighter than the postfix ones.
  lemma NonePopped(input: seq<Lexeme>, lo: nat, pos: nat, s: Stacks)
    requires CleanAt(input, lo, pos, s)
    ensures PopTo(s, 1, false) == Ok(s) && (s.ops != [] ==> !Pops(1, false, Top(s.ops).desc))
  {
    hide KnownOp, Waiting, SourcesWithin;
    if s.ops != [] { KnownTable(s.ops[|s.ops| - 1]); }
  }

  lemma {:induction false} NecessaryPostfix(input: seq<Lexeme>, lo: nat, pos: nat, e: Expr, s: Stacks, complex: bool,
                                            r: (Tree, nat))
    requires e.Postfix?
    requires InFront(input, lo, pos, e, s, complex) && Meant(r.0, s, e) && Loop(input, pos, s, true, complex) == Ok(r)
    ensures WellFormed(e, complex) && Fresh(s, e)
    decreases e, 0
  {
    hide Loop, CleanAt, Completes, Encloses, Has, Sources, TreeOf, After, WellFormed, LeftOk, PopTo, Binary, Reads,
         Proper, Pops, RootAgrees,
         Room, Closed;
    var inner, at := e.inner, pos + Length(e.inner);
    KidsInside(e);
    PostfixGiven(input, lo, pos, e, s, complex, r.0);
    EnclosedLeft(r.0, s, e, inner);
    Necessary(input, lo, pos, inner, s, complex, r);
    Arrives(input, lo, pos, inner, s, complex, r);
    var s0 := After(s, inner, complex);
    var s1 := OperatorGoesOn(input, lo, at, s0, e.sign, complex, r);
    NonePopped(input, lo, at, s0);
    NonePopped(input, lo, pos, s);
    if !Closed(inner) {
      Leaves(s, inner, complex, 1, false);
      NodeLacks(s1, BinaryOp(e.source, e.sign), r.0, e, |s.ops|);
      assert false;
    }
    PostfixDone(s, e, complex);
  }

  lemma PostfixDone(s: Stacks, e: Expr, complex: bool)
    requires e.Postfix? && IsBinary(e.sign) && !Binary(e.sign).isBinary && WellFormed(e.inner, complex)
    requires Fresh(s, e.inner)
    requires Binary(e.sign).precedence == 1 && !Binary(e.sign).isRightToLeft && Closed(e.inner)
    requires s.ops != [] ==> !Pops(1, false, Top(s.ops).desc)
    ensures WellFormed(e, complex) && Fresh(s, e)
  {
    hide Pops, Binary;
  }

  // ---------- Member access, calls and indices ----------

  predicate IsSuffix(e: Expr) {
    e.Member? || e.Call? || e.Index?
  }

  predicate SuffixToken(token: Token) {
    token.Dot? || token.BracketL? || token == Sign(PAREN_L)
  }

  lemma SuffixGiven(input: seq<Lexeme>, lo: nat, pos: nat, e: Expr, s: Stacks, complex: bool, t: Tree)
    requires IsSuffix(e) && InFront(input, lo, pos, e, s, complex) && Meant(t, s, e)
    ensures InFront(input, lo, pos, e.inner, s, complex) && Agrees(t, e.inner) && RootAgrees(t, e) && Distinct(input)
    ensures var at := pos + Length(e.inner);
      at < |input| && input[at].source == e.source && SourceOf(input[at]) == e.source && SuffixToken(input[at].token)
  {
    hide Clean, Encloses, RootAgrees;
  }

  lemma SuffixGoesOn(input: seq<Lexeme>, lo: nat, pos: nat, s: Stacks, complex: bool, r: (Tree, nat))
    returns (s1: Stacks)
    requires CleanAt(input, lo, pos, s) && pos < |input| && SuffixToken(input[pos].token)
    requires Loop(input, pos, s, false, complex) == Ok(r)
    ensures PopTo(s, 1, true) == Ok(s1) && s1.operands != [] && CleanAt(input, lo, pos, s1)
    ensures input[pos].token.Dot? ==> AtMember(input, pos, s1, complex) == Ok(r)
    ensures input[pos].token.BracketL? ==> AtIndex(input, pos, s1, complex) == Ok(r)
    ensures input[pos].token == Sign(PAREN_L) ==> AtCall(input, pos, s1, complex) == Ok(r)
  {
    hide Loop, CleanAt, PopTo, AtMember, AtIndex, AtCall, AtParenR, Next, PopRemaining, PushOperator, Moves;
    LoopStep(input, pos, s, complex);
    s1 := PopTo(s, 1, true).value;
    PoppedClean(input, lo, pos, s, s1, 1, true);
  }

  // The node of a postfix construct is made at once.
  ghost predicate NodeMade(s1: Stacks, t: Tree, node: Tree) {
    Has(t, node) && Completes(s1, t) && forall m | 0 <= m < |s1.ops| :: s1.ops[m].source !in Sources(node)
  }

  lemma NodeIsMade(input: seq<Lexeme>, lo: nat, pos: nat, pos': nat, s1: Stacks, info: Info, more: Forest,
                   complex: bool, r: (Tree, nat))
    requires CleanAt(input, lo, pos, s1) && s1.operands != [] && pos < pos' <= |input|
    requires info.source == SourceOf(input[pos])
    requires ForestSources(more) <= Tokens(input, pos + 1, pos')
    requires Loop(input, pos', Wrap(s1, info, more).value, false, complex) == Ok(r)
    ensures NodeMade(s1, r.0, Node(info, Cons(Top(s1.operands), more)))
  {
    hide Loop, Clean, Moves, Sources, ForestSources, Has, KnownOp, SourcesWithin;
    var s2, node := Wrap(s1, info, more).value, Node(info, Cons(Top(s1.operands), more));
    WrappedAt(input, lo, pos, pos', s1, info, more);
    WrapMoves(s1, info, more);
    FutureLoop(input, lo, pos', s2, false, complex);
    CompletesBefore(s1, s2, r.0);
    CleanWaiting(Tokens(input, lo, pos'), s2);
    assert s2.operands[|s1.operands| - 1] == node;
  }

  lemma CleanWaiting(a: set<nat>, s: Stacks)
    requires Clean(a, s)
    ensures Waiting(s)
  {
    hide Sources, KnownOp;
  }

  // What the node of the construct has behind its first child.
  lemma {:induction false} SuffixMade(input: seq<Lexeme>, lo: nat, pos: nat, e: Expr, s: Stacks, s1: Stacks,
                                      complex: bool, r: (Tree, nat))
    returns (node: Tree)
    requires IsSuffix(e) && InFront(input, lo, pos, e, s, complex) && Agrees(r.0, e)
    requires CleanAt(input, lo, pos + Length(e.inner), s1) && s1.operands != [] && pos + Length(e.inner) < |input|
    requires var at := pos + Length(e.inner);
      && (input[at].token.Dot? ==> AtMember(input, at, s1, complex) == Ok(r))
      && (input[at].token.BracketL? ==> AtIndex(input, at, s1, complex) == Ok(r))
      && (input[at].token == Sign(PAREN_L) ==> AtCall(input, at, s1, complex) == Ok(r))
    ensures NodeMade(s1, r.0, node) && node.info.source == e.source
    ensures e.Index? ==> WellFormed(e.index, false)
    ensures e.Call? ==> ArgsWellFormed(e.args)
    decreases e, 0
  {
    hide CleanAt, AtMember, AtIndex, AtCall, NodeMade;
    match e
    case Member(_, _, _, _) => node := MemberMade(input, lo, pos + Length(e.inner), e, pos, s1, complex, r);
    case Call(_, _, _) => node := CallMade(input, lo, pos + Length(e.inner), e, pos, s1, complex, r);
    case Index(_, _, _, _) => node := IndexMade(input, lo, pos + Length(e.inner), e, pos, s1, complex, r);
  }

  lemma MemberMade(input: seq<Lexeme>, lo: nat, at: nat, e: Expr, pos: nat, s1: Stacks, complex: bool, r: (Tree, nat))
    returns (node: Tree)
    requires e.Member? && Reads(input, pos, e) && at == pos + Length(e.inner) && CleanAt(input, lo, at, s1)
    requires s1.operands != []
    requires at < |input| && AtMember(input, at, s1, complex) == Ok(r)
    ensures NodeMade(s1, r.0, node) && node.info.source == e.source
  {
    hide CleanAt, Loop, NodeMade;
    var info := MemberInfo(e.name, e.source);
    node := Node(info, Cons(Top(s1.operands), Nil));
    NextStep(input, at + 2, Wrap(s1, info, Nil), false, complex);
    NodeIsMade(input, lo, at, at + 2, s1, info, Nil, complex, r);
  }

  lemma {:induction false} IndexMade(input: seq<Lexeme>, lo: nat, at: nat, e: Expr, pos: nat, s1: Stacks,
                                     complex: bool, r: (Tree, nat))
    returns (node: Tree)
    requires e.Index? && Reads(input, pos, e) && Proper(e, complex) && at == pos + Length(e.inner)
    requires CleanAt(input, lo, at, s1)
    requires s1.operands != [] && Agrees(r.0, e)
    requires at < |input| && AtIndex(input, at, s1, complex) == Ok(r)
    ensures NodeMade(s1, r.0, node) && node.info.source == e.source && WellFormed(e.index, false)
    decreases e.index, 4
  {
    hide CleanAt, Loop, NodeMade, ParseExpr, Tokens, WellFormed, RootAgrees, Sources;
    CleanDistinct(input, lo, at, s1);
    FutureParse(input, at + 1, false);
    var i := ParseExpr(input, at + 1, false).value;
    var info := IndexInfo(e.source);
    node := Node(info, Cons(Top(s1.operands), One(i.0)));
    NextStep(input, i.1 + 1, Wrap(s1, info, One(i.0)), false, complex);
    OneForest(i.0);
    TokensMore(input, at + 1, i.1, at + 1, i.1 + 1);
    NodeIsMade(input, lo, at, i.1 + 1, s1, info, One(i.0), complex, r);
    SecondHas(r.0, node, Top(s1.operands), i.0, Nil, s1);
    Nested(input, at + 1, e.index, false, r.0, i);
  }

  lemma SecondHas(t: Tree, node: Tree, first: Tree, second: Tree, more: Forest, s1: Stacks)
    requires NodeMade(s1, t, node) && node.kids == Cons(first, Cons(second, more))
    ensures Has(t, second)
  {
    hide Sources, Completes;
    assert Has(second, second) && ForestHas(Cons(second, more), second);
    assert ForestHas(node.kids, second);
    HasTrans(t, node, second);
  }

  lemma {:induction false} CallMade(input: seq<Lexeme>, lo: nat, at: nat, e: Expr, pos: nat, s1: Stacks, complex: bool,
                                    r: (Tree, nat))
    returns (node: Tree)
    requires e.Call? && Reads(input, pos, e) && Proper(e, complex) && at == pos + Length(e.inner)
    requires CleanAt(input, lo, at, s1)
    requires s1.operands != [] && Agrees(r.0, e)
    requires at < |input| && AtCall(input, at, s1, complex) == Ok(r)
    ensures NodeMade(s1, r.0, node) && node.info.source == e.source && ArgsWellFormed(e.args)
    decreases e.args, 5
  {
    hide CleanAt, Loop, NodeMade, Arguments, Tokens, WellFormed, RootAgrees, ForestSources, ReadsArgs, ArgsProper,
         ArgsAgree,
         ArgsWellFormed;
    CleanDistinct(input, lo, at, s1);
    FutureArguments(input, at + 1);
    var f := Arguments(input, at + 1).value;
    var info := CallInfo(e.source);
    node := Node(info, Cons(Top(s1.operands), f.0));
    NextStep(input, f.1 + 1, Wrap(s1, info, f.0), false, complex);
    TokensMore(input, at + 1, f.1, at + 1, f.1 + 1);
    NodeIsMade(input, lo, at, f.1 + 1, s1, info, f.0, complex, r);
    RestHas(r.0, node, Top(s1.operands), f.0, s1);
    NecessaryArgs(input, at + 1, e.args, r.0, f);
  }

  ghost predicate HasAll(t: Tree, f: Forest) {
    forall u | ForestHas(f, u) :: Has(t, u)
  }

  lemma RestHas(t: Tree, node: Tree, first: Tree, more: Forest, s1: Stacks)
    requires NodeMade(s1, t, node) && node.kids == Cons(first, more)
    ensures HasAll(t, more)
  {
    hide Sources, Completes;
    forall u | ForestHas(more, u)
      ensures Has(t, u)
    {
      assert ForestHas(node.kids, u) && Has(node, u);
      HasTrans(t, node, u);
    }
  }

  lemma {:induction false} NecessaryArgs(input: seq<Lexeme>, pos: nat, args: Exprs, t: Tree, r: (Forest, nat))
    requires ReadsArgs(input, pos, args) && ArgsProper(args) && Distinct(input) && ArgsAgree(t, args)
    requires pos <= |input| && Arguments(input, pos) == Ok(r) && HasAll(t, r.0)
    ensures ArgsWellFormed(args)
    decreases args, 4
  {
    hide ParseExpr, Agrees, WellFormed, Proper, Reads, Length, Small, TreeOf, Has;
    match args
    case NoArgs(_) =>
    case Arg(arg, _, rest) =>
      FirstToken(input, pos, arg);
      LoneToken(input, pos, arg, args);
      var a := ParseExpr(input, pos, true).value;
      HeadHas(t, r.0, a.0);
      Nested(input, pos, arg, true, t, a);
      Whole(input, pos, arg, true);
      if rest.Arg? {
        var f := Arguments(input, a.1 + 1).value;
        TailHas(t, r.0, a.0, f.0);
        NecessaryArgs(input, pos + Length(arg) + 1, rest, t, f);
      }
  }

  // A name that is an argument is not followed by a colon.
  lemma LoneToken(input: seq<Lexeme>, pos: nat, arg: Expr, args: Exprs)
    requires args.Arg? && args.arg == arg && ReadsArgs(input, pos, args) && pos + Length(arg) <= |input|
    ensures Length(arg) == 1 ==> !Peek(input, pos + 1).token.Colon?
    ensures Ends(Peek(input, pos + Length(arg)).token, true)
  {
    hide Reads;
  }

  lemma HeadHas(t: Tree, f: Forest, a: Tree)
    requires HasAll(t, f) && f.Cons? && f.head == a
    ensures Has(t, a)
  {
    assert Has(a, a) && ForestHas(f, a);
  }

  lemma TailHas(t: Tree, f: Forest, a: Tree, rest: Forest)
    requires HasAll(t, f) && f == Cons(a, rest)
    ensures HasAll(t, rest)
  {
    hide Has;
    assert forall u | ForestHas(rest, u) :: ForestHas(f, u);
  }

  lemma {:induction false} NecessarySuffix(input: seq<Lexeme>, lo: nat, pos: nat, e: Expr, s: Stacks, complex: bool,
                                           r: (Tree, nat))
    requires IsSuffix(e)
    requires InFront(input, lo, pos, e, s, complex) && Meant(r.0, s, e) && Loop(input, pos, s, true, complex) == Ok(r)
    ensures WellFormed(e, complex) && Fresh(s, e)
    decreases e, 1
  {
    hide Loop, CleanAt, Completes, Encloses, Has, Sources, TreeOf, After, WellFormed, LeftOk, RightOk, PopTo, Reads,
         Proper, Pops, RootAgrees,
         Room, AtMember, AtIndex, AtCall, ArgsWellFormed;
    var inner, at := e.inner, pos + Length(e.inner);
    KidsInside(e);
    SuffixGiven(input, lo, pos, e, s, complex, r.0);
    EnclosedLeft(r.0, s, e, inner);
    Necessary(input, lo, pos, inner, s, complex, r);
    Arrives(input, lo, pos, inner, s, complex, r);
    var s1 := SuffixGoesOn(input, lo, at, After(s, inner, complex), complex, r);
    var node := SuffixMade(input, lo, pos, e, s, s1, complex, r);
    NodeIsRoot(r.0, e, s1, node);
    if !RightOk(inner, 1, true) {
      var m := StuckAt(input, lo, at, s, inner, complex, 1, true);
      assert false;
    }
    Reduce(s, inner, complex, 1, true);
    LeftDone(input, lo, pos, at, s, inner, e, 1, true, s1, r.0);
    SuffixDone(s, e, complex);
  }

  lemma NodeIsRoot(t: Tree, e: Expr, s1: Stacks, node: Tree)
    requires NodeMade(s1, t, node) && RootAgrees(t, e) && node.info.source == TreeOf(e).info.source
    ensures Completes(s1, t) && forall m | 0 <= m < |s1.ops| :: s1.ops[m].source !in Sources(TreeOf(e))
  {
    hide Has, Sources, TreeOf, Completes;
  }

  lemma SuffixDone(s: Stacks, e: Expr, complex: bool)
    requires IsSuffix(e) && WellFormed(e.inner, complex) && Fresh(s, e.inner) && RightOk(e.inner, 1, true)
    requires Stops(s, 1, true)
    requires (e.Index? ==> WellFormed(e.index, false)) && (e.Call? ==> ArgsWellFormed(e.args))
    ensures WellFormed(e, complex) && Fresh(s, e)
  {
    hide Pops;
  }

  // ---------- Array types ----------

  lemma ArrayTypeGiven(input: seq<Lexeme>, lo: nat, pos: nat, e: Expr, s: Stacks, complex: bool, t: Tree)
    requires e.ArrayType? && InFront(input, lo, pos, e, s, complex) && Meant(t, s, e)
    ensures Agrees(t, e.count) && Agrees(t, e.inner) && RootAgrees(t, e) && Distinct(input)
    ensures pos < |input| && input[pos] == Lexeme(BracketL, e.source) && SourceOf(input[pos]) == e.source
    ensures Reads(input, pos + 1, e.count) && Proper(e.count, false)
    ensures var end := pos + 1 + Length(e.count);
      && end < |input| && input[end].token.BracketR? && Reads(input, end + 1, e.inner) && Proper(e.inner, complex)
      && end + 1 + Length(e.inner) <= |input|
  {
    hide Clean, Encloses, RootAgrees;
  }

  // What the parser does at an array type, if the run ends well.
  lemma ArrayTypeGoesOn(input: seq<Lexeme>, lo: nat, pos: nat, s: Stacks, complex: bool, r: (Tree, nat))
    returns (c: (Tree, nat), s1: Stacks)
    requires CleanAt(input, lo, pos, s) && pos < |input| && input[pos].token.BracketL?
    requires Loop(input, pos, s, true, complex) == Ok(r)
    ensures ParseExpr(input, pos + 1, false) == Ok(c) && pos + 1 <= c.1 < |input| && |s.operands| != MAX_OPERANDS
    ensures PopTo(With(s, c.0), 2, false) == Ok(s1) && |s1.ops| != MAX_OPERATORS
    ensures Loop(input, c.1 + 1, Pushed(s1, ArrayOp(input[pos].source)), true, complex) == Ok(r)
    ensures Clean(Tokens(input, lo, pos) + Tokens(input, pos + 1, c.1), With(s, c.0))
    ensures CleanAt(input, lo, c.1 + 1, Pushed(s1, ArrayOp(input[pos].source)))
    ensures Has(r.0, c.0) && Completes(s1, r.0)
  {
    hide Loop, Clean, PopTo, Moves, ParseExpr, Sources, Has, Tokens, Completes, Distinct;
    LoopStep(input, pos, s, complex);
    assert AtOperand(input, pos, s, complex) == AtArrayType(input, pos, s, complex);
    CleanDistinct(input, lo, pos, s);
    FutureParse(input, pos + 1, false);
    c := ParseExpr(input, pos + 1, false).value;
    var s', op := With(s, c.0), ArrayOp(input[pos].source);
    NextStep(input, c.1 + 1, PushOperator(s', op), true, complex);
    s1 := PopTo(s', 2, false).value;
    var a := Tokens(input, lo, pos) + Tokens(input, pos + 1, c.1);
    CountAt(input, lo, pos, c.1, s, c.0, op);
    PopToMoves(a, s', 2, false);
    OperatorClean(a, s1, op);
    WideTokens(input, lo, pos, c.1, Pushed(s1, op));
    FutureLoop(input, lo, c.1 + 1, Pushed(s1, op), true, complex);
    CompletesBefore(s1, Pushed(s1, op), r.0);
    CountHas(s, c.0, s1, r.0);
  }

  lemma WideTokens(input: seq<Lexeme>, lo: nat, pos: nat, end: nat, s: Stacks)
    requires lo <= pos < end < |input| && Distinct(input)
    requires Clean(Tokens(input, lo, pos) + Tokens(input, pos + 1, end) + {SourceOf(input[pos])}, s)
    ensures CleanAt(input, lo, end + 1, s)
  {
    hide Clean;
    CleanMore(Tokens(input, lo, pos) + Tokens(input, pos + 1, end) + {SourceOf(input[pos])}, Tokens(input, lo,
      end + 1), s);
  }

  lemma CountHas(s: Stacks, c: Tree, s1: Stacks, t: Tree)
    requires Moves(With(s, c), s1) && Completes(s1, t)
    ensures Has(t, c)
  {
    var s' := With(s, c);
    assert s'.operands[|s.operands|] == c && Has(c, c);
    assert OnStack(s', c);
  }

  lemma {:induction false} NecessaryArrayType(input: seq<Lexeme>, lo: nat, pos: nat, e: Expr, s: Stacks, complex: bool,
                                              r: (Tree, nat))
    requires e.ArrayType?
    requires InFront(input, lo, pos, e, s, complex) && Meant(r.0, s, e) && Loop(input, pos, s, true, complex) == Ok(r)
    ensures WellFormed(e, complex) && Fresh(s, e)
    decreases e, 0
  {
    hide Loop, CleanAt, Completes, Encloses, Has, Sources, TreeOf, WellFormed, LeftOk, PopTo, Reads, Proper, Pops,
         RootAgrees, ParseExpr,
         Small, Clean, Agrees;
    KidsInside(e);
    ArrayTypeGiven(input, lo, pos, e, s, complex, r.0);
    var c, s1 := ArrayTypeGoesOn(input, lo, pos, s, complex, r);
    Nested(input, pos + 1, e.count, false, r.0, c);
    Whole(input, pos + 1, e.count, false);
    var op := ArrayOp(e.source);
    NotCounted(input, lo, pos, c.1);
    EnclosedAlso(r.0, s, With(s, c.0), e);
    TopStays(Tokens(input, lo, pos) + Tokens(input, pos + 1, c.1), e.source, With(s, c.0), e, 2, false, r.0);
    EnclosedBy(r.0, s1, op, e, e.inner);
    Necessary(input, lo, c.1 + 1, e.inner, Pushed(s1, op), complex, r);
    ArrayTypeDone(s, e, complex, s1, op);
  }

  lemma NotCounted(input: seq<Lexeme>, lo: nat, pos: nat, end: nat)
    requires Distinct(input) && pos < |input| && end <= |input|
    ensures SourceOf(input[pos]) !in Tokens(input, lo, pos) + Tokens(input, pos + 1, end)
  {
  }

  lemma ArrayTypeDone(s: Stacks, e: Expr, complex: bool, s1: Stacks, op: Pending)
    requires e.ArrayType? && WellFormed(e.count, false) && WellFormed(e.inner, complex) && Stops(s, 2, false)
    requires op.desc == ARRAY_TYPE && Fresh(Pushed(s1, op), e.inner)
    ensures WellFormed(e, complex) && Fresh(s, e)
  {
    hide Pops;
  }

  // Inside an operator's node.
  lemma EnclosedBy(t: Tree, s: Stacks, op: Pending, outer: Expr, e: Expr)
    requires RootAgrees(t, outer) && op.source == TreeOf(outer).info.source
    requires Sources(TreeOf(e)) <= Sources(TreeOf(outer))
    ensures Encloses(t, Pushed(s, op), e)
  {
    hide Has, Sources, TreeOf;
  }

  lemma EnclosedAlso(t: Tree, s: Stacks, s': Stacks, e: Expr)
    requires Encloses(t, s, e) && s'.ops == s.ops
    ensures Encloses(t, s', e)
  {
    hide Has, Sources, TreeOf;
  }

  // At the left edge of `e`.
  lemma EnclosedLeft(t: Tree, s: Stacks, outer: Expr, e: Expr)
    requires Encloses(t, s, outer) && Sources(TreeOf(e)) <= Sources(TreeOf(outer))
    ensures Encloses(t, s, e)
  {
    hide Has, Sources, TreeOf;
  }

  lemma {:induction false} NecessaryInfix(input: seq<Lexeme>, lo: nat, pos: nat, e: Expr, s: Stacks, complex: bool,
                                          r: (Tree, nat))
    requires e.Infix?
    requires InFront(input, lo, pos, e, s, complex) && Meant(r.0, s, e) && Loop(input, pos, s, true, complex) == Ok(r)
    ensures WellFormed(e, complex) && Fresh(s, e)
    decreases e, 0
  {
    hide Loop, CleanAt, Completes, Encloses, Has, Sources, TreeOf, After, WellFormed, LeftOk, RightOk, PopTo, Binary,
         Reads, Proper, Pops,
         RootAgrees, Room;
    var left, right, sign, at := e.left, e.right, e.sign, pos + Length(e.left);
    KidsInside(e);
    InfixGiven(input, lo, pos, e, s, complex, r.0);
    EnclosedLeft(r.0, s, e, left);
    Necessary(input, lo, pos, left, s, complex, r);
    Arrives(input, lo, pos, left, s, complex, r);
    var s0, op := After(s, left, complex), BinaryOp(e.source, sign);
    var s1 := OperatorGoesOn(input, lo, at, s0, sign, complex, r);
    if !RightOk(left, Binary(sign).precedence, Binary(sign).isRightToLeft) {
      var m := StuckAt(input, lo, at, s, left, complex, Binary(sign).precedence, Binary(sign).isRightToLeft);
      NodeLacks(s1, op, r.0, e, m);
      assert false;
    }
    Reduce(s, left, complex, Binary(sign).precedence, Binary(sign).isRightToLeft);
    LeftDone(input, lo, pos, at, s, left, e, Binary(sign).precedence, Binary(sign).isRightToLeft, s1, r.0);
    EnclosedBy(r.0, s1, op, e, right);
    RoomLeft(s, left);
    Necessary(input, lo, at + 1, right, Pushed(s1, op), complex, r);
    InfixDone(s, e, complex, s1, op);
  }

  // The operator in front is still there behind the first operand.
  lemma LeftDone(input: seq<Lexeme>, lo: nat, pos: nat, at: nat, s: Stacks, left: Expr, e: Expr, precedence: nat,
                 equal: bool,
                 s1: Stacks, t: Tree)
    requires CleanAt(input, lo, pos, s) && Reads(input, pos, left) && at == pos + Length(left) && at < |input|
    requires SourceOf(input[at]) in Sources(TreeOf(e)) && Encloses(t, s, e) && precedence < 10
    requires PopTo(With(s, TreeOf(left)), precedence, equal) == Ok(s1) && Completes(s1, t)
    ensures s1 == With(s, TreeOf(left)) && Stops(s, precedence, equal)
  {
    hide Clean, Reads, Sources, TreeOf, PopTo, Completes, Length, Pops;
    AfterTree(input, lo, pos, at, left, s);
    NotYet(input, lo, at, at);
    TopStays(Tokens(input, lo, at), SourceOf(input[at]), With(s, TreeOf(left)), e, precedence, equal, t);
  }

  lemma RoomLeft(s: Stacks, e: Expr)
    requires Room(s, e)
    ensures |s.ops| <= MAX_OPERATORS && |s.operands| + 1 <= MAX_OPERANDS
  {
    hide NestedRoom, OpsNeeded;
  }

  lemma InfixDone(s: Stacks, e: Expr, complex: bool, s1: Stacks, op: Pending)
    requires e.Infix? && IsBinary(e.sign) && Binary(e.sign).isBinary && (complex || e.sign != ASSIGN)
    requires WellFormed(e.left, complex) && WellFormed(e.right, complex) && Fresh(s, e.left)
    requires RightOk(e.left, Binary(e.sign).precedence, Binary(e.sign).isRightToLeft)
    requires Stops(s, Binary(e.sign).precedence, Binary(e.sign).isRightToLeft)
    requires op.desc == Binary(e.sign) && Fresh(Pushed(s1, op), e.right)
    ensures WellFormed(e, complex) && Fresh(s, e)
  {
    hide Pops, Binary;
  }

  lemma StuckAt(input: seq<Lexeme>, lo: nat, at: nat, s: Stacks, e: Expr, complex: bool, precedence: nat, equal: bool)
    returns (m: nat)
    requires WellFormed(e, complex) && CleanAt(input, lo, at, After(s, e, complex)) && !RightOk(e, precedence, equal)
    requires PopTo(After(s, e, complex), precedence, equal).Ok?
    ensures var s1 := PopTo(After(s, e, complex), precedence, equal).value;
      |s.ops| <= m < |s1.ops| && s1.ops[m].source in Sources(TreeOf(e))
  {
    hide Clean, WellFormed, After, RightOk, PopTo, Sources, TreeOf, Tokens, Distinct;
    m := Stuck(Tokens(input, lo, at), s, e, complex, precedence, equal);
  }

  lemma InfixGiven(input: seq<Lexeme>, lo: nat, pos: nat, e: Expr, s: Stacks, complex: bool, t: Tree)
    requires e.Infix? && InFront(input, lo, pos, e, s, complex) && Meant(t, s, e)
    ensures InFront(input, lo, pos, e.left, s, complex) && Agrees(t, e.left) && Agrees(t, e.right) && RootAgrees(t, e)
    ensures IsBinary(e.sign) && Binary(e.sign).isBinary && (complex || e.sign != ASSIGN)
        && Binary(e.sign).tag != INVALID
    ensures Binary(e.sign).precedence < 10
    ensures var at := pos + Length(e.left);
      && at < |input| && input[at] == Lexeme(Sign(e.sign), e.source) && SourceOf(input[at]) == e.source
      && Length(e) == Length(e.left) + 1 + Length(e.right) && Reads(input, at + 1, e.right) && Proper(e.right, complex)
  {
    hide CleanAt, Encloses, RootAgrees, Binary, Agrees, Reads, Proper, Length;
    BinaryTableOf(e, complex);
    InfixRead(input, pos, e);
    InfixAgrees(t, e);
  }

  lemma BinaryTableOf(e: Expr, complex: bool)
    requires e.Infix? && Proper(e, complex)
    ensures IsBinary(e.sign) && Binary(e.sign).isBinary && (complex || e.sign != ASSIGN)
        && Binary(e.sign).tag != INVALID
    ensures Binary(e.sign).precedence < 10 && Proper(e.left, complex) && Proper(e.right, complex)
  {
    hide Binary;
    BinaryTable(e.sign);
  }

  lemma InfixRead(input: seq<Lexeme>, pos: nat, e: Expr)
    requires e.Infix? && Reads(input, pos, e)
    ensures var at := pos + Length(e.left);
      && Reads(input, pos, e.left) && at < |input| && input[at] == Lexeme(Sign(e.sign), e.source)
      && SourceOf(input[at]) == e.source
      && Length(e) == Length(e.left) + 1 + Length(e.right) && Reads(input, at + 1, e.right)
  {
  }

  lemma InfixAgrees(t: Tree, e: Expr)
    requires e.Infix? && Agrees(t, e)
    ensures Agrees(t, e.left) && Agrees(t, e.right) && RootAgrees(t, e)
  {
    hide RootAgrees;
  }

  // ---------- The condition for being parsed as meant ----------

  /** Parsing gives an expression its tree exactly if its text is well-formed and fits on the
      stacks. */
  lemma ParsedAsMeant(input: seq<Lexeme>, pos: nat, e: Expr, complex: bool)
    requires Reads(input, pos, e) && Proper(e, complex) && Distinct(input)
    requires Ends(Peek(input, pos + Length(e)).token, complex)
    ensures pos <= |input|
    ensures ParseExpr(input, pos, complex) == Ok((TreeOf(e), pos + Length(e))) <==> WellFormed(e, complex) && Small(e)
  {
    hide ParseExpr, Reads, Proper, WellFormed, Small, TreeOf, Ends, Length, Agrees, Has;
    ReadsInside(input, pos, e);
    if WellFormed(e, complex) {
      Whole(input, pos, e, complex);
    } else if ParseExpr(input, pos, complex) == Ok((TreeOf(e), pos + Length(e))) {
      MeantAgrees(input, pos, e);
      SelfHas(TreeOf(e));
      Nested(input, pos, e, complex, TreeOf(e), (TreeOf(e), pos + Length(e)));
    }
  }

  lemma SelfHas(t: Tree)
    ensures Has(t, t)
  {
  }

  /** The same for the text as it is printed: it needs no further parentheses exactly if it is
      well-formed. */
  lemma PrintedAsMeant(e: Expr, complex: bool, rest: seq<Lexeme>)
    requires Proper(e, complex) && Distinct(Text(e) + rest) && Ends(Peek(rest, 0).token, complex)
    ensures ParseExpr(Text(e) + rest, 0, complex) == Ok((TreeOf(e), |Text(e)|)) <==> WellFormed(e, complex) && Small(e)
  {
    hide ParseExpr, Reads, Proper, WellFormed, Small, TreeOf, Ends, Length, Text, Distinct;
    var input := Text(e) + rest;
    assert Holds(input, 0, Text(e));
    TextReads(input, 0, e);
    assert Peek(input, Length(e)) == Peek(rest, 0);
    ParsedAsMeant(input, 0, e, complex);
  }

  // `eval`, `try` and `defer` pop all binary operators but the assignments, other prefixes none.
  lemma PrefixTable(sign: nat, op: nat)
    requires IsUnary(sign) && sign != PAREN_L && IsBinary(op) && Binary(op).isBinary
    ensures Unary(sign).precedence == 8 || Unary(sign).precedence == 2
    ensures Pops(Unary(sign).precedence, Unary(sign).isRightToLeft, Binary(op)) <==>
      Unary(sign).precedence == 8 && op < ASSIGN
  {
    UnaryTable(sign);
    BinaryTable(op);
    assert op >= ASSIGN <==> Binary(op).precedence == 9;
  }

  /** A prefix expression as a right operand, both operands being well-formed where they stand: it
      is parsed as meant exactly unless the prefix is `eval`, `try` or `defer` and the operator
      is no assignment. */
  lemma PrefixOperand(input: seq<Lexeme>, pos: nat, e: Expr, complex: bool)
    requires e.Infix? && e.right.Prefix? && Reads(input, pos, e) && Proper(e, complex) && Distinct(input) && Small(e)
    requires Ends(Peek(input, pos + Length(e)).token, complex)
    requires WellFormed(e.left, complex) && RightOk(e.left, Binary(e.sign).precedence, Binary(e.sign).isRightToLeft)
    requires WellFormed(e.right, complex)
    ensures pos <= |input|
    ensures ParseExpr(input, pos, complex) == Ok((TreeOf(e), pos + Length(e)))
         <==> !ExprLevels.IsKeyword(e.right.sign) || ExprLevels.IsAssignment(e.sign)
  {
    hide ParseExpr, Reads, Small, TreeOf, Ends, Length, Distinct, RightOk;
    ParsedAsMeant(input, pos, e, complex);
    PrefixTable(e.right.sign, e.sign);
    ExprLevels.KeywordTable(e.right.sign, e.sign);
  }
}
