/** What is on the parser's stacks ends up in its result, if there is one. */
module ExprFuture {
  import opened Basics
  import opened Ast
  import opened Operators
  import opened ExprSources

  /** The tree has all the nodes of the stacks, and one for every operator, made before those of
      the operators below it. */
  ghost predicate Completes(s: Stacks, t: Tree) {
    && (forall u | OnStack(s, u) :: Has(t, u))
    && (forall k | 0 <= k < |s.ops| :: OpCompletes(s, k, t))
  }

  ghost predicate OpCompletes(s: Stacks, k: nat, t: Tree)
    requires k < |s.ops|
  {
    s.ops[k].desc.tag == INVALID || exists u :: Has(t, u) && Made(s, k, u)
  }

  lemma CompletesBefore(s: Stacks, s': Stacks, t: Tree)
    requires Moves(s, s') && Completes(s', t)
    ensures Completes(s, t)
  {
    hide OnStack, Has;
    forall k | 0 <= k < |s.ops|
      ensures OpCompletes(s, k, t)
    {
      assert OpMoves(s, k, s');
      if s.ops[k].desc.tag != INVALID {
        if StillWaits(s, k, s') {
          WaitsCompletes(s, k, s', t);
        } else {
          var u :| OnStack(s', u) && Made(s, k, u);
          assert Has(t, u);
        }
      }
    }
  }

  lemma WaitsCompletes(s: Stacks, k: nat, s': Stacks, t: Tree)
    requires k < |s.ops| && StillWaits(s, k, s') && OpCompletes(s', k, t)
    ensures OpCompletes(s, k, t)
  {
    hide Has, Sources;
    forall i | 0 <= i <= k
      ensures s.ops[i] == s'.ops[i]
    {
      assert s.ops[..k + 1][i] == s'.ops[..k + 1][i];
    }
    if s'.ops[k].desc.tag != INVALID {
      var u :| Has(t, u) && Made(s', k, u);
      assert Made(s, k, u);
    }
  }

  lemma OneCompletes(a: set<nat>, s: Stacks)
    requires Clean(a, s) && s.ops == [] && |s.operands| == 1
    ensures Sources(s.operands[0]) <= a && Completes(s, s.operands[0])
  {
    hide Sources;
    assert s.operands[0] in s.operands;
    assert forall t | t in s.operands :: t == s.operands[0];
  }

  lemma {:induction false} RemainingCompletes(a: set<nat>, s: Stacks)
    requires Clean(a, s) && PopRemaining(s).Ok?
    ensures Sources(PopRemaining(s).value) <= a && Completes(s, PopRemaining(s).value)
    decreases |s.ops|
  {
    hide Clean, Moves, PopOperator, Completes, Sources;
    if s.ops == [] {
      OneCompletes(a, s);
    } else {
      PopMoves(a, s);
      RemainingCompletes(a, PopOperator(s).value);
      CompletesBefore(s, PopOperator(s).value, PopRemaining(s).value);
    }
  }

  lemma PushOperatorMoves(a: set<nat>, s: Stacks, op: Pending)
    requires Clean(a, s) && KnownOp(op) && op.source !in a && PushOperator(s, op).Ok?
    ensures Clean(a + {op.source}, PushOperator(s, op).value) && Moves(s, PushOperator(s, op).value)
  {
    hide Clean, Moves, KnownOp, PopTo;
    if op.desc.tag == INVALID {
      OperatorClean(a, s, op);
    } else {
      PopToMoves(a, s, op.desc.precedence, op.desc.isRightToLeft);
      var s1 := PopTo(s, op.desc.precedence, op.desc.isRightToLeft).value;
      OperatorClean(a, s1, op);
      MovesTrans(s, s1, PushOperator(s, op).value);
    }
  }

  // Only a parenthesis withstands the closing one.
  lemma ParenOnly(op: Pending)
    requires KnownOp(op) && !Pops(10, false, op.desc)
    ensures op.desc.tag == INVALID && op.desc == Unary(PAREN_L)
  {
    if sign :| IsUnary(sign) && op.desc == Unary(sign) {
      if sign != PAREN_L { UnaryTable(sign); }
    } else if sign :| IsBinary(sign) && op.desc == Binary(sign) {
      BinaryTable(sign);
    }
  }

  lemma ClosesMoves(a: set<nat>, s: Stacks)
    requires Clean(a, s) && PopTo(s, 10, false).Ok?
    ensures var s' := PopTo(s, 10, false).value;
      && Clean(a, s') && Moves(s, s')
      && (s'.ops != [] ==>
            Clean(a, Stacks(Front(s'.ops), s'.operands)) && Moves(s, Stacks(Front(s'.ops), s'.operands))
            && Top(s'.ops).desc.tag == INVALID)
  {
    hide Moves, KnownOp, PopTo, SourcesWithin, Waiting, Pops;
    PopToMoves(a, s, 10, false);
    var s' := PopTo(s, 10, false).value;
    if s'.ops != [] {
      ParenOnly(s'.ops[|s'.ops| - 1]);
      DropMoves(a, s');
      MovesTrans(s, s', Stacks(Front(s'.ops), s'.operands));
    }
  }

  // ---------- The loop ----------

  ghost predicate CleanAt(input: seq<Lexeme>, lo: nat, pos: nat, s: Stacks) {
    lo <= pos <= |input| && Clean(Tokens(input, lo, pos), s) && Distinct(input)
  }

  lemma CleanDistinct(input: seq<Lexeme>, lo: nat, pos: nat, s: Stacks)
    requires CleanAt(input, lo, pos, s)
    ensures Distinct(input)
  {
  }

  ghost predicate Good(input: seq<Lexeme>, lo: nat, s: Stacks, r: Parsed<(Tree, nat)>) {
    r.Ok? ==> r.value.1 <= |input| && Sources(r.value.0) <= Tokens(input, lo, r.value.1) && Completes(s, r.value.0)
  }

  lemma GoodBefore(input: seq<Lexeme>, lo: nat, s: Stacks, s': Stacks, r: Parsed<(Tree, nat)>)
    requires Moves(s, s') && Good(input, lo, s', r)
    ensures Good(input, lo, s, r)
  {
    hide Moves, Completes, Sources, Tokens;
    if r.Ok? { CompletesBefore(s, s', r.value.0); }
  }

  /** What is on the stacks anywhere in the loop is in the result. */
  lemma {:induction false} FutureLoop(input: seq<Lexeme>, lo: nat, pos: nat, s: Stacks, expecting: bool, complex: bool)
    requires CleanAt(input, lo, pos, s)
    ensures Good(input, lo, s, Loop(input, pos, s, expecting, complex))
    decreases |input| - pos, 3
  {
    hide CleanAt, Good, AtOperand, AtOperator;
    if expecting {
      FutureOperand(input, lo, pos, s, complex);
    } else {
      FutureOperator(input, lo, pos, s, complex);
    }
  }

  lemma {:induction false} FutureNext(input: seq<Lexeme>, lo: nat, pos: nat, s: Stacks, r: Parsed<Stacks>,
                                      expecting: bool, complex: bool)
    requires pos <= |input| && (r.Ok? ==> CleanAt(input, lo, pos, r.value) && Moves(s, r.value))
    ensures Good(input, lo, s, Next(input, pos, r, expecting, complex))
    decreases |input| - pos, 4
  {
    hide CleanAt, Moves, Completes, Loop;
    if r.Ok? {
      FutureLoop(input, lo, pos, r.value, expecting, complex);
      GoodBefore(input, lo, s, r.value, Loop(input, pos, r.value, expecting, complex));
    }
  }

  // An expression of its own.
  lemma {:induction false} FutureParse(input: seq<Lexeme>, pos: nat, complex: bool)
    requires pos <= |input| && Distinct(input)
    ensures var r := ParseExpr(input, pos, complex);
      r.Ok? ==> pos <= r.value.1 <= |input| && Sources(r.value.0) <= Tokens(input, pos, r.value.1)
    decreases |input| - pos, 4
  {
    hide Loop, Completes;
    FutureLoop(input, pos, pos, Stacks([], []), true, complex);
  }

  // The operand at `pos` ends in front of `pos'`.
  lemma PushedAt(input: seq<Lexeme>, lo: nat, pos: nat, pos': nat, s: Stacks, t: Tree)
    requires CleanAt(input, lo, pos, s) && pos < pos' <= |input| && Sources(t) == {SourceOf(input[pos])}
    ensures CleanAt(input, lo, pos', Stacks(s.ops, s.operands + [t])) && Moves(s, Stacks(s.ops, s.operands + [t]))
  {
    hide Clean, Moves, Sources;
    NotYet(input, lo, pos, pos);
    OperandClean(Tokens(input, lo, pos), {SourceOf(input[pos])}, s, t);
    CleanMore(Tokens(input, lo, pos) + {SourceOf(input[pos])}, Tokens(input, lo, pos'), Stacks(s.ops,
      s.operands + [t]));
  }

  lemma OperatorAt(input: seq<Lexeme>, lo: nat, pos: nat, pos': nat, s: Stacks, op: Pending)
    requires CleanAt(input, lo, pos, s) && pos < pos' <= |input| && KnownOp(op) && op.source == SourceOf(input[pos])
    requires PushOperator(s, op).Ok?
    ensures CleanAt(input, lo, pos', PushOperator(s, op).value) && Moves(s, PushOperator(s, op).value)
  {
    hide Clean, Moves, Sources, KnownOp, PushOperator;
    NotYet(input, lo, pos, pos);
    PushOperatorMoves(Tokens(input, lo, pos), s, op);
    CleanMore(Tokens(input, lo, pos) + {op.source}, Tokens(input, lo, pos'), PushOperator(s, op).value);
  }

  lemma LeafSources(info: Info)
    ensures Sources(Node(info, Nil)) == {info.source}
  {
  }

  lemma {:induction false} FutureOperand(input: seq<Lexeme>, lo: nat, pos: nat, s: Stacks, complex: bool)
    requires CleanAt(input, lo, pos, s)
    ensures Good(input, lo, s, AtOperand(input, pos, s, complex))
    decreases |input| - pos, 2
  {
    hide Clean, Moves, Sources, Completes, Tokens, Next, AtImpliedMember, AtArrayType, AtPrefix;
    var lexeme := Peek(input, pos);
    match lexeme.token
    case Ident(name) =>
      LeafSources(IdentInfo(name, lexeme.source));
      FutureLeaf(input, lo, pos, s, Node(IdentInfo(name, lexeme.source), Nil), pos + 1, complex);
    case Literal(info) =>
      LeafSources(info);
      FutureLeaf(input, lo, pos, s, Node(info, Nil), pos + 1, complex);
    case Dot => FutureImplied(input, lo, pos, s, complex);
    case BracketL => FutureArrayType(input, lo, pos, s, complex);
    case Sign(sign) => if IsUnary(sign) { FuturePrefix(input, lo, pos, s, sign, complex); }
    case _ =>
  }

  lemma {:induction false} FutureLeaf(input: seq<Lexeme>, lo: nat, pos: nat, s: Stacks, t: Tree, pos': nat,
                                      complex: bool)
    requires CleanAt(input, lo, pos, s) && pos < pos' <= |input| && Sources(t) == {SourceOf(input[pos])}
    ensures Good(input, lo, s, Next(input, pos', PushOperand(s, t), false, complex))
    decreases |input| - pos, 0
  {
    hide CleanAt, Moves, Sources, Completes, Tokens, Next, Good;
    PushedAt(input, lo, pos, pos', s, t);
    FutureNext(input, lo, pos', s, PushOperand(s, t), false, complex);
  }

  lemma {:induction false} FutureImplied(input: seq<Lexeme>, lo: nat, pos: nat, s: Stacks, complex: bool)
    requires CleanAt(input, lo, pos, s) && pos < |input| && input[pos].token.Dot?
    ensures Good(input, lo, s, AtImpliedMember(input, pos, s, complex))
    decreases |input| - pos, 1
  {
    hide CleanAt, Sources, Completes, Tokens, Next;
    var name := Peek(input, pos + 1).token;
    if name.Ident? {
      LeafSources(ImpliedInfo(name.name, input[pos].source));
      FutureLeaf(input, lo, pos, s, Node(ImpliedInfo(name.name, input[pos].source), Nil), pos + 2, complex);
    }
  }

  lemma {:induction false} FuturePrefix(input: seq<Lexeme>, lo: nat, pos: nat, s: Stacks, sign: nat, complex: bool)
    requires CleanAt(input, lo, pos, s) && pos < |input| && input[pos].token == Sign(sign) && IsUnary(sign)
    ensures Good(input, lo, s, AtPrefix(input, pos, s, sign, complex))
    decreases |input| - pos, 0
  {
    hide CleanAt, Moves, Next, Good, PushOperator, Unary;
    var isMut := Unary(sign).takesMut && Peek(input, pos + 1).token.Mut?;
    var op, pos' := Pending(Unary(sign), if isMut then IS_MUT else 0, input[pos].source), if isMut then pos + 2
        else pos + 1;
    if PushOperator(s, op).Ok? { OperatorAt(input, lo, pos, pos', s, op); }
    FutureNext(input, lo, pos', s, PushOperator(s, op), true, complex);
  }

  lemma {:induction false} FutureArrayType(input: seq<Lexeme>, lo: nat, pos: nat, s: Stacks, complex: bool)
    requires CleanAt(input, lo, pos, s) && pos < |input| && input[pos].token.BracketL?
    ensures Good(input, lo, s, AtArrayType(input, pos, s, complex))
    decreases |input| - pos, 0
  {
    hide CleanAt, Moves, Next, PushOperator, ParseExpr, Completes, Sources, Tokens;
    CleanDistinct(input, lo, pos, s);
    FutureParse(input, pos + 1, false);
    var r := ParseExpr(input, pos + 1, false);
    if r.Ok? {
      var count, end := r.value.0, r.value.1;
      var pushed := PushOperand(s, count);
      if Peek(input, end).token.BracketR? && pushed.Ok? {
        var op := Pending(ARRAY_TYPE, 0, input[pos].source);
        if PushOperator(pushed.value, op).Ok? { ArrayTypeAt(input, lo, pos, end, s, count, op); }
        FutureNext(input, lo, end + 1, s, PushOperator(pushed.value, op), true, complex);
      }
    }
  }

  lemma ArrayTypeAt(input: seq<Lexeme>, lo: nat, pos: nat, end: nat, s: Stacks, count: Tree, op: Pending)
    requires CleanAt(input, lo, pos, s) && pos < end < |input| && Sources(count) <= Tokens(input, pos + 1, end)
    requires op.source == SourceOf(input[pos]) && op.desc == ARRAY_TYPE
    requires PushOperator(Stacks(s.ops, s.operands + [count]), op).Ok?
    ensures var s' := PushOperator(Stacks(s.ops, s.operands + [count]), op).value;
      CleanAt(input, lo, end + 1, s') && Moves(s, s')
  {
    hide Clean, Moves, Sources, PushOperator;
    var a, b, s1 := Tokens(input, lo, pos), Tokens(input, pos + 1, end), Stacks(s.ops, s.operands + [count]);
    var s' := PushOperator(s1, op).value;
    TokensApart(input, lo, pos, end);
    TokensMore(input, pos + 1, end, pos, end);
    OperandClean(a, b, s, count);
    NotYet(input, lo, pos, pos);
    assert op.source !in a + b;
    PushOperatorMoves(a + b, s1, op);
    MovesTrans(s, s1, s');
    CleanMore(a + b + {op.source}, Tokens(input, lo, end + 1), s');
  }

  // ---------- Behind an operand ----------

  lemma {:induction false} FutureOperator(input: seq<Lexeme>, lo: nat, pos: nat, s: Stacks, complex: bool)
    requires CleanAt(input, lo, pos, s)
    ensures Good(input, lo, s, AtOperator(input, pos, s, complex))
    decreases |input| - pos, 2
  {
    hide Clean, Moves, Sources, Completes, Tokens, Next, AtMember, AtIndex, AtCall, AtParenR, PopTo, PopRemaining,
         PushOperator, Binary;
    var token := Peek(input, pos).token;
    if token == Sign(PAREN_L) || token.BracketL? || token.Dot? {
      if PopTo(s, 1, true).Ok? { FutureSuffix(input, lo, pos, s, complex); }
    } else if token.ParenR? {
      FutureParenR(input, lo, pos, s, complex);
    } else if token.Suffix? {
    } else if token.Sign? && IsBinary(token.ordinal) && (complex || token.ordinal != ASSIGN) {
      FutureBinary(input, lo, pos, s, token.ordinal, complex);
    } else if PopRemaining(s).Ok? {
      RemainingCompletes(Tokens(input, lo, pos), s);
    }
  }

  lemma {:induction false} FutureBinary(input: seq<Lexeme>, lo: nat, pos: nat, s: Stacks, sign: nat, complex: bool)
    requires CleanAt(input, lo, pos, s) && pos < |input| && input[pos].token == Sign(sign) && IsBinary(sign)
    ensures var op := Pending(Binary(sign), 0, input[pos].source);
      Good(input, lo, s, Next(input, pos + 1, PushOperator(s, op), Binary(sign).isBinary, complex))
    decreases |input| - pos, 0
  {
    hide CleanAt, Moves, Next, Good, PushOperator, Binary;
    var op := Pending(Binary(sign), 0, input[pos].source);
    if PushOperator(s, op).Ok? { OperatorAt(input, lo, pos, pos + 1, s, op); }
    FutureNext(input, lo, pos + 1, s, PushOperator(s, op), Binary(sign).isBinary, complex);
  }

  lemma {:induction false} FutureParenR(input: seq<Lexeme>, lo: nat, pos: nat, s: Stacks, complex: bool)
    requires CleanAt(input, lo, pos, s) && pos < |input|
    ensures Good(input, lo, s, AtParenR(input, pos, s, complex))
    decreases |input| - pos, 0
  {
    hide Clean, Moves, Next, PopTo, Sources, Completes, Tokens;
    if PopTo(s, 10, false).Ok? {
      var s', a := PopTo(s, 10, false).value, Tokens(input, lo, pos);
      ClosesMoves(a, s);
      if s'.ops == [] {
        if |s'.operands| == 1 {
          OneCompletes(a, s');
          CompletesBefore(s, s', s'.operands[0]);
        }
      } else {
        var closed := Stacks(Front(s'.ops), s'.operands);
        TokensMore(input, lo, pos, lo, pos + 1);
        CleanMore(a, Tokens(input, lo, pos + 1), closed);
        FutureNext(input, lo, pos + 1, s, Ok(closed), false, complex);
      }
    }
  }

  lemma {:induction false} FutureSuffix(input: seq<Lexeme>, lo: nat, pos: nat, s: Stacks, complex: bool)
    requires CleanAt(input, lo, pos, s) && pos < |input| && PopTo(s, 1, true).Ok?
    requires input[pos].token == Sign(PAREN_L) || input[pos].token.BracketL? || input[pos].token.Dot?
    ensures Good(input, lo, s, AtOperator(input, pos, s, complex))
    decreases |input| - pos, 1
  {
    hide Moves, Sources, Completes, Tokens, Next, AtMember, AtIndex, AtCall, AtParenR, PopTo, PopRemaining,
         PushOperator, Clean, Good;
    PopToMoves(Tokens(input, lo, pos), s, 1, true);
    var s', token := PopTo(s, 1, true).value, input[pos].token;
    var r := AtOperator(input, pos, s, complex);
    if s'.operands != [] {
      if token.Dot? {
        FutureMember(input, lo, pos, s', complex);
      } else if token.BracketL? {
        FutureIndex(input, lo, pos, s', complex);
      } else {
        FutureCall(input, lo, pos, s', complex);
      }
      GoodBefore(input, lo, s, s', r);
    } else {
      assert r.Err?;
      NotGood(input, lo, s, r);
    }
  }

  lemma NotGood(input: seq<Lexeme>, lo: nat, s: Stacks, r: Parsed<(Tree, nat)>)
    requires r.Err?
    ensures Good(input, lo, s, r)
  {
  }

  // The tokens from `pos` to `pos'` became a postfix construct.
  lemma WrappedAt(input: seq<Lexeme>, lo: nat, pos: nat, pos': nat, s: Stacks, info: Info, more: Forest)
    requires CleanAt(input, lo, pos, s) && s.operands != [] && pos < pos' <= |input|
    requires info.source == SourceOf(input[pos]) && ForestSources(more) <= Tokens(input, pos + 1, pos')
    ensures CleanAt(input, lo, pos', Wrap(s, info, more).value) && Moves(s, Wrap(s, info, more).value)
  {
    hide Clean, Moves, Sources, ForestSources;
    TokensApart(input, lo, pos, pos');
    TokensMore(input, pos + 1, pos', pos, pos');
    WrapClean(Tokens(input, lo, pos), Tokens(input, pos, pos'), s, info, more);
    CleanMore(Tokens(input, lo, pos) + Tokens(input, pos, pos'), Tokens(input, lo, pos'), Wrap(s, info, more).value);
  }

  lemma {:induction false} FutureMember(input: seq<Lexeme>, lo: nat, pos: nat, s: Stacks, complex: bool)
    requires CleanAt(input, lo, pos, s) && pos < |input| && s.operands != [] && input[pos].token.Dot?
    ensures Good(input, lo, s, AtMember(input, pos, s, complex))
    decreases |input| - pos, 0
  {
    hide CleanAt, Moves, Next, Tokens, Completes, Sources;
    var name := Peek(input, pos + 1).token;
    if name.Ident? {
      var info := MemberInfo(name.name, input[pos].source);
      assert ForestSources(Nil) == {};
      WrappedAt(input, lo, pos, pos + 2, s, info, Nil);
      FutureNext(input, lo, pos + 2, s, Wrap(s, info, Nil), false, complex);
    }
  }

  lemma {:induction false} FutureIndex(input: seq<Lexeme>, lo: nat, pos: nat, s: Stacks, complex: bool)
    requires CleanAt(input, lo, pos, s) && pos < |input| && s.operands != [] && input[pos].token.BracketL?
    ensures Good(input, lo, s, AtIndex(input, pos, s, complex))
    decreases |input| - pos, 0
  {
    hide CleanAt, Moves, Next, Tokens, Completes, ParseExpr, Wrap, Sources;
    if !Peek(input, pos + 1).token.DoubleDot? {
      CleanDistinct(input, lo, pos, s);
      FutureParse(input, pos + 1, false);
      var r := ParseExpr(input, pos + 1, false);
      if r.Ok? {
        var index, end := r.value.0, r.value.1;
        if Peek(input, end).token.BracketR? {
          var info := IndexInfo(input[pos].source);
          assert ForestSources(One(index)) == Sources(index) + {};
          TokensMore(input, pos + 1, end, pos + 1, end + 1);
          WrappedAt(input, lo, pos, end + 1, s, info, One(index));
          FutureNext(input, lo, end + 1, s, Wrap(s, info, One(index)), false, complex);
        }
      }
    }
  }

  lemma {:induction false} FutureCall(input: seq<Lexeme>, lo: nat, pos: nat, s: Stacks, complex: bool)
    requires CleanAt(input, lo, pos, s) && pos < |input| && s.operands != [] && input[pos].token == Sign(PAREN_L)
    ensures Good(input, lo, s, AtCall(input, pos, s, complex))
    decreases |input| - pos, 0
  {
    hide CleanAt, Moves, Next, Tokens, Completes, Arguments, Wrap, ForestSources, Sources;
    CleanDistinct(input, lo, pos, s);
    FutureArguments(input, pos + 1);
    var r := Arguments(input, pos + 1);
    if r.Ok? {
      var args, end := r.value.0, r.value.1;
      var info := CallInfo(input[pos].source);
      TokensMore(input, pos + 1, end, pos + 1, end + 1);
      WrappedAt(input, lo, pos, end + 1, s, info, args);
      FutureNext(input, lo, end + 1, s, Wrap(s, info, args), false, complex);
    }
  }

  lemma {:induction false} FutureArguments(input: seq<Lexeme>, pos: nat)
    requires pos <= |input| && Distinct(input)
    ensures var r := Arguments(input, pos);
      r.Ok? ==> pos <= r.value.1 <= |input| && ForestSources(r.value.0) <= Tokens(input, pos, r.value.1)
    decreases |input| - pos, 5
  {
    hide Tokens, ParseExpr, Sources;
    var token := Peek(input, pos).token;
    if Arguments(input, pos).Ok? && !token.ParenR? {
      FutureParse(input, pos, true);
      var arg, end := ParseExpr(input, pos, true).value.0, ParseExpr(input, pos, true).value.1;
      assert ForestSources(One(arg)) == Sources(arg) + {};
      if Peek(input, end).token.Comma? {
        FutureArguments(input, end + 1);
        var rest, last := Arguments(input, end + 1).value.0, Arguments(input, end + 1).value.1;
        assert ForestSources(Cons(arg, rest)) == Sources(arg) + ForestSources(rest);
        TokensMore(input, pos, end, pos, last);
        TokensMore(input, end + 1, last, pos, last);
      }
    }
  }
}
