/** The expression parser: it follows the loop on values and pushes nodes into the builder. */
module ExprParsers {
  import opened Basics
  import opened Ast
  import opened AstPool
  import opened Operators
  import opened Partition

  // Full: the builder's reservation is used up, which is fatal.
  datatype Outcome = Done | Failed(error: ParseError) | Full

  class OperatorStack {
    var operandCount: nat
    var operatorTop: nat
    const operators: array<Pending>
    const operandTokens: array<nat>
    // What the builder held before.
    ghost const below: seq<Cell>
    ghost const belowSources: seq<nat>

    constructor (ghost nodes: seq<Cell>, ghost sources: seq<nat>)
      ensures operandCount == operatorTop == 0 && below == nodes && belowSources == sources && Shape()
      ensures fresh(operators) && fresh(operandTokens)
    {
      operandCount, operatorTop := 0, 0;
      operators := new Pending[MAX_OPERATORS](_ => Pending(ARRAY_TYPE, 0, 0));
      operandTokens := new nat[MAX_OPERANDS + 1](_ => 0);
      below, belowSources := nodes, sources;
    }

    ghost predicate Shape()
      reads this
    {
      operators.Length == MAX_OPERATORS && operandTokens.Length == MAX_OPERANDS + 1
      && operatorTop <= MAX_OPERATORS && operandCount <= MAX_OPERANDS
    }

    /** The stacks hold `s`, and the builder the subtrees of its operands behind what was there. */
    ghost predicate Represents(nodes: seq<Cell>, sources: seq<nat>, s: Stacks)
      reads this, operators, operandTokens
    {
      && Shape() && operators[..operatorTop] == s.ops && |s.operands| == operandCount
      && below <= nodes && belowSources <= sources && |below| == |belowSources|
      && Partitioned(nodes, sources, |below|, s.operands, operandTokens[..operandCount])
    }
  }

  class ExprParser {
    const pool: AstPool
    const input: seq<Lexeme>
    var pos: nat

    constructor (pool: AstPool, input: seq<Lexeme>)
      ensures this.pool == pool && this.input == input && pos == 0
    {
      this.pool := pool;
      this.input := input;
      pos := 0;
    }

    ghost predicate Valid()
      reads this, pool
    {
      pool.Valid() && pos <= |input|
    }

    ghost predicate Holds(stack: OperatorStack, s: Stacks)
      reads this, pool, stack, stack.operators, stack.operandTokens
    {
      pool.Valid() && stack.Represents(pool.nodeBuilder, pool.sourceBuilder, s)
    }

    // Too little room for another record.
    ghost predicate Cramped()
      reads this, pool
    {
      |pool.nodeBuilder| + 255 > BUILDER_CAPACITY
    }

    // The operand whose token is replaced, or new, is the only one that changes.
    method PushNode(firstChild: nat, info: Leaf)
      returns (r: Outcome, token: nat)
      requires pool.Valid()
      modifies pool`nodeBuilder, pool`sourceBuilder
      ensures pool.Valid() && (r.Done? || (r.Full? && Cramped()))
      ensures r.Done? ==> token == |old(pool.nodeBuilder)| < BUILDER_CAPACITY
      ensures r.Done? ==>
        Appended(old(pool.nodeBuilder), old(pool.sourceBuilder), pool.nodeBuilder, pool.sourceBuilder, firstChild, info)
      ensures r.Full? ==> pool.nodeBuilder == old(pool.nodeBuilder) && pool.sourceBuilder == old(pool.sourceBuilder)
    {
      if |pool.nodeBuilder| + info.Own() > BUILDER_CAPACITY { return Full, 0; }
      token := pool.PushNode(firstChild, info);
      r := Done;
    }

    // ---------- The stacks ----------

    method PopOperator(stack: OperatorStack, ghost s: Stacks)
      returns (r: Outcome, ghost s': Stacks)
      requires Holds(stack, s) && s.ops != []
      modifies stack, stack.operandTokens, pool`nodeBuilder, pool`sourceBuilder
      ensures r.Done? ==> Operators.PopOperator(s) == Ok(s') && Holds(stack, s')
      ensures r.Failed? ==> Operators.PopOperator(s) == Err(r.error)
      ensures r.Full? ==> Cramped()
      ensures pool.Valid()
    {
      hide Partitioned, Appended;
      var top := stack.operators[stack.operatorTop - 1];
      ghost var nodes, sources, tokens := pool.nodeBuilder, pool.sourceBuilder,
          stack.operandTokens[..stack.operandCount];
      PartitionedBase(nodes, sources, |stack.below|, s.operands, tokens);
      assert Top(s.ops) == top;
      stack.operatorTop := stack.operatorTop - 1;
      assert stack.operators[..stack.operatorTop] == Front(s.ops);
      if top.desc.tag == INVALID {
        return Done, Stacks(Front(s.ops), s.operands);
      }
      if stack.operandCount <= (if top.desc.isBinary then 1 else 0) {
        return Failed(if top.desc.isBinary then BinaryMissingOperand else UnaryMissingOperand), s;
      }
      if top.desc.isBinary {
        stack.operandCount := stack.operandCount - 1;
      }
      var last := stack.operandCount - 1;
      var info := Info(top.desc.tag, top.flags, top.source, []);
      var token;
      r, token := PushNode(stack.operandTokens[last], info);
      s' := s;
      if r.Full? { return; }
      s' := Operators.PopOperator(s).value;
      ApplyTop(nodes, sources, |stack.below|, s, tokens, pool.nodeBuilder, pool.sourceBuilder);
      AppendedPrefix(nodes, sources, pool.nodeBuilder, pool.sourceBuilder, tokens[last], info);
      stack.operandTokens[last] := token;
      assert stack.operandTokens[..stack.operandCount] == tokens[..last] + [token];
    }

    // Pops while the top gives way; `open` says whether an operator is left.
    method PopTo(stack: OperatorStack, ghost s: Stacks, precedence: nat, equal: bool)
      returns (r: Outcome, open: bool, ghost s': Stacks)
      requires Holds(stack, s)
      modifies stack, stack.operandTokens, pool`nodeBuilder, pool`sourceBuilder
      ensures pool.Valid()
      ensures r.Done? ==> Operators.PopTo(s, precedence, equal) == Ok(s') && Holds(stack, s') && open == (s'.ops != [])
      ensures r.Failed? ==> Operators.PopTo(s, precedence, equal) == Err(r.error)
      ensures r.Full? ==> Cramped()
    {
      hide Partitioned, Operators.PopOperator;
      s' := s;
      while stack.operatorTop != 0
        invariant Holds(stack, s') && Operators.PopTo(s', precedence, equal) == Operators.PopTo(s, precedence, equal)
        decreases stack.operatorTop
      {
        assert Top(s'.ops) == stack.operators[stack.operatorTop - 1];
        if !Pops(precedence, equal, stack.operators[stack.operatorTop - 1].desc) { return Done, true, s'; }
        ghost var before := s';
        r, s' := PopOperator(stack, s');
        if !r.Done? { return r, false, s'; }
      }
      r, open := Done, false;
    }

    method PopRemaining(stack: OperatorStack, ghost s: Stacks)
      returns (r: Outcome, token: nat, ghost t: Tree)
      requires Holds(stack, s)
      modifies stack, stack.operandTokens, pool`nodeBuilder, pool`sourceBuilder
      ensures pool.Valid()
      ensures r.Done? ==>
        Operators.PopRemaining(s) == Ok(t)
        && stack.below <= pool.nodeBuilder && stack.belowSources <= pool.sourceBuilder
      ensures r.Done? ==> Built(pool.nodeBuilder, pool.sourceBuilder, |stack.below|, t, token)
      ensures r.Failed? ==> Operators.PopRemaining(s) == Err(r.error)
      ensures r.Full? ==> Cramped()
    {
      hide Partitioned, Operators.PopOperator, Built;
      ghost var s' := s;
      while stack.operatorTop != 0
        invariant Holds(stack, s') && Operators.PopRemaining(s') == Operators.PopRemaining(s)
        decreases stack.operatorTop
      {
        r, s' := PopOperator(stack, s');
        if !r.Done? { return r, 0, Node(Info(0, 0, 0, []), Nil); }
      }
      r, token, t := Remaining(stack, s');
    }

    // Without operators there is one operand left, or something is missing.
    method Remaining(stack: OperatorStack, ghost s: Stacks)
      returns (r: Outcome, token: nat, ghost t: Tree)
      requires Holds(stack, s) && s.ops == []
      ensures |s.operands| == 1 ==>
        r.Done? && t == s.operands[0] && stack.below <= pool.nodeBuilder && stack.belowSources <= pool.sourceBuilder
      ensures |s.operands| == 1 ==> Built(pool.nodeBuilder, pool.sourceBuilder, |stack.below|, t, token)
      ensures |s.operands| != 1 ==> r == Failed(CountMismatch)
    {
      hide Partitioned, Built;
      if stack.operandCount != 1 { return Failed(CountMismatch), 0, Node(Info(0, 0, 0, []), Nil); }
      token := stack.operandTokens[0];
      t := s.operands[0];
      assert s.operands == [t] && stack.operandTokens[..1] == [token];
      RowOfOne(pool.nodeBuilder, pool.sourceBuilder, |stack.below|, t, [token]);
      r := Done;
    }

    // A complete subtree behind the row, which the stacks have not seen yet.
    method PushOperand(stack: OperatorStack, ghost s: Stacks, token: nat, ghost t: Tree, ghost nodes: seq<Cell>,
                       ghost sources: seq<nat>)
      returns (r: Outcome, ghost s': Stacks)
      requires pool.Valid() && stack.Represents(nodes, sources, s)
      requires nodes <= pool.nodeBuilder && sources <= pool.sourceBuilder
      requires Built(pool.nodeBuilder, pool.sourceBuilder, |nodes|, t, token)
      modifies stack, stack.operandTokens
      ensures r.Done? ==> Operators.PushOperand(s, t) == Ok(s') && Holds(stack, s')
      ensures r.Failed? ==> Operators.PushOperand(s, t) == Err(r.error)
      ensures !r.Full?
    {
      hide Partitioned, Built;
      s' := s;
      if stack.operandCount == MAX_OPERANDS { return Failed(TooManyOperands), s; }
      ghost var tokens := stack.operandTokens[..stack.operandCount];
      PushTree(nodes, sources, |stack.below|, s.operands, tokens, pool.nodeBuilder, pool.sourceBuilder, t, token);
      stack.operandTokens[stack.operandCount] := token;
      stack.operandCount := stack.operandCount + 1;
      assert stack.operandTokens[..stack.operandCount] == tokens + [token];
      s' := Stacks(s.ops, s.operands + [t]);
      r := Done;
    }

    method PushOperator(stack: OperatorStack, ghost s: Stacks, op: Pending)
      returns (r: Outcome, ghost s': Stacks)
      requires Holds(stack, s)
      modifies stack, stack.operators, stack.operandTokens, pool`nodeBuilder, pool`sourceBuilder
      ensures pool.Valid()
      ensures r.Done? ==> Operators.PushOperator(s, op) == Ok(s') && Holds(stack, s')
      ensures r.Failed? ==> Operators.PushOperator(s, op) == Err(r.error)
      ensures r.Full? ==> Cramped()
    {
      hide Partitioned, Operators.PopTo;
      s' := s;
      if op.desc.tag != INVALID {
        var open;
        r, open, s' := PopTo(stack, s, op.desc.precedence, op.desc.isRightToLeft);
        if !r.Done? { return; }
      }
      if stack.operatorTop == MAX_OPERATORS { return Failed(TooManyOperators), s'; }
      ghost var ops, tokens := s'.ops, stack.operandTokens[..stack.operandCount];
      stack.operators[stack.operatorTop] := op;
      stack.operatorTop := stack.operatorTop + 1;
      assert stack.operators[..stack.operatorTop] == ops + [op];
      assert stack.operandTokens[..stack.operandCount] == tokens;
      s' := Stacks(ops + [op], s'.operands);
      r := Done;
    }

    // The last operand becomes the first child of a new node, the trees behind it the others.
    method WrapOperand(stack: OperatorStack, ghost s: Stacks, info: Leaf, ghost more: Forest, ghost nodes: seq<Cell>,
                       ghost sources: seq<nat>)
      returns (r: Outcome, ghost s': Stacks)
      requires pool.Valid() && stack.Represents(nodes, sources, s) && s.operands != []
      requires nodes <= pool.nodeBuilder && sources <= pool.sourceBuilder
      requires ForestBuilt(pool.nodeBuilder, pool.sourceBuilder, |nodes|, more)
      modifies stack, stack.operandTokens, pool`nodeBuilder, pool`sourceBuilder
      ensures pool.Valid() && !r.Failed?
      ensures r.Done? ==> Wrap(s, info, more) == Ok(s') && Holds(stack, s')
      ensures r.Full? ==> Cramped()
    {
      hide Partitioned, Appended, ForestBuilt;
      s' := s;
      ghost var mid, midSources, tokens := pool.nodeBuilder, pool.sourceBuilder,
          stack.operandTokens[..stack.operandCount];
      var last := stack.operandCount - 1;
      var token;
      r, token := PushNode(stack.operandTokens[last], info);
      if r.Full? { return; }
      assert Top(tokens) == stack.operandTokens[last];
      WrapTop(nodes, sources, |stack.below|, s.operands, tokens, mid, midSources, more, pool.nodeBuilder,
        pool.sourceBuilder, info);
      AppendedPrefix(mid, midSources, pool.nodeBuilder, pool.sourceBuilder, Top(tokens), info);
      stack.operandTokens[last] := token;
      assert stack.operandTokens[..stack.operandCount] == Front(tokens) + [token];
      s' := Wrap(s, info, more).value;
    }

    // ---------- The loop ----------

    /** What a step of the loop owes to the same step on values. */
    ghost predicate Stepped(r: Outcome, was: nat, whole: Parsed<(Tree, nat)>, stack: OperatorStack, s: Stacks,
                            expecting: bool, complex: bool)
      reads this, pool, stack, stack.operators, stack.operandTokens
    {
      && Valid() && was <= pos
      && (r.Done? ==> was < pos && Holds(stack, s) && whole == Loop(input, pos, s, expecting, complex))
      && (r.Failed? ==> whole == Err(r.error))
      && (r.Full? ==> Cramped())
    }

    function Token(): Lexeme
      reads this
    {
      Peek(input, pos)
    }

    method PushLeaf(stack: OperatorStack, ghost s: Stacks, info: Leaf)
      returns (r: Outcome, ghost s': Stacks)
      requires Holds(stack, s)
      modifies stack, stack.operandTokens, pool`nodeBuilder, pool`sourceBuilder
      ensures pool.Valid()
      ensures r.Done? ==> Operators.PushOperand(s, Node(info, Nil)) == Ok(s') && Holds(stack, s')
      ensures r.Failed? ==> Operators.PushOperand(s, Node(info, Nil)) == Err(r.error)
      ensures r.Full? ==> Cramped()
    {
      hide Partitioned, Appended, Built;
      ghost var nodes, sources := pool.nodeBuilder, pool.sourceBuilder;
      s' := s;
      var token;
      r, token := PushNode(NO_CHILDREN, info);
      if r.Full? { return; }
      LeafBuilt(nodes, sources, pool.nodeBuilder, pool.sourceBuilder, info);
      AppendedPrefix(nodes, sources, pool.nodeBuilder, pool.sourceBuilder, NO_CHILDREN, info);
      r, s' := PushOperand(stack, s, token, Node(info, Nil), nodes, sources);
    }

    method AtPrefix(stack: OperatorStack, ghost s: Stacks, sign: nat, ghost complex: bool)
      returns (r: Outcome, ghost s': Stacks)
      requires Valid() && Holds(stack, s) && pos < |input| && IsUnary(sign)
      modifies this`pos, stack, stack.operators, stack.operandTokens, pool`nodeBuilder, pool`sourceBuilder
      ensures Stepped(r, old(pos), Operators.AtPrefix(input, old(pos), s, sign, complex), stack, s', true, complex)
    {
      hide Loop, Partitioned, Operators.PushOperator, Unary;
      var desc, source, flags := Unary(sign), Token().source, 0;
      pos := pos + 1;
      if desc.takesMut && Token().token.Mut? {
        flags := IS_MUT;
        pos := pos + 1;
      }
      r, s' := PushOperator(stack, s, Pending(desc, flags, source));
    }

    method AtImpliedMember(stack: OperatorStack, ghost s: Stacks, ghost complex: bool)
      returns (r: Outcome, ghost s': Stacks)
      requires Valid() && Holds(stack, s) && pos < |input|
      modifies this`pos, stack, stack.operandTokens, pool`nodeBuilder, pool`sourceBuilder
      ensures Stepped(r, old(pos), Operators.AtImpliedMember(input, old(pos), s, complex), stack, s', false, complex)
    {
      hide Loop, Partitioned, Operators.PushOperand;
      s' := s;
      var source := Token().source;
      pos := pos + 1;
      if !Token().token.Ident? { return Failed(ImpliedMemberToken), s; }
      r, s' := PushLeaf(stack, s, ImpliedInfo(Token().token.name, source));
      pos := pos + 1;
    }

    method AtArrayType(stack: OperatorStack, ghost s: Stacks, ghost complex: bool)
      returns (r: Outcome, ghost s': Stacks)
      requires Valid() && Holds(stack, s) && pos < |input|
      modifies this`pos, stack, stack.operators, stack.operandTokens, pool`nodeBuilder, pool`sourceBuilder
      ensures Stepped(r, old(pos), Operators.AtArrayType(input, old(pos), s, complex), stack, s', true, complex)
      decreases |input| - pos, 0
    {
      hide Loop, Partitioned, Built, Operators.PushOperator, Operators.PushOperand, Operators.ParseExpr;
      ghost var nodes, sources := pool.nodeBuilder, pool.sourceBuilder;
      s' := s;
      var source := Token().source;
      pos := pos + 1;
      var token;
      ghost var count;
      r, token, count := ParseExpr(false);
      if !r.Done? { return; }
      if !Token().token.BracketR? { return Failed(ArrayTypeToken), s; }
      r, s' := PushOperand(stack, s, token, count, nodes, sources);
      if !r.Done? { return; }
      r, s' := PushOperator(stack, s', Pending(ARRAY_TYPE, 0, source));
      pos := pos + 1;
    }

    // An operand, or a prefix operator in front of one.
    method AtOperand(stack: OperatorStack, ghost s: Stacks, ghost complex: bool)
      returns (r: Outcome, expecting: bool, ghost s': Stacks)
      requires Valid() && Holds(stack, s)
      modifies this`pos, stack, stack.operators, stack.operandTokens, pool`nodeBuilder, pool`sourceBuilder
      ensures Stepped(r, old(pos), Operators.AtOperand(input, old(pos), s, complex), stack, s', expecting, complex)
      decreases |input| - pos, 1
    {
      hide Loop, Partitioned, Operators.AtArrayType, Operators.AtPrefix, Operators.AtImpliedMember,
           Operators.PushOperand;
      var lexeme := Token();
      s', expecting := s, false;
      match lexeme.token
      case Ident(name) =>
        r, s' := PushLeaf(stack, s, IdentInfo(name, lexeme.source));
        pos := pos + 1;
      case Literal(info) =>
        r, s' := PushLeaf(stack, s, info);
        pos := pos + 1;
      case Dot =>
        r, s' := AtImpliedMember(stack, s, complex);
      case BracketL =>
        r, s' := AtArrayType(stack, s, complex);
        expecting := true;
      case Sign(sign) =>
        if !IsUnary(sign) { return Failed(ExpectOperand), false, s; }
        r, s' := AtPrefix(stack, s, sign, complex);
        expecting := true;
      case Construct => r := Failed(NotModelled);
      case _ => r := Failed(ExpectOperand);
    }

    /** Parses an expression. Whatever the tokens, success leaves exactly one complete subtree in
        the builder behind what was there, in postorder. */
    method ParseExpr(complex: bool)
      returns (r: Outcome, token: nat, ghost t: Tree)
      requires Valid()
      modifies this`pos, pool`nodeBuilder, pool`sourceBuilder
      ensures Valid() && old(pos) <= pos
      ensures r.Done? ==> Operators.ParseExpr(input, old(pos), complex) == Ok((t, pos))
      ensures r.Done? ==> old(pool.nodeBuilder) <= pool.nodeBuilder && old(pool.sourceBuilder) <= pool.sourceBuilder
      ensures r.Done? ==> Built(pool.nodeBuilder, pool.sourceBuilder, |old(pool.nodeBuilder)|, t, token)
      ensures r.Failed? ==> Operators.ParseExpr(input, old(pos), complex) == Err(r.error)
      ensures r.Full? ==> Cramped()
      decreases |input| - pos, 3
    {
      hide Partitioned, Built, Operators.AtOperand, Operators.AtOperator;
      var stack := new OperatorStack(pool.nodeBuilder, pool.sourceBuilder);
      ghost var s := Stacks([], []);
      assert Holds(stack, s) by { EmptyRow(pool.nodeBuilder, pool.sourceBuilder); }
      var expecting := true;
      t, token := Node(Info(0, 0, 0, []), Nil), 0;
      while true
        invariant Valid() && old(pos) <= pos && Holds(stack, s) && fresh(stack) && fresh(stack.operators)
        invariant fresh(stack.operandTokens)
        invariant Loop(input, pos, s, expecting, complex) == Operators.ParseExpr(input, old(pos), complex)
        decreases |input| - pos
      {
        if expecting {
          r, expecting, s := AtOperand(stack, s, complex);
          if !r.Done? { return; }
        } else {
          var finished;
          r, finished, expecting, token, s, t := AtOperator(stack, s, complex);
          if !r.Done? || finished { return; }
        }
      }
    }

    // ---------- Behind an operand ----------

    method AtMember(stack: OperatorStack, ghost s: Stacks, ghost complex: bool)
      returns (r: Outcome, ghost s': Stacks)
      requires Valid() && Holds(stack, s) && pos < |input| && s.operands != []
      modifies this`pos, stack, stack.operandTokens, pool`nodeBuilder, pool`sourceBuilder
      ensures Stepped(r, old(pos), Operators.AtMember(input, old(pos), s, complex), stack, s', false, complex)
    {
      hide Loop, Partitioned, ForestBuilt;
      s' := s;
      var source := Token().source;
      pos := pos + 1;
      if !Token().token.Ident? { return Failed(MemberToken), s; }
      PartitionedBase(pool.nodeBuilder, pool.sourceBuilder, |stack.below|, s.operands,
        stack.operandTokens[..stack.operandCount]);
      NothingMore(pool.nodeBuilder, pool.sourceBuilder);
      r, s' := WrapOperand(stack, s, MemberInfo(Token().token.name, source), Nil, pool.nodeBuilder, pool.sourceBuilder);
      pos := pos + 1;
    }

    method AtIndex(stack: OperatorStack, ghost s: Stacks, ghost complex: bool)
      returns (r: Outcome, ghost s': Stacks)
      requires Valid() && Holds(stack, s) && pos < |input| && s.operands != []
      modifies this`pos, stack, stack.operandTokens, pool`nodeBuilder, pool`sourceBuilder
      ensures Stepped(r, old(pos), Operators.AtIndex(input, old(pos), s, complex), stack, s', false, complex)
      decreases |input| - pos, 0
    {
      hide Loop, Partitioned, ForestBuilt, Built, Operators.ParseExpr;
      ghost var nodes, sources := pool.nodeBuilder, pool.sourceBuilder;
      s' := s;
      var source := Token().source;
      pos := pos + 1;
      if Token().token.DoubleDot? { return Failed(NotModelled), s; }
      var token;
      ghost var index;
      r, token, index := ParseExpr(false);
      if !r.Done? { return; }
      if Token().token.DoubleDot? { return Failed(NotModelled), s; }
      if !Token().token.BracketR? { return Failed(ArrayIndexToken), s; }
      OneMore(pool.nodeBuilder, pool.sourceBuilder, |nodes|, index, token);
      r, s' := WrapOperand(stack, s, IndexInfo(source), One(index), nodes, sources);
      pos := pos + 1;
    }

    /** The arguments of a call: a row of complete subtrees behind the callee's. */
    method Arguments()
      returns (r: Outcome, ghost args: Forest)
      requires Valid()
      modifies this`pos, pool`nodeBuilder, pool`sourceBuilder
      ensures Valid() && old(pos) <= pos
      ensures r.Done? ==> Operators.Arguments(input, old(pos)) == Ok((args, pos))
      ensures r.Done? ==> old(pool.nodeBuilder) <= pool.nodeBuilder && old(pool.sourceBuilder) <= pool.sourceBuilder
      ensures r.Done? ==> ForestBuilt(pool.nodeBuilder, pool.sourceBuilder, |old(pool.nodeBuilder)|, args)
      ensures r.Failed? ==> Operators.Arguments(input, old(pos)) == Err(r.error)
      ensures r.Full? ==> Cramped()
      decreases |input| - pos, 4
    {
      hide ForestBuilt, Built, Operators.ParseExpr, Joined;
      args := Nil;
      NothingMore(pool.nodeBuilder, pool.sourceBuilder);
      NothingJoined(Operators.Arguments(input, pos));
      while !Token().token.ParenR?
        invariant Valid() && old(pos) <= pos
        invariant old(pool.nodeBuilder) <= pool.nodeBuilder && old(pool.sourceBuilder) <= pool.sourceBuilder
        invariant ForestBuilt(pool.nodeBuilder, pool.sourceBuilder, |old(pool.nodeBuilder)|, args)
        invariant Operators.Arguments(input, old(pos)) == Behind(args, Operators.Arguments(input, pos))
        decreases |input| - pos, if Token().token.ParenR? then 0 else 1
      {
        var token := Token().token;
        if token.Mut? || token.Definition? || (token.Ident?
            && Peek(input, pos + 1).token.Colon?) { return Failed(NotModelled), args; }
        ghost var was, nodes, sources, before := pos, pool.nodeBuilder, pool.sourceBuilder, args;
        var argToken;
        ghost var arg;
        r, argToken, arg := ParseExpr(true);
        if !r.Done? { return; }
        args := Joined(before, One(arg));
        ForestAppend(nodes, sources, |old(pool.nodeBuilder)|, before, pool.nodeBuilder, pool.sourceBuilder, arg,
          argToken);
        if Token().token.Comma? {
          BehindComma(input, was, pos, before, arg);
          pos := pos + 1;
        } else if !Token().token.ParenR? {
          return Failed(CallToken), args;
        } else {
          BehindParen(input, was, pos, before, arg);
        }
      }
      JoinedNothing(args);
      r := Done;
    }

    method AtCall(stack: OperatorStack, ghost s: Stacks, ghost complex: bool)
      returns (r: Outcome, ghost s': Stacks)
      requires Valid() && Holds(stack, s) && pos < |input| && s.operands != []
      modifies this`pos, stack, stack.operandTokens, pool`nodeBuilder, pool`sourceBuilder
      ensures Stepped(r, old(pos), Operators.AtCall(input, old(pos), s, complex), stack, s', false, complex)
      decreases |input| - pos, 0
    {
      hide Loop, Partitioned, ForestBuilt, Operators.Arguments;
      ghost var nodes, sources := pool.nodeBuilder, pool.sourceBuilder;
      s' := s;
      var source := Token().source;
      pos := pos + 1;
      ghost var args;
      r, args := Arguments();
      if !r.Done? { return; }
      r, s' := WrapOperand(stack, s, CallInfo(source), args, nodes, sources);
      pos := pos + 1;
    }

    // Member access, index or call: all of them bind tightest.
    method AtSuffix(stack: OperatorStack, ghost s: Stacks, ghost complex: bool)
      returns (r: Outcome, ghost s': Stacks)
      requires Valid() && Holds(stack, s) && (Token().token == Sign(PAREN_L) || Token().token.BracketL?
          || Token().token.Dot?)
      modifies this`pos, stack, stack.operators, stack.operandTokens, pool`nodeBuilder, pool`sourceBuilder
      ensures Stepped(r, old(pos), Operators.AtOperator(input, old(pos), s, complex), stack, s', false, complex)
      decreases |input| - pos, 1, 0
    {
      hide Loop, Partitioned, Operators.PopTo, Operators.AtMember, Operators.AtIndex, Operators.AtCall;
      var open;
      r, open, s' := PopTo(stack, s, 1, true);
      if !r.Done? { return; }
      if stack.operandCount == 0 { return Failed(CountMismatch), s'; }
      if Token().token.Dot? {
        r, s' := AtMember(stack, s', complex);
      } else if Token().token.BracketL? {
        r, s' := AtIndex(stack, s', complex);
      } else {
        r, s' := AtCall(stack, s', complex);
      }
    }

    /** What the last step of the loop owes to the same step on values. */
    ghost predicate Finished(r: Outcome, whole: Parsed<(Tree, nat)>, stack: OperatorStack, token: nat, t: Tree)
      reads this, pool, stack
    {
      && Valid()
      && (r.Done? ==>
            whole == Ok((t, pos)) && stack.below <= pool.nodeBuilder && stack.belowSources <= pool.sourceBuilder
            && Built(pool.nodeBuilder, pool.sourceBuilder, |stack.below|, t, token))
      && (r.Failed? ==> whole == Err(r.error))
      && (r.Full? ==> Cramped())
    }

    method AtParenR(stack: OperatorStack, ghost s: Stacks, ghost complex: bool)
      returns (r: Outcome, finished: bool, token: nat, ghost s': Stacks, ghost t: Tree)
      requires Valid() && Holds(stack, s) && pos < |input|
      modifies this`pos, stack, stack.operators, stack.operandTokens, pool`nodeBuilder, pool`sourceBuilder
      ensures pos >= old(pos)
      ensures !finished ==>
        Stepped(r, old(pos), Operators.AtParenR(input, old(pos), s, complex), stack, s', false, complex)
      ensures finished ==> Finished(r, Operators.AtParenR(input, old(pos), s, complex), stack, token, t)
    {
      hide Loop, Partitioned, Built, Operators.PopTo;
      finished, token, t := false, 0, Node(Info(0, 0, 0, []), Nil);
      var open;
      r, open, s' := PopTo(stack, s, 10, false);
      if !r.Done? { return; }
      if !open {
        finished := true;
        r, token, t := Remaining(stack, s');
        return;
      }
      stack.operatorTop := stack.operatorTop - 1;
      assert stack.operators[..stack.operatorTop] == Front(s'.ops);
      s' := Stacks(Front(s'.ops), s'.operands);
      pos := pos + 1;
    }

    // Behind an operand: an operator, something that wraps the operand, or the end.
    method AtOperator(stack: OperatorStack, ghost s: Stacks, complex: bool)
      returns (r: Outcome, finished: bool, expecting: bool, token: nat, ghost s': Stacks, ghost t: Tree)
      requires Valid() && Holds(stack, s)
      modifies this`pos, stack, stack.operators, stack.operandTokens, pool`nodeBuilder, pool`sourceBuilder
      ensures pos >= old(pos)
      ensures !finished ==>
        Stepped(r, old(pos), Operators.AtOperator(input, old(pos), s, complex), stack, s', expecting, complex)
      ensures finished ==> Finished(r, Operators.AtOperator(input, old(pos), s, complex), stack, token, t)
      decreases |input| - pos, 1
    {
      hide Loop, Partitioned, Built, Operators.PopTo, Operators.PushOperator, Operators.PopRemaining,
           Operators.AtParenR, Binary;
      finished, expecting, token, s', t := false, false, 0, s, Node(Info(0, 0, 0, []), Nil);
      var kind := Token().token;
      if kind == Sign(PAREN_L) || kind.BracketL? || kind.Dot? {
        r, s' := AtSuffix(stack, s, complex);
      } else if kind.ParenR? {
        r, finished, token, s', t := AtParenR(stack, s, complex);
      } else if kind.Suffix? {
        r := Failed(NotModelled);
      } else if kind.Sign? && IsBinary(kind.ordinal) && (complex || kind.ordinal != ASSIGN) {
        expecting := Binary(kind.ordinal).isBinary;
        r, s' := PushOperator(stack, s, Pending(Binary(kind.ordinal), 0, Token().source));
        pos := pos + 1;
      } else {
        finished := true;
        r, token, t := PopRemaining(stack, s);
      }
    }
  }

  // ---------- Rows of arguments ----------

  // The arguments read so far in front of the others.
  function Behind(args: Forest, rest: Parsed<(Forest, nat)>): Parsed<(Forest, nat)> {
    match rest
    case Err(e) => Err(e)
    case Ok((more, end)) => Ok((Joined(args, more), end))
  }

  lemma NothingJoined(rest: Parsed<(Forest, nat)>)
    ensures Behind(Nil, rest) == rest
  {
  }

  lemma BehindComma(input: seq<Lexeme>, pos: nat, end: nat, args: Forest, arg: Tree)
    requires pos <= end < |input| && input[end].token.Comma? && !Peek(input, pos).token.ParenR?
    requires Operators.ParseExpr(input, pos, true) == Ok((arg, end))
    requires !(Peek(input, pos).token.Mut? || Peek(input, pos).token.Definition?
      || (Peek(input, pos).token.Ident? && Peek(input, pos + 1).token.Colon?))
    ensures Behind(args, Operators.Arguments(input, pos))
      == Behind(Joined(args, One(arg)), Operators.Arguments(input, end + 1))
  {
    hide Operators.ParseExpr;
    var rest := Operators.Arguments(input, end + 1);
    if rest.Ok? { JoinedTwice(args, arg, rest.value.0); }
  }

  lemma BehindParen(input: seq<Lexeme>, pos: nat, end: nat, args: Forest, arg: Tree)
    requires pos <= end < |input| && input[end].token.ParenR? && !Peek(input, pos).token.ParenR?
    requires Operators.ParseExpr(input, pos, true) == Ok((arg, end))
    requires !(Peek(input, pos).token.Mut? || Peek(input, pos).token.Definition?
      || (Peek(input, pos).token.Ident? && Peek(input, pos + 1).token.Colon?))
    ensures Behind(args, Operators.Arguments(input, pos))
      == Behind(Joined(args, One(arg)), Operators.Arguments(input, end))
  {
    hide Operators.ParseExpr;
    JoinedTwice(args, arg, Nil);
  }

  lemma EmptyRow(nodes: seq<Cell>, sources: seq<nat>)
    requires |nodes| == |sources|
    ensures Partitioned(nodes, sources, |nodes|, [], [])
  {
  }

  // The operator on top takes its operands from the end of the row.
  lemma ApplyTop(nodes: seq<Cell>, sources: seq<nat>, base: nat, s: Stacks, tokens: seq<nat>, nodes': seq<Cell>,
                 sources': seq<nat>)
    requires Partitioned(nodes, sources, base, s.operands, tokens) && |nodes| < NO_CHILDREN && |tokens| == |s.operands|
    requires s.ops != [] && Top(s.ops).desc.tag != INVALID && |s.operands| > (if Top(s.ops).desc.isBinary then 1 else 0)
    requires var op := Top(s.ops);
      Appended(nodes, sources, nodes', sources', tokens[if op.desc.isBinary then |tokens| - 2 else |tokens| - 1],
          Info(op.desc.tag, op.flags, op.source, []))
    ensures Operators.PopOperator(s).Ok?
    ensures Partitioned(nodes', sources', base, Operators.PopOperator(s).value.operands,
      tokens[..if Top(s.ops).desc.isBinary then |tokens| - 2 else |tokens| - 1] + [|nodes|])
  {
    hide Partitioned, Appended;
    var op := Top(s.ops);
    var info := Info(op.desc.tag, op.flags, op.source, []);
    if op.desc.isBinary {
      JoinTop(nodes, sources, base, s.operands, tokens, nodes', sources', info);
    } else {
      PartitionedBase(nodes, sources, base, s.operands, tokens);
      NothingMore(nodes, sources);
      WrapTop(nodes, sources, base, s.operands, tokens, nodes, sources, Nil, nodes', sources', info);
    }
  }
}
