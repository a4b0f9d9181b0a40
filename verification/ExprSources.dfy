/** Where the nodes of a parsed tree come from: every node is made once, from tokens that were
    read before, and stays as it was made. */
module ExprSources {
  import opened Basics
  import opened Ast
  import opened Operators

  // ---------- Nodes and sources of a tree ----------

  function Sources(t: Tree): set<nat>
    decreases t
  {
    {t.info.source} + ForestSources(t.kids)
  }

  function ForestSources(f: Forest): set<nat>
    decreases f
  {
    match f
    case Nil => {}
    case Cons(h, tl) => Sources(h) + ForestSources(tl)
  }

  // `u` is `t` or one of its descendants.
  predicate Has(t: Tree, u: Tree)
    decreases t
  {
    t == u || ForestHas(t.kids, u)
  }

  predicate ForestHas(f: Forest, u: Tree)
    decreases f
  {
    match f
    case Nil => false
    case Cons(h, tl) => Has(h, u) || ForestHas(tl, u)
  }

  lemma {:induction false} HasSources(t: Tree, u: Tree)
    requires Has(t, u)
    ensures Sources(u) <= Sources(t)
    decreases t
  {
    if t != u { ForestHasSources(t.kids, u); }
  }

  lemma {:induction false} ForestHasSources(f: Forest, u: Tree)
    requires ForestHas(f, u)
    ensures Sources(u) <= ForestSources(f)
    decreases f
  {
    if Has(f.head, u) { HasSources(f.head, u); } else { ForestHasSources(f.tail, u); }
  }

  lemma {:induction false} HasTrans(t: Tree, u: Tree, v: Tree)
    requires Has(t, u) && Has(u, v)
    ensures Has(t, v)
    decreases t
  {
    if t != u { ForestHasTrans(t.kids, u, v); }
  }

  lemma {:induction false} ForestHasTrans(f: Forest, u: Tree, v: Tree)
    requires ForestHas(f, u) && Has(u, v)
    ensures ForestHas(f, v)
    decreases f
  {
    if Has(f.head, u) { HasTrans(f.head, u, v); } else { ForestHasTrans(f.tail, u, v); }
  }

  // ---------- Sources of tokens ----------

  // The source a node made from this token has.
  function SourceOf(l: Lexeme): nat {
    if l.token.Literal? then l.token.info.source else l.source
  }

  function Tokens(input: seq<Lexeme>, from: nat, to: nat): set<nat>
    requires to <= |input|
  {
    set i | from <= i < to :: SourceOf(input[i])
  }

  /** Different tokens have different sources. */
  ghost predicate Distinct(input: seq<Lexeme>) {
    forall i, j | 0 <= i < j < |input| :: SourceOf(input[i]) != SourceOf(input[j])
  }

  lemma TokensMore(input: seq<Lexeme>, from: nat, to: nat, from': nat, to': nat)
    requires from' <= from && to <= to' <= |input|
    ensures Tokens(input, from, to) <= Tokens(input, from', to')
  {
  }

  lemma NotYet(input: seq<Lexeme>, from: nat, to: nat, i: nat)
    requires Distinct(input) && to <= i < |input|
    ensures SourceOf(input[i]) !in Tokens(input, from, to)
  {
  }

  lemma TokensApart(input: seq<Lexeme>, lo: nat, pos: nat, pos': nat)
    requires Distinct(input) && lo <= pos <= pos' <= |input|
    ensures Tokens(input, lo, pos) !! Tokens(input, pos, pos')
  {
  }

  // ---------- The stacks ----------

  ghost predicate OnStack(s: Stacks, u: Tree) {
    exists t :: t in s.operands && Has(t, u)
  }

  ghost predicate KnownOp(op: Pending) {
    (exists sign :: IsUnary(sign) && op.desc == Unary(sign))
        || (exists sign :: IsBinary(sign) && op.desc == Binary(sign))
    || op.desc == ARRAY_TYPE
  }

  // No operator waits twice, and none has a node yet.
  ghost predicate Waiting(s: Stacks) {
    && (forall i, j | 0 <= i < j < |s.ops| :: s.ops[i].source != s.ops[j].source)
    && (forall i, t | 0 <= i < |s.ops| && t in s.operands :: s.ops[i].source !in Sources(t))
  }

  ghost predicate SourcesWithin(a: set<nat>, s: Stacks) {
    && (forall t | t in s.operands :: Sources(t) <= a)
    && (forall i | 0 <= i < |s.ops| :: s.ops[i].source in a)
  }

  /** Everything on the stacks has one of the sources `a`. */
  ghost predicate Clean(a: set<nat>, s: Stacks) {
    SourcesWithin(a, s) && Waiting(s) && forall i | 0 <= i < |s.ops| :: KnownOp(s.ops[i])
  }

  // The node of the operator `k` of `s` has been made, before those of the operators below it.
  ghost predicate Made(s: Stacks, k: nat, u: Tree)
    requires k < |s.ops|
  {
    u.info.source == s.ops[k].source && forall i | 0 <= i < k :: s.ops[i].source !in Sources(u)
  }

  ghost predicate StillWaits(s: Stacks, k: nat, s': Stacks)
    requires k < |s.ops|
  {
    k < |s'.ops| && s'.ops[..k + 1] == s.ops[..k + 1]
  }

  ghost predicate OpMoves(s: Stacks, k: nat, s': Stacks)
    requires k < |s.ops|
  {
    s.ops[k].desc.tag == INVALID || StillWaits(s, k, s') || exists u :: OnStack(s', u) && Made(s, k, u)
  }

  /** From `s` to `s'` nodes stay as they are, and operators go from the top. */
  ghost predicate Moves(s: Stacks, s': Stacks) {
    && (forall u | OnStack(s, u) :: OnStack(s', u))
    && (forall k | 0 <= k < |s.ops| :: OpMoves(s, k, s'))
  }

  lemma MovesTrans(a: Stacks, b: Stacks, c: Stacks)
    requires Moves(a, b) && Moves(b, c)
    ensures Moves(a, c)
  {
    hide OnStack;
    forall k | 0 <= k < |a.ops|
      ensures OpMoves(a, k, c)
    {
      assert OpMoves(a, k, b);
      if a.ops[k].desc.tag != INVALID && StillWaits(a, k, b) {
        WaitsOn(a, k, b, c);
      }
    }
  }

  lemma WaitsOn(a: Stacks, k: nat, b: Stacks, c: Stacks)
    requires k < |a.ops| && StillWaits(a, k, b) && OpMoves(b, k, c)
    ensures OpMoves(a, k, c)
  {
    hide OnStack;
    forall i | 0 <= i <= k
      ensures a.ops[i] == b.ops[i]
    {
      assert a.ops[..k + 1][i] == b.ops[..k + 1][i];
    }
    if StillWaits(b, k, c) {
      assert StillWaits(a, k, c);
    } else if b.ops[k].desc.tag != INVALID {
      var u :| OnStack(c, u) && Made(b, k, u);
      assert Made(a, k, u);
    }
  }

  lemma MovesSelf(s: Stacks)
    ensures Moves(s, s)
  {
    forall k | 0 <= k < |s.ops|
      ensures OpMoves(s, k, s)
    {
      assert StillWaits(s, k, s);
    }
  }

  // More operators or operands on top.
  lemma MovesUp(s: Stacks, s': Stacks)
    requires s.ops <= s'.ops && s.operands <= s'.operands
    ensures Moves(s, s')
  {
    forall u | OnStack(s, u)
      ensures OnStack(s', u)
    {
      var t :| t in s.operands && Has(t, u);
      assert t in s'.operands;
    }
    forall k | 0 <= k < |s.ops|
      ensures OpMoves(s, k, s')
    {
      assert s'.ops[..k + 1] == s'.ops[..|s.ops|][..k + 1];
      assert StillWaits(s, k, s');
    }
  }

  // ---------- What the operations on the stacks do ----------

  // `node` replaces the operands from `n` on.
  lemma Joined(s: Stacks, n: nat, node: Tree, ops: seq<Pending>)
    requires n <= |s.operands| && s.ops != [] && ops == Front(s.ops)
    requires forall i | n <= i < |s.operands| :: ForestHas(node.kids, s.operands[i])
    requires node.info.source == Top(s.ops).source
    requires forall i | 0 <= i < |ops| :: ops[i].source !in Sources(node)
    ensures Moves(s, Stacks(ops, s.operands[..n] + [node]))
  {
    hide Sources;
    var s' := Stacks(ops, s.operands[..n] + [node]);
    assert s'.operands[n] == node;
    forall u | OnStack(s, u)
      ensures OnStack(s', u)
    {
      var i :| 0 <= i < |s.operands| && Has(s.operands[i], u);
      if i < n {
        assert s'.operands[i] == s.operands[i];
      } else {
        ForestHasTrans(node.kids, s.operands[i], u);
        assert Has(node, u);
      }
    }
    forall k | 0 <= k < |s.ops|
      ensures OpMoves(s, k, s')
    {
      if k < |ops| {
        assert StillWaits(s, k, s');
      } else {
        assert Has(node, node) && OnStack(s', node);
        assert Made(s, k, node);
      }
    }
  }

  // The node made of an operator and its operands.
  lemma NodeClean(a: set<nat>, s: Stacks, n: nat, node: Tree)
    requires Clean(a, s) && s.ops != [] && n <= |s.operands| && node.info.source == Top(s.ops).source
    requires forall x | x in ForestSources(node.kids) ::
      exists i :: n <= i < |s.operands| && x in Sources(s.operands[i])
    ensures Clean(a, Stacks(Front(s.ops), s.operands[..n] + [node]))
    ensures forall i | 0 <= i < |s.ops| - 1 :: s.ops[i].source !in Sources(node)
  {
    hide KnownOp;
    var s' := Stacks(Front(s.ops), s.operands[..n] + [node]);
    var top := |s.ops| - 1;
    forall x | x in Sources(node)
      ensures x in a && forall i | 0 <= i < top :: s.ops[i].source != x
    {
      if x != node.info.source {
        assert x in ForestSources(node.kids);
        var i :| n <= i < |s.operands| && x in Sources(s.operands[i]);
        assert s.operands[i] in s.operands;
      } else {
        assert s.ops[top].source == x;
      }
    }
    forall t | t in s'.operands
      ensures Sources(t) <= a && forall i | 0 <= i < top :: s.ops[i].source !in Sources(t)
    {
      if t != node { assert t in s.operands; }
    }
  }

  lemma PopMoves(a: set<nat>, s: Stacks)
    requires Clean(a, s) && s.ops != [] && PopOperator(s).Ok?
    ensures Clean(a, PopOperator(s).value) && Moves(s, PopOperator(s).value)
    ensures PopOperator(s).value.ops == Front(s.ops)
  {
    hide Clean;
    var op, n := Top(s.ops), |s.operands|;
    if op.desc.tag == INVALID {
      DropMoves(a, s);
    } else if op.desc.isBinary {
      var l, r := s.operands[n - 2], s.operands[n - 1];
      var node := BinaryNode(op, l, r);
      PairSources(s, node, l, r);
      NodeClean(a, s, n - 2, node);
      Joined(s, n - 2, node, Front(s.ops));
    } else {
      var t := s.operands[n - 1];
      var node := UnaryNode(op, t);
      OneSources(s, node, t);
      NodeClean(a, s, n - 1, node);
      Joined(s, n - 1, node, Front(s.ops));
    }
  }

  lemma DropMoves(a: set<nat>, s: Stacks)
    requires Clean(a, s) && s.ops != [] && Top(s.ops).desc.tag == INVALID
    ensures Clean(a, Stacks(Front(s.ops), s.operands)) && Moves(s, Stacks(Front(s.ops), s.operands))
  {
    hide KnownOp;
    var s' := Stacks(Front(s.ops), s.operands);
    forall k | 0 <= k < |s.ops|
      ensures OpMoves(s, k, s')
    {
      if k < |s.ops| - 1 { assert StillWaits(s, k, s'); }
    }
    assert forall u | OnStack(s, u) :: OnStack(s', u);
  }

  lemma PairSources(s: Stacks, node: Tree, l: Tree, r: Tree)
    requires |s.operands| >= 2 && l == s.operands[|s.operands| - 2] && r == s.operands[|s.operands| - 1]
    requires node.kids == Cons(l, One(r))
    ensures forall x | x in ForestSources(node.kids) ::
      exists i :: |s.operands| - 2 <= i < |s.operands| && x in Sources(s.operands[i])
    ensures ForestHas(node.kids, l) && ForestHas(node.kids, r)
  {
    assert ForestSources(node.kids) == Sources(l) + ForestSources(One(r)) && ForestSources(One(r)) == Sources(r) + {};
    assert Has(l, l) && Has(r, r) && ForestHas(One(r), r);
  }

  lemma OneSources(s: Stacks, node: Tree, t: Tree)
    requires |s.operands| >= 1 && t == s.operands[|s.operands| - 1] && node.kids == One(t)
    ensures forall x | x in ForestSources(node.kids) ::
      exists i :: |s.operands| - 1 <= i < |s.operands| && x in Sources(s.operands[i])
    ensures ForestHas(node.kids, t)
  {
    assert ForestSources(node.kids) == Sources(t) + {};
    assert Has(t, t);
  }

  lemma {:induction false} PopToMoves(a: set<nat>, s: Stacks, precedence: nat, equal: bool)
    requires Clean(a, s) && PopTo(s, precedence, equal).Ok?
    ensures var s' := PopTo(s, precedence, equal).value;
      && Clean(a, s') && Moves(s, s') && s'.ops <= s.ops
      && (forall k | |s'.ops| <= k < |s.ops| :: Pops(precedence, equal, s.ops[k].desc))
      && (s'.ops == [] || !Pops(precedence, equal, Top(s'.ops).desc))
    decreases |s.ops|
  {
    hide Clean, Moves, PopOperator, Pops;
    if s.ops == [] || !Pops(precedence, equal, Top(s.ops).desc) {
      MovesSelf(s);
    } else {
      PopMoves(a, s);
      var s1 := PopOperator(s).value;
      PopToMoves(a, s1, precedence, equal);
      MovesTrans(s, s1, PopTo(s, precedence, equal).value);
    }
  }

  // More sources are allowed.
  lemma CleanMore(a: set<nat>, a': set<nat>, s: Stacks)
    requires Clean(a, s) && a <= a'
    ensures Clean(a', s)
  {
    hide KnownOp, Waiting, Sources;
  }

  // An operand made of something else.
  lemma OperandClean(a: set<nat>, b: set<nat>, s: Stacks, t: Tree)
    requires Clean(a, s) && a !! b && Sources(t) <= b
    ensures Clean(a + b, Stacks(s.ops, s.operands + [t])) && Moves(s, Stacks(s.ops, s.operands + [t]))
  {
    hide KnownOp, Sources, Moves;
    var s' := Stacks(s.ops, s.operands + [t]);
    forall i, u | 0 <= i < |s.ops| && u in s'.operands
      ensures s.ops[i].source !in Sources(u)
    {
      if u !in s.operands { assert u == t; }
    }
    MovesUp(s, s');
  }

  lemma OperatorClean(a: set<nat>, s: Stacks, op: Pending)
    requires Clean(a, s) && KnownOp(op) && op.source !in a
    ensures Clean(a + {op.source}, Stacks(s.ops + [op], s.operands)) && Moves(s, Stacks(s.ops + [op], s.operands))
  {
    hide KnownOp, Sources, Moves;
    MovesUp(s, Stacks(s.ops + [op], s.operands));
  }

  // The last operand becomes the first child of a new node.
  lemma WrapClean(a: set<nat>, b: set<nat>, s: Stacks, info: Info, more: Forest)
    requires Clean(a, s) && s.operands != [] && a !! b && {info.source} + ForestSources(more) <= b
    ensures Clean(a + b, Wrap(s, info, more).value) && Moves(s, Wrap(s, info, more).value)
    ensures OnStack(Wrap(s, info, more).value, Node(info, Cons(Top(s.operands), more)))
    ensures Waiting(Wrap(s, info, more).value)
  {
    hide KnownOp, Moves, OnStack;
    var t, s' := Top(s.operands), Wrap(s, info, more).value;
    var node := Node(info, Cons(t, more));
    assert Sources(node) == {info.source} + (Sources(t) + ForestSources(more));
    hide Sources;
    forall u | u in s'.operands
      ensures Sources(u) <= a + b && forall i | 0 <= i < |s.ops| :: s.ops[i].source !in Sources(u)
    {
      if u != node { assert u in s.operands; } else { assert t in s.operands; }
    }
    WrapMoves(s, info, more);
  }

  lemma WrapMoves(s: Stacks, info: Info, more: Forest)
    requires s.operands != []
    ensures Moves(s, Wrap(s, info, more).value)
    ensures OnStack(Wrap(s, info, more).value, Node(info, Cons(Top(s.operands), more)))
  {
    var t, s' := Top(s.operands), Wrap(s, info, more).value;
    var node := Node(info, Cons(t, more));
    assert s'.operands[|s.operands| - 1] == node && Has(node, node) && Has(t, t);
    forall u | OnStack(s, u)
      ensures OnStack(s', u)
    {
      var i :| 0 <= i < |s.operands| && Has(s.operands[i], u);
      if i < |s.operands| - 1 { assert s'.operands[i] == s.operands[i]; }
          else { assert ForestHas(node.kids, u) && Has(node, u); }
    }
    forall k | 0 <= k < |s.ops|
      ensures OpMoves(s, k, s')
    {
      assert StillWaits(s, k, s');
    }
  }
}
