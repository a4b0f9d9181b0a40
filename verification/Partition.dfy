/** The builder as a row of complete subtrees, one for each operand token. */
module Partition {
  import opened Basics
  import opened Ast
  import opened Operators

  /** The builder ends with the postorder of `t`, which starts at `base`. */
  ghost predicate Built(nodes: seq<Cell>, sources: seq<nat>, base: nat, t: Tree, token: nat) {
    && |nodes| == |sources| == base + Qwords(t) && token == RootAt(t, base)
    && Laid(nodes, base, t, Raw, true, true, NO_CHILDREN) && SourcesLaid(sources, base, t)
  }

  ghost predicate ForestBuilt(nodes: seq<Cell>, sources: seq<nat>, base: nat, f: Forest) {
    && |nodes| == |sources| == base + ForestQwords(f)
    && ForestLaid(nodes, base, f, Raw, false, NO_CHILDREN) && ForestSourcesLaid(sources, base, f)
  }

  /** From `base` on, the builder holds the operands' subtrees, contiguous and in order; their
      tokens are the indices of their roots. */
  ghost predicate Partitioned(nodes: seq<Cell>, sources: seq<nat>, base: nat, operands: seq<Tree>, tokens: seq<nat>)
    decreases |operands|
  {
    && |nodes| == |sources| && |operands| == |tokens|
    && if operands == [] then |nodes| == base
       else
         var b := |nodes| - Qwords(Top(operands));
         && base <= b && Built(nodes, sources, b, Top(operands), Top(tokens))
         && Partitioned(nodes[..b], sources[..b], base, Front(operands), Front(tokens))
  }

  // In the builder as pushed, sibling flags are not set yet.
  lemma RawFlags(nodes: seq<Cell>, base: nat, t: Tree, first: bool, last: bool, first': bool, last': bool)
    requires Laid(nodes, base, t, Raw, first, last, NO_CHILDREN)
    ensures Laid(nodes, base, t, Raw, first', last', NO_CHILDREN)
  {
  }

  lemma {:induction false} SourcesFrame(a: seq<nat>, b: seq<nat>, base: nat, t: Tree)
    requires SourcesLaid(a, base, t) && base + Qwords(t) <= |a| && a <= b
    ensures SourcesLaid(b, base, t)
    decreases t, 1
  {
    ForestSourcesFrame(a, b, base, t.kids);
  }

  lemma {:induction false} ForestSourcesFrame(a: seq<nat>, b: seq<nat>, base: nat, f: Forest)
    requires ForestSourcesLaid(a, base, f) && base + ForestQwords(f) <= |a| && a <= b
    ensures ForestSourcesLaid(b, base, f)
    decreases f, 0
  {
    match f
    case Nil =>
    case Cons(h, tl) =>
      SourcesFrame(a, b, base, h);
      ForestSourcesFrame(a, b, base + Qwords(h), tl);
  }

  // The record that a push appends.
  ghost predicate Appended(nodes: seq<Cell>, sources: seq<nat>, nodes': seq<Cell>, sources': seq<nat>, firstChild: nat,
                           info: Info) {
    && nodes <= nodes' && sources <= sources' && |nodes'| == |sources'| == |nodes| + info.Own()
    && RecordAt(nodes', |nodes|, Header(info.tag, info.flags, info.Own(),
        Structure(false, false, firstChild == NO_CHILDREN), firstChild), info.attachment)
    && sources'[|nodes|] == info.source
  }

  /** A leaf stands for itself. */
  lemma LeafBuilt(nodes: seq<Cell>, sources: seq<nat>, nodes': seq<Cell>, sources': seq<nat>, info: Info)
    requires |nodes| == |sources| && Appended(nodes, sources, nodes', sources', NO_CHILDREN, info)
    ensures Built(nodes', sources', |nodes|, Node(info, Nil), |nodes|)
  {
  }

  /** A node pushed behind its children, with its first child's token, completes their tree. */
  lemma ParentBuilt(first: seq<Cell>, firstSources: seq<nat>, base: nat, t: Tree, token: nat,
                    nodes: seq<Cell>, sources: seq<nat>, more: Forest, nodes': seq<Cell>, sources': seq<nat>,
                        info: Info)
    requires Built(first, firstSources, base, t, token) && first <= nodes && firstSources <= sources
    requires ForestBuilt(nodes, sources, |first|, more) && |first| < NO_CHILDREN
    requires Appended(nodes, sources, nodes', sources', token, info)
    ensures Built(nodes', sources', base, Node(info, Cons(t, more)), |nodes|)
  {
    hide Laid, ForestLaid, SourcesLaid, ForestSourcesLaid;
    var b := base + Qwords(t);
    LaidFrame(first, nodes', base, t, Raw, true, true, NO_CHILDREN);
    RawFlags(nodes', base, t, true, true, true, more.Nil?);
    ForestLaidFrame(nodes, nodes', b, more, Raw, false, NO_CHILDREN);
    SourcesFrame(firstSources, sources', base, t);
    ForestSourcesFrame(sources, sources', b, more);
    Parent(nodes', sources', base, t, more, info);
  }

  lemma Parent(nodes: seq<Cell>, sources: seq<nat>, base: nat, t: Tree, more: Forest, info: Info)
    requires Laid(nodes, base, t, Raw, true, more.Nil?, NO_CHILDREN)
    requires ForestLaid(nodes, base + Qwords(t), more, Raw, false, NO_CHILDREN)
    requires SourcesLaid(sources, base, t) && ForestSourcesLaid(sources, base + Qwords(t), more)
    requires |nodes| == |sources| == base + Qwords(t) + ForestQwords(more) + info.Own()
    requires RecordAt(nodes, base + Qwords(t) + ForestQwords(more),
      Header(info.tag, info.flags, info.Own(), Structure(false, false, false), RootAt(t, base)), info.attachment)
    requires sources[base + Qwords(t) + ForestQwords(more)] == info.source
    ensures Built(nodes, sources, base, Node(info, Cons(t, more)), base + Qwords(t) + ForestQwords(more))
  {
    hide RecordAt, Laid, ForestLaid, SourcesLaid, ForestSourcesLaid, Qwords, ForestQwords;
    KidsLaid(nodes, sources, base, t, more);
    NodeLaid(nodes, sources, base, Node(info, Cons(t, more)));
  }

  lemma KidsLaid(nodes: seq<Cell>, sources: seq<nat>, base: nat, t: Tree, more: Forest)
    requires Laid(nodes, base, t, Raw, true, more.Nil?, NO_CHILDREN)
    requires ForestLaid(nodes, base + Qwords(t), more, Raw, false, NO_CHILDREN)
    requires SourcesLaid(sources, base, t) && ForestSourcesLaid(sources, base + Qwords(t), more)
    ensures ForestLaid(nodes, base, Cons(t, more), Raw, true, NO_CHILDREN)
    ensures ForestSourcesLaid(sources, base, Cons(t, more))
    ensures ForestQwords(Cons(t, more)) == Qwords(t) + ForestQwords(more)
  {
    hide Laid, SourcesLaid, Qwords;
  }

  lemma NodeLaid(nodes: seq<Cell>, sources: seq<nat>, base: nat, t: Tree)
    requires t.kids.Cons? && ForestLaid(nodes, base, t.kids, Raw, true, NO_CHILDREN)
    requires ForestSourcesLaid(sources, base, t.kids)
    requires |nodes| == |sources| == base + ForestQwords(t.kids) + t.info.Own()
    requires sources[RootAt(t, base)] == t.info.source
    requires RecordAt(nodes, RootAt(t, base),
      Header(t.info.tag, t.info.flags, t.info.Own(), Structure(false, false, false), RootAt(t.kids.head, base)),
          t.info.attachment)
    ensures Built(nodes, sources, base, t, RootAt(t, base))
  {
    hide ForestLaid, ForestSourcesLaid, ForestQwords, RecordAt;
  }

  // ---------- Operations on the row ----------

  lemma PartitionedBase(nodes: seq<Cell>, sources: seq<nat>, base: nat, operands: seq<Tree>, tokens: seq<nat>)
    requires Partitioned(nodes, sources, base, operands, tokens)
    ensures base <= |nodes| == |sources| && |operands| == |tokens|
  {
  }

  /** A complete subtree behind the row is one more operand. */
  lemma PushTree(nodes: seq<Cell>, sources: seq<nat>, base: nat, operands: seq<Tree>, tokens: seq<nat>,
                 nodes': seq<Cell>, sources': seq<nat>, t: Tree, token: nat)
    requires Partitioned(nodes, sources, base, operands, tokens)
    requires nodes <= nodes' && sources <= sources' && Built(nodes', sources', |nodes|, t, token)
    ensures Partitioned(nodes', sources', base, operands + [t], tokens + [token])
  {
    hide Built;
    PartitionedBase(nodes, sources, base, operands, tokens);
    BuiltSize(nodes', sources', |nodes|, t, token);
    assert Front(operands + [t]) == operands && Front(tokens + [token]) == tokens;
    assert nodes'[..|nodes|] == nodes && sources'[..|nodes|] == sources;
  }

  lemma BuiltSize(nodes: seq<Cell>, sources: seq<nat>, base: nat, t: Tree, token: nat)
    requires Built(nodes, sources, base, t, token)
    ensures |nodes| == |sources| == base + Qwords(t) && token < |nodes|
  {
  }

  /** A node pushed behind the last operand and the trees `more` after it takes them as children. */
  lemma WrapTop(nodes: seq<Cell>, sources: seq<nat>, base: nat, operands: seq<Tree>, tokens: seq<nat>,
                mid: seq<Cell>, midSources: seq<nat>, more: Forest, nodes': seq<Cell>, sources': seq<nat>, info: Info)
    requires Partitioned(nodes, sources, base, operands, tokens) && operands != [] && |mid| < NO_CHILDREN
    requires nodes <= mid && sources <= midSources && ForestBuilt(mid, midSources, |nodes|, more)
    requires Appended(mid, midSources, nodes', sources', Top(tokens), info)
    ensures Partitioned(nodes', sources', base, Front(operands) + [Node(info, Cons(Top(operands), more))],
        Front(tokens) + [|mid|])
  {
    hide Built, ForestBuilt, Appended, Partitioned, Qwords;
    RowTop(nodes, sources, base, operands, tokens);
    var b := |nodes| - Qwords(Top(operands));
    ParentBuilt(nodes, sources, b, Top(operands), Top(tokens), mid, midSources, more, nodes', sources', info);
    AppendedPrefix(mid, midSources, nodes', sources', Top(tokens), info);
    assert nodes[..b] <= nodes' && sources[..b] <= sources';
    PushTree(nodes[..b], sources[..b], base, Front(operands), Front(tokens), nodes', sources', Node(info,
      Cons(Top(operands), more)), |mid|);
  }

  lemma RowTop(nodes: seq<Cell>, sources: seq<nat>, base: nat, operands: seq<Tree>, tokens: seq<nat>)
    requires Partitioned(nodes, sources, base, operands, tokens) && operands != []
    ensures |nodes| == |sources| && |operands| == |tokens| && base <= |nodes| - Qwords(Top(operands))
    ensures Built(nodes, sources, |nodes| - Qwords(Top(operands)), Top(operands), Top(tokens))
    ensures Partitioned(nodes[..|nodes| - Qwords(Top(operands))], sources[..|nodes| - Qwords(Top(operands))], base,
        Front(operands), Front(tokens))
  {
  }

  lemma AppendedPrefix(nodes: seq<Cell>, sources: seq<nat>, nodes': seq<Cell>, sources': seq<nat>, firstChild: nat,
                       info: Info)
    requires Appended(nodes, sources, nodes', sources', firstChild, info)
    ensures nodes <= nodes' && sources <= sources' && |nodes'| == |sources'|
  {
  }

  lemma NothingMore(nodes: seq<Cell>, sources: seq<nat>)
    requires |nodes| == |sources|
    ensures ForestBuilt(nodes, sources, |nodes|, Nil)
  {
  }

  lemma OneMore(nodes: seq<Cell>, sources: seq<nat>, base: nat, t: Tree, token: nat)
    requires Built(nodes, sources, base, t, token)
    ensures ForestBuilt(nodes, sources, base, One(t))
  {
    hide Laid, SourcesLaid;
    RawFlags(nodes, base, t, true, true, false, true);
    OneForest(nodes, sources, base, t);
  }

  lemma OneForest(nodes: seq<Cell>, sources: seq<nat>, base: nat, t: Tree)
    requires Laid(nodes, base, t, Raw, false, true, NO_CHILDREN) && SourcesLaid(sources, base, t)
    ensures ForestLaid(nodes, base, One(t), Raw, false, NO_CHILDREN) && ForestSourcesLaid(sources, base, One(t))
    ensures ForestQwords(One(t)) == Qwords(t)
  {
    hide Laid, SourcesLaid, Qwords;
    assert ForestSourcesLaid(sources, base + Qwords(t), Nil);
    assert ForestLaid(nodes, base + Qwords(t), Nil, Raw, false, NO_CHILDREN);
  }

  /** The two last operands become one. */
  lemma JoinTop(nodes: seq<Cell>, sources: seq<nat>, base: nat, operands: seq<Tree>, tokens: seq<nat>,
                nodes': seq<Cell>, sources': seq<nat>, info: Info)
    requires Partitioned(nodes, sources, base, operands, tokens) && |operands| >= 2 && |nodes| < NO_CHILDREN
    requires |tokens| == |operands|
    requires Appended(nodes, sources, nodes', sources', tokens[|tokens| - 2], info)
    ensures Partitioned(nodes', sources', base,
      operands[..|operands| - 2] + [Node(info, Cons(operands[|operands| - 2], One(Top(operands))))],
          tokens[..|tokens| - 2] + [|nodes|])
  {
    hide Built, ForestBuilt, Appended, Partitioned, Qwords;
    RowTop(nodes, sources, base, operands, tokens);
    var b := |nodes| - Qwords(Top(operands));
    OneMore(nodes, sources, b, Top(operands), Top(tokens));
    assert Top(Front(tokens)) == tokens[|tokens| - 2] && Top(Front(operands)) == operands[|operands| - 2];
    assert Front(Front(operands)) == operands[..|operands| - 2] && Front(Front(tokens)) == tokens[..|tokens| - 2];
    WrapTop(nodes[..b], sources[..b], base, Front(operands), Front(tokens), nodes, sources, One(Top(operands)), nodes',
      sources', info);
  }

  function Joined(f: Forest, g: Forest): Forest {
    match f
    case Nil => g
    case Cons(h, tl) => Cons(h, Joined(tl, g))
  }

  lemma {:induction false} JoinedTwice(f: Forest, t: Tree, g: Forest)
    ensures Joined(Joined(f, One(t)), g) == Joined(f, Cons(t, g))
    decreases f
  {
    match f
    case Nil =>
    case Cons(_, tl) => JoinedTwice(tl, t, g);
  }

  lemma {:induction false} JoinedNothing(f: Forest)
    ensures Joined(f, Nil) == f
    decreases f
  {
    match f
    case Nil =>
    case Cons(_, tl) => JoinedNothing(tl);
  }

  /** One more tree behind a forest. */
  lemma {:induction false} ForestAppend(nodes: seq<Cell>, sources: seq<nat>, base: nat, f: Forest,
                     nodes': seq<Cell>, sources': seq<nat>, t: Tree, token: nat)
    requires ForestBuilt(nodes, sources, base, f) && nodes <= nodes' && sources <= sources'
    requires Built(nodes', sources', |nodes|, t, token)
    ensures ForestBuilt(nodes', sources', base, Joined(f, One(t)))
    decreases f
  {
    hide Laid, SourcesLaid;
    match f
    case Nil => OneMore(nodes', sources', base, t, token);
    case Cons(h, tl) =>
      ForestAppend(nodes, sources, base + Qwords(h), tl, nodes', sources', t, token);
      LaidFrame(nodes, nodes', base, h, Raw, false, tl.Nil?, NO_CHILDREN);
      RawFlags(nodes', base, h, false, tl.Nil?, false, false);
      SourcesFrame(sources, sources', base, h);
  }

  // The only operand is a complete tree.
  lemma RowOfOne(nodes: seq<Cell>, sources: seq<nat>, base: nat, t: Tree, tokens: seq<nat>)
    requires Partitioned(nodes, sources, base, [t], tokens)
    ensures |tokens| == 1 && Built(nodes, sources, base, t, tokens[0])
  {
    RowTop(nodes, sources, base, [t], tokens);
    assert Front([t]) == [];
  }
}
