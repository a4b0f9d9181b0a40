/** Pushing any tree, node by node in postorder, and completing it. */
module TreeBuilder {
  import opened Ast
  import opened AstPool
  import opened Partition

  // Attachments fit into the eight bits the pool has for the size of a node.
  predicate Storable(t: Tree)
    decreases t
  {
    |t.info.attachment| < 255 && ForestStorable(t.kids)
  }

  predicate ForestStorable(f: Forest)
    decreases f
  {
    match f
    case Nil => true
    case Cons(h, tl) => Storable(h) && ForestStorable(tl)
  }

  // A subtree and the siblings behind it.
  lemma ForestPrepend(first: seq<Cell>, firstSources: seq<nat>, base: nat, t: Tree, token: nat,
                      nodes: seq<Cell>, sources: seq<nat>, f: Forest)
    requires Built(first, firstSources, base, t, token) && first <= nodes && firstSources <= sources
    requires ForestBuilt(nodes, sources, |first|, f)
    ensures ForestBuilt(nodes, sources, base, Cons(t, f))
  {
    hide Laid, SourcesLaid;
    LaidFrame(first, nodes, base, t, Raw, true, true, NO_CHILDREN);
    RawFlags(nodes, base, t, true, true, false, f.Nil?);
    SourcesFrame(firstSources, sources, base, t);
  }

  lemma BuiltHolds(pool: AstPool, t: Tree, token: nat)
    requires Built(pool.nodeBuilder, pool.sourceBuilder, 0, t, token)
    ensures pool.Holds(t)
  {
  }

  /** The children from left to right, then the node itself. */
  method PushTree(pool: AstPool, t: Tree) returns (token: nat)
    requires pool.Valid() && Storable(t) && |pool.nodeBuilder| + Qwords(t) <= BUILDER_CAPACITY
    modifies pool`nodeBuilder, pool`sourceBuilder
    ensures pool.Valid() && old(pool.nodeBuilder) <= pool.nodeBuilder && old(pool.sourceBuilder) <= pool.sourceBuilder
    ensures Built(pool.nodeBuilder, pool.sourceBuilder, |old(pool.nodeBuilder)|, t, token)
    decreases t, 1
  {
    hide Built, ForestBuilt;
    ghost var nodes, sources := pool.nodeBuilder, pool.sourceBuilder;
    match t.kids
    case Nil =>
      token := pool.PushNode(NO_CHILDREN, t.info);
      LeafBuilt(nodes, sources, pool.nodeBuilder, pool.sourceBuilder, t.info);
    case Cons(first, rest) =>
      var firstChild := PushTree(pool, first);
      ghost var mid, midSources := pool.nodeBuilder, pool.sourceBuilder;
      BuiltSize(mid, midSources, |nodes|, first, firstChild);
      PushSiblings(pool, rest);
      ghost var all, allSources := pool.nodeBuilder, pool.sourceBuilder;
      ForestSize(all, allSources, |mid|, rest);
      token := pool.PushNode(firstChild, t.info);
      ParentBuilt(mid, midSources, |nodes|, first, firstChild, all, allSources, rest, pool.nodeBuilder,
        pool.sourceBuilder, t.info);
  }

  method PushSiblings(pool: AstPool, f: Forest)
    requires pool.Valid() && ForestStorable(f) && |pool.nodeBuilder| + ForestQwords(f) <= BUILDER_CAPACITY
    modifies pool`nodeBuilder, pool`sourceBuilder
    ensures pool.Valid() && old(pool.nodeBuilder) <= pool.nodeBuilder && old(pool.sourceBuilder) <= pool.sourceBuilder
    ensures ForestBuilt(pool.nodeBuilder, pool.sourceBuilder, |old(pool.nodeBuilder)|, f)
    decreases f, 0
  {
    hide Built, ForestBuilt;
    ghost var nodes, sources := pool.nodeBuilder, pool.sourceBuilder;
    match f
    case Nil => NothingMore(nodes, sources);
    case Cons(h, tl) =>
      ghost var token := PushTree(pool, h);
      ghost var mid, midSources := pool.nodeBuilder, pool.sourceBuilder;
      BuiltSize(mid, midSources, |nodes|, h, token);
      PushSiblings(pool, tl);
      ForestPrepend(mid, midSources, |nodes|, h, token, pool.nodeBuilder, pool.sourceBuilder, tl);
  }

  lemma ForestSize(nodes: seq<Cell>, sources: seq<nat>, base: nat, f: Forest)
    requires ForestBuilt(nodes, sources, base, f)
    ensures |nodes| == |sources| == base + ForestQwords(f)
  {
  }

  /** Any tree that fits, pushed into an empty builder and completed, is stored in preorder behind
      what the pool held; the conversion panics exactly for too many open sibling lists. */
  method PushAndComplete(pool: AstPool, t: Tree) returns (panicked: bool, root: nat)
    requires pool.Valid() && pool.nodeBuilder == [] && pool.sourceBuilder == []
    requires Storable(t) && Qwords(t) <= BUILDER_CAPACITY
        && (Height(t) <= MAX_AST_DEPTH || OpenLists(t) > MAX_AST_DEPTH)
    modifies pool
    ensures pool.Valid() && (panicked <==> OpenLists(t) > MAX_AST_DEPTH)
    ensures !panicked ==>
      && root == |old(pool.nodes)| && |pool.nodes| == root + Qwords(t)
      && pool.nodes[..root] == old(pool.nodes) && pool.sources[..root] == old(pool.sources)
      && Stored(pool.nodes[root..], 0, t, true, true) && SourcesStored(pool.sources[root..], 0, t)
      && pool.nodeBuilder == [] && pool.sourceBuilder == []
  {
    hide Built, Stored, SourcesStored, Laid, SourcesLaid;
    ghost var token := PushTree(pool, t);
    BuiltHolds(pool, t, token);
    panicked, root := pool.CompleteAst(t);
  }
}
