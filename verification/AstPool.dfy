/** The pool itself: pushing nodes in postorder and completing a tree in place. */
module AstPool {
  import opened Basics
  import opened Ast
  import opened AstFlags
  import opened AstThreading
  import opened AstCopy

  // Where the records of a postorder builder end: no record crosses its tree's end.
  lemma {:induction false} RecordsNest(t: Tree, cells: seq<Cell>, base: nat, stage: Stage, first: bool, last: bool,
                                       link: nat, i: nat)
    requires Laid(cells, base, t, stage, first, last, link)
    requires base <= i < base + Qwords(t) && HeaderAt(cells, i)
    ensures i < RootAt(t, base) ==> i + cells[i].own <= RootAt(t, base)
    ensures i >= RootAt(t, base) ==> i == RootAt(t, base)
    decreases t, 1
  {
    if i < RootAt(t, base) {
      ForestRecordsNest(t.kids, cells, base, stage, true, link, i);
    } else if i > RootAt(t, base) {
      assert false;
    }
  }

  lemma {:induction false} ForestRecordsNest(f: Forest, cells: seq<Cell>, base: nat, stage: Stage, first: bool,
                                             link: nat, i: nat)
    requires ForestLaid(cells, base, f, stage, first, link)
    requires base <= i < base + ForestQwords(f) && HeaderAt(cells, i)
    ensures i + cells[i].own <= base + ForestQwords(f)
    decreases f, 0
  {
    var h, tl, rest := f.head, f.tail, base + Qwords(f.head);
    if i < rest {
      RecordsNest(h, cells, base, stage, first, tl.Nil?, SiblingLink(tl, rest, stage, link), i);
    } else {
      ForestRecordsNest(tl, cells, rest, stage, false, link, i);
    }
  }

  class AstPool {
    var nodeBuilder: seq<Cell>
    var sourceBuilder: seq<nat>
    var nodes: seq<Cell>
    var sources: seq<nat>

    ghost predicate Valid()
      reads this
    {
      && |nodeBuilder| == |sourceBuilder| <= BUILDER_CAPACITY
      && |nodes| == |sources|
    }

    // The builder holds exactly the postorder of `t`, as pushed.
    ghost predicate Holds(t: Tree)
      reads this
    {
      && |nodeBuilder| == Qwords(t)
      && Laid(nodeBuilder, 0, t, Raw, true, true, NO_CHILDREN)
      && SourcesLaid(sourceBuilder, 0, t)
    }

    constructor ()
      ensures Valid() && nodeBuilder == [] && nodes == []
    {
      nodeBuilder, sourceBuilder, nodes, sources := [], [], [], [];
    }

    /** Appends one node. `firstChild` is the token of its first child, whose siblings and
        their descendants are everything pushed since. */
    method PushNode(firstChild: nat, info: Info) returns (token: nat)
      requires Valid()
      requires |info.attachment| < 255 && |nodeBuilder| + info.Own() <= BUILDER_CAPACITY
      modifies this`nodeBuilder, this`sourceBuilder
      ensures Valid() && token == |old(nodeBuilder)|
      ensures |nodeBuilder| == token + info.Own()
      ensures nodeBuilder[..token] == old(nodeBuilder) && sourceBuilder[..token] == old(sourceBuilder)
      ensures RecordAt(nodeBuilder, token,
                       Header(info.tag, info.flags, info.Own(), Structure(false, false, firstChild == NO_CHILDREN),
                           firstChild),
                       info.attachment)
      ensures sourceBuilder[token] == info.source
    {
      token := |nodeBuilder|;
      var own := 1 + |info.attachment|;
      var header := Header(info.tag, info.flags, own, Structure(false, false, firstChild == NO_CHILDREN), firstChild);
      var words := seq(|info.attachment|, i requires 0 <= i < |info.attachment| => Word(info.attachment[i]));
      nodeBuilder := nodeBuilder + [header] + words;
      sourceBuilder := sourceBuilder + [info.source] + seq(|info.attachment|, i => 0);
    }

    // First pass, in place.
    method SetFlags(ghost t: Tree)
      requires Valid() && Holds(t)
      modifies this`nodeBuilder
      ensures Valid() && |nodeBuilder| == Qwords(t)
      ensures Laid(nodeBuilder, 0, t, Flagged, true, true, NO_CHILDREN)
    {
      hide Laid;
      ghost var start := nodeBuilder;
      FlagWhole(t, start);
      var end := |nodeBuilder|;
      var prev := -1;
      var curr := 0;
      while curr != end
        invariant 0 <= curr <= end == |nodeBuilder| == |start|
        invariant curr > 0 ==> 0 <= prev < end
        invariant FlagRun(FlagState(nodeBuilder, prev), curr, end) == FlagRun(FlagState(start, -1), 0, end)
        decreases end - curr
      {
        var next := curr + nodeBuilder[curr].own;
        var kid := nodeBuilder[curr].next;
        if kid != NO_CHILDREN {
          assert prev != -1;
          nodeBuilder := nodeBuilder[kid := nodeBuilder[kid].(structure := nodeBuilder[kid].structure.(first := true))];
          nodeBuilder :=
            nodeBuilder[prev := nodeBuilder[prev].(structure := nodeBuilder[prev].structure.(last := true))];
        }
        prev := curr;
        curr := next;
      }
      ghost var marked := nodeBuilder;
      nodeBuilder := nodeBuilder[prev := nodeBuilder[prev].(structure := nodeBuilder[prev].structure.(first := true,
          last := true))];
      assert nodeBuilder == SetLast(SetFirst(marked, prev), prev);
    }

    // The index stack of the second pass: entries 0 to `depth` of the array are in use.
    ghost function Threading(prevSiblings: array<nat>, depth: int, lastLeaf: nat): ThreadState
      requires -1 <= depth < prevSiblings.Length
      reads this, prevSiblings
    {
      ThreadState(nodeBuilder, prevSiblings[..depth + 1], lastLeaf)
    }

    // One iteration of the second pass.
    method ThreadNode(prevSiblings: array<nat>, depth: int, lastLeaf: nat, curr: nat)
      returns (panicked: bool, depth': int, lastLeaf': nat)
      requires curr < |nodeBuilder|
      requires -1 <= depth < prevSiblings.Length == MAX_AST_DEPTH
      requires !ThreadStep(Threading(prevSiblings, depth, lastLeaf), curr).AssertionFailed?
      modifies this`nodeBuilder, prevSiblings
      ensures panicked == old(ThreadStep(Threading(prevSiblings, depth, lastLeaf), curr)).Panic?
      ensures -1 <= depth' < MAX_AST_DEPTH && |nodeBuilder| == |old(nodeBuilder)|
      ensures !panicked ==>
                old(ThreadStep(Threading(prevSiblings, depth, lastLeaf), curr))
                    == Ok(Threading(prevSiblings, depth', lastLeaf'))
    {
      ghost var stack := prevSiblings[..depth + 1];
      panicked, depth', lastLeaf' := false, depth, lastLeaf;
      var at := nodeBuilder[curr].structure;
      if !at.first {
        assert depth >= 0 && prevSiblings[depth] == Top(stack);
        var prevSibling := prevSiblings[depth];
        nodeBuilder := nodeBuilder[prevSibling := nodeBuilder[prevSibling].(next := curr)];
      }
      if !at.last {
        if at.first {
          if depth + 1 >= MAX_AST_DEPTH {
            panicked := true;
            return;
          }
          depth' := depth + 1;
        }
        assert depth' >= 0;
        if !at.leaf {
          assert lastLeaf != NO_CHILDREN;
          prevSiblings[depth'] := lastLeaf;
        } else {
          prevSiblings[depth'] := curr;
        }
        assert prevSiblings[..depth' + 1] == (if at.first then stack else Front(stack)) + [prevSiblings[depth']];
      } else {
        if !at.first {
          assert depth >= 0;
          depth' := depth - 1;
          assert prevSiblings[..depth' + 1] == Front(stack);
        }
        if at.leaf {
          lastLeaf' := curr;
        }
      }
    }

    // Second pass, in place. Returns the index of the root, from which the list starts.
    method BuildTraversalList(ghost t: Tree) returns (panicked: bool, root: nat)
      requires Valid() && |nodeBuilder| == Qwords(t)
      requires Laid(nodeBuilder, 0, t, Flagged, true, true, NO_CHILDREN)
      modifies this`nodeBuilder
      ensures Valid() && |nodeBuilder| == Qwords(t)
      ensures panicked <==> OpenLists(t) > MAX_AST_DEPTH
      ensures !panicked ==> root == RootAt(t, 0) && Laid(nodeBuilder, 0, t, Threaded, true, true, NO_CHILDREN)
    {
      hide Laid, ThreadStep;
      ghost var start := nodeBuilder;
      ThreadWhole(t, start);
      var end := |nodeBuilder|;
      var prevSiblings := new nat[MAX_AST_DEPTH];
      var depth: int := -1;
      var recursivelyLastChild: nat := NO_CHILDREN;
      root := 0;
      assert prevSiblings[..0] == [];
      while true
        invariant 0 <= root < end == |nodeBuilder| == |start|
        invariant -1 <= depth < MAX_AST_DEPTH
        invariant ThreadRun(Threading(prevSiblings, depth, recursivelyLastChild), root, end)
               == ThreadRun(ThreadState(start, [], NO_CHILDREN), 0, end)
        invariant fresh(prevSiblings)
        decreases end - root
      {
        panicked, depth, recursivelyLastChild := ThreadNode(prevSiblings, depth, recursivelyLastChild, root);
        if panicked {
          return;
        }
        var next := root + nodeBuilder[root].own;
        if next == end {
          break;
        }
        root := next;
      }
      assert depth == -1;
      RecordsNest(t, nodeBuilder, 0, Threaded, true, true, NO_CHILDREN, root);
    }

    // The inner loop of the third pass: entering a node that is not a first sibling fills in
    // the size of every node up to its previous sibling. `to` is where the tree starts.
    method CompleteUpToSibling(prevSiblings: array<nat>, depth: int, to: nat, dstIndex: nat, ghost size: nat)
      returns (depth': int)
      requires -1 <= depth < prevSiblings.Length && to + size <= |nodes|
      requires Complete(nodes[to..to + size], prevSiblings[..depth + 1], dstIndex).Ok?
      modifies this`nodes
      ensures -1 <= depth' <= depth
      ensures |nodes| == |old(nodes)| && nodes[..to] == old(nodes)[..to]
      ensures nodes[to + size..] == old(nodes)[to + size..]
      ensures Complete(old(nodes)[to..to + size], prevSiblings[..depth + 1], dstIndex)
           == Ok(CopyState(nodes[to..to + size], prevSiblings[..depth' + 1]))
    {
      depth' := depth;
      while true
        invariant -1 <= depth' <= depth
        invariant |nodes| == |old(nodes)| && nodes[..to] == old(nodes)[..to]
        invariant nodes[to + size..] == old(nodes)[to + size..]
        invariant Complete(old(nodes)[to..to + size], prevSiblings[..depth + 1], dstIndex)
               == Complete(nodes[to..to + size], prevSiblings[..depth' + 1], dstIndex)
        decreases depth'
      {
        assert depth' > 0;
        ghost var dst, stack := nodes[to..to + size], prevSiblings[..depth' + 1];
        var prevSibling := prevSiblings[depth'];
        depth' := depth' - 1;
        nodes := nodes[to + prevSibling := nodes[to + prevSibling].(next := dstIndex - prevSibling)];
        assert nodes[to..to + size] == SetNext(dst, prevSibling, dstIndex - prevSibling);
        assert prevSiblings[..depth' + 1] == Front(stack);
        if !nodes[to + prevSibling].structure.last {
          break;
        }
      }
    }

    // The loop after the copying: fills in the sizes of the nodes that are still open.
    method CompleteRest(prevSiblings: array<nat>, depth: int, to: nat, size: nat)
      requires -1 <= depth < prevSiblings.Length && to + size <= |nodes|
      requires Drain(nodes[to..to + size], prevSiblings[..depth + 1], size).Ok?
      modifies this`nodes
      ensures |nodes| == |old(nodes)| && nodes[..to] == old(nodes)[..to]
      ensures Drain(old(nodes)[to..to + size], prevSiblings[..depth + 1], size) == Ok(nodes[to..to + size])
    {
      var depth' := depth;
      while depth' >= 0
        invariant -1 <= depth' <= depth
        invariant |nodes| == |old(nodes)| && nodes[..to] == old(nodes)[..to]
        invariant Drain(old(nodes)[to..to + size], prevSiblings[..depth + 1], size)
               == Drain(nodes[to..to + size], prevSiblings[..depth' + 1], size)
      {
        ghost var dst, stack := nodes[to..to + size], prevSiblings[..depth' + 1];
        var prevSibling := prevSiblings[depth'];
        depth' := depth' - 1;
        nodes := nodes[to + prevSibling := nodes[to + prevSibling].(next := size - prevSibling)];
        assert nodes[to..to + size] == SetNext(dst, prevSibling, size - prevSibling);
        assert prevSiblings[..depth' + 1] == Front(stack);
      }
      assert prevSiblings[..0] == [];
    }

    // One iteration of the third pass: copies the node at `srcIndex` to `dstIndex`.
    method CopyNode(prevSiblings: array<nat>, depth: int, to: nat, dstIndex: nat, srcIndex: nat) returns (depth': int)
      requires HeaderAt(nodeBuilder, srcIndex) && srcIndex < |sourceBuilder|
      requires -1 <= depth < prevSiblings.Length == MAX_AST_DEPTH
      requires to + dstIndex + nodeBuilder[srcIndex].own <= |nodes| == |sources| && nodeBuilder[srcIndex].own > 0
      requires CopyStep(nodeBuilder, CopyState(nodes[to..to + dstIndex], prevSiblings[..depth + 1]), srcIndex).Ok?
      modifies this`nodes, this`sources, prevSiblings
      ensures -1 <= depth' < MAX_AST_DEPTH
      ensures |nodes| == |old(nodes)| && nodes[..to] == old(nodes)[..to]
      ensures old(CopyStep(nodeBuilder, CopyState(nodes[to..to + dstIndex], prevSiblings[..depth + 1]), srcIndex))
           == Ok(CopyState(nodes[to..to + dstIndex + nodeBuilder[srcIndex].own], prevSiblings[..depth' + 1]))
      ensures sources == old(sources)[to + dstIndex := sourceBuilder[srcIndex]]
    {
      hide Complete;
      depth' := depth;
      var own := nodeBuilder[srcIndex].own;
      ghost var dst, stack := nodes[to..to + dstIndex], prevSiblings[..depth + 1];
      nodes := nodes[..to + dstIndex] + nodeBuilder[srcIndex..srcIndex + own] + nodes[to + dstIndex + own..];
      assert nodes[to..to + (dstIndex + own)] == dst + nodeBuilder[srcIndex..srcIndex + own];
      sources := sources[to + dstIndex := sourceBuilder[srcIndex]];
      if !nodeBuilder[srcIndex].structure.first {
        depth' := CompleteUpToSibling(prevSiblings, depth, to, dstIndex, dstIndex + own);
      }
      assert depth' + 1 < MAX_AST_DEPTH;
      ghost var below := prevSiblings[..depth' + 1];
      depth' := depth' + 1;
      prevSiblings[depth'] := dstIndex;
      assert prevSiblings[..depth' + 1] == below + [dstIndex];
    }

    // What the rest of the third pass, over the nodes `order`, is still going to do.
    ghost function Copying(order: seq<nat>, prevSiblings: array<nat>, depth: int, to: nat,
        dstIndex: nat): (r: (Outcome<CopyState>, Outcome<seq<nat>>))
      requires -1 <= depth < prevSiblings.Length && to + dstIndex <= |nodes| && to <= |sources|
      reads this, prevSiblings
    {
      (CopyRun(nodeBuilder, CopyState(nodes[to..to + dstIndex], prevSiblings[..depth + 1]), order),
       SourceRun(nodeBuilder, sourceBuilder, sources[to..], order, dstIndex))
    }

    // The same iteration, as progress along the list.
    method CopyNext(ghost order: seq<nat>, prevSiblings: array<nat>, depth: int, to: nat, dstIndex: nat, srcIndex: nat)
      returns (depth': int)
      requires Valid() && order != [] && srcIndex == order[0]
      requires -1 <= depth < prevSiblings.Length == MAX_AST_DEPTH && to + dstIndex <= |nodes|
      requires Copying(order, prevSiblings, depth, to, dstIndex).0.Ok?
      requires Copying(order, prevSiblings, depth, to, dstIndex).1.Ok?
      modifies this`nodes, this`sources, prevSiblings
      ensures -1 <= depth' < MAX_AST_DEPTH && HeaderAt(nodeBuilder, srcIndex)
      ensures |nodes| == |old(nodes)| == |sources| && nodes[..to] == old(nodes)[..to]
      ensures sources[..to] == old(sources)[..to]
      ensures to + dstIndex + nodeBuilder[srcIndex].own <= |nodes|
      ensures Copying(order[1..], prevSiblings, depth', to, dstIndex + nodeBuilder[srcIndex].own)
           == old(Copying(order, prevSiblings, depth, to, dstIndex))
    {
      hide Complete, CopyStep;
      ghost var start := sources[to..];
      assert order == [srcIndex] + order[1..];
      SourceRunStep(nodeBuilder, sourceBuilder, start, srcIndex, order[1..], dstIndex);
      CopyRunStep(nodeBuilder, CopyState(nodes[to..to + dstIndex], prevSiblings[..depth + 1]), srcIndex, order[1..]);
      depth' := CopyNode(prevSiblings, depth, to, dstIndex, srcIndex);
      assert sources[to..] == start[dstIndex := sourceBuilder[srcIndex]];
    }

    // The copying loop: follows the list from `root` to its end.
    method CopyList(prevSiblings: array<nat>, root: nat, to: nat, ghost order: seq<nat>)
      returns (depth: int, dstIndex: nat)
      requires Valid() && order != [] && root == order[0] && to <= |nodes|
      requires Chained(nodeBuilder, order, NO_CHILDREN) && Within(order, 0, |nodeBuilder|)
      requires prevSiblings.Length == MAX_AST_DEPTH
      requires Copying(order, prevSiblings, -1, to, 0).0.Ok? && Copying(order, prevSiblings, -1, to, 0).1.Ok?
      modifies this`nodes, this`sources, prevSiblings
      ensures -1 <= depth < MAX_AST_DEPTH && to + dstIndex <= |nodes| == |old(nodes)| == |sources|
      ensures nodes[..to] == old(nodes)[..to] && sources[..to] == old(sources)[..to]
      ensures Copying([], prevSiblings, depth, to, dstIndex) == old(Copying(order, prevSiblings, -1, to, 0))
    {
      hide Copying;
      depth, dstIndex := -1, 0;
      var srcIndex := root;
      ghost var k := 0;
      assert order[0..] == order;
      while true
        invariant 0 <= k < |order| && srcIndex == order[k] && -1 <= depth < MAX_AST_DEPTH
        invariant to + dstIndex <= |nodes| == |old(nodes)| == |sources|
        invariant nodes[..to] == old(nodes)[..to] && sources[..to] == old(sources)[..to]
        invariant Copying(order[k..], prevSiblings, depth, to, dstIndex) == old(Copying(order, prevSiblings, -1, to, 0))
        decreases |order| - k
      {
        assert HeaderAt(nodeBuilder, order[k]) && nodeBuilder[order[k]].next == Follower(order, k, NO_CHILDREN);
        depth := CopyNext(order[k..], prevSiblings, depth, to, dstIndex, srcIndex);
        assert order[k..][1..] == order[k + 1..];
        k := k + 1;
        dstIndex := dstIndex + nodeBuilder[srcIndex].own;
        if nodeBuilder[srcIndex].next == NO_CHILDREN {
          break;
        }
        srcIndex := nodeBuilder[srcIndex].next;
      }
      assert order[k..] == [];
    }

    // Third pass: copies the list that starts at `root` to the end of the node array.
    method CopyPostorderToPreorder(root: nat, ghost t: Tree) returns (to: nat)
      requires Valid() && |nodeBuilder| == Qwords(t) && root == RootAt(t, 0) && Height(t) <= MAX_AST_DEPTH
      requires Laid(nodeBuilder, 0, t, Threaded, true, true, NO_CHILDREN) && SourcesLaid(sourceBuilder, 0, t)
      modifies this`nodes, this`sources
      ensures Valid() && to == |old(nodes)| && |nodes| == to + Qwords(t)
      ensures nodes[..to] == old(nodes) && sources[..to] == old(sources)
      ensures Stored(nodes[to..], 0, t, true, true) && SourcesStored(sources[to..], 0, t)
    {
      hide Laid, CopyStep, SourcesLaid, Stored, SourcesStored, Drain, PreorderIndices;
      ghost var order := PreorderIndices(t, 0);
      CopyWhole(t, nodeBuilder);
      ThreadedIsChained(t, nodeBuilder, 0, true, true, NO_CHILDREN);
      PreorderDistinct(t, 0);
      to := |nodes|;
      var used := |nodeBuilder|;
      nodes := nodes + seq(used, i => Word(0));
      sources := sources + seq(used, i => 0);
      ghost var stored := CopySources(t, nodeBuilder, sourceBuilder, sources[to..], 0, 0, true, true, NO_CHILDREN, []);
      assert order + [] == order;
      var prevSiblings := new nat[MAX_AST_DEPTH];
      assert nodes[to..to] == [] && prevSiblings[..0] == [];
      var depth, dstIndex := CopyList(prevSiblings, root, to, order);
      assert nodes[to..to + used] == nodes[to..];
      CompleteRest(prevSiblings, depth, to, used);
      assert nodes[to..to + used] == nodes[to..];
    }

    /** Turns the postorder builder into a preorder tree at the end of the node array. It
        panics exactly when too many sibling lists are open at once; the index stack of the
        copying pass needs the additional bound on the height of the tree. */
    method CompleteAst(ghost t: Tree) returns (panicked: bool, root: nat)
      requires Valid() && Holds(t)
      requires Height(t) <= MAX_AST_DEPTH || OpenLists(t) > MAX_AST_DEPTH
      modifies this
      ensures Valid() && (panicked <==> OpenLists(t) > MAX_AST_DEPTH)
      ensures !panicked ==>
                && root == |old(nodes)| && |nodes| == root + Qwords(t)
                && nodes[..root] == old(nodes) && sources[..root] == old(sources)
                && Stored(nodes[root..], 0, t, true, true) && SourcesStored(sources[root..], 0, t)
                && nodeBuilder == [] && sourceBuilder == []
    {
      SetFlags(t);
      panicked, root := BuildTraversalList(t);
      if panicked {
        return;
      }
      root := CopyPostorderToPreorder(root, t);
      nodeBuilder, sourceBuilder := [], [];
    }
  }
}
