/** Walking a completed tree: the preorder, postorder and flat iterators. */
module AstIterators {
  import opened Basics
  import opened Ast
  import opened AstFlags
  import opened AstThreading

  // What an iterator hands out: a node and its depth below the start, children being at 0.
  datatype Item = Item(node: nat, depth: nat)

  function Count(t: Tree): nat {
    1 + ForestCount(t.kids)
  }

  function ForestCount(f: Forest): nat {
    match f
    case Nil => 0
    case Cons(h, tl) => Count(h) + ForestCount(tl)
  }

  // ---------- Reference sequences ----------

  function PreorderItems(f: Forest, at: nat, depth: nat): (r: seq<Item>)
    ensures |r| == ForestCount(f)
    decreases f
  {
    match f
    case Nil => []
    case Cons(h, tl) =>
      [Item(at, depth)] + PreorderItems(h.kids, at + h.info.Own(), depth + 1) + PreorderItems(tl, at + Qwords(h), depth)
  }

  function PostorderItems(f: Forest, at: nat, depth: nat): (r: seq<Item>)
    ensures |r| == ForestCount(f)
    decreases f
  {
    match f
    case Nil => []
    case Cons(h, tl) =>
      PostorderItems(h.kids, at + h.info.Own(), depth + 1) + [Item(at, depth)] + PostorderItems(tl, at + Qwords(h),
          depth)
  }

  // ---------- Preorder iterator ----------

  // `curr` is -1 once the iterator is exhausted.
  datatype PreState = PreState(curr: int, depth: nat, prevDepths: seq<nat>)

  function PreStart(cells: seq<Cell>, node: nat): PreState
    requires HeaderAt(cells, node)
  {
    PreState(if cells[node].structure.leaf then -1 else node + cells[node].own, 0, [])
  }

  function PreNext(cells: seq<Cell>, s: PreState): (r: Outcome<PreState>)
    ensures r.Ok? ==> HeaderAt(cells, s.curr)
  {
    if !HeaderAt(cells, s.curr) then AssertionFailed
    else
      var at := cells[s.curr].structure;
      var next := s.curr + cells[s.curr].own;
      if !at.leaf then
        if (!at.last && |s.prevDepths| >= MAX_AST_DEPTH) || s.depth + 1 >= MAX_AST_DEPTH then AssertionFailed
        else Ok(PreState(next, s.depth + 1, if at.last then s.prevDepths else s.prevDepths + [s.depth]))
      else if !at.last then Ok(s.(curr := next))
      else if s.prevDepths == [] then Ok(s.(curr := -1))
      else Ok(PreState(next, Top(s.prevDepths), Front(s.prevDepths)))
  }

  // The outcome of `n` calls: the items handed out, in order, and the final state.
  function PreSteps(cells: seq<Cell>, s: PreState, n: nat): Outcome<(seq<Item>, PreState)>
    decreases n
  {
    if n == 0 then Ok(([], s))
    else
      match PreNext(cells, s)
      case Ok(s') =>
        (match PreSteps(cells, s', n - 1)
         case Ok((items, final)) => Ok(([Item(s.curr, s.depth)] + items, final))
         case Panic => Panic
         case AssertionFailed => AssertionFailed)
      case Panic => Panic
      case AssertionFailed => AssertionFailed
  }

  function Prepend<S>(items: seq<Item>, r: Outcome<(seq<Item>, S)>): Outcome<(seq<Item>, S)> {
    match r
    case Ok((more, final)) => Ok((items + more, final))
    case Panic => Panic
    case AssertionFailed => AssertionFailed
  }

  lemma PrependTwice<S>(a: seq<Item>, b: seq<Item>, r: Outcome<(seq<Item>, S)>)
    ensures Prepend(a, Prepend(b, r)) == Prepend(a + b, r)
  {
    if r.Ok? {
      assert a + (b + r.value.0) == (a + b) + r.value.0;
    }
  }

  lemma PreStepsOne(cells: seq<Cell>, s: PreState, n: nat)
    requires n > 0
    ensures PreNext(cells, s).Ok? ==>
              PreSteps(cells, s, n) == Prepend([Item(s.curr, s.depth)], PreSteps(cells, PreNext(cells, s).value, n - 1))
    ensures PreNext(cells, s).AssertionFailed? ==> PreSteps(cells, s, n).AssertionFailed?
  {
  }

  // Where the iterator stands once a sibling list that ends at `end` is exhausted.
  function PreResume(s: PreState, end: nat): PreState {
    if s.prevDepths == [] then s.(curr := -1) else PreState(end, Top(s.prevDepths), Front(s.prevDepths))
  }

  // The depth at which an exhausted sibling list leaves the iterator.
  function LastDepth(f: Forest, depth: nat): nat
    requires f.Cons?
    decreases f
  {
    if f.tail.Cons? then LastDepth(f.tail, depth)
    else if f.head.kids.Nil? then depth
    else LastDepth(f.head.kids, depth + 1)
  }

  // The call that hands out the head of a sibling list.
  lemma PreSelf(f: Forest, cells: seq<Cell>, at: nat, depth: nat, stack: seq<nat>, first: bool)
    requires f.Cons? && ForestStored(cells, at, f, first) && |stack| <= depth < MAX_AST_DEPTH
    ensures var s := PreState(at, depth, stack);
            var h := f.head;
            PreNext(cells, s) ==
              if h.kids.Cons? && depth + 1 >= MAX_AST_DEPTH then AssertionFailed
              else if h.kids.Cons? then
                Ok(PreState(at + h.info.Own(), depth + 1, if f.tail.Nil? then stack else stack + [depth]))
              else if f.tail.Cons? then Ok(PreState(at + Qwords(h), depth, stack))
              else Ok(PreResume(s, at + Qwords(h)))
  {
  }

  /** Over a sibling list and all its descendants the iterator hands out the preorder with
      the true depths; it stays within its bounds exactly when the levels fit. */
  lemma {:induction false} PreForest(f: Forest, cells: seq<Cell>, at: nat, depth: nat, stack: seq<nat>, first: bool,
                                     more: nat)
    requires f.Cons? && ForestStored(cells, at, f, first) && |stack| <= depth < MAX_AST_DEPTH
    ensures var s := PreState(at, depth, stack);
            var n := ForestCount(f) + more;
            if depth + ForestHeight(f) > MAX_AST_DEPTH then
              PreSteps(cells, s, n).AssertionFailed?
            else
              PreSteps(cells, s, n)
              == Prepend(PreorderItems(f, at, depth),
                         PreSteps(cells, PreResume(s.(depth := LastDepth(f, depth)), at + ForestQwords(f)), more))
    decreases f, 1
  {
    hide PreSteps, PreNext, ForestStored, PreorderItems, ForestCount, Count, ForestHeight, Height, LastDepth, Qwords,
         ForestQwords;
    DepthParts(f, depth);
    var s := PreState(at, depth, stack);
    var h, tl := f.head, f.tail;
    PreMeasures(f);
    PreItemsParts(f, at, depth);
    ForestParts(f, cells, at, first);
    PreSelf(f, cells, at, depth, stack, first);
    PreStepsOne(cells, s, ForestCount(f) + more);
    if h.kids.Nil? {
      if tl.Cons? {
        PreTail(f, cells, at, depth, stack, more, [Item(at, depth)]);
      }
    } else if depth + 1 < MAX_AST_DEPTH {
      var inner := at + h.info.Own();
      var stack' := if tl.Nil? then stack else stack + [depth];
      PreForest(h.kids, cells, inner, depth + 1, stack', true, ForestCount(tl) + more);
      var resumed := PreResume(PreState(inner, LastDepth(h.kids, depth + 1), stack'), at + Qwords(h));
      var kids := PreorderItems(h.kids, inner, depth + 1);
      PrependTwice([Item(at, depth)], kids, PreSteps(cells, resumed, ForestCount(tl) + more));
      if tl.Cons? {
        assert Front(stack') == stack;
        PreTail(f, cells, at, depth, stack, more, [Item(at, depth)] + kids);
      }
    }
  }

  lemma DepthParts(f: Forest, depth: nat)
    requires f.Cons?
    ensures f.tail.Cons? ==> LastDepth(f, depth) == LastDepth(f.tail, depth)
    ensures f.tail.Nil? && f.head.kids.Nil? ==> LastDepth(f, depth) == depth
    ensures f.tail.Nil? && f.head.kids.Cons? ==> LastDepth(f, depth) == LastDepth(f.head.kids, depth + 1)
    ensures Qwords(f.head) == f.head.info.Own() + ForestQwords(f.head.kids)
    ensures ForestQwords(f) == Qwords(f.head) + ForestQwords(f.tail)
    ensures f.tail.Nil? ==> ForestQwords(f.tail) == 0
    ensures f.head.kids.Nil? ==> ForestQwords(f.head.kids) == 0
  {
  }

  lemma PreMeasures(f: Forest)
    requires f.Cons?
    ensures ForestCount(f) == 1 + ForestCount(f.head.kids) + ForestCount(f.tail)
    ensures ForestHeight(f) == Max(1 + ForestHeight(f.head.kids), ForestHeight(f.tail))
    ensures ForestCount(Nil) == 0 && ForestHeight(Nil) == 0
    ensures f.head.kids.Cons? ==> ForestHeight(f.head.kids) >= 1
  {
  }

  // The remaining siblings, `items` having been handed out for the head.
  lemma {:induction false} PreTail(f: Forest, cells: seq<Cell>, at: nat, depth: nat, stack: seq<nat>, more: nat,
                                   items: seq<Item>)
    requires f.Cons? && f.tail.Cons? && ForestStored(cells, at + Qwords(f.head), f.tail, false)
    requires |stack| <= depth < MAX_AST_DEPTH
    ensures var s := PreState(at + Qwords(f.head), depth, stack);
            var r := Prepend(items, PreSteps(cells, s, ForestCount(f.tail) + more));
            if depth + ForestHeight(f.tail) > MAX_AST_DEPTH then r.AssertionFailed?
            else
              r == Prepend(items + PreorderItems(f.tail, at + Qwords(f.head), depth),
                           PreSteps(cells, PreResume(s.(depth := LastDepth(f.tail, depth)), at + ForestQwords(f)),
                               more))
    decreases f, 0
  {
    hide PreSteps, ForestStored, PreorderItems;
    var rest := at + Qwords(f.head);
    PreForest(f.tail, cells, rest, depth, stack, false, more);
    PrependTwice(items, PreorderItems(f.tail, rest, depth),
                 PreSteps(cells, PreResume(PreState(rest, LastDepth(f.tail, depth), stack), at + ForestQwords(f)),
                   more));
  }

  lemma PreItemsParts(f: Forest, at: nat, depth: nat)
    requires f.Cons?
    ensures var kids := PreorderItems(f.head.kids, at + f.head.info.Own(), depth + 1);
            var rest := PreorderItems(f.tail, at + Qwords(f.head), depth);
            && PreorderItems(f, at, depth) == [Item(at, depth)] + kids + rest
            && (f.head.kids.Nil? ==> PreorderItems(f, at, depth) == [Item(at, depth)] + rest)
            && (f.tail.Nil? ==> PreorderItems(f, at, depth) == [Item(at, depth)] + kids)
            && (f.head.kids.Nil? && f.tail.Nil? ==> PreorderItems(f, at, depth) == [Item(at, depth)])
  {
  }

  lemma ForestParts(f: Forest, cells: seq<Cell>, at: nat, first: bool)
    requires f.Cons? && ForestStored(cells, at, f, first)
    ensures ForestStored(cells, at + f.head.info.Own(), f.head.kids, true)
    ensures ForestStored(cells, at + Qwords(f.head), f.tail, false)
  {
  }

  /** The preorder iterator visits every descendant once, in preorder, with its true depth,
      and is then exhausted. */
  lemma PreorderVisitsAll(t: Tree, cells: seq<Cell>, base: nat, first: bool, last: bool)
    requires Stored(cells, base, t, first, last)
    ensures var r := PreSteps(cells, PreStart(cells, base), ForestCount(t.kids));
            && (r.Ok? <==> ForestHeight(t.kids) <= MAX_AST_DEPTH)
            && (r.Ok? ==> r.value.0 == PreorderItems(t.kids, base + t.info.Own(), 0) && r.value.1.curr == -1)
  {
    hide PreSteps, PreNext, ForestStored, PreorderItems, ForestHeight, ForestCount;
    PreNothing(t, cells, base);
    if t.kids.Cons? {
      PreForest(t.kids, cells, base + t.info.Own(), 0, [], true, 0);
      assert PreorderItems(t.kids, base + t.info.Own(), 0) + [] == PreorderItems(t.kids, base + t.info.Own(), 0);
    }
  }

  lemma PreNothing(t: Tree, cells: seq<Cell>, base: nat)
    ensures forall s :: PreSteps(cells, s, 0) == Ok(([], s))
    ensures t.kids.Nil? ==>
      ForestCount(t.kids) == 0 && ForestHeight(t.kids) == 0 && PreorderItems(t.kids, base + t.info.Own(), 0) == []
  {
  }

  // ---------- Postorder iterator ----------

  // The offsets from the first level down to the next node to hand out.
  datatype PostState = PostState(offsets: seq<nat>)

  // Descends along first children, `node` being the last offset recorded.
  function Descend(cells: seq<Cell>, node: nat, offsets: seq<nat>): (r: Outcome<PostState>)
    decreases |cells| - node
  {
    if !HeaderAt(cells, node) || cells[node].own == 0 then AssertionFailed
    else if cells[node].structure.leaf then Ok(PostState(offsets))
    else if |offsets| >= MAX_AST_DEPTH then AssertionFailed
    else Descend(cells, node + cells[node].own, offsets + [node + cells[node].own])
  }

  function PostStart(cells: seq<Cell>, node: nat): Outcome<PostState> {
    Descend(cells, node, [])
  }

  function PostNext(cells: seq<Cell>, s: PostState): (r: Outcome<PostState>)
    ensures r.Ok? ==> s.offsets != [] && HeaderAt(cells, Top(s.offsets))
  {
    if s.offsets == [] || !HeaderAt(cells, Top(s.offsets)) then AssertionFailed
    else
      var node := Top(s.offsets);
      if cells[node].structure.last then Ok(PostState(Front(s.offsets)))
      else Descend(cells, node + cells[node].next, Front(s.offsets) + [node + cells[node].next])
  }

  function PostSteps(cells: seq<Cell>, s: PostState, n: nat): Outcome<(seq<Item>, PostState)>
    decreases n
  {
    if n == 0 then Ok(([], s))
    else
      match PostNext(cells, s)
      case Ok(s') =>
        (match PostSteps(cells, s', n - 1)
         case Ok((items, final)) => Ok(([Item(Top(s.offsets), |s.offsets| - 1)] + items, final))
         case Panic => Panic
         case AssertionFailed => AssertionFailed)
      case Panic => Panic
      case AssertionFailed => AssertionFailed
  }

  lemma PostStepsOne(cells: seq<Cell>, s: PostState, n: nat)
    requires n > 0
    ensures PostNext(cells, s).Ok? ==>
      PostSteps(cells, s, n)
        == Prepend([Item(Top(s.offsets), |s.offsets| - 1)], PostSteps(cells, PostNext(cells, s).value, n - 1))
    ensures PostNext(cells, s).AssertionFailed? ==> PostSteps(cells, s, n).AssertionFailed?
  {
  }

  // The path of first children below and including the head of a sibling list.
  function Spine(f: Forest, at: nat): (r: seq<nat>)
    ensures |r| <= ForestHeight(f)
    decreases f
  {
    match f
    case Nil => []
    case Cons(h, tl) => [at] + Spine(h.kids, at + h.info.Own())
  }

  // The array has room for exactly `MAX_AST_DEPTH` levels.
  lemma {:induction false} DescendTree(t: Tree, cells: seq<Cell>, at: nat, first: bool, last: bool, offsets: seq<nat>)
    requires Stored(cells, at, t, first, last) && |offsets| <= MAX_AST_DEPTH
    ensures var path := offsets + Spine(t.kids, at + t.info.Own());
      Descend(cells, at, offsets) == if |path| <= MAX_AST_DEPTH then Ok(PostState(path)) else AssertionFailed
    decreases t
  {
    hide Qwords, ForestQwords;
    if t.kids.Nil? {
      assert offsets + [] == offsets;
    } else {
      var h, inner := t.kids.head, at + t.info.Own();
      assert (offsets + [inner]) + Spine(h.kids, inner + h.info.Own()) == offsets + Spine(t.kids, inner);
      if |offsets| < MAX_AST_DEPTH { DescendTree(h, cells, inner, true, t.kids.tail.Nil?, offsets + [inner]); }
    }
  }

  lemma PostItemsParts(f: Forest, at: nat, depth: nat)
    requires f.Cons?
    ensures var kids := PostorderItems(f.head.kids, at + f.head.info.Own(), depth + 1);
            && PostorderItems(f, at, depth) == kids + [Item(at, depth)] + PostorderItems(f.tail, at + Qwords(f.head),
                depth)
            && (f.head.kids.Nil? ==> kids == [])
            && (f.tail.Nil? ==> PostorderItems(f, at, depth) == kids + [Item(at, depth)])
  {
  }

  /** Over a sibling list and all its descendants the iterator hands out the postorder with
      the true depths; it stays within its bounds exactly when the levels fit. */
  lemma {:induction false} PostForest(f: Forest, cells: seq<Cell>, at: nat, above: seq<nat>, first: bool, more: nat)
    requires f.Cons? && ForestStored(cells, at, f, first) && |above| + |Spine(f, at)| <= MAX_AST_DEPTH
    ensures var r := PostSteps(cells, PostState(above + Spine(f, at)), ForestCount(f) + more);
      if |above| + ForestHeight(f) > MAX_AST_DEPTH then r.AssertionFailed?
      else r == Prepend(PostorderItems(f, at, |above|), PostSteps(cells, PostState(above), more))
    decreases f
  {
    hide PostSteps, Descend, PostNext, ForestStored, PostorderItems, Spine, ForestHeight, ForestCount, Count, Height;
    PreMeasures(f);
    SpineParts(f, at);
    ForestParts(f, cells, at, first);
    PostItemsParts(f, at, |above|);
    var h, tl := f.head, f.tail;
    var inner, rest := at + h.info.Own(), at + Qwords(h);
    var one, kids := [Item(at, |above|)], PostorderItems(h.kids, inner, |above| + 1);
    var self := PostState(above + [at]);
    var n := 1 + ForestCount(tl) + more;
    assert above + Spine(f, at) == (above + [at]) + Spine(h.kids, inner);
    if h.kids.Cons? {
      PostForest(h.kids, cells, inner, above + [at], true, n);
      if |above| + 1 + ForestHeight(h.kids) > MAX_AST_DEPTH { return; }
    } else {
      assert (above + [at]) + [] == above + [at];
      PrependNothing(PostSteps(cells, self, n));
    }
    PostSelf(f, cells, at, above, first);
    PostStepsOne(cells, self, n);
    SpineHeight(tl, rest);
    if |above| + |Spine(tl, rest)| > MAX_AST_DEPTH { return; }
    PrependTwice(kids, one, PostSteps(cells, PostNext(cells, self).value, n - 1));
    if tl.Cons? {
      PostForest(tl, cells, rest, above, false, more);
      PrependTwice(kids + one, PostorderItems(tl, rest, |above|), PostSteps(cells, PostState(above), more));
    } else {
      assert above + Spine(tl, rest) == above;
    }
  }

  lemma SpineHeight(f: Forest, at: nat)
    ensures |Spine(f, at)| <= ForestHeight(f)
  {
  }

  lemma PrependNothing<S>(r: Outcome<(seq<Item>, S)>)
    ensures Prepend([], r) == r
  {
    if r.Ok? {
      assert [] + r.value.0 == r.value.0;
    }
  }

  lemma SpineParts(f: Forest, at: nat)
    requires f.Cons?
    ensures Spine(f, at) == [at] + Spine(f.head.kids, at + f.head.info.Own())
    ensures f.head.kids.Nil? ==> Spine(f.head.kids, at + f.head.info.Own()) == []
    ensures f.tail.Nil? ==> Spine(f.tail, at + Qwords(f.head)) == []
  {
  }

  lemma NextStored(f: Forest, cells: seq<Cell>, at: nat, first: bool)
    requires f.Cons? && ForestStored(cells, at, f, first)
    ensures HeaderAt(cells, at) && cells[at].structure.last == f.tail.Nil? && cells[at].next == Qwords(f.head)
    ensures f.tail.Cons? ==> Stored(cells, at + Qwords(f.head), f.tail.head, false, f.tail.tail.Nil?)
  {
  }

  // The call that hands out the head of a sibling list.
  lemma PostSelf(f: Forest, cells: seq<Cell>, at: nat, above: seq<nat>, first: bool)
    requires f.Cons? && ForestStored(cells, at, f, first) && |above| < MAX_AST_DEPTH
    ensures var path := above + Spine(f.tail, at + Qwords(f.head));
      PostNext(cells, PostState(above + [at]))
        == if |path| <= MAX_AST_DEPTH then Ok(PostState(path)) else AssertionFailed
  {
    hide Descend, PostSteps, Spine, ForestHeight, Height, Stored, ForestStored, Qwords;
    SpineParts(f, at);
    NextStored(f, cells, at, first);
    assert Front(above + [at]) == above;
    if f.tail.Cons? {
      var h, rest := f.tail.head, at + Qwords(f.head);
      SpineParts(f.tail, rest);
      DescendTree(h, cells, rest, false, f.tail.tail.Nil?, above + [rest]);
      assert (above + [rest]) + Spine(h.kids, rest + h.info.Own()) == above + Spine(f.tail, rest);
    } else {
      assert above + [] == above;
    }
  }

  lemma PostNothing(f: Forest, cells: seq<Cell>, at: nat)
    ensures PostSteps(cells, PostState([]), 0) == Ok(([], PostState([])))
    ensures f.Nil? ==>
      Spine(f, at) == [] && ForestCount(f) == 0 && ForestHeight(f) == 0 && PostorderItems(f, at, 0) == []
  {
  }

  /** The postorder iterator visits every descendant once, in postorder, with its true
      depth, and is then exhausted; it stays within its array exactly when the levels fit. */
  lemma PostorderVisitsAll(t: Tree, cells: seq<Cell>, base: nat, first: bool, last: bool)
    requires Stored(cells, base, t, first, last)
    ensures var start, n := PostStart(cells, base), ForestCount(t.kids);
      && (start.Ok? && PostSteps(cells, start.value, n).Ok? <==> ForestHeight(t.kids) <= MAX_AST_DEPTH)
      && (ForestHeight(t.kids) <= MAX_AST_DEPTH ==>
            PostSteps(cells, start.value, n) == Ok((PostorderItems(t.kids, base + t.info.Own(), 0), PostState([]))))
  {
    hide PostSteps, Descend, Spine, PostorderItems, ForestStored, ForestCount, ForestHeight;
    var inner := base + t.info.Own();
    DescendTree(t, cells, base, first, last, []);
    PostNothing(t.kids, cells, inner);
    SpineHeight(t.kids, inner);
    assert [] + Spine(t.kids, inner) == Spine(t.kids, inner);
    if t.kids.Cons? && |Spine(t.kids, inner)| <= MAX_AST_DEPTH {
      PostForest(t.kids, cells, inner, [], true, 0);
      assert PostorderItems(t.kids, inner, 0) + [] == PostorderItems(t.kids, inner, 0);
    }
  }

  /** The assertions of the first descent: each stands before the depth is increased, so the last
      one still holds for an entry behind the end of the array. */
  predicate StartAsserted(cells: seq<Cell>, node: nat, depth: int)
    decreases |cells| - node
  {
    && HeaderAt(cells, node) && cells[node].own > 0
    && (cells[node].structure.leaf
        || (depth < MAX_AST_DEPTH && StartAsserted(cells, node + cells[node].own, depth + 1)))
  }

  /** They hold for one level more than the array has room for, and for no other reason. */
  lemma {:induction false} StartOverruns(t: Tree, cells: seq<Cell>, base: nat, first: bool, last: bool, depth: int)
    requires Stored(cells, base, t, first, last) && -1 <= depth <= MAX_AST_DEPTH
    ensures StartAsserted(cells, base, depth) <==>
      depth + |Spine(t.kids, base + t.info.Own())| <= MAX_AST_DEPTH
    decreases t
  {
    hide Qwords, ForestQwords;
    if t.kids.Cons? && depth < MAX_AST_DEPTH {
      StartOverruns(t.kids.head, cells, base + t.info.Own(), true, t.kids.tail.Nil?, depth + 1);
    }
  }

  /** The first descent writes behind its array, with its assertions holding, exactly if the path of
      first children has one level too many. */
  lemma OverrunExactly(t: Tree, cells: seq<Cell>, base: nat, first: bool, last: bool)
    requires Stored(cells, base, t, first, last)
    ensures StartAsserted(cells, base, -1) && !PostStart(cells, base).Ok? <==>
      |Spine(t.kids, base + t.info.Own())| == MAX_AST_DEPTH + 1
  {
    hide Spine, Descend, StartAsserted;
    StartOverruns(t, cells, base, first, last, -1);
    DescendTree(t, cells, base, first, last, []);
  }

  // A stored chain of nodes without attachments.
  function ChainCells(info: Info, levels: nat): seq<Cell> {
    seq(levels, k requires 0 <= k < levels => StoredRoot(Chain(info, levels - k), true, true))
  }

  lemma {:induction false} ChainStored(info: Info, levels: nat, k: nat)
    requires info.attachment == [] && k < levels
    ensures Stored(ChainCells(info, levels), k, Chain(info, levels - k), true, true)
    ensures |Spine(Chain(info, levels - k).kids, k + 1)| == levels - k - 1
    decreases levels - k
  {
    hide Qwords, StoredRoot;
    var cells, t := ChainCells(info, levels), Chain(info, levels - k);
    assert info.Own() == 1;
    if k + 1 < levels {
      ChainStored(info, levels, k + 1);
      assert t.kids == Cons(Chain(info, levels - k - 1), Nil);
      assert ForestStored(cells, k + 1 + Qwords(t.kids.head), Nil, false);
    }
  }

  /** An input: the descendants of the first of 130 nodes in a chain. */
  lemma ChainOverruns(info: Info)
    requires info.attachment == []
    ensures var cells := ChainCells(info, MAX_AST_DEPTH + 2);
      StartAsserted(cells, 0, -1) && !PostStart(cells, 0).Ok?
  {
    hide ChainCells, Stored, Spine, Descend, StartAsserted;
    ChainStored(info, MAX_AST_DEPTH + 2, 0);
    OverrunExactly(Chain(info, MAX_AST_DEPTH + 2), ChainCells(info, MAX_AST_DEPTH + 2), 0, true, true);
    ChainInfo(info, MAX_AST_DEPTH + 2);
  }

  lemma ChainInfo(info: Info, levels: nat)
    requires levels > 0
    ensures Chain(info, levels).info == info
  {
  }

  // ---------- Flat iterator ----------

  // Handing out the records of `[at, end)` in the order in which they are stored.
  function FlatSteps(cells: seq<Cell>, at: nat, end: nat, n: nat): Outcome<(seq<nat>, nat)>
    decreases n
  {
    if n == 0 then Ok(([], at))
    else if at == end || !HeaderAt(cells, at) then AssertionFailed
    else
      match FlatSteps(cells, at + cells[at].own, end, n - 1)
      case Ok((nodes, final)) => Ok(([at] + nodes, final))
      case Panic => Panic
      case AssertionFailed => AssertionFailed
  }

  function Nodes(items: seq<Item>): (r: seq<nat>)
    ensures |r| == |items|
  {
    seq(|items|, i requires 0 <= i < |items| => items[i].node)
  }

  function PrependNodes(nodes: seq<nat>, r: Outcome<(seq<nat>, nat)>): Outcome<(seq<nat>, nat)> {
    match r
    case Ok((more, final)) => Ok((nodes + more, final))
    case Panic => Panic
    case AssertionFailed => AssertionFailed
  }

  lemma FlatStepsOne(cells: seq<Cell>, at: nat, end: nat, n: nat)
    requires HeaderAt(cells, at) && at < end
    ensures FlatSteps(cells, at, end, n + 1) == PrependNodes([at], FlatSteps(cells, at + cells[at].own, end, n))
  {
  }

  lemma PrependNodesTwice(a: seq<nat>, b: seq<nat>, r: Outcome<(seq<nat>, nat)>)
    ensures PrependNodes(a, PrependNodes(b, r)) == PrependNodes(a + b, r)
  {
    if r.Ok? {
      assert a + (b + r.value.0) == (a + b) + r.value.0;
    }
  }

  lemma NoNodes(f: Forest, at: nat, depth: nat)
    requires f.Nil?
    ensures Nodes(PreorderItems(f, at, depth)) == [] && ForestCount(f) == 0
  {
  }

  lemma NodesJoin(i: Item, a: seq<Item>, b: seq<Item>)
    ensures Nodes([i] + a + b) == [i.node] + Nodes(a) + Nodes(b)
  {
  }

  lemma OneMore(f: Forest)
    requires f.Cons?
    ensures ForestCount(f) == 1 + ForestCount(f.head.kids) + ForestCount(f.tail)
  {
  }

  lemma {:induction false} FlatForest(f: Forest, cells: seq<Cell>, at: nat, depth: nat, first: bool, end: nat,
                                      more: nat)
    requires ForestStored(cells, at, f, first) && at + ForestQwords(f) <= end
    ensures FlatSteps(cells, at, end, ForestCount(f) + more)
         == PrependNodes(Nodes(PreorderItems(f, at, depth)), FlatSteps(cells, at + ForestQwords(f), end, more))
    decreases f
  {
    hide ForestStored, PreorderItems, FlatSteps, Nodes, Count;
    if f.Nil? {
      var r := FlatSteps(cells, at, end, more);
      NoNodes(f, at, depth);
      assert r.Ok? ==> [] + r.value.0 == r.value.0;
    } else {
      var h, tl := f.head, f.tail;
      var inner, rest := at + h.info.Own(), at + Qwords(h);
      ForestParts(f, cells, at, first);
      HeadStored(f, cells, at, first);
      PreItemsParts(f, at, depth);
      var n := ForestCount(tl) + more;
      FlatStepsOne(cells, at, end, ForestCount(h.kids) + n);
      FlatForest(h.kids, cells, inner, depth + 1, true, end, n);
      FlatForest(tl, cells, rest, depth, false, end, more);
      var a, b := PreorderItems(h.kids, inner, depth + 1), PreorderItems(tl, rest, depth);
      NodesJoin(Item(at, depth), a, b);
      OneMore(f);
      var r := FlatSteps(cells, rest + ForestQwords(tl), end, more);
      PrependNodesTwice([at], Nodes(a), PrependNodes(Nodes(b), r));
      PrependNodesTwice([at] + Nodes(a), Nodes(b), r);
    }
  }

  lemma HeadStored(f: Forest, cells: seq<Cell>, at: nat, first: bool)
    requires f.Cons? && ForestStored(cells, at, f, first)
    ensures HeaderAt(cells, at) && cells[at] == StoredRoot(f.head, first, f.tail.Nil?)
  {
  }

  /** The flat iterator agrees with the preorder iterator: it hands out the start itself and
      then exactly the nodes of the preorder, and ends at the end of the subtree. */
  lemma FlatMatchesPreorder(t: Tree, cells: seq<Cell>, base: nat, first: bool, last: bool)
    requires Stored(cells, base, t, first, last)
    ensures HeaderAt(cells, base)
    ensures FlatSteps(cells, base, base + cells[base].next, Count(t))
         == Ok(([base] + Nodes(PreorderItems(t.kids, base + t.info.Own(), 0)), base + cells[base].next))
  {
    var inner, end := base + t.info.Own(), base + Qwords(t);
    FlatStepsOne(cells, base, end, ForestCount(t.kids));
    FlatForest(t.kids, cells, inner, 0, true, end, 0);
    var nodes := Nodes(PreorderItems(t.kids, inner, 0));
    assert nodes + [] == nodes;
  }

  // ---------- Round trip with the builder ----------

  // Nodes in the order in which they are pushed: children first.
  function PushOrder(t: Tree): (r: seq<Info>)
    ensures |r| == Count(t)
    decreases t
  {
    ForestPushOrder(t.kids) + [t.info]
  }

  function ForestPushOrder(f: Forest): (r: seq<Info>)
    ensures |r| == ForestCount(f)
    decreases f
  {
    match f
    case Nil => []
    case Cons(h, tl) => PushOrder(h) + ForestPushOrder(tl)
  }

  // Cell `i` starts a record with this content.
  predicate Describes(cells: seq<Cell>, i: int, info: Info) {
    && HeaderAt(cells, i) && i + |info.attachment| < |cells|
    && cells[i].tag == info.tag && cells[i].flags == info.flags && cells[i].own == info.Own()
    && forall k | i < k <= i + |info.attachment| :: cells[k] == Word(info.attachment[k - i - 1])
  }

  predicate AllDescribe(cells: seq<Cell>, nodes: seq<nat>, infos: seq<Info>) {
    |nodes| == |infos| && forall k | 0 <= k < |nodes| :: Describes(cells, nodes[k], infos[k])
  }

  lemma {:induction false} ForestDescribed(f: Forest, cells: seq<Cell>, at: nat, depth: nat, first: bool)
    requires ForestStored(cells, at, f, first)
    ensures AllDescribe(cells, Nodes(PostorderItems(f, at, depth)), ForestPushOrder(f))
    decreases f
  {
    hide ForestStored, PostorderItems;
    if f.Cons? {
      var h, tl := f.head, f.tail;
      ForestParts(f, cells, at, first);
      HeadDescribed(f, cells, at, first);
      PostItemsParts(f, at, depth);
      ForestDescribed(h.kids, cells, at + h.info.Own(), depth + 1, true);
      ForestDescribed(tl, cells, at + Qwords(h), depth, false);
      DescribeConcat(cells, PostorderItems(h.kids, at + h.info.Own(), depth + 1), Item(at, depth),
                     PostorderItems(tl, at + Qwords(h), depth), ForestPushOrder(h.kids), h.info, ForestPushOrder(tl));
    }
  }

  lemma HeadDescribed(f: Forest, cells: seq<Cell>, at: nat, first: bool)
    requires f.Cons? && ForestStored(cells, at, f, first)
    ensures Describes(cells, at, f.head.info)
  {
  }

  lemma DescribeConcat(cells: seq<Cell>, a: seq<Item>, i: Item, b: seq<Item>, infosA: seq<Info>, info: Info,
                       infosB: seq<Info>)
    requires AllDescribe(cells, Nodes(a), infosA) && Describes(cells, i.node, info)
    requires AllDescribe(cells, Nodes(b), infosB)
    ensures AllDescribe(cells, Nodes(a + [i] + b), infosA + [info] + infosB)
  {
    var nodes, infos := Nodes(a + [i] + b), infosA + [info] + infosB;
    forall k | 0 <= k < |nodes| ensures Describes(cells, nodes[k], infos[k]) {
      if k < |a| {
        assert Describes(cells, Nodes(a)[k], infosA[k]);
      } else if k > |a| {
        assert Describes(cells, Nodes(b)[k - |a| - 1], infosB[k - |a| - 1]);
      }
    }
  }

  /** On a completed tree the postorder iterator, followed by the root, hands out the nodes
      in the order in which they were pushed. */
  lemma PostorderIsPushOrder(t: Tree, cells: seq<Cell>, base: nat, first: bool, last: bool)
    requires Stored(cells, base, t, first, last) && ForestHeight(t.kids) <= MAX_AST_DEPTH
    ensures var start := PostStart(cells, base);
            && start.Ok?
            && var r := PostSteps(cells, start.value, ForestCount(t.kids));
               r.Ok? && AllDescribe(cells, Nodes(r.value.0 + [Item(base, 0)]), PushOrder(t))
  {
    PostorderVisitsAll(t, cells, base, first, last);
    var inner := base + t.info.Own();
    ForestDescribed(t.kids, cells, inner, 0, true);
    var items := PostorderItems(t.kids, inner, 0);
    DescribeConcat(cells, items, Item(base, 0), [], ForestPushOrder(t.kids), t.info, []);
    assert items + [Item(base, 0)] + [] == items + [Item(base, 0)];
    assert ForestPushOrder(t.kids) + [t.info] + [] == PushOrder(t);
  }

  // ---------- Ancestry ----------

  // `is_descendant_of`, on the indices of two nodes.
  predicate IsDescendantOf(cells: seq<Cell>, parent: nat, child: nat)
    requires HeaderAt(cells, parent)
  {
    child >= parent && child < parent + cells[parent].next
  }

  lemma {:induction false} ForestHeaders(f: Forest, cells: seq<Cell>, at: nat, depth: nat, first: bool, i: nat)
    requires ForestStored(cells, at, f, first)
    ensures i in Nodes(PreorderItems(f, at, depth)) <==> at <= i < at + ForestQwords(f) && HeaderAt(cells, i)
    decreases f
  {
    hide ForestStored, PreorderItems;
    if f.Nil? {
      assert PreorderItems(f, at, depth) == [];
    } else {
      var h, tl := f.head, f.tail;
      ForestParts(f, cells, at, first);
      HeadDescribed(f, cells, at, first);
      PreItemsParts(f, at, depth);
      ForestHeaders(h.kids, cells, at + h.info.Own(), depth + 1, true, i);
      ForestHeaders(tl, cells, at + Qwords(h), depth, false, i);
      var a, b := PreorderItems(h.kids, at + h.info.Own(), depth + 1), PreorderItems(tl, at + Qwords(h), depth);
      NodesJoin(Item(at, depth), a, b);
      OneMore(f);
    }
  }

  /** Among the nodes of the array, those the size comparison calls descendants of `base`
      are the start itself and the nodes of its preorder. */
  lemma DescendantsAreSubtree(t: Tree, cells: seq<Cell>, base: nat, first: bool, last: bool, i: nat)
    requires Stored(cells, base, t, first, last) && HeaderAt(cells, i)
    ensures HeaderAt(cells, base)
    ensures IsDescendantOf(cells, base, i) <==> i == base || i in Nodes(PreorderItems(t.kids, base + t.info.Own(), 0))
  {
    ForestHeaders(t.kids, cells, base + t.info.Own(), 0, true, i);
  }
}
