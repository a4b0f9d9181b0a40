/** The second conversion pass: turning the builder into a linked list in preorder. */
module AstThreading {
  import opened Basics
  import opened Ast
  import opened AstFlags

  // Loop state of `build_traversal_list`: `stack` is the used part of the index stack, one
  // entry per open sibling list; `lastLeaf` the latest leaf that is a last sibling.
  datatype ThreadState = ThreadState(cells: seq<Cell>, stack: seq<nat>, lastLeaf: nat)

  // One iteration, at the node whose header is cell `i`: first link the previous sibling to
  // it, then update the index stack.
  function ThreadStep(s: ThreadState, i: nat): (r: Outcome<ThreadState>)
    requires i < |s.cells|
    ensures r.Ok? ==> |r.value.cells| == |s.cells| && HeaderAt(s.cells, i)
    ensures r.Ok? ==> HeaderAt(r.value.cells, i) && r.value.cells[i].own == s.cells[i].own
    ensures r.Ok? && |s.stack| <= MAX_AST_DEPTH ==> |r.value.stack| <= MAX_AST_DEPTH
  {
    if !s.cells[i].Header? then AssertionFailed
    else
      var at := s.cells[i].structure;
      if !at.first && (s.stack == [] || !HeaderAt(s.cells, Top(s.stack))) then AssertionFailed
      else
        var cells := if at.first then s.cells else SetNext(s.cells, Top(s.stack), i);
        if at.last then
          Ok(ThreadState(cells, if at.first then s.stack else Front(s.stack), if at.leaf then i else s.lastLeaf))
        else if at.first && |s.stack| >= MAX_AST_DEPTH then Panic
        else if !at.leaf && s.lastLeaf == NO_CHILDREN then AssertionFailed
        else
          var below := if at.first then s.stack else Front(s.stack);
          Ok(ThreadState(cells, below + [if at.leaf then i else s.lastLeaf], s.lastLeaf))
  }

  function ThreadRun(s: ThreadState, i: nat, end: nat): (r: Outcome<ThreadState>)
    requires end <= |s.cells|
    ensures r.Ok? ==> |r.value.cells| == |s.cells|
    decreases end - i
  {
    if i == end then Ok(s)
    else if i > end then AssertionFailed
    else
      match ThreadStep(s, i)
      case Ok(s') => if s.cells[i].own == 0 then AssertionFailed else ThreadRun(s', i + s.cells[i].own, end)
      case Panic => Panic
      case AssertionFailed => AssertionFailed
  }

  lemma ThreadRunStep(s: ThreadState, i: nat, s': ThreadState, end: nat)
    requires i < end <= |s.cells| && ThreadStep(s, i) == Ok(s') && s.cells[i].own > 0
    ensures ThreadRun(s, i, end) == ThreadRun(s', i + s.cells[i].own, end)
  {
  }

  lemma ThreadRunPanic(s: ThreadState, i: nat, end: nat)
    requires i < end <= |s.cells| && ThreadStep(s, i) == Panic
    ensures ThreadRun(s, i, end) == Panic
  {
  }

  // ---------- The leaf that ends a subtree in preorder ----------

  function LastLeaf(t: Tree, base: nat): (i: nat)
    ensures base <= i <= RootAt(t, base)
    decreases t
  {
    if t.kids.Nil? then RootAt(t, base) else ForestLastLeaf(t.kids, base)
  }

  function ForestLastLeaf(f: Forest, base: nat): (i: nat)
    requires f.Cons?
    ensures base <= i < base + ForestQwords(f)
    decreases f
  {
    if f.tail.Nil? then LastLeaf(f.head, base) else ForestLastLeaf(f.tail, base + Qwords(f.head))
  }

  // Pointing the last leaf elsewhere is exactly a change of the tree's outgoing link.
  lemma {:induction false} Relink(t: Tree, cells: seq<Cell>, base: nat, first: bool, last: bool, link: nat, link': nat)
    requires Laid(cells, base, t, Threaded, first, last, link)
    ensures HeaderAt(cells, LastLeaf(t, base))
    ensures Laid(SetNext(cells, LastLeaf(t, base), link'), base, t, Threaded, first, last, link')
    decreases t, 1
  {
    if t.kids.Cons? {
      ForestRelink(t.kids, cells, base, true, link, link');
    }
  }

  lemma {:induction false} ForestRelink(f: Forest, cells: seq<Cell>, base: nat, first: bool, link: nat, link': nat)
    requires f.Cons? && ForestLaid(cells, base, f, Threaded, first, link)
    ensures HeaderAt(cells, ForestLastLeaf(f, base))
    ensures ForestLaid(SetNext(cells, ForestLastLeaf(f, base), link'), base, f, Threaded, first, link')
    decreases f, 0
  {
    if f.tail.Nil? {
      Relink(f.head, cells, base, first, true, link, link');
    } else {
      var rest := base + Qwords(f.head);
      ForestRelink(f.tail, cells, rest, false, link, link');
      LaidFrame(cells, SetNext(cells, ForestLastLeaf(f.tail, rest), link'), base, f.head, Threaded, first, false,
                RootAt(f.tail.head, rest));
    }
  }

  // ---------- Structural meaning of the pass ----------

  // The pass over `t` stays within the index stack, `height` entries being in use.
  predicate Fits(t: Tree, height: nat, first: bool, last: bool) {
    height + OpenLists(t) <= MAX_AST_DEPTH && (first && !last ==> height < MAX_AST_DEPTH)
  }

  predicate ForestFits(f: Forest, height: nat, first: bool) {
    height + (if first then ForestOpenLists(f) else RestOpenLists(f)) <= MAX_AST_DEPTH
  }

  // A node that is not a first sibling needs its previous sibling on the stack.
  predicate Ready(s: ThreadState, base: nat, first: bool) {
    && |s.stack| <= MAX_AST_DEPTH
    && (!first ==> |s.stack| > 0 && Top(s.stack) < base && HeaderAt(s.cells, Top(s.stack)))
  }

  function Linked(s: ThreadState, first: bool, to: nat): seq<Cell>
    requires Ready(s, to, first)
  {
    if first then s.cells else SetNext(s.cells, Top(s.stack), to)
  }

  function StackAfter(s: ThreadState, t: Tree, base: nat, first: bool, last: bool): seq<nat>
    requires !first ==> |s.stack| > 0
  {
    var below := if first then s.stack else Front(s.stack);
    if last then below else below + [LastLeaf(t, base)]
  }

  // The iteration at a node whose descendants are threaded.
  lemma ThreadRoot(t: Tree, s: ThreadState, base: nat, first: bool, last: bool) returns (out: ThreadState)
    requires RecordAt(s.cells, RootAt(t, base), RootCell(t, base, Flagged, first, last, NO_CHILDREN), t.info.attachment)
    requires ForestLaid(s.cells, base, t.kids, Threaded, true, NO_CHILDREN)
    requires Ready(s, base, first)
    requires t.kids.Cons? ==> s.lastLeaf == LastLeaf(t, base) && s.lastLeaf < NO_CHILDREN
    ensures first && !last && |s.stack| == MAX_AST_DEPTH ==> ThreadStep(s, RootAt(t, base)) == Panic
    ensures !(first && !last && |s.stack| == MAX_AST_DEPTH) ==> ThreadStep(s, RootAt(t, base)) == Ok(out)
    ensures out.cells == Linked(s, first, RootAt(t, base))
    ensures out.stack == StackAfter(s, t, base, first, last)
    ensures last || t.kids.Cons? ==> out.lastLeaf == LastLeaf(t, base)
    ensures Laid(out.cells, base, t, Threaded, first, last, NO_CHILDREN)
  {
    out := ThreadState(Linked(s, first, RootAt(t, base)), StackAfter(s, t, base, first, last),
                       if last then LastLeaf(t, base) else s.lastLeaf);
    ForestLaidFrame(s.cells, out.cells, base, t.kids, Threaded, true, NO_CHILDREN);
  }

  // The same as a part of the run; `s` is the state before the descendants.
  lemma ThreadAfterKids(t: Tree, s: ThreadState, inner: ThreadState, base: nat, end: nat, first: bool, last: bool)
    returns (out: ThreadState)
    requires Laid(s.cells, base, t, Flagged, first, last, NO_CHILDREN) && Ready(s, base, first)
    requires base + Qwords(t) <= end <= |s.cells| && base + Qwords(t) <= NO_CHILDREN
    requires |s.stack| + OpenLists(t) <= MAX_AST_DEPTH
    requires |inner.cells| == |s.cells| && AgreeOutside(s.cells, inner.cells, base, base + ForestQwords(t.kids))
    requires ForestLaid(inner.cells, base, t.kids, Threaded, true, NO_CHILDREN) && inner.stack == s.stack
    requires t.kids.Cons? ==> inner.lastLeaf == ForestLastLeaf(t.kids, base)
    ensures !Fits(t, |s.stack|, first, last) ==> ThreadRun(inner, RootAt(t, base), end) == Panic
    ensures Fits(t, |s.stack|, first, last) ==>
              && |out.cells| == |s.cells|
              && AgreeOutside(Linked(s, first, RootAt(t, base)), out.cells, base, base + Qwords(t))
              && Laid(out.cells, base, t, Threaded, first, last, NO_CHILDREN)
              && out.stack == StackAfter(s, t, base, first, last)
              && (last || t.kids.Cons? ==> out.lastLeaf == LastLeaf(t, base))
              && ThreadRun(inner, RootAt(t, base), end) == ThreadRun(out, base + Qwords(t), end)
  {
    hide ThreadRun, ThreadStep, ForestLaid, ForestOpenLists;
    out := ThreadRoot(t, inner, base, first, last);
    if Fits(t, |s.stack|, first, last) {
      ThreadRunStep(inner, RootAt(t, base), out, end);
    } else {
      ThreadRunPanic(inner, RootAt(t, base), end);
    }
  }

  /** The pass over one subtree: it panics exactly when the index stack is too small;
      otherwise the subtree ends up threaded, the previous sibling points to its root, and
      the stack holds the leaf from which the next sibling will be linked. */
  lemma {:induction false} ThreadTree(t: Tree, s: ThreadState, base: nat, end: nat, first: bool, last: bool)
    returns (out: ThreadState)
    requires Laid(s.cells, base, t, Flagged, first, last, NO_CHILDREN)
    requires base + Qwords(t) <= end <= |s.cells| && base + Qwords(t) <= NO_CHILDREN
    requires Ready(s, base, first)
    ensures !Fits(t, |s.stack|, first, last) ==> ThreadRun(s, base, end) == Panic
    ensures Fits(t, |s.stack|, first, last) ==>
              && |out.cells| == |s.cells|
              && AgreeOutside(Linked(s, first, RootAt(t, base)), out.cells, base, base + Qwords(t))
              && Laid(out.cells, base, t, Threaded, first, last, NO_CHILDREN)
              && out.stack == StackAfter(s, t, base, first, last)
              && (last || t.kids.Cons? ==> out.lastLeaf == LastLeaf(t, base))
              && ThreadRun(s, base, end) == ThreadRun(out, base + Qwords(t), end)
    decreases t, 2
  {
    hide ThreadRun, Linked, AgreeOutside, ForestLaid, ForestOpenLists, StackAfter, ForestLastLeaf;
    var inner := ThreadForest(t.kids, s, base, end, true);
    out := inner;
    if |s.stack| + OpenLists(t) <= MAX_AST_DEPTH {
      out := ThreadAfterKids(t, s, inner, base, end, first, last);
    }
  }

  lemma {:induction false} ThreadForest(f: Forest, s: ThreadState, base: nat, end: nat, first: bool)
    returns (out: ThreadState)
    requires ForestLaid(s.cells, base, f, Flagged, first, NO_CHILDREN)
    requires base + ForestQwords(f) <= end <= |s.cells| && base + ForestQwords(f) <= NO_CHILDREN
    requires Ready(s, base, first) && (f.Nil? ==> first)
    ensures !ForestFits(f, |s.stack|, first) ==> ThreadRun(s, base, end) == Panic
    ensures ForestFits(f, |s.stack|, first) ==>
              && |out.cells| == |s.cells|
              && AgreeOutside(if first then s.cells else Linked(s, first, RootAt(f.head, base)), out.cells,
                              base, base + ForestQwords(f))
              && ForestLaid(out.cells, base, f, Threaded, first, NO_CHILDREN)
              && out.stack == (if first then s.stack else Front(s.stack))
              && (f.Cons? ==> out.lastLeaf == ForestLastLeaf(f, base))
              && ThreadRun(s, base, end) == ThreadRun(out, base + ForestQwords(f), end)
    decreases f, 1
  {
    hide ThreadRun, Laid, Fits, ForestFits, OpenLists, RestOpenLists, ForestOpenLists;
    out := s;
    if f.Nil? {
      NothingFits(|s.stack|);
    } else {
      FitsParts(f, |s.stack|, first);
      out := ThreadTree(f.head, s, base, end, first, f.tail.Nil?);
      if f.tail.Cons? && Fits(f.head, |s.stack|, first, false) {
        ForestLaidFrame(s.cells, out.cells, base + Qwords(f.head), f.tail, Flagged, false, NO_CHILDREN);
        var mid := out;
        out := ThreadSiblings(f, mid, base, end, first);
      }
    }
  }

  lemma NothingFits(height: nat)
    requires height <= MAX_AST_DEPTH
    ensures ForestFits(Nil, height, true)
  {
  }

  lemma FitsParts(f: Forest, height: nat, first: bool)
    requires f.Cons? && (!first ==> height > 0)
    ensures ForestFits(f, height, first) <==>
      && Fits(f.head, height, first, f.tail.Nil?)
      && (f.tail.Cons? ==> ForestFits(f.tail, if first then height + 1 else height, false))
    ensures Fits(f.head, height, first, false) ==> height <= MAX_AST_DEPTH && (first ==> height < MAX_AST_DEPTH)
  {
  }

  // The rest of a sibling list whose head is threaded and on the stack.
  lemma {:induction false} ThreadSiblings(f: Forest, mid: ThreadState, base: nat, end: nat, first: bool)
    returns (out: ThreadState)
    requires f.Cons? && f.tail.Cons?
    requires base + ForestQwords(f) <= end <= |mid.cells| && base + ForestQwords(f) <= NO_CHILDREN
    requires Laid(mid.cells, base, f.head, Threaded, first, false, NO_CHILDREN)
    requires ForestLaid(mid.cells, base + Qwords(f.head), f.tail, Flagged, false, NO_CHILDREN)
    requires 0 < |mid.stack| <= MAX_AST_DEPTH && Top(mid.stack) == LastLeaf(f.head, base)
    ensures !ForestFits(f.tail, |mid.stack|, false) ==> ThreadRun(mid, base + Qwords(f.head), end) == Panic
    ensures ForestFits(f.tail, |mid.stack|, false) ==>
              && AgreeOutside(mid.cells, out.cells, base, base + ForestQwords(f))
              && ForestLaid(out.cells, base, f, Threaded, first, NO_CHILDREN)
              && out.stack == Front(mid.stack)
              && out.lastLeaf == ForestLastLeaf(f, base)
              && ThreadRun(mid, base + Qwords(f.head), end) == ThreadRun(out, base + ForestQwords(f), end)
    decreases f, 0
  {
    hide ThreadRun, Laid;
    var h, tl, rest := f.head, f.tail, base + Qwords(f.head);
    var to := RootAt(tl.head, rest);
    Relink(h, mid.cells, base, first, false, NO_CHILDREN, to);
    out := ThreadForest(tl, mid, rest, end, false);
    if ForestFits(tl, |mid.stack|, false) {
      LaidFrame(Linked(mid, false, to), out.cells, base, h, Threaded, first, false, to);
    }
  }

  /** `build_traversal_list` on a whole builder: it panics exactly when more sibling lists
      are open at once than the index stack has entries. */
  lemma ThreadWhole(t: Tree, cells: seq<Cell>)
    requires Laid(cells, 0, t, Flagged, true, true, NO_CHILDREN)
    requires |cells| == Qwords(t) <= BUILDER_CAPACITY
    ensures var r := ThreadRun(ThreadState(cells, [], NO_CHILDREN), 0, Qwords(t));
            && (r.Panic? <==> OpenLists(t) > MAX_AST_DEPTH)
            && (OpenLists(t) <= MAX_AST_DEPTH ==>
                  r.Ok? && r.value.stack == [] && Laid(r.value.cells, 0, t, Threaded, true, true, NO_CHILDREN))
  {
    var out := ThreadTree(t, ThreadState(cells, [], NO_CHILDREN), 0, Qwords(t), true, true);
  }

  // ---------- The list the pass leaves behind ----------

  // Builder indices of the nodes of `t`, in preorder.
  function PreorderIndices(t: Tree, base: nat): (r: seq<nat>)
    ensures |r| > 0 && r[0] == RootAt(t, base)
    decreases t
  {
    [RootAt(t, base)] + ForestPreorderIndices(t.kids, base)
  }

  function ForestPreorderIndices(f: Forest, base: nat): (r: seq<nat>)
    ensures f.Cons? ==> |r| > 0 && r[0] == RootAt(f.head, base)
    decreases f
  {
    match f
    case Nil => []
    case Cons(h, tl) => PreorderIndices(h, base) + ForestPreorderIndices(tl, base + Qwords(h))
  }

  function Follower(order: seq<nat>, k: nat, link: nat): nat {
    if k + 1 < |order| then order[k + 1] else link
  }

  // `next` leads from each index of `order` to the following one, and from the last to `link`.
  predicate Chained(cells: seq<Cell>, order: seq<nat>, link: nat) {
    forall k | 0 <= k < |order| :: HeaderAt(cells, order[k]) && cells[order[k]].next == Follower(order, k, link)
  }

  predicate Within(order: seq<nat>, from: nat, to: nat) {
    forall k | 0 <= k < |order| :: from <= order[k] < to
  }

  predicate Distinct(order: seq<nat>) {
    forall j, k | 0 <= j < k < |order| :: order[j] != order[k]
  }

  /** The reused `next` field forms one list that visits the nodes in preorder. */
  lemma {:induction false} ThreadedIsChained(t: Tree, cells: seq<Cell>, base: nat, first: bool, last: bool, link: nat)
    requires Laid(cells, base, t, Threaded, first, last, link)
    ensures Chained(cells, PreorderIndices(t, base), link)
    decreases t, 1
  {
    ForestThreadedIsChained(t.kids, cells, base, true, link);
  }

  lemma {:induction false} ForestThreadedIsChained(f: Forest, cells: seq<Cell>, base: nat, first: bool, link: nat)
    requires ForestLaid(cells, base, f, Threaded, first, link)
    ensures Chained(cells, ForestPreorderIndices(f, base), link)
    decreases f, 0
  {
    match f
    case Nil =>
    case Cons(h, tl) =>
      var rest := base + Qwords(h);
      ThreadedIsChained(h, cells, base, first, tl.Nil?, SiblingLink(tl, rest, Threaded, link));
      ForestThreadedIsChained(tl, cells, rest, false, link);
      ChainedAppend(cells, PreorderIndices(h, base), ForestPreorderIndices(tl, rest), link);
  }

  lemma ChainedAppend(cells: seq<Cell>, a: seq<nat>, b: seq<nat>, link: nat)
    requires Chained(cells, a, if b == [] then link else b[0]) && Chained(cells, b, link)
    ensures Chained(cells, a + b, link)
  {
    var ab := a + b;
    forall k | 0 <= k < |ab|
      ensures HeaderAt(cells, ab[k]) && cells[ab[k]].next == Follower(ab, k, link)
    {
      if k < |a| {
        assert ab[k] == a[k];
        assert Follower(ab, k, link) == Follower(a, k, if b == [] then link else b[0]);
      } else {
        assert ab[k] == b[k - |a|];
        assert Follower(ab, k, link) == Follower(b, k - |a|, link);
      }
    }
  }

  /** No node is visited twice, so the list is acyclic. */
  lemma {:induction false} PreorderDistinct(t: Tree, base: nat)
    ensures Distinct(PreorderIndices(t, base)) && Within(PreorderIndices(t, base), base, base + Qwords(t))
    decreases t, 1
  {
    ForestPreorderDistinct(t.kids, base);
  }

  lemma {:induction false} ForestPreorderDistinct(f: Forest, base: nat)
    ensures Distinct(ForestPreorderIndices(f, base))
    ensures Within(ForestPreorderIndices(f, base), base, base + ForestQwords(f))
    decreases f, 0
  {
    match f
    case Nil =>
    case Cons(h, tl) =>
      PreorderDistinct(h, base);
      ForestPreorderDistinct(tl, base + Qwords(h));
  }

  /** Every header of the builder is on the list. */
  lemma {:induction false} PreorderCoversHeaders(t: Tree, cells: seq<Cell>, base: nat, first: bool, last: bool,
                                                 link: nat, i: nat)
    requires Laid(cells, base, t, Threaded, first, last, link)
    requires base <= i < base + Qwords(t) && HeaderAt(cells, i)
    ensures i in PreorderIndices(t, base)
    decreases t, 1
  {
    if i < RootAt(t, base) {
      ForestPreorderCoversHeaders(t.kids, cells, base, true, link, i);
    } else if i > RootAt(t, base) {
      assert false;
    }
  }

  lemma {:induction false} ForestPreorderCoversHeaders(f: Forest, cells: seq<Cell>, base: nat, first: bool, link: nat,
                                                       i: nat)
    requires ForestLaid(cells, base, f, Threaded, first, link)
    requires base <= i < base + ForestQwords(f) && HeaderAt(cells, i)
    ensures i in ForestPreorderIndices(f, base)
    decreases f, 0
  {
    var h, tl, rest := f.head, f.tail, base + Qwords(f.head);
    if i < rest {
      PreorderCoversHeaders(h, cells, base, first, tl.Nil?, SiblingLink(tl, rest, Threaded, link), i);
    } else {
      ForestPreorderCoversHeaders(tl, cells, rest, false, link, i);
    }
  }
}
