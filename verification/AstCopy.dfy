/** The third conversion pass: copying along the list while computing subtree sizes. */
module AstCopy {
  import opened Basics
  import opened Ast
  import opened AstFlags
  import opened AstThreading

  // Loop state of `copy_postorder_to_preorder`: the cells written so far, and the indices of
  // those written nodes whose size is not known yet, outermost first.
  datatype CopyState = CopyState(dst: seq<Cell>, stack: seq<nat>)

  // Entering a node that is not a first sibling completes nodes up to its previous sibling.
  function Complete(dst: seq<Cell>, stack: seq<nat>, end: nat): (r: Outcome<CopyState>)
    ensures r.Ok? ==> |r.value.dst| == |dst| && |r.value.stack| < |stack|
    decreases |stack|
  {
    if |stack| <= 1 || !HeaderAt(dst, Top(stack)) || Top(stack) > end then AssertionFailed
    else
      var i := Top(stack);
      var dst' := SetNext(dst, i, end - i);
      if dst[i].structure.last then Complete(dst', Front(stack), end) else Ok(CopyState(dst', Front(stack)))
  }

  // One iteration: copy the record at `i`, complete what it ends, put it on the stack.
  function CopyStep(src: seq<Cell>, s: CopyState, i: nat): (r: Outcome<CopyState>)
    ensures r.Ok? ==> |r.value.stack| <= MAX_AST_DEPTH
  {
    if !HeaderAt(src, i) || i + src[i].own > |src| then AssertionFailed
    else
      var dst := s.dst + src[i..i + src[i].own];
      var done := if src[i].structure.first then Ok(CopyState(dst, s.stack)) else Complete(dst, s.stack, |s.dst|);
      if !done.Ok? || |done.value.stack| >= MAX_AST_DEPTH then AssertionFailed
      else Ok(CopyState(done.value.dst, done.value.stack + [|s.dst|]))
  }

  function CopyRun(src: seq<Cell>, s: CopyState, order: seq<nat>): Outcome<CopyState>
    decreases |order|
  {
    if order == [] then Ok(s)
    else
      match CopyStep(src, s, order[0])
      case Ok(s') => CopyRun(src, s', order[1..])
      case Panic => Panic
      case AssertionFailed => AssertionFailed
  }

  lemma {:induction false} CopyRunAppend(src: seq<Cell>, s: CopyState, a: seq<nat>, b: seq<nat>)
    ensures CopyRun(src, s, a + b)
         == match CopyRun(src, s, a)
            case Ok(m) => CopyRun(src, m, b)
            case Panic => Panic
            case AssertionFailed => AssertionFailed
    decreases |a|
  {
    if a == [] {
      assert a + b == b;
    } else {
      assert (a + b)[0] == a[0] && (a + b)[1..] == a[1..] + b;
      var r := CopyStep(src, s, a[0]);
      if r.Ok? {
        CopyRunAppend(src, r.value, a[1..], b);
      }
    }
  }

  // The final loop completes everything that is left on the stack.
  function Drain(dst: seq<Cell>, stack: seq<nat>, end: nat): (r: Outcome<seq<Cell>>)
    ensures r.Ok? ==> |r.value| == |dst|
    decreases |stack|
  {
    if stack == [] then Ok(dst)
    else if !HeaderAt(dst, Top(stack)) || Top(stack) > end then AssertionFailed
    else Drain(SetNext(dst, Top(stack), end - Top(stack)), Front(stack), end)
  }

  // ---------- Trees whose last path is still open ----------

  // Like `RecordAt`, the header's `next` being arbitrary.
  predicate OpenRecordAt(cells: seq<Cell>, i: nat, header: Cell, attachment: seq<nat>) {
    header.Header? && HeaderAt(cells, i) && RecordAt(cells, i, header.(next := cells[i].next), attachment)
  }

  predicate OpenStored(cells: seq<Cell>, base: nat, t: Tree, first: bool, last: bool)
    decreases t
  {
    && OpenRecordAt(cells, base, StoredRoot(t, first, last), t.info.attachment)
    && ForestOpenStored(cells, base + t.info.Own(), t.kids, true)
  }

  predicate ForestOpenStored(cells: seq<Cell>, base: nat, f: Forest, first: bool)
    decreases f
  {
    match f
    case Nil => true
    case Cons(h, tl) =>
      if tl.Nil? then OpenStored(cells, base, h, first, true)
      else Stored(cells, base, h, first, false) && ForestOpenStored(cells, base + Qwords(h), tl, false)
  }

  // Indices of the open nodes: the path from the root to the preorder-last leaf.
  function LastPath(t: Tree, base: nat): (r: seq<nat>)
    ensures |r| <= Height(t)
    decreases t
  {
    [base] + ForestLastPath(t.kids, base + t.info.Own())
  }

  function ForestLastPath(f: Forest, base: nat): (r: seq<nat>)
    ensures |r| <= ForestHeight(f)
    decreases f
  {
    match f
    case Nil => []
    case Cons(h, tl) => if tl.Nil? then LastPath(h, base) else ForestLastPath(tl, base + Qwords(h))
  }

  lemma {:induction false} OpenStoredFrame(a: seq<Cell>, b: seq<Cell>, base: nat, t: Tree, first: bool, last: bool)
    requires OpenStored(a, base, t, first, last)
    requires Agree(a, b, base, base + Qwords(t))
    ensures OpenStored(b, base, t, first, last)
    decreases t, 1
  {
    ForestOpenStoredFrame(a, b, base + t.info.Own(), t.kids, true);
  }

  lemma {:induction false} ForestOpenStoredFrame(a: seq<Cell>, b: seq<Cell>, base: nat, f: Forest, first: bool)
    requires ForestOpenStored(a, base, f, first)
    requires Agree(a, b, base, base + ForestQwords(f))
    ensures ForestOpenStored(b, base, f, first)
    decreases f, 0
  {
    match f
    case Nil =>
    case Cons(h, tl) =>
      if tl.Nil? {
        OpenStoredFrame(a, b, base, h, first, true);
      } else {
        StoredFrame(a, b, base, h, first, false);
        ForestOpenStoredFrame(a, b, base + Qwords(h), tl, false);
      }
  }

  // Completing the root of a tree whose descendants are complete.
  lemma CloseRoot(t: Tree, dst: seq<Cell>, base: nat, first: bool, last: bool)
    requires OpenRecordAt(dst, base, StoredRoot(t, first, last), t.info.attachment)
    requires ForestStored(dst, base + t.info.Own(), t.kids, true)
    ensures Stored(SetNext(dst, base, Qwords(t)), base, t, first, last)
  {
    ForestStoredFrame(dst, SetNext(dst, base, Qwords(t)), base + t.info.Own(), t.kids, true);
  }

  lemma PopOne(dst: seq<Cell>, below: seq<nat>, i: nat, end: nat)
    requires |below| >= 1 && HeaderAt(dst, i) && i <= end
    ensures dst[i].structure.last ==>
              Complete(dst, below + [i], end) == Complete(SetNext(dst, i, end - i), below, end)
    ensures !dst[i].structure.last ==>
              Complete(dst, below + [i], end) == Ok(CopyState(SetNext(dst, i, end - i), below))
    ensures Drain(dst, below + [i], end) == Drain(SetNext(dst, i, end - i), below, end)
  {
    assert Front(below + [i]) == below;
  }

  /** Completing the open path of a tree up to, but excluding, its root. */
  lemma {:induction false} CompleteForest(f: Forest, dst: seq<Cell>, below: seq<nat>, base: nat, end: nat, first: bool)
    returns (out: seq<Cell>)
    requires ForestOpenStored(dst, base, f, first) && end == base + ForestQwords(f)
    requires |below| >= 1
    ensures AgreeOutside(dst, out, base, end)
    ensures ForestStored(out, base, f, first)
    ensures Complete(dst, below + ForestLastPath(f, base), end) == Complete(out, below, end)
    ensures Drain(dst, below + ForestLastPath(f, base), end) == Drain(out, below, end)
    decreases f
  {
    hide Complete, Drain;
    match f
    case Nil =>
      out := dst;
      assert below + ForestLastPath(f, base) == below;
    case Cons(h, tl) =>
      if tl.Nil? {
        var kids := base + h.info.Own();
        var inner := CompleteForest(h.kids, dst, below + [base], kids, end, true);
        assert below + LastPath(h, base) == (below + [base]) + ForestLastPath(h.kids, kids);
        PopOne(inner, below, base, end);
        CloseRoot(h, inner, base, first, true);
        out := SetNext(inner, base, Qwords(h));
      } else {
        out := CompleteForest(tl, dst, below, base + Qwords(h), end, false);
        StoredFrame(dst, out, base, h, first, false);
      }
  }

  /** Entering the next sibling of `t` completes exactly the open path of `t`. */
  lemma CompleteTree(t: Tree, dst: seq<Cell>, below: seq<nat>, base: nat, first: bool) returns (out: seq<Cell>)
    requires OpenStored(dst, base, t, first, false) && |below| >= 1
    ensures AgreeOutside(dst, out, base, base + Qwords(t))
    ensures Stored(out, base, t, first, false)
    ensures Complete(dst, below + LastPath(t, base), base + Qwords(t)) == Ok(CopyState(out, below))
  {
    hide Complete;
    var kids := base + t.info.Own();
    var inner := CompleteForest(t.kids, dst, below + [base], kids, base + Qwords(t), true);
    assert below + LastPath(t, base) == (below + [base]) + ForestLastPath(t.kids, kids);
    PopOne(inner, below, base, base + Qwords(t));
    CloseRoot(t, inner, base, first, false);
    out := SetNext(inner, base, Qwords(t));
  }

  /** The final loop completes the open path of the whole tree. */
  lemma DrainTree(t: Tree, dst: seq<Cell>) returns (out: seq<Cell>)
    requires OpenStored(dst, 0, t, true, true)
    ensures Stored(out, 0, t, true, true) && |out| == |dst|
    ensures Drain(dst, LastPath(t, 0), Qwords(t)) == Ok(out)
  {
    var inner := CompleteForest(t.kids, dst, [0], t.info.Own(), Qwords(t), true);
    out := SetNext(inner, 0, Qwords(t));
    CloseRoot(t, inner, 0, true, true);
    assert Front([0]) == [];
  }

  // ---------- Structural meaning of the copying loop ----------

  // The previous sibling of the next node to copy: open, and on top of the stack.
  datatype Sibling = NoSibling | Sibling(tree: Tree, at: nat, first: bool)

  function SiblingPath(prev: Sibling): seq<nat> {
    match prev
    case NoSibling => []
    case Sibling(t, at, first) => LastPath(t, at)
  }

  predicate SiblingOpen(dst: seq<Cell>, prev: Sibling) {
    prev.Sibling? ==> prev.at + Qwords(prev.tree) == |dst| && OpenStored(dst, prev.at, prev.tree, prev.first, false)
  }

  // What copying the next sibling makes of the cells in front of it.
  predicate SiblingDone(dst: seq<Cell>, out: seq<Cell>, prev: Sibling) {
    match prev
    case NoSibling => Agree(dst, out, 0, |dst|)
    case Sibling(t, at, first) => at <= |dst| && Agree(dst, out, 0, at) && Stored(out, at, t, first, false)
  }

  // The record as copied, its `next` still being the source's link.
  lemma CopiedRecord(src: seq<Cell>, dst: seq<Cell>, i: nat, header: Cell, next: nat, attachment: seq<nat>)
    requires header.Header? && header.own == 1 + |attachment|
    requires RecordAt(src, i, header.(next := next), attachment)
    ensures OpenRecordAt(dst + src[i..i + header.own], |dst|, header, attachment)
  {
    var out := dst + src[i..i + header.own];
    forall k | |dst| < k <= |dst| + |attachment| ensures out[k] == Word(attachment[k - |dst| - 1]) {
      assert out[k] == src[i + (k - |dst|)];
    }
  }

  // The iteration for the root of `t`.
  lemma CopyRoot(t: Tree, src: seq<Cell>, s: CopyState, base: nat, first: bool, last: bool, link: nat,
                 below: seq<nat>, prev: Sibling)
    returns (out: CopyState)
    requires RecordAt(src, RootAt(t, base), RootCell(t, base, Threaded, first, last, link), t.info.attachment)
    requires s.stack == below + SiblingPath(prev) && SiblingOpen(s.dst, prev)
    requires first == prev.NoSibling? && (!first ==> |below| >= 1)
    ensures CopyStep(src, s, RootAt(t, base)) == if |below| < MAX_AST_DEPTH then Ok(out) else AssertionFailed
    ensures |out.dst| == |s.dst| + t.info.Own() && out.stack == below + [|s.dst|]
    ensures OpenRecordAt(out.dst, |s.dst|, StoredRoot(t, first, last), t.info.attachment)
    ensures SiblingDone(s.dst, out.dst, prev)
  {
    hide Complete, OpenStored, Stored;
    var root := RootAt(t, base);
    CopiedRecord(src, s.dst, root, StoredRoot(t, first, last), FirstKidOr(t, base, link), t.info.attachment);
    var cells := s.dst + src[root..root + t.info.Own()];
    if prev.NoSibling? {
      assert below + [] == below;
      out := CopyState(cells, below + [|s.dst|]);
    } else {
      OpenStoredFrame(s.dst, cells, prev.at, prev.tree, prev.first, false);
      var done := CompleteTree(prev.tree, cells, below, prev.at, prev.first);
      out := CopyState(done, below + [|s.dst|]);
    }
  }

  lemma CopyRunStep(src: seq<Cell>, s: CopyState, i: nat, rest: seq<nat>)
    ensures CopyStep(src, s, i).Ok? ==> CopyRun(src, s, [i] + rest) == CopyRun(src, CopyStep(src, s, i).value, rest)
    ensures CopyStep(src, s, i).AssertionFailed? ==> CopyRun(src, s, [i] + rest) == AssertionFailed
  {
    assert ([i] + rest)[1..] == rest;
  }

  /** Copying one subtree. It stays within the index stack exactly when the levels of the
      tree fit on top of those in use; then the subtree is stored, its last path open. */
  lemma {:induction false} CopyTree(t: Tree, src: seq<Cell>, s: CopyState, base: nat, first: bool, last: bool,
                                    link: nat,
                                    below: seq<nat>, prev: Sibling)
    returns (out: CopyState)
    requires Laid(src, base, t, Threaded, first, last, link)
    requires s.stack == below + SiblingPath(prev) && SiblingOpen(s.dst, prev)
    requires first == prev.NoSibling? && (!first ==> |below| >= 1)
    ensures |below| + Height(t) > MAX_AST_DEPTH ==> CopyRun(src, s, PreorderIndices(t, base)) == AssertionFailed
    ensures |below| + Height(t) <= MAX_AST_DEPTH ==>
              && CopyRun(src, s, PreorderIndices(t, base)) == Ok(out)
              && |out.dst| == |s.dst| + Qwords(t)
              && out.stack == below + LastPath(t, |s.dst|)
              && OpenStored(out.dst, |s.dst|, t, first, last)
              && SiblingDone(s.dst, out.dst, prev)
    decreases t, 2
  {
    hide CopyRun, CopyStep, Laid, Stored, OpenRecordAt, ForestOpenStored, SiblingDone, SiblingOpen, Complete, RecordAt,
         ForestLaid,
         ForestStored;
    LaidParts(t, src, base, first, last, link);
    out := CopyRoot(t, src, s, base, first, last, link, below, prev);
    CopyRunStep(src, s, RootAt(t, base), ForestPreorderIndices(t.kids, base));
    if |below| < MAX_AST_DEPTH {
      var entered := out;
      out := CopyForest(t.kids, src, entered, base, link);
      if |below| + Height(t) <= MAX_AST_DEPTH {
        assert below + LastPath(t, |s.dst|) == entered.stack + ForestLastPath(t.kids, |entered.dst|);
        SiblingKept(s.dst, entered.dst, out.dst, prev);
        OpenRecordFrame(entered.dst, out.dst, |s.dst|, StoredRoot(t, first, last), t.info.attachment);
      }
    }
  }

  lemma OpenRecordFrame(a: seq<Cell>, b: seq<Cell>, i: nat, header: Cell, attachment: seq<nat>)
    requires OpenRecordAt(a, i, header, attachment) && Agree(a, b, i, i + 1 + |attachment|)
    ensures OpenRecordAt(b, i, header, attachment)
  {
  }

  lemma LaidParts(t: Tree, src: seq<Cell>, base: nat, first: bool, last: bool, link: nat)
    requires Laid(src, base, t, Threaded, first, last, link)
    ensures ForestLaid(src, base, t.kids, Threaded, true, link)
    ensures RecordAt(src, RootAt(t, base), RootCell(t, base, Threaded, first, last, link), t.info.attachment)
  {
  }

  lemma SiblingKept(dst: seq<Cell>, a: seq<Cell>, b: seq<Cell>, prev: Sibling)
    requires SiblingDone(dst, a, prev) && SiblingOpen(dst, prev) && Agree(a, b, 0, |dst|)
    ensures SiblingDone(dst, b, prev)
  {
    if prev.Sibling? {
      StoredFrame(a, b, prev.at, prev.tree, prev.first, false);
    }
  }

  lemma {:induction false} CopyForest(f: Forest, src: seq<Cell>, s: CopyState, base: nat, link: nat)
    returns (out: CopyState)
    requires ForestLaid(src, base, f, Threaded, true, link)
    requires 1 <= |s.stack| <= MAX_AST_DEPTH
    ensures |s.stack| + ForestHeight(f) > MAX_AST_DEPTH ==>
      CopyRun(src, s, ForestPreorderIndices(f, base)) == AssertionFailed
    ensures |s.stack| + ForestHeight(f) <= MAX_AST_DEPTH ==>
              && CopyRun(src, s, ForestPreorderIndices(f, base)) == Ok(out)
              && |out.dst| == |s.dst| + ForestQwords(f)
              && out.stack == s.stack + ForestLastPath(f, |s.dst|)
              && ForestOpenStored(out.dst, |s.dst|, f, true)
              && Agree(s.dst, out.dst, 0, |s.dst|)
    decreases f, 1
  {
    hide CopyStep, Laid, Stored;
    assert s.stack + [] == s.stack;
    out := CopySiblings(f, src, s, base, link, s.stack, NoSibling);
  }

  lemma {:induction false} CopySiblings(f: Forest, src: seq<Cell>, s: CopyState, base: nat, link: nat,
                                        below: seq<nat>, prev: Sibling)
    returns (out: CopyState)
    requires ForestLaid(src, base, f, Threaded, prev.NoSibling?, link)
    requires s.stack == below + SiblingPath(prev) && SiblingOpen(s.dst, prev)
    requires 1 <= |below| <= MAX_AST_DEPTH && (f.Nil? ==> prev.NoSibling?)
    ensures |below| + ForestHeight(f) > MAX_AST_DEPTH ==>
      CopyRun(src, s, ForestPreorderIndices(f, base)) == AssertionFailed
    ensures |below| + ForestHeight(f) <= MAX_AST_DEPTH ==>
              && CopyRun(src, s, ForestPreorderIndices(f, base)) == Ok(out)
              && |out.dst| == |s.dst| + ForestQwords(f)
              && out.stack == below + ForestLastPath(f, |s.dst|)
              && ForestOpenStored(out.dst, |s.dst|, f, prev.NoSibling?)
              && SiblingDone(s.dst, out.dst, prev)
    decreases f, 0
  {
    hide CopyRun, CopyStep, Laid, Stored, OpenStored, LastPath;
    if f.Nil? {
      out := s;
      CopyRunNil(src, s);
    } else {
      var h, tl, rest := f.head, f.tail, base + Qwords(f.head);
      var first := prev.NoSibling?;
      var mid := CopyTree(h, src, s, base, first, tl.Nil?, SiblingLink(tl, rest, Threaded, link), below, prev);
      CopyRunAppend(src, s, PreorderIndices(h, base), ForestPreorderIndices(tl, rest));
      out := mid;
      if tl.Nil? {
        CopyRunNil(src, mid);
      } else if |below| + Height(h) <= MAX_AST_DEPTH {
        out := CopySiblings(tl, src, mid, rest, link, below, Sibling(h, |s.dst|, first));
        if |below| + ForestHeight(f) <= MAX_AST_DEPTH {
          SiblingKept(s.dst, mid.dst, out.dst, prev);
        }
      }
    }
  }

  lemma CopyRunNil(src: seq<Cell>, s: CopyState)
    ensures CopyRun(src, s, []) == Ok(s)
  {
  }

  /** `copy_postorder_to_preorder` on a whole builder: it stays within its index stack
      exactly when the tree has at most `MAX_AST_DEPTH` levels, and then stores the tree. */
  lemma CopyWhole(t: Tree, src: seq<Cell>)
    requires Laid(src, 0, t, Threaded, true, true, NO_CHILDREN)
    ensures var r := CopyRun(src, CopyState([], []), PreorderIndices(t, 0));
            && (r.Ok? <==> Height(t) <= MAX_AST_DEPTH)
            && (r.Ok? ==>
                  && |r.value.dst| == Qwords(t)
                  && Drain(r.value.dst, r.value.stack, Qwords(t)).Ok?
                  && Stored(Drain(r.value.dst, r.value.stack, Qwords(t)).value, 0, t, true, true))
  {
    var out := CopyTree(t, src, CopyState([], []), 0, true, true, NO_CHILDREN, [], NoSibling);
    if Height(t) <= MAX_AST_DEPTH {
      assert [] + LastPath(t, 0) == LastPath(t, 0);
      var done := DrainTree(t, out.dst);
    }
  }

  // ---------- The source slots, copied along ----------

  // Each copied header takes its source slot with it; `d` is the index it is copied to.
  function SourceRun(src: seq<Cell>, from: seq<nat>, to: seq<nat>, order: seq<nat>, d: nat): (r: Outcome<seq<nat>>)
    ensures r.Ok? ==> |r.value| == |to|
    decreases |order|
  {
    if order == [] then Ok(to)
    else if !HeaderAt(src, order[0]) || order[0] >= |from| then AssertionFailed
    else if src[order[0]].own == 0 || d + src[order[0]].own > |to| then AssertionFailed
    else SourceRun(src, from, to[d := from[order[0]]], order[1..], d + src[order[0]].own)
  }

  predicate SameOutside(a: seq<nat>, b: seq<nat>, from: nat, to: nat) {
    |a| == |b| && forall i | 0 <= i < |a| && !(from <= i < to) :: a[i] == b[i]
  }

  lemma {:induction false} SourcesStoredFrame(a: seq<nat>, b: seq<nat>, base: nat, t: Tree)
    requires SourcesStored(a, base, t)
    requires |a| == |b| && forall i | base <= i < base + Qwords(t) && i < |a| :: a[i] == b[i]
    ensures SourcesStored(b, base, t)
    decreases t, 1
  {
    ForestSourcesStoredFrame(a, b, base + t.info.Own(), t.kids);
  }

  lemma {:induction false} ForestSourcesStoredFrame(a: seq<nat>, b: seq<nat>, base: nat, f: Forest)
    requires ForestSourcesStored(a, base, f)
    requires |a| == |b| && forall i | base <= i < base + ForestQwords(f) && i < |a| :: a[i] == b[i]
    ensures ForestSourcesStored(b, base, f)
    decreases f, 0
  {
    match f
    case Nil =>
    case Cons(h, tl) =>
      SourcesStoredFrame(a, b, base, h);
      ForestSourcesStoredFrame(a, b, base + Qwords(h), tl);
  }

  /** The sources arrive in preorder, each at the index of its node. */
  lemma {:induction false} CopySources(t: Tree, src: seq<Cell>, from: seq<nat>, to: seq<nat>, base: nat, d: nat,
                                       first: bool, last: bool, link: nat, rest: seq<nat>)
    returns (out: seq<nat>)
    requires Laid(src, base, t, Threaded, first, last, link) && SourcesLaid(from, base, t)
    requires d + Qwords(t) <= |to|
    ensures SourceRun(src, from, to, PreorderIndices(t, base) + rest, d)
      == SourceRun(src, from, out, rest, d + Qwords(t))
    ensures SameOutside(to, out, d, d + Qwords(t)) && SourcesStored(out, d, t)
    decreases t, 1
  {
    hide SourceRun;
    var order := [RootAt(t, base)] + (ForestPreorderIndices(t.kids, base) + rest);
    assert PreorderIndices(t, base) + rest == order;
    SourceRunStep(src, from, to, RootAt(t, base), ForestPreorderIndices(t.kids, base) + rest, d);
    out := CopyForestSources(t.kids, src, from, to[d := t.info.source], base, d + t.info.Own(), true, link, rest);
  }

  lemma SourceRunStep(src: seq<Cell>, from: seq<nat>, to: seq<nat>, i: nat, rest: seq<nat>, d: nat)
    ensures SourceRun(src, from, to, [i] + rest, d)
         == if HeaderAt(src, i) && i < |from| && 0 < src[i].own <= |to| - d
            then SourceRun(src, from, to[d := from[i]], rest, d + src[i].own)
            else AssertionFailed
  {
    assert ([i] + rest)[1..] == rest;
  }

  lemma {:induction false} CopyForestSources(f: Forest, src: seq<Cell>, from: seq<nat>, to: seq<nat>, base: nat, d: nat,
                                             first: bool, link: nat, rest: seq<nat>)
    returns (out: seq<nat>)
    requires ForestLaid(src, base, f, Threaded, first, link) && ForestSourcesLaid(from, base, f)
    requires d + ForestQwords(f) <= |to|
    ensures SourceRun(src, from, to, ForestPreorderIndices(f, base) + rest, d)
         == SourceRun(src, from, out, rest, d + ForestQwords(f))
    ensures SameOutside(to, out, d, d + ForestQwords(f)) && ForestSourcesStored(out, d, f)
    decreases f, 0
  {
    hide SourceRun, Laid;
    match f
    case Nil =>
      assert [] + rest == rest;
      out := to;
    case Cons(h, tl) =>
      var at := base + Qwords(h);
      var later := ForestPreorderIndices(tl, at) + rest;
      assert ForestPreorderIndices(f, base) + rest == PreorderIndices(h, base) + later;
      var mid := CopySources(h, src, from, to, base, d, first, tl.Nil?, SiblingLink(tl, at, Threaded, link), later);
      out := CopyForestSources(tl, src, from, mid, at, d + Qwords(h), false, link, rest);
      SourcesStoredFrame(mid, out, d, h);
  }
}
