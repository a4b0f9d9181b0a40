/** The first conversion pass: marking first and last siblings in the postorder builder. */
module AstFlags {
  import opened Ast

  /** Outcome of a pass: `Panic` ends the program, `AssertionFailed` leaves defined behaviour. */
  datatype Outcome<T> = Ok(value: T) | Panic | AssertionFailed

  function SetFirst(cells: seq<Cell>, i: nat): (r: seq<Cell>)
    requires HeaderAt(cells, i)
    ensures |r| == |cells|
  {
    cells[i := cells[i].(structure := cells[i].structure.(first := true))]
  }

  function SetLast(cells: seq<Cell>, i: nat): (r: seq<Cell>)
    requires HeaderAt(cells, i)
    ensures |r| == |cells|
  {
    cells[i := cells[i].(structure := cells[i].structure.(last := true))]
  }

  function SetNext(cells: seq<Cell>, i: nat, next: nat): (r: seq<Cell>)
    requires HeaderAt(cells, i)
    ensures |r| == |cells|
  {
    cells[i := cells[i].(next := next)]
  }

  // Loop state of `set_flags`; `prev` is -1 before the first node.
  datatype FlagState = FlagState(cells: seq<Cell>, prev: int)

  // One iteration, at the node whose header is cell `i`.
  function FlagStep(s: FlagState, i: nat): (r: Outcome<FlagState>)
    requires i < |s.cells|
    ensures r.Ok? ==> |r.value.cells| == |s.cells| && HeaderAt(s.cells, i)
  {
    var cells := s.cells;
    if !cells[i].Header? then AssertionFailed
    else if cells[i].next == NO_CHILDREN then Ok(FlagState(cells, i))
    else
      var kid := cells[i].next;
      if !HeaderAt(cells, s.prev) || !HeaderAt(cells, kid) then AssertionFailed
      else if cells[kid].structure.first || cells[kid].structure.last then AssertionFailed
      else Ok(FlagState(SetLast(SetFirst(cells, kid), s.prev), i))
  }

  function FlagRun(s: FlagState, i: nat, end: nat): (r: Outcome<FlagState>)
    requires end <= |s.cells|
    ensures r.Ok? ==> |r.value.cells| == |s.cells|
    decreases end - i
  {
    if i == end then Ok(s)
    else if i > end then AssertionFailed
    else
      match FlagStep(s, i)
      case Ok(s') => if s.cells[i].own == 0 then AssertionFailed else FlagRun(s', i + s.cells[i].own, end)
      case Panic => Panic
      case AssertionFailed => AssertionFailed
  }

  // ---------- Structural meaning of the pass ----------

  function LastRoot(f: Forest, base: nat): (i: nat)
    requires f.Cons?
    ensures base <= i < base + ForestQwords(f)
  {
    if f.tail.Nil? then RootAt(f.head, base) else LastRoot(f.tail, base + Qwords(f.head))
  }

  lemma FlagRunStep(s: FlagState, i: nat, s': FlagState, end: nat)
    requires i < end <= |s.cells| && FlagStep(s, i) == Ok(s') && s.cells[i].own > 0
    ensures FlagRun(s, i, end) == FlagRun(s', i + s.cells[i].own, end)
  {
  }

  // Flagged siblings whose outermost marks are still to be set by their parent.
  predicate Marked(cells: seq<Cell>, base: nat, f: Forest, first: bool, last: bool)
    decreases f
  {
    match f
    case Nil => true
    case Cons(h, tl) =>
      && Laid(cells, base, h, Flagged, first, tl.Nil? && last, NO_CHILDREN)
      && Marked(cells, base + Qwords(h), tl, false, last)
  }

  lemma {:induction false} MarkedFrame(a: seq<Cell>, b: seq<Cell>, base: nat, f: Forest, first: bool, last: bool)
    requires Marked(a, base, f, first, last)
    requires Agree(a, b, base, base + ForestQwords(f))
    ensures Marked(b, base, f, first, last)
    decreases f
  {
    match f
    case Nil =>
    case Cons(h, tl) =>
      LaidFrame(a, b, base, h, Flagged, first, tl.Nil? && last, NO_CHILDREN);
      MarkedFrame(a, b, base + Qwords(h), tl, false, last);
  }

  lemma {:induction false} FullyMarked(cells: seq<Cell>, base: nat, f: Forest, first: bool)
    requires Marked(cells, base, f, first, true)
    ensures ForestLaid(cells, base, f, Flagged, first, NO_CHILDREN)
    decreases f
  {
    match f
    case Nil =>
    case Cons(h, tl) => FullyMarked(cells, base + Qwords(h), tl, false);
  }

  // Setting a mark on the root of a flagged tree.
  lemma MarkRoot(cells: seq<Cell>, base: nat, t: Tree, first: bool, last: bool)
    requires Laid(cells, base, t, Flagged, first, last, NO_CHILDREN)
    ensures var at := RootAt(t, base);
            && HeaderAt(cells, at) && cells[at].structure == Structure(first, last, t.kids.Nil?)
            && Laid(SetFirst(cells, at), base, t, Flagged, true, last, NO_CHILDREN)
            && Laid(SetLast(cells, at), base, t, Flagged, first, true, NO_CHILDREN)
  {
    var at := RootAt(t, base);
    ForestLaidFrame(cells, SetFirst(cells, at), base, t.kids, Flagged, true, NO_CHILDREN);
    ForestLaidFrame(cells, SetLast(cells, at), base, t.kids, Flagged, true, NO_CHILDREN);
  }

  lemma MarkFirstSibling(cells: seq<Cell>, base: nat, f: Forest)
    requires f.Cons? && Marked(cells, base, f, false, false)
    ensures var at := RootAt(f.head, base);
            && HeaderAt(cells, at) && !cells[at].structure.first && !cells[at].structure.last
            && Marked(SetFirst(cells, at), base, f, true, false)
  {
    MarkRoot(cells, base, f.head, false, false);
    MarkedFrame(cells, SetFirst(cells, RootAt(f.head, base)), base + Qwords(f.head), f.tail, false, false);
  }

  lemma {:induction false} MarkLastSibling(cells: seq<Cell>, base: nat, f: Forest, first: bool)
    requires f.Cons? && Marked(cells, base, f, first, false)
    ensures var at := LastRoot(f, base);
            HeaderAt(cells, at) && Marked(SetLast(cells, at), base, f, first, true)
    decreases f
  {
    if f.tail.Nil? {
      MarkRoot(cells, base, f.head, first, false);
    } else {
      var rest := base + Qwords(f.head);
      MarkLastSibling(cells, rest, f.tail, false);
      LaidFrame(cells, SetLast(cells, LastRoot(f.tail, rest)), base, f.head, Flagged, first, false, NO_CHILDREN);
    }
  }

  // The iteration at a parent, its children being done.
  lemma FlagRoot(t: Tree, cells: seq<Cell>, base: nat, prev: int) returns (out: seq<Cell>)
    requires Marked(cells, base, t.kids, false, false)
    requires RecordAt(cells, RootAt(t, base), RootCell(t, base, Raw, false, false, NO_CHILDREN), t.info.attachment)
    requires base + Qwords(t) <= NO_CHILDREN
    requires t.kids.Cons? ==> prev == LastRoot(t.kids, base)
    ensures AgreeOutside(cells, out, base, RootAt(t, base))
    ensures ForestLaid(out, base, t.kids, Flagged, true, NO_CHILDREN)
    ensures FlagStep(FlagState(cells, prev), RootAt(t, base)) == Ok(FlagState(out, RootAt(t, base)))
  {
    if t.kids.Nil? {
      out := cells;
    } else {
      MarkFirstSibling(cells, base, t.kids);
      MarkLastSibling(cells, base, t.kids, false);
      var started := SetFirst(cells, RootAt(t.kids.head, base));
      MarkLastSibling(started, base, t.kids, true);
      out := SetLast(started, prev);
      FullyMarked(out, base, t.kids, true);
    }
  }

  /** Running the pass over one subtree turns its raw layout into the flagged one, all but
      the marks of its root, and leaves every other cell alone. */
  lemma {:induction false} FlagTree(t: Tree, cells: seq<Cell>, base: nat, prev: int, end: nat, first: bool, last: bool)
    returns (out: seq<Cell>)
    requires Laid(cells, base, t, Raw, first, last, NO_CHILDREN)
    requires base + Qwords(t) <= end <= |cells| && base + Qwords(t) <= NO_CHILDREN
    ensures AgreeOutside(cells, out, base, base + Qwords(t))
    ensures Laid(out, base, t, Flagged, false, false, NO_CHILDREN)
    ensures FlagRun(FlagState(cells, prev), base, end)
         == FlagRun(FlagState(out, RootAt(t, base)), base + Qwords(t), end)
    decreases t, 1
  {
    hide FlagRun;
    var inner := FlagForest(t.kids, cells, base, prev, end, true);
    var prev' := if t.kids.Nil? then prev else LastRoot(t.kids, base);
    out := FlagRoot(t, inner, base, prev');
    FlagRunStep(FlagState(inner, prev'), RootAt(t, base), FlagState(out, RootAt(t, base)), end);
  }

  lemma {:induction false} FlagForest(f: Forest, cells: seq<Cell>, base: nat, prev: int, end: nat, first: bool)
    returns (out: seq<Cell>)
    requires ForestLaid(cells, base, f, Raw, first, NO_CHILDREN)
    requires base + ForestQwords(f) <= end <= |cells| && base + ForestQwords(f) <= NO_CHILDREN
    ensures AgreeOutside(cells, out, base, base + ForestQwords(f))
    ensures Marked(out, base, f, false, false)
    ensures FlagRun(FlagState(cells, prev), base, end)
         == FlagRun(FlagState(out, if f.Nil? then prev else LastRoot(f, base)), base + ForestQwords(f), end)
    decreases f, 0
  {
    hide FlagRun, Laid;
    match f
    case Nil => out := cells;
    case Cons(h, tl) =>
      var rest := base + Qwords(h);
      var mid := FlagTree(h, cells, base, prev, end, first, tl.Nil?);
      ForestLaidFrame(cells, mid, rest, tl, Raw, false, NO_CHILDREN);
      out := FlagForest(tl, mid, rest, RootAt(h, base), end, false);
      LaidFrame(mid, out, base, h, Flagged, false, false, NO_CHILDREN);
  }

  /** `set_flags` on a whole builder: afterwards exactly the first and the last child of
      every node carry their marks, and the root carries both. */
  lemma FlagWhole(t: Tree, cells: seq<Cell>)
    requires Laid(cells, 0, t, Raw, true, true, NO_CHILDREN)
    requires |cells| == Qwords(t) <= BUILDER_CAPACITY
    ensures var r := FlagRun(FlagState(cells, -1), 0, Qwords(t));
            && r.Ok? && HeaderAt(r.value.cells, r.value.prev)
            && !r.value.cells[r.value.prev].structure.first && !r.value.cells[r.value.prev].structure.last
            && Laid(SetLast(SetFirst(r.value.cells, r.value.prev), r.value.prev), 0, t, Flagged, true, true,
                NO_CHILDREN)
  {
    var out := FlagTree(t, cells, 0, -1, Qwords(t), true, true);
    MarkRoot(out, 0, t, false, false);
    MarkRoot(SetFirst(out, RootAt(t, 0)), 0, t, true, false);
  }
}
