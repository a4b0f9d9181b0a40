/** Abstract syntax trees and the two flat layouts the pool stores them in.

    A node occupies `1 + |attachment|` consecutive quadwords: a header followed by its
    attachment. The builder receives nodes in postorder; a completed tree is stored in
    preorder. `Laid` describes the builder in each stage of its conversion, `Stored` the
    completed tree. Both fix every cell of the range they speak about.
  */
module Ast {

  /** Maximum depth of the index stacks used by the conversion and by the iterators. */
  const MAX_AST_DEPTH: nat := 128

  /** Marks a node without children in `push_node`, and the end of the traversal list. */
  const NO_CHILDREN: nat := 0xFFFF_FFFF

  /** Capacity of the builder in quadwords; growing past it is fatal. */
  const BUILDER_CAPACITY: nat := 0x400_0000

  datatype Info = Info(tag: nat, flags: nat, source: nat, attachment: seq<nat>) {
    // Own size in quadwords; the pool stores it in eight bits.
    function Own(): (n: nat)
      ensures n >= 1
    {
      1 + |attachment|
    }
  }

  datatype Tree = Node(info: Info, kids: Forest)
  datatype Forest = Nil | Cons(head: Tree, tail: Forest)

  datatype Structure = Structure(first: bool, last: bool, leaf: bool)

  datatype Cell =
    | Header(tag: nat, flags: nat, own: nat, structure: Structure, next: nat)
    | Word(word: nat)

  predicate HeaderAt(cells: seq<Cell>, i: int) {
    0 <= i < |cells| && cells[i].Header?
  }

  // One node: its header followed by its attachment.
  predicate RecordAt(cells: seq<Cell>, i: nat, header: Cell, attachment: seq<nat>) {
    && i + |attachment| < |cells|
    && cells[i] == header
    && forall k | i < k <= i + |attachment| :: cells[k] == Word(attachment[k - i - 1])
  }

  // ---------- Sizes ----------

  function Qwords(t: Tree): (n: nat)
    ensures n >= t.info.Own() >= 1
  {
    t.info.Own() + ForestQwords(t.kids)
  }

  function ForestQwords(f: Forest): nat {
    match f
    case Nil => 0
    case Cons(h, tl) => Qwords(h) + ForestQwords(tl)
  }

  // Number of nodes on the longest path from the root.
  function Height(t: Tree): (n: nat)
    ensures n >= 1
  {
    1 + ForestHeight(t.kids)
  }

  function ForestHeight(f: Forest): nat {
    match f
    case Nil => 0
    case Cons(h, tl) => Max(Height(h), ForestHeight(tl))
  }

  function Max(a: int, b: int): int {
    if a < b then b else a
  }

  // Largest number of sibling lists that are open at the same time: a list is open from
  // the end of its first member to the end of its last one.
  function OpenLists(t: Tree): nat {
    ForestOpenLists(t.kids)
  }

  function ForestOpenLists(f: Forest): nat {
    match f
    case Nil => 0
    case Cons(h, tl) => if tl.Nil? then OpenLists(h) else Max(OpenLists(h), 1 + RestOpenLists(tl))
  }

  function RestOpenLists(f: Forest): nat {
    match f
    case Nil => 0
    case Cons(h, tl) => Max(OpenLists(h), RestOpenLists(tl))
  }

  // ---------- Builder layout ----------

  /** Raw: as pushed. Flagged: sibling flags set. Threaded: `next` links preorder successors. */
  datatype Stage = Raw | Flagged | Threaded

  // Index of a tree's own record when its postorder layout starts at `base`.
  function RootAt(t: Tree, base: nat): nat {
    base + ForestQwords(t.kids)
  }

  function FirstKidOr(t: Tree, base: nat, link: nat): nat {
    if t.kids.Nil? then link else RootAt(t.kids.head, base)
  }

  function StructureAt(stage: Stage, first: bool, last: bool, leaf: bool): Structure {
    Structure(!stage.Raw? && first, !stage.Raw? && last, leaf)
  }

  // The header of a tree's own record.
  function RootCell(t: Tree, base: nat, stage: Stage, first: bool, last: bool, link: nat): Cell {
    Header(t.info.tag, t.info.flags, t.info.Own(), StructureAt(stage, first, last, t.kids.Nil?),
        FirstKidOr(t, base, link))
  }

  // `cells` holds `t` from `base` on. `link` is what the preorder-last leaf of `t` points to.
  predicate Laid(cells: seq<Cell>, base: nat, t: Tree, stage: Stage, first: bool, last: bool, link: nat)
    decreases t
  {
    && ForestLaid(cells, base, t.kids, stage, true, link)
    && RecordAt(cells, RootAt(t, base), RootCell(t, base, stage, first, last, link), t.info.attachment)
  }

  predicate ForestLaid(cells: seq<Cell>, base: nat, f: Forest, stage: Stage, first: bool, link: nat)
    decreases f
  {
    match f
    case Nil => true
    case Cons(h, tl) =>
      && Laid(cells, base, h, stage, first, tl.Nil?, SiblingLink(tl, base + Qwords(h), stage, link))
      && ForestLaid(cells, base + Qwords(h), tl, stage, false, link)
  }

  // What the preorder-last leaf in front of the forest `rest` points to.
  function SiblingLink(rest: Forest, base: nat, stage: Stage, link: nat): nat {
    if rest.Nil? then link
    else if stage.Threaded? then RootAt(rest.head, base)
    else NO_CHILDREN
  }

  // Sources live in an array of their own, at the index of the node's header.
  predicate SourcesLaid(sources: seq<nat>, base: nat, t: Tree)
    decreases t
  {
    && ForestSourcesLaid(sources, base, t.kids)
    && RootAt(t, base) < |sources| && sources[RootAt(t, base)] == t.info.source
  }

  predicate ForestSourcesLaid(sources: seq<nat>, base: nat, f: Forest)
    decreases f
  {
    match f
    case Nil => true
    case Cons(h, tl) => SourcesLaid(sources, base, h) && ForestSourcesLaid(sources, base + Qwords(h), tl)
  }

  // ---------- Completed layout ----------

  function StoredRoot(t: Tree, first: bool, last: bool): Cell {
    Header(t.info.tag, t.info.flags, t.info.Own(), Structure(first, last, t.kids.Nil?), Qwords(t))
  }

  /** The completed tree: parents before children, `next` the size of the whole subtree. */
  predicate Stored(cells: seq<Cell>, base: nat, t: Tree, first: bool, last: bool)
    decreases t
  {
    && RecordAt(cells, base, StoredRoot(t, first, last), t.info.attachment)
    && ForestStored(cells, base + t.info.Own(), t.kids, true)
  }

  predicate ForestStored(cells: seq<Cell>, base: nat, f: Forest, first: bool)
    decreases f
  {
    match f
    case Nil => true
    case Cons(h, tl) =>
      && Stored(cells, base, h, first, tl.Nil?)
      && ForestStored(cells, base + Qwords(h), tl, false)
  }

  predicate SourcesStored(sources: seq<nat>, base: nat, t: Tree)
    decreases t
  {
    && base < |sources| && sources[base] == t.info.source
    && ForestSourcesStored(sources, base + t.info.Own(), t.kids)
  }

  predicate ForestSourcesStored(sources: seq<nat>, base: nat, f: Forest)
    decreases f
  {
    match f
    case Nil => true
    case Cons(h, tl) => SourcesStored(sources, base, h) && ForestSourcesStored(sources, base + Qwords(h), tl)
  }

  // ---------- The layouts only depend on their own range ----------

  predicate Agree(a: seq<Cell>, b: seq<Cell>, from: nat, to: nat) {
    && |a| <= |b|
    && forall i | from <= i < to && i < |a| :: a[i] == b[i]
  }

  predicate AgreeOutside(a: seq<Cell>, b: seq<Cell>, from: nat, to: nat) {
    && |a| == |b|
    && forall i | 0 <= i < |a| && !(from <= i < to) :: a[i] == b[i]
  }

  lemma {:induction false} LaidFrame(a: seq<Cell>, b: seq<Cell>, base: nat, t: Tree, stage: Stage, first: bool,
                                     last: bool, link: nat)
    requires Laid(a, base, t, stage, first, last, link)
    requires Agree(a, b, base, base + Qwords(t))
    ensures Laid(b, base, t, stage, first, last, link)
    decreases t, 1
  {
    ForestLaidFrame(a, b, base, t.kids, stage, true, link);
  }

  lemma {:induction false} ForestLaidFrame(a: seq<Cell>, b: seq<Cell>, base: nat, f: Forest, stage: Stage, first: bool,
                                           link: nat)
    requires ForestLaid(a, base, f, stage, first, link)
    requires Agree(a, b, base, base + ForestQwords(f))
    ensures ForestLaid(b, base, f, stage, first, link)
    decreases f, 0
  {
    match f
    case Nil =>
    case Cons(h, tl) =>
      LaidFrame(a, b, base, h, stage, first, tl.Nil?, SiblingLink(tl, base + Qwords(h), stage, link));
      ForestLaidFrame(a, b, base + Qwords(h), tl, stage, false, link);
  }

  lemma {:induction false} StoredFrame(a: seq<Cell>, b: seq<Cell>, base: nat, t: Tree, first: bool, last: bool)
    requires Stored(a, base, t, first, last)
    requires Agree(a, b, base, base + Qwords(t))
    ensures Stored(b, base, t, first, last)
    decreases t, 1
  {
    ForestStoredFrame(a, b, base + t.info.Own(), t.kids, true);
  }

  lemma {:induction false} ForestStoredFrame(a: seq<Cell>, b: seq<Cell>, base: nat, f: Forest, first: bool)
    requires ForestStored(a, base, f, first)
    requires Agree(a, b, base, base + ForestQwords(f))
    ensures ForestStored(b, base, f, first)
    decreases f, 0
  {
    match f
    case Nil =>
    case Cons(h, tl) =>
      StoredFrame(a, b, base, h, first, tl.Nil?);
      ForestStoredFrame(a, b, base + Qwords(h), tl, false);
  }

  /** A stored tree leaves nothing open: two arrays that hold it agree on its whole range. */
  lemma {:induction false} StoredUnique(a: seq<Cell>, b: seq<Cell>, base: nat, t: Tree, first: bool, last: bool)
    requires Stored(a, base, t, first, last) && Stored(b, base, t, first, last)
    ensures forall i | base <= i < base + Qwords(t) :: i < |a| && i < |b| && a[i] == b[i]
    decreases t, 1
  {
    ForestStoredUnique(a, b, base + t.info.Own(), t.kids, true);
  }

  lemma {:induction false} ForestStoredUnique(a: seq<Cell>, b: seq<Cell>, base: nat, f: Forest, first: bool)
    requires ForestStored(a, base, f, first) && ForestStored(b, base, f, first)
    ensures forall i | base <= i < base + ForestQwords(f) :: i < |a| && i < |b| && a[i] == b[i]
    decreases f, 0
  {
    match f
    case Nil =>
    case Cons(h, tl) =>
      StoredUnique(a, b, base, h, first, tl.Nil?);
      ForestStoredUnique(a, b, base + Qwords(h), tl, false);
  }

  // ---------- Bounds relating the two depth measures ----------

  /** A tree never has as many open sibling lists as it has levels. */
  lemma {:induction false} OpenListsBelowHeight(t: Tree)
    ensures OpenLists(t) < Height(t)
    decreases t, 1
  {
    ForestOpenListsBelowHeight(t.kids);
  }

  lemma {:induction false} ForestOpenListsBelowHeight(f: Forest)
    ensures ForestOpenLists(f) <= ForestHeight(f)
    ensures f.Cons? ==> RestOpenLists(f) < ForestHeight(f)
    decreases f, 0
  {
    match f
    case Nil =>
    case Cons(h, tl) =>
      OpenListsBelowHeight(h);
      ForestOpenListsBelowHeight(tl);
  }

  // A tree in which every node but the last has exactly one child.
  function Chain(info: Info, levels: nat): (t: Tree)
    requires levels >= 1
  {
    if levels == 1 then Node(info, Nil) else Node(info, Cons(Chain(info, levels - 1), Nil))
  }

  /** The converse bound fails: a chain has any height without a single open sibling list. */
  lemma {:induction false} ChainHasNoOpenLists(info: Info, levels: nat)
    requires levels >= 1
    ensures Height(Chain(info, levels)) == levels && OpenLists(Chain(info, levels)) == 0
  {
    if levels > 1 {
      ChainHasNoOpenLists(info, levels - 1);
      var inner := Cons(Chain(info, levels - 1), Nil);
      assert ForestHeight(inner) == Max(levels - 1, 0);
    }
  }
}
