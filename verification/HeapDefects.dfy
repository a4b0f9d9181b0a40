/** More heaps on which the source goes wrong: header bits that outlive their members, empty members
    that are not marked, and a collection of a heap that is used completely. */
module HeapDefects {
  import opened Basics
  import opened HeapBlocks
  import opened HeapSpace
  import opened HeapSweep
  import opened Rounding
  import opened CompHeaps

  // Without alignment, memory is taken right behind what is used.
  lemma BumpedHere(r: Maybe<nat>, size: nat, header: bool, used: nat, used': nat, reserve: nat)
    requires Bumped(r, size, 0, header, used, used', reserve) && used + Bit(header) + SlotsOf(size) <= reserve
    ensures r == Some(used + Bit(header)) && used' == used + Bit(header) + SlotsOf(size)
  {
    assert RoundUp(used + Bit(header), 1) == used + Bit(header);
  }

  // ---------- Stale header bits ----------

  // A fresh heap with an empty member.
  method OneMember(reserve: nat)
    returns (heap: CompHeap)
    requires reserve >= 3
    ensures fresh(heap) && fresh(heap.heads) && fresh(heap.words) && fresh(heap.begins)
    ensures fresh(heap.headers) && fresh(heap.marks)
    ensures heap.Valid() && heap.HeadersExact() && heap.Unmarked() && heap.reserve == reserve && heap.page == 1
    ensures heap.used == 2 && heap.live == [Block(1, 1)] && heap.types == map[1 := 7] && heap.heads[1] == 0
  {
    hide FreeOk, Space, TypesOk, BeginsOk, Owners, OwnersIn, Bumped, HeaderInPadding;
    heap := new CompHeap(reserve, 1);
    var r;
    ghost var asserted;
    AlignedAlready(heap.used, 0, true);
    r, asserted := heap.AllocGlobalMember(0, 0, 7);
    BumpedHere(r, 0, true, 1, heap.used, reserve);
    NoPair(heap);
  }

  // No two slots in a row are free.
  lemma NoPair(heap: CompHeap)
    requires heap.Valid() && heap.used <= 2
    ensures heap.heads[1] == 0
  {
    hide FreeOk, Space, BeginsOk, TypesOk, StartsAt, Owners;
    assert heap.heads[..][1] == heap.heads[1];
    if heap.heads[1] != 0 {
      FreeCount(heap.heads[..], heap.words[..], heap.lists);
      TakenBlock(heap.heads[..], heap.words[..], heap.lists, 1, heap.live, heap.used, heap.begins[..]);
    }
  }

  // Two empty members and an allocation of eight slots.
  method TwoMembers()
    returns (heap: CompHeap)
    ensures fresh(heap) && fresh(heap.heads) && fresh(heap.words) && fresh(heap.begins)
    ensures fresh(heap.headers) && fresh(heap.marks)
    ensures heap.Valid() && heap.HeadersExact() && heap.Unmarked() && heap.reserve == 16 && heap.page == 1
    ensures heap.used == 11 && heap.live == [Block(1, 1), Block(2, 1), Block(3, 8)]
    ensures heap.types == map[1 := 7, 2 := 7]
  {
    hide FreeOk, Space, TypesOk, BeginsOk, Owners, OwnersIn, Bumped, HeaderInPadding;
    heap := OneMember(16);
    var r;
    ghost var asserted;
    AlignedAlready(heap.used, 0, true);
    r, asserted := heap.AllocGlobalMember(0, 0, 7);
    BumpedHere(r, 0, true, 2, heap.used, 16);
    r := heap.Alloc(128, 0);
    BumpedHere(r, 128, false, 3, heap.used, 16);
  }

  // One maximal run: slots 1 and 2.
  lemma OneRun(marks: seq<bool>, runs: seq<Block>, used: nat)
    requires RunsBelow(marks, runs, used) && used == 12 && marks[0] && !marks[1] && !marks[2]
    requires forall t | 3 <= t < 12 :: marks[t]
    ensures runs == [Block(1, 2)]
  {
    hide OwnersIn;
    forall k | 0 <= k < |runs|
      ensures runs[k] == Block(1, 2)
    {
      RunCounted(runs, k, runs[k].start);
      assert IsRun(marks, runs[k]);
      assert runs[k].start < 12 && !marks[runs[k].start] && marks[runs[k].start - 1];
      assert marks[3] && marks[1 + runs[k].size];
    }
    SameRuns(runs);
    assert OwnersIn(runs, 1) == 1;
  }

  lemma {:induction false} SameRuns(runs: seq<Block>)
    requires forall k | 0 <= k < |runs| :: runs[k] == Block(1, 2)
    ensures OwnersIn(runs, 1) == |runs|
  {
    if runs != [] { SameRuns(runs[1..]); }
  }

  lemma {:induction false} RunCounted(runs: seq<Block>, k: nat, t: nat)
    requires k < |runs| && runs[k].start <= t < runs[k].start + runs[k].size
    ensures OwnersIn(runs, t) >= 1
    decreases k
  {
    if k > 0 { RunCounted(runs[1..], k - 1, t); }
  }

  // Two slots go to the second list.
  lemma PairFreed(heads: seq<nat>, words: seq<nat>, lists: seq<seq<Block>>, runs: seq<Block>)
    requires runs == [Block(1, 2)] && lists == CarveAll(NoBlocks(), runs) && FreeOk(heads, words, lists)
    ensures |heads| == FREELIST_COUNT && heads[1] == 1
  {
    assert runs[..0] == [];
    assert CarveAll(NoBlocks(), []) == NoBlocks();
    assert lists == Carve(NoBlocks(), 1, 2, 0);
    assert Unit(1) == 2;
    assert lists == Carve(NoBlocks(), 1, 1, 1);
    assert lists == Carve(Push(NoBlocks(), 1, Block(1, 2)), 3, 0, 2);
    assert lists[1][0] == Block(1, 2);
    assert Chain(words, heads[1], lists[1]);
  }

  const THREE: seq<Block> := [Block(1, 1), Block(2, 1), Block(3, 8)]

  lemma HeaderSet(heap: CompHeap, s: nat)
    requires heap.Valid() && s in heap.types
    ensures s < heap.reserve && heap.headers[s]
  {
    hide FreeOk, Space, BeginsOk;
  }

  lemma {:induction false} LastKept()
    ensures Filter(THREE, {3}) == [Block(3, 8)] && Filter([Block(3, 8)], {3}) == [Block(3, 8)]
  {
    assert THREE[1..] == [Block(2, 1), Block(3, 8)];
    assert [Block(2, 1), Block(3, 8)][1..] == [Block(3, 8)];
    assert Filter([Block(3, 8)], {3}) == [Block(3, 8)];
    assert Filter([Block(2, 1), Block(3, 8)], {3}) == [Block(3, 8)];
  }

  lemma MarkedLast(marks: seq<bool>)
    requires MarksExact(marks, THREE, 11, {3})
    ensures |marks| > 12 && marks[0] && !marks[1] && !marks[2] && forall t | 3 <= t < 12 :: marks[t]
  {
    hide Filter;
    LastKept();
    forall t: nat
      ensures OwnersIn([Block(3, 8)], t) == Bit(3 <= t < 11)
    {
      assert [Block(3, 8)][1..] == [];
    }
  }

  lemma NoLateStart(heap: CompHeap)
    requires heap.Valid() && heap.live == THREE
    ensures forall s | 4 <= s < heap.reserve :: !heap.begins[s]
  {
    hide FreeOk, Space, TypesOk;
    forall s | 4 <= s < heap.reserve
      ensures !heap.begins[s]
    {
      assert heap.begins[s] == heap.begins[..][s];
      assert !StartsAt(THREE, s);
    }
  }

  /** A collection that keeps neither member: every other part of the invariant holds, but their
      header bits stay set. */
  method CollectedMembers()
    returns (heap: CompHeap)
    ensures fresh(heap) && fresh(heap.heads) && fresh(heap.words) && fresh(heap.begins)
    ensures fresh(heap.headers) && fresh(heap.marks)
    ensures heap.Valid() && !heap.HeadersExact() && heap.live == [Block(3, 8)] && heap.types == map[]
    ensures heap.used == 12 && heap.reserve == 16
    ensures heap.heads[1] == 1 && heap.headers[1] && heap.headers[2]
  {
    hide FreeOk, Space, TypesOk, BeginsOk, Owners, OwnersIn, MarksExact, Filter, RunsBelow, CarveAll, Swept;
    heap := TwoMembers();
    HeaderSet(heap, 1);
    HeaderSet(heap, 2);
    NoLateStart(heap);
    heap.GcBegin();
    var isNew := heap.GcMark(3, 128, 2);
    ghost var marks := heap.marks[..];
    assert heap.kept == {3} && heap.live == THREE;
    MarkedLast(marks);
    assert Covered(11, 1) == 8 by { assert RoundUp(1, 1) == 1; }
    LastKept();
    ghost var runs := heap.GcEnd();
    OneRun(marks, runs, 12);
    PairFreed(heap.heads[..], heap.words[..], heap.lists, runs);
  }

  /** The next empty member takes the place of the first one and finds its header bit set: the
      assertion of the source that it is clear fails. */
  method StaleHeader()
    returns (heap: CompHeap, r: Maybe<nat>, ghost asserted: bool)
    ensures r == Some(2) && !asserted
  {
    hide FreeOk, Space, TypesOk, BeginsOk, Owners, OwnersIn, Bumped, HeaderInPadding;
    heap := CollectedMembers();
    AlignedAlready(heap.used, 0, true);
    r, asserted := heap.AllocGlobalMember(0, 0, 9);
  }

  // ---------- An empty member ----------

  // An empty member and an allocation right behind it, at the address of the member.
  method MemberAndSlot()
    returns (heap: CompHeap)
    ensures fresh(heap) && fresh(heap.heads) && fresh(heap.words) && fresh(heap.begins)
    ensures fresh(heap.headers) && fresh(heap.marks)
    ensures heap.Valid() && heap.Unmarked() && heap.reserve == 8 && heap.page == 1
    ensures heap.used == 3 && heap.live == [Block(1, 1), Block(2, 1)] && heap.types == map[1 := 7]
  {
    hide FreeOk, Space, TypesOk, BeginsOk, Owners, OwnersIn, Bumped, HeaderInPadding;
    heap := OneMember(8);
    var r := heap.Alloc(16, 0);
    BumpedHere(r, 16, false, 2, heap.used, 8);
  }

  lemma {:induction false} SecondKept()
    ensures Filter([Block(1, 1), Block(2, 1)], {2}) == [Block(2, 1)]
  {
    assert [Block(1, 1), Block(2, 1)][1..] == [Block(2, 1)];
    assert Filter([Block(2, 1)], {2}) == [Block(2, 1)];
  }

  lemma MarkedSecond(marks: seq<bool>)
    requires MarksExact(marks, [Block(1, 1), Block(2, 1)], 3, {2})
    ensures |marks| > 4 && !marks[1] && marks[2]
  {
    hide Filter;
    SecondKept();
    assert [Block(2, 1)][1..] == [];
    assert OwnersIn([Block(2, 1)], 1) == 0 && OwnersIn([Block(2, 1)], 2) == 1;
  }

  lemma SweptFirst(marks: seq<bool>, lists: seq<seq<Block>>)
    requires Swept(marks, lists, 3) && |marks| > 4 && !marks[1]
    ensures Owners(lists, 1) == 1
  {
    hide Owners;
  }

  /** Marking the allocation and then the member, at the address they share, keeps the allocation
      only; the slot of the member's header goes to a free list. */
  method EmptyMember()
    returns (heap: CompHeap, isNew: bool)
    ensures !isNew && heap.live == [Block(2, 1)] && heap.types == map[]
    ensures Owners(heap.lists, 1) == 1
  {
    hide FreeOk, Space, TypesOk, BeginsOk, Owners, OwnersIn, MarksExact, Filter, RunsBelow, CarveAll, Swept, Covered;
    heap := MemberAndSlot();
    heap.GcBegin();
    isNew := heap.GcMark(2, 16, 1);
    assert heap.kept == {2};
    ghost var marks := heap.marks[..];
    MarkedSecond(marks);
    isNew := heap.GcMark(2, 0, 0);
    assert heap.marks[..] == marks;
    SecondKept();
    ghost var runs := heap.GcEnd();
    SweptFirst(marks, heap.lists);
  }

  /** The member that was allocated last has the address of the sentinel, so if it is empty it is
      never kept. */
  method LastMember()
    returns (heap: CompHeap, isNew: bool)
    ensures !isNew && heap.live == [] && heap.types == map[]
  {
    hide FreeOk, Space, TypesOk, BeginsOk, Owners, OwnersIn, MarksExact, Filter, RunsBelow, CarveAll, Swept, Covered;
    heap := OneMember(3);
    heap.GcBegin();
    ghost var marks := heap.marks[..];
    isNew := heap.GcMark(2, 0, 0);
    assert heap.marks[..] == marks && heap.kept == {};
    FilterNone([Block(1, 1)]);
    ghost var runs := heap.GcEnd();
  }

  // ---------- A heap that is used completely ----------

  lemma {:induction false} RunAt(runs: seq<Block>, t: nat)
    returns (k: nat)
    requires OwnersIn(runs, t) > 0
    ensures k < |runs| && runs[k].start <= t < runs[k].start + runs[k].size
  {
    if Covers(runs[0].start, runs[0].size, t) > 0 {
      k := 0;
    } else {
      k := RunAt(runs[1..], t);
      k := k + 1;
    }
  }

  /** The collection after one that left the sentinel's slot behind the end of the heap: whatever it
      marks, that slot ends up in a free block, and if the slot before it is marked, the block starts
      there, where the list stores its link. The bitmap of the source has room for these bits. */
  lemma BehindTheEnd(marks: seq<bool>, live: seq<Block>, reserve: nat, kept: set<nat>, runs: seq<Block>)
    requires reserve > 1 && OwnersIn(live, reserve) == 0
    requires MarksExact(marks, live, reserve + 1, kept) && RunsBelow(marks, runs, reserve + 2)
    ensures Owners(CarveAll(NoBlocks(), runs), reserve) == 1
    ensures marks[reserve - 1] ==> Block(reserve, 1) in runs
  {
    hide Owners, Filter, CarveAll;
    FilterOwners(live, kept, reserve);
    SweptAll(marks, runs, reserve + 1);
    assert OwnersIn(runs, reserve) == 1;
    if marks[reserve - 1] {
      var k := RunAt(runs, reserve);
      assert IsRun(marks, runs[k]);
      assert marks[reserve + 1];
    }
  }

  /** Collecting a heap without a free slot moves `used` beyond the reservation; the next collection
      that keeps the allocation writes a link behind the heap. */
  method FullHeap()
    returns (heap: CompHeap)
    ensures heap.Arrays() && heap.reserve == 2 && heap.used == 3 && !heap.Shape() && heap.live == [Block(1, 1)]
    ensures forall marks, runs |
      MarksExact(marks, heap.live, heap.used, {1}) && RunsBelow(marks, runs, heap.used + 1) ::
      Owners(CarveAll(NoBlocks(), runs), heap.reserve) == 1 && Block(heap.reserve, 1) in runs
  {
    hide FreeOk, Space, TypesOk, BeginsOk, Owners, OwnersIn, MarksExact, Filter, RunsBelow, CarveAll, Swept, Covered,
         Bumped;
    heap := new CompHeap(2, 1);
    var r := heap.Alloc(16, 0);
    BumpedHere(r, 16, false, 1, heap.used, 2);
    assert heap.live == [Block(1, 1)];
    heap.GcBegin();
    var isNew := heap.GcMark(1, 16, 0);
    assert heap.kept == {1};
    FirstKept();
    ghost var gone := heap.GcEnd();
    forall marks, runs | MarksExact(marks, heap.live, heap.used, {1}) && RunsBelow(marks, runs, heap.used + 1)
      ensures Owners(CarveAll(NoBlocks(), runs), heap.reserve) == 1 && Block(heap.reserve, 1) in runs
    {
      MarkedFirst(marks);
      BehindTheEnd(marks, heap.live, 2, {1}, runs);
    }
  }

  lemma {:induction false} FirstKept()
    ensures Filter([Block(1, 1)], {1}) == [Block(1, 1)]
    ensures OwnersIn([Block(1, 1)], 1) == 1 && OwnersIn([Block(1, 1)], 2) == 0
  {
    assert [Block(1, 1)][1..] == [];
  }

  lemma MarkedFirst(marks: seq<bool>)
    requires MarksExact(marks, [Block(1, 1)], 3, {1})
    ensures |marks| > 4 && marks[1]
  {
    hide Filter, OwnersIn;
    FirstKept();
  }
}
