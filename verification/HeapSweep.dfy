/** Marking allocations and sweeping the slots that are not marked. */
module HeapSweep {
  import opened HeapBlocks
  import opened HeapSpace
  import opened Rounding

  // The allocations whose start is in `kept`.
  function Filter(live: seq<Block>, kept: set<nat>): (r: seq<Block>) {
    if live == [] then []
    else if live[0].start in kept then [live[0]] + Filter(live[1..], kept)
    else Filter(live[1..], kept)
  }

  lemma {:induction false} FilterOwners(live: seq<Block>, kept: set<nat>, t: nat)
    ensures OwnersIn(Filter(live, kept), t) <= OwnersIn(live, t)
  {
    if live != [] {
      FilterOwners(live[1..], kept, t);
      FilterHead(live, kept, t);
    }
  }

  lemma FilterHead(live: seq<Block>, kept: set<nat>, t: nat)
    requires live != []
    ensures OwnersIn(Filter(live, kept), t)
         == OwnersIn(Filter(live[1..], kept), t) + (if live[0].start in kept
             then Covers(live[0].start, live[0].size, t) else 0)
  {
    if live[0].start in kept {
      assert ([live[0]] + Filter(live[1..], kept))[1..] == Filter(live[1..], kept);
    }
  }

  // A block that is not kept is not counted, one that is kept is.
  lemma {:induction false} FilterAt(live: seq<Block>, kept: set<nat>, k: nat, t: nat)
    requires k < |live|
    ensures live[k].start in kept ==> OwnersIn(Filter(live, kept), t) >= Covers(live[k].start, live[k].size, t)
    ensures live[k].start !in kept ==>
      OwnersIn(Filter(live, kept), t) + Covers(live[k].start, live[k].size, t) <= OwnersIn(live, t)
  {
    FilterHead(live, kept, t);
    if k > 0 {
      FilterAt(live[1..], kept, k - 1, t);
    } else {
      FilterOwners(live[1..], kept, t);
    }
  }

  lemma {:induction false} FilterStarts(live: seq<Block>, kept: set<nat>, s: nat)
    ensures StartsAt(Filter(live, kept), s) <==> StartsAt(live, s) && s in kept
  {
    if live == [] {
    } else {
      var f, rest := Filter(live, kept), Filter(live[1..], kept);
      FilterStarts(live[1..], kept, s);
      StartsHead(live, s);
      if live[0].start in kept {
        assert f[1..] == rest;
        StartsHead(f, s);
      }
    }
  }

  lemma StartsHead(live: seq<Block>, s: nat)
    requires live != []
    ensures StartsAt(live, s) <==> live[0].start == s || StartsAt(live[1..], s)
  {
    if StartsAt(live, s) && live[0].start != s {
      var k :| 0 <= k < |live| && live[k].start == s;
      assert live[1..][k - 1].start == s;
    }
    if StartsAt(live[1..], s) {
      var k :| 0 <= k < |live[1..]| && live[1..][k].start == s;
      assert live[k + 1].start == s;
    }
  }

  lemma {:induction false} FilterPositive(live: seq<Block>, kept: set<nat>)
    requires forall k | 0 <= k < |live| :: live[k].size > 0
    ensures forall k | 0 <= k < |Filter(live, kept)| :: Filter(live, kept)[k].size > 0
  {
    if live != [] { FilterPositive(live[1..], kept); }
  }

  // Keeping one more allocation adds its slots.
  lemma {:induction false} FilterAdd(live: seq<Block>, kept: set<nat>, k: nat, t: nat)
    requires k < |live| && live[k].start !in kept
    requires forall j | 0 <= j < |live| && j != k :: live[j].start != live[k].start
    ensures OwnersIn(Filter(live, kept + {live[k].start}), t)
         == OwnersIn(Filter(live, kept), t) + Covers(live[k].start, live[k].size, t)
  {
    var more := kept + {live[k].start};
    FilterHead(live, kept, t);
    FilterHead(live, more, t);
    if k > 0 {
      assert live[0].start != live[k].start;
      forall j | 0 <= j < |live[1..]| && j != k - 1
        ensures live[1..][j].start != live[k].start
      {
        assert live[1..][j] == live[j + 1];
      }
      FilterAdd(live[1..], kept, k - 1, t);
    } else {
      forall j | 0 <= j < |live[1..]|
        ensures live[1..][j].start != live[0].start
      {
        assert live[1..][j] == live[j + 1];
      }
      FilterSame(live[1..], kept, live[0].start);
    }
  }

  lemma {:induction false} FilterSame(live: seq<Block>, kept: set<nat>, s: nat)
    requires forall j | 0 <= j < |live| :: live[j].start != s
    ensures Filter(live, kept + {s}) == Filter(live, kept)
  {
    if live != [] {
      FilterSame(live[1..], kept, s);
    }
  }

  // ---------- Marks ----------

  /** Between the reserved slot and the sentinel at `used`, the marked slots are those of the
      allocations kept so far. */
  ghost predicate MarksExact(marks: seq<bool>, live: seq<Block>, used: nat, kept: set<nat>) {
    && used + 1 < |marks| && marks[0] && marks[used]
    && (forall t | used < t < |marks| :: !marks[t])
    && (forall t | 1 <= t < used :: marks[t] <==> OwnersIn(Filter(live, kept), t) > 0)
  }

  // No mark is set but those of a new collection.
  ghost predicate MarksClean(marks: seq<bool>, used: nat) {
    forall t | 0 < t < |marks| && t != used :: !marks[t]
  }

  function Marked(marks: seq<bool>, from: nat, to: nat): (r: seq<bool>)
    ensures |r| == |marks|
  {
    seq(|marks|, t requires 0 <= t < |marks| => marks[t] || from <= t < to)
  }

  /** The start of an allocation is marked exactly if the allocation is kept. */
  lemma MarkedStart(marks: seq<bool>, lists: seq<seq<Block>>, live: seq<Block>, used: nat, kept: set<nat>, k: nat,
                    t: nat)
    requires MarksExact(marks, live, used, kept) && Space(lists, live, used) && k < |live|
    requires live[k].start <= t < live[k].start + live[k].size
    ensures 1 <= t < used && (marks[t] <==> live[k].start in kept)
  {
    LiveSlot(lists, live, used, k, t);
    FilterAt(live, kept, k, t);
  }

  lemma MarkBlock(marks: seq<bool>, lists: seq<seq<Block>>, live: seq<Block>, used: nat, kept: set<nat>, k: nat)
    requires MarksExact(marks, live, used, kept) && Space(lists, live, used) && k < |live|
    ensures MarksExact(Marked(marks, live[k].start, live[k].start + live[k].size), live, used, kept + {live[k].start})
  {
    hide Space, OwnersIn, Filter, Owners;
    var b, more := live[k], kept + {live[k].start};
    var marks' := Marked(marks, b.start, b.start + b.size);
    LiveRange(lists, live, used, k);
    if b.start in kept {
      assert more == kept;
      forall t | b.start <= t < b.start + b.size
        ensures marks[t]
      {
        MarkedStart(marks, lists, live, used, kept, k, t);
      }
      assert marks' == marks;
    } else {
      forall j | 0 <= j < |live| && j != k
        ensures live[j].start != live[k].start
      {
        SameStart(lists, live, used, if j < k then j else k, if j < k then k else j);
      }
      forall t | 1 <= t < used
        ensures marks'[t] <==> OwnersIn(Filter(live, more), t) > 0
      {
        FilterAdd(live, kept, k, t);
      }
    }
  }

  lemma MarkedAlready(marks: seq<bool>, lists: seq<seq<Block>>, live: seq<Block>, used: nat, kept: set<nat>, k: nat)
    requires MarksExact(marks, live, used, kept) && Space(lists, live, used) && k < |live| && live[k].start in kept
    ensures kept + {live[k].start} == kept
  {
  }

  lemma MarksSentinel(marks: seq<bool>, live: seq<Block>, used: nat, kept: set<nat>)
    requires MarksExact(marks, live, used, kept)
    ensures used + 1 < |marks| && marks[0] && marks[used] && !marks[used + 1]
  {
  }

  // No allocation starts inside another one.
  lemma InteriorUnset(begins: seq<bool>, lists: seq<seq<Block>>, live: seq<Block>, used: nat, k: nat, t: nat)
    requires BeginsOk(begins, live) && Space(lists, live, used) && k < |live|
    requires live[k].start < t < live[k].start + live[k].size && t < |begins|
    ensures !begins[t]
  {
    hide Space;
    if begins[t] {
      var j :| 0 <= j < |live| && live[j].start == t;
      OwnersOfTwo(live, if j < k then j else k, if j < k then k else j, t);
      PositiveSize(lists, live, used, j);
      SpaceAt(lists, live, used, t);
    }
  }

  lemma {:induction false} FilterNone(live: seq<Block>)
    ensures Filter(live, {}) == []
  {
    if live != [] { FilterNone(live[1..]); }
  }

  // Forgetting the free lists.
  lemma NothingFree(heads: seq<nat>, words: seq<nat>, lists: seq<seq<Block>>, live: seq<Block>, used: nat)
    requires Space(lists, live, used) && |heads| == FREELIST_COUNT && forall i | 0 <= i < |heads| :: heads[i] == 0
    ensures FreeOk(heads, words, NoBlocks()) && Space(NoBlocks(), live, used)
  {
    hide Owners, OwnersIn;
    forall t: nat
      ensures Owners(NoBlocks(), t) == 0 && OwnersIn(live, t) <= Bit(1 <= t < used)
    {
      NoOwners(NoBlocks(), t);
      SpaceAt(lists, live, used, t);
    }
  }

  lemma FirstMarks(marks: seq<bool>, live: seq<Block>, used: nat)
    requires 0 < used && used + 1 < |marks|
    ensures MarksExact(marks[used := true][0 := true], live, used, {}) <==> MarksClean(marks, used)
  {
    FilterNone(live);
    var m := marks[used := true][0 := true];
    assert forall t | 0 < t < |marks| && t != used :: m[t] == marks[t];
  }

  // The sentinel's mark is left behind exactly if its byte begins a page.
  lemma MarksLeft(marks: seq<bool>, marks': seq<bool>, live: seq<Block>, used: nat, kept: set<nat>, page: nat)
    requires MarksExact(marks, live, used, kept) && page > 0 && |marks'| == |marks|
    requires forall t | 0 <= t < |marks| :: marks'[t] == (marks[t] && t >= Covered(used, page))
    ensures (forall t | 0 <= t < |marks| :: !marks'[t]) <==> used / 8 % page != 0
  {
    hide Covered, Filter, OwnersIn;
    CoveredAll(used, page);
  }

  // ---------- Sweeping ----------

  // A run of slots that are not marked, between two that are.
  ghost predicate IsRun(marks: seq<bool>, b: Block) {
    && 0 < b.start && 0 < b.size && b.start + b.size < |marks|
    && marks[b.start - 1] && marks[b.start + b.size]
    && forall t | b.start <= t < b.start + b.size :: !marks[t]
  }

  /** The runs are maximal, and together they are the slots below `i` that are not marked. */
  ghost predicate RunsBelow(marks: seq<bool>, runs: seq<Block>, i: nat) {
    && i <= |marks| && (forall k | 0 <= k < |runs| :: IsRun(marks, runs[k]))
    && forall t: nat :: OwnersIn(runs, t) == Bit(t < i && !marks[t])
  }

  function CarveAll(lists: seq<seq<Block>>, runs: seq<Block>): (r: seq<seq<Block>>)
    requires |lists| == FREELIST_COUNT
    ensures |r| == FREELIST_COUNT
  {
    if runs == [] then lists
    else var last := runs[|runs| - 1]; Carve(CarveAll(lists, runs[..|runs| - 1]), last.start, last.size, 0)
  }

  lemma CarveNext(lists: seq<seq<Block>>, runs: seq<Block>, b: Block)
    requires |lists| == FREELIST_COUNT
    ensures CarveAll(lists, runs + [b]) == Carve(CarveAll(lists, runs), b.start, b.size, 0)
  {
    assert (runs + [b])[..|runs|] == runs;
  }

  lemma {:induction false} CarveAllOwners(lists: seq<seq<Block>>, runs: seq<Block>, t: nat)
    requires |lists| == FREELIST_COUNT
    ensures Owners(CarveAll(lists, runs), t) == Owners(lists, t) + OwnersIn(runs, t)
    decreases |runs|
  {
    hide Owners, Carve;
    if runs != [] {
      var front, last := runs[..|runs| - 1], runs[|runs| - 1];
      CarveAllOwners(lists, front, t);
      UnitZero();
      CarveOwners(CarveAll(lists, front), last.start, last.size, 0, t);
      assert runs == front + [last];
      OwnersAppend(front, last, t);
    }
  }

  lemma NextRun(marks: seq<bool>, runs: seq<Block>, from: nat, to: nat)
    requires RunsBelow(marks, runs, from) && 0 < from < to < |marks| && marks[from - 1] && marks[to]
    requires forall t | from <= t < to :: !marks[t]
    ensures RunsBelow(marks, runs + [Block(from, to - from)], to)
  {
    hide OwnersIn;
    var runs' := runs + [Block(from, to - from)];
    forall t: nat
      ensures OwnersIn(runs', t) == Bit(t < to && !marks[t])
    {
      OwnersAppend(runs, Block(from, to - from), t);
    }
    forall k | 0 <= k < |runs'|
      ensures IsRun(marks, runs'[k])
    {
      if k < |runs| { assert runs'[k] == runs[k]; }
    }
  }

  lemma SkipMarked(marks: seq<bool>, runs: seq<Block>, i: nat, j: nat)
    requires RunsBelow(marks, runs, i) && i <= j <= |marks| && forall t | i <= t < j :: marks[t]
    ensures RunsBelow(marks, runs, j)
  {
  }

  lemma RunUnowned(marks: seq<bool>, runs: seq<Block>, from: nat, to: nat)
    requires RunsBelow(marks, runs, from) && from <= to
    ensures Unowned(CarveAll(NoBlocks(), runs), from, to)
  {
    hide Owners, OwnersIn;
    forall t | from <= t < to
      ensures Owners(CarveAll(NoBlocks(), runs), t) == 0
    {
      CarveAllOwners(NoBlocks(), runs, t);
      NoOwners(NoBlocks(), t);
    }
  }

  // Where every slot below `used` is after the sweep.
  ghost predicate Swept(marks: seq<bool>, lists: seq<seq<Block>>, used: nat) {
    forall t: nat :: Owners(lists, t) == Bit(t < used && t < |marks| && !marks[t])
  }

  /** Every slot that was in use is either marked or in exactly one free block. */
  lemma SweptAll(marks: seq<bool>, runs: seq<Block>, used: nat)
    requires RunsBelow(marks, runs, used + 1) && used + 1 <= |marks| && marks[used]
    ensures Swept(marks, CarveAll(NoBlocks(), runs), used)
  {
    hide Owners, OwnersIn;
    forall t: nat
      ensures Owners(CarveAll(NoBlocks(), runs), t) == Bit(t < used && t < |marks| && !marks[t])
    {
      CarveAllOwners(NoBlocks(), runs, t);
      NoOwners(NoBlocks(), t);
    }
  }

  lemma SpaceSwept(marks: seq<bool>, lists: seq<seq<Block>>, live: seq<Block>, used: nat, kept: set<nat>,
                   lists': seq<seq<Block>>)
    requires MarksExact(marks, live, used, kept) && Space(lists, live, used) && Swept(marks, lists', used)
    ensures Space(lists', Filter(live, kept), used + 1)
  {
    hide Owners, OwnersIn, Filter;
    forall t: nat
      ensures Owners(lists', t) + OwnersIn(Filter(live, kept), t) <= Bit(1 <= t < used + 1)
    {
      FilterOwners(live, kept, t);
      SpaceAt(lists, live, used, t);
    }
    FilterPositive(live, kept);
  }

  /** How many slots the bitmap loops at the end of a collection cover: the bytes for `used`,
      rounded down, are rounded up to whole pages of the bitmap. */
  function Covered(used: nat, page: nat): nat
    requires page > 0
  {
    8 * RoundUp(used / 8, page)
  }

  /** All slots in use are covered, unless the bytes for them just fill their pages. */
  lemma CoveredAll(used: nat, page: nat)
    requires page > 0
    ensures used < Covered(used, page) <==> used / 8 % page != 0
    ensures used / 8 % page == 0 ==> Covered(used, page) == used - used % 8
  {
    var n := used / 8;
    assert RoundUp(n, page) == n <==> n % page == 0 by {
      assert n % page == 0 ==> RoundUp(n, page) <= n;
    }
  }

  /** Exactly the begin bits of the allocations kept survive the conjunction with the marks, if
      and only if no dead allocation starts behind the slots it covers. */
  lemma BeginsSwept(begins: seq<bool>, begins': seq<bool>, marks: seq<bool>, lists: seq<seq<Block>>,
                    live: seq<Block>, used: nat, kept: set<nat>, covered: nat)
    requires BeginsOk(begins, live) && MarksExact(marks, live, used, kept) && Space(lists, live, used)
    requires BeginsCleared(begins, begins', marks, covered)
    ensures BeginsOk(begins', Filter(live, kept)) <==> forall s | covered <= s < |begins| && begins[s] :: s in kept
  {
    hide Space, Owners, OwnersIn, Filter;
    forall s | 0 <= s < |begins|
      ensures StartsAt(Filter(live, kept), s) <==> begins[s] && s in kept
      ensures begins'[s] <==> begins[s] && (s >= covered || s in kept)
    {
      FilterStarts(live, kept, s);
      if begins[s] {
        StartOwned(lists, live, used, s);
        var k :| 0 <= k < |live| && live[k].start == s;
        PositiveSize(lists, live, used, k);
        MarkedStart(marks, lists, live, used, kept, k, s);
      }
    }
  }

  lemma NoRuns(marks: seq<bool>)
    ensures RunsBelow(marks, [], 0) && CarveAll(NoBlocks(), []) == NoBlocks()
  {
  }

  function Restrict(types: map<nat, nat>, kept: set<nat>): map<nat, nat> {
    map s | s in types && s in kept :: types[s]
  }

  // A kept start is marked.
  lemma KeptMarked(begins: seq<bool>, marks: seq<bool>, live: seq<Block>, used: nat, kept: set<nat>, s: nat)
    requires BeginsOk(begins, live) && MarksExact(marks, live, used, kept) && Space(NoBlocks(), live, used)
    requires s < |begins| && begins[s]
    ensures s < used && (s in kept <==> marks[s])
  {
    hide Space, MarksExact;
    var k :| 0 <= k < |live| && live[k].start == s;
    PositiveSize(NoBlocks(), live, used, k);
    MarkedStart(marks, NoBlocks(), live, used, kept, k, s);
  }

  ghost predicate BeginsCleared(begins: seq<bool>, begins': seq<bool>, marks: seq<bool>, covered: nat) {
    && |begins| == |begins'| < |marks|
    && forall s | 0 <= s < |begins| :: begins'[s] == (begins[s] && (s >= covered || marks[s]))
  }

  lemma TypesSwept(words: seq<nat>, words': seq<nat>, begins: seq<bool>, begins': seq<bool>, headers: seq<bool>,
                   types: map<nat, nat>, marks: seq<bool>, live: seq<Block>, used: nat, kept: set<nat>, covered: nat)
    requires TypesOk(words, begins, headers, types) && BeginsOk(begins, live) && MarksExact(marks, live, used, kept)
    requires Space(NoBlocks(), live, used) && BeginsCleared(begins, begins', marks, covered)
    requires used <= |words'| == |words|
    requires forall s | 0 <= s < used && marks[s] :: words'[s] == words[s]
    ensures TypesOk(words', begins', headers, Restrict(types, kept))
  {
    hide Space, MarksExact, BeginsOk;
    forall s | s in types && s in kept
      ensures s < |begins'| && begins'[s] && words'[s] == types[s]
    {
      KeptMarked(begins, marks, live, used, kept, s);
    }
  }

  /** Header bits outlive their allocations: they stay exact only if every typed one is kept. */
  lemma HeadersSwept(words: seq<nat>, begins: seq<bool>, begins': seq<bool>, headers: seq<bool>,
                     types: map<nat, nat>, marks: seq<bool>, live: seq<Block>, used: nat, kept: set<nat>, covered: nat)
    requires BeginsOk(begins, live) && MarksExact(marks, live, used, kept) && Space(NoBlocks(), live, used)
    requires BeginsCleared(begins, begins', marks, covered) && TypesOk(words, begins, headers, types)
    requires forall s | 0 <= s < |headers| :: headers[s] <==> begins[s] && s in types
    ensures (forall s | 0 <= s < |headers| :: headers[s] <==> begins'[s] && s in Restrict(types, kept))
      <==> types.Keys <= kept
  {
    hide Space, MarksExact, BeginsOk;
    forall s | s in types
      ensures s in kept ==> begins'[s]
    {
      KeptMarked(begins, marks, live, used, kept, s);
    }
    if s :| s in types && s !in kept {
      assert headers[s];
    }
  }
}
