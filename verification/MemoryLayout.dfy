/** Where the memory ranges of the components go in the one reservation they share. */
module MemoryLayout {
  import opened Rounding

  // A range must end at or below `maxOffset`.
  datatype Range = Range(size: nat, maxOffset: nat)

  // ---------- Placements ----------

  /** A way to place all ranges behind the header: page-aligned, disjoint, each in its limit. */
  ghost predicate Placement(ranges: seq<Range>, begins: seq<nat>, header: nat, page: nat)
    requires page > 0
  {
    && |begins| == |ranges|
    && (forall i | 0 <= i < |ranges| ::
          begins[i] % page == 0 && header <= begins[i] && begins[i] + ranges[i].size <= ranges[i].maxOffset)
    && (forall i, j | 0 <= i < j < |ranges| :: Disjoint(begins[i], ranges[i].size, begins[j], ranges[j].size))
  }

  predicate Disjoint(a: nat, aSize: nat, b: nat, bSize: nat) {
    a + aSize <= b || b + bSize <= a
  }

  // Every range once.
  ghost predicate Order(ranges: seq<Range>, order: seq<nat>) {
    && (forall k | 0 <= k < |order| :: order[k] < |ranges|)
    && (forall k, l | 0 <= k < l < |order| :: order[k] != order[l])
    && (forall i | 0 <= i < |ranges| :: i in order)
  }

  /** What the sort delivers: every range once, in ascending order of its limit. */
  ghost predicate SortedOrder(ranges: seq<Range>, order: seq<nat>) {
    && Order(ranges, order)
    && (forall k, l | 0 <= k < l < |order| :: ranges[order[k]].maxOffset <= ranges[order[l]].maxOffset)
  }

  // The first `k` ranges of the order are placed, one behind the other, below `total`.
  ghost predicate Placed(ranges: seq<Range>, begins: seq<nat>, order: seq<nat>, k: nat, header: nat, page: nat,
                         total: nat)
    requires page > 0 && k <= |order| && |begins| == |ranges| && Order(ranges, order)
  {
    && header <= total
    && (forall i | 0 <= i < k :: Fits(ranges[order[i]], begins[order[i]], header, page, total))
    && (forall i, j | 0 <= i < j < k :: begins[order[i]] + ranges[order[i]].size <= begins[order[j]])
  }

  ghost predicate Fits(r: Range, begin: nat, header: nat, page: nat, total: nat)
    requires page > 0
  {
    begin % page == 0 && header <= begin && begin + r.size <= r.maxOffset && begin + r.size <= total
  }

  lemma PlacedNext(ranges: seq<Range>, begins: seq<nat>, order: seq<nat>, k: nat, header: nat, page: nat, total: nat)
    requires page > 0 && k < |order| && |begins| == |ranges| && Order(ranges, order)
    requires Placed(ranges, begins, order, k, header, page, total)
    requires RoundUp(total, page) + ranges[order[k]].size <= ranges[order[k]].maxOffset
    ensures Placed(ranges, begins[order[k] := RoundUp(total, page)], order, k + 1, header, page,
        RoundUp(total, page) + ranges[order[k]].size)
  {
    hide RoundUp;
  }

  lemma PlacedAll(ranges: seq<Range>, begins: seq<nat>, order: seq<nat>, header: nat, page: nat, total: nat)
    requires page > 0 && |begins| == |ranges| && Order(ranges, order)
    requires Placed(ranges, begins, order, |order|, header, page, total)
    ensures Placement(ranges, begins, header, page)
        && forall i | 0 <= i < |ranges| :: begins[i] + ranges[i].size <= total
  {
    hide Fits;
    forall i | 0 <= i < |ranges|
      ensures Fits(ranges[i], begins[i], header, page, total)
    {
      var k := Position(ranges, order, i);
    }
    forall i, j | 0 <= i < j < |ranges|
      ensures Disjoint(begins[i], ranges[i].size, begins[j], ranges[j].size)
    {
      var k := Position(ranges, order, i);
      var l := Position(ranges, order, j);
    }
    AllFit(ranges, begins, header, page, total);
  }

  lemma Position(ranges: seq<Range>, order: seq<nat>, i: nat)
    returns (k: nat)
    requires Order(ranges, order) && i < |ranges|
    ensures k < |order| && order[k] == i
  {
    assert i in order;
    k :| 0 <= k < |order| && order[k] == i;
  }

  lemma AllFit(ranges: seq<Range>, begins: seq<nat>, header: nat, page: nat, total: nat)
    requires page > 0 && |begins| == |ranges| && forall i | 0 <= i < |ranges| :: Fits(ranges[i], begins[i], header,
        page, total)
    requires forall i, j | 0 <= i < j < |ranges| :: Disjoint(begins[i], ranges[i].size, begins[j], ranges[j].size)
    ensures Placement(ranges, begins, header, page)
        && forall i | 0 <= i < |ranges| :: begins[i] + ranges[i].size <= total
  {
  }

  // Where the `k`-th range goes: behind the others, all rounded up to pages.
  function StartOf(ranges: seq<Range>, order: seq<nat>, k: nat, header: nat, page: nat): nat
    requires page > 0 && k <= |order| && forall i | 0 <= i < |order| :: order[i] < |ranges|
  {
    RoundUp(header, page) + SizeOf(Paged(ranges, page), order[..k])
  }

  ghost predicate Fitting(ranges: seq<Range>, order: seq<nat>, header: nat, page: nat)
    requires page > 0 && forall i | 0 <= i < |order| :: order[i] < |ranges|
  {
    forall k | 0 <= k < |order| ::
      StartOf(ranges, order, k, header, page) + ranges[order[k]].size <= ranges[order[k]].maxOffset
  }

  function EndOf(ranges: seq<Range>, begins: seq<nat>, i: nat): nat
    requires |begins| == |ranges| && i < |ranges|
  {
    begins[i] + ranges[i].size
  }

  // `end` is behind the header and all ranges.
  predicate Covers(ranges: seq<Range>, begins: seq<nat>, header: nat, end: nat)
    requires |begins| == |ranges|
  {
    header <= end && forall i | 0 <= i < |ranges| :: begins[i] + ranges[i].size <= end
  }

  /** Places the ranges in this order, each at the next page. It succeeds exactly if every range
      fits behind the page-rounded sizes of those before it. In an order that loses nothing, and
      so for sizes that are multiples of a page in the sorted order, it fails only if there is no
      placement at all. What is reserved ends with the last range, so it is the least that covers the
      header and all ranges. */
  method PlaceRanges(ranges: seq<Range>, order: seq<nat>, header: nat, page: nat)
    returns (ok: bool, begins: array<nat>, total: nat)
    requires page > 0 && Order(ranges, order)
    ensures fresh(begins) && begins.Length == |ranges|
    ensures ok <==> Fitting(ranges, order, header, page)
    ensures ok ==> forall k | 0 <= k < |order| :: begins[order[k]] == StartOf(ranges, order, k, header, page)
    ensures ok ==>
      Placement(ranges, begins[..], header, page) && forall i | 0 <= i < |ranges| :: begins[i] + ranges[i].size <= total
    ensures ok ==> total == if order == [] then header else EndOf(ranges, begins[..], order[|order| - 1])
    ensures ok ==> forall t | Covers(ranges, begins[..], header, t) :: total <= t
    ensures Lossless(ranges, order, page) || (SortedOrder(ranges, order) && PageSizes(ranges, page)) ==>
      (ok <==> exists b :: Placement(ranges, b, header, page))
  {
    hide RoundUp, Placed, Placement, SizeOf, PageSizes, Lossless, SortedOrder, StartOf, Fitting;
    begins := new nat[|ranges|](_ => 0);
    total := header;
    var k := 0;
    NothingPlaced(ranges, begins[..], order, header, page);
    while k < |order|
      invariant k <= |order| && Placed(ranges, begins[..], order, k, header, page, total)
      invariant RoundUp(total, page) == StartOf(ranges, order, k, header, page)
      invariant forall i | 0 <= i < k :: begins[order[i]] == StartOf(ranges, order, i, header, page)
      invariant total == if k == 0 then header else EndOf(ranges, begins[..], order[k - 1])
      invariant forall i | 0 <= i < k ::
        StartOf(ranges, order, i, header, page) + ranges[order[i]].size <= ranges[order[i]].maxOffset
    {
      var id := order[k];
      ghost var was, before := total, begins[..];
      total := RoundUp(total, page);
      begins[id] := total;
      total := total + ranges[id].size;
      assert begins[..] == before[id := RoundUp(was, page)];
      if total > ranges[id].maxOffset {
        ok := false;
        NotFitting(ranges, order, k, header, page);
        if SortedOrder(ranges, order) && PageSizes(ranges, page) { PagesLossless(ranges, order, page); }
        if Lossless(ranges, order, page) { NoRoom(ranges, order, k, header, page); }
        return;
      }
      PlacedNext(ranges, before, order, k, header, page, was);
      NextStart(ranges, order, k, header, page);
      k := k + 1;
    }
    ok := true;
    AllFitting(ranges, order, header, page);
    PlacedAll(ranges, begins[..], order, header, page, total);
  }

  lemma NothingPlaced(ranges: seq<Range>, begins: seq<nat>, order: seq<nat>, header: nat, page: nat)
    requires page > 0 && |begins| == |ranges| && Order(ranges, order)
    ensures Placed(ranges, begins, order, 0, header, page, header)
    ensures StartOf(ranges, order, 0, header, page) == RoundUp(header, page)
  {
  }

  lemma NotFitting(ranges: seq<Range>, order: seq<nat>, k: nat, header: nat, page: nat)
    requires page > 0 && Order(ranges, order) && k < |order|
    requires StartOf(ranges, order, k, header, page) + ranges[order[k]].size > ranges[order[k]].maxOffset
    ensures !Fitting(ranges, order, header, page)
  {
    hide StartOf;
  }

  lemma AllFitting(ranges: seq<Range>, order: seq<nat>, header: nat, page: nat)
    requires page > 0 && Order(ranges, order)
    requires forall i | 0 <= i < |order| ::
      StartOf(ranges, order, i, header, page) + ranges[order[i]].size <= ranges[order[i]].maxOffset
    ensures Fitting(ranges, order, header, page)
  {
    hide StartOf;
  }

  lemma NextStart(ranges: seq<Range>, order: seq<nat>, k: nat, header: nat, page: nat)
    requires page > 0 && Order(ranges, order) && k < |order|
    ensures StartOf(ranges, order, k, header, page) % page == 0
    ensures RoundUp(StartOf(ranges, order, k, header, page) + ranges[order[k]].size, page)
      == StartOf(ranges, order, k + 1, header, page)
  {
    hide RoundUp;
    Extended(Paged(ranges, page), order, k);
    PagedSize(ranges, order[..k], page);
    SumOfMultiples(RoundUp(header, page), SizeOf(Paged(ranges, page), order[..k]), page);
    RoundUpBehind(StartOf(ranges, order, k, header, page), ranges[order[k]].size, page);
  }

  lemma {:induction false} PagedSize(ranges: seq<Range>, ids: seq<nat>, page: nat)
    requires page > 0 && forall k | 0 <= k < |ids| :: ids[k] < |ranges|
    ensures SizeOf(Paged(ranges, page), ids) % page == 0
    decreases |ids|
  {
    hide RoundUp;
    if ids != [] {
      var front, last := ids[..|ids| - 1], ids[|ids| - 1];
      PagedSize(ranges, front, page);
      SumOfMultiples(SizeOf(Paged(ranges, page), front), RoundUp(ranges[last].size, page), page);
    }
  }

  // ---------- Whole pages ----------

  /** Where a range has to end, if it is taken for a whole number of pages. */
  function Deadline(r: Range, page: nat): nat
    requires page > 0
  {
    if r.size > r.maxOffset then 0 else RoundDown(r.maxOffset - r.size, page) + RoundUp(r.size, page)
  }

  // The ranges as whole pages.
  function Paged(ranges: seq<Range>, page: nat): (r: seq<Range>)
    requires page > 0
    ensures |r| == |ranges|
  {
    seq(|ranges|, i requires 0 <= i < |ranges| => Range(RoundUp(ranges[i].size, page), Deadline(ranges[i], page)))
  }

  /** At the beginning of a page, a range meets its limit exactly if its pages meet the deadline. */
  lemma DeadlineExact(r: Range, begin: nat, page: nat)
    requires page > 0 && begin % page == 0
    ensures begin + r.size <= r.maxOffset <==> begin + RoundUp(r.size, page) <= Deadline(r, page)
  {
    hide RoundUp, RoundDown;
  }

  /** An order loses nothing if it is ascending in the deadlines. */
  ghost predicate Lossless(ranges: seq<Range>, order: seq<nat>, page: nat)
    requires page > 0
  {
    && (forall k | 0 <= k < |order| :: order[k] < |ranges|)
    && ((forall i | 0 <= i < |ranges| :: ranges[i].size <= ranges[i].maxOffset) ==>
          forall k, l | 0 <= k < l < |order| :: Deadline(ranges[order[k]], page) <= Deadline(ranges[order[l]], page))
  }

  /** Ascending limits are ascending deadlines if all sizes are multiples of a page. */
  lemma PagesLossless(ranges: seq<Range>, order: seq<nat>, page: nat)
    requires page > 0 && SortedOrder(ranges, order) && PageSizes(ranges, page)
    ensures Lossless(ranges, order, page)
  {
    hide RoundUp, RoundDown;
    if forall i | 0 <= i < |ranges| :: ranges[i].size <= ranges[i].maxOffset {
      forall k, l | 0 <= k < l < |order|
        ensures Deadline(ranges[order[k]], page) <= Deadline(ranges[order[l]], page)
      {
        PageDeadline(ranges[order[k]], page);
        PageDeadline(ranges[order[l]], page);
        assert RoundDown(ranges[order[k]].maxOffset, page) <= RoundDown(ranges[order[l]].maxOffset, page);
      }
    }
  }

  lemma PageDeadline(r: Range, page: nat)
    requires page > 0 && r.size % page == 0 && r.size <= r.maxOffset
    ensures Deadline(r, page) == RoundDown(r.maxOffset, page)
  {
    hide RoundUp, RoundDown;
    assert RoundUp(r.size, page) <= r.size;
    var d := RoundDown(r.maxOffset - r.size, page);
    SumOfMultiples(d, r.size, page);
    assert d + r.size <= RoundDown(r.maxOffset, page);
    DifferenceOfMultiples(RoundDown(r.maxOffset, page), r.size, page);
    assert RoundDown(r.maxOffset, page) - r.size <= d;
  }

  ghost predicate PageSizes(ranges: seq<Range>, page: nat)
    requires page > 0
  {
    forall i | 0 <= i < |ranges| :: ranges[i].size % page == 0
  }

  // ---------- Why no other order does better ----------

  function SizeOf(ranges: seq<Range>, ids: seq<nat>): nat
    requires forall k | 0 <= k < |ids| :: ids[k] < |ranges|
  {
    if ids == [] then 0 else SizeOf(ranges, ids[..|ids| - 1]) + ranges[ids[|ids| - 1]].size
  }

  lemma Extended(ranges: seq<Range>, order: seq<nat>, k: nat)
    requires k < |order| && forall i | 0 <= i < |order| :: order[i] < |ranges|
    ensures SizeOf(ranges, order[..k + 1]) == SizeOf(ranges, order[..k]) + ranges[order[k]].size
  {
    assert order[..k + 1][..k] == order[..k];
  }

  // Page-aligned ranges that are disjoint are disjoint as pages.
  lemma PagesApart(a: nat, aSize: nat, b: nat, bSize: nat, page: nat)
    requires page > 0 && a % page == 0 && b % page == 0 && Disjoint(a, aSize, b, bSize)
    ensures Disjoint(a, RoundUp(aSize, page), b, RoundUp(bSize, page))
  {
    hide RoundUp;
    RoundUpBehind(a, aSize, page);
    RoundUpBehind(b, bSize, page);
  }

  lemma PagedPlacement(ranges: seq<Range>, begins: seq<nat>, header: nat, page: nat, i: nat)
    requires page > 0 && Placement(ranges, begins, header, page) && i < |ranges|
    ensures RoundUp(header, page) <= begins[i] && begins[i] + RoundUp(ranges[i].size, page) <= Deadline(ranges[i], page)
    ensures ranges[i].size <= ranges[i].maxOffset
    ensures forall j | 0 <= j < |ranges| && j != i ::
      Disjoint(begins[i], RoundUp(ranges[i].size, page), begins[j], RoundUp(ranges[j].size, page))
  {
    hide RoundUp, Deadline;
    DeadlineExact(ranges[i], begins[i], page);
    forall j | 0 <= j < |ranges| && j != i
      ensures Disjoint(begins[i], RoundUp(ranges[i].size, page), begins[j], RoundUp(ranges[j].size, page))
    {
      assert Disjoint(begins[i], ranges[i].size, begins[j], ranges[j].size);
      PagesApart(begins[i], ranges[i].size, begins[j], ranges[j].size, page);
    }
  }

  /** In an order that loses nothing, all ranges up to the one that did not fit have deadlines no
      later than its own, so in any placement their pages lie between the header and that
      deadline; together they are too long for it. */
  lemma NoRoom(ranges: seq<Range>, order: seq<nat>, k: nat, header: nat, page: nat)
    requires page > 0 && Order(ranges, order) && Lossless(ranges, order, page) && k < |order|
    requires StartOf(ranges, order, k, header, page) + ranges[order[k]].size > ranges[order[k]].maxOffset
    ensures forall b :: !Placement(ranges, b, header, page)
  {
    hide Placement;
    forall b
      ensures !Placement(ranges, b, header, page)
    {
      if Placement(ranges, b, header, page) { TooLong(ranges, order, k, header, page, b); }
    }
  }

  lemma TooLong(ranges: seq<Range>, order: seq<nat>, k: nat, header: nat, page: nat, b: seq<nat>)
    requires page > 0 && Order(ranges, order) && Lossless(ranges, order, page) && k < |order|
    requires Placement(ranges, b, header, page)
    ensures StartOf(ranges, order, k, header, page) + ranges[order[k]].size <= ranges[order[k]].maxOffset
  {
    hide RoundUp, SizeOf, Deadline, Placement;
    var pages, ids := Paged(ranges, page), order[..k + 1];
    var lo, hi := RoundUp(header, page), Deadline(ranges[order[k]], page);
    PlacementSize(ranges, b, header, page);
    forall i | 0 <= i < |ranges|
      ensures lo <= b[i] && b[i] + pages[i].size <= Deadline(ranges[i], page) && ranges[i].size <= ranges[i].maxOffset
    {
      PagedPlacement(ranges, b, header, page, i);
    }
    forall i, j | 0 <= i < j < |ids|
      ensures Disjoint(b[ids[i]], pages[ids[i]].size, b[ids[j]], pages[ids[j]].size)
    {
      PagedPlacement(ranges, b, header, page, ids[i]);
    }
    Packed(pages, b, ids, lo, hi);
    Extended(pages, order, k);
    NextStart(ranges, order, k, header, page);
    DeadlineExact(ranges[order[k]], StartOf(ranges, order, k, header, page), page);
  }

  lemma PlacementSize(ranges: seq<Range>, b: seq<nat>, header: nat, page: nat)
    requires page > 0 && Placement(ranges, b, header, page)
    ensures |b| == |ranges|
  {
  }

  predicate Bounded(ranges: seq<Range>, begins: seq<nat>, ids: seq<nat>, lo: nat, hi: nat) {
    |begins| == |ranges|
    && (forall i | 0 <= i < |ids| :: ids[i] < |ranges|)
    && (forall i | 0 <= i < |ids| && ranges[ids[i]].size > 0 ::
          lo <= begins[ids[i]] && begins[ids[i]] + ranges[ids[i]].size <= hi)
  }

  predicate Apart(ranges: seq<Range>, begins: seq<nat>, ids: seq<nat>)
    requires |begins| == |ranges| && forall i | 0 <= i < |ids| :: ids[i] < |ranges|
  {
    forall i, j | 0 <= i < j < |ids| :: Disjoint(begins[ids[i]], ranges[ids[i]].size, begins[ids[j]],
        ranges[ids[j]].size)
  }

  function Without(ids: seq<nat>, m: nat): (r: seq<nat>)
    requires m < |ids|
    ensures |r| == |ids| - 1
  {
    ids[..m] + ids[m + 1..]
  }

  lemma {:induction false} SizeWithout(ranges: seq<Range>, ids: seq<nat>, m: nat)
    requires m < |ids| && forall i | 0 <= i < |ids| :: ids[i] < |ranges|
    ensures SizeOf(ranges, ids) == SizeOf(ranges, Without(ids, m)) + ranges[ids[m]].size
    decreases |ids|
  {
    var last := |ids| - 1;
    if m == last {
      assert Without(ids, m) == ids[..last];
    } else {
      assert Without(ids, m)[..last - 1] == Without(ids[..last], m) && Without(ids, m)[last - 1] == ids[last];
      SizeWithout(ranges, ids[..last], m);
    }
  }

  // The non-empty range that ends last.
  lemma {:induction false} LastEnd(ranges: seq<Range>, begins: seq<nat>, ids: seq<nat>)
    returns (m: nat)
    requires |begins| == |ranges| && (forall i | 0 <= i < |ids| :: ids[i] < |ranges|) && SizeOf(ranges, ids) > 0
    ensures m < |ids| && ranges[ids[m]].size > 0
    ensures forall j | 0 <= j < |ids| && ranges[ids[j]].size > 0 ::
      begins[ids[j]] + ranges[ids[j]].size <= begins[ids[m]] + ranges[ids[m]].size
    decreases |ids|
  {
    var last := |ids| - 1;
    m := last;
    if SizeOf(ranges, ids[..last]) > 0 {
      var l := LastEnd(ranges, begins, ids[..last]);
      if ranges[ids[last]].size == 0
        || begins[ids[l]] + ranges[ids[l]].size > begins[ids[last]] + ranges[ids[last]].size {
        m := l;
      }
    } else {
      NoSize(ranges, ids[..last]);
    }
  }

  lemma {:induction false} NoSize(ranges: seq<Range>, ids: seq<nat>)
    requires (forall i | 0 <= i < |ids| :: ids[i] < |ranges|) && SizeOf(ranges, ids) == 0
    ensures forall i | 0 <= i < |ids| :: ranges[ids[i]].size == 0
    decreases |ids|
  {
    if ids != [] { NoSize(ranges, ids[..|ids| - 1]); }
  }

  /** Disjoint ranges between two bounds are together no longer than the distance. */
  lemma {:induction false} Packed(ranges: seq<Range>, begins: seq<nat>, ids: seq<nat>, lo: nat, hi: nat)
    requires Bounded(ranges, begins, ids, lo, hi) && Apart(ranges, begins, ids)
    ensures SizeOf(ranges, ids) > 0 ==> lo + SizeOf(ranges, ids) <= hi
    decreases |ids|
  {
    hide SizeOf;
    if SizeOf(ranges, ids) > 0 {
      var m := LastEnd(ranges, begins, ids);
      var rest := Without(ids, m);
      SizeWithout(ranges, ids, m);
      forall i | 0 <= i < |rest|
        ensures rest[i] == ids[if i < m then i else i + 1]
      {
      }
      Packed(ranges, begins, rest, lo, begins[ids[m]]);
    }
  }

  // ---------- When there is a placement ----------

  // The loop of `PlaceRanges`, as far as the first `k` ranges.
  lemma {:induction false} PlacedTo(ranges: seq<Range>, order: seq<nat>, k: nat, header: nat, page: nat)
    returns (begins: seq<nat>, total: nat)
    requires page > 0 && Order(ranges, order) && Fitting(ranges, order, header, page) && k <= |order|
    ensures |begins| == |ranges| && Placed(ranges, begins, order, k, header, page, total)
    ensures RoundUp(total, page) == StartOf(ranges, order, k, header, page)
    decreases k
  {
    hide RoundUp, Placed, StartOf;
    if k == 0 {
      begins, total := seq(|ranges|, _ => 0), header;
      NothingPlaced(ranges, begins, order, header, page);
    } else {
      begins, total := PlacedTo(ranges, order, k - 1, header, page);
      PlacedNext(ranges, begins, order, k - 1, header, page, total);
      NextStart(ranges, order, k - 1, header, page);
      begins := begins[order[k - 1] := RoundUp(total, page)];
      total := RoundUp(total, page) + ranges[order[k - 1]].size;
    }
  }

  /** For an order that loses nothing: there is a placement exactly if every range fits behind the
      page-rounded sizes of those before it. */
  lemma PossibleExactly(ranges: seq<Range>, order: seq<nat>, header: nat, page: nat)
    requires page > 0 && Order(ranges, order) && Lossless(ranges, order, page)
    ensures (exists b :: Placement(ranges, b, header, page)) <==> Fitting(ranges, order, header, page)
  {
    hide Placement, Placed, Lossless, StartOf;
    if Fitting(ranges, order, header, page) {
      var begins, total := PlacedTo(ranges, order, |order|, header, page);
      PlacedAll(ranges, begins, order, header, page, total);
    } else {
      var k :| 0 <= k < |order|
        && StartOf(ranges, order, k, header, page) + ranges[order[k]].size > ranges[order[k]].maxOffset;
      NoRoom(ranges, order, k, header, page);
    }
  }

  /** There always is such an order: that of the deadlines. */
  lemma AscendingDeadlines(ranges: seq<Range>, page: nat)
    returns (order: seq<nat>)
    requires page > 0
    ensures Order(ranges, order) && Lossless(ranges, order, page)
  {
    hide Deadline;
    order := Ascending(ranges, page, |ranges|);
  }

  // The first `n` ranges, each once, in the order of their deadlines.
  ghost predicate IsAscending(ranges: seq<Range>, page: nat, n: nat, order: seq<nat>)
    requires page > 0 && n <= |ranges|
  {
    && (forall k | 0 <= k < |order| :: order[k] < n) && (forall i | 0 <= i < n :: i in order)
    && (forall k, l | 0 <= k < l < |order| :: order[k] != order[l])
    && (forall k, l | 0 <= k < l < |order| :: Deadline(ranges[order[k]], page) <= Deadline(ranges[order[l]], page))
  }

  lemma {:induction false} Ascending(ranges: seq<Range>, page: nat, n: nat)
    returns (order: seq<nat>)
    requires page > 0 && n <= |ranges|
    ensures IsAscending(ranges, page, n, order)
    decreases n
  {
    hide Deadline;
    if n == 0 { return []; }
    var rest := Ascending(ranges, page, n - 1);
    var at := 0;
    while at < |rest| && Deadline(ranges[rest[at]], page) <= Deadline(ranges[n - 1], page)
      invariant at <= |rest|
      invariant forall k | 0 <= k < at :: Deadline(ranges[rest[k]], page) <= Deadline(ranges[n - 1], page)
    {
      at := at + 1;
    }
    order := Inserted(rest, at, n - 1);
    InsertedAscending(ranges, page, n - 1, rest, at);
  }

  lemma InsertedAscending(ranges: seq<Range>, page: nat, n: nat, rest: seq<nat>, at: nat)
    requires page > 0 && n < |ranges| && IsAscending(ranges, page, n, rest) && at <= |rest|
    requires forall k | 0 <= k < at :: Deadline(ranges[rest[k]], page) <= Deadline(ranges[n], page)
    requires at < |rest| ==> Deadline(ranges[n], page) <= Deadline(ranges[rest[at]], page)
    ensures IsAscending(ranges, page, n + 1, Inserted(rest, at, n))
  {
    hide Deadline;
    var order := Inserted(rest, at, n);
    forall i | 0 <= i < n + 1
      ensures i in order
    {
      InsertedHas(rest, at, n, i);
    }
    forall k, l | 0 <= k < l < |order|
      ensures order[k] != order[l] && Deadline(ranges[order[k]], page) <= Deadline(ranges[order[l]], page)
    {
      if k == at && l > at + 1 {
        assert Deadline(ranges[rest[at]], page) <= Deadline(ranges[rest[l - 1]], page);
      }
    }
  }

  function Inserted(rest: seq<nat>, at: nat, x: nat): (r: seq<nat>)
    requires at <= |rest|
    ensures |r| == |rest| + 1
    ensures forall k | 0 <= k < |r| :: r[k] == if k < at then rest[k] else if k == at then x else rest[k - 1]
  {
    rest[..at] + [x] + rest[at..]
  }

  lemma InsertedHas(rest: seq<nat>, at: nat, x: nat, i: nat)
    requires at <= |rest| && (i == x || i in rest)
    ensures i in Inserted(rest, at, x)
  {
    var r := Inserted(rest, at, x);
    if i == x {
      assert r[at] == i;
    } else {
      var k :| 0 <= k < |rest| && rest[k] == i;
      assert r[if k < at then k else k + 1] == i;
    }
  }

  /** So the sorted order loses, failing although there is a placement, exactly if the ranges do not
      fit in it and fit in the order of their deadlines. */
  lemma LosesExactly(ranges: seq<Range>, sorted: seq<nat>, order: seq<nat>, header: nat, page: nat)
    requires page > 0 && SortedOrder(ranges, sorted) && Order(ranges, order) && Lossless(ranges, order, page)
    ensures !Fitting(ranges, sorted, header, page) && (exists b :: Placement(ranges, b, header, page)) <==>
      !Fitting(ranges, sorted, header, page) && Fitting(ranges, order, header, page)
  {
    hide Placement, Lossless, Fitting;
    PossibleExactly(ranges, order, header, page);
  }

  // ---------- Sizes that are not multiples of a page ----------

  /** Then the sorted order can lose: of two ranges with the same limit, the loop fails in the
      order given although the other one fits. */
  method OddSizes(page: nat)
    returns (ok: bool, other: bool)
    requires page > 1
    ensures SortedOrder(OddRanges(page), [0, 1]) && !ok
    ensures SortedOrder(OddRanges(page), [1, 0]) && other
  {
    hide RoundUp, Placement, Lossless, PageSizes;
    OddOrders(page);
    OddStarts(page);
    var begins, total;
    ok, begins, total := PlaceRanges(OddRanges(page), [0, 1], 0, page);
    other, begins, total := PlaceRanges(OddRanges(page), [1, 0], 0, page);
  }

  function OddRanges(page: nat): seq<Range> {
    [Range(1, page + 1), Range(page, page + 1)]
  }

  lemma OddOrders(page: nat)
    ensures SortedOrder(OddRanges(page), [0, 1]) && SortedOrder(OddRanges(page), [1, 0])
  {
    assert [0, 1][0] == 0 && [0, 1][1] == 1 && [1, 0][0] == 1 && [1, 0][1] == 0;
  }

  lemma OddStarts(page: nat)
    requires page > 1
    ensures !Fitting(OddRanges(page), [0, 1], 0, page) && Fitting(OddRanges(page), [1, 0], 0, page)
  {
    hide RoundUp;
    var ranges := OddRanges(page);
    assert RoundUp(0, page) == 0;
    assert RoundUp(1, page) == page;
    assert page % page == 0;
    assert RoundUp(page, page) == page;
    Extended(Paged(ranges, page), [0, 1], 0);
    Extended(Paged(ranges, page), [1, 0], 0);
    assert StartOf(ranges, [0, 1], 1, 0, page) == page;
    assert StartOf(ranges, [1, 0], 1, 0, page) == page;
    assert StartOf(ranges, [1, 0], 0, 0, page) == 0;
  }
}
