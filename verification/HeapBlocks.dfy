/** Free blocks of the compile-time heap. Everything is counted in slots of 16 bytes. */
module HeapBlocks {

  const SLOT_BYTES: nat := 16
  const FREELIST_COUNT: nat := 14
  // The log2 of the largest block size in bytes; the allocator compares sizes with it.
  const MAX_FREELIST_SIZE_LOG2: nat := 18
  const LARGEST: nat := Unit(FREELIST_COUNT)

  datatype Block = Block(start: nat, size: nat)

  function Unit(i: nat): (u: nat)
    ensures u >= 1
  {
    if i == 0 then 1 else 2 * Unit(i - 1)
  }

  function Covers(start: nat, size: nat, t: nat): nat {
    if start <= t < start + size then 1 else 0
  }

  // How many of the blocks contain slot `t`.
  function OwnersIn(bs: seq<Block>, t: nat): nat {
    if bs == [] then 0 else Covers(bs[0].start, bs[0].size, t) + OwnersIn(bs[1..], t)
  }

  function Owners(lists: seq<seq<Block>>, t: nat): nat {
    if lists == [] then 0 else OwnersIn(lists[0], t) + Owners(lists[1..], t)
  }

  lemma {:induction false} OwnersUpdate(lists: seq<seq<Block>>, i: nat, list: seq<Block>, t: nat)
    requires i < |lists|
    ensures Owners(lists[i := list], t) == Owners(lists, t) - OwnersIn(lists[i], t) + OwnersIn(list, t)
    ensures OwnersIn(lists[i], t) <= Owners(lists, t)
  {
    if i > 0 {
      assert lists[i := list][1..] == lists[1..][i - 1 := list];
      OwnersUpdate(lists[1..], i - 1, list, t);
    } else {
      assert lists[0 := list][1..] == lists[1..];
    }
  }

  lemma {:induction false} NoOwners(lists: seq<seq<Block>>, t: nat)
    requires forall i | 0 <= i < |lists| :: lists[i] == []
    ensures Owners(lists, t) == 0
  {
    if lists != [] { NoOwners(lists[1..], t); }
  }

  // A block that contains `t` makes its list own it.
  lemma {:induction false} OwnersAt(bs: seq<Block>, k: nat, t: nat)
    requires k < |bs|
    ensures OwnersIn(bs, t) >= Covers(bs[k].start, bs[k].size, t)
  {
    if k > 0 { OwnersAt(bs[1..], k - 1, t); }
  }

  lemma {:induction false} OwnersOfTwo(bs: seq<Block>, j: nat, k: nat, t: nat)
    requires j < k < |bs|
    ensures OwnersIn(bs, t) >= Covers(bs[j].start, bs[j].size, t) + Covers(bs[k].start, bs[k].size, t)
  {
    if j > 0 {
      OwnersOfTwo(bs[1..], j - 1, k - 1, t);
    } else {
      OwnersAt(bs[1..], k - 1, t);
    }
  }

  // ---------- Cutting a range into blocks ----------

  function Push(lists: seq<seq<Block>>, i: nat, b: Block): (r: seq<seq<Block>>)
    requires i < |lists|
    ensures |r| == |lists|
  {
    lists[i := [b] + lists[i]]
  }

  /** What `comp_heap_add_to_freelist` does with `count` units of 2^i slots from `start` on:
      one block for every bit that is set, from the lowest on, the rest in largest blocks. */
  function Carve(lists: seq<seq<Block>>, start: nat, count: nat, i: nat): (r: seq<seq<Block>>)
    requires |lists| == FREELIST_COUNT && i <= FREELIST_COUNT
    ensures |r| == |lists|
    decreases FREELIST_COUNT - i, count
  {
    if count == 0 then lists
    else if i == FREELIST_COUNT then
      Carve(Push(lists, FREELIST_COUNT - 1, Block(start, LARGEST)), start + LARGEST, count - 1, i)
    else if count % 2 == 1 then Carve(Push(lists, i, Block(start, Unit(i))), start + Unit(i), count / 2, i + 1)
    else Carve(lists, start, count / 2, i + 1)
  }

  /** Conservation: the blocks cover the range exactly once, and nothing else changes. */
  lemma {:induction false} CarveOwners(lists: seq<seq<Block>>, start: nat, count: nat, i: nat, t: nat)
    requires |lists| == FREELIST_COUNT && i <= FREELIST_COUNT
    ensures Owners(Carve(lists, start, count, i), t) == Owners(lists, t) + Covers(start, count * Unit(i), t)
    decreases FREELIST_COUNT - i, count
  {
    hide Owners, Covers, Unit, Push;
    if count == 0 {
      NothingCovered(start, i, t);
    } else if i == FREELIST_COUNT {
      var b := Block(start, LARGEST);
      PushOwners(lists, FREELIST_COUNT - 1, b, t);
      CarveOwners(Push(lists, FREELIST_COUNT - 1, b), start + LARGEST, count - 1, i, t);
      OneMore(start, count - 1, i, t);
    } else {
      HalvesCovered(start, count, i, t);
      if count % 2 == 1 {
        PushOwners(lists, i, Block(start, Unit(i)), t);
        CarveOwners(Push(lists, i, Block(start, Unit(i))), start + Unit(i), count / 2, i + 1, t);
      } else {
        CarveOwners(lists, start, count / 2, i + 1, t);
      }
    }
  }

  lemma NothingCovered(start: nat, i: nat, t: nat)
    ensures Covers(start, 0 * Unit(i), t) == 0
  {
  }

  lemma OneMore(start: nat, rest: nat, i: nat, t: nat)
    ensures Covers(start, (rest + 1) * Unit(i), t)
      == Covers(start, Unit(i), t) + Covers(start + Unit(i), rest * Unit(i), t)
  {
    hide Unit;
    var u := Unit(i);
    assert (rest + 1) * u == rest * u + u;
  }

  lemma HalvesCovered(start: nat, count: nat, i: nat, t: nat)
    ensures count % 2 == 1 ==>
      Covers(start, count * Unit(i), t) == Covers(start, Unit(i), t) + Covers(start + Unit(i),
          (count / 2) * Unit(i + 1), t)
    ensures count % 2 == 0 ==> Covers(start, count * Unit(i), t) == Covers(start, (count / 2) * Unit(i + 1), t)
  {
    hide Unit;
    Halves(count, i);
  }

  lemma Halves(count: nat, i: nat)
    ensures count * Unit(i) == (count / 2) * Unit(i + 1) + (count % 2) * Unit(i)
  {
    var h, u := count / 2, Unit(i);
    assert count == 2 * h + count % 2;
    assert Unit(i + 1) == 2 * u;
    assert (2 * h + count % 2) * u == h * (2 * u) + (count % 2) * u;
  }

  lemma PushOwners(lists: seq<seq<Block>>, i: nat, b: Block, t: nat)
    requires i < |lists|
    ensures Owners(Push(lists, i, b), t) == Owners(lists, t) + Covers(b.start, b.size, t)
  {
    OwnersUpdate(lists, i, [b] + lists[i], t);
    assert ([b] + lists[i])[1..] == lists[i];
  }

  /** A block in list `i` has 2^i slots; in the last list it may also have twice as many. */
  predicate SizesOk(lists: seq<seq<Block>>) {
    |lists| == FREELIST_COUNT
    && forall i, k | 0 <= i < |lists| && 0 <= k < |lists[i]| :: SizeOk(i, lists[i][k])
  }

  predicate SizeOk(i: nat, b: Block) {
    b.size == Unit(i) || (i == FREELIST_COUNT - 1 && b.size == LARGEST)
  }

  lemma SizesPush(lists: seq<seq<Block>>, i: nat, b: Block)
    requires SizesOk(lists) && i < |lists| && SizeOk(i, b)
    ensures SizesOk(Push(lists, i, b))
  {
  }

  lemma {:induction false} CarveSizes(lists: seq<seq<Block>>, start: nat, count: nat, i: nat)
    requires SizesOk(lists) && i <= FREELIST_COUNT
    ensures SizesOk(Carve(lists, start, count, i))
    decreases FREELIST_COUNT - i, count
  {
    hide SizesOk;
    SizesCount(lists);
    if count == 0 {
    } else if i == FREELIST_COUNT {
      SizesPush(lists, FREELIST_COUNT - 1, Block(start, LARGEST));
      CarveSizes(Push(lists, FREELIST_COUNT - 1, Block(start, LARGEST)), start + LARGEST, count - 1, i);
    } else if count % 2 == 1 {
      SizesPush(lists, i, Block(start, Unit(i)));
      CarveSizes(Push(lists, i, Block(start, Unit(i))), start + Unit(i), count / 2, i + 1);
    } else {
      CarveSizes(lists, start, count / 2, i + 1);
    }
  }

  lemma SizesCount(lists: seq<seq<Block>>)
    requires SizesOk(lists)
    ensures |lists| == FREELIST_COUNT
  {
  }

  // ---------- Lists stored in the free memory itself ----------

  /** The list starts at slot `head`; every block's first slot names the next one. */
  ghost predicate Chain(links: seq<nat>, head: nat, bs: seq<Block>)
    decreases bs
  {
    if bs == [] then head == 0
    else head == bs[0].start && 0 < head < |links| && Chain(links, links[head], bs[1..])
  }

  ghost predicate Chains(links: seq<nat>, heads: seq<nat>, lists: seq<seq<Block>>) {
    |heads| == |lists| && forall i | 0 <= i < |lists| :: Chain(links, heads[i], lists[i])
  }

  // Writing a slot that no block of the list contains.
  lemma {:induction false} ChainKept(links: seq<nat>, head: nat, bs: seq<Block>, s: nat, v: nat)
    requires Chain(links, head, bs) && s < |links| && OwnersIn(bs, s) == 0
    requires forall k | 0 <= k < |bs| :: bs[k].size > 0
    ensures Chain(links[s := v], head, bs)
    decreases bs
  {
    if bs != [] {
      ChainKept(links, links[head], bs[1..], s, v);
    }
  }

  lemma {:induction false} OwnersOfList(lists: seq<seq<Block>>, i: nat, t: nat)
    requires i < |lists|
    ensures OwnersIn(lists[i], t) <= Owners(lists, t)
  {
    OwnersUpdate(lists, i, lists[i], t);
  }

  lemma ChainsPush(links: seq<nat>, heads: seq<nat>, lists: seq<seq<Block>>, i: nat, b: Block)
    requires Chains(links, heads, lists) && SizesOk(lists) && i < |lists| && 0 < b.start < |links|
    requires Owners(lists, b.start) == 0
    ensures Chains(links[b.start := heads[i]], heads[i := b.start], Push(lists, i, b))
  {
    hide Chain, Owners, OwnersIn;
    var links', heads', lists' := links[b.start := heads[i]], heads[i := b.start], Push(lists, i, b);
    forall j | 0 <= j < |lists'|
      ensures Chain(links', heads'[j], lists'[j])
    {
      OwnersOfList(lists, j, b.start);
      SizesPositive(lists, j);
      ChainKept(links, heads[j], lists[j], b.start, heads[i]);
      if j == i { ChainCons(links', b, lists[i]); }
    }
  }

  lemma SizesPositive(lists: seq<seq<Block>>, i: nat)
    requires SizesOk(lists) && i < |lists|
    ensures forall k | 0 <= k < |lists[i]| :: lists[i][k].size > 0
  {
    forall k | 0 <= k < |lists[i]|
      ensures lists[i][k].size > 0
    {
      assert SizeOk(i, lists[i][k]);
    }
  }

  lemma ChainCons(links: seq<nat>, b: Block, bs: seq<Block>)
    requires 0 < b.start < |links| && Chain(links, links[b.start], bs)
    ensures Chain(links, b.start, [b] + bs)
  {
    assert ([b] + bs)[1..] == bs;
  }

  /** No list can run into itself: its blocks start at different slots. */
  lemma Acyclic(links: seq<nat>, heads: seq<nat>, lists: seq<seq<Block>>, i: nat, j: nat, k: nat)
    requires SizesOk(lists) && (forall t: nat :: Owners(lists, t) <= 1)
    requires i < |lists| && j < k < |lists[i]|
    ensures lists[i][j].start != lists[i][k].start
  {
    SizesPositive(lists, i);
    OwnersOfList(lists, i, lists[i][j].start);
    OwnersOfTwo(lists[i], j, k, lists[i][j].start);
  }
}
