/** What a state of the compile-time heap keeps, stated on values. */
module HeapSpace {
  import opened Basics
  import opened HeapBlocks
  import opened Rounding

  // The least number of slots that has room for `bytes`.
  function SlotsOf(bytes: nat): (slots: nat)
    ensures bytes <= SLOT_BYTES * slots < bytes + SLOT_BYTES
  {
    (bytes + SLOT_BYTES - 1) / SLOT_BYTES
  }

  // The number of bits of `n`, one for zero: what the source calls log2_ceil.
  function BitWidth(n: nat): (w: nat)
    ensures w >= 1
  {
    if n < 2 then 1 else 1 + BitWidth(n / 2)
  }

  function Bit(b: bool): nat {
    if b then 1 else 0
  }

  function NoBlocks(): (r: seq<seq<Block>>)
    ensures |r| == FREELIST_COUNT && forall i | 0 <= i < |r| :: r[i] == []
  {
    seq(FREELIST_COUNT, _ => [])
  }

  // ---------- The parts of the invariant ----------

  ghost predicate FreeOk(heads: seq<nat>, words: seq<nat>, lists: seq<seq<Block>>) {
    SizesOk(lists) && Chains(words, heads, lists)
  }

  /** Free blocks, allocations and the reserved slot 0 are pairwise disjoint and below `used`:
      every slot from 1 to `used` has at most one owner, all others none. */
  ghost predicate Space(lists: seq<seq<Block>>, live: seq<Block>, used: nat) {
    && (forall t: nat :: Owners(lists, t) + OwnersIn(live, t) <= Bit(1 <= t < used))
    && (forall k | 0 <= k < |live| :: live[k].size > 0)
  }

  ghost predicate StartsAt(live: seq<Block>, s: nat) {
    exists k | 0 <= k < |live| :: live[k].start == s
  }

  ghost predicate BeginsOk(begins: seq<bool>, live: seq<Block>) {
    forall s | 0 <= s < |begins| :: begins[s] <==> StartsAt(live, s)
  }

  // Every typed header still holds its type.
  ghost predicate TypesOk(words: seq<nat>, begins: seq<bool>, headers: seq<bool>, types: map<nat, nat>) {
    |words| == |begins| == |headers|
    && forall s | s in types :: s < |begins| && begins[s] && headers[s] && words[s] == types[s]
  }

  // No block contains a slot of the range.
  ghost predicate Unowned(lists: seq<seq<Block>>, from: nat, to: nat) {
    forall t | from <= t < to :: Owners(lists, t) == 0
  }

  lemma FreeCount(heads: seq<nat>, words: seq<nat>, lists: seq<seq<Block>>)
    requires FreeOk(heads, words, lists)
    ensures |lists| == |heads| == FREELIST_COUNT
  {
  }

  lemma SpaceAt(lists: seq<seq<Block>>, live: seq<Block>, used: nat, t: nat)
    requires Space(lists, live, used)
    ensures Owners(lists, t) + OwnersIn(live, t) <= Bit(1 <= t < used)
  {
  }

  // ---------- Steps of the free-list loops ----------

  lemma UnitZero()
    ensures Unit(0) == 1
  {
  }

  lemma CarveNothing(lists: seq<seq<Block>>, curr: nat, count: nat, index: nat, mask: nat)
    requires |lists| == FREELIST_COUNT && index <= FREELIST_COUNT && mask == Unit(index) && count * mask == 0
    ensures Carve(lists, curr, count, index) == lists
  {
  }

  // Bit `index` of what is left says whether a block of that size comes next.
  lemma CarveBit(lists: seq<seq<Block>>, curr: nat, count: nat, index: nat, rest: nat)
    requires |lists| == FREELIST_COUNT && index < FREELIST_COUNT && rest == count * Unit(index) && rest != 0
    ensures rest / Unit(index) % 2 == count % 2 && Unit(index + 1) == Unit(index) * 2 && rest >= Unit(index)
    ensures rest - count % 2 * Unit(index) == (count / 2) * Unit(index + 1) && SizeOk(index, Block(curr, Unit(index)))
    ensures count % 2 == 1 ==>
      Carve(lists, curr, count, index) == Carve(Push(lists, index, Block(curr, Unit(index))), curr + Unit(index),
          count / 2, index + 1)
    ensures count % 2 == 0 ==> Carve(lists, curr, count, index) == Carve(lists, curr, count / 2, index + 1)
  {
    hide Carve, Push, Unit;
    Halves(count, index);
    Quotient(count, Unit(index));
    CarveStep(lists, curr, count, index);
    assert count * Unit(index) == (count - 1) * Unit(index) + Unit(index);
    UnitNext(index);
  }

  lemma UnitNext(i: nat)
    ensures Unit(i + 1) == Unit(i) * 2
  {
  }

  lemma CarveStep(lists: seq<seq<Block>>, curr: nat, count: nat, index: nat)
    requires |lists| == FREELIST_COUNT && index < FREELIST_COUNT && count != 0
    ensures count % 2 == 1 ==>
      Carve(lists, curr, count, index) == Carve(Push(lists, index, Block(curr, Unit(index))), curr + Unit(index),
          count / 2, index + 1)
    ensures count % 2 == 0 ==> Carve(lists, curr, count, index) == Carve(lists, curr, count / 2, index + 1)
  {
    hide Unit, Push;
  }

  lemma CarveLargest(lists: seq<seq<Block>>, curr: nat, count: nat, rest: nat)
    requires |lists| == FREELIST_COUNT && rest == count * LARGEST && rest != 0
    ensures count > 0 && rest - LARGEST == (count - 1) * LARGEST
    ensures SizeOk(FREELIST_COUNT - 1, Block(curr, LARGEST))
    ensures Carve(lists, curr, count, FREELIST_COUNT)
         == Carve(Push(lists, FREELIST_COUNT - 1, Block(curr, LARGEST)), curr + LARGEST, count - 1, FREELIST_COUNT)
  {
    hide Unit, Push;
    assert count > 0;
    assert count * LARGEST == (count - 1) * LARGEST + LARGEST;
  }

  // Pushing a block leaves the slots behind it unowned.
  lemma PushFree(lists: seq<seq<Block>>, i: nat, start: nat, size: nat, end: nat)
    requires i < |lists| && start + size <= end && size > 0 && Unowned(lists, start, end)
    ensures Owners(lists, start) == 0
    ensures Unowned(Push(lists, i, Block(start, size)), start + size, end)
  {
    hide Owners, Push;
    forall t | start + size <= t < end
      ensures Owners(Push(lists, i, Block(start, size)), t) == 0
    {
      PushOwners(lists, i, Block(start, size), t);
    }
  }

  // ---------- Taking a block from a list ----------

  function Pop(lists: seq<seq<Block>>, i: nat): (r: seq<seq<Block>>)
    requires i < |lists| && lists[i] != []
    ensures |r| == |lists|
  {
    lists[i := lists[i][1..]]
  }

  lemma PopOwners(lists: seq<seq<Block>>, i: nat, t: nat)
    requires i < |lists| && lists[i] != []
    ensures Owners(Pop(lists, i), t) == Owners(lists, t) - Covers(lists[i][0].start, lists[i][0].size, t)
  {
    OwnersUpdate(lists, i, lists[i][1..], t);
  }

  lemma HeadBlock(heads: seq<nat>, words: seq<nat>, lists: seq<seq<Block>>, i: nat)
    requires FreeOk(heads, words, lists) && i < |lists| && heads[i] != 0
    ensures lists[i] != [] && lists[i][0].start == heads[i] < |words| && SizeOk(i, lists[i][0])
    ensures Chain(words, words[heads[i]], lists[i][1..])
  {
  }

  lemma PopFree(heads: seq<nat>, words: seq<nat>, lists: seq<seq<Block>>, i: nat)
    requires FreeOk(heads, words, lists) && i < |lists| && heads[i] != 0
    ensures lists[i] != [] && heads[i] < |words| && FreeOk(heads[i := words[heads[i]]], words, Pop(lists, i))
  {
    hide Chain;
    HeadBlock(heads, words, lists, i);
    var heads', lists' := heads[i := words[heads[i]]], Pop(lists, i);
    forall j, k | 0 <= j < |lists'| && 0 <= k < |lists'[j]|
      ensures SizeOk(j, lists'[j][k])
    {
      if j == i { assert lists'[j][k] == lists[i][k + 1]; }
    }
  }

  // The sizes the free lists serve: less than a slot, one slot, or a little more than one.
  lemma SmallSize(bytes: nat)
    requires 1 <= bytes <= MAX_FREELIST_SIZE_LOG2
    ensures BitWidth(bytes) <= 5 && (BitWidth(bytes) == 5 <==> bytes >= SLOT_BYTES)
    ensures Unit(BitWidth(bytes)) == 32 <==> bytes >= SLOT_BYTES
    ensures bytes < SLOT_BYTES ==> bytes < Unit(BitWidth(bytes)) <= SLOT_BYTES
  {
    Widths();
    if bytes < 2 { assert BitWidth(bytes) == 1; }
    else if bytes < 4 { assert bytes / 2 == 1; assert BitWidth(bytes) == 2; }
    else if bytes < 8 { assert bytes / 2 / 2 == 1; assert BitWidth(bytes / 2) == 2; }
    else if bytes < 16 { assert bytes / 2 / 2 / 2 == 1; assert BitWidth(bytes / 2 / 2)
        == 2; assert BitWidth(bytes / 2) == 3; }
    else { assert bytes / 2 / 2 / 2 / 2 == 1; assert BitWidth(bytes / 2 / 2 / 2) == 2; assert BitWidth(bytes / 2 / 2)
        == 3; assert BitWidth(bytes / 2) == 4; }
  }

  lemma Widths()
    ensures Unit(0) == 1 && Unit(1) == 2 && Unit(2) == 4 && Unit(3) == 8 && Unit(4) == 16 && Unit(5) == 32
  {
    assert Unit(2) == 2 * Unit(1);
    assert Unit(4) == 2 * Unit(3);
  }

  // ---------- New allocations ----------

  lemma {:induction false} OwnersAppend(a: seq<Block>, b: Block, t: nat)
    ensures OwnersIn(a + [b], t) == OwnersIn(a, t) + Covers(b.start, b.size, t)
  {
    if a == [] {
      assert a + [b] == [b];
    } else {
      assert (a + [b])[1..] == a[1..] + [b];
      OwnersAppend(a[1..], b, t);
    }
  }

  lemma {:induction false} OwnersRemove(a: seq<Block>, k: nat, t: nat)
    requires k < |a|
    ensures OwnersIn(a[..k] + a[k + 1..], t) == OwnersIn(a, t) - Covers(a[k].start, a[k].size, t)
  {
    if k == 0 {
      assert a[..0] + a[1..] == a[1..];
    } else {
      assert (a[..k] + a[k + 1..])[1..] == a[1..][..k - 1] + a[1..][k..];
      OwnersRemove(a[1..], k - 1, t);
    }
  }

  // Every start of an allocation is owned by it, so no list owns it.
  lemma StartOwned(lists: seq<seq<Block>>, live: seq<Block>, used: nat, s: nat)
    requires Space(lists, live, used) && StartsAt(live, s)
    ensures OwnersIn(live, s) == 1 && Owners(lists, s) == 0 && 1 <= s < used
  {
    var k :| 0 <= k < |live| && live[k].start == s;
    OwnersAt(live, k, s);
    SpaceAt(lists, live, used, s);
  }

  lemma BeginsAppend(begins: seq<bool>, live: seq<Block>, b: Block)
    requires BeginsOk(begins, live) && b.start < |begins|
    ensures BeginsOk(begins[b.start := true], live + [b])
  {
    var begins', live' := begins[b.start := true], live + [b];
    forall s | 0 <= s < |begins'|
      ensures begins'[s] <==> StartsAt(live', s)
    {
      if StartsAt(live, s) {
        var k :| 0 <= k < |live| && live[k].start == s;
        assert live'[k].start == s;
      }
      assert live'[|live|] == b;
    }
  }

  // Types survive writes to slots that no allocation owns.
  lemma TypesKept(words: seq<nat>, words': seq<nat>, begins: seq<bool>, headers: seq<bool>, types: map<nat, nat>,
                  live: seq<Block>, from: nat, to: nat)
    requires TypesOk(words, begins, headers, types) && BeginsOk(begins, live) && |words'| == |words|
    requires forall t | 0 <= t < |words| && !(from <= t < to) :: words'[t] == words[t]
    requires forall t | from <= t < to :: !StartsAt(live, t)
    ensures TypesOk(words', begins, headers, types)
  {
  }

  lemma TypesBegin(words: seq<nat>, begins: seq<bool>, headers: seq<bool>, types: map<nat, nat>, s: nat)
    requires TypesOk(words, begins, headers, types) && s < |begins|
    ensures TypesOk(words, begins[s := true], headers, types)
  {
  }

  /** The block of a list becomes an allocation of `slots` slots; a second slot that is not
      needed goes back to the lists. */
  lemma SpaceTaken(lists: seq<seq<Block>>, i: nat, live: seq<Block>, used: nat, slots: nat)
    requires Space(lists, live, used) && |lists| == FREELIST_COUNT && i < |lists| && lists[i] != []
    requires 0 < slots <= lists[i][0].size <= 2
    ensures var b := lists[i][0];
      var lists' := if slots < b.size then Push(Pop(lists, i), 0, Block(b.start + 1, 1)) else Pop(lists, i);
      && Space(lists', live + [Block(b.start, slots)], used)
      && forall t: nat :: Owners(lists', t) + OwnersIn(live + [Block(b.start, slots)], t)
          == Owners(lists, t) + OwnersIn(live, t)
  {
    hide Owners, OwnersIn, Push, Pop;
    var b := lists[i][0];
    var lists' := if slots < b.size then Push(Pop(lists, i), 0, Block(b.start + 1, 1)) else Pop(lists, i);
    var live' := live + [Block(b.start, slots)];
    forall t: nat
      ensures Owners(lists', t) + OwnersIn(live', t) == Owners(lists, t) + OwnersIn(live, t)
    {
      PopOwners(lists, i, t);
      if slots < b.size { PushOwners(Pop(lists, i), 0, Block(b.start + 1, 1), t); }
      OwnersAppend(live, Block(b.start, slots), t);
    }
    forall t: nat
      ensures Owners(lists', t) + OwnersIn(live', t) <= Bit(1 <= t < used)
    {
      SpaceAt(lists, live, used, t);
    }
  }

  lemma PoppedSlot(lists: seq<seq<Block>>, i: nat, live: seq<Block>, used: nat, t: nat)
    requires Space(lists, live, used) && i < |lists| && lists[i] != []
    requires lists[i][0].start <= t < lists[i][0].start + lists[i][0].size
    ensures Owners(Pop(lists, i), t) == 0 && !StartsAt(live, t) && 1 <= t < used
  {
    PopOwners(lists, i, t);
    SpaceAt(lists, live, used, t);
    if StartsAt(live, t) { StartOwned(lists, live, used, t); }
  }

  // The first two lists have blocks of one and of two slots; no allocation starts in them.
  lemma TakenBlock(heads: seq<nat>, words: seq<nat>, lists: seq<seq<Block>>, i: nat, live: seq<Block>, used: nat,
                   begins: seq<bool>)
    requires FreeOk(heads, words, lists) && Space(lists, live, used) && BeginsOk(begins, live) && i < 2
    requires |heads| == |lists| == FREELIST_COUNT && heads[i] != 0 && used <= |begins|
    ensures lists[i] != [] && lists[i][0] == Block(heads[i], i + 1) && 1 <= heads[i] && heads[i] + i + 1 <= used
    ensures Unowned(Pop(lists, i), heads[i], heads[i] + i + 1)
    ensures forall t | heads[i] <= t < heads[i] + i + 1 :: !StartsAt(live, t)
    ensures !begins[heads[i]]
  {
    hide Owners, Chains, Chain, Space, SizesOk;
    HeadBlock(heads, words, lists, i);
    Widths();
    forall t | heads[i] <= t < heads[i] + i + 1
      ensures Owners(Pop(lists, i), t) == 0 && !StartsAt(live, t) && 1 <= t < used
    {
      PoppedSlot(lists, i, live, used, t);
    }
    PoppedSlot(lists, i, live, used, heads[i] + i);
  }

  lemma CarveOne(lists: seq<seq<Block>>, start: nat)
    requires |lists| == FREELIST_COUNT
    ensures Carve(lists, start, 1, 0) == Push(lists, 0, Block(start, 1))
  {
    hide Push;
    UnitZero();
  }

  // ---------- Bumping ----------

  // Alignment in slots: addresses are multiples of a slot, so smaller ones are met by all.
  function AlignSlots(alignLog2: nat): (k: nat)
    ensures k >= 1
    ensures SLOT_BYTES * k == if alignLog2 <= 4 then SLOT_BYTES else Unit(alignLog2)
  {
    UnitsFrom(alignLog2);
    if alignLog2 <= 4 then 1 else Unit(alignLog2 - 4)
  }

  lemma Aligned(slot: nat, alignLog2: nat)
    requires slot % AlignSlots(alignLog2) == 0
    ensures SLOT_BYTES * slot % Unit(alignLog2) == 0
  {
    hide Unit;
    if alignLog2 <= 4 {
      Widths();
      SmallAligned(slot, Unit(alignLog2));
    } else {
      Scaled(alignLog2 - 4);
      ScaledMultiple(slot, Unit(alignLog2 - 4));
    }
  }

  lemma SmallAligned(slot: nat, u: nat)
    requires u == 1 || u == 2 || u == 4 || u == 8 || u == 16
    ensures SLOT_BYTES * slot % u == 0
  {
    if u == 1 { Multiple(SLOT_BYTES * slot, 1); }
    else if u == 2 { Multiple(8 * slot, 2); }
    else if u == 4 { Multiple(4 * slot, 4); }
    else if u == 8 { Multiple(2 * slot, 8); }
    else { Multiple(slot, 16); }
  }

  lemma ScaledMultiple(slot: nat, k: nat)
    requires k > 0 && slot % k == 0
    ensures SLOT_BYTES * slot % (SLOT_BYTES * k) == 0
  {
    var q := slot / k;
    assert slot == q * k;
    Reassociate(q, k);
    Multiple(q, SLOT_BYTES * k);
  }

  lemma Reassociate(q: nat, k: nat)
    ensures SLOT_BYTES * (q * k) == q * (SLOT_BYTES * k)
  {
  }

  lemma Scaled(i: nat)
    ensures Unit(i + 4) == SLOT_BYTES * Unit(i)
  {
    assert Unit(i + 4) == 2 * Unit(i + 3);
    assert Unit(i + 2) == 2 * Unit(i + 1);
  }

  /** Small allocations are served from one of the first two lists, if it is not empty. */
  predicate Listed(heads: seq<nat>, bytes: nat, alignLog2: nat) {
    |heads| >= 2 && alignLog2 <= 4 && bytes <= MAX_FREELIST_SIZE_LOG2 && heads[Bit(bytes >= SLOT_BYTES)] != 0
  }

  // Where the memory not used so far serves an allocation from, if it reaches.
  predicate Bumped(r: Maybe<nat>, size: nat, alignLog2: nat, header: bool, used: nat, used': nat, reserve: nat) {
    var aligned := RoundUp(used + Bit(header), AlignSlots(alignLog2));
    if aligned + SlotsOf(size) > reserve then r.None? && used' == used
    else r == Some(aligned) && used' == aligned + SlotsOf(size)
  }

  /** The same in bytes, as the source computes it: the payload begins at the least aligned address
      behind everything in use and its header, and what is in use then ends at the next slot. */
  predicate BumpedBytes(r: Maybe<nat>, size: nat, alignLog2: nat, header: bool, used: nat, used': nat, reserve: nat) {
    var aligned := RoundUp(SLOT_BYTES * (used + Bit(header)), Unit(alignLog2));
    var end := RoundUp(aligned + size, SLOT_BYTES);
    if end > SLOT_BYTES * reserve then r.None? && used' == used
    else r.Some? && SLOT_BYTES * r.value == aligned && SLOT_BYTES * used' == end
  }

  lemma BumpedExactly(r: Maybe<nat>, size: nat, alignLog2: nat, header: bool, used: nat, used': nat, reserve: nat)
    ensures Bumped(r, size, alignLog2, header, used, used', reserve)
      <==> BumpedBytes(r, size, alignLog2, header, used, used', reserve)
  {
    hide RoundUp, SlotsOf, AlignSlots, Unit;
    var from := used + Bit(header);
    var aligned := RoundUp(from, AlignSlots(alignLog2));
    ScaledUp(from, alignLog2);
    RoundUpBehind(SLOT_BYTES * aligned, size, SLOT_BYTES);
    SlotsRounded(size);
  }

  // Slots are aligned for everything up to their size.
  lemma ScaledUp(from: nat, alignLog2: nat)
    ensures RoundUp(SLOT_BYTES * from, Unit(alignLog2)) == SLOT_BYTES * RoundUp(from, AlignSlots(alignLog2))
  {
    hide RoundUp, Unit;
    if alignLog2 <= 4 {
      Widths();
      assert SLOT_BYTES * from % Unit(alignLog2) == 0 by { UnitsOfSlot(from, alignLog2); }
    } else {
      RoundUpScaled(from, AlignSlots(alignLog2), SLOT_BYTES);
      assert AlignSlots(alignLog2) * SLOT_BYTES == Unit(alignLog2);
    }
  }

  lemma UnitsOfSlot(from: nat, alignLog2: nat)
    requires alignLog2 <= 4
    ensures SLOT_BYTES * from % Unit(alignLog2) == 0
  {
    hide Unit;
    Widths();
    if alignLog2 == 0 {
    } else if alignLog2 == 1 {
    } else if alignLog2 == 2 {
    } else if alignLog2 == 3 {
    }
  }

  lemma SlotsRounded(bytes: nat)
    ensures RoundUp(bytes, SLOT_BYTES) == SLOT_BYTES * SlotsOf(bytes)
  {
    hide RoundUp;
    var r := RoundUp(bytes, SLOT_BYTES);
    assert r == SLOT_BYTES * (r / SLOT_BYTES);
  }

  lemma {:induction false} UnitsFrom(i: nat)
    ensures i > 4 ==> SLOT_BYTES * Unit(i - 4) == Unit(i)
  {
    Widths();
    if i > 5 { UnitsFrom(i - 1); }
  }

  // ---------- Requests in bytes ----------

  // What a caller was given: `bytes` bytes from an address on.
  datatype Request = Request(address: nat, bytes: nat)

  // The request lies in the slots of the block, behind its header if any, and needs the last one.
  predicate Holds(b: Block, header: bool, r: Request) {
    && r.address == SLOT_BYTES * (b.start + Bit(header))
    && r.address + r.bytes <= SLOT_BYTES * (b.start + b.size) < r.address + r.bytes + SLOT_BYTES
  }

  predicate AllHold(live: seq<Block>, requests: seq<Request>) {
    |live| == |requests|
    && forall k | 0 <= k < |live| ::
      SLOT_BYTES * live[k].start <= requests[k].address
      && requests[k].address + requests[k].bytes <= SLOT_BYTES * (live[k].start + live[k].size)
  }

  lemma SlotsBehind(bytes: nat, header: bool)
    ensures SlotsOf(bytes + SLOT_BYTES * Bit(header)) == Bit(header) + SlotsOf(bytes)
  {
  }

  // The block of a new allocation whose payload begins at slot `slot`.
  lemma HeldNew(live: seq<Block>, slot: nat, size: nat, header: bool)
    requires Bit(header) <= slot
    ensures var b := Block(slot - Bit(header), Bit(header) + SlotsOf(Payload(size, header)));
      && Holds(b, header, Request(SLOT_BYTES * slot, if size == 0 && !header then 1 else size))
      && forall requests | AllHold(live, requests) ::
          AllHold(live + [b], requests + [Request(SLOT_BYTES * slot, size)])
  {
    hide SlotsOf;
  }

  /** No byte belongs to two requests. */
  lemma RequestsApart(lists: seq<seq<Block>>, live: seq<Block>, used: nat, requests: seq<Request>, j: nat, k: nat)
    requires Space(lists, live, used) && AllHold(live, requests) && j < k < |requests|
    ensures requests[j].address + requests[j].bytes <= requests[k].address
         || requests[k].address + requests[k].bytes <= requests[j].address
  {
    hide Owners, OwnersIn;
    var a, b := live[j], live[k];
    if a.start < b.start + b.size && b.start < a.start + a.size {
      var t := if a.start < b.start then b.start else a.start;
      assert Covers(a.start, a.size, t) == 1 && Covers(b.start, b.size, t) == 1;
      OwnersOfTwo(live, j, k, t);
      SpaceAt(lists, live, used, t);
    }
  }

  // The padding of an aligned allocation with a header starts behind the slot at `used`, so it
  // contains the header unless it is empty.
  predicate HeaderInPadding(used: nat, alignLog2: nat, header: bool) {
    header && RoundUp(used + 1, AlignSlots(alignLog2)) != used + 1
  }

  // A member with 32-byte alignment, allocated after one other slot: the header lands in the padding.
  lemma PaddedHeader()
    ensures HeaderInPadding(2, 5, true) && AlignSlots(5) == 2 && RoundUp(3, 2) == 4
  {
    Widths();
    assert RoundUp(3, 2) == 4;
  }

  lemma AlignedAlready(used: nat, alignLog2: nat, header: bool)
    requires alignLog2 <= 4
    ensures !HeaderInPadding(used, alignLog2, header)
  {
  }

  ghost predicate BumpedSpace(lists: seq<seq<Block>>, live: seq<Block>, used: nat, lists': seq<seq<Block>>,
                              live': seq<Block>, used': nat, overlap: bool) {
    && (Space(lists', live', used') <==> !overlap)
    && (forall t: nat | t < used :: Owners(lists', t) + OwnersIn(live', t) == Owners(lists, t) + OwnersIn(live, t))
    && (!overlap ==> forall t: nat | used <= t < used' :: Owners(lists', t) + OwnersIn(live', t) == 1)
  }

  lemma SpaceBumped(lists: seq<seq<Block>>, live: seq<Block>, used: nat, header: nat, aligned: nat, slots: nat)
    requires Space(lists, live, used) && |lists| == FREELIST_COUNT && 1 <= used
    requires header <= 1 && used + header <= aligned && header + slots > 0
    ensures BumpedSpace(lists, live, used, Carve(lists, used + header, aligned - (used + header), 0),
              live + [Block(aligned - header, header + slots)], aligned + slots, header == 1
                  && aligned != used + header)
  {
    hide Owners, OwnersIn, Carve;
    var pad := aligned - (used + header);
    var lists', live', used' := Carve(lists, used + header, pad, 0), live + [Block(aligned - header, header + slots)],
        aligned + slots;
    forall t: nat
      ensures Owners(lists', t) == Owners(lists, t) + Covers(used + header, pad, t)
      ensures OwnersIn(live', t) == OwnersIn(live, t) + Covers(aligned - header, header + slots, t)
      ensures Owners(lists, t) + OwnersIn(live, t) <= Bit(1 <= t < used)
    {
      UnitZero();
      CarveOwners(lists, used + header, pad, 0, t);
      OwnersAppend(live, Block(aligned - header, header + slots), t);
      SpaceAt(lists, live, used, t);
    }
    if header == 1 && pad != 0 {
      assert Owners(lists', aligned - 1) + OwnersIn(live', aligned - 1) >= 2;
    }
  }

  lemma UnownedAbove(lists: seq<seq<Block>>, live: seq<Block>, used: nat, from: nat, to: nat)
    requires Space(lists, live, used) && used <= from
    ensures Unowned(lists, from, to)
    ensures forall t | from <= t :: !StartsAt(live, t)
  {
    hide Owners, OwnersIn;
    forall t | from <= t
      ensures Owners(lists, t) == 0 && !StartsAt(live, t)
    {
      SpaceAt(lists, live, used, t);
      if StartsAt(live, t) { StartOwned(lists, live, used, t); }
    }
  }

  // An allocation without a header takes at least one byte.
  function Payload(size: nat, header: bool): nat {
    if size == 0 && !header then 1 else size
  }

  lemma FreshBegin(begins: seq<bool>, lists: seq<seq<Block>>, live: seq<Block>, used: nat, s: nat)
    requires BeginsOk(begins, live) && Space(lists, live, used) && used <= s < |begins|
    ensures !begins[s]
  {
    if StartsAt(live, s) { StartOwned(lists, live, used, s); }
  }

  lemma TypedBegin(words: seq<nat>, begins: seq<bool>, headers: seq<bool>, types: map<nat, nat>)
    requires TypesOk(words, begins, headers, types)
    ensures forall s | 0 <= s < |begins| && !begins[s] :: s !in types
  {
  }

  lemma TypeAdded(words: seq<nat>, begins: seq<bool>, headers: seq<bool>, types: map<nat, nat>, s: nat, t: nat)
    requires TypesOk(words, begins, headers, types) && s < |begins| && begins[s]
    ensures TypesOk(words[s := t], begins, headers[s := true], types[s := t])
  {
  }

  // Writing the first slot of an allocation leaves the lists intact.
  lemma HeaderWritten(heads: seq<nat>, words: seq<nat>, begins: seq<bool>, lists: seq<seq<Block>>, live: seq<Block>,
                      used: nat, s: nat, v: nat)
    requires FreeOk(heads, words, lists) && BeginsOk(begins, live) && s < |words| == |begins| && begins[s]
    ensures Space(lists, live, used) ==> FreeOk(heads, words[s := v], lists)
  {
    hide Chain;
    if Space(lists, live, used) {
      StartOwned(lists, live, used, s);
      forall i | 0 <= i < |lists|
        ensures Chain(words[s := v], heads[i], lists[i])
      {
        OwnersOfList(lists, i, s);
        SizesPositive(lists, i);
        ChainKept(words, heads[i], lists[i], s, v);
      }
    }
  }

  // ---------- Freeing an allocation ----------

  function Without(live: seq<Block>, k: nat): (r: seq<Block>)
    requires k < |live|
    ensures |r| == |live| - 1
  {
    live[..k] + live[k + 1..]
  }

  lemma SameStart(lists: seq<seq<Block>>, live: seq<Block>, used: nat, j: nat, k: nat)
    requires Space(lists, live, used) && j < k < |live|
    ensures live[j].start != live[k].start
  {
    OwnersOfTwo(live, j, k, live[j].start);
    SpaceAt(lists, live, used, live[j].start);
  }

  lemma BeginsRemove(begins: seq<bool>, lists: seq<seq<Block>>, live: seq<Block>, used: nat, k: nat)
    requires BeginsOk(begins, live) && Space(lists, live, used) && k < |live| && live[k].start < |begins|
    ensures BeginsOk(begins[live[k].start := false], Without(live, k))
  {
    hide Space;
    var begins', live' := begins[live[k].start := false], Without(live, k);
    forall s | 0 <= s < |begins'|
      ensures begins'[s] <==> StartsAt(live', s)
    {
      if begins'[s] {
        var j :| 0 <= j < |live| && live[j].start == s;
        assert live'[if j < k then j else j - 1].start == s;
      }
      if StartsAt(live', s) {
        var j :| 0 <= j < |live'| && live'[j].start == s;
        var i := if j < k then j else j + 1;
        assert live[i].start == s;
        SameStart(lists, live, used, if i < k then i else k, if i < k then k else i);
      }
    }
  }

  lemma TypesEnd(words: seq<nat>, begins: seq<bool>, headers: seq<bool>, types: map<nat, nat>, s: nat)
    requires TypesOk(words, begins, headers, types) && s < |begins| && s !in types
    ensures TypesOk(words, begins[s := false], headers, types)
  {
  }

  // The slots of an allocation are owned by nothing else.
  lemma LiveSlot(lists: seq<seq<Block>>, live: seq<Block>, used: nat, k: nat, t: nat)
    requires Space(lists, live, used) && k < |live| && live[k].start <= t < live[k].start + live[k].size
    ensures Owners(lists, t) == 0 && OwnersIn(live, t) == 1 && 1 <= t < used
    ensures OwnersIn(Without(live, k), t) == 0
  {
    OwnersAt(live, k, t);
    OwnersRemove(live, k, t);
    SpaceAt(lists, live, used, t);
  }

  lemma LiveRange(lists: seq<seq<Block>>, live: seq<Block>, used: nat, k: nat)
    requires Space(lists, live, used) && k < |live|
    ensures 1 <= live[k].start && 1 <= live[k].size && live[k].start + live[k].size <= used
    ensures Unowned(lists, live[k].start, live[k].start + live[k].size)
    ensures forall t | live[k].start <= t < live[k].start + live[k].size :: OwnersIn(Without(live, k), t) == 0
    ensures forall t | live[k].start <= t < live[k].start + live[k].size :: !StartsAt(Without(live, k), t)
  {
    hide Owners, OwnersIn, Space;
    var b := live[k];
    assert b.size > 0 by { PositiveSize(lists, live, used, k); }
    forall t | b.start <= t < b.start + b.size
      ensures Owners(lists, t) == 0 && OwnersIn(Without(live, k), t) == 0 && 1 <= t < used
      ensures !StartsAt(Without(live, k), t)
    {
      LiveSlot(lists, live, used, k, t);
      if StartsAt(Without(live, k), t) { OthersPositive(lists, live, used, k, t); }
    }
    LiveSlot(lists, live, used, k, b.start);
    LiveSlot(lists, live, used, k, b.start + b.size - 1);
  }

  lemma PositiveSize(lists: seq<seq<Block>>, live: seq<Block>, used: nat, k: nat)
    requires Space(lists, live, used) && k < |live|
    ensures live[k].size > 0
  {
  }

  lemma OthersPositive(lists: seq<seq<Block>>, live: seq<Block>, used: nat, k: nat, t: nat)
    requires Space(lists, live, used) && k < |live| && StartsAt(Without(live, k), t)
    ensures OwnersIn(Without(live, k), t) > 0
  {
    var live' := Without(live, k);
    var j :| 0 <= j < |live'| && live'[j].start == t;
    assert live'[j] == live[if j < k then j else j + 1];
    OwnersAt(live', j, t);
  }

  lemma SpaceFreed(lists: seq<seq<Block>>, live: seq<Block>, used: nat, k: nat)
    requires Space(lists, live, used) && k < |live| && |lists| == FREELIST_COUNT
    ensures Space(Carve(lists, live[k].start, live[k].size, 0), Without(live, k), used)
    ensures live[k].start + live[k].size == used ==> Space(lists, Without(live, k), live[k].start)
    ensures forall t: nat ::
      Owners(Carve(lists, live[k].start, live[k].size, 0), t) + OwnersIn(Without(live, k), t)
          == Owners(lists, t) + OwnersIn(live, t)
  {
    hide Owners, OwnersIn, Carve;
    var b, live' := live[k], Without(live, k);
    var lists' := Carve(lists, b.start, b.size, 0);
    forall t: nat
      ensures Owners(lists', t) + OwnersIn(live', t) == Owners(lists, t) + OwnersIn(live, t)
      ensures OwnersIn(live', t) == OwnersIn(live, t) - Covers(b.start, b.size, t)
      ensures Owners(lists, t) + OwnersIn(live, t) <= Bit(1 <= t < used)
    {
      UnitZero();
      CarveOwners(lists, b.start, b.size, 0, t);
      OwnersRemove(live, k, t);
      SpaceAt(lists, live, used, t);
    }
    LiveRange(lists, live, used, k);
    forall t: nat | b.start <= t < b.start + b.size
      ensures Owners(lists, t) == 0
    {
      LiveSlot(lists, live, used, k, t);
    }
  }

  // ---------- Interior addresses ----------

  ghost predicate GreatestBegin(begins: seq<bool>, slot: nat, s: nat) {
    s <= slot < |begins| && begins[s] && forall u | s < u <= slot :: !begins[u]
  }

  /** The start of an allocation is the greatest start not above any of its slots. */
  lemma InteriorStart(begins: seq<bool>, lists: seq<seq<Block>>, live: seq<Block>, used: nat, k: nat, slot: nat, s: nat)
    requires BeginsOk(begins, live) && Space(lists, live, used) && k < |live|
    requires live[k].start <= slot < live[k].start + live[k].size && GreatestBegin(begins, slot, s)
    ensures s == live[k].start
  {
    hide Space;
    var b := live[k];
    assert begins[b.start];
    if s > b.start {
      var j :| 0 <= j < |live| && live[j].start == s;
      OwnersOfTwo(live, if j < k then j else k, if j < k then k else j, s);
      PositiveSize(lists, live, used, j);
      SpaceAt(lists, live, used, s);
    }
  }
}
