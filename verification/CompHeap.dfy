/** The compile-time heap: a bump allocator with free lists kept in the free memory itself, and
    bitmaps for the starts and the headers of allocations. The collector is in HeapSweep.dfy. */
module CompHeaps {
  import opened Basics
  import opened HeapBlocks
  import opened HeapSpace
  import opened HeapSweep
  import opened Rounding

  class CompHeap {
    const reserve: nat
    // Bytes of a bitmap that are committed and decommitted together.
    const page: nat
    var used: nat
    const heads: array<nat>
    // The first 32 bits of every slot: the link of a free block, the type of a header.
    const words: array<nat>
    const begins: array<bool>
    const headers: array<bool>
    const marks: array<bool>
    // The blocks on the free lists, the allocations, the types of those that have a header, and
    // the starts of the allocations marked so far.
    ghost var lists: seq<seq<Block>>
    ghost var live: seq<Block>
    ghost var types: map<nat, nat>
    ghost var kept: set<nat>

    ghost predicate Arrays()
      reads this
    {
      && heads.Length == FREELIST_COUNT && words.Length == begins.Length == headers.Length == reserve
      && marks.Length == reserve + 2 && page > 0
      && heads != words && begins != headers && begins != marks && headers != marks
    }

    ghost predicate Shape()
      reads this
    {
      Arrays() && 1 <= used <= reserve
    }

    ghost predicate Valid()
      reads this, heads, words, begins, headers
    {
      && Shape() && FreeOk(heads[..], words[..], lists) && Space(lists, live, used)
      && BeginsOk(begins[..], live) && TypesOk(words[..], begins[..], headers[..], types)
    }

    // Only allocations with a header have a header bit.
    ghost predicate HeadersExact()
      reads this, begins, headers
      requires Arrays()
    {
      forall s | 0 <= s < reserve :: headers[s] <==> begins[s] && s in types
    }

    ghost predicate Unmarked()
      reads this, marks
    {
      forall s | 0 <= s < marks.Length :: !marks[s]
    }

    constructor (reserve: nat, page: nat)
      requires reserve >= 1 && page >= 1
      ensures Valid() && HeadersExact() && Unmarked() && this.reserve == reserve && this.page == page && used == 1
      ensures live == [] && types == map[] && forall t: nat :: Owners(lists, t) == 0
      ensures forall i | 0 <= i < heads.Length :: heads[i] == 0
      ensures fresh(heads) && fresh(words) && fresh(begins) && fresh(headers) && fresh(marks)
    {
      this.reserve := reserve;
      this.page := page;
      used := 1;
      heads := new nat[FREELIST_COUNT](_ => 0);
      words := new nat[reserve](_ => 0);
      begins := new bool[reserve](_ => false);
      headers := new bool[reserve](_ => false);
      marks := new bool[reserve + 2](_ => false);
      lists := NoBlocks();
      live := [];
      types := map[];
      kept := {};
      new;
      forall t: nat
        ensures Owners(lists, t) == 0
      {
        NoOwners(lists, t);
      }
    }

    // ---------- Free lists ----------

    // One block: its first slot names the former head of the list.
    method PushBlock(index: nat, start: nat, size: nat)
      requires Shape() && FreeOk(heads[..], words[..], lists)
      requires index < FREELIST_COUNT && SizeOk(index, Block(start, size)) && 0 < start < reserve
      requires Owners(lists, start) == 0
      modifies this`lists, heads, words
      ensures Shape() && FreeOk(heads[..], words[..], lists)
      ensures |old(lists)| == FREELIST_COUNT && lists == Push(old(lists), index, Block(start, size))
      ensures forall t | 0 <= t < reserve && t != start :: words[t] == old(words[t])
    {
      hide Chains, Owners, SizesOk, SizeOk;
      SizesCount(lists);
      ChainsPush(words[..], heads[..], lists, index, Block(start, size));
      SizesPush(lists, index, Block(start, size));
      ghost var w: seq<nat>, h: seq<nat> := words[..], heads[..];
      words[start] := heads[index];
      heads[index] := start;
      lists := Push(lists, index, Block(start, size));
      assert words[..] == w[start := h[index]] && heads[..] == h[index := start];
    }

    /** Cuts a range into blocks. Only memory of the range itself is written. */
    method AddToFreelist(start: nat, size: nat)
      requires Shape() && FreeOk(heads[..], words[..], lists)
      requires 0 < start && 0 < size && start + size <= reserve && Unowned(lists, start, start + size)
      modifies this`lists, heads, words
      ensures Shape() && FreeOk(heads[..], words[..], lists)
      ensures |old(lists)| == FREELIST_COUNT && lists == Carve(old(lists), start, size, 0)
      ensures forall t | 0 <= t < reserve && !(start <= t < start + size) :: words[t] == old(words[t])
    {
      hide FreeOk, Unowned, Owners, SizesOk, SizeOk, Carve, Unit, Push;
      var rest: nat, mask: nat, index: nat, curr: nat := size, 1, 0, start;
      ghost var count: nat := size;
      FreeCount(heads[..], words[..], lists);
      UnitZero();
      while rest != 0 && index != FREELIST_COUNT
        invariant index <= FREELIST_COUNT && mask == Unit(index) && rest == count * mask && |lists| == FREELIST_COUNT
        invariant curr + rest == start + size && start <= curr
        invariant Shape() && FreeOk(heads[..], words[..], lists)
        invariant Carve(lists, curr, count, index) == Carve(old(lists), start, size, 0)
        invariant Unowned(lists, curr, start + size)
        invariant forall t | 0 <= t < reserve && !(start <= t < start + size) :: words[t] == old(words[t])
      {
        CarveBit(lists, curr, count, index, rest);
        if rest / mask % 2 == 1 {
          PushFree(lists, index, curr, mask, start + size);
          PushBlock(index, curr, mask);
          curr := curr + mask;
          rest := rest - mask;
        }
        count := count / 2;
        mask := mask * 2;
        index := index + 1;
      }
      if rest == 0 {
        CarveNothing(lists, curr, count, index, mask);
      } else {
        AddLargest(curr, rest, count);
      }
    }

    // The second loop of the source: what is left over goes to the last list.
    method AddLargest(start: nat, size: nat, ghost units: nat)
      requires Shape() && FreeOk(heads[..], words[..], lists)
      requires 0 < start && start + size <= reserve && size == units * LARGEST && Unowned(lists, start, start + size)
      modifies this`lists, heads, words
      ensures Shape() && FreeOk(heads[..], words[..], lists)
      ensures |old(lists)| == FREELIST_COUNT && lists == Carve(old(lists), start, units, FREELIST_COUNT)
      ensures forall t | 0 <= t < reserve && !(start <= t < start + size) :: words[t] == old(words[t])
    {
      hide FreeOk, Unowned, Owners, SizesOk, SizeOk, Carve, Unit, Push;
      var rest: nat, curr: nat := size, start;
      ghost var count: nat := units;
      FreeCount(heads[..], words[..], lists);
      while rest != 0
        invariant |lists| == FREELIST_COUNT && rest == count * LARGEST
        invariant curr + rest == start + size && start <= curr
        invariant Shape() && FreeOk(heads[..], words[..], lists)
        invariant Carve(lists, curr, count, FREELIST_COUNT) == Carve(old(lists), start, units, FREELIST_COUNT)
        invariant Unowned(lists, curr, start + size)
        invariant forall t | 0 <= t < reserve && !(start <= t < start + size) :: words[t] == old(words[t])
        decreases rest
      {
        CarveLargest(lists, curr, count, rest);
        PushFree(lists, FREELIST_COUNT - 1, curr, LARGEST, start + size);
        PushBlock(FREELIST_COUNT - 1, curr, LARGEST);
        curr := curr + LARGEST;
        rest := rest - LARGEST;
        count := count - 1;
      }
      CarveNothing(lists, curr, count, FREELIST_COUNT, LARGEST);
    }

    // ---------- Allocation ----------

    // Serves an allocation of at most 18 bytes from a list that is not empty.
    method TakeFree(index: nat, width: nat, bytes: nat)
      returns (start: nat)
      requires Valid() && 1 <= bytes <= MAX_FREELIST_SIZE_LOG2 && width == BitWidth(bytes)
      requires index == (if width < 4 then 0 else width - 4) && index < FREELIST_COUNT && heads[index] != 0
      modifies this`lists, this`live, heads, words, begins
      ensures Valid() && live == old(live) + [Block(start, SlotsOf(bytes))]
      ensures start == old(heads[index]) && start < reserve
      ensures !old(begins[start]) && begins[..] == old(begins[..])[start := true]
      ensures forall t: nat :: Owners(lists, t) + OwnersIn(live, t) == Owners(old(lists), t) + OwnersIn(old(live), t)
    {
      hide FreeOk, Space, BeginsOk, TypesOk, Owners, OwnersIn, Chains, SizesOk, Unit, Carve, BitWidth;
      SmallSize(bytes);
      FreeCount(heads[..], words[..], lists);
      PopFree(heads[..], words[..], lists, index);
      TakenBlock(heads[..], words[..], lists, index, live, used, begins[..]);
      ghost var w: seq<nat>, h: seq<nat>, b: seq<bool>, was := words[..], heads[..], begins[..], lists;
      start := heads[index];
      heads[index] := words[start];
      lists := Pop(lists, index);
      assert heads[..] == h[index := w[start]];
      if Unit(width) - bytes >= SLOT_BYTES {
        CarveOne(lists, start + 1);
        AddToFreelist(start + 1, 1);
      }
      TypesKept(w, words[..], b, headers[..], types, live, start + 1, start + 1 + index);
      SpaceTaken(was, index, live, used, SlotsOf(bytes));
      BeginsAppend(b, live, Block(start, SlotsOf(bytes)));
      TypesBegin(words[..], b, headers[..], types, start);
      begins[start] := true;
      live := live + [Block(start, SlotsOf(bytes))];
      assert begins[..] == b[start := true];
    }

    // Serves an allocation from the memory not used so far.
    method Bump(size: nat, alignLog2: nat, header: bool)
      returns (r: Maybe<nat>)
      requires Valid() && (size > 0 || header)
      modifies this`used, this`lists, this`live, heads, words, begins
      ensures Bumped(r, size, alignLog2, header, old(used), used, reserve)
      ensures Shape() && FreeOk(heads[..], words[..], lists) && BeginsOk(begins[..], live)
      ensures TypesOk(words[..], begins[..], headers[..], types)
      ensures r.None? ==> (
        && RoundUp(old(used) + Bit(header), AlignSlots(alignLog2)) + SlotsOf(size) > reserve
        && used == old(used) && lists == old(lists) && live == old(live) && begins[..] == old(begins[..]))
      ensures r.Some? ==> (
        && r.value % AlignSlots(alignLog2) == 0 && Bit(header) <= r.value && r.value - Bit(header) < reserve
        && live == old(live) + [Block(r.value - Bit(header), Bit(header) + SlotsOf(size))]
        && !old(begins[r.value - Bit(header)]) && begins[..] == old(begins[..])[r.value - Bit(header) := true]
        && BumpedSpace(old(lists), old(live), old(used), lists, live, used,
            HeaderInPadding(old(used), alignLog2, header)))
    {
      hide FreeOk, Space, BeginsOk, TypesOk, Owners, OwnersIn, Unit, Carve, RoundUp, BumpedSpace;
      var headerSlots := Bit(header);
      var unaligned := used + headerSlots;
      var aligned := RoundUp(unaligned, AlignSlots(alignLog2));
      var newUsed := aligned + SlotsOf(size);
      if newUsed > reserve { return None; }
      FreeCount(heads[..], words[..], lists);
      UnownedAbove(lists, live, used, unaligned, aligned);
      FreshBegin(begins[..], lists, live, used, aligned - headerSlots);
      SpaceBumped(lists, live, used, headerSlots, aligned, SlotsOf(size));
      ghost var w: seq<nat>, b := words[..], begins[..];
      used := newUsed;
      if unaligned != aligned {
        AddToFreelist(unaligned, aligned - unaligned);
      } else {
        UnitZero();
        CarveNothing(lists, unaligned, 0, 0, 1);
      }
      TypesKept(w, words[..], b, headers[..], types, live, unaligned, aligned);
      BeginsAppend(b, live, Block(aligned - headerSlots, headerSlots + SlotsOf(size)));
      TypesBegin(words[..], b, headers[..], types, aligned - headerSlots);
      begins[aligned - headerSlots] := true;
      live := live + [Block(aligned - headerSlots, headerSlots + SlotsOf(size))];
      assert begins[..] == b[aligned - headerSlots := true];
      r := Some(aligned);
    }

    /** Every allocation gets slots of its own, suitably aligned, with room for its bytes and none to
        spare, and no slot is lost; the one exception is an allocation with a header whose payload
        needs more than slot alignment and is not aligned by luck. */
    method AllocInternal(size: nat, alignLog2: nat, header: bool)
      returns (r: Maybe<nat>)
      requires Valid()
      modifies this`used, this`lists, this`live, heads, words, begins
      ensures var bytes := Payload(size, header) + SLOT_BYTES * Bit(header);
        if Listed(old(heads[..]), bytes, alignLog2)
        then r == Some(old(heads[Bit(bytes >= SLOT_BYTES)]) + Bit(header)) && used == old(used)
        else Bumped(r, Payload(size, header), alignLog2, header, old(used), used, reserve)
      ensures !Listed(old(heads[..]), Payload(size, header) + SLOT_BYTES * Bit(header), alignLog2) ==>
        BumpedBytes(r, if size == 0 && !header then 1 else size, alignLog2, header, old(used), used, reserve)
      ensures r.Some? ==>
        live != [] && Holds(live[|live| - 1], header,
            Request(SLOT_BYTES * r.value, if size == 0 && !header then 1 else size))
      ensures r.Some? ==> forall requests | AllHold(old(live), requests) ::
        AllHold(live, requests + [Request(SLOT_BYTES * r.value, size)])
      ensures Shape() && FreeOk(heads[..], words[..], lists) && BeginsOk(begins[..], live)
      ensures TypesOk(words[..], begins[..], headers[..], types)
      ensures Valid() <==> r.None? || !HeaderInPadding(old(used), alignLog2, header)
      ensures r.None? ==> (
        && RoundUp(old(used) + Bit(header), AlignSlots(alignLog2)) + SlotsOf(Payload(size, header)) > reserve
        && used == old(used) && lists == old(lists) && live == old(live) && begins[..] == old(begins[..]))
      ensures r.Some? ==> (
        && SLOT_BYTES * r.value % Unit(alignLog2) == 0 && Bit(header) <= r.value && r.value - Bit(header) < reserve
        && live == old(live) + [Block(r.value - Bit(header), Bit(header) + SlotsOf(Payload(size, header)))]
        && !old(begins[r.value - Bit(header)]) && begins[..] == old(begins[..])[r.value - Bit(header) := true])
      ensures forall t: nat | t < old(used) ::
        Owners(lists, t) + OwnersIn(live, t) == Owners(old(lists), t) + OwnersIn(old(live), t)
      ensures Valid() ==> forall t: nat | old(used) <= t < used :: Owners(lists, t) + OwnersIn(live, t) == 1
    {
      hide FreeOk, Space, BeginsOk, TypesOk, Owners, OwnersIn, Unit, RoundUp, BitWidth, HeaderInPadding, Bumped;
      hide BumpedBytes, Holds, AllHold, SlotsOf, AlignSlots;
      var payload := Payload(size, header);
      var bytes := payload + SLOT_BYTES * Bit(header);
      if alignLog2 <= 4 && bytes <= MAX_FREELIST_SIZE_LOG2 {
        SmallSize(bytes);
        var width := BitWidth(bytes);
        var index := if width < 4 then 0 else width - 4;
        if heads[index] != 0 {
          var start := TakeFree(index, width, bytes);
          AlignedAlready(used, alignLog2, header);
          Aligned(start + Bit(header), alignLog2);
          SlotsBehind(payload, header);
          HeldNew(old(live), start + Bit(header), size, header);
          return Some(start + Bit(header));
        }
      }
      r := Bump(payload, alignLog2, header);
      BumpedExactly(r, payload, alignLog2, header, old(used), used, reserve);
      if r.Some? {
        Aligned(r.value, alignLog2);
        HeldNew(old(live), r.value, size, header);
      }
    }

    method Alloc(size: nat, alignLog2: nat)
      returns (r: Maybe<nat>)
      requires Valid()
      modifies this`used, this`lists, this`live, heads, words, begins
      ensures Valid() && (old(HeadersExact()) ==> HeadersExact())
      ensures if Listed(old(heads[..]), Payload(size, false), alignLog2)
        then r == Some(old(heads[Bit(Payload(size, false) >= SLOT_BYTES)])) && used == old(used)
        else Bumped(r, Payload(size, false), alignLog2, false, old(used), used, reserve)
      ensures r.Some? ==> (
        && SLOT_BYTES * r.value % Unit(alignLog2) == 0
        && live == old(live) + [Block(r.value, SlotsOf(if size == 0 then 1 else size))])
      ensures r.Some? ==> Holds(live[|live| - 1], false, Request(SLOT_BYTES * r.value, if size == 0 then 1 else size))
      ensures r.None? ==> live == old(live)
    {
      hide FreeOk, Space, TypesOk, Owners, OwnersIn, Unit, RoundUp, Bumped;
      TypedBegin(words[..], begins[..], headers[..], types);
      r := AllocInternal(size, alignLog2, false);
    }

    /** An allocation with a header. `asserted` is false where the assertion of the source fails that
        the header bit is not set yet, which happens only if header bits are stale. */
    method AllocGlobalMember(size: nat, alignLog2: nat, typeId: nat)
      returns (r: Maybe<nat>, ghost asserted: bool)
      requires Valid()
      modifies this`used, this`lists, this`live, this`types, heads, words, begins, headers
      ensures r.Some? ==> 1 <= r.value <= reserve
      ensures asserted <==> r.None? || !old(headers[r.value - 1])
      ensures old(HeadersExact()) ==> asserted
      ensures if Listed(old(heads[..]), size + SLOT_BYTES, alignLog2)
        then r == Some(old(heads[1]) + 1) && used == old(used)
        else Bumped(r, size, alignLog2, true, old(used), used, reserve)
      ensures Valid() <==> r.None? || !HeaderInPadding(old(used), alignLog2, true)
      ensures old(HeadersExact()) ==> Shape() && HeadersExact()
      ensures r.Some? ==> (
        && SLOT_BYTES * r.value % Unit(alignLog2) == 0
        && live == old(live) + [Block(r.value - 1, 1 + SlotsOf(size))] && types == old(types)[r.value - 1 := typeId]
        && words[r.value - 1] == typeId && headers[..] == old(headers[..])[r.value - 1 := true])
      ensures r.Some? ==> Holds(live[|live| - 1], true, Request(SLOT_BYTES * r.value, size))
      ensures r.None? ==> live == old(live) && types == old(types)
    {
      hide FreeOk, Space, BeginsOk, TypesOk, Owners, OwnersIn, Unit, RoundUp, HeaderInPadding, Bumped;
      TypedBegin(words[..], begins[..], headers[..], types);
      r := AllocInternal(size, alignLog2, true);
      asserted := true;
      if r.Some? {
        asserted := !headers[r.value - 1];
        ghost var w: seq<nat>, h := words[..], headers[..];
        words[r.value - 1] := typeId;
        headers[r.value - 1] := true;
        TypeAdded(w, begins[..], h, types, r.value - 1, typeId);
        types := types[r.value - 1 := typeId];
        assert words[..] == w[r.value - 1 := typeId] && headers[..] == h[r.value - 1 := true];
        HeaderWritten(heads[..], w, begins[..], lists, live, used, r.value - 1, typeId);
      }
    }

    // ---------- Deallocation ----------

    /** Gives an allocation back. `ok` is false where an assertion of the source fails: on a stale
        header bit, and when the size is not a multiple of a slot and the allocation not the last. */
    method Dealloc(start: nat, size: nat, ghost k: nat)
      returns (ok: bool)
      requires Valid() && k < |live| && live[k] == Block(start, SlotsOf(Payload(size, false))) && start !in types
      modifies this`used, this`lists, this`live, heads, words, begins
      ensures start < reserve
      ensures ok <==>
        !headers[start]
        && (start + SlotsOf(Payload(size, false)) == old(used) || Payload(size, false) % SLOT_BYTES == 0)
      ensures Valid() && (old(HeadersExact()) ==> HeadersExact())
      ensures ok ==> live == Without(old(live), k)
      ensures ok && start + SlotsOf(Payload(size, false)) == old(used) ==> used == start && lists == old(lists)
      ensures ok && start + SlotsOf(Payload(size, false)) != old(used) ==> used == old(used) && forall t: nat ::
        Owners(lists, t) + OwnersIn(live, t) == Owners(old(lists), t) + OwnersIn(old(live), t)
      ensures !ok ==> live == old(live) && lists == old(lists) && used == old(used)
    {
      hide FreeOk, Space, BeginsOk, TypesOk, Owners, OwnersIn, Carve;
      LiveRange(lists, live, used, k);
      var bytes := Payload(size, false);
      var last := SLOT_BYTES * used - (SLOT_BYTES * start + bytes) < SLOT_BYTES;
      if headers[start] || (!last && bytes % SLOT_BYTES != 0) { return false; }
      ok := true;
      ghost var w: seq<nat>, b := words[..], begins[..];
      FreeCount(heads[..], words[..], lists);
      SpaceFreed(lists, live, used, k);
      BeginsRemove(b, lists, live, used, k);
      TypesEnd(w, b, headers[..], types, start);
      begins[start] := false;
      live := Without(live, k);
      assert begins[..] == b[start := false];
      if last {
        used := start;
      } else {
        AddToFreelist(start, bytes / SLOT_BYTES);
        TypesKept(w, words[..], begins[..], headers[..], types, live, start, start + bytes / SLOT_BYTES);
      }
    }

    // ---------- From an address to its header ----------

    /** The greatest start not above the slot, found 64 slots at a time; its header if it has one. */
    method FindHeader(slot: nat)
      returns (r: Maybe<nat>, ghost begin: nat)
      requires Shape() && slot < used && exists s | 0 <= s <= slot :: begins[s]
      ensures GreatestBegin(begins[..], slot, begin)
      ensures r == if headers[begin] then Some(begin) else None
    {
      var word: nat := slot / WORD_SLOTS;
      var curr := HighestSet(begins, WORD_SLOTS * word, slot + 1);
      while curr.None?
        invariant WORD_SLOTS * word <= slot
        invariant curr.None? ==> forall u | WORD_SLOTS * word <= u <= slot :: !begins[u]
        invariant curr.Some? ==> curr.value <= slot && GreatestBegin(begins[..], slot, curr.value)
        decreases word, curr.None?
      {
        // Some slot below has its bit set, so this is not the first word.
        word := word - 1;
        curr := HighestSet(begins, WORD_SLOTS * word, WORD_SLOTS * (word + 1));
      }
      begin := curr.value;
      r := if headers[curr.value] then Some(curr.value) else None;
    }

    /** For every address inside an allocation with a header: the type stored at allocation. */
    method GlobalMemberType(slot: nat, ghost k: nat)
      returns (typeId: nat)
      requires Valid() && k < |live| && live[k].start <= slot < live[k].start + live[k].size && live[k].start in types
      ensures typeId == types[live[k].start]
    {
      hide FreeOk, Space, Owners, OwnersIn;
      LiveRange(lists, live, used, k);
      assert begins[live[k].start];
      var header, begin := FindHeader(slot);
      InteriorStart(begins[..], lists, live, used, k, slot, begin);
      typeId := words[header.value];
    }

    /** An address inside an allocation without a header finds no header. */
    method FindNoHeader(slot: nat, ghost k: nat)
      returns (r: Maybe<nat>)
      requires Valid() && HeadersExact()
      requires k < |live| && live[k].start <= slot < live[k].start + live[k].size && live[k].start !in types
      ensures r == None
    {
      hide FreeOk, Space, Owners, OwnersIn, TypesOk;
      LiveRange(lists, live, used, k);
      assert begins[live[k].start];
      ghost var begin;
      r, begin := FindHeader(slot);
      InteriorStart(begins[..], lists, live, used, k, slot, begin);
    }

    // ---------- Collection ----------

    /** The sentinel behind the last slot is marked, and so is the reserved slot. The marks are
        right for nothing kept so far, if and only if no others are left from before. */
    method GcBegin()
      requires Valid()
      modifies this`lists, this`kept, heads, marks
      ensures Valid() && lists == NoBlocks() && kept == {}
      ensures marks[..] == old(marks[..])[used := true][0 := true]
      ensures MarksExact(marks[..], live, used, {}) <==> MarksClean(old(marks[..]), used)
    {
      hide FreeOk, Space, BeginsOk, TypesOk, Owners;
      ghost var w: seq<nat>, b, h, m := words[..], begins[..], headers[..], marks[..];
      forall i | 0 <= i < heads.Length {
        heads[i] := 0;
      }
      assert words[..] == w;
      NothingFree(heads[..], words[..], lists, live, used);
      lists := NoBlocks();
      kept := {};
      marks[used] := true;
      marks[0] := true;
      assert begins[..] == b && headers[..] == h && marks[..] == m[used := true][0 := true];
      FirstMarks(m, live, used);
    }

    /** Marks the allocation at an address. One case goes wrong: an empty member of a global,
        whose address is the slot behind its header, when that slot is marked, as the sentinel is,
        or begins another allocation. */
    method GcMark(address: nat, bytes: nat, ghost k: nat)
      returns (isNew: bool)
      requires Valid() && k < |live| && MarksExact(marks[..], live, used, kept)
      requires live[k].start + Bit(live[k].start in types) == address
      requires live[k].size == Bit(live[k].start in types) + SlotsOf(Payload(bytes, live[k].start in types))
      modifies this`kept, marks
      ensures address <= used && (address == used ==> old(marks[address]))
      ensures if live[k].start in types && bytes == 0 && (old(marks[address]) || begins[address])
        then kept == old(kept) && marks[..] == old(marks[..])[address := true]
        else kept == old(kept) + {live[k].start} && MarksExact(marks[..], live, used, kept)
      ensures isNew == !old(marks[address])
      ensures live[k].start !in types || bytes > 0 ==> isNew == (live[k].start !in old(kept))
    {
      hide FreeOk, Space, Owners, OwnersIn, Filter, MarksExact;
      LiveRange(lists, live, used, k);
      MarksSentinel(marks[..], live, used, kept);
      ghost var m := marks[..];
      ghost var empty := live[k].start in types && bytes == 0;
      if !empty { MarkedStart(m, lists, live, used, kept, k, address); }
      if live[k].start in types && bytes > 0 { InteriorUnset(begins[..], lists, live, used, k, address); }
      MarkBlock(m, lists, live, used, kept, k);
      if marks[address] {
        isNew := false;
        if !empty { kept := kept + {live[k].start}; MarkedAlready(m, lists, live, used, old(kept), k); }
        assert marks[..] == m[address := true];
      } else {
        isNew := true;
        var from, to := address, address + SlotsOf(bytes);
        if !begins[address] {
          assert begins[address - 1] && headers[address - 1];
          from := address - 1;
        } else if bytes == 0 {
          to := address + 1;
        }
        SetBits(marks, from, to);
        if !(empty && begins[address]) { kept := kept + {live[k].start}; }
      }
    }

    /** Sweeps: dead runs, maximal by construction, are cut into free blocks, and the sentinel's
        slot is lost. The begin bits that survive are those of the allocations kept, if and only if
        no dead allocation starts behind the slots the bitmap loop covers; the marks are all
        cleared if and only if the sentinel is covered. Header bits are left alone, so they stay
        exact only if every typed allocation was marked. The sentinel's slot counts as used from
        then on, so a heap that was used completely is used beyond its end. */
    method GcEnd()
      returns (ghost runs: seq<Block>)
      requires Valid() && lists == NoBlocks() && MarksExact(marks[..], live, used, kept)
      modifies this`used, this`lists, this`live, this`types, heads, words, begins, marks
      ensures Arrays() && FreeOk(heads[..], words[..], lists) && Space(lists, live, used)
      ensures TypesOk(words[..], begins[..], headers[..], types)
      ensures Shape() <==> old(used) < reserve
      ensures Valid() <==>
        old(used) < reserve && forall s | Covered(old(used), page) <= s < reserve && old(begins[s]) :: s in kept
      ensures Unmarked() <==> old(used) / 8 % page != 0
      ensures used == old(used) + 1 && live == Filter(old(live), kept) && types == Restrict(old(types), kept)
      ensures RunsBelow(old(marks[..]), runs, old(used) + 1) && lists == CarveAll(NoBlocks(), runs)
      ensures Swept(old(marks[..]), lists, old(used))
      ensures BeginsCleared(old(begins[..]), begins[..], old(marks[..]), Covered(old(used), page))
      ensures forall t | 0 <= t < marks.Length :: marks[t] == (old(marks[t]) && t >= Covered(old(used), page))
      ensures forall s | 0 <= s < old(used) && old(marks[s]) :: words[s] == old(words[s])
      ensures old(HeadersExact()) ==> (HeadersExact() <==> old(types).Keys <= kept)
    {
      hide FreeOk, Space, BeginsOk, TypesOk, Owners, OwnersIn, Filter, MarksExact, RunsBelow, Swept, CarveAll, IsRun;
      hide Covered, BeginsCleared, SizesOk, Chains, Restrict, MarksClean;
      ghost var m, b, w: seq<nat>, t := marks[..], begins[..], words[..], types;
      ghost var covered := Covered(used, page);
      MarksSentinel(m, live, used, kept);
      ClearBegins();
      var last;
      last, runs := Sweep();
      SweptAll(m, runs, used);
      SpaceSwept(m, NoBlocks(), live, used, kept, lists);
      BeginsSwept(b, begins[..], m, NoBlocks(), live, used, kept, covered);
      TypesSwept(w, words[..], b, begins[..], headers[..], types, m, live, used, kept, covered);
      if old(HeadersExact()) { HeadersSwept(w, b, begins[..], headers[..], types, m, live, used, kept, covered); }
      ClearMarks();
      MarksLeft(m, marks[..], live, used, kept, page);
      live := Filter(live, kept);
      types := Restrict(types, kept);
      used := last;
    }

    // Clears the begin bits of what is collected, as far as the loop goes.
    method ClearBegins()
      requires Shape()
      modifies begins
      ensures BeginsCleared(old(begins[..]), begins[..], marks[..], Covered(used, page))
    {
      hide Covered;
      var covered := Covered(used, page);
      var i := 0;
      while i < covered && i < reserve
        invariant i <= reserve
        invariant forall s | 0 <= s < reserve :: begins[s] == (old(begins[s]) && (s >= i || s >= covered || marks[s]))
      {
        begins[i] := begins[i] && marks[i];
        i := i + 1;
      }
    }

    // Decommitting pages of the mark bitmap clears them.
    method ClearMarks()
      requires page > 0
      modifies marks
      ensures forall t | 0 <= t < marks.Length :: marks[t] == (old(marks[t]) && t >= Covered(used, page))
    {
      hide Covered;
      var covered := Covered(used, page);
      forall t | 0 <= t < marks.Length && t < covered {
        marks[t] := false;
      }
    }

    method Sweep()
      returns (last: nat, ghost runs: seq<Block>)
      requires Shape() && FreeOk(heads[..], words[..], lists) && lists == NoBlocks()
      requires marks[0] && marks[used] && !marks[used + 1]
      modifies this`lists, heads, words
      ensures Shape() && FreeOk(heads[..], words[..], lists) && last == used + 1
      ensures RunsBelow(marks[..], runs, used + 1) && lists == CarveAll(NoBlocks(), runs)
      ensures forall s | 0 <= s < used && marks[s] :: words[s] == old(words[s])
    {
      hide FreeOk, Owners, OwnersIn, RunsBelow, CarveAll, Carve, IsRun, Unowned;
      var i := 0;
      runs := [];
      NoRuns(marks[..]);
      while true
        invariant Shape() && FreeOk(heads[..], words[..], lists) && i <= used && marks[i]
        invariant RunsBelow(marks[..], runs, i) && lists == CarveAll(NoBlocks(), runs)
        invariant forall s | 0 <= s < used && marks[s] :: words[s] == old(words[s])
        decreases used - i
      {
        var dead := Skip(marks, i, true, used + 1);
        SkipMarked(marks[..], runs, i, dead);
        i := dead;
        if i >= used { break; }
        var from := i;
        i := Skip(marks, from, false, used);
        RunUnowned(marks[..], runs, from, i);
        NextRun(marks[..], runs, from, i);
        CarveNext(NoBlocks(), runs, Block(from, i - from));
        AddToFreelist(from, i - from);
        runs := runs + [Block(from, i - from)];
      }
      last := i;
    }
  }

  // The first bit from `from` on that differs from `bit`; the sentinel ends the search.
  method Skip(bits: array<bool>, from: nat, bit: bool, ghost sentinel: nat)
    returns (i: nat)
    requires from <= sentinel < bits.Length && bits[sentinel] != bit
    ensures from <= i <= sentinel && bits[i] != bit && forall t | from <= t < i :: bits[t] == bit
  {
    i := from;
    while bits[i] == bit
      invariant from <= i <= sentinel && forall t | from <= t < i :: bits[t] == bit
      decreases sentinel - i
    {
      i := i + 1;
    }
  }

  // Sets a range of bits.
  method SetBits(bits: array<bool>, from: nat, to: nat)
    requires from <= to <= bits.Length
    modifies bits
    ensures bits[..] == Marked(old(bits[..]), from, to)
  {
    var i := from;
    while i != to
      invariant from <= i <= to
      invariant forall t | 0 <= t < bits.Length :: bits[t] == (old(bits[t]) || from <= t < i)
    {
      bits[i] := true;
      i := i + 1;
    }
  }

  const WORD_SLOTS: nat := 64

  // The highest bit set in a range, as a leading-zero count finds it.
  method HighestSet(bits: array<bool>, from: nat, to: nat)
    returns (r: Maybe<nat>)
    requires from <= to <= bits.Length
    ensures r.None? ==> forall u | from <= u < to :: !bits[u]
    ensures r.Some? ==> from <= r.value < to && bits[r.value] && forall u | r.value < u < to :: !bits[u]
  {
    var i := to;
    while i > from
      invariant from <= i <= to
      invariant forall u | i <= u < to :: !bits[u]
    {
      i := i - 1;
      if bits[i] { return Some(i); }
    }
    r := None;
  }

  // ---------- Two heaps on which the source goes wrong ----------

  lemma FirstBump(r: Maybe<nat>, used: nat)
    requires Bumped(r, 16, 0, false, 1, used, 8)
    ensures r == Some(1) && used == 2
  {
    assert RoundUp(1, 1) == 1;
  }

  lemma SecondBump(r: Maybe<nat>, used: nat)
    requires Bumped(r, 1, 5, true, 2, used, 8)
    ensures r == Some(4) && used == 5
  {
    PaddedHeader();
  }

  // A fresh heap with one allocation of a slot.
  method OneSlot(page: nat)
    returns (heap: CompHeap)
    requires page >= 1
    ensures fresh(heap) && fresh(heap.heads) && fresh(heap.words) && fresh(heap.begins)
    ensures fresh(heap.headers) && fresh(heap.marks)
    ensures heap.Valid() && heap.Unmarked() && heap.reserve == 8 && heap.page == page
    ensures heap.used == 2 && heap.live == [Block(1, 1)] && heap.types == map[]
  {
    hide FreeOk, Space, TypesOk, BeginsOk, Owners, OwnersIn, Bumped;
    heap := new CompHeap(8, page);
    var start := heap.Alloc(16, 0);
    FirstBump(start, heap.used);
  }

  /** A start that outlives its allocation: in a fresh heap, one allocation of a slot that is not
      marked leaves its begin bit behind while its slot goes to a free list, so that serving the
      next small allocation from it finds the bit set. */
  method StaleBegin(page: nat)
    returns (heap: CompHeap)
    requires page >= 1
    ensures heap.begins.Length > 1 && heap.begins[1] && Owners(heap.lists, 1) == 1 && heap.live == []
    ensures heap.Shape() && !heap.Valid() && !heap.Unmarked()
  {
    hide FreeOk, Space, TypesOk, BeginsOk, Owners, OwnersIn, MarksExact, MarksClean, Filter, Restrict;
    hide RunsBelow, CarveAll, Swept, BeginsCleared, Covered, RoundUp;
    heap := OneSlot(page);
    FirstBegins(heap.begins[..]);
    ghost var begins, marks := heap.begins[..], heap.marks[..];
    UnmarkedClean(marks, heap.used);
    heap.GcBegin();
    ghost var runs := heap.GcEnd();
    FirstStays(begins, heap.begins[..], marks[2 := true][0 := true], heap.lists, page);
    FilterNone([Block(1, 1)]);
  }

  lemma FirstBegins(begins: seq<bool>)
    requires |begins| == 8 && BeginsOk(begins, [Block(1, 1)])
    ensures begins[1]
  {
    assert [Block(1, 1)][0].start == 1;
  }

  lemma UnmarkedClean(marks: seq<bool>, used: nat)
    requires forall s | 0 <= s < |marks| :: !marks[s]
    ensures MarksClean(marks, used)
  {
  }

  // What sweeping the two slots leaves, as no byte of the bitmaps is covered.
  lemma FirstStays(begins: seq<bool>, begins': seq<bool>, marks: seq<bool>, lists: seq<seq<Block>>, page: nat)
    requires page >= 1 && |begins| == 8 && begins[1] && |marks| == 10 && !marks[1]
    requires BeginsCleared(begins, begins', marks, Covered(2, page)) && Swept(marks, lists, 2)
    ensures Covered(2, page) == 0 && 2 / 8 % page == 0 && |begins'| == 8 && begins'[1] && Owners(lists, 1) == 1
  {
    hide Owners, RoundUp;
    assert RoundUp(0, page) == 0;
  }

  /** Overlapping memory: after one slot, a member with 32-byte alignment is allocated with its
      header inside the padding, which is on a free list as well. */
  method PaddedMember(page: nat)
    returns (heap: CompHeap)
    requires page >= 1
    ensures heap.Shape() && !heap.Valid() && heap.live == [Block(1, 1), Block(3, 2)] && heap.types == map[3 := 0]
  {
    hide FreeOk, Space, TypesOk, BeginsOk, Owners, OwnersIn, Bumped, HeaderInPadding;
    heap := OneSlot(page);
    PaddedHeader();
    var member;
    ghost var asserted;
    member, asserted := heap.AllocGlobalMember(1, 5, 0);
    SecondBump(member, heap.used);
  }
}
