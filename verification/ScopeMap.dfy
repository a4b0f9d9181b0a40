/** The hash table behind a scope: open addressing with linear probing that wraps around, a
    table that doubles when it is more than two thirds full, and ranks in order of insertion.
    The hash is arbitrary. */
module ScopeMaps {

  type Name = nat

  const INITIAL_CAPACITY: nat := 8
  const MAX_SCOPE_ENTRY_COUNT: nat := 32768

  datatype Slot<V> = Free | Taken(name: Name, entry: V)
  datatype Lookup<V> = Absent | Present(entry: V)
  datatype Added = Ok | DuplicateName | TooManyDefinitions

  // The slot `d` probes after `home`.
  function Probe(home: nat, d: nat, capacity: nat): (i: nat)
    requires home < capacity && d < capacity
    ensures i < capacity
  {
    if home + d < capacity then home + d else home + d - capacity
  }

  // The number of probes from `home` to slot `i`.
  function Distance(home: nat, i: nat, capacity: nat): (d: nat)
    requires home < capacity && i < capacity
    ensures d < capacity && Probe(home, d, capacity) == i
    ensures forall e: nat | e < capacity && Probe(home, e, capacity) == i :: e == d
  {
    if i >= home then i - home else i + capacity - home
  }

  function Home(hash: Name -> nat, name: Name, capacity: nat): (i: nat)
    requires capacity > 0
    ensures i < capacity
  {
    hash(name) % capacity
  }

  function Count<V>(s: seq<Slot<V>>): (n: nat)
    ensures n <= |s|
    ensures n < |s| ==> exists i | 0 <= i < |s| :: s[i].Free?
  {
    if s == [] then 0
    else
      var k := |s| - 1;
      var n := Count(s[..k]);
      assert forall i | 0 <= i < k :: s[..k][i] == s[i];
      if s[k].Taken? then n + 1 else n
  }

  lemma {:induction false} CountUpdate<V>(s: seq<Slot<V>>, i: nat, slot: Slot<V>)
    requires i < |s| && s[i].Free? && slot.Taken?
    ensures Count(s[i := slot]) == Count(s) + 1
    decreases |s|
  {
    var k := |s| - 1;
    if i < k {
      assert s[i := slot][..k] == s[..k][i := slot];
      CountUpdate(s[..k], i, slot);
    } else {
      assert s[i := slot][..k] == s[..k];
    }
  }

  lemma {:induction false} CountNone<V>(s: seq<Slot<V>>)
    requires forall i | 0 <= i < |s| :: s[i].Free?
    ensures Count(s) == 0
  {
    if s != [] { CountNone(s[..|s| - 1]); }
  }

  // Every entry can be reached from its home without crossing a free slot.
  ghost predicate NoGaps<V>(hash: Name -> nat, s: seq<Slot<V>>) {
    forall i, d: nat | 0 <= i < |s| && s[i].Taken? && d < Distance(Home(hash, s[i].name, |s|), i, |s|) ::
      s[Probe(Home(hash, s[i].name, |s|), d, |s|)].Taken?
  }

  ghost predicate DistinctNames<V>(s: seq<Slot<V>>) {
    forall i, j | 0 <= i < j < |s| && s[i].Taken? && s[j].Taken? :: s[i].name != s[j].name
  }

  /** The table stands for the map `m`. */
  ghost predicate Represents<V>(s: seq<Slot<V>>, m: map<Name, V>) {
    && (forall i | 0 <= i < |s| && s[i].Taken? :: s[i].name in m && m[s[i].name] == s[i].entry)
    && (forall name | name in m :: exists i | 0 <= i < |s| :: s[i].Taken? && s[i].name == name)
  }

  ghost predicate Table<V>(hash: Name -> nat, s: seq<Slot<V>>, m: map<Name, V>) {
    |s| > 0 && NoGaps(hash, s) && DistinctNames(s) && Represents(s, m)
  }

  // The first `d` slots from the home of `name` are taken by other names.
  ghost predicate Passed<V>(hash: Name -> nat, s: seq<Slot<V>>, name: Name, d: nat)
    requires 0 < |s| && d <= |s|
  {
    forall e: nat | e < d ::
      var slot := s[Probe(Home(hash, name, |s|), e, |s|)]; slot.Taken? && slot.name != name
  }

  // A name is not behind the first free slot.
  lemma NotFurther<V>(hash: Name -> nat, s: seq<Slot<V>>, m: map<Name, V>, name: Name, d: nat)
    requires Table(hash, s, m) && d < |s| && Passed(hash, s, name, d)
    requires s[Probe(Home(hash, name, |s|), d, |s|)].Free?
    ensures name !in m
  {
    forall i | 0 <= i < |s| && s[i].Taken?
      ensures s[i].name != name
    {
      NotThere(hash, s, name, d, i);
    }
  }

  lemma NotThere<V>(hash: Name -> nat, s: seq<Slot<V>>, name: Name, d: nat, i: nat)
    requires 0 < |s| && NoGaps(hash, s) && d <= |s| && Passed(hash, s, name, d)
    requires d < |s| ==> s[Probe(Home(hash, name, |s|), d, |s|)].Free?
    requires i < |s| && s[i].Taken?
    ensures s[i].name != name
  {
    var D := Distance(Home(hash, name, |s|), i, |s|);
    assert d < D ==> d < |s|;
  }

  lemma NotAnywhere<V>(hash: Name -> nat, s: seq<Slot<V>>, m: map<Name, V>, name: Name)
    requires Table(hash, s, m) && Passed(hash, s, name, |s|)
    ensures name !in m
  {
    forall i | 0 <= i < |s| && s[i].Taken?
      ensures s[i].name != name
    {
      NotThere(hash, s, name, |s|, i);
    }
  }

  /** Taking the first free slot keeps the table in order. */
  lemma Insert<V>(hash: Name -> nat, s: seq<Slot<V>>, m: map<Name, V>, name: Name, entry: V, d: nat)
    requires Table(hash, s, m) && d < |s| && Passed(hash, s, name, d)
    requires s[Probe(Home(hash, name, |s|), d, |s|)].Free?
    ensures var i := Probe(Home(hash, name, |s|), d, |s|);
      Table(hash, s[i := Taken(name, entry)], m[name := entry]) && Count(s[i := Taken(name, entry)]) == Count(s) + 1
    ensures name !in m
  {
    NotFurther(hash, s, m, name, d);
    var home := Home(hash, name, |s|);
    var i := Probe(home, d, |s|);
    var s' := s[i := Taken(name, entry)];
    CountUpdate(s, i, Taken(name, entry));
    InsertNoGaps(hash, s, name, entry, d);
    InsertRepresents(s, m, name, entry, i);
  }

  lemma InsertNoGaps<V>(hash: Name -> nat, s: seq<Slot<V>>, name: Name, entry: V, d: nat)
    requires |s| > 0 && NoGaps(hash, s) && d < |s|
    requires forall e: nat | e < d :: s[Probe(Home(hash, name, |s|), e, |s|)].Taken?
    ensures NoGaps(hash, s[Probe(Home(hash, name, |s|), d, |s|) := Taken(name, entry)])
  {
    var home := Home(hash, name, |s|);
    var i := Probe(home, d, |s|);
    var s' := s[i := Taken(name, entry)];
    forall j, e: nat | 0 <= j < |s'| && s'[j].Taken? && e < Distance(Home(hash, s'[j].name, |s'|), j, |s'|)
      ensures s'[Probe(Home(hash, s'[j].name, |s'|), e, |s'|)].Taken?
    {
      if j == i {
        assert Distance(home, i, |s|) == d;
      }
    }
  }

  lemma InsertRepresents<V>(s: seq<Slot<V>>, m: map<Name, V>, name: Name, entry: V, i: nat)
    requires i < |s| && s[i].Free? && DistinctNames(s) && Represents(s, m) && name !in m
    ensures var s' := s[i := Taken(name, entry)];
      DistinctNames(s') && Represents(s', m[name := entry])
  {
    var s', m' := s[i := Taken(name, entry)], m[name := entry];
    forall n | n in m'
      ensures exists j | 0 <= j < |s'| :: s'[j].Taken? && s'[j].name == n
    {
      if n == name {
        assert s'[i].Taken?;
      } else {
        var j :| 0 <= j < |s| && s[j].Taken? && s[j].name == n;
        assert s'[j] == s[j];
      }
    }
  }

  lemma EmptyTable<V>(hash: Name -> nat, s: seq<Slot<V>>)
    requires |s| > 0 && forall i | 0 <= i < |s| :: s[i].Free?
    ensures Table(hash, s, map[]) && Count(s) == 0
  {
    CountNone(s);
  }

  // ---------- The table ----------

  class ScopeMap<V(0)> {
    const hash: Name -> nat
    var slots: array<Slot<V>>
    var used: nat
    ghost var contents: map<Name, V>

    /** The number of entries is tracked exactly, and a free slot always remains. */
    ghost predicate Valid()
      reads this, slots
    {
      && slots.Length >= INITIAL_CAPACITY
      && Table(hash, slots[..], contents) && used == Count(slots[..])
      && used * 3 <= slots.Length * 2 + 3
    }

    constructor (hash: Name -> nat)
      ensures Valid() && fresh(slots) && contents == map[] && used == 0 && this.hash == hash
    {
      this.hash := hash;
      slots := new Slot<V>[INITIAL_CAPACITY](_ => Free);
      used := 0;
      contents := map[];
      new;
      EmptyTable(hash, slots[..]);
    }

    method Get(name: Name) returns (r: Lookup<V>)
      requires Valid()
      ensures r.Present? <==> name in contents
      ensures r.Present? ==> r.entry == contents[name]
    {
      hide NoGaps, DistinctNames;
      var capacity := slots.Length;
      var home := Home(hash, name, capacity);
      var index: nat, d: nat := home, 0;
      while true
        invariant d < capacity && index == Probe(home, d, capacity) && Passed(hash, slots[..], name, d)
        decreases capacity - d
      {
        if slots[index].Free? {
          NotFurther(hash, slots[..], contents, name, d);
          return Absent;
        }
        if slots[index].name == name {
          assert slots[..][index] == slots[index];
          return Present(slots[index].entry);
        }
        index := index + 1;
        if index == capacity { index := 0; }
        d := d + 1;
        if index == home {
          NotAnywhere(hash, slots[..], contents, name);
          return Absent;
        }
      }
    }

    // The slot of a name, or the first free one, which the search reaches because there is one.
    method FindSlot(name: Name) returns (index: nat, duplicate: bool, ghost d: nat)
      requires 0 < slots.Length && Count(slots[..]) < slots.Length
      ensures d < slots.Length && index == Probe(Home(hash, name, slots.Length), d, slots.Length)
      ensures Passed(hash, slots[..], name, d)
      ensures if duplicate then slots[index].Taken? && slots[index].name == name else slots[index].Free?
    {
      var capacity := slots.Length;
      var home := Home(hash, name, capacity);
      index, duplicate, d := home, false, 0;
      while slots[index].Taken?
        invariant d < capacity && index == Probe(home, d, capacity) && Passed(hash, slots[..], name, d)
        decreases capacity - d
      {
        if slots[index].name == name { return index, true, d; }
        MoreProbes(hash, slots[..], name, d);
        index := index + 1;
        if index == capacity { index := 0; }
        d := d + 1;
      }
    }

    method AddNoGrow(name: Name, entry: V) returns (r: Added)
      requires Table(hash, slots[..], contents) && used == Count(slots[..]) < slots.Length
      modifies this`used, this`contents, slots
      ensures Table(hash, slots[..], contents) && used == Count(slots[..])
      ensures r == if name in old(contents) then DuplicateName else Ok
      ensures name in old(contents) ==> contents == old(contents) && used == old(used)
      ensures name !in old(contents) ==> contents == old(contents)[name := entry] && used == old(used) + 1
    {
      hide NoGaps, DistinctNames, Passed;
      ghost var s := slots[..];
      var index, duplicate, d := FindSlot(name);
      if duplicate {
        assert s[index] == slots[index];
        return DuplicateName;
      }
      Insert(hash, s, contents, name, entry, d);
      slots[index] := Taken(name, entry);
      assert slots[..] == s[index := Taken(name, entry)];
      used := used + 1;
      contents := contents[name := entry];
      r := Ok;
    }

    // One slot of the old table `s`.
    method MoveSlot(slot: Slot<V>, ghost s: seq<Slot<V>>, ghost all: map<Name, V>, ghost i: nat)
      requires i < |s| < slots.Length && s[i] == slot && DistinctNames(s) && Represents(s, all)
      requires Table(hash, slots[..], contents) && used == Count(slots[..]) == Count(s[..i])
      requires Moved(s, all, contents, i)
      modifies this`used, this`contents, slots
      ensures Table(hash, slots[..], contents) && used == Count(slots[..]) == Count(s[..i + 1])
      ensures Moved(s, all, contents, i + 1)
    {
      hide NoGaps, DistinctNames, Represents, Table;
      CountStep(s, i);
      if slot.Taken? {
        NotMovedYet(s, all, contents, i);
        var r := AddNoGrow(slot.name, slot.entry);
      }
    }

    /** A table of twice the size with the same entries. */
    method Grow()
      requires Valid()
      modifies this
      ensures Valid() && fresh(slots) && slots.Length == 2 * old(slots.Length)
      ensures contents == old(contents) && used == old(used)
    {
      hide NoGaps, DistinctNames, Represents, Moved, Table, Count;
      TableParts(hash, slots[..], contents);
      var before := slots;
      ghost var all, s := contents, slots[..];
      CountNone(s[..0]);
      slots := new Slot<V>[2 * before.Length](_ => Free);
      used, contents := 0, map[];
      EmptyTable(hash, slots[..]);
      NothingMoved(s, all);
      var i := 0;
      while i < before.Length
        invariant 0 <= i <= before.Length && before[..] == s && before != slots && fresh(slots)
        invariant slots.Length == 2 * before.Length
        invariant Table(hash, slots[..], contents) && used == Count(slots[..]) == Count(s[..i])
        invariant Moved(s, all, contents, i)
      {
        MoveSlot(before[i], s, all, i);
        i := i + 1;
      }
      assert s[..i] == s;
      AllMoved(s, all, contents);
    }

    /** Adds a definition under the next rank; at most 2^15, and no name twice. */
    method Add(name: Name, entry: V) returns (r: Added)
      requires Valid()
      modifies this, slots
      ensures Valid() && (slots == old(slots) || fresh(slots))
      ensures r == if old(used) == MAX_SCOPE_ENTRY_COUNT then TooManyDefinitions
                   else if name in old(contents) then DuplicateName else Ok
      ensures r == Ok ==> contents == old(contents)[name := entry] && used == old(used) + 1
      ensures r != Ok ==> contents == old(contents) && used == old(used)
    {
      hide NoGaps, DistinctNames, Represents;
      if used == MAX_SCOPE_ENTRY_COUNT { return TooManyDefinitions; }
      if used * 3 > slots.Length * 2 { Grow(); }
      r := AddNoGrow(name, entry);
    }
  }

  // The entries of the first `i` slots.
  ghost predicate Moved<V>(s: seq<Slot<V>>, all: map<Name, V>, m: map<Name, V>, i: nat)
    requires i <= |s|
  {
    && (forall j | 0 <= j < i && s[j].Taken? :: s[j].name in m)
    && (forall name | name in m ::
          name in all && m[name] == all[name] && exists j | 0 <= j < i :: s[j].Taken? && s[j].name == name)
  }

  lemma TableParts<V>(hash: Name -> nat, s: seq<Slot<V>>, m: map<Name, V>)
    requires Table(hash, s, m)
    ensures |s| > 0 && DistinctNames(s) && Represents(s, m)
  {
  }

  lemma NothingMoved<V>(s: seq<Slot<V>>, all: map<Name, V>)
    ensures Moved(s, all, map[], 0)
  {
  }

  lemma NotMovedYet<V>(s: seq<Slot<V>>, all: map<Name, V>, m: map<Name, V>, i: nat)
    requires i < |s| && s[i].Taken? && DistinctNames(s) && Represents(s, all) && Moved(s, all, m, i)
    ensures s[i].name !in m && Moved(s, all, m[s[i].name := s[i].entry], i + 1)
  {
    var m' := m[s[i].name := s[i].entry];
    forall name | name in m'
      ensures exists j | 0 <= j < i + 1 :: s[j].Taken? && s[j].name == name
    {
      if name in m {
        var j :| 0 <= j < i && s[j].Taken? && s[j].name == name;
        assert s[j].name == name;
      } else {
        assert s[i].name == name;
      }
    }
  }

  lemma AllMoved<V>(s: seq<Slot<V>>, all: map<Name, V>, m: map<Name, V>)
    requires Represents(s, all) && Moved(s, all, m, |s|)
    ensures m == all
  {
    forall name | name in all
      ensures name in m
    {
      var j :| 0 <= j < |s| && s[j].Taken? && s[j].name == name;
    }
  }

  lemma CountStep<V>(s: seq<Slot<V>>, i: nat)
    requires i < |s|
    ensures Count(s[..i + 1]) == Count(s[..i]) + if s[i].Taken? then 1 else 0
    ensures Count(s[..i]) <= i
  {
    assert s[..i + 1][..i] == s[..i];
  }

  lemma FreeSlot<V>(s: seq<Slot<V>>, home: nat)
    requires home < |s| && Count(s) < |s|
    ensures exists d: nat | d < |s| :: s[Probe(home, d, |s|)].Free?
  {
    var i :| 0 <= i < |s| && s[i].Free?;
    assert s[Probe(home, Distance(home, i, |s|), |s|)].Free?;
  }

  // Not all slots up to the last one can be taken.
  lemma MoreProbes<V>(hash: Name -> nat, s: seq<Slot<V>>, name: Name, d: nat)
    requires d < |s| && Count(s) < |s| && Passed(hash, s, name, d)
    requires s[Probe(Home(hash, name, |s|), d, |s|)].Taken?
    ensures d + 1 < |s|
  {
    FreeSlot(s, Home(hash, name, |s|));
  }
}
