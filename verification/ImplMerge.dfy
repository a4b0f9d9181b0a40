/** Completing an impl: a merge join of the trait's members with the impl's, both ordered by name. */
module ImplMerge {
  import opened Basics

  datatype TraitMember = TraitMember(name: nat, isMut: bool, typeInit: nat, defaultInit: Maybe<nat>)
  datatype ImplMember = ImplMember(name: nat, isMut: bool, valueInit: nat)
  datatype BodyMember = BodyMember(name: nat, isMut: bool, typeCompletion: nat, valueCompletion: nat, fromDefault: bool)

  datatype MergeError = MemberUnexpected | MemberMissing | MutabilityMismatch
  datatype Merged = Ok(body: seq<BodyMember>) | Err(error: MergeError)

  predicate TraitSorted(ts: seq<TraitMember>) {
    forall i, j | 0 <= i < j < |ts| :: ts[i].name < ts[j].name
  }

  predicate ImplSorted(ms: seq<ImplMember>) {
    forall i, j | 0 <= i < j < |ms| :: ms[i].name < ms[j].name
  }

  // ---------- What an impl has to provide, stated without any order ----------

  predicate Provides(ms: seq<ImplMember>, name: nat) {
    exists i | 0 <= i < |ms| :: ms[i].name == name
  }

  predicate Declares(ts: seq<TraitMember>, name: nat) {
    exists t | 0 <= t < |ts| :: ts[t].name == name
  }

  // An impl member the trait does not have.
  predicate HasUnexpected(ts: seq<TraitMember>, ms: seq<ImplMember>) {
    exists i | 0 <= i < |ms| :: !Declares(ts, ms[i].name)
  }

  // A trait member without a default that the impl leaves out.
  predicate HasMissing(ts: seq<TraitMember>, ms: seq<ImplMember>) {
    exists t | 0 <= t < |ts| :: ts[t].defaultInit.None? && !Provides(ms, ts[t].name)
  }

  predicate HasMismatch(ts: seq<TraitMember>, ms: seq<ImplMember>) {
    exists t, i | 0 <= t < |ts| && 0 <= i < |ms| :: ts[t].name == ms[i].name && ts[t].isMut != ms[i].isMut
  }

  /** The body has every trait member, in the trait's order, with the impl's value or the default. */
  predicate IsBody(ts: seq<TraitMember>, ms: seq<ImplMember>, body: seq<BodyMember>) {
    |body| == |ts| && forall t | 0 <= t < |ts| :: IsMember(ts[t], ms, body[t])
  }

  predicate IsMember(t: TraitMember, ms: seq<ImplMember>, m: BodyMember) {
    && m.name == t.name && m.typeCompletion == t.typeInit && m.isMut == t.isMut
    && (m.fromDefault <==> !Provides(ms, t.name))
    && (m.fromDefault ==> t.defaultInit == Some(m.valueCompletion))
    && (!m.fromDefault ==> exists i | 0 <= i < |ms| :: ms[i].name == t.name && ms[i].valueInit == m.valueCompletion)
  }

  // ---------- The merge ----------

  function FromDefault(t: TraitMember): BodyMember
    requires t.defaultInit.Some?
  {
    BodyMember(t.name, t.isMut, t.typeInit, t.defaultInit.value, true)
  }

  function FromImpl(t: TraitMember, i: ImplMember): BodyMember {
    BodyMember(t.name, i.isMut, t.typeInit, i.valueInit, false)
  }

  // Behind `t` trait and `i` impl members: the body so far is right, the impl members so far have
  // found their trait members, and all further impl members come later in the order.
  ghost predicate Joined(ts: seq<TraitMember>, ms: seq<ImplMember>, t: nat, i: nat, body: seq<BodyMember>) {
    && t <= |ts| && i <= |ms| && |body| == t
    && (forall k | 0 <= k < t :: IsMember(ts[k], ms, body[k]))
    && (forall j | 0 <= j < i :: Matched(ts, t, ms[j]))
    && (forall k, j | 0 <= k < t && i <= j < |ms| :: ts[k].name < ms[j].name)
  }

  predicate Matched(ts: seq<TraitMember>, t: nat, m: ImplMember)
    requires t <= |ts|
  {
    exists k | 0 <= k < t :: ts[k].name == m.name && ts[k].isMut == m.isMut
  }

  // While looking for an impl member's name: this holds unless the trait does not have it.
  ghost predicate Skipped(ts: seq<TraitMember>, ms: seq<ImplMember>, t: nat, i: nat, body: seq<BodyMember>) {
    t <= |ts| && i < |ms| && |body| == t && (Declares(ts, ms[i].name) ==> Joined(ts, ms, t, i, body))
  }

  // A trait member in front of the next impl member's name is not provided.
  lemma NotProvided(ts: seq<TraitMember>, ms: seq<ImplMember>, t: nat, i: nat, body: seq<BodyMember>)
    requires TraitSorted(ts) && ImplSorted(ms) && Joined(ts, ms, t, i, body) && t < |ts|
    requires i < |ms| ==> ts[t].name < ms[i].name
    ensures !Provides(ms, ts[t].name)
  {
    forall j | 0 <= j < |ms|
      ensures ms[j].name != ts[t].name
    {
      if j < i { assert Matched(ts, t, ms[j]); }
    }
  }

  lemma DefaultOne(ts: seq<TraitMember>, ms: seq<ImplMember>, t: nat, i: nat, body: seq<BodyMember>)
    requires TraitSorted(ts) && ImplSorted(ms) && Joined(ts, ms, t, i, body) && t < |ts| && ts[t].defaultInit.Some?
    requires i < |ms| ==> ts[t].name < ms[i].name
    ensures Joined(ts, ms, t + 1, i, body + [FromDefault(ts[t])])
  {
    hide IsMember;
    NotProvided(ts, ms, t, i, body);
    DefaultMember(ts[t], ms);
    var body' := body + [FromDefault(ts[t])];
    forall j | 0 <= j < i
      ensures Matched(ts, t + 1, ms[j])
    {
      assert Matched(ts, t, ms[j]);
    }
    forall k | 0 <= k < t + 1
      ensures IsMember(ts[k], ms, body'[k])
    {
      if k < t { assert body'[k] == body[k]; }
    }
  }

  lemma DefaultMember(t: TraitMember, ms: seq<ImplMember>)
    requires t.defaultInit.Some? && !Provides(ms, t.name)
    ensures IsMember(t, ms, FromDefault(t))
  {
  }

  // If the trait has the name, it stands at `t` or later.
  lemma NameAhead(ts: seq<TraitMember>, ms: seq<ImplMember>, t: nat, i: nat, body: seq<BodyMember>)
    requires TraitSorted(ts) && Joined(ts, ms, t, i, body) && i < |ms| && Declares(ts, ms[i].name)
    ensures t < |ts| && ts[t].name <= ms[i].name
  {
    var p :| 0 <= p < |ts| && ts[p].name == ms[i].name;
    assert p >= t;
    if p > t { assert ts[t].name < ts[p].name; }
  }

  lemma SkipOne(ts: seq<TraitMember>, ms: seq<ImplMember>, t: nat, i: nat, body: seq<BodyMember>)
    requires TraitSorted(ts) && ImplSorted(ms) && Skipped(ts, ms, t, i, body)
    requires t < |ts| && ts[t].name != ms[i].name && ts[t].defaultInit.Some?
    ensures Skipped(ts, ms, t + 1, i, body + [FromDefault(ts[t])])
  {
    if Declares(ts, ms[i].name) {
      NameAhead(ts, ms, t, i, body);
      DefaultOne(ts, ms, t, i, body);
    }
  }

  lemma MissingHere(ts: seq<TraitMember>, ms: seq<ImplMember>, t: nat, i: nat, body: seq<BodyMember>)
    requires TraitSorted(ts) && ImplSorted(ms) && Skipped(ts, ms, t, i, body)
    requires t < |ts| && ts[t].name != ms[i].name && ts[t].defaultInit.None?
    ensures HasMissing(ts, ms) || HasUnexpected(ts, ms)
  {
    if Declares(ts, ms[i].name) {
      NameAhead(ts, ms, t, i, body);
      NotProvided(ts, ms, t, i, body);
    }
  }

  lemma SkippedAll(ts: seq<TraitMember>, ms: seq<ImplMember>, i: nat, body: seq<BodyMember>)
    requires TraitSorted(ts) && Skipped(ts, ms, |ts|, i, body)
    ensures HasUnexpected(ts, ms)
  {
    assert Joined(ts, ms, |ts|, i, body) ==> !Declares(ts, ms[i].name);
  }

  lemma MatchOne(ts: seq<TraitMember>, ms: seq<ImplMember>, t: nat, i: nat, body: seq<BodyMember>)
    requires TraitSorted(ts) && ImplSorted(ms) && Skipped(ts, ms, t, i, body)
    requires t < |ts| && ts[t].name == ms[i].name && ts[t].isMut == ms[i].isMut
    ensures Joined(ts, ms, t + 1, i + 1, body + [FromImpl(ts[t], ms[i])])
  {
    hide IsMember;
    assert Declares(ts, ms[i].name) && Provides(ms, ts[t].name);
    var body' := body + [FromImpl(ts[t], ms[i])];
    ImplMemberOk(ts[t], ms, i);
    forall j | 0 <= j < i + 1
      ensures Matched(ts, t + 1, ms[j])
    {
      if j < i { assert Matched(ts, t, ms[j]); } else { assert ts[t].name == ms[j].name && ts[t].isMut == ms[j].isMut; }
    }
    forall k | 0 <= k < t + 1
      ensures IsMember(ts[k], ms, body'[k])
    {
      if k < t { assert body'[k] == body[k]; }
    }
  }

  lemma ImplMemberOk(t: TraitMember, ms: seq<ImplMember>, i: nat)
    requires i < |ms| && ms[i].name == t.name && ms[i].isMut == t.isMut
    ensures IsMember(t, ms, FromImpl(t, ms[i]))
  {
    assert Provides(ms, t.name);
  }

  lemma MissingAtEnd(ts: seq<TraitMember>, ms: seq<ImplMember>, t: nat, body: seq<BodyMember>)
    requires TraitSorted(ts) && ImplSorted(ms) && Joined(ts, ms, t, |ms|, body) && t < |ts| && ts[t].defaultInit.None?
    ensures HasMissing(ts, ms)
  {
    NotProvided(ts, ms, t, |ms|, body);
  }

  lemma AllJoined(ts: seq<TraitMember>, ms: seq<ImplMember>, body: seq<BodyMember>)
    requires TraitSorted(ts) && Joined(ts, ms, |ts|, |ms|, body)
    ensures IsBody(ts, ms, body) && !HasUnexpected(ts, ms) && !HasMissing(ts, ms) && !HasMismatch(ts, ms)
  {
    forall i | 0 <= i < |ms|
      ensures Declares(ts, ms[i].name)
    {
      assert Matched(ts, |ts|, ms[i]);
    }
    forall t | 0 <= t < |ts| && ts[t].defaultInit.None?
      ensures Provides(ms, ts[t].name)
    {
      assert IsMember(ts[t], ms, body[t]);
    }
    forall t, i | 0 <= t < |ts| && 0 <= i < |ms| && ts[t].name == ms[i].name
      ensures ts[t].isMut == ms[i].isMut
    {
      assert Matched(ts, |ts|, ms[i]);
    }
  }

  lemma NothingJoined(ts: seq<TraitMember>, ms: seq<ImplMember>)
    ensures Joined(ts, ms, 0, 0, [])
  {
  }

  lemma JoinedSkips(ts: seq<TraitMember>, ms: seq<ImplMember>, t: nat, i: nat, body: seq<BodyMember>)
    requires Joined(ts, ms, t, i, body) && i < |ms|
    ensures Skipped(ts, ms, t, i, body)
  {
  }

  lemma Mismatched(ts: seq<TraitMember>, ms: seq<ImplMember>, t: nat, i: nat)
    requires t < |ts| && i < |ms| && ts[t].name == ms[i].name && ts[t].isMut != ms[i].isMut
    ensures HasMismatch(ts, ms)
  {
  }

  // ---------- Which error is reported ----------

  // The trait members passed while looking for impl member `i`, or at the end.
  predicate Scanned(ts: seq<TraitMember>, ms: seq<ImplMember>, i: nat, k: nat)
    requires i <= |ms| && k < |ts|
  {
    && (i == 0 || ms[i - 1].name < ts[k].name)
    && (i < |ms| && Declares(ts, ms[i].name) ==> ts[k].name < ms[i].name)
  }

  predicate Blocked(ts: seq<TraitMember>, ms: seq<ImplMember>, i: nat)
    requires i <= |ms|
  {
    exists k | 0 <= k < |ts| :: Scanned(ts, ms, i, k) && ts[k].defaultInit.None?
  }

  predicate Differs(ts: seq<TraitMember>, m: ImplMember) {
    exists k | 0 <= k < |ts| :: ts[k].name == m.name && ts[k].isMut != m.isMut
  }

  predicate Fault(ts: seq<TraitMember>, ms: seq<ImplMember>, i: nat)
    requires i <= |ms|
  {
    Blocked(ts, ms, i) || (i < |ms| && (!Declares(ts, ms[i].name) || Differs(ts, ms[i])))
  }

  /** The first impl member that is at fault, or the end of the list. */
  predicate FirstFault(ts: seq<TraitMember>, ms: seq<ImplMember>, i: nat) {
    i <= |ms| && Fault(ts, ms, i) && forall j | 0 <= j < i :: !Fault(ts, ms, j)
  }

  function Verdict(ts: seq<TraitMember>, ms: seq<ImplMember>, i: nat): MergeError
    requires i <= |ms|
  {
    if Blocked(ts, ms, i) then MemberMissing
    else if i < |ms| && !Declares(ts, ms[i].name) then MemberUnexpected
    else MutabilityMismatch
  }

  // In front of impl member `i`, at trait member `t`.
  ghost predicate Tracked(ts: seq<TraitMember>, ms: seq<ImplMember>, t: nat, i: nat) {
    && t <= |ts| && i <= |ms|
    && (forall k | 0 <= k < |ts| :: k < t <==> i > 0 && ts[k].name <= ms[i - 1].name)
    && (forall j | 0 <= j < i :: !Fault(ts, ms, j))
  }

  // Looking for impl member `i`, from trait member `from` on.
  ghost predicate Scanning(ts: seq<TraitMember>, ms: seq<ImplMember>, from: nat, t: nat, i: nat) {
    && Tracked(ts, ms, from, i) && i < |ms| && from <= t <= |ts|
    && forall k | from <= k < t :: ts[k].name != ms[i].name && ts[k].defaultInit.Some?
  }

  lemma MissingFault(ts: seq<TraitMember>, ms: seq<ImplMember>, from: nat, t: nat, i: nat)
    requires TraitSorted(ts) && ImplSorted(ms) && Scanning(ts, ms, from, t, i)
    requires t < |ts| && ts[t].name != ms[i].name && ts[t].defaultInit.None?
    ensures FirstFault(ts, ms, i) && Verdict(ts, ms, i) == MemberMissing
  {
    if Declares(ts, ms[i].name) {
      var p :| 0 <= p < |ts| && ts[p].name == ms[i].name;
      assert p >= from by { DeclaredAhead(ts, ms, from, i, p); }
      assert p > t;
    }
    assert Scanned(ts, ms, i, t);
  }

  // A trait member with the name of impl member `i` has not been passed yet.
  lemma DeclaredAhead(ts: seq<TraitMember>, ms: seq<ImplMember>, from: nat, i: nat, p: nat)
    requires Tracked(ts, ms, from, i) && i < |ms| && p < |ts| && ts[p].name == ms[i].name && ImplSorted(ms)
    ensures p >= from
  {
  }

  lemma UnexpectedFault(ts: seq<TraitMember>, ms: seq<ImplMember>, from: nat, i: nat)
    requires TraitSorted(ts) && ImplSorted(ms) && Scanning(ts, ms, from, |ts|, i)
    ensures FirstFault(ts, ms, i) && Verdict(ts, ms, i) == MemberUnexpected
  {
    forall p | 0 <= p < |ts|
      ensures ts[p].name != ms[i].name
    {
      assert i > 0 ==> ms[i - 1].name < ms[i].name;
    }
  }

  // Nothing without a default has been passed on the way to the name of impl member `i`.
  lemma FoundClear(ts: seq<TraitMember>, ms: seq<ImplMember>, from: nat, t: nat, i: nat)
    requires TraitSorted(ts) && Scanning(ts, ms, from, t, i) && t < |ts| && ts[t].name == ms[i].name
    ensures Declares(ts, ms[i].name) && !Blocked(ts, ms, i)
    ensures ts[t].isMut != ms[i].isMut ==> FirstFault(ts, ms, i) && Verdict(ts, ms, i) == MutabilityMismatch
    ensures ts[t].isMut == ms[i].isMut ==> Tracked(ts, ms, t + 1, i + 1)
  {
    forall k | 0 <= k < |ts| && Scanned(ts, ms, i, k)
      ensures ts[k].defaultInit.Some?
    {
      assert ts[k].name < ts[t].name;
      assert from <= k < t;
    }
    if ts[t].isMut == ms[i].isMut {
      forall k | 0 <= k < |ts| && ts[k].name == ms[i].name
        ensures k == t
      {
        OneName(ts, k, t);
      }
      assert !Fault(ts, ms, i);
    }
  }

  lemma OneName(ts: seq<TraitMember>, k: nat, t: nat)
    requires TraitSorted(ts) && k < |ts| && t < |ts| && ts[k].name == ts[t].name
    ensures k == t
  {
    if k < t {
      NamesRise(ts, k, t);
    } else if t < k {
      NamesRise(ts, t, k);
    }
  }

  lemma NamesRise(ts: seq<TraitMember>, i: nat, j: nat)
    requires TraitSorted(ts) && i < j < |ts|
    ensures ts[i].name < ts[j].name
  {
  }

  // Behind the last impl member.
  ghost predicate Ending(ts: seq<TraitMember>, ms: seq<ImplMember>, from: nat, t: nat) {
    && Tracked(ts, ms, from, |ms|) && from <= t <= |ts|
    && forall k | from <= k < t :: ts[k].defaultInit.Some?
  }

  lemma MissingLast(ts: seq<TraitMember>, ms: seq<ImplMember>, from: nat, t: nat)
    requires Ending(ts, ms, from, t) && t < |ts| && ts[t].defaultInit.None?
    ensures FirstFault(ts, ms, |ms|) && Verdict(ts, ms, |ms|) == MemberMissing
  {
    assert Scanned(ts, ms, |ms|, t);
  }

  lemma NothingTracked(ts: seq<TraitMember>, ms: seq<ImplMember>)
    ensures Tracked(ts, ms, 0, 0)
  {
  }

  /** The reported error is determined: there is one first fault. */
  lemma OneFault(ts: seq<TraitMember>, ms: seq<ImplMember>, i: nat, j: nat)
    requires FirstFault(ts, ms, i) && FirstFault(ts, ms, j)
    ensures i == j
  {
  }

  // A trait member passed on the way to a declared name, or at the end, is not provided.
  lemma PassedOver(ts: seq<TraitMember>, ms: seq<ImplMember>, i: nat, k: nat)
    requires TraitSorted(ts) && ImplSorted(ms) && i <= |ms| && k < |ts| && Scanned(ts, ms, i, k)
    requires i < |ms| ==> Declares(ts, ms[i].name)
    ensures !Provides(ms, ts[k].name)
  {
    forall j | 0 <= j < |ms|
      ensures ms[j].name != ts[k].name
    {
      if j < i {
        assert j < i - 1 ==> ms[j].name < ms[i - 1].name;
      } else {
        assert i < j ==> ms[i].name < ms[j].name;
      }
    }
  }

  ghost predicate Misled(ts: seq<TraitMember>, ms: seq<ImplMember>, i: nat) {
    && i < |ms| && !Declares(ts, ms[i].name)
    && (forall j | 0 <= j < i :: Declares(ts, ms[j].name) && !Differs(ts, ms[j]))
    && exists k | 0 <= k < |ts| :: ts[k].defaultInit.None? && forall j | 0 <= j < i :: ms[j].name < ts[k].name
  }

  /** When no member is missing, `MemberMissing` is reported exactly if the first impl member at
      fault is one the trait does not have, and some trait member without a default comes behind
      all earlier impl members. */
  lemma MisleadingMissing(ts: seq<TraitMember>, ms: seq<ImplMember>)
    requires TraitSorted(ts) && ImplSorted(ms) && !HasMissing(ts, ms)
    ensures (exists i :: FirstFault(ts, ms, i) && Verdict(ts, ms, i) == MemberMissing)
      <==> exists i :: Misled(ts, ms, i)
  {
    if i :| FirstFault(ts, ms, i) && Verdict(ts, ms, i) == MemberMissing { MissingMisled(ts, ms, i); }
    if i :| Misled(ts, ms, i) { MisledMissing(ts, ms, i); }
  }

  lemma MissingMisled(ts: seq<TraitMember>, ms: seq<ImplMember>, i: nat)
    requires TraitSorted(ts) && ImplSorted(ms) && !HasMissing(ts, ms)
    requires FirstFault(ts, ms, i) && Verdict(ts, ms, i) == MemberMissing
    ensures Misled(ts, ms, i)
  {
    var k :| 0 <= k < |ts| && Scanned(ts, ms, i, k) && ts[k].defaultInit.None?;
    assert !(i < |ms| ==> Declares(ts, ms[i].name)) by {
      if i < |ms| ==> Declares(ts, ms[i].name) { PassedOver(ts, ms, i, k); }
    }
    forall j | 0 <= j < i
      ensures Declares(ts, ms[j].name) && !Differs(ts, ms[j]) && ms[j].name < ts[k].name
    {
      assert !Fault(ts, ms, j);
      assert j < i - 1 ==> ms[j].name < ms[i - 1].name;
    }
  }

  lemma MisledMissing(ts: seq<TraitMember>, ms: seq<ImplMember>, i: nat)
    requires TraitSorted(ts) && ImplSorted(ms) && !HasMissing(ts, ms) && Misled(ts, ms, i)
    ensures FirstFault(ts, ms, i) && Verdict(ts, ms, i) == MemberMissing
  {
    var k :| 0 <= k < |ts| && ts[k].defaultInit.None? && forall j | 0 <= j < i :: ms[j].name < ts[k].name;
    assert Scanned(ts, ms, i, k);
    forall j | 0 <= j < i
      ensures !Fault(ts, ms, j)
    {
      forall l | 0 <= l < |ts| && Scanned(ts, ms, j, l)
        ensures ts[l].defaultInit.Some?
      {
        PassedOver(ts, ms, j, l);
      }
    }
  }

  /** The error that is reported although nothing is missing, on an input. */
  method MisleadingInput()
    returns (r: Merged)
    ensures r == Err(MemberMissing)
    ensures !HasMissing([TraitMember(5, false, 0, None)], [ImplMember(1, false, 0), ImplMember(5, false, 0)])
  {
    var ts, ms := [TraitMember(5, false, 0, None)], [ImplMember(1, false, 0), ImplMember(5, false, 0)];
    r := CompleteImpl(ts, ms);
    assert Provides(ms, 5) by { assert ms[1].name == 5; }
    assert Misled(ts, ms, 0) by { assert ts[0].defaultInit.None?; }
    MisledMissing(ts, ms, 0);
    assert r.Err? by { assert !Declares(ts, ms[0].name); }
    var i :| FirstFault(ts, ms, i) && r == Err(Verdict(ts, ms, i));
    OneFault(ts, ms, 0, i);
  }

  /** It succeeds exactly if no member is unexpected, missing or of different mutability. */
  method CompleteImpl(ts: seq<TraitMember>, ms: seq<ImplMember>)
    returns (r: Merged)
    requires TraitSorted(ts) && ImplSorted(ms)
    ensures r.Ok? <==> !HasUnexpected(ts, ms) && !HasMissing(ts, ms) && !HasMismatch(ts, ms)
    ensures r.Ok? ==> IsBody(ts, ms, r.body)
    ensures r == Err(MemberUnexpected) ==> HasUnexpected(ts, ms)
    ensures r == Err(MutabilityMismatch) ==> HasMismatch(ts, ms)
    // The scan for an unexpected name reports the first member without a default behind it.
    ensures r == Err(MemberMissing) ==> HasMissing(ts, ms) || HasUnexpected(ts, ms)
    ensures r.Err? ==> exists i :: FirstFault(ts, ms, i) && r == Err(Verdict(ts, ms, i))
  {
    hide Tracked, Scanning, Ending, FirstFault, Verdict;
    hide Joined, Skipped, TraitSorted, ImplSorted, HasUnexpected, HasMissing, HasMismatch, IsBody, IsMember;
    var body: seq<BodyMember> := [];
    var traitIndex, implIndex := 0, 0;
    NothingJoined(ts, ms);
    NothingTracked(ts, ms);
    while implIndex != |ms|
      invariant implIndex <= |ms| && traitIndex <= |ts|
      invariant Joined(ts, ms, traitIndex, implIndex, body) && Tracked(ts, ms, traitIndex, implIndex)
    {
      ghost var from := traitIndex;
      JoinedSkips(ts, ms, traitIndex, implIndex, body);
      ScanBegins(ts, ms, traitIndex, implIndex);
      if traitIndex == |ts| {
        SkippedAll(ts, ms, implIndex, body);
        UnexpectedFault(ts, ms, from, implIndex);
        return Err(MemberUnexpected);
      }
      var name := ms[implIndex].name;
      while ts[traitIndex].name != name
        invariant traitIndex < |ts| && Skipped(ts, ms, traitIndex, implIndex, body)
        invariant Scanning(ts, ms, from, traitIndex, implIndex)
        decreases |ts| - traitIndex
      {
        if ts[traitIndex].defaultInit.None? {
          MissingHere(ts, ms, traitIndex, implIndex, body);
          MissingFault(ts, ms, from, traitIndex, implIndex);
          return Err(MemberMissing);
        }
        SkipOne(ts, ms, traitIndex, implIndex, body);
        ScanOn(ts, ms, from, traitIndex, implIndex);
        body := body + [FromDefault(ts[traitIndex])];
        traitIndex := traitIndex + 1;
        if traitIndex == |ts| {
          SkippedAll(ts, ms, implIndex, body);
          UnexpectedFault(ts, ms, from, implIndex);
          return Err(MemberUnexpected);
        }
      }
      FoundClear(ts, ms, from, traitIndex, implIndex);
      if ts[traitIndex].isMut != ms[implIndex].isMut {
        Mismatched(ts, ms, traitIndex, implIndex);
        return Err(MutabilityMismatch);
      }
      MatchOne(ts, ms, traitIndex, implIndex, body);
      body := body + [FromImpl(ts[traitIndex], ms[implIndex])];
      traitIndex := traitIndex + 1;
      implIndex := implIndex + 1;
    }
    ghost var from := traitIndex;
    EndBegins(ts, ms, from);
    while traitIndex != |ts|
      invariant traitIndex <= |ts| && Joined(ts, ms, traitIndex, implIndex, body) && Ending(ts, ms, from, traitIndex)
    {
      if ts[traitIndex].defaultInit.None? {
        MissingAtEnd(ts, ms, traitIndex, body);
        MissingLast(ts, ms, from, traitIndex);
        return Err(MemberMissing);
      }
      DefaultOne(ts, ms, traitIndex, |ms|, body);
      EndOn(ts, ms, from, traitIndex);
      body := body + [FromDefault(ts[traitIndex])];
      traitIndex := traitIndex + 1;
    }
    AllJoined(ts, ms, body);
    r := Ok(body);
  }

  lemma ScanBegins(ts: seq<TraitMember>, ms: seq<ImplMember>, t: nat, i: nat)
    requires Tracked(ts, ms, t, i) && i < |ms|
    ensures Scanning(ts, ms, t, t, i)
  {
  }

  lemma ScanOn(ts: seq<TraitMember>, ms: seq<ImplMember>, from: nat, t: nat, i: nat)
    requires Scanning(ts, ms, from, t, i) && t < |ts| && ts[t].name != ms[i].name && ts[t].defaultInit.Some?
    ensures Scanning(ts, ms, from, t + 1, i)
  {
  }

  lemma EndBegins(ts: seq<TraitMember>, ms: seq<ImplMember>, t: nat)
    requires Tracked(ts, ms, t, |ms|)
    ensures Ending(ts, ms, t, t)
  {
  }

  lemma EndOn(ts: seq<TraitMember>, ms: seq<ImplMember>, from: nat, t: nat)
    requires Ending(ts, ms, from, t) && t < |ts| && ts[t].defaultInit.Some?
    ensures Ending(ts, ms, from, t + 1)
  {
  }
}
