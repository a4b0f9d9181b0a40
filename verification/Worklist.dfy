/** The worklist of deferred segments: it ends for every expression, with the segments one behind
    the other and no hole open; where all of them are sound, they hold the code of their expressions. */
module Worklist {
  import opened Basics
  import opened Lang
  import opened Machine
  import opened Coding
  import opened Refilling
  import opened Emission
  import opened EmissionCases
  import opened Emitter
  import opened Accounting
  import opened Segments

  // ---------- Where the segments are ----------

  /** A finished segment: the hole it was emitted for and the code it occupies. */
  datatype Placed = Placed(fixup: Fixup, start: nat, end: nat)

  ghost predicate IsPlaced(codes: seq<Op>, s: Placed) {
    && s.fixup.dst < |codes| && AddressOf(codes[s.fixup.dst], s.fixup.slot) == Some(s.start)
    && 0 < s.start < s.end <= |codes| && EndsSegment(codes[..s.end])
  }

  /** Segments fill the code from `from` on, one behind the other; each ends by leaving, and
      every hole was patched once, with the start of its segment. */
  ghost predicate Tiled(codes: seq<Op>, placed: seq<Placed>, from: nat) {
    && (forall i | 0 <= i < |placed| :: IsPlaced(codes, placed[i]))
    && (forall i | 0 <= i < |placed| :: placed[i].start == if i == 0 then from else placed[i - 1].end)
    && |codes| == (if placed == [] then from else placed[|placed| - 1].end)
    && (forall i, j | 0 <= i < j < |placed| :: Apart(placed[i].fixup, placed[j].fixup))
  }

  // `codes'` continues `codes`; only holes have been patched.
  ghost predicate Kept(codes: seq<Op>, codes': seq<Op>) {
    |codes| <= |codes'| && forall i | 0 <= i < |codes| :: SameUpToHoles(codes[i], codes'[i])
  }

  lemma SameTrans(a: Op, b: Op, c: Op)
    requires SameUpToHoles(a, b) && SameUpToHoles(b, c)
    ensures SameUpToHoles(a, c)
  {
    if a.PrepareArgs? {
      forall i | 0 <= i < |a.arguments|
        ensures Carried(a, c, i)
      {
        assert Carried(a, b, i) && Carried(b, c, i);
      }
    }
  }

  lemma SameAddress(a: Op, b: Op, slot: nat)
    requires SameUpToHoles(a, b) && AddressOf(a, slot).Some?
    ensures Carried(a, b, slot)
  {
  }

  lemma KeptTrans(a: seq<Op>, b: seq<Op>, c: seq<Op>)
    requires Kept(a, b) && Kept(b, c)
    ensures Kept(a, c)
  {
    hide SameUpToHoles;
    forall i | 0 <= i < |a|
      ensures SameUpToHoles(a[i], c[i])
    {
      SameTrans(a[i], b[i], c[i]);
    }
  }

  lemma SameSelf(codes: seq<Op>)
    ensures Kept(codes, codes)
  {
  }

  lemma StaysPlaced(codes: seq<Op>, codes': seq<Op>, s: Placed)
    requires Kept(codes, codes') && IsPlaced(codes, s)
    ensures IsPlaced(codes', s)
  {
    assert SameUpToHoles(codes[s.fixup.dst], codes'[s.fixup.dst]);
    SameAddress(codes[s.fixup.dst], codes'[s.fixup.dst], s.fixup.slot);
    assert SameUpToHoles(codes[s.end - 1], codes'[s.end - 1]);
    assert codes[..s.end][s.end - 1] == codes[s.end - 1];
  }

  lemma TiledMore(codes: seq<Op>, codes': seq<Op>, placed: seq<Placed>, from: nat, f: Fixup)
    requires Tiled(codes, placed, from) && Kept(codes, codes') && 0 < |codes| < |codes'|
    requires f.dst < |codes| && AddressOf(codes[f.dst], f.slot) == Some(INVALID)
    requires AddressOf(codes'[f.dst], f.slot) == Some(|codes|) && EndsSegment(codes')
    ensures Tiled(codes', placed + [Placed(f, |codes|, |codes'|)], from)
  {
    hide Kept;
    var s := Placed(f, |codes|, |codes'|);
    var more := placed + [s];
    forall i | 0 <= i < |more|
      ensures IsPlaced(codes', more[i])
    {
      if i < |placed| {
        StaysPlaced(codes, codes', placed[i]);
      } else {
        assert codes'[..|codes'|] == codes';
      }
    }
    forall i, j | 0 <= i < j < |more|
      ensures Apart(more[i].fixup, more[j].fixup)
    {
      if j == |placed| {
        assert IsPlaced(codes, placed[i]);
      }
    }
  }

  // ---------- One segment ----------

  // An instruction that ends the segment, behind what has grown from `p`.
  lemma EndsWith(p: Pool, q: Pool, work: nat, op: Op)
    requires Grown(p, q, work) && (op.EndCode? || op.Return?)
    ensures EndsSegment(Emit(q, op).codes) && |Emit(q, op).codes| > |p.codes|
  {
    hide Emitted;
  }

  lemma SegmentEnds(p: Pool, s: Segment)
    requires Holes(p)
    ensures var r := SegmentFrom(p, s);
      r.Going? ==> EndsSegment(r.pool.codes) && |r.pool.codes| > |p.codes|
  {
    hide Holes, Grown, Emit, ExprFrom, Size, EndsSegment, TotalSize, BranchTail;
    match s
    case FunctionBody(e, hasClosure) =>
      var p0 := p.(ctxs := 1, closures := Bit(hasClosure));
      ThenGrows(p, p0, e, true);
      var r := ExprFrom(p0, e, true);
      if r.Going? {
        GrownPlain(p, r.pool, Size(e) - 1, PopClosure);
        EndsWith(p, if hasClosure then Emit(r.pool, PopClosure) else r.pool, Size(e) - 1, Return);
      }
    case Argument(e) =>
      ThenGrows(p, p.(ctxs := 1), e, true);
      var r := ExprFrom(p.(ctxs := 1), e, true);
      if r.Going? { EndsWith(p, r.pool, Size(e) - 1, EndCode); }
    case VoidValue =>
      GrownSame(p, p.(ctxs := 1));
      GrownPlain(p, p.(ctxs := 1), 0, ValueVoid(true));
      EndsWith(p, Emit(p.(ctxs := 1), ValueVoid(true)), 0, EndCode);
    case IfBranch(e, into, expectVoid) => BranchEnds(p, e, into, expectVoid);
    case DiscardedIfBranch(e) =>
      ThenGrows(p, p, e, false);
      var r := ExprFrom(p, e, false);
      if r.Going? {
        DiscardGrown(p, r.pool, Size(e) - 1);
        EndsWith(p, DiscardTail(r.pool), Size(e) - 1, EndCode);
      }
    case LoopBody(e, step) => LoopEnds(p, e, step);
  }

  lemma BranchEnds(p: Pool, e: Expr, into: bool, expectVoid: bool)
    requires Holes(p)
    ensures var r := SegmentFrom(p, IfBranch(e, into, expectVoid));
      r.Going? ==> EndsSegment(r.pool.codes) && |r.pool.codes| > |p.codes|
  {
    hide Holes, Grown, Emit, ExprFrom, Size, EndsSegment, TotalSize;
    var p0 := p.(ctxs := Bit(into));
    GrownSame(p, p0);
    GrownPlain(p, p0, 0, CheckWriteCtxVoid);
    var p1 := if expectVoid && into then Emit(p0, CheckWriteCtxVoid) else p0;
    GrownHoles(p, p1, 0);
    ExprGrows(p1, e, into);
    var r := ExprFrom(p1, e, into);
    if r.Going? {
      GrownTrans(p, p1, 0, r.pool, Size(e) - 1);
      EndsWith(p, r.pool, Size(e) - 1, EndCode);
    }
  }

  lemma LoopEnds(p: Pool, e: Expr, step: LoopStep)
    requires Holes(p)
    ensures var r := SegmentFrom(p, LoopBody(e, step));
      r.Going? ==> EndsSegment(r.pool.codes) && |r.pool.codes| > |p.codes|
  {
    hide Holes, Grown, Emit, ExprFrom, Size, EndsSegment, TotalSize, DiscardTail;
    ThenGrows(p, p, e, false);
    var r := ExprFrom(p, e, false);
    if r.Going? {
      var p1 := DiscardTail(r.pool);
      DiscardGrown(p, r.pool, Size(e) - 1);
      StepGrows(p, p1, Size(e) - 1, step);
      var r2 := StepFrom(p1, step);
      if r2.Going? { EndsWith(p, r2.pool, Size(e) - 1 + StepSize(step), EndCode); }
    }
  }

  /** The hole is patched with the address of its segment; all else stays. */
  lemma LastKept(p: Pool)
    requires Holes(p) && p.fixups != []
    ensures var r, f := LastFrom(p), LastFixup(p);
      && IsHole(p.codes, f)
      && (r.Going? ==>
            && Kept(p.codes, r.pool.codes) && |p.codes| < |r.pool.codes| && EndsSegment(r.pool.codes)
            && AddressOf(r.pool.codes[f.dst], f.slot) == Some(|p.codes|))
  {
    hide Holes, Grown, SegmentFrom, TotalSize, Opened, EndsSegment, SameUpToHoles;
    LastIsHole(p);
    OpenedHoles(p);
    LastGrows(p);
    var q, f := Opened(p), LastFixup(p);
    SegmentEnds(q, f.segment);
    var r := LastFrom(p);
    if r.Going? {
      GrownHoles(q, r.pool, SegmentSize(f.segment) - 1);
      forall i | 0 <= i < |p.codes|
        ensures r.pool.codes[i] == q.codes[i] && SameUpToHoles(p.codes[i], r.pool.codes[i])
      {
        assert r.pool.codes[i] == r.pool.codes[..|q.codes|][i];
      }
    }
  }

  lemma LastIsHole(p: Pool)
    requires Holes(p) && p.fixups != []
    ensures IsHole(p.codes, LastFixup(p)) && |p.codes| > 0
  {
  }

  // No operand lacks its address.
  ghost predicate NoneOpen(codes: seq<Op>) {
    forall i: nat, slot: nat | i < |codes| :: AddressOf(codes[i], slot) != Some(INVALID)
  }

  lemma AllPatched(p: Pool)
    requires Holes(p) && p.fixups == []
    ensures NoneOpen(p.codes)
  {
  }

  /** Whatever is compiled, the worklist ends with no hole open, and every hole was patched once,
      with the start of its own segment; the segments fill the code one behind the other. */
  lemma {:induction false} FixupsTiled(p: Pool, placed: seq<Placed>, from: nat) returns (all: seq<Placed>)
    requires Holes(p) && Tiled(p.codes, placed, from)
    ensures var r := FixupsFrom(p);
      r.Going? ==>
        && r.pool.fixups == [] && NoneOpen(r.pool.codes)
        && Kept(p.codes, r.pool.codes) && Tiled(r.pool.codes, all, from)
    decreases TotalSize(p.fixups)
  {
    hide Holes, Kept, Tiled, LastFrom, TotalSize, IsHole, EndsSegment, NoneOpen;
    all := placed;
    if p.fixups == [] {
      AllPatched(p);
      SameSelf(p.codes);
    } else {
      LastGrows(p);
      LastKept(p);
      LastIsHole(p);
      var r := LastFrom(p);
      if r.Going? {
        FirstHole(p.codes, LastFixup(p));
        TiledMore(p.codes, r.pool.codes, placed, from, LastFixup(p));
        all := FixupsTiled(r.pool, placed + [Placed(LastFixup(p), |p.codes|, |r.pool.codes|)], from);
        var r2 := FixupsFrom(r.pool);
        if r2.Going? { KeptTrans(p.codes, r.pool.codes, r2.pool.codes); }
      }
    }
  }

  lemma FirstHole(codes: seq<Op>, f: Fixup)
    requires IsHole(codes, f)
    ensures f.dst < |codes| && AddressOf(codes[f.dst], f.slot) == Some(INVALID)
  {
  }

  // ---------- Sound segments ----------

  // An open hole stays open while code is appended.
  lemma StaysOpen(q: Pool, p1: Pool, n: nat, work: nat, i: nat)
    requires Emitted(q, p1, n, work) && i < |q.fixups|
    ensures IsHole(p1.codes, q.fixups[i]) && q.fixups[i] in Pending(p1.fixups)
  {
    hide TotalSize;
    assert IsHole(q.codes, q.fixups[i]);
    var f := q.fixups[i];
    assert p1.codes[f.dst] == p1.codes[..|q.codes|][f.dst];
    assert p1.fixups[i] == p1.fixups[..|q.fixups|][i];
  }

  lemma SegmentRefills(p: Pool, f: Fixup, q: Pool, p1: Pool)
    requires Holes(p) && p.fixups != [] && f == LastFixup(p)
    requires |q.codes| == |p.codes| && q.fixups == p.fixups[..|p.fixups| - 1]
    requires f.dst < |q.codes| && AddressOf(q.codes[f.dst], f.slot) == Some(|p.codes|)
    requires forall i | 0 <= i < |p.codes| :: SameUpToHoles(p.codes[i], q.codes[i])
    requires EmittedSegment(q, p1, f.segment)
    ensures Refills(p.codes, Pending(p.fixups), p1.codes, Pending(p1.fixups))
  {
    hide SegmentCoded, TotalSize, SegmentAccepted, SameUpToHoles, EndsSegment, Holes;
    var n := |p1.codes| - |q.codes|;
    forall i | 0 <= i < |p.codes|
      ensures p1.codes[i] == q.codes[i] && SameUpToHoles(p.codes[i], p1.codes[i])
    {
      assert p1.codes[i] == p1.codes[..|q.codes|][i];
    }
    forall g | g in Pending(p.fixups)
      ensures Settled(g, p.codes, p1.codes, Pending(p1.fixups))
    {
      var i :| 0 <= i < |p.fixups| && p.fixups[i] == g;
      if i < |q.fixups| {
        StaysOpen(q, p1, n, SegmentSize(f.segment) - 1, i);
      }
    }
  }

  lemma {:induction false} RefillsTrans(a: seq<Op>, pa: set<Fixup>, b: seq<Op>, pb: set<Fixup>, c: seq<Op>,
                                        pc: set<Fixup>)
    requires Refills(a, pa, b, pb) && Refills(b, pb, c, pc)
    requires forall f | f in pa :: f.dst < |a| && AddressOf(a[f.dst], f.slot).Some?
    ensures Refills(a, pa, c, pc)
  {
    hide SegmentCoded;
    forall i | 0 <= i < |a|
      ensures SameUpToHoles(a[i], c[i])
    {
      assert SameUpToHoles(a[i], b[i]) && SameUpToHoles(b[i], c[i]);
      SameTrans(a[i], b[i], c[i]);
    }
    forall f | f in pa
      ensures Settled(f, a, c, pc)
    {
      assert SameUpToHoles(a[f.dst], b[f.dst]) && SameUpToHoles(b[f.dst], c[f.dst]);
      assert Settled(f, a, b, pb);
      SameAddress(a[f.dst], b[f.dst], f.slot);
      SameAddress(b[f.dst], c[f.dst], f.slot);
      var x := AddressOf(b[f.dst], f.slot).value;
      if x == INVALID {
        assert Settled(f, b, c, pc);
      } else {
        RefillsSegment(b, pb, c, pc, x, f.segment);
      }
    }
  }

  lemma HolesAreHoles(p: Pool)
    requires Holes(p)
    ensures forall f | f in Pending(p.fixups) :: f.dst < |p.codes| && AddressOf(p.codes[f.dst], f.slot).Some?
  {
    forall f | f in Pending(p.fixups)
      ensures f.dst < |p.codes| && AddressOf(p.codes[f.dst], f.slot).Some?
    {
      var i :| 0 <= i < |p.fixups| && p.fixups[i] == f;
      assert IsHole(p.codes, p.fixups[i]);
    }
  }

  lemma RefillsSame(p: Pool)
    requires Holes(p)
    ensures Refills(p.codes, Pending(p.fixups), p.codes, Pending(p.fixups))
  {
    hide Holes;
    EmittedNothing(p);
    EmittedRefills(p, p, 0, 0);
  }

  lemma AcceptedLast(p: Pool, q: Pool, p1: Pool, f: Fixup)
    requires p.fixups != [] && f == LastFixup(p) && q.fixups == p.fixups[..|p.fixups| - 1]
    requires EmittedSegment(q, p1, f.segment)
    ensures AllAccepted(p1.fixups) <==> AllAccepted(p.fixups)
  {
    hide SegmentAccepted, SegmentCoded, Holes, TotalSize, EndsSegment;
    assert forall i | 0 <= i < |q.fixups| :: p1.fixups[i] == p1.fixups[..|q.fixups|][i] == p.fixups[i];
  }

  // The next segment starts from a clean state.
  lemma OpenedClean(p: Pool)
    requires Clean(p) && p.fixups != []
    ensures Clean(Opened(p)) && Opened(p).AtZero() && SegmentSound(LastFixup(p).segment)
    ensures Opened(p).fixups == p.fixups[..|p.fixups| - 1]
  {
    hide SegmentSound;
    OpenedHoles(p);
  }

  ghost predicate LastRight(p: Pool, r: Progress) {
    match r
    case Going(q) =>
      && Clean(q) && q.AtZero() && Refills(p.codes, Pending(p.fixups), q.codes, Pending(q.fixups))
      && (AllAccepted(q.fixups) <==> AllAccepted(p.fixups))
    case Stopped(why) => why.NeedsFinally? && !AllAccepted(p.fixups)
  }

  lemma LastSpec(p: Pool)
    requires Clean(p) && p.fixups != []
    ensures LastRight(p, LastFrom(p))
  {
    hide Clean, SegmentFrom, EmittedSegment, SegmentAccepted, Opened, Refills, SegmentSound, SameUpToHoles, Holes,
         TotalSize, Pending;
    CleanHoles(p);
    OpenedClean(p);
    OpenedHoles(p);
    var q, f := Opened(p), LastFixup(p);
    SegmentSpec(q, f.segment);
    var r := SegmentFrom(q, f.segment);
    if r.Going? {
      CleanHoles(r.pool);
      assert r.pool.Assert(r.pool.AtZero()) == r.pool;
      SegmentRefills(p, f, q, r.pool);
      AcceptedLast(p, q, r.pool, f);
    }
  }

  ghost predicate FixupsRight(p: Pool, r: Progress) {
    match r
    case Going(q) =>
      && AllAccepted(p.fixups) && q.fixups == [] && Clean(q) && q.AtZero()
      && Refills(p.codes, Pending(p.fixups), q.codes, {})
    case Stopped(why) => why.NeedsFinally? && !AllAccepted(p.fixups)
  }

  /** Where everything deferred is sound, the segments hold the code of their expressions; the work
      fails only at a loop where a value is stored. */
  lemma {:induction false} FixupsSpec(p: Pool)
    requires Clean(p) && p.AtZero()
    ensures FixupsRight(p, FixupsFrom(p))
    decreases TotalSize(p.fixups)
  {
    hide Clean, LastFrom, Refills, SegmentSound, Holes, TotalSize, SegmentAccepted;
    CleanHoles(p);
    if p.fixups == [] {
      RefillsSame(p);
      assert Pending(p.fixups) == {};
    } else {
      LastGrows(p);
      LastSpec(p);
      var r := LastFrom(p);
      if r.Going? {
        CleanHoles(r.pool);
        FixupsSpec(r.pool);
        var r2 := FixupsFrom(r.pool);
        if r2.Going? {
          HolesAreHoles(p);
          RefillsTrans(p.codes, Pending(p.fixups), r.pool.codes, Pending(r.pool.fixups), r2.pool.codes, {});
        }
      }
    }
  }

  // ---------- Whole definitions ----------

  /** Finished code for the value of `e`, behind what was there. */
  ghost predicate CodedValue(p: Pool, q: Pool, e: Expr) {
    && q.fixups == [] && q.asserted && |p.codes| <= |q.codes|
    && Coded(q.codes, {}, |p.codes|, e, false) && OpAt(q.codes, |p.codes| + Len(e, false), EndCode)
  }

  ghost predicate ValueRight(p: Pool, r: Progress, e: Expr) {
    match r
    case Going(q) => Accepted(e, false) && CodedValue(p, q, e)
    case Stopped(why) => why.NeedsFinally? && !Accepted(e, false)
  }

  lemma NothingPlaced(codes: seq<Op>)
    ensures Tiled(codes, [], |codes|)
  {
  }

  lemma GrownKept(p: Pool, q: Pool, work: nat)
    requires Grown(p, q, work)
    ensures Kept(p.codes, q.codes)
  {
    hide Holes, TotalSize;
    forall i | 0 <= i < |p.codes|
      ensures p.codes[i] == q.codes[i] && SameUpToHoles(p.codes[i], q.codes[i])
    {
      assert q.codes[i] == q.codes[..|p.codes|][i];
    }
  }

  /** A sound expression that leaves a value is compiled without any assertion failing, unless a
      loop stands where a value is stored. */
  lemma ValueSpec(p: Pool, e: Expr)
    requires Holes(p) && p.fixups == [] && p.asserted && Sound(e, false, 0, 0) && Yields(e)
    ensures ValueRight(p, ValueFrom(p, e), e)
  {
    hide Holes, ExprFrom, FixupsFrom, Emitted, EmittedExpr, Accepted, Sound, Coded, Len, Clean, OpAt, Refills,
         Emit, AllAccepted, TotalSize;
    var p0 := ValueStart(p);
    StartClean(p, p0);
    ExprSpec(p0, e, false);
    ValueEndHoles(p, e);
    var r := ExprFrom(p0, e, false);
    if r.Going? {
      ExprDepths(p0, r.pool, e, false);
      ValueEndSpec(p, p0, r.pool, e);
      var q := ValueEnd(r.pool);
      FixupsSpec(q);
      var r2 := FixupsFrom(q);
      if r2.Going? {
        CleanHoles(r2.pool);
        RefillsCoded(q.codes, Pending(q.fixups), r2.pool.codes, {}, |p.codes|, e, false);
        RefillsOp(q.codes, Pending(q.fixups), r2.pool.codes, {}, |p.codes| + Len(e, false), EndCode);
        RefillsLonger(q, r2.pool, p);
      }
    }
  }

  lemma RefillsLonger(q: Pool, r: Pool, p: Pool)
    requires Refills(q.codes, Pending(q.fixups), r.codes, {}) && |p.codes| <= |q.codes|
    ensures |p.codes| <= |r.codes|
  {
    hide SegmentCoded;
  }

  lemma StartClean(p: Pool, p0: Pool)
    requires Holes(p) && p.fixups == [] && p.asserted && p0 == ValueStart(p)
    ensures Clean(p0) && p0.AtZero()
  {
  }

  // The value is consumed, and the code ends.
  lemma ValueEndSpec(p: Pool, p0: Pool, q: Pool, e: Expr)
    requires p0 == ValueStart(p) && p.fixups == [] && EmittedExpr(p0, q, e, false) && Clean(q)
    requires q.values == 1 && q.scopes == 0 && q.ctxs == 0 && q.closures == 0
    ensures var r := ValueEnd(q);
      && Clean(r) && r.AtZero() && Coded(r.codes, Pending(r.fixups), |p.codes|, e, false)
      && OpAt(r.codes, |p.codes| + Len(e, false), EndCode) && |p.codes| <= |r.codes|
      && (Accepted(e, false) <==> AllAccepted(r.fixups))
  {
    hide Holes, Emitted, Accepted, Coded, Len, Clean, OpAt, AllAccepted, NewAccepted, Size;
    var n, work := Len(e, false), Size(e) - 1;
    var q1 := q.(values := 0);
    CleanHoles(q);
    CleanFrom(q, q1);
    CleanEmit(q1, EndCode);
    OtherDepths(p0, q, n, work, p0, q1);
    Finally(p0, q1, n, work, EndCode);
    Later(q1, Emit(q1, EndCode), 1, 0, |p0.codes|, e, false);
    CodesLength(p0, q1, n, work);
    AllNew(p0, Emit(q1, EndCode));
  }

  lemma AllNew(p0: Pool, p1: Pool)
    requires p0.fixups == []
    ensures NewAccepted(p0, p1) <==> AllAccepted(p1.fixups)
  {
  }
}
