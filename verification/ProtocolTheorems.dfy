/** What the invariant and the refinement say about every reachable state. */
module ProtocolTheorems {
  import opened Collections
  import opened Words
  import opened Pages
  import opened Protocol
  import opened ProtocolInvariant
  import opened ProtocolSafety
  import opened Refinement

  /** Some run from a started runtime leads to `s`. */
  ghost predicate Reachable(s: State) {
    exists s0, steps :: Init(s0) && After(s0, steps) == Some(s)
  }

  lemma ReachableInv(s: State)
    requires Reachable(s)
    ensures Inv(s)
  {
    hide Inv, Init;
    var s0, steps :| Init(s0) && After(s0, steps) == Some(s);
    RunRefines(s0, steps);
  }

  /** A page marked as having a store copy has one: valid, clean, and byte for
      byte the authoritative content. */
  lemma StoreCopyIsValid(s: State, id: PageId)
    requires Reachable(s) && id in s.table && s.table[id].hasCopy
    ensures s.table[id].offset.Some? && !s.table[id].dirty
    ensures !s.table[id].state.Released? ==>
      DataAt(s, s.table[id].offset, Extents(s.table[id].size, s.pageSize)) == Authoritative(s, s.table[id])
  {
    hide Reachable, Ledger, Holds, OwnsRange, Authoritative;
    ReachableInv(s);
    StructureAt(s, id, 0);
  }

  /** The store range of a page that a failed or torn writeback left behind is
      never taken for a copy: a page whose last writeback failed has no copy. */
  lemma FailedWritebackLeavesNoCopy(s: State, t: Tid)
    requires Reachable(s) && CanFail(s, t) && s.locals[t].move.ToNvme?
    ensures var p := DoFail(s, t).table[s.locals[t].id]; p.state.Error? && !p.hasCopy && p.host.Some?
  {
    hide Reachable, Ledger, Holds, OwnsRange, Authoritative, ReleasePoint;
    ReachableInv(s);
    StructureAt(s, s.locals[t].id, t);
  }

  /** A completed writeback, with or without a write, leaves the page in the
      store: clean, marked as copied, and its range holding the bytes that were
      the page's before. */
  lemma CompletedWritebackStores(s: State, t: Tid, tier: Tier)
    requires Reachable(s) && CanComplete(s, t) && s.locals[t].move.ToNvme?
    ensures var id, s' := s.locals[t].id, DoComplete(s, t, tier);
      && id in s'.table && var p := s'.table[id];
      && p.state.ResidentNvme? && p.hasCopy && !p.dirty && p.host.None? && p.flight.None?
      && DataAt(s', p.offset, Extents(p.size, s'.pageSize)) == Authoritative(s, s.table[id])
  {
    hide Reachable, Inv, DataAt, DataIn, Extents;
    ReachableInv(s);
    StepRefines(s, Copying(Complete(t, tier)));
    var id, s' := s.locals[t].id, DoComplete(s, t, tier);
    MovingIsLive(s, t);
    assert Abs(s') == Abs(s) && id in Abs(s);
    assert Abs(s')[id] == Abs(s)[id];
  }

  lemma MovingIsLive(s: State, t: Tid)
    requires Inv(s) && InMove(s, t)
    ensures Live(s, s.locals[t].id)
  {
    hide Ledger, Structure, Holds, OwnsRange, Authoritative, TargetData;
    StructureAt(s, s.locals[t].id, t);
  }

  /** A failed transfer leaves the page in Error with its bytes where they were:
      the source is kept and the destination given back. */
  lemma FailureKeepsSource(s: State, t: Tid)
    requires Reachable(s) && CanFail(s, t)
    ensures var id, m, s' := s.locals[t].id, s.locals[t].move, DoFail(s, t);
      && id in s'.table && var p, q := s.table[id], s'.table[id];
      && q.state.Error? && q.flight.None? && q.dirty == p.dirty && q.hasCopy == p.hasCopy && q.offset == p.offset
      && (m.ToHost? ==> q.vram == p.vram && q.vram.Some? && q.host.None?)
      && (m.FromNvme? ==> q.offset.Some? && q.host.None? && q.vram.None?)
      && (m.ToVram? ==> q.host == p.host && q.host.Some? && q.vram.None?)
      && (m.ToNvme? ==> q.host == p.host && q.host.Some? && q.vram.None?)
      && Authoritative(s', q) == Authoritative(s, p)
  {
    hide Reachable, Ledger, Structure, Holds, OwnsRange, DataAt, DataIn, Extents, TargetData, ReleasePoint;
    ReachableInv(s);
    StructureAt(s, s.locals[t].id, t);
    FailureKeepsBytes(s, t);
  }

  lemma FailureKeepsBytes(s: State, t: Tid)
    requires Inv(s) && CanFail(s, t)
    ensures s.locals[t].id in s.table
    ensures var id, s' := s.locals[t].id, DoFail(s, t); Authoritative(s', s'.table[id]) == Authoritative(s, s.table[id])
  {
    hide Inv, Authoritative;
    StepRefines(s, Copying(Fail(t)));
    var id, s' := s.locals[t].id, DoFail(s, t);
    MovingIsLive(s, t);
    assert Abs(s') == Abs(s) && id in Abs(s);
    assert Abs(s')[id] == Abs(s)[id];
  }

  /** At the end of `free_page` a page that gave up everything is gone, and one
      that did not stays behind, released and at rest, to be freed again. */
  lemma FreeEnds(s: State, t: Tid)
    requires Reachable(s) && InPhase(s, t, Finish)
    ensures var l, s' := s.locals[t], DoEndFree(s, t); var p := s.table[l.id];
      && p.state.Released? && p.offset.None? && (!l.failed ==> p.host.None? && p.vram.None?)
      && (!l.failed ==> l.id !in s'.table)
      && (l.failed ==> l.id in s'.table && s'.table[l.id] == p.(flight := None))
      && t !in s'.locals && (l.failed ==> CanBeginFree(s', t, l.id))
  {
    hide Reachable, Ledger, Structure, Holds, OwnsRange, Authoritative, TargetData;
    ReachableInv(s);
    StructureAt(s, s.locals[t].id, t);
  }

  /** The transition table, said another way: a transfer is entered from its
      source and left for its target; whatever is not in transfer can be
      released, once; whatever was allocated and has not failed or been released
      can fail; a new page goes to any residence; and a device page with a copy
      may fall back on the store. */
  lemma TransitionsExactly(a: PageState, b: PageState)
    ensures TransitionAllowed(a, b) <==>
      || (exists m: Move :: a == SourceState(m) && b == TransferState(m))
      || (exists m: Move :: a == TransferState(m) && b == TargetState(m))
      || (b.Released? && !InTransfer(a) && !a.Released?)
      || (b.Error? && !a.Unallocated? && !a.Error? && !a.Released?)
      || (a.Unallocated? && (b.ResidentVram? || b.ResidentHost? || b.ResidentNvme? || b.LoadingToVram?))
      || (a.ResidentVram? && b.ResidentNvme?)
  {
    var into, out := MoveThrough(b), MoveThrough(a);
    assert a == SourceState(into) && b == TransferState(into) ==> TransitionAllowed(a, b);
    assert a == TransferState(out) && b == TargetState(out) ==> TransitionAllowed(a, b);
  }

  /** The transfer a state belongs to. */
  function MoveThrough(st: PageState): Move {
    match st
    case EvictingToHost => ToHost
    case EvictingToNvme => ToNvme(true)
    case LoadingToHost => FromNvme
    case _ => ToVram
  }

  lemma OwnedRangesDisjoint(ext: map<nat, PageId>, i: PageId, f: nat, n: nat, j: PageId, g: nat, m: nat)
    requires i != j && OwnsRange(ext, i, Some(f), n) && OwnsRange(ext, j, Some(g), m)
    ensures f + n <= g || g + m <= f || n == 0 || m == 0
  {
    var e := if f < g then g else f;
    assert f <= e < f + n ==> e in ext && ext[e] == i;
    assert g <= e < g + m ==> e in ext && ext[e] == j;
  }

  /** The handles two different pages really hold are different, and their
      extent ranges are disjoint. */
  lemma SingleOwnership(s: State, i: PageId, j: PageId)
    requires Reachable(s) && i in s.table && j in s.table && i != j
    ensures var p, q := s.table[i], s.table[j];
      var c, d := Carrier(s, p), Carrier(s, q);
      var n, m := Extents(p.size, s.pageSize), Extents(q.size, s.pageSize);
      && (LiveVram(p, c).Some? ==> LiveVram(p, c) != LiveVram(q, d))
      && (LiveHost(p, c).Some? ==> LiveHost(p, c) != LiveHost(q, d))
      && (LiveRange(p, c).Some? && LiveRange(q, d).Some? ==>
            var f, g := LiveRange(p, c).value, LiveRange(q, d).value;
            f + n <= g || g + m <= f || n == 0 || m == 0)
  {
    hide Reachable, Ledger, Structure, Authoritative, TargetData, Carries, Shape;
    ReachableInv(s);
    StructureAt(s, i, 0);
    StructureAt(s, j, 0);
    var p, q := s.table[i], s.table[j];
    var r, r' := LiveRange(p, Carrier(s, p)), LiveRange(q, Carrier(s, q));
    if r.Some? && r'.Some? {
      OwnedRangesDisjoint(s.ext, i, r.value, Extents(p.size, s.pageSize), j, r'.value, Extents(q.size, s.pageSize));
    }
  }

  /** The state of a page fixes which resources it has: a device buffer only on
      the device or on its way, a host buffer only on the host or on its way, an
      extent range wherever its bytes depend on one. At rest it really holds what
      its entry names. */
  lemma StateFixesHandles(s: State, id: PageId)
    requires Reachable(s) && id in s.table
    ensures Shape(s.table[id])
    ensures var p := s.table[id]; var c := Carrier(s, p);
      p.flight.None? ==> LiveVram(p, c) == p.vram && LiveHost(p, c) == p.host && LiveRange(p, c) == p.offset
  {
    hide Reachable, Ledger, Structure, Holds, OwnsRange, Authoritative, TargetData, Shape;
    ReachableInv(s);
    StructureAt(s, id, 0);
  }

  predicate InTransfer(st: PageState) {
    st.LoadingToHost? || st.LoadingToVram? || st.EvictingToHost? || st.EvictingToNvme?
  }

  /** `in_flight` is set exactly in the four transfer states and, in Released,
      exactly while some thread is cleaning up. */
  lemma InFlightExactly(s: State, id: PageId)
    requires Reachable(s) && id in s.table
    ensures !s.table[id].state.Released? ==> (s.table[id].flight.Some? <==> InTransfer(s.table[id].state))
    ensures s.table[id].state.Released? ==>
      (s.table[id].flight.Some? <==> exists t :: t in s.locals && s.locals[t].Releasing? && s.locals[t].id == id)
  {
    hide Reachable, Ledger, Holds, OwnsRange, Authoritative, ReleasePoint;
    ReachableInv(s);
    StructureAt(s, id, 0);
    forall t | t in s.locals && s.locals[t].Releasing? && s.locals[t].id == id ensures s.table[id].flight == Some(t) {
      StructureAt(s, id, t);
    }
  }

  /** Each tier's usage is the sum of what pages and threads hold, and never
      exceeds the limit less the reserve. */
  lemma UsageIsExactAndBounded(s: State)
    requires Reachable(s)
    ensures Ledger(s)
    ensures s.vram.used <= s.vram.limit - s.vram.reserve
    ensures s.ram.used <= s.ram.limit - s.ram.reserve
    ensures s.nvme.used <= s.nvme.limit - s.nvme.reserve
  {
    hide Reachable, Structure, Ledger;
    ReachableInv(s);
  }

  /** No section of any thread throws in any reachable state. */
  lemma ReachableNeverThrows(s: State, step: Step)
    requires Reachable(s) && Enabled(s, step)
    ensures NothingThrows(s, step)
  {
    hide Reachable, Inv, NothingThrows;
    ReachableInv(s);
    StepNeverThrows(s, step);
  }

  // ---------------------------------------------------- fill, then verify

  /** `fill_page` writes the pattern cut into extents. */
  function Chop(b: seq<Byte>, pageSize: nat): Content
    requires pageSize > 0
  {
    if |b| == 0 then []
    else if |b| < pageSize then [Block(b)]
    else [Block(b[..pageSize])] + Chop(b[pageSize..], pageSize)
  }

  lemma {:induction false} FlattenChop(b: seq<Byte>, pageSize: nat)
    requires pageSize > 0
    ensures Flatten(Chop(b, pageSize)) == b
    decreases |b|
  {
    if |b| == 0 {
    } else if |b| < pageSize {
      assert Chop(b, pageSize)[1..] == [];
    } else {
      FlattenChop(b[pageSize..], pageSize);
      assert Chop(b, pageSize)[1..] == Chop(b[pageSize..], pageSize);
    }
  }

  /** `verify_page` accepts: the checksum of the bytes read is the stored one,
      and the bytes are the pattern. */
  predicate VerifyPasses(s: State, id: PageId, seed: Word)
    requires id in s.table
  {
    var bytes := Flatten(ReadData(s, id));
    && Integrity.Fnv(0xC0FFEE, bytes) == s.table[id].checksum
    && |bytes| < Integrity.U64_RANGE && id < Integrity.U64_RANGE
    && bytes == Integrity.Pattern(seed, id, |bytes|)
  }

  /** After `fill_page` with no later write, `verify_page` passes in every later
      state in which the page can be read, wherever it has been in between. */
  lemma FillThenVerify(s: State, steps: seq<Step>, t: Tid, id: PageId, seed: Word, n: nat)
    requires Init(s) && After(s, steps).Some? && CanAccess(After(s, steps).value, t, id)
    requires n < Integrity.U64_RANGE && id < Integrity.U64_RANGE
    requires Latest(Trace(s, steps), id) == Some((Chop(Integrity.Pattern(seed, id, n), s.pageSize), true))
    ensures VerifyPasses(After(s, steps).value, id, seed)
  {
    hide After, Trace, Latest, Integrity.Pattern, Integrity.Fnv, Flatten, Chop, ReadData;
    var pattern := Integrity.Pattern(seed, id, n);
    ReadReturnsLatestWrite(s, steps, t, id);
    ChecksumIsOfLatestWrite(s, steps, id);
    FlattenChop(pattern, s.pageSize);
    PatternLength(seed, id, n);
  }

  lemma PatternLength(seed: Word, page: Word, n: nat)
    requires n < Integrity.U64_RANGE
    ensures |Integrity.Pattern(seed, page, n)| == n
  {}
}
