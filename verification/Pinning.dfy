/** Pinned pages and the search for victims (`ensure_vram_headroom`,
    `claim_host_buffer`).

    A search for device victims looks at the pin when it collects its candidates
    and again before it drops or demotes one; a search for host victims looks
    only when it collects. The eviction claims themselves do not look. So a pin
    set after a thread has settled on the page does not protect it, and one set
    before does: `PinHoldsExactly` says when. */
module Pinning {
  import opened Collections
  import opened Pages
  import opened Budgets
  import opened Protocol
  import opened ProtocolInvariant
  import opened ProtocolSafety
  import opened Refinement
  import opened Reclaim

  /** Steps in which a caller names the page: demoting, promoting, loading,
      evicting, freeing or re-pinning it. */
  predicate Directed(step: Step, id: PageId) {
    match step
    case Claiming(ReadSize(_, i, _, cause)) => i == id && cause.Direct?
    case Claiming(ClaimWriteback(_, i, _, cause)) => i == id && cause.Direct?
    case Claiming(ClaimPromote(_, i, _, _)) => i == id
    case Accessing(Drop(_, i, cause)) => i == id && cause.Direct?
    case Accessing(Pin(_, i, _)) => i == id
    case Freeing(BeginFree(_, i)) => i == id
    case _ => false
  }

  /** Reads and writes of the page. */
  predicate Accessed(step: Step, id: PageId) {
    step.Accessing? && (step.x.Write? || step.x.Read?) && step.x.id == id
  }

  /** The page is pinned and at rest, nobody has taken it up and no search has
      settled on it. */
  ghost predicate Sheltered(s: State, id: PageId) {
    PinnedAtRest(s, id) && OnNoList(s.cands, id)
  }

  ghost predicate PinnedAtRest(s: State, id: PageId) {
    id in s.table && s.table[id].pinned && s.table[id].flight.None? && InNoHands(s.locals, id)
  }

  ghost predicate OnNoList(cands: map<Tid, Search>, id: PageId) {
    forall t :: t in cands ==> id !in cands[t].chosen
  }

  ghost predicate InNoHands(locals: map<Tid, Local>, id: PageId) {
    forall t :: t in locals ==> locals[t].id != id
  }

  /** The parts of a page a sheltered page keeps. */
  predicate SameResidency(p: Page, q: Page) {
    p.state == q.state && p.host == q.host && p.vram == q.vram && p.pinned == q.pinned && p.size == q.size
  }

  /** At most the cached store copy is gone. */
  predicate AtMostCopyLost(p: Page, q: Page) {
    q == p || q == WithoutCachedCopy(p)
  }

  /** A sheltered page stays sheltered and keeps its residency. */
  ghost predicate Kept(s: State, s': State, id: PageId)
    requires id in s.table
  {
    && Sheltered(s', id)
    && SameResidency(s.table[id], s'.table[id])
  }

  /** A step about another page, whose thread does not take this one up. */
  lemma FocusElsewhere(s: State, s': State, f: PageId, t: Tid, id: PageId)
    requires Sheltered(s, id) && OnlyTouches(s, s', f, t) && f != id && s'.cands == s.cands
    requires t in s'.locals ==> s'.locals[t].id != id
    ensures Kept(s, s', id) && s'.table[id] == s.table[id]
  {
    hide BuffersFramed, ExtentsFramed, StoreFramed, BornFramed, OnNoList, Matched;
  }

  lemma AllocKeepsSheltered(s: State, step: AllocStep, id: PageId)
    requires Inv(s) && AllocEnabled(s, step) && Sheltered(s, id)
    ensures Kept(s, ApplyAlloc(s, step), id) && ApplyAlloc(s, step).table[id] == s.table[id]
  {
    hide Structure, Ledger, PageOk, Holds, OnlyTouches, OnNoList;
    var s', f := ApplyAlloc(s, step), AllocFocus(s, step);
    AllocSound(s, step);
    StructureAt(s, id, step.t);
    assert f != id;
    FocusElsewhere(s, s', f, step.t, id);
  }

  /** A thread that takes up a page by name is directed, or found it on its list. */
  lemma ClaimTakesUp(s: State, step: ClaimStep, id: PageId)
    requires ClaimEnabled(s, step) && Sheltered(s, id) && !Directed(Claiming(step), id) && id < s.nextId
    ensures ClaimFocus(s, step) != id && ApplyClaim(s, step).cands == s.cands
    ensures var s' := ApplyClaim(s, step); step.t in s'.locals ==> s'.locals[step.t].id != id
  {}

  lemma ClaimKeepsSheltered(s: State, step: ClaimStep, id: PageId)
    requires Inv(s) && ClaimEnabled(s, step) && Sheltered(s, id) && !Directed(Claiming(step), id)
    ensures Kept(s, ApplyClaim(s, step), id) && ApplyClaim(s, step).table[id] == s.table[id]
  {
    hide Structure, Ledger, PageOk, LocalOk, OnlyTouches, OnNoList, InNoHands, Directed, ApplyClaim, ClaimEnabled;
    ClaimSound(s, step);
    StructureAt(s, id, step.t);
    ClaimTakesUp(s, step, id);
    FocusElsewhere(s, ApplyClaim(s, step), ClaimFocus(s, step), step.t, id);
  }

  lemma CopyStaysOn(s: State, step: CopyStep, id: PageId)
    requires CopyEnabled(s, step) && Sheltered(s, id)
    ensures CopyFocus(s, step) != id && ApplyCopy(s, step).cands == s.cands
    ensures var s' := ApplyCopy(s, step); step.t in s'.locals ==> s'.locals[step.t].id != id
  {
    hide OnNoList, Refund, FreeBuffer, PutBuffer, PutRange, SourceData, Moved;
    assert s.locals[step.t].id != id;
    match step {
      case Submit(_) =>
      case Scribble(_, _) => match s.locals[step.t].move { case ToHost => case ToNvme(_) => case FromNvme => case ToVram => }
      case Retire(_, _, _) => match s.locals[step.t].move { case ToHost => case ToNvme(_) => case FromNvme => case ToVram => }
      case Complete(_, _) => match s.locals[step.t].move { case ToHost => case ToNvme(_) => case FromNvme => case ToVram => }
      case Fail(_) => match s.locals[step.t].move { case ToHost => case ToNvme(_) => case FromNvme => case ToVram => }
    }
  }

  lemma CopyKeepsSheltered(s: State, step: CopyStep, id: PageId)
    requires Inv(s) && CopyEnabled(s, step) && Sheltered(s, id)
    ensures Kept(s, ApplyCopy(s, step), id) && ApplyCopy(s, step).table[id] == s.table[id]
  {
    hide Inv, OnlyTouches, FocusOk, OnNoList, InNoHands, ApplyCopy, CopyEnabled;
    CopySound(s, step);
    CopyStaysOn(s, step, id);
    FocusElsewhere(s, ApplyCopy(s, step), CopyFocus(s, step), step.t, id);
  }

  lemma AccessKeepsSheltered(s: State, step: AccessStep, id: PageId)
    requires AccessEnabled(s, step) && Sheltered(s, id) && !Directed(Accessing(step), id)
    ensures Kept(s, ApplyAccess(s, step), id)
    ensures !Accessed(Accessing(step), id) ==> AtMostCopyLost(s.table[id], ApplyAccess(s, step).table[id])
  {
    hide InNoHands, Checksum;
  }

  lemma FreeStaysOn(s: State, step: FreeStep, id: PageId)
    requires FreeEnabled(s, step) && Sheltered(s, id) && !Directed(Freeing(step), id)
    ensures FreeFocus(s, step) != id && ApplyFree(s, step).cands == s.cands
    ensures var s' := ApplyFree(s, step); step.t in s'.locals ==> s'.locals[step.t].id != id
  {
    hide OnNoList, Refund, FreeBuffer, Moved, Disown;
    assert step.t in s.locals ==> s.locals[step.t].id != id;
  }

  lemma FreeKeepsSheltered(s: State, step: FreeStep, id: PageId)
    requires Inv(s) && FreeEnabled(s, step) && Sheltered(s, id) && !Directed(Freeing(step), id)
    ensures Kept(s, ApplyFree(s, step), id) && ApplyFree(s, step).table[id] == s.table[id]
  {
    hide Inv, OnlyTouches, FocusOk, OnNoList, InNoHands, Directed, ApplyFree, FreeEnabled;
    FreeSound(s, step);
    FreeStaysOn(s, step, id);
    FocusElsewhere(s, ApplyFree(s, step), FreeFocus(s, step), step.t, id);
  }

  lemma SearchKeepsSheltered(s: State, step: SearchStep, id: PageId)
    requires SearchEnabled(s, step) && Sheltered(s, id)
    ensures Kept(s, ApplySearch(s, step), id) && ApplySearch(s, step).table[id] == s.table[id]
  {
    hide InNoHands;
  }

  /** Whoever acts, a sheltered page that no caller names keeps its residency;
      if nobody accesses it either, at most its cached store copy goes. */
  lemma StepKeepsSheltered(s: State, step: Step, id: PageId)
    requires Inv(s) && Enabled(s, step) && Sheltered(s, id) && !Directed(step, id)
    ensures Kept(s, Apply(s, step), id)
    ensures !Accessed(step, id) ==> AtMostCopyLost(s.table[id], Apply(s, step).table[id])
  {
    hide Inv, Sheltered, SameResidency, WithoutCachedCopy;
    hide AllocEnabled, ClaimEnabled, CopyEnabled, AccessEnabled, FreeEnabled, SearchEnabled;
    hide ApplyAlloc, ApplyClaim, ApplyCopy, ApplyAccess, ApplyFree, ApplySearch;
    match step {
      case Allocating(a) => AllocKeepsSheltered(s, a, id);
      case Claiming(c) => ClaimKeepsSheltered(s, c, id);
      case Copying(k) => CopyKeepsSheltered(s, k, id);
      case Accessing(x) => AccessKeepsSheltered(s, x, id);
      case Freeing(f) => FreeKeepsSheltered(s, f, id);
      case Searching(v) => SearchKeepsSheltered(s, v, id);
    }
  }

  /** No caller names the page. */
  ghost predicate Undirected(steps: seq<Step>, id: PageId) {
    forall k :: 0 <= k < |steps| ==> !Directed(steps[k], id)
  }

  ghost predicate Unaccessed(steps: seq<Step>, id: PageId) {
    forall k :: 0 <= k < |steps| ==> !Accessed(steps[k], id)
  }

  /** The pinned frame: through any run, with any number of headroom requests
      by any threads, a page that was pinned before they settled on it keeps
      its state and its host and device pointers; if nobody reads or writes it,
      its whole entry stays but for the cached store copy. */
  lemma {:induction false} PinnedFrame(s: State, steps: seq<Step>, id: PageId)
    requires Inv(s) && Sheltered(s, id) && After(s, steps).Some? && Undirected(steps, id)
    ensures Inv(After(s, steps).value) && Kept(s, After(s, steps).value, id)
    ensures Unaccessed(steps, id) ==> AtMostCopyLost(s.table[id], After(s, steps).value.table[id])
    decreases |steps|
  {
    hide Inv, Sheltered, Enabled, Apply, Directed, Accessed;
    if |steps| > 0 {
      var before := steps[..|steps| - 1];
      PinnedFrame(s, before, id);
      var s1, step := After(s, before).value, steps[|steps| - 1];
      StepKeepsInv(s1, step);
      StepKeepsSheltered(s1, step, id);
    }
  }

  // ---------------------------------------------------- exactly when a pin holds

  /** No run in which no caller names the page moves it. */
  ghost predicate PinHolds(s: State, id: PageId)
    requires id in s.table
  {
    forall steps :: After(s, steps).Some? && Undirected(steps, id) ==>
      id in After(s, steps).value.table && SameResidency(s.table[id], After(s, steps).value.table[id])
  }

  /** There is somewhere for the page to go: for a host page that needs extents,
      a range to be had by reclaiming cached ones where necessary; for a device
      page, host memory. */
  ghost predicate HasSomewhereToGo(s: State, id: PageId)
    requires id in s.table
  {
    var p := s.table[id];
    match p.state
    case ResidentHost =>
      NeedsRange(p) ==>
        Releasable(s, id, Targets(s.table, id))
        && Obtainable(Reclaimed(s, Targets(s.table, id)), Extents(p.size, s.pageSize), p.size)
    case ResidentVram => Fits(s.ram, p.size)
    case _ => false
  }

  lemma OneMoreStep(s0: State, steps: seq<Step>, s: State, step: Step)
    requires After(s0, steps) == Some(s) && Enabled(s, step)
    ensures After(s0, steps + [step]) == Some(Apply(s, step))
  {
    hide Enabled, Apply;
    assert (steps + [step])[..|steps|] == steps;
  }

  lemma NothingYet(s: State)
    ensures After(s, []) == Some(s)
  {}

  /** A thread releases the cached ranges of any pages that can be reclaimed. */
  lemma {:induction false} ReclaimRuns(s: State, t: Tid, id: PageId, gone: set<PageId>) returns (steps: seq<Step>)
    requires Inv(s) && Idle(s, t) && gone <= Targets(s.table, id)
    ensures Releasable(s, id, gone) && After(s, steps) == Some(Reclaimed(s, gone)) && Undirected(steps, id)
    decreases gone
  {
    hide Inv, After, Reclaimed, CanReclaim, DoReclaim, Total, Bytes;
    if gone == {} {
      NothingReclaimed(s, id, t);
      NothingYet(s);
      return [];
    }
    var other :| other in gone;
    var less := gone - {other};
    var before := ReclaimRuns(s, t, id, less);
    OneMore(s, id, less, t, other);
    var step := Accessing(Protocol.Reclaim(t, other));
    OneMoreStep(s, before, Reclaimed(s, less), step);
    assert gone == less + {other};
    steps := before + [step];
  }

  lemma NothingReclaimed(s: State, id: PageId, t: Tid)
    requires Inv(s) && Idle(s, t)
    ensures Releasable(s, id, {}) && Reclaimed(s, {}) == s
  {
    hide Inv, Total, Bytes;
    AllReleasable(s, id, {}, t);
    NoneReleased(s);
  }

  /** Reclaiming from others leaves the page, the thread and its search alone. */
  lemma ReclaimedElsewhere(s: State, t: Tid, id: PageId)
    requires id in s.table && Releasable(s, id, Targets(s.table, id))
    ensures var s1 := Reclaimed(s, Targets(s.table, id));
      && id in s1.table && s1.table[id] == s.table[id] && Candidates(s1, t) == Candidates(s, t)
      && (Idle(s1, t) <==> Idle(s, t)) && s1.pageSize == s.pageSize
  {
    hide Inv, Total, Bytes;
  }

  /** With a range to be had at once, the claim is open to the thread. */
  lemma WritebackRuns(s: State, t: Tid, id: PageId)
    requires Idle(s, t) && id in Candidates(s, t) && Settled(s, id, ResidentHost)
    requires NeedsRange(s.table[id]) ==> Obtainable(s, Extents(s.table[id].size, s.pageSize), s.table[id].size)
    ensures exists first: nat ::
      CanClaimWriteback(s, t, id, first, Headroom) && DoClaimWriteback(s, t, id, first).table[id].state.EvictingToNvme?
  {
    hide Fits, Extents, Own, Charge;
    var p := s.table[id];
    if NeedsRange(p) {
      var first: nat :| FreeRun(s.ext, |s.store|, first, Extents(p.size, s.pageSize));
      assert CanClaimWriteback(s, t, id, first, Headroom);
    } else {
      assert CanClaimWriteback(s, t, id, 0, Headroom);
    }
  }

  /** A thread that has settled on a host page writes it back, pinned or not,
      reclaiming cached ranges for it if it must. */
  lemma ChosenHostPageIsEvicted(s: State, t: Tid, id: PageId)
    requires Inv(s) && Idle(s, t) && id in Candidates(s, t) && Settled(s, id, ResidentHost) && HasSomewhereToGo(s, id)
    ensures !PinHolds(s, id)
  {
    hide Inv, After, Obtainable, Reclaimed, Total, Bytes, Extents, Candidates;
    var gone := if NeedsRange(s.table[id]) then Targets(s.table, id) else {};
    var before := ReclaimRuns(s, t, id, gone);
    var s1 := Reclaimed(s, gone);
    if NeedsRange(s.table[id]) { ReclaimedElsewhere(s, t, id); } else { NothingReclaimed(s, id, t); }
    WritebackRuns(s1, t, id);
    var first: nat :| CanClaimWriteback(s1, t, id, first, Headroom)
      && DoClaimWriteback(s1, t, id, first).table[id].state.EvictingToNvme?;
    var step := Claiming(ClaimWriteback(t, id, first, Headroom));
    hide CanClaimWriteback, DoClaimWriteback;
    OneMoreStep(s, before, s1, step);
    assert Undirected(before + [step], id);
  }

  lemma FreshHandle(bufs: map<Handle, Buffer>) returns (h: Handle)
    ensures h !in bufs
  {
    h := AboveAll(bufs.Keys);
  }

  lemma {:induction false} AboveAll(used: set<nat>) returns (h: nat)
    ensures forall x :: x in used ==> x < h
    decreases used
  {
    if used == {} { return 0; }
    var x :| x in used;
    var rest := AboveAll(used - {x});
    h := if rest <= x then x + 1 else rest;
    assert forall y :: y in used ==> y == x || y in used - {x};
  }

  /** The three sections of a demotion by a thread that has settled on the page. */
  lemma DemotionRuns(s: State, t: Tid, id: PageId, h: Handle, junk: Content)
    requires Idle(s, t) && id in Candidates(s, t) && Settled(s, id, ResidentVram) && Fits(s.ram, s.table[id].size)
    requires h !in s.host && |junk| == Extents(s.table[id].size, s.pageSize)
    ensures var s1 := DoReadSize(s, t, id, ToHost, Headroom);
      && CanReadSize(s, t, id, ToHost, Headroom) && CanStageHost(s1, t, h, junk)
      && var s2 := DoStageHost(s1, t, h, junk);
      CanClaimStaged(s2, t) && DoClaimStaged(s2, t).table[id].state.EvictingToHost?
  {
    hide Fits, Charge, Extents, Reown;
  }

  /** A thread that has settled on a device page demotes it, pinned or not. */
  lemma ChosenDevicePageIsEvicted(s: State, t: Tid, id: PageId)
    requires Idle(s, t) && id in Candidates(s, t) && Settled(s, id, ResidentVram) && HasSomewhereToGo(s, id)
    ensures !PinHolds(s, id)
  {
    hide After, Fits, Extents;
    var h := FreshHandle(s.host);
    var junk := seq(Extents(s.table[id].size, s.pageSize), _ => Block([]));
    DemotionRuns(s, t, id, h, junk);
    var one, two, three := Claiming(ReadSize(t, id, ToHost, Headroom)), Claiming(StageHost(t, h, junk)),
                           Claiming(ClaimStaged(t));
    var s1 := Apply(s, one);
    var s2 := Apply(s1, two);
    assert Enabled(s2, three) && Apply(s2, three).table[id].state.EvictingToHost?;
    assert !Directed(one, id) && !Directed(two, id) && !Directed(three, id);
    hide Enabled, Apply, Directed;
    NothingYet(s);
    OneMoreStep(s, [], s, one);
    OneMoreStep(s, [] + [one], s1, two);
    OneMoreStep(s, [] + [one] + [two], s2, three);
    assert Undirected([] + [one] + [two] + [three], id);
  }

  /** The exact condition. For a pinned page at rest on the host or the device,
      with somewhere to go and the threads that have settled on it free to act:
      the pin protects it through every run if and only if no thread has. */
  lemma PinHoldsExactly(s: State, id: PageId)
    requires Inv(s) && PinnedAtRest(s, id) && HasSomewhereToGo(s, id)
    requires forall t :: id in Candidates(s, t) ==> Idle(s, t)
    ensures PinHolds(s, id) <==> OnNoList(s.cands, id)
  {
    hide Inv, After, Fits, Directed, InNoHands, SameResidency;
    if OnNoList(s.cands, id) {
      forall steps | After(s, steps).Some? && Undirected(steps, id)
        ensures id in After(s, steps).value.table && SameResidency(s.table[id], After(s, steps).value.table[id])
      {
        PinnedFrame(s, steps, id);
      }
    } else {
      var t :| t in s.cands && id in s.cands[t].chosen;
      assert id in Candidates(s, t);
      hide HasSomewhereToGo, PinHolds;
      if s.table[id].state.ResidentHost? {
        ChosenHostPageIsEvicted(s, t, id);
      } else {
        DeviceOtherwise(s, id);
        ChosenDevicePageIsEvicted(s, t, id);
      }
    }
  }

  lemma DeviceOtherwise(s: State, id: PageId)
    requires id in s.table && HasSomewhereToGo(s, id) && !s.table[id].state.ResidentHost?
    ensures s.table[id].state.ResidentVram?
  {}

  // ------------------------------------------------------------ pinned too late

  /** The three sections of an allocation on the host. */
  lemma HostAllocationRuns(s: State, t: Tid, logical: nat, h: Handle, junk: Content, tier: Tier)
    requires CanNewPage(s, t, logical) && h !in s.host
    requires var size := AllocationSize(logical, s.pageSize); Fits(s.ram, size) && |junk| == Extents(size, s.pageSize)
    ensures var size, s1 := AllocationSize(logical, s.pageSize), DoNewPage(s, t, logical, false);
      && CanHostAlloc(s1, t, h, junk) && var s2 := DoHostAlloc(s1, t, h, junk);
      && CanInsertHost(s2, t) && var s3 := DoInsertHost(s2, t, tier);
      && s3 == s.(nextId := s.nextId + 1, born := s3.born, host := s3.host, ram := Charge(s.ram, size),
                  table := s.table[s.nextId := HostEntry(s.nextId, size, h, tier)])
  {
    hide AllocationSize, Fits, Charge, Extents, Reown;
    var size, s1 := AllocationSize(logical, s.pageSize), DoNewPage(s, t, logical, false);
    var s2 := DoHostAlloc(s1, t, h, junk);
    assert DoInsertHost(s2, t, tier).locals == s.locals;
  }

  lemma AllocateOnHost(s0: State, before: seq<Step>, s: State, t: Tid, logical: nat, h: Handle, junk: Content, tier: Tier)
    returns (steps: seq<Step>, s3: State)
    requires After(s0, before) == Some(s) && CanNewPage(s, t, logical) && h !in s.host
    requires var size := AllocationSize(logical, s.pageSize); Fits(s.ram, size) && |junk| == Extents(size, s.pageSize)
    ensures After(s0, steps) == Some(s3)
    ensures var size := AllocationSize(logical, s.pageSize);
      s3 == s.(nextId := s.nextId + 1, born := s3.born, host := s3.host, ram := Charge(s.ram, size),
               table := s.table[s.nextId := HostEntry(s.nextId, size, h, tier)])
  {
    hide After, AllocationSize, Fits, Charge, Extents, HostEntry;
    HostAllocationRuns(s, t, logical, h, junk, tier);
    hide CanNewPage, CanHostAlloc, CanInsertHost, DoNewPage, DoHostAlloc, DoInsertHost;
    var one, two, three := Allocating(NewPage(t, logical, false)), Allocating(HostAlloc(t, h, junk)),
                           Allocating(InsertHost(t, tier));
    var s1 := DoNewPage(s, t, logical, false);
    var s2 := DoHostAlloc(s1, t, h, junk);
    s3 := DoInsertHost(s2, t, tier);
    OneMoreStep(s0, before, s, one);
    OneMoreStep(s0, before + [one], s1, two);
    OneMoreStep(s0, before + [one] + [two], s2, three);
    steps := before + [one] + [two] + [three];
  }

  /** The entry of a page just allocated on the host. */
  function HostEntry(id: PageId, size: nat, h: Handle, tier: Tier): Page {
    FreshPage(id, size, false).(host := Some(h), state := ResidentHost, tier := tier)
  }

  /** The two sections of an allocation in the store. */
  lemma StoreAllocationRuns(s: State, t: Tid, logical: nat, first: nat)
    requires CanNewPage(s, t, logical)
    requires var size := AllocationSize(logical, s.pageSize);
      Fits(s.nvme, size) && RangeFree(s, first, Extents(size, s.pageSize))
    ensures var size, s1 := AllocationSize(logical, s.pageSize), DoNewPage(s, t, logical, false);
      && CanInsertNvme(s1, t, first) && var s2 := DoInsertNvme(s1, t, first);
      && s2 == s.(nextId := s.nextId + 1, born := s2.born, ext := Own(s.ext, first, Extents(size, s.pageSize), s.nextId),
                  nvme := Charge(s.nvme, size),
                  table := s.table[s.nextId := StoreEntry(s.nextId, size, first)])
  {
    hide AllocationSize, Fits, Charge, Extents, Own;
    var s1 := DoNewPage(s, t, logical, false);
    assert CanInsertNvme(s1, t, first);
    assert DoInsertNvme(s1, t, first).locals == s.locals;
  }

  function StoreEntry(id: PageId, size: nat, first: nat): Page {
    FreshPage(id, size, false).(offset := Some(first), state := ResidentNvme, tier := Nvme)
  }

  /** A started runtime without a device: extents of 4096 bytes, host memory for
      one page and a store of four extents. With no device budget, pages go to
      the host while it has room and to the store afterwards. */
  function SmallRuntime(b: Block): State {
    State(4096, 1, 0, map[], map[], map[], map[], map[], map[], map[], [b, b, b, b],
          Budget(0, 0, 0, 0), Budget(4096, 0, 0, 0), Budget(16384, 0, 0, 0))
  }

  /** Page 1 has all of the host, page 2 is in the store, and thread 3 is
      loading page 2: it has read its size and host memory is refused it. */
  predicate HostFull(s: State, pinned: bool) {
    && s.pageSize == 4096 && s.ext.Keys == {0} && |s.store| == 4 && s.nvme == Budget(16384, 0, 4096, 4096)
    && s.table.Keys == {1, 2} && s.table[2] == StoreEntry(2, 4096, 0)
    && s.table[1] == HostEntry(1, 4096, 0, HostPageable).(pinned := pinned)
    && s.locals == map[3 := Sized(2, 4096, FromNvme, Direct)] && !Fits(s.ram, 4096)
  }

  lemma WholePage()
    ensures AllocationSize(4096, 4096) == 4096 && Extents(4096, 4096) == 1
  {
    hide AllocationSize;
    OnlyMultiple(AllocationSize(4096, 4096));
  }

  lemma OnlyMultiple(r: nat)
    requires 4096 <= r < 8192 && r % 4096 == 0
    ensures r == 4096
  {}

  lemma HostPageRuns(b: Block) returns (steps: seq<Step>, s: State)
    ensures Init(SmallRuntime(b)) && After(SmallRuntime(b), steps) == Some(s)
    ensures s == SmallRuntime(b).(nextId := 2, born := s.born, host := s.host, ram := Budget(4096, 0, 4096, 4096),
                                  table := map[1 := HostEntry(1, 4096, 0, HostPageable)])
  {
    hide After, AllocationSize, Extents, HostEntry;
    WholePage();
    NothingYet(SmallRuntime(b));
    steps, s := AllocateOnHost(SmallRuntime(b), [], SmallRuntime(b), 1, 4096, 0, [b], HostPageable);
  }

  /** A second page goes to the store. */
  lemma StorePageRuns(b: Block) returns (steps: seq<Step>, s: State)
    ensures Init(SmallRuntime(b)) && After(SmallRuntime(b), steps) == Some(s)
    ensures s.pageSize == 4096 && s.ext.Keys == {0} && |s.store| == 4 && s.nvme == Budget(16384, 0, 4096, 4096)
    ensures s.table == map[1 := HostEntry(1, 4096, 0, HostPageable), 2 := StoreEntry(2, 4096, 0)]
    ensures s.locals == map[] && s.cands == map[] && s.ram == Budget(4096, 0, 4096, 4096)
  {
    hide After, Init, AllocationSize, Extents;
    var s0 := SmallRuntime(b);
    var first, s1 := HostPageRuns(b);
    var one, two := NewPage(2, 4096, false), InsertNvme(2, 0);
    WholePage();
    StoreAllocationRuns(s1, 2, 4096, 0);
    hide CanNewPage, CanInsertNvme, DoNewPage, DoInsertNvme;
    var s2 := DoNewPage(s1, 2, 4096, false);
    s := DoInsertNvme(s2, 2, 0);
    assert forall e :: e in s.ext <==> e == 0;
    OneMoreStep(s0, first, s1, Allocating(one));
    OneMoreStep(s0, first + [Allocating(one)], s2, Allocating(two));
    steps := first + [Allocating(one)] + [Allocating(two)];
  }

  /** And a thread begins to load it, for which there is no host memory. */
  lemma HostFillsUp(b: Block) returns (steps: seq<Step>, s: State)
    ensures Init(SmallRuntime(b)) && After(SmallRuntime(b), steps) == Some(s)
    ensures HostFull(s, false) && s.cands == map[]
  {
    hide After, Init;
    var first, s1 := StorePageRuns(b);
    var step := Claiming(ReadSize(3, 2, FromNvme, Direct));
    s := DoReadSize(s1, 3, 2, FromNvme, Direct);
    assert Enabled(s1, step) && Apply(s1, step) == s;
    hide Apply, Enabled;
    OneMoreStep(SmallRuntime(b), first, s1, step);
    steps := first + [step];
  }

  /** The run is possible from a fresh start. With the host full, the load of
      page 2 has been refused a buffer, and its search for host victims settles
      on page 1. The owner then pins page 1; the search evicts it all the same. */
  lemma PinnedTooLate(b: Block) returns (before: seq<Step>, s1: State, s: State)
    ensures Init(SmallRuntime(b)) && After(SmallRuntime(b), before) == Some(s1) && HostFull(s1, false)
    ensures After(SmallRuntime(b), before + [Searching(CollectHost(4, 2))] + [Accessing(Pin(5, 1, true))]) == Some(s)
    ensures HostFull(s, true)
    ensures var step := Claiming(ClaimWriteback(4, 1, 1, Headroom));
      Enabled(s, step) && !Directed(step, 1) && !SameResidency(s.table[1], Apply(s, step).table[1])
  {
    hide After, Init;
    before, s1 := HostFillsUp(b);
    var list, pin := Searching(CollectHost(4, 2)), Accessing(Pin(5, 1, true));
    var s2 := DoChoose(s1, 4, HostVictims(s1, 2));
    s := DoPin(s2, 1, true);
    LatePin(s1);
    hide Apply, Enabled, HostFull, DoChoose, DoPin, HostVictims;
    OneMoreStep(SmallRuntime(b), before, s1, list);
    OneMoreStep(SmallRuntime(b), before + [list], s2, pin);
    LatePinIsIgnored(s);
  }

  lemma LatePin(s: State)
    requires HostFull(s, false)
    ensures var s1 := DoChoose(s, 4, HostVictims(s, 2));
      && Enabled(s, Searching(CollectHost(4, 2))) && Apply(s, Searching(CollectHost(4, 2))) == s1
      && Enabled(s1, Accessing(Pin(5, 1, true))) && Apply(s1, Accessing(Pin(5, 1, true))) == DoPin(s1, 1, true)
      && HostFull(DoPin(s1, 1, true), true) && 1 in Candidates(DoPin(s1, 1, true), 4)
  {
    hide Fits;
    var s1 := DoChoose(s, 4, HostVictims(s, 2));
    assert DoPin(s1, 1, true).table.Keys == {1, 2};
  }

  lemma LateClaim(s: State)
    requires HostFull(s, true) && 1 in Candidates(s, 4)
    ensures CanClaimWriteback(s, 4, 1, 1, Headroom) && DoClaimWriteback(s, 4, 1, 1).table[1].state.EvictingToNvme?
  {
    hide Extents, AllocationSize, Own, Charge;
    WholePage();
  }

  lemma LatePinIsIgnored(s: State)
    requires HostFull(s, true) && 1 in Candidates(s, 4)
    ensures var step := Claiming(ClaimWriteback(4, 1, 1, Headroom));
      Enabled(s, step) && !Directed(step, 1) && !SameResidency(s.table[1], Apply(s, step).table[1])
  {
    hide CanClaimWriteback, DoClaimWriteback, Candidates, StoreEntry, Fits;
    LateClaim(s);
  }
}
