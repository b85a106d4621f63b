/** The NVMe budget and the extent map count the same thing: outside the two
    moments of `free_page` between giving up a range and giving back its bytes,
    usage is the number of owned extents times the extent size. */
module StoreUsage {
  import opened Collections
  import opened Pages
  import opened Budgets
  import opened Protocol
  import opened ProtocolInvariant
  import opened ProtocolFrames
  import opened ProtocolTheorems
  import opened Reclaim
  import opened Refinement

  // ------------------------------------------------- sizes are whole extents

  predicate WholeSizes(s: State) {
    s.pageSize > 0 && forall id :: id in s.born ==> s.born[id].bytes > 0 && s.born[id].bytes % s.pageSize == 0
  }

  /** The budget covers the whole store. */
  predicate CoversStore(s: State) {
    |s.store| * s.pageSize <= Usable(s.nvme)
  }

  lemma StepKeepsWhole(s: State, step: Step)
    requires Enabled(s, step) && WholeSizes(s) && CoversStore(s)
    ensures WholeSizes(Apply(s, step)) && CoversStore(Apply(s, step))
  {
    hide Apply, Enabled;
    StepSteady(s, step);
  }

  lemma {:induction false} RunKeepsWhole(s: State, steps: seq<Step>)
    requires Init(s) && After(s, steps).Some?
    ensures WholeSizes(After(s, steps).value) && CoversStore(After(s, steps).value)
    decreases |steps|
  {
    hide Apply, Enabled;
    if |steps| > 0 {
      hide WholeSizes, CoversStore;
      RunKeepsWhole(s, steps[..|steps| - 1]);
      StepKeepsWhole(After(s, steps[..|steps| - 1]).value, steps[|steps| - 1]);
    }
  }

  // ------------------------------------------------------------- the counting

  /** No thread has given up a range and not yet given back its bytes. */
  predicate NoReleaseUnderway(s: State) {
    forall t :: t in s.locals && s.locals[t].Releasing? ==>
      !s.locals[t].phase.RangeFreed? && !s.locals[t].phase.RangeCleared?
  }

  function Span(first: nat, n: nat): (r: set<nat>)
    ensures forall e: nat :: e in r <==> first <= e < first + n
  {
    if n == 0 then {} else Span(first, n - 1) + {first + n - 1}
  }

  lemma {:induction false} SpanSize(first: nat, n: nat)
    ensures |Span(first, n)| == n
  {
    if n > 0 { SpanSize(first, n - 1); }
  }

  lemma {:induction false} TotalZero(m: map<nat, nat>)
    requires forall k :: k in m ==> m[k] == 0
    ensures Total(m) == 0
    decreases |m|
  {
    if m != map[] {
      var k :| k in m;
      TotalRemove(m, k);
      assert |(m - {k}).Keys| < |m.Keys| by { assert (m - {k}).Keys == m.Keys - {k}; }
      TotalZero(m - {k});
    }
  }

  /** The extents owned by the pages of a set. */
  function OwnedBy(ext: map<nat, PageId>, ids: set<PageId>): set<nat> {
    set e | e in ext && ext[e] in ids
  }

  ghost function NvmeOf(s: State, ids: set<PageId>): map<nat, nat> {
    map id | id in ids :: PageNvme(s, id)
  }

  lemma OwnedCount(ext: map<nat, PageId>, id: PageId, r: Option<nat>, n: nat)
    requires OwnsRange(ext, id, r, n)
    ensures OwnedBy(ext, {id}) == if r.Some? then Span(r.value, n) else {}
    ensures |OwnedBy(ext, {id})| == if r.Some? then n else 0
  {
    if r.Some? { SpanSize(r.value, n); }
  }

  lemma RangeAtRest(s: State, id: PageId)
    requires Inv(s) && NoReleaseUnderway(s) && id in s.table
    ensures var p := s.table[id]; var n := Extents(p.size, s.pageSize);
      && OwnsRange(s.ext, id, p.offset, n) && (p.offset.Some? ==> p.offset.value + n <= |s.store|)
      && id in s.born && s.born[id].bytes == p.size
  {
    hide Structure, Ledger, Holds, OwnsRange, Authoritative, TargetData, Shape;
    StructureAt(s, id, 0);
  }

  /** One page: as many extents as its size has, or none. */
  lemma OnePage(s: State, id: PageId)
    requires Inv(s) && WholeSizes(s) && NoReleaseUnderway(s) && id in s.table
    ensures |OwnedBy(s.ext, {id})| * s.pageSize == PageNvme(s, id)
    ensures forall e :: e in OwnedBy(s.ext, {id}) ==> e < |s.store|
  {
    hide Inv, NoReleaseUnderway, OwnsRange, OwnedBy;
    RangeAtRest(s, id);
    var p := s.table[id];
    OwnedCount(s.ext, id, p.offset, Extents(p.size, s.pageSize));
    assert p.size == p.size / s.pageSize * s.pageSize;
  }

  lemma {:induction false} ManyPages(s: State, ids: set<PageId>)
    requires Inv(s) && WholeSizes(s) && NoReleaseUnderway(s) && ids <= s.table.Keys
    ensures |OwnedBy(s.ext, ids)| * s.pageSize == Total(NvmeOf(s, ids))
    decreases ids
  {
    hide Inv, WholeSizes, NoReleaseUnderway, PageNvme;
    if ids == {} {
      assert OwnedBy(s.ext, ids) == {} && NvmeOf(s, ids) == map[];
    } else {
      var id :| id in ids;
      var rest := ids - {id};
      ManyPages(s, rest);
      OnePage(s, id);
      var a, b := OwnedBy(s.ext, rest), OwnedBy(s.ext, {id});
      assert OwnedBy(s.ext, ids) == a + b && a !! b;
      Distributes(|a|, |b|, s.pageSize);
      TotalRemove(NvmeOf(s, ids), id);
      assert NvmeOf(s, ids) - {id} == NvmeOf(s, rest);
    }
  }

  lemma Distributes(x: nat, y: nat, k: nat)
    ensures (x + y) * k == x * k + y * k
  {}

  /** Usage is exact, extent by extent. */
  lemma UsageIsExtents(s: State)
    requires Inv(s) && WholeSizes(s) && NoReleaseUnderway(s)
    ensures s.nvme.used == |s.ext.Keys| * s.pageSize
    ensures forall e :: e in s.ext ==> e < |s.store|
  {
    TotalZero(ThreadsNvme(s));
    ManyPages(s, s.table.Keys);
    assert NvmeOf(s, s.table.Keys) == PagesNvme(s);
    assert OwnedBy(s.ext, s.table.Keys) == s.ext.Keys;
    forall e | e in s.ext ensures e < |s.store| {
      OnePage(s, s.ext[e]);
      assert e in OwnedBy(s.ext, {s.ext[e]});
    }
  }

  lemma RunFits(ext: map<nat, PageId>, total: nat, first: nat, n: nat)
    requires (forall e :: e in ext ==> e < total) && FreeRun(ext, total, first, n)
    ensures |ext.Keys| + n <= total
  {
    SpanSize(first, n);
    SpanSize(0, total);
    assert ext.Keys !! Span(first, n);
    Fewer(ext.Keys + Span(first, n), Span(0, total));
  }

  /** A free run is always affordable when the budget covers the store. */
  lemma RunIsAffordable(s: State, first: nat, n: nat)
    requires Inv(s) && WholeSizes(s) && NoReleaseUnderway(s)
    requires CoversStore(s) && FreeRun(s.ext, |s.store|, first, n)
    ensures Fits(s.nvme, n * s.pageSize)
  {
    hide Inv, WholeSizes, NoReleaseUnderway, FreeRun;
    UsageIsExtents(s);
    RunFits(s.ext, |s.store|, first, n);
    Distributes(|s.ext.Keys|, n, s.pageSize);
    MulMonotone(|s.ext.Keys| + n, |s.store|, s.pageSize);
  }

  lemma Fewer(a: set<nat>, b: set<nat>)
    requires a <= b
    ensures |a| <= |b|
  {
    assert b == a + (b - a);
  }

  /** Usage is in step with the extents: sizes are whole, the budget covers the
      store and no release is half done. In a reachable state only the last can
      fail. */
  predicate InStep(s: State) {
    WholeSizes(s) && CoversStore(s) && NoReleaseUnderway(s)
  }

  /** With usage in step with the extents, a reservation of `n` extents is
      refused exactly when no window of `n` extents is made up of free ones and
      of ones that may be reclaimed. */
  lemma RefusedOnlyWithoutWindow(s: State, exclude: PageId, t: Tid, n: nat)
    requires Inv(s) && InStep(s) && (Idle(s, t) || IsBorn(s, t))
    ensures Releasable(s, exclude, Targets(s.table, exclude))
    ensures Obtainable(Reclaimed(s, Targets(s.table, exclude)), n, n * s.pageSize)
      <==> exists first: nat :: Window(s, Targets(s.table, exclude), first, n)
  {
    hide Inv;
    var all := Targets(s.table, exclude);
    AllReleasable(s, exclude, all, t);
    hide Total, Bytes;
    var s1 := Reclaimed(s, all);
    assert WholeSizes(s1) && NoReleaseUnderway(s1);
    hide WholeSizes, NoReleaseUnderway, Fits, FreeRun, Window;
    if first: nat :| Window(s, all, first, n) {
      WindowBefore(s, all, first, n);
      RunIsAffordable(s1, first, n);
    }
    if Obtainable(s1, n, n * s.pageSize) {
      var first: nat :| FreeRun(s1.ext, |s1.store|, first, n);
      WindowBefore(s, all, first, n);
    }
  }

  // ------------------------------------------------------- what must stay

  /** The extent is owned by the page that asks, or by one whose bytes are in the
      store, in transfer, in error or being released. */
  predicate MustStay(s: State, exclude: PageId, e: nat) {
    && e in s.ext && s.ext[e] in s.table
    && (s.ext[e] == exclude
        || s.table[s.ext[e]].state in {ResidentNvme, LoadingToHost, LoadingToVram, EvictingToHost, EvictingToNvme,
                                       PageState.Error, Released})
  }

  /** Some extent of the window must stay. */
  ghost predicate HeldBack(s: State, exclude: PageId, first: nat, n: nat) {
    exists e :: first <= e < first + n && MustStay(s, exclude, e)
  }

  /** In every window of `n` extents, some extent must stay. */
  ghost predicate NoWindow(s: State, exclude: PageId, n: nat) {
    forall first: nat :: first + n <= |s.store| ==> HeldBack(s, exclude, first, n)
  }

  /** Another page than the one that asks, resident in memory, with a range. */
  predicate CachedInMemory(table: map<PageId, Page>, exclude: PageId, id: PageId) {
    id in table && id != exclude && table[id].offset.Some? && table[id].state in {ResidentHost, ResidentVram}
  }

  /** Those are exactly the pages that can be made to give up their ranges. */
  lemma TargetsExactly(s: State, exclude: PageId, id: PageId)
    requires Inv(s)
    ensures id in Targets(s.table, exclude) <==> CachedInMemory(s.table, exclude, id)
  {
    hide Structure, Ledger, Holds, OwnsRange, Authoritative, TargetData;
    StructureAt(s, id, 0);
  }

  lemma TargetsAre(s: State, exclude: PageId)
    requires Inv(s)
    ensures Cached(s.table, Targets(s.table, exclude))
    ensures forall id :: id in Targets(s.table, exclude) <==> CachedInMemory(s.table, exclude, id)
  {
    hide Inv, Targets;
    forall id { TargetsExactly(s, exclude, id); }
  }

  lemma StaysOrGoes(s: State, exclude: PageId, e: nat)
    requires Inv(s) && NoReleaseUnderway(s) && e in s.ext
    ensures s.ext[e] in Targets(s.table, exclude) <==> !MustStay(s, exclude, e)
  {
    hide Ledger, PageOk, LocalOk, Targets, BornBelow, Extents, NoReleaseUnderway;
    var id := s.ext[e];
    assert id in s.table;
    RangeAtRest(s, id);
    NotUnallocated(s, id);
    hide Structure;
    TargetsExactly(s, exclude, id);
  }

  lemma NotUnallocated(s: State, id: PageId)
    requires Inv(s) && id in s.table
    ensures !s.table[id].state.Unallocated?
  {
    hide Structure, Ledger, Holds, OwnsRange, Authoritative, TargetData;
    StructureAt(s, id, 0);
  }

  lemma WindowOrHeldBack(s: State, exclude: PageId, first: nat, n: nat)
    requires Inv(s) && NoReleaseUnderway(s)
    ensures Window(s, Targets(s.table, exclude), first, n) <==>
      first + n <= |s.store| && !HeldBack(s, exclude, first, n)
  {
    hide Inv, NoReleaseUnderway, Targets, MustStay;
    forall e | e in s.ext ensures s.ext[e] in Targets(s.table, exclude) <==> !MustStay(s, exclude, e) {
      StaysOrGoes(s, exclude, e);
    }
    assert forall e :: MustStay(s, exclude, e) ==> e in s.ext by { StayingIsOwned(s, exclude); }
  }

  lemma StayingIsOwned(s: State, exclude: PageId)
    ensures forall e :: MustStay(s, exclude, e) ==> e in s.ext
  {}

  lemma WindowsExactly(s: State, exclude: PageId, n: nat)
    requires Inv(s) && NoReleaseUnderway(s)
    ensures (exists first: nat :: Window(s, Targets(s.table, exclude), first, n)) <==> !NoWindow(s, exclude, n)
  {
    hide Inv, NoReleaseUnderway, Targets, Window, HeldBack;
    forall first: nat
      ensures Window(s, Targets(s.table, exclude), first, n) <==>
        first + n <= |s.store| && !HeldBack(s, exclude, first, n)
    {
      WindowOrHeldBack(s, exclude, first, n);
    }
  }

  /** Over reachable states with no release half done: a reservation is to be had
      exactly when some window holds no extent that must stay. */
  lemma ReachableRefusal(s: State, exclude: PageId, t: Tid, n: nat)
    requires Reachable(s) && NoReleaseUnderway(s) && (Idle(s, t) || IsBorn(s, t))
    ensures Releasable(s, exclude, Targets(s.table, exclude))
    ensures Obtainable(Reclaimed(s, Targets(s.table, exclude)), n, n * s.pageSize) <==> !NoWindow(s, exclude, n)
  {
    hide Inv, WholeSizes, CoversStore, NoReleaseUnderway, Obtainable, Window, Init, After, NoWindow;
    ReachableInv(s);
    var s0, steps :| Init(s0) && After(s0, steps) == Some(s);
    RunKeepsWhole(s0, steps);
    RefusedOnlyWithoutWindow(s, exclude, t, n);
    WindowsExactly(s, exclude, n);
  }
}
