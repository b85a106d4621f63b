/** Every step of the protocol keeps the invariant. Each lemma only looks at the
    page and the thread its step is about; `Frame` does the rest. */
module ProtocolSteps {
  import opened Collections
  import opened Pages
  import opened Protocol
  import opened ProtocolInvariant
  import opened ProtocolOps

  ghost predicate Sound(s: State, s': State, id: PageId, t: Tid) {
    OnlyTouches(s, s', id, t) && FocusOk(s', id, t) && Balanced(s, s', id, t) && Bounded(s')
  }

  /** What a step may rely on: the structure, and that refunds are covered. */
  ghost predicate Ready(s: State, id: PageId, t: Tid) {
    Structure(s) && Bounded(s) && Covers(s, id, t)
  }

  lemma Preserves(s: State, s': State, id: PageId, t: Tid)
    requires Inv(s) && Sound(s, s', id, t)
    ensures Inv(s')
  {
    Frame(s, s', id, t);
    LedgerFrame(s, s', id, t);
  }

  // ---------------------------------------------------------- allocate_page

  lemma NewPageSound(s: State, t: Tid, logical: nat, pinned: bool)
    requires CanNewPage(s, t, logical) && Ready(s, s.nextId, t)
    ensures Sound(s, DoNewPage(s, t, logical, pinned), s.nextId, t)
  {
    hide Structure, Holds, OwnsRange, BornBelow;
    hide BornFramed, TableFramed, LocalsFramed, BuffersFramed, ExtentsFramed, StoreFramed;
    var s' := DoNewPage(s, t, logical, pinned);
    var id := s.nextId;
    StructureAt(s, id, t);
    Kept(s, id, t);
    LocalSet(s.locals, t, s'.locals[t]);
    IdHandedOut(s.born, s.nextId, s'.born[id]);
  }

  lemma ReserveVramSound(s: State, t: Tid)
    requires CanReserveVram(s, t) && Ready(s, s.nextId, t)
    ensures Sound(s, DoReserveVram(s, t), s.nextId, t)
  {
    hide Structure, Holds, OwnsRange, BornBelow;
    hide BornFramed, TableFramed, LocalsFramed, BuffersFramed, ExtentsFramed, StoreFramed;
    var s' := DoReserveVram(s, t);
    var id := s.nextId;
    StructureAt(s, id, t);
    Kept(s, id, t);
    LocalSet(s.locals, t, s'.locals[t]);
  }

  lemma DeviceAllocSound(s: State, t: Tid, h: Handle, junk: Content)
    requires CanDeviceAlloc(s, t, h, junk) && Ready(s, s.nextId, t)
    ensures Sound(s, DoDeviceAlloc(s, t, h, junk), s.nextId, t)
  {
    hide Structure, Holds, OwnsRange, BornBelow;
    hide BornFramed, TableFramed, LocalsFramed, BuffersFramed, ExtentsFramed, StoreFramed;
    var s' := DoDeviceAlloc(s, t, h, junk);
    var id := s.nextId;
    StructureAt(s, id, t);
    Kept(s, id, t);
    LocalSet(s.locals, t, s'.locals[t]);
    BufferAdded(s.dev, h, s'.dev[h], id, t);
  }

  lemma DeviceAllocFailsSound(s: State, t: Tid)
    requires IsReserved(s, t) && Ready(s, s.nextId, t)
    ensures Sound(s, DoDeviceAllocFails(s, t), s.nextId, t)
  {
    hide Structure, Holds, OwnsRange, BornBelow;
    hide BornFramed, TableFramed, LocalsFramed, BuffersFramed, ExtentsFramed, StoreFramed;
    var s' := DoDeviceAllocFails(s, t);
    var id := s.nextId;
    StructureAt(s, id, t);
    Kept(s, id, t);
    LocalSet(s.locals, t, s.locals[t]);
  }

  lemma InsertVramSound(s: State, t: Tid)
    requires CanInsertVram(s, t) && Ready(s, s.locals[t].id, t)
    ensures Sound(s, DoInsertVram(s, t), s.locals[t].id, t)
  {
    hide Structure, Holds, OwnsRange, BornBelow;
    hide BornFramed, TableFramed, LocalsFramed, BuffersFramed, ExtentsFramed, StoreFramed;
    var s' := DoInsertVram(s, t);
    var l := s.locals[t];
    var id := l.id;
    StructureAt(s, id, t);
    Kept(s, id, t);
    TableSet(s.table, id, s'.table[id]);
    LocalSet(s.locals, t, s.locals[t]);
    BufferGiven(s.dev, l.h, id, t);
  }

  lemma HostAllocSound(s: State, t: Tid, h: Handle, junk: Content)
    requires CanHostAlloc(s, t, h, junk) && Ready(s, s.nextId, t)
    ensures Sound(s, DoHostAlloc(s, t, h, junk), s.nextId, t)
  {
    hide Structure, Holds, OwnsRange, BornBelow;
    hide BornFramed, TableFramed, LocalsFramed, BuffersFramed, ExtentsFramed, StoreFramed;
    var s' := DoHostAlloc(s, t, h, junk);
    var id := s.nextId;
    StructureAt(s, id, t);
    Kept(s, id, t);
    LocalSet(s.locals, t, s'.locals[t]);
    BufferAdded(s.host, h, s'.host[h], id, t);
  }

  lemma InsertHostSound(s: State, t: Tid, tier: Tier)
    requires CanInsertHost(s, t) && Ready(s, s.locals[t].id, t)
    ensures Sound(s, DoInsertHost(s, t, tier), s.locals[t].id, t)
  {
    hide Structure, Holds, OwnsRange, BornBelow;
    hide BornFramed, TableFramed, LocalsFramed, BuffersFramed, ExtentsFramed, StoreFramed;
    var s' := DoInsertHost(s, t, tier);
    var l := s.locals[t];
    var id := l.id;
    StructureAt(s, id, t);
    Kept(s, id, t);
    TableSet(s.table, id, s'.table[id]);
    LocalSet(s.locals, t, s.locals[t]);
    BufferGiven(s.host, l.h, id, t);
  }

  lemma InsertNvmeSound(s: State, t: Tid, first: nat)
    requires CanInsertNvme(s, t, first) && Ready(s, s.locals[t].id, t)
    ensures Sound(s, DoInsertNvme(s, t, first), s.locals[t].id, t)
  {
    hide Structure, Holds, OwnsRange, BornBelow;
    hide BornFramed, TableFramed, LocalsFramed, BuffersFramed, ExtentsFramed, StoreFramed;
    var s' := DoInsertNvme(s, t, first);
    var l := s.locals[t];
    var id := l.id;
    StructureAt(s, id, t);
    Kept(s, id, t);
    TableSet(s.table, id, s'.table[id]);
    LocalSet(s.locals, t, s.locals[t]);
    RangeOwned(s, first, Extents(l.bytes, s.pageSize), 0, id);
  }

  // ----------------------------------------------------------------- claims

  lemma GiveUpSound(s: State, t: Tid)
    requires (IsBorn(s, t) || IsSized(s, t)) && Ready(s, s.nextId, t)
    ensures Sound(s, WithoutLocal(s, t), s.nextId, t)
  {
    hide Structure, Holds, OwnsRange, BornBelow;
    hide BornFramed, TableFramed, LocalsFramed, BuffersFramed, ExtentsFramed, StoreFramed;
    var s' := WithoutLocal(s, t);
    var id := s.nextId;
    StructureAt(s, id, t);
    Kept(s, id, t);
    LocalSet(s.locals, t, s.locals[t]);
  }

  lemma ReadSizeSound(s: State, t: Tid, id: PageId, move: Move, cause: Cause)
    requires CanReadSize(s, t, id, move, cause) && Ready(s, s.nextId, t)
    ensures Sound(s, DoReadSize(s, t, id, move, cause), s.nextId, t)
  {
    hide Structure, Holds, OwnsRange, BornBelow;
    hide BornFramed, TableFramed, LocalsFramed, BuffersFramed, ExtentsFramed, StoreFramed;
    var s' := DoReadSize(s, t, id, move, cause);
    var next := s.nextId;
    StructureAt(s, next, t);
    Kept(s, next, t);
    LocalSet(s.locals, t, s'.locals[t]);
    StructureAt(s, id, t);
  }

  lemma StageHostSound(s: State, t: Tid, h: Handle, junk: Content)
    requires CanStageHost(s, t, h, junk) && Ready(s, s.nextId, t)
    ensures Sound(s, DoStageHost(s, t, h, junk), s.nextId, t)
  {
    hide Structure, Holds, OwnsRange, BornBelow;
    hide BornFramed, TableFramed, LocalsFramed, BuffersFramed, ExtentsFramed, StoreFramed;
    var s' := DoStageHost(s, t, h, junk);
    var id := s.nextId;
    StructureAt(s, id, t);
    Kept(s, id, t);
    LocalSet(s.locals, t, s'.locals[t]);
    BufferAdded(s.host, h, s'.host[h], id, t);
  }

  lemma UnstageSound(s: State, t: Tid)
    requires IsStaged(s, t) && Ready(s, s.nextId, t)
    ensures Sound(s, DoUnstage(s, t), s.nextId, t)
  {
    hide Structure, Holds, OwnsRange, BornBelow;
    hide BornFramed, TableFramed, LocalsFramed, BuffersFramed, ExtentsFramed, StoreFramed;
    var s' := DoUnstage(s, t);
    var id := s.nextId;
    StructureAt(s, id, t);
    Kept(s, id, t);
    LocalSet(s.locals, t, s.locals[t]);
    BufferRemoved(s.host, s.locals[t].h, OfThread(t), id, t);
  }

  lemma ClaimStagedSound(s: State, t: Tid)
    requires CanClaimStaged(s, t) && Ready(s, s.locals[t].id, t)
    ensures Sound(s, DoClaimStaged(s, t), s.locals[t].id, t)
  {
    hide Structure, Holds, OwnsRange, BornBelow;
    hide BornFramed, TableFramed, LocalsFramed, BuffersFramed, ExtentsFramed, StoreFramed;
    var s' := DoClaimStaged(s, t);
    var l := s.locals[t];
    var id := l.id;
    StructureAt(s, id, t);
    Kept(s, id, t);
    TableSet(s.table, id, s'.table[id]);
    LocalSet(s.locals, t, s'.locals[t]);
    BufferGiven(s.host, l.h, id, t);
  }

  lemma ClaimFirstWritebackSound(s: State, t: Tid, id: PageId, first: nat, cause: Cause)
    requires CanClaimWriteback(s, t, id, first, cause) && Ready(s, id, t)
    requires NeedsRange(s.table[id])
    ensures Sound(s, DoClaimWriteback(s, t, id, first), id, t)
  {
    hide Structure, Holds, OwnsRange, BornBelow;
    hide BornFramed, TableFramed, LocalsFramed, BuffersFramed, ExtentsFramed, StoreFramed;
    var s' := DoClaimWriteback(s, t, id, first);
    StructureAt(s, id, t);
    Kept(s, id, t);
    TableSet(s.table, id, s'.table[id]);
    LocalSet(s.locals, t, s'.locals[t]);
    var n := Extents(s.table[id].size, s.pageSize);
    RangeOwned(s, first, n, n, id);
  }

  lemma ClaimWritebackSound(s: State, t: Tid, id: PageId, first: nat, cause: Cause)
    requires CanClaimWriteback(s, t, id, first, cause) && Ready(s, id, t)
    requires !NeedsRange(s.table[id])
    ensures Sound(s, DoClaimWriteback(s, t, id, first), id, t)
  {
    hide Structure, Holds, OwnsRange, BornBelow;
    hide BornFramed, TableFramed, LocalsFramed, BuffersFramed, ExtentsFramed, StoreFramed;
    var s' := DoClaimWriteback(s, t, id, first);
    StructureAt(s, id, t);
    Kept(s, id, t);
    TableSet(s.table, id, s'.table[id]);
    LocalSet(s.locals, t, s'.locals[t]);
  }

  lemma ClaimPromoteSound(s: State, t: Tid, id: PageId, h: Handle, junk: Content)
    requires CanClaimPromote(s, t, id, h, junk) && Ready(s, id, t)
    ensures Sound(s, DoClaimPromote(s, t, id, h, junk), id, t)
  {
    hide Structure, Holds, OwnsRange, BornBelow;
    hide BornFramed, TableFramed, LocalsFramed, BuffersFramed, ExtentsFramed, StoreFramed;
    var s' := DoClaimPromote(s, t, id, h, junk);
    StructureAt(s, id, t);
    Kept(s, id, t);
    TableSet(s.table, id, s'.table[id]);
    LocalSet(s.locals, t, s'.locals[t]);
    BufferAdded(s.dev, h, s'.dev[h], id, t);
  }

  // ------------------------------------------------- the copy and its settlement

  lemma SubmitSound(s: State, t: Tid)
    requires CanSubmit(s, t) && Ready(s, s.locals[t].id, t)
    ensures Sound(s, DoSubmit(s, t), s.locals[t].id, t)
  {
    hide Structure, Holds, OwnsRange, BornBelow;
    hide BornFramed, TableFramed, LocalsFramed, BuffersFramed, ExtentsFramed, StoreFramed;
    var s' := DoSubmit(s, t);
    var l := s.locals[t];
    var id := l.id;
    StructureAt(s, id, t);
    Kept(s, id, t);
    LocalSet(s.locals, t, s'.locals[t]);
  }

  lemma ScribbleHostSound(s: State, t: Tid, junk: Content)
    requires CanCopy(s, t, junk) && Ready(s, s.locals[t].id, t)
    requires s.locals[t].move.ToHost? || s.locals[t].move.FromNvme?
    ensures Sound(s, DoScribble(s, t, junk), s.locals[t].id, t)
  {
    hide Structure, Holds, OwnsRange, BornBelow;
    hide BornFramed, TableFramed, LocalsFramed, BuffersFramed, ExtentsFramed, StoreFramed;
    var s' := DoScribble(s, t, junk);
    var l := s.locals[t];
    var id := l.id;
    StructureAt(s, id, t);
    Kept(s, id, t);
    BufferWritten(s.host, l.snap.host.value, junk, id, t);
  }

  lemma ScribbleVramSound(s: State, t: Tid, junk: Content)
    requires CanCopy(s, t, junk) && Ready(s, s.locals[t].id, t)
    requires s.locals[t].move.ToVram?
    ensures Sound(s, DoScribble(s, t, junk), s.locals[t].id, t)
  {
    hide Structure, Holds, OwnsRange, BornBelow;
    hide BornFramed, TableFramed, LocalsFramed, BuffersFramed, ExtentsFramed, StoreFramed;
    var s' := DoScribble(s, t, junk);
    var l := s.locals[t];
    var id := l.id;
    StructureAt(s, id, t);
    Kept(s, id, t);
    BufferWritten(s.dev, l.snap.vram.value, junk, id, t);
  }

  lemma ScribbleStoreSound(s: State, t: Tid, junk: Content)
    requires CanCopy(s, t, junk) && Ready(s, s.locals[t].id, t)
    requires s.locals[t].move.ToNvme?
    ensures Sound(s, DoScribble(s, t, junk), s.locals[t].id, t)
  {
    hide Structure, Holds, OwnsRange, BornBelow;
    hide BornFramed, TableFramed, LocalsFramed, BuffersFramed, ExtentsFramed, StoreFramed;
    var s' := DoScribble(s, t, junk);
    var l := s.locals[t];
    var id := l.id;
    StructureAt(s, id, t);
    Kept(s, id, t);
    RangeWritten(s, l.snap.offset.value, junk, id);
  }

  lemma RetireHostSound(s: State, t: Tid, ok: bool, junk: Content)
    requires CanCopy(s, t, junk) && Ready(s, s.locals[t].id, t)
    requires s.locals[t].move.ToHost? || s.locals[t].move.FromNvme?
    ensures Sound(s, DoRetire(s, t, ok, junk), s.locals[t].id, t)
  {
    hide Structure, Holds, OwnsRange, BornBelow;
    hide BornFramed, TableFramed, LocalsFramed, BuffersFramed, ExtentsFramed, StoreFramed;
    var s' := DoRetire(s, t, ok, junk);
    var l := s.locals[t];
    var id := l.id;
    StructureAt(s, id, t);
    Kept(s, id, t);
    LocalSet(s.locals, t, s'.locals[t]);
    BufferWritten(s.host, l.snap.host.value, if ok then SourceData(s, l.move, l.snap) else junk, id, t);
  }

  lemma RetireVramSound(s: State, t: Tid, ok: bool, junk: Content)
    requires CanCopy(s, t, junk) && Ready(s, s.locals[t].id, t)
    requires s.locals[t].move.ToVram?
    ensures Sound(s, DoRetire(s, t, ok, junk), s.locals[t].id, t)
  {
    hide Structure, Holds, OwnsRange, BornBelow;
    hide BornFramed, TableFramed, LocalsFramed, BuffersFramed, ExtentsFramed, StoreFramed;
    var s' := DoRetire(s, t, ok, junk);
    var l := s.locals[t];
    var id := l.id;
    StructureAt(s, id, t);
    Kept(s, id, t);
    LocalSet(s.locals, t, s'.locals[t]);
    BufferWritten(s.dev, l.snap.vram.value, if ok then SourceData(s, l.move, l.snap) else junk, id, t);
  }

  lemma RetireStoreSound(s: State, t: Tid, ok: bool, junk: Content)
    requires CanCopy(s, t, junk) && Ready(s, s.locals[t].id, t)
    requires s.locals[t].move.ToNvme?
    ensures Sound(s, DoRetire(s, t, ok, junk), s.locals[t].id, t)
  {
    hide Structure, Holds, OwnsRange, BornBelow;
    hide BornFramed, TableFramed, LocalsFramed, BuffersFramed, ExtentsFramed, StoreFramed;
    var s' := DoRetire(s, t, ok, junk);
    var l := s.locals[t];
    var id := l.id;
    StructureAt(s, id, t);
    Kept(s, id, t);
    LocalSet(s.locals, t, s'.locals[t]);
    RangeWritten(s, l.snap.offset.value, if ok then SourceData(s, l.move, l.snap) else junk, id);
  }

  lemma CompleteToHostSound(s: State, t: Tid, tier: Tier)
    requires CanComplete(s, t) && Ready(s, s.locals[t].id, t)
    requires s.locals[t].move.ToHost?
    ensures Sound(s, DoComplete(s, t, tier), s.locals[t].id, t)
  {
    hide Structure, Holds, OwnsRange, BornBelow;
    hide BornFramed, TableFramed, LocalsFramed, BuffersFramed, ExtentsFramed, StoreFramed;
    var s' := DoComplete(s, t, tier);
    var l := s.locals[t];
    var id := l.id;
    StructureAt(s, id, t);
    Kept(s, id, t);
    TableSet(s.table, id, s'.table[id]);
    LocalSet(s.locals, t, s.locals[t]);
    BufferRemoved(s.dev, l.snap.vram.value, OfPage(id), id, t);
  }

  lemma CompleteToNvmeSound(s: State, t: Tid, tier: Tier)
    requires CanComplete(s, t) && Ready(s, s.locals[t].id, t)
    requires s.locals[t].move.ToNvme?
    ensures Sound(s, DoComplete(s, t, tier), s.locals[t].id, t)
  {
    hide Structure, Holds, OwnsRange, BornBelow;
    hide BornFramed, TableFramed, LocalsFramed, BuffersFramed, ExtentsFramed, StoreFramed;
    var s' := DoComplete(s, t, tier);
    var l := s.locals[t];
    var id := l.id;
    StructureAt(s, id, t);
    Kept(s, id, t);
    TableSet(s.table, id, s'.table[id]);
    LocalSet(s.locals, t, s.locals[t]);
    BufferRemoved(s.host, l.snap.host.value, OfPage(id), id, t);
  }

  lemma CompleteToVramSound(s: State, t: Tid, tier: Tier)
    requires CanComplete(s, t) && Ready(s, s.locals[t].id, t)
    requires s.locals[t].move.ToVram?
    ensures Sound(s, DoComplete(s, t, tier), s.locals[t].id, t)
  {
    hide Structure, Holds, OwnsRange, BornBelow;
    hide BornFramed, TableFramed, LocalsFramed, BuffersFramed, ExtentsFramed, StoreFramed;
    var s' := DoComplete(s, t, tier);
    var l := s.locals[t];
    var id := l.id;
    StructureAt(s, id, t);
    Kept(s, id, t);
    TableSet(s.table, id, s'.table[id]);
    LocalSet(s.locals, t, s.locals[t]);
    BufferRemoved(s.host, l.snap.host.value, OfPage(id), id, t);
  }

  lemma CompleteFromNvmeSound(s: State, t: Tid, tier: Tier)
    requires CanComplete(s, t) && Ready(s, s.locals[t].id, t)
    requires s.locals[t].move.FromNvme?
    ensures Sound(s, DoComplete(s, t, tier), s.locals[t].id, t)
  {
    hide Structure, Holds, OwnsRange, BornBelow;
    hide BornFramed, TableFramed, LocalsFramed, BuffersFramed, ExtentsFramed, StoreFramed;
    var s' := DoComplete(s, t, tier);
    var l := s.locals[t];
    var id := l.id;
    StructureAt(s, id, t);
    Kept(s, id, t);
    TableSet(s.table, id, s'.table[id]);
    LocalSet(s.locals, t, s.locals[t]);
  }

  lemma FailIntoHostSound(s: State, t: Tid)
    requires CanFail(s, t) && Ready(s, s.locals[t].id, t)
    requires s.locals[t].move.ToHost? || s.locals[t].move.FromNvme?
    ensures Sound(s, DoFail(s, t), s.locals[t].id, t)
  {
    hide Structure, Holds, OwnsRange, BornBelow;
    hide BornFramed, TableFramed, LocalsFramed, BuffersFramed, ExtentsFramed, StoreFramed;
    var s' := DoFail(s, t);
    var l := s.locals[t];
    var id := l.id;
    StructureAt(s, id, t);
    Kept(s, id, t);
    TableSet(s.table, id, s'.table[id]);
    LocalSet(s.locals, t, s.locals[t]);
    BufferRemoved(s.host, l.snap.host.value, OfPage(id), id, t);
  }

  lemma FailToVramSound(s: State, t: Tid)
    requires CanFail(s, t) && Ready(s, s.locals[t].id, t)
    requires s.locals[t].move.ToVram?
    ensures Sound(s, DoFail(s, t), s.locals[t].id, t)
  {
    hide Structure, Holds, OwnsRange, BornBelow;
    hide BornFramed, TableFramed, LocalsFramed, BuffersFramed, ExtentsFramed, StoreFramed;
    var s' := DoFail(s, t);
    var l := s.locals[t];
    var id := l.id;
    StructureAt(s, id, t);
    Kept(s, id, t);
    TableSet(s.table, id, s'.table[id]);
    LocalSet(s.locals, t, s.locals[t]);
    BufferRemoved(s.dev, l.snap.vram.value, OfPage(id), id, t);
  }

  lemma FailToNvmeSound(s: State, t: Tid)
    requires CanFail(s, t) && Ready(s, s.locals[t].id, t)
    requires s.locals[t].move.ToNvme?
    ensures Sound(s, DoFail(s, t), s.locals[t].id, t)
  {
    hide Structure, Holds, OwnsRange, BornBelow;
    hide BornFramed, TableFramed, LocalsFramed, BuffersFramed, ExtentsFramed, StoreFramed;
    var s' := DoFail(s, t);
    var l := s.locals[t];
    var id := l.id;
    StructureAt(s, id, t);
    Kept(s, id, t);
    TableSet(s.table, id, s'.table[id]);
    LocalSet(s.locals, t, s.locals[t]);
  }

  // ---------------------------------------------------- access and residency

  lemma WriteHostSound(s: State, t: Tid, id: PageId, data: Content)
    requires CanWrite(s, t, id, data) && Ready(s, id, t)
    requires s.table[id].state.ResidentHost?
    ensures Sound(s, DoWrite(s, t, id, data), id, t)
  {
    hide Structure, Holds, OwnsRange, BornBelow;
    hide BornFramed, TableFramed, LocalsFramed, BuffersFramed, ExtentsFramed, StoreFramed;
    var s' := DoWrite(s, t, id, data);
    StructureAt(s, id, t);
    Kept(s, id, t);
    TableSet(s.table, id, s'.table[id]);
    BufferWritten(s.host, s.table[id].host.value, data, id, t);
  }

  lemma WriteVramSound(s: State, t: Tid, id: PageId, data: Content)
    requires CanWrite(s, t, id, data) && Ready(s, id, t)
    requires s.table[id].state.ResidentVram?
    ensures Sound(s, DoWrite(s, t, id, data), id, t)
  {
    hide Structure, Holds, OwnsRange, BornBelow;
    hide BornFramed, TableFramed, LocalsFramed, BuffersFramed, ExtentsFramed, StoreFramed;
    var s' := DoWrite(s, t, id, data);
    StructureAt(s, id, t);
    Kept(s, id, t);
    TableSet(s.table, id, s'.table[id]);
    BufferWritten(s.dev, s.table[id].vram.value, data, id, t);
  }

  lemma ReadSound(s: State, t: Tid, id: PageId)
    requires CanAccess(s, t, id) && Ready(s, id, t)
    ensures Sound(s, DoRead(s, t, id), id, t)
  {
    hide Structure, Holds, OwnsRange, BornBelow;
    hide BornFramed, TableFramed, LocalsFramed, BuffersFramed, ExtentsFramed, StoreFramed;
    var s' := DoRead(s, t, id);
    StructureAt(s, id, t);
    Kept(s, id, t);
    TableSet(s.table, id, s'.table[id]);
  }

  lemma DropSound(s: State, t: Tid, id: PageId, cause: Cause)
    requires CanDrop(s, t, id, cause) && Ready(s, id, t)
    ensures Sound(s, DoDrop(s, t, id), id, t)
  {
    hide Structure, Holds, OwnsRange, BornBelow;
    hide BornFramed, TableFramed, LocalsFramed, BuffersFramed, ExtentsFramed, StoreFramed;
    var s' := DoDrop(s, t, id);
    StructureAt(s, id, t);
    Kept(s, id, t);
    TableSet(s.table, id, s'.table[id]);
    BufferRemoved(s.dev, s.table[id].vram.value, OfPage(id), id, t);
  }

  lemma PinKeepsPage(s: State, id: PageId, pinned: bool)
    requires id in s.table && PageOk(s, id)
    ensures PageOk(DoPin(s, id, pinned), id)
  {
    hide Holds, OwnsRange;
  }

  lemma PinSound(s: State, t: Tid, id: PageId, pinned: bool)
    requires id in s.table && Ready(s, id, t)
    requires s.table[id].flight == Some(t) || (s.table[id].flight.None? && Idle(s, t))
    ensures Sound(s, DoPin(s, id, pinned), id, t)
  {
    hide Structure, Holds, OwnsRange, BornBelow;
    hide BornFramed, TableFramed, LocalsFramed, BuffersFramed, ExtentsFramed, StoreFramed;
    var s' := DoPin(s, id, pinned);
    StructureAt(s, id, t);
    PinKeepsPage(s, id, pinned);
    hide PageOk;
    Kept(s, id, t);
    TableSet(s.table, id, s'.table[id]);
  }

  lemma ReclaimSound(s: State, t: Tid, id: PageId)
    requires CanReclaim(s, t, id) && Ready(s, id, t)
    ensures Sound(s, DoReclaim(s, t, id), id, t)
  {
    hide Structure, Holds, OwnsRange, BornBelow;
    hide BornFramed, TableFramed, LocalsFramed, BuffersFramed, ExtentsFramed, StoreFramed;
    var s' := DoReclaim(s, t, id);
    StructureAt(s, id, t);
    Kept(s, id, t);
    TableSet(s.table, id, s'.table[id]);
    var n := Extents(s.table[id].size, s.pageSize);
    RangeDisowned(s.ext, s.table[id].offset.value, n, n, id);
  }

  // -------------------------------------------------------------- free_page

  lemma BeginFreeKeepsPage(s: State, t: Tid, id: PageId)
    requires CanBeginFree(s, t, id) && PageOk(s, id)
    ensures PageOk(DoBeginFree(s, t, id), id)
  {
    hide Holds, OwnsRange, Authoritative, TargetData, DataIn, DataAt;
  }

  lemma BeginFreeSound(s: State, t: Tid, id: PageId)
    requires CanBeginFree(s, t, id) && Ready(s, id, t)
    ensures Sound(s, DoBeginFree(s, t, id), id, t)
  {
    hide Structure, Holds, OwnsRange, BornBelow;
    hide BornFramed, TableFramed, LocalsFramed, BuffersFramed, ExtentsFramed, StoreFramed;
    hide Authoritative, TargetData, DataIn, DataAt;
    var s' := DoBeginFree(s, t, id);
    StructureAt(s, id, t);
    BeginFreeKeepsPage(s, t, id);
    hide PageOk;
    Kept(s, id, t);
    TableSet(s.table, id, s'.table[id]);
    LocalSet(s.locals, t, s'.locals[t]);
  }

  lemma DeviceFreeSound(s: State, t: Tid)
    requires InPhase(s, t, DropVram) && Ready(s, s.locals[t].id, t)
    ensures Sound(s, DoDeviceFree(s, t, true), s.locals[t].id, t)
  {
    hide Structure, Holds, OwnsRange, BornBelow;
    hide BornFramed, TableFramed, LocalsFramed, BuffersFramed, ExtentsFramed, StoreFramed;
    hide Authoritative, TargetData, DataIn, DataAt;
    var s' := DoDeviceFree(s, t, true);
    var l := s.locals[t];
    var id := l.id;
    StructureAt(s, id, t);
    Kept(s, id, t);
    LocalSet(s.locals, t, s'.locals[t]);
    BufferRemoved(s.dev, l.snap.vram.value, OfPage(id), id, t);
  }

  lemma DeviceFreeFailsSound(s: State, t: Tid)
    requires InPhase(s, t, DropVram) && Ready(s, s.locals[t].id, t)
    ensures Sound(s, DoDeviceFree(s, t, false), s.locals[t].id, t)
  {
    hide Structure, Holds, OwnsRange, BornBelow;
    hide BornFramed, TableFramed, LocalsFramed, BuffersFramed, ExtentsFramed, StoreFramed;
    hide Authoritative, TargetData, DataIn, DataAt;
    var s' := DoDeviceFree(s, t, false);
    var l := s.locals[t];
    var id := l.id;
    StructureAt(s, id, t);
    Kept(s, id, t);
    LocalSet(s.locals, t, s'.locals[t]);
  }

  lemma ClearVramSound(s: State, t: Tid)
    requires InPhase(s, t, VramFreed) && Ready(s, s.locals[t].id, t)
    ensures Sound(s, DoClearVram(s, t), s.locals[t].id, t)
  {
    hide Structure, Holds, OwnsRange, BornBelow;
    hide BornFramed, TableFramed, LocalsFramed, BuffersFramed, ExtentsFramed, StoreFramed;
    hide Authoritative, TargetData, DataIn, DataAt;
    var s' := DoClearVram(s, t);
    var l := s.locals[t];
    var id := l.id;
    StructureAt(s, id, t);
    Kept(s, id, t);
    TableSet(s.table, id, s'.table[id]);
    LocalSet(s.locals, t, s'.locals[t]);
  }

  lemma RefundVramSound(s: State, t: Tid)
    requires InPhase(s, t, VramCleared) && Ready(s, s.locals[t].id, t)
    ensures Sound(s, DoRefundVram(s, t), s.locals[t].id, t)
  {
    hide Structure, Holds, OwnsRange, BornBelow;
    hide BornFramed, TableFramed, LocalsFramed, BuffersFramed, ExtentsFramed, StoreFramed;
    hide Authoritative, TargetData, DataIn, DataAt;
    var s' := DoRefundVram(s, t);
    var l := s.locals[t];
    var id := l.id;
    StructureAt(s, id, t);
    Kept(s, id, t);
    LocalSet(s.locals, t, s'.locals[t]);
  }

  lemma HostFreeSound(s: State, t: Tid)
    requires InPhase(s, t, DropHost) && Ready(s, s.locals[t].id, t)
    ensures Sound(s, DoHostFree(s, t, true), s.locals[t].id, t)
  {
    hide Structure, Holds, OwnsRange, BornBelow;
    hide BornFramed, TableFramed, LocalsFramed, BuffersFramed, ExtentsFramed, StoreFramed;
    hide Authoritative, TargetData, DataIn, DataAt;
    var s' := DoHostFree(s, t, true);
    var l := s.locals[t];
    var id := l.id;
    StructureAt(s, id, t);
    Kept(s, id, t);
    LocalSet(s.locals, t, s'.locals[t]);
    BufferRemoved(s.host, l.snap.host.value, OfPage(id), id, t);
  }

  lemma HostFreeFailsSound(s: State, t: Tid)
    requires InPhase(s, t, DropHost) && Ready(s, s.locals[t].id, t)
    ensures Sound(s, DoHostFree(s, t, false), s.locals[t].id, t)
  {
    hide Structure, Holds, OwnsRange, BornBelow;
    hide BornFramed, TableFramed, LocalsFramed, BuffersFramed, ExtentsFramed, StoreFramed;
    hide Authoritative, TargetData, DataIn, DataAt;
    var s' := DoHostFree(s, t, false);
    var l := s.locals[t];
    var id := l.id;
    StructureAt(s, id, t);
    Kept(s, id, t);
    LocalSet(s.locals, t, s'.locals[t]);
  }

  lemma ClearHostSound(s: State, t: Tid)
    requires InPhase(s, t, HostFreed) && Ready(s, s.locals[t].id, t)
    ensures Sound(s, DoClearHost(s, t), s.locals[t].id, t)
  {
    hide Structure, Holds, OwnsRange, BornBelow;
    hide BornFramed, TableFramed, LocalsFramed, BuffersFramed, ExtentsFramed, StoreFramed;
    hide Authoritative, TargetData, DataIn, DataAt;
    var s' := DoClearHost(s, t);
    var l := s.locals[t];
    var id := l.id;
    StructureAt(s, id, t);
    Kept(s, id, t);
    TableSet(s.table, id, s'.table[id]);
    LocalSet(s.locals, t, s'.locals[t]);
  }

  lemma FreeRangeSound(s: State, t: Tid)
    requires InPhase(s, t, DropRange) && Ready(s, s.locals[t].id, t)
    ensures Sound(s, DoFreeRange(s, t), s.locals[t].id, t)
  {
    hide Structure, Holds, OwnsRange, BornBelow;
    hide BornFramed, TableFramed, LocalsFramed, BuffersFramed, ExtentsFramed, StoreFramed;
    hide Authoritative, TargetData, DataIn, DataAt;
    var s' := DoFreeRange(s, t);
    var l := s.locals[t];
    var id := l.id;
    StructureAt(s, id, t);
    Kept(s, id, t);
    LocalSet(s.locals, t, s'.locals[t]);
    var n := Extents(l.snap.size, s.pageSize);
    RangeDisowned(s.ext, l.snap.offset.value, n, n, id);
  }

  lemma ClearRangeSound(s: State, t: Tid)
    requires InPhase(s, t, RangeFreed) && Ready(s, s.locals[t].id, t)
    ensures Sound(s, DoClearRange(s, t), s.locals[t].id, t)
  {
    hide Structure, Holds, OwnsRange, BornBelow;
    hide BornFramed, TableFramed, LocalsFramed, BuffersFramed, ExtentsFramed, StoreFramed;
    hide Authoritative, TargetData, DataIn, DataAt;
    var s' := DoClearRange(s, t);
    var l := s.locals[t];
    var id := l.id;
    StructureAt(s, id, t);
    Kept(s, id, t);
    TableSet(s.table, id, s'.table[id]);
    LocalSet(s.locals, t, s'.locals[t]);
  }

  lemma RefundNvmeSound(s: State, t: Tid)
    requires InPhase(s, t, RangeCleared) && Ready(s, s.locals[t].id, t)
    ensures Sound(s, DoRefundNvme(s, t), s.locals[t].id, t)
  {
    hide Structure, Holds, OwnsRange, BornBelow;
    hide BornFramed, TableFramed, LocalsFramed, BuffersFramed, ExtentsFramed, StoreFramed;
    hide Authoritative, TargetData, DataIn, DataAt;
    var s' := DoRefundNvme(s, t);
    var l := s.locals[t];
    var id := l.id;
    StructureAt(s, id, t);
    Kept(s, id, t);
    LocalSet(s.locals, t, s'.locals[t]);
  }

  lemma EndFreeSound(s: State, t: Tid)
    requires InPhase(s, t, Finish) && Ready(s, s.locals[t].id, t)
    ensures Sound(s, DoEndFree(s, t), s.locals[t].id, t)
  {
    hide Structure, Holds, OwnsRange, BornBelow;
    hide BornFramed, TableFramed, LocalsFramed, BuffersFramed, ExtentsFramed, StoreFramed;
    hide Authoritative, TargetData, DataIn, DataAt;
    var s' := DoEndFree(s, t);
    var l := s.locals[t];
    var id := l.id;
    StructureAt(s, id, t);
    Kept(s, id, t);
    LocalSet(s.locals, t, s.locals[t]);
    TableSet(s.table, id, s.table[id].(flight := None));
    if !l.failed { RangelessPage(s, id); }
  }
}
