/** Safety of the page-movement protocol over every step and every run: the
    invariant is kept, and no call a section makes can throw. */
module ProtocolSafety {
  import opened Collections
  import opened Pages
  import opened Protocol
  import opened ProtocolInvariant
  import opened ProtocolSteps

  // ------------------------------------------------- what a step is about

  /** The page a step is about; an identifier nobody has when it is about none. */
  function AllocFocus(s: State, step: AllocStep): PageId
    requires AllocEnabled(s, step)
  {
    match step
    case InsertVram(t) => s.locals[t].id
    case InsertHost(t, _) => s.locals[t].id
    case InsertNvme(t, _) => s.locals[t].id
    case _ => s.nextId
  }

  function ClaimFocus(s: State, step: ClaimStep): PageId
    requires ClaimEnabled(s, step)
  {
    match step
    case ClaimStaged(t) => s.locals[t].id
    case ClaimWriteback(_, id, _, _) => id
    case ClaimPromote(_, id, _, _) => id
    case _ => s.nextId
  }

  function CopyFocus(s: State, step: CopyStep): PageId
    requires CopyEnabled(s, step)
  {
    s.locals[step.t].id
  }

  function FreeFocus(s: State, step: FreeStep): PageId
    requires FreeEnabled(s, step)
  {
    match step
    case BeginFree(_, id) => id
    case DeviceFree(t, _) => s.locals[t].id
    case ClearVram(t) => s.locals[t].id
    case RefundVram(t) => s.locals[t].id
    case HostFree(t, _) => s.locals[t].id
    case ClearHost(t) => s.locals[t].id
    case FreeRange(t) => s.locals[t].id
    case ClearRange(t) => s.locals[t].id
    case RefundNvme(t) => s.locals[t].id
    case EndFree(t) => s.locals[t].id
  }

  /** Pinning may hit a page another thread is moving; the step is then about
      that thread's page. */
  function AccessThread(s: State, step: AccessStep): Tid
    requires AccessEnabled(s, step)
  {
    match step
    case Pin(t, id, _) => if s.table[id].flight.Some? then s.table[id].flight.value else t
    case _ => step.t
  }

  // -------------------------------------------------------------- dispatch

  lemma AllocSound(s: State, step: AllocStep)
    requires Inv(s) && AllocEnabled(s, step)
    ensures Sound(s, ApplyAlloc(s, step), AllocFocus(s, step), step.t)
  {
    Covered(s, AllocFocus(s, step), step.t);
    hide Structure, Ledger, Covers, Sound, Bounded;
    match step {
      case NewPage(t, logical, pinned) => NewPageSound(s, t, logical, pinned);
      case ReserveVram(t) => ReserveVramSound(s, t);
      case DeviceAlloc(t, h, junk) => DeviceAllocSound(s, t, h, junk);
      case DeviceAllocFails(t) => DeviceAllocFailsSound(s, t);
      case InsertVram(t) => InsertVramSound(s, t);
      case HostAlloc(t, h, junk) => HostAllocSound(s, t, h, junk);
      case InsertHost(t, tier) => InsertHostSound(s, t, tier);
      case InsertNvme(t, first) => InsertNvmeSound(s, t, first);
    }
  }

  lemma ClaimSound(s: State, step: ClaimStep)
    requires Inv(s) && ClaimEnabled(s, step)
    ensures Sound(s, ApplyClaim(s, step), ClaimFocus(s, step), step.t)
  {
    Covered(s, ClaimFocus(s, step), step.t);
    hide Structure, Ledger, Covers, Sound, Bounded;
    match step {
      case ReadSize(t, id, move, cause) => ReadSizeSound(s, t, id, move, cause);
      case GiveUp(t) => GiveUpSound(s, t);
      case StageHost(t, h, junk) => StageHostSound(s, t, h, junk);
      case Unstage(t) => UnstageSound(s, t);
      case ClaimStaged(t) => ClaimStagedSound(s, t);
      case ClaimWriteback(t, id, first, cause) =>
        if NeedsRange(s.table[id]) { ClaimFirstWritebackSound(s, t, id, first, cause); }
        else { ClaimWritebackSound(s, t, id, first, cause); }
      case ClaimPromote(t, id, h, junk) => ClaimPromoteSound(s, t, id, h, junk);
    }
  }

  lemma CopySound(s: State, step: CopyStep)
    requires Inv(s) && CopyEnabled(s, step)
    ensures Sound(s, ApplyCopy(s, step), CopyFocus(s, step), step.t)
  {
    Covered(s, CopyFocus(s, step), step.t);
    hide Structure, Ledger, Covers, Sound, Bounded;
    var t := step.t;
    match step {
      case Submit(_) => SubmitSound(s, t);
      case Scribble(_, junk) =>
        match s.locals[t].move {
          case ToVram => ScribbleVramSound(s, t, junk);
          case ToNvme(_) => ScribbleStoreSound(s, t, junk);
          case _ => ScribbleHostSound(s, t, junk);
        }
      case Retire(_, ok, junk) =>
        match s.locals[t].move {
          case ToVram => RetireVramSound(s, t, ok, junk);
          case ToNvme(_) => RetireStoreSound(s, t, ok, junk);
          case _ => RetireHostSound(s, t, ok, junk);
        }
      case Complete(_, tier) =>
        match s.locals[t].move {
          case ToHost => CompleteToHostSound(s, t, tier);
          case ToNvme(_) => CompleteToNvmeSound(s, t, tier);
          case FromNvme => CompleteFromNvmeSound(s, t, tier);
          case ToVram => CompleteToVramSound(s, t, tier);
        }
      case Fail(_) =>
        match s.locals[t].move {
          case ToVram => FailToVramSound(s, t);
          case ToNvme(_) => FailToNvmeSound(s, t);
          case _ => FailIntoHostSound(s, t);
        }
    }
  }

  lemma AccessSound(s: State, step: AccessStep)
    requires Inv(s) && AccessEnabled(s, step)
    ensures Sound(s, ApplyAccess(s, step), step.id, AccessThread(s, step))
  {
    Covered(s, step.id, AccessThread(s, step));
    hide Structure, Ledger, Covers, Sound, Bounded;
    match step {
      case Write(t, id, data) =>
        if s.table[id].state.ResidentHost? { WriteHostSound(s, t, id, data); } else { WriteVramSound(s, t, id, data); }
      case Read(t, id) => ReadSound(s, t, id);
      case Drop(t, id, cause) => DropSound(s, t, id, cause);
      case Pin(t, id, pinned) => PinSound(s, AccessThread(s, step), id, pinned);
      case Reclaim(t, id) => ReclaimSound(s, t, id);
    }
  }

  lemma FreeSound(s: State, step: FreeStep)
    requires Inv(s) && FreeEnabled(s, step)
    ensures Sound(s, ApplyFree(s, step), FreeFocus(s, step), step.t)
  {
    Covered(s, FreeFocus(s, step), step.t);
    hide Structure, Ledger, Covers, Sound, Bounded;
    match step {
      case BeginFree(t, id) => BeginFreeSound(s, t, id);
      case DeviceFree(t, ok) => if ok { DeviceFreeSound(s, t); } else { DeviceFreeFailsSound(s, t); }
      case ClearVram(t) => ClearVramSound(s, t);
      case RefundVram(t) => RefundVramSound(s, t);
      case HostFree(t, ok) => if ok { HostFreeSound(s, t); } else { HostFreeFailsSound(s, t); }
      case ClearHost(t) => ClearHostSound(s, t);
      case FreeRange(t) => FreeRangeSound(s, t);
      case ClearRange(t) => ClearRangeSound(s, t);
      case RefundNvme(t) => RefundNvmeSound(s, t);
      case EndFree(t) => EndFreeSound(s, t);
    }
  }

  lemma PageIgnoresSearch(s: State, c: map<Tid, Search>, id: PageId)
    requires id in s.table && PageOk(s, id)
    ensures PageOk(s.(cands := c), id)
  {
    hide Holds, OwnsRange, Shape;
  }

  lemma LocalIgnoresSearch(s: State, c: map<Tid, Search>, t: Tid)
    requires t in s.locals && LocalOk(s, t)
    ensures LocalOk(s.(cands := c), t)
  {
    hide Holds;
  }

  lemma ChargeIgnoresSearch(s: State, c: map<Tid, Search>, id: PageId, t: Tid)
    ensures var s' := s.(cands := c);
      && PageVram(s', id) == PageVram(s, id) && HeldVram(s', t) == HeldVram(s, t)
      && PageRam(s', id) == PageRam(s, id) && HeldRam(s', t) == HeldRam(s, t)
      && PageNvme(s', id) == PageNvme(s, id) && HeldNvme(s', t) == HeldNvme(s, t)
  {}

  lemma LedgerIgnoresSearch(s: State, c: map<Tid, Search>)
    requires Ledger(s)
    ensures Ledger(s.(cands := c))
  {
    hide Total, PageVram, PageRam, PageNvme, HeldVram, HeldRam, HeldNvme;
    var s' := s.(cands := c);
    forall i { ChargeIgnoresSearch(s, c, i, i); }
    assert PagesVram(s') == PagesVram(s) && ThreadsVram(s') == ThreadsVram(s);
    assert PagesRam(s') == PagesRam(s) && ThreadsRam(s') == ThreadsRam(s);
    assert PagesNvme(s') == PagesNvme(s) && ThreadsNvme(s') == ThreadsNvme(s);
  }

  /** The victim search only remembers; it changes nothing the invariant reads. */
  lemma SearchKeeps(s: State, c: map<Tid, Search>)
    requires Inv(s)
    ensures Inv(s.(cands := c))
  {
    hide PageOk, LocalOk, Ledger, BornBelow;
    LedgerIgnoresSearch(s, c);
    var s' := s.(cands := c);
    forall id | id in s'.table ensures PageOk(s', id) { PageIgnoresSearch(s, c, id); }
    forall t | t in s'.locals ensures LocalOk(s', t) { LocalIgnoresSearch(s, c, t); }
  }

  lemma AllocKeepsInv(s: State, step: AllocStep)
    requires Inv(s) && AllocEnabled(s, step)
    ensures Inv(ApplyAlloc(s, step))
  {
    hide Inv, Sound, AllocEnabled, ApplyAlloc;
    AllocSound(s, step);
    Preserves(s, ApplyAlloc(s, step), AllocFocus(s, step), step.t);
  }

  lemma ClaimKeepsInv(s: State, step: ClaimStep)
    requires Inv(s) && ClaimEnabled(s, step)
    ensures Inv(ApplyClaim(s, step))
  {
    hide Inv, Sound, ClaimEnabled, ApplyClaim;
    ClaimSound(s, step);
    Preserves(s, ApplyClaim(s, step), ClaimFocus(s, step), step.t);
  }

  lemma CopyKeepsInv(s: State, step: CopyStep)
    requires Inv(s) && CopyEnabled(s, step)
    ensures Inv(ApplyCopy(s, step))
  {
    hide Inv, Sound, CopyEnabled, ApplyCopy;
    CopySound(s, step);
    Preserves(s, ApplyCopy(s, step), CopyFocus(s, step), step.t);
  }

  lemma AccessKeepsInv(s: State, step: AccessStep)
    requires Inv(s) && AccessEnabled(s, step)
    ensures Inv(ApplyAccess(s, step))
  {
    hide Inv, Sound, AccessEnabled, ApplyAccess;
    AccessSound(s, step);
    Preserves(s, ApplyAccess(s, step), step.id, AccessThread(s, step));
  }

  lemma FreeKeepsInv(s: State, step: FreeStep)
    requires Inv(s) && FreeEnabled(s, step)
    ensures Inv(ApplyFree(s, step))
  {
    hide Inv, Sound, FreeEnabled, ApplyFree;
    FreeSound(s, step);
    Preserves(s, ApplyFree(s, step), FreeFocus(s, step), step.t);
  }

  /** Every step of every thread keeps the invariant. */
  lemma StepKeepsInv(s: State, step: Step)
    requires Inv(s) && Enabled(s, step)
    ensures Inv(Apply(s, step))
  {
    hide Inv;
    hide AllocEnabled, ClaimEnabled, CopyEnabled, AccessEnabled, FreeEnabled;
    hide ApplyAlloc, ApplyClaim, ApplyCopy, ApplyAccess, ApplyFree;
    match step {
      case Allocating(a) => AllocKeepsInv(s, a);
      case Claiming(c) => ClaimKeepsInv(s, c);
      case Copying(k) => CopyKeepsInv(s, k);
      case Accessing(x) => AccessKeepsInv(s, x);
      case Freeing(f) => FreeKeepsInv(s, f);
      case Searching(v) => SearchKeeps(s, ApplySearch(s, v).cands);
    }
  }

  // --------------------------------------------------- no section ever throws

  /** A store operation is running on extent `e`. */
  ghost predicate ActiveIo(s: State, e: nat) {
    exists t :: t in s.locals && IoCovers(s, s.locals[t], e)
  }

  predicate IoCovers(s: State, l: Local, e: nat) {
    && l.Moving? && l.io.Active? && (l.move.ToNvme? || l.move.FromNvme?) && l.snap.offset.Some?
    && l.snap.offset.value <= e < l.snap.offset.value + Extents(l.snap.size, s.pageSize)
  }

  /** `free_extents` accepts the range: every extent allocated, none busy. */
  ghost predicate RangeFreeable(s: State, first: nat, n: nat) {
    forall e :: first <= e < first + n ==> e in s.ext && !ActiveIo(s, e)
  }

  /** `HostBackend::free` knows the pointer by that size; the device knows the
      handle. */
  predicate Frees(bufs: map<Handle, Buffer>, h: Option<Handle>, bytes: nat) {
    h.Some? && h.value in bufs && bufs[h.value].bytes == bytes
  }

  function NewEntry(l: Local): Page
    requires l.Born? || l.DeviceHeld? || l.HostHeld?
  {
    FreshPage(l.id, l.bytes, l.pinned)
  }

  predicate AllocSafe(s: State, step: AllocStep)
    requires AllocEnabled(s, step)
  {
    match step
    case DeviceAllocFails(t) => s.locals[t].bytes <= s.vram.used
    case InsertVram(t) => s.locals[t].id !in s.table && CanMove(NewEntry(s.locals[t]), ResidentVram)
    case InsertHost(t, _) => s.locals[t].id !in s.table && CanMove(NewEntry(s.locals[t]), ResidentHost)
                             && s.locals[t].h in s.host
    case InsertNvme(t, _) => s.locals[t].id !in s.table && CanMove(NewEntry(s.locals[t]), ResidentNvme)
    case _ => true
  }

  /** A staged thread is in one of two places: asking for the tier of its buffer
      on the way to its claim, or giving the buffer back. */
  predicate ClaimSafe(s: State, step: ClaimStep)
    requires ClaimEnabled(s, step)
  {
    match step
    case Unstage(t) => Frees(s.host, Some(s.locals[t].h), s.locals[t].bytes) && s.locals[t].bytes <= s.ram.used
    case ClaimStaged(t) => Frees(s.host, Some(s.locals[t].h), s.locals[t].bytes)
                           && CanMove(s.table[s.locals[t].id], TransferState(s.locals[t].move))
                           && s.table[s.locals[t].id].host.None?
    case ClaimWriteback(_, id, _, _) => CanMove(s.table[id], EvictingToNvme)
                                        && (!NeedsRange(s.table[id]) ==> s.table[id].offset.Some?)
    case ClaimPromote(_, id, _, _) => CanMove(s.table[id], LoadingToVram) && s.table[id].vram.None?
    case _ => true
  }

  /** The settlement frees exactly the buffers its snapshot names, all of them
      live and of the recorded size, and moves the page legally. */
  predicate CopySafe(s: State, step: CopyStep)
    requires CopyEnabled(s, step)
  {
    var l := s.locals[step.t];
    var p := s.table[l.id];
    match step
    case Complete(_, _) =>
      CanMove(p, TargetState(l.move))
      && (l.move.ToHost? ==> Frees(s.dev, l.snap.vram, l.snap.size) && l.snap.size <= s.vram.used)
      && (l.move.ToNvme? || l.move.ToVram? ==> Frees(s.host, l.snap.host, l.snap.size) && l.snap.size <= s.ram.used)
    case Fail(_) =>
      CanMove(p, Error)
      && (l.move.ToVram? ==> Frees(s.dev, l.snap.vram, l.snap.size) && l.snap.size <= s.vram.used)
      && (l.move.ToHost? || l.move.FromNvme? ==> Frees(s.host, l.snap.host, l.snap.size) && l.snap.size <= s.ram.used)
    case _ => true
  }

  ghost predicate AccessSafe(s: State, step: AccessStep)
    requires AccessEnabled(s, step)
  {
    var p := s.table[step.id];
    match step
    case Drop(_, _, _) => CanMove(p, ResidentNvme) && Frees(s.dev, p.vram, p.size) && p.size <= s.vram.used
    case Reclaim(_, _) => RangeFreeable(s, p.offset.value, Extents(p.size, s.pageSize)) && p.size <= s.nvme.used
    case Write(_, _, _) =>
      if p.state.ResidentHost? then Frees(s.host, p.host, p.size) else Frees(s.dev, p.vram, p.size)
    case Read(_, _) =>
      if p.state.ResidentHost? then Frees(s.host, p.host, p.size) else Frees(s.dev, p.vram, p.size)
    case Pin(_, _, _) => true
  }

  ghost predicate FreeSafe(s: State, step: FreeStep)
    requires FreeEnabled(s, step)
  {
    match step
    case BeginFree(_, id) => s.table[id].state.Released? || CanMove(s.table[id], Released)
    case DeviceFree(t, _) => Frees(s.dev, s.locals[t].snap.vram, s.locals[t].snap.size)
    case RefundVram(t) => s.locals[t].snap.size <= s.vram.used
    case HostFree(t, _) => Frees(s.host, s.locals[t].snap.host, s.locals[t].snap.size)
                           && s.locals[t].snap.size <= s.ram.used
    case FreeRange(t) => s.locals[t].snap.offset.Some?
                         && RangeFreeable(s, s.locals[t].snap.offset.value, Extents(s.locals[t].snap.size, s.pageSize))
    case RefundNvme(t) => s.locals[t].snap.size <= s.nvme.used
    case _ => true
  }

  /** Every `transition`, budget release, buffer free, extent free and table
      insert that the step makes is accepted by its callee. */
  ghost predicate NothingThrows(s: State, step: Step)
    requires Enabled(s, step)
  {
    match step
    case Allocating(a) => AllocSafe(s, a)
    case Claiming(c) => ClaimSafe(s, c)
    case Copying(k) => CopySafe(s, k)
    case Accessing(x) => AccessSafe(s, x)
    case Freeing(f) => FreeSafe(s, f)
    case Searching(_) => true
  }

  /** No store operation is waited for on the extents of a page that no transfer
      is moving. That an operation whose status is known no longer counts as I/O
      in the store is `ExtentStore.NvmeBackend.FinishedRangeIsFreeable`. */
  lemma SettledPageHasNoIo(s: State, id: PageId)
    requires Structure(s) && id in s.table && !s.table[id].state.EvictingToNvme? && !s.table[id].state.LoadingToHost?
    requires LiveRange(s.table[id], Carrier(s, s.table[id])).Some?
    ensures RangeFreeable(s, LiveRange(s.table[id], Carrier(s, s.table[id])).value,
                          Extents(s.table[id].size, s.pageSize))
  {
    var r := LiveRange(s.table[id], Carrier(s, s.table[id])).value;
    forall e | r <= e < r + Extents(s.table[id].size, s.pageSize) ensures e in s.ext && !ActiveIo(s, e) {
      assert PageOk(s, id);
      assert e in s.ext && s.ext[e] == id;
      forall t | t in s.locals && IoCovers(s, s.locals[t], e) ensures false {
        MovedPageOwnsItsIo(s, t, e);
      }
    }
  }

  lemma MovedPageOwnsItsIo(s: State, t: Tid, e: nat)
    requires Structure(s) && t in s.locals && IoCovers(s, s.locals[t], e)
    ensures e in s.ext && s.ext[e] in s.table && s.ext[e] == s.locals[t].id
    ensures s.table[s.ext[e]].state.EvictingToNvme? || s.table[s.ext[e]].state.LoadingToHost?
  {
    hide Holds, Authoritative, TargetData;
    var id := s.locals[t].id;
    assert LocalOk(s, t);
    assert PageOk(s, id);
    assert Carries(s.locals[t], id, s.table[id]);
  }

  lemma AllocNeverThrows(s: State, step: AllocStep)
    requires Inv(s) && AllocEnabled(s, step)
    ensures AllocSafe(s, step)
  {
    hide Structure, Ledger;
    Covered(s, s.nextId, step.t);
    StructureAt(s, s.nextId, step.t);
  }

  lemma ClaimNeverThrows(s: State, step: ClaimStep)
    requires Inv(s) && ClaimEnabled(s, step)
    ensures ClaimSafe(s, step)
  {
    hide Structure, Ledger, Holds, OwnsRange, Authoritative, TargetData;
    var id := ClaimFocus(s, step);
    Covered(s, id, step.t);
    StructureAt(s, id, step.t);
  }

  lemma CopyNeverThrows(s: State, step: CopyStep)
    requires Inv(s) && CopyEnabled(s, step)
    ensures CopySafe(s, step)
  {
    hide Structure, Ledger, Holds, OwnsRange, Authoritative, TargetData;
    var id := s.locals[step.t].id;
    Covered(s, id, step.t);
    StructureAt(s, id, step.t);
  }

  lemma AccessNeverThrows(s: State, step: AccessStep)
    requires Inv(s) && AccessEnabled(s, step)
    ensures AccessSafe(s, step)
  {
    hide Structure, Ledger, Holds, OwnsRange, Authoritative, TargetData, RangeFreeable;
    Covered(s, step.id, step.t);
    StructureAt(s, step.id, step.t);
    if step.Reclaim? { SettledPageHasNoIo(s, step.id); }
  }

  lemma FreeNeverThrows(s: State, step: FreeStep)
    requires Inv(s) && FreeEnabled(s, step)
    ensures FreeSafe(s, step)
  {
    hide Structure, Ledger, Holds, OwnsRange, Authoritative, TargetData, RangeFreeable;
    var id := FreeFocus(s, step);
    Covered(s, id, step.t);
    StructureAt(s, id, step.t);
    if step.FreeRange? {
      FreeRangeIsQuiet(s, step.t);
    }
  }

  lemma FreeRangeIsQuiet(s: State, t: Tid)
    requires Structure(s) && InPhase(s, t, DropRange)
    ensures s.locals[t].snap.offset.Some?
    ensures RangeFreeable(s, s.locals[t].snap.offset.value, Extents(s.locals[t].snap.size, s.pageSize))
  {
    var id := s.locals[t].id;
    StructureAt(s, id, t);
    SettledPageHasNoIo(s, id) by { hide Holds, OwnsRange, Authoritative, TargetData; }
  }

  /** In a state the invariant holds of, no enabled step can throw; in
      particular every state transition the runtime makes is legal. */
  lemma StepNeverThrows(s: State, step: Step)
    requires Inv(s) && Enabled(s, step)
    ensures NothingThrows(s, step)
  {
    hide Inv, AllocSafe, ClaimSafe, CopySafe, AccessSafe, FreeSafe;
    match step {
      case Allocating(a) => AllocNeverThrows(s, a);
      case Claiming(c) => ClaimNeverThrows(s, c);
      case Copying(k) => CopyNeverThrows(s, k);
      case Accessing(x) => AccessNeverThrows(s, x);
      case Freeing(f) => FreeNeverThrows(s, f);
      case Searching(_) =>
    }
  }
}
