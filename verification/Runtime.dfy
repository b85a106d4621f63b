/** The locked sections of src/runtime.cpp as methods that update the runtime's
    fields in place. Each is proved to be the step of the protocol it stands
    for, so everything proved about runs of steps holds of the methods; each
    call that could throw is proved not to. */
module Runtime {
  import opened Collections
  import opened Pages
  import opened Budgets
  import opened Protocol
  import opened ProtocolInvariant
  import opened ProtocolSafety
  import opened ProtocolSteps
  import opened Shutdown
  import opened Reclaim
  import opened StoreUsage

  // ----------------------------------- what each section may rely on and keeps

  lemma ClaimOk(s: State, step: ClaimStep)
    requires Inv(s) && ClaimEnabled(s, step)
    ensures Inv(ApplyClaim(s, step)) && ClaimSafe(s, step)
  {
    hide Same, Inv, ClaimEnabled, ApplyClaim, ClaimSafe;
    StepKeepsInv(s, Claiming(step));
    ClaimNeverThrows(s, step);
  }

  lemma WritebackOk(s: State, t: Tid, id: PageId, first: nat)
    requires Inv(s) && CanClaimWriteback(s, t, id, first, Direct)
    ensures id in s.table && CanMove(s.table[id], EvictingToNvme)
    ensures var s', p := DoClaimWriteback(s, t, id, first), s.table[id];
      && Inv(s') && s' == s.(ext := s'.ext, nvme := s'.nvme, table := s'.table, locals := s'.locals)
      && s'.ext == (if NeedsRange(p) then Own(s.ext, first, Extents(p.size, s.pageSize), id) else s.ext)
      && s'.nvme == (if NeedsRange(p) then Charge(s.nvme, p.size) else s.nvme)
      && s'.table == s.table[id := EvictingPage(p, t, first)]
      && s'.locals == s.locals[t := Moving(id, ToNvme(NeedsWrite(p)), EvictingPage(p, t, first), Unsent)]
  {
    hide Inv, CanMove, RangeFree, Fits, Candidates;
    ClaimOk(s, ClaimWriteback(t, id, first, Direct));
  }

  function EvictingPage(p: Page, t: Tid, first: nat): Page {
    Moved(p.(offset := if NeedsRange(p) then Some(first) else p.offset, flight := Some(t)), EvictingToNvme)
  }

  lemma CopyOk(s: State, step: CopyStep)
    requires Inv(s) && CopyEnabled(s, step)
    ensures Inv(ApplyCopy(s, step)) && CopySafe(s, step)
  {
    hide Same, Inv, CopyEnabled, ApplyCopy, CopySafe;
    StepKeepsInv(s, Copying(step));
    CopyNeverThrows(s, step);
  }

  lemma AccessOk(s: State, step: AccessStep)
    requires Inv(s) && AccessEnabled(s, step)
    ensures Inv(ApplyAccess(s, step)) && AccessSafe(s, step)
  {
    hide Same, Inv, AccessEnabled, ApplyAccess, AccessSafe;
    StepKeepsInv(s, Accessing(step));
    AccessNeverThrows(s, step);
  }

  /** Nothing the teardown of a page calls refuses its argument. */
  lemma TeardownNeverThrows(s: State, id: PageId)
    requires Inv(s) && Quiescent(s) && id in s.table
    ensures var p := s.table[id];
      && (p.host.Some? ==> Frees(s.host, p.host, p.size))
      && (p.vram.Some? ==> Frees(s.dev, p.vram, p.size) && p.size <= s.vram.used)
      && (p.offset.Some? ==> RangeFreeable(s, p.offset.value, Extents(p.size, s.pageSize)) && p.size <= s.nvme.used)
  {
    Covered(s, id, 0);
    StructureAt(s, id, 0);
    AtRest(s, id);
    hide Structure, Ledger, Holds, Authoritative, TargetData;
  }

  /** A refused device allocation leaves a high water mark and nothing else. */
  function Refused(s: State, bytes: nat): State {
    s.(vram := s.vram.(highWater := Charge(s.vram, bytes).highWater))
  }

  lemma RefusalSound(s: State, bytes: nat, id: PageId, t: Tid)
    requires Structure(s) && Bounded(s) && Idle(s, t) && Settled(s, id, ResidentHost)
    ensures Sound(s, Refused(s, bytes), id, t)
  {
    hide Structure, Holds, OwnsRange, BornBelow, DataIn, Slice, Shape;
    hide BornFramed, TableFramed, LocalsFramed, BuffersFramed, ExtentsFramed, StoreFramed;
    StructureAt(s, id, t);
    ProtocolOps.Kept(s, id, t);
  }

  lemma RefusalKeepsInv(s: State, bytes: nat, id: PageId, t: Tid)
    requires Inv(s) && Idle(s, t) && Settled(s, id, ResidentHost)
    ensures Inv(Refused(s, bytes))
  {
    hide Structure, Ledger, Sound, Refused;
    RefusalSound(s, bytes, id, t);
    Preserves(s, Refused(s, bytes), id, t);
  }

  lemma NoWindowDecides(s: State, exclude: PageId, t: Tid, n: nat)
    requires Inv(s) && InStep(s) && (Idle(s, t) || IsBorn(s, t))
    ensures Releasable(s, exclude, Targets(s.table, exclude))
    ensures Obtainable(Reclaimed(s, Targets(s.table, exclude)), n, n * s.pageSize) <==> !NoWindow(s, exclude, n)
  {
    hide Inv, WholeSizes, CoversStore, NoReleaseUnderway, Obtainable, Window, NoWindow;
    RefusedOnlyWithoutWindow(s, exclude, t, n);
    WindowsExactly(s, exclude, n);
  }

  /** A call of `transition` that is proved not to throw. */
  function Advance(p: Page, to: PageState): (r: Page)
    requires CanMove(p, to)
    ensures r == Moved(p, to)
  {
    Transition(p, to).value
  }

  /** Equality of states. Proofs treat it as an atom and establish it with
      `Itself`, so that no map has to be compared entry by entry. */
  ghost predicate Same(a: State, b: State) {
    a == b
  }

  lemma Itself(a: State)
    ensures Same(a, a)
  {
  }

  class Runtime {
    var pageSize: nat
    var nextId: nat
    var accessSeq: nat
    var born: map<PageId, Birth>
    var table: map<PageId, Page>
    var locals: map<Tid, Local>
    var cands: map<Tid, Search>
    var dev: map<Handle, Buffer>
    var host: map<Handle, Buffer>
    var ext: map<nat, PageId>
    var store: seq<Block>
    var vram: Budget
    var ram: Budget
    var nvme: Budget

    ghost function Now(): State reads this {
      State(pageSize, nextId, accessSeq, born, table, locals, cands, dev, host, ext, store, vram, ram, nvme)
    }

    // --------------------------------------------------- calls that may throw

    /** `HostBackend::free` of a buffer that may be absent. */
    method FreeHost(h: Option<Handle>, bytes: nat) returns (r: Outcome<bool>)
      modifies `host, `ram
      ensures r.Ok? <==> h.None? || old(Frees(host, h, bytes))
      ensures r.Ok? ==> host == old(FreeBuffer(host, h)) && ram == if h.Some? then old(Refund(ram, bytes)) else old(ram)
      ensures r.Err? ==> host == old(host) && ram == old(ram)
      ensures r.Err? ==> r.code == if h.value !in old(host) then StateError else InvalidArgument
    {
      if h.None? { return Ok(true); }
      if h.value !in host { return Err(StateError); }
      if host[h.value].bytes != bytes { return Err(InvalidArgument); }
      host, ram := host - {h.value}, Refund(ram, bytes);
      return Ok(true);
    }

    /** `device_free` of a buffer that may be absent, then the release of the
        device budget. */
    method FreeDevice(h: Option<Handle>, bytes: nat) returns (r: Outcome<bool>)
      modifies `dev, `vram
      ensures r.Ok? <==> h.None? || (h.value in old(dev) && bytes <= old(vram.used))
      ensures r.Ok? ==> dev == old(FreeBuffer(dev, h)) && vram == if h.Some? then old(Refund(vram, bytes)) else old(vram)
    {
      if h.None? { return Ok(true); }
      if h.value !in dev { return Err(StateError); }
      dev := dev - {h.value};
      if bytes > vram.used { return Err(InvariantError); }
      vram := Refund(vram, bytes);
      return Ok(true);
    }

    /** `free_extents` of a range that may be absent, then the release of the
        NVMe budget. */
    method FreeRange(first: Option<nat>, bytes: nat)
      modifies `ext, `nvme
      ensures ext == if first.Some? then Disown(old(ext), first.value, Extents(bytes, pageSize)) else old(ext)
      ensures nvme == if first.Some? then old(Refund(nvme, bytes)) else old(nvme)
    {
      if first.Some? {
        ext, nvme := Disown(ext, first.value, Extents(bytes, pageSize)), Refund(nvme, bytes);
      }
    }

    /** The reservation of a range found free, for a page that needs one. */
    method TakeRange(id: PageId, first: nat, bytes: nat, needed: bool)
      modifies `ext, `nvme
      ensures ext == if needed then Own(old(ext), first, Extents(bytes, pageSize), id) else old(ext)
      ensures nvme == if needed then old(Charge(nvme, bytes)) else old(nvme)
    {
      if needed {
        ext, nvme := Own(ext, first, Extents(bytes, pageSize), id), Charge(nvme, bytes);
      }
    }

    /** A reservation of the device budget, then `device_alloc`, which answers
        `h`; when it refuses, the reservation is given back and only the high
        water mark remembers it. */
    method AllocateDevice(id: PageId, bytes: nat, h: Option<Handle>, junk: Content) returns (r: Outcome<bool>)
      modifies `dev, `vram
      ensures r == if !old(Fits(vram, bytes)) then Ok(false) else if h.None? then Err(Internal) else Ok(true)
      ensures r == Ok(true) ==> dev == old(dev)[h.value := Buffer(OfPage(id), bytes, junk)]
                                && vram == old(Charge(vram, bytes))
      ensures r == Ok(false) ==> dev == old(dev) && vram == old(vram)
      ensures r.Err? ==> dev == old(dev) && vram == old(vram).(highWater := old(Charge(vram, bytes)).highWater)
    {
      if !Fits(vram, bytes) { return Ok(false); }
      vram := Charge(vram, bytes);
      if h.None? {
        vram := Refund(vram, bytes);
        return Err(Internal);
      }
      dev := dev[h.value := Buffer(OfPage(id), bytes, junk)];
      return Ok(true);
    }

    // ------------------------------------------------------- reserving a range

    /** `try_reserve`: some free run, and room for it in the budget. */
    method TryReserve(n: nat, bytes: nat) returns (r: Option<nat>)
      ensures r.Some? <==> Obtainable(Now(), n, bytes)
      ensures r.Some? ==> FreeRun(ext, |store|, r.value, n) && Fits(nvme, bytes)
    {
      if !Fits(nvme, bytes) { return None; }
      if first: nat :| first <= |store| && FreeRun(ext, |store|, first, n) {
        return Some(first);
      }
      return None;
    }

    /** One round of the reclaim loop. */
    method ReleaseCached(t: Tid, id: PageId)
      requires CanReclaim(Now(), t, id)
      modifies `ext, `nvme, `table
      ensures Same(Now(), DoReclaim(old(Now()), t, id))
    {
      hide Same, Disown, Refund, Extents;
      var p := table[id];
      ext := Disown(ext, p.offset.value, Extents(p.size, pageSize));
      nvme := Refund(nvme, p.size);
      table := table[id := p.(offset := None, hasCopy := false)];
      Itself(Now());
    }

    /** `reserve_nvme_range_locked`: cached ranges are released lowest first
        until a reservation succeeds. It fails exactly when even releasing all
        of them would not help. */
    method ReserveRange(t: Tid, n: nat, bytes: nat, exclude: PageId)
      returns (r: Option<nat>, ghost released: seq<PageId>)
      requires Inv(Now()) && (Idle(Now(), t) || IsBorn(Now(), t))
      modifies `ext, `nvme, `table
      ensures LowestFirst(old(table), Targets(old(table), exclude), released)
      ensures Standing(old(Now()), exclude, Prefix(released, |released|), Now())
      ensures NoSooner(old(Now()), exclude, released, n, bytes)
      ensures r.Some? ==> FreeRun(ext, |store|, r.value, n) && Fits(nvme, bytes)
      ensures Releasable(old(Now()), exclude, Targets(old(table), exclude))
      ensures r.Some? <==> Obtainable(Reclaimed(old(Now()), Targets(old(table), exclude)), n, bytes)
      ensures old(InStep(Now())) && bytes == n * pageSize ==> (r.None? <==> NoWindow(old(Now()), exclude, n))
      ensures forall id :: id in released ==> CachedInMemory(old(table), exclude, id)
      ensures r.None? ==> forall id :: CachedInMemory(old(table), exclude, id) ==> id in released
    {
      hide Inv, Releasable, Standing, Reclaimed, Obtainable, Fits, FreeRun, DoReclaim, CanReclaim, Total, Bytes;
      hide LowestFirst, NoSooner, Prefix, InStep, Window, NoWindow, Targets, CachedInMemory, Cached, InOrder;
      ghost var s0, all := Now(), Targets(table, exclude);
      StandingAtFirst(s0, exclude, t);
      TargetsAre(s0, exclude);
      r := TryReserve(n, bytes);
      var order := SortedByOffset(table, Targets(table, exclude));
      PrefixWhole(order, all);
      NothingSooner(s0, exclude, n, bytes, order);
      var i := 0;
      while i < |order| && r.None?
        invariant i <= |order| && Standing(s0, exclude, Prefix(order, i), Now())
        invariant NoSooner(s0, exclude, order[..i], n, bytes)
        invariant r.Some? <==> Obtainable(Now(), n, bytes)
        invariant r.Some? ==> FreeRun(ext, |store|, r.value, n) && Fits(nvme, bytes)
      {
        PrefixGrows(s0.table, order, i);
        StandingNext(s0, exclude, Prefix(order, i), Now(), t, order[i]);
        NoSoonerNext(s0, exclude, order, i, Now(), n, bytes);
        ReleaseCached(t, order[i]);
        r := TryReserve(n, bytes);
        i := i + 1;
      }
      StandingDecides(s0, exclude, Prefix(order, i), Now(), n, bytes);
      PrefixIsLowest(s0.table, all, order, i);
      if InStep(s0) { NoWindowDecides(s0, exclude, t, n); }
      released := order[..i];
      PrefixTaken(order, i);
    }

    // ---------------------------------------------------------------- claims

    /** The claim of `evict_vram_to_host` and `load_nvme_to_host`: with the
        staging buffer in hand, take the page if it is still where it was,
        otherwise give the buffer back. */
    method ClaimStagedSection(t: Tid) returns (claimed: bool)
      requires Inv(Now()) && IsStaged(Now(), t)
      modifies this
      ensures claimed <==> old(CanClaimStaged(Now(), t))
      ensures claimed ==> old(locals[t].id in table && table[locals[t].id].flight.None?)
      ensures claimed && old(locals[t].move.ToHost?) ==> old(table[locals[t].id].state.ResidentVram?)
      ensures claimed && old(locals[t].move.FromNvme?) ==> old(table[locals[t].id].state.ResidentNvme?)
      ensures claimed ==> Same(Now(), DoClaimStaged(old(Now()), t))
      ensures !claimed ==> Same(Now(), DoUnstage(old(Now()), t))
      ensures Inv(Now())
    {
      hide Same, Inv, TransitionAllowed, Advance, Refund, Charge, Own, Extents;
      var l := locals[t];
      claimed := l.id in table && table[l.id].state == SourceState(l.move) && table[l.id].flight.None?;
      ClaimOk(Now(), if claimed then ClaimStaged(t) else Unstage(t));
      if !claimed {
        var freed := FreeHost(Some(l.h), l.bytes);
        assert freed.Ok?;
        locals := locals - {t};
        Itself(Now());
      } else {
        var moved := Advance(table[l.id].(host := Some(l.h), flight := Some(t)), TransferState(l.move));
        table, host, locals := table[l.id := moved], Reown(host, l.h, OfPage(l.id)),
                               locals[t := Moving(l.id, l.move, moved, Unsent)];
        Itself(Now());
      }
    }

    /** The claim of `evict_host_to_nvme`. `range` is what
        `reserve_nvme_range_locked` answers: a free range, or none. */
    method ClaimWritebackSection(t: Tid, id: PageId, range: Option<nat>) returns (r: Outcome<bool>)
      requires Inv(Now()) && Idle(Now(), t)
      requires range.Some? && id in table ==>
        RangeFree(Now(), range.value, Extents(table[id].size, pageSize)) && Fits(nvme, table[id].size)
      modifies this
      ensures r == if id !in old(table) then Err(NotFound)
                   else if !old(Settled(Now(), id, ResidentHost)) then Ok(false)
                   else if old(NeedsRange(table[id])) && range.None? then Err(BudgetError) else Ok(true)
      ensures r == Ok(true) ==>
        Same(Now(), DoClaimWriteback(old(Now()), t, id, if range.Some? then range.value else 0))
      ensures r != Ok(true) ==> unchanged(this)
      ensures Inv(Now())
    {
      hide RangeFree, Fits, Same, Inv, Extents, DoClaimWriteback;
      if id !in table { return Err(NotFound); }
      var p := table[id];
      if p.state != ResidentHost || p.flight.Some? { return Ok(false); }
      if (p.dirty || !p.hasCopy) && p.offset.None? && range.None? { return Err(BudgetError); }
      StartWriteback(t, id, if range.Some? then range.value else 0);
      return Ok(true);
    }

    method StartWriteback(t: Tid, id: PageId, first: nat)
      requires Inv(Now()) && CanClaimWriteback(Now(), t, id, first, Direct)
      modifies this
      ensures Same(Now(), DoClaimWriteback(old(Now()), t, id, first)) && Inv(Now())
    {
      hide Same, Inv, CanMove, NeedsRange, NeedsWrite, Charge, Own, Extents, CanClaimWriteback, DoClaimWriteback;
      hide EvictingPage;
      WritebackOk(Now(), t, id, first);
      var p := table[id];
      TakeRange(id, first, p.size, NeedsRange(p));
      var moved := MarkEvicting(t, id, first);
      locals := locals[t := Moving(id, ToNvme(NeedsWrite(p)), moved, Unsent)];
      Itself(Now());
    }

    method MarkEvicting(t: Tid, id: PageId, first: nat) returns (moved: Page)
      requires id in table && CanMove(table[id], EvictingToNvme)
      modifies `table
      ensures moved == EvictingPage(old(table)[id], t, first) && table == old(table)[id := moved]
    {
      var p := table[id];
      if NeedsRange(p) {
        p := p.(offset := Some(first));
      }
      moved := Advance(p.(flight := Some(t)), EvictingToNvme);
      table := table[id := moved];
    }

    /** The claim of `promote_host_to_vram`; `h` is what `device_alloc` answers,
        `None` when it refuses. */
    method ClaimPromoteSection(t: Tid, id: PageId, h: Option<Handle>, junk: Content) returns (r: Outcome<bool>)
      requires Inv(Now()) && Idle(Now(), t) && (h.Some? ==> h.value !in dev)
      requires id in table ==> |junk| == Extents(table[id].size, pageSize)
      modifies this
      ensures r == if id !in old(table) then Err(NotFound)
                   else if !old(Settled(Now(), id, ResidentHost) && Fits(vram, table[id].size)) then Ok(false)
                   else if h.None? then Err(Internal) else Ok(true)
      ensures r == Ok(true) ==> Same(Now(), DoClaimPromote(old(Now()), t, id, h.value, junk))
      ensures r == Err(Internal) ==> Same(Now(), Refused(old(Now()), old(table)[id].size))
      ensures r == Ok(false) || r == Err(NotFound) ==> unchanged(this)
      ensures Inv(Now())
    {
      hide Fits, Same, Inv, Extents, DoClaimPromote, Refused;
      if id !in table { return Err(NotFound); }
      var p := table[id];
      if p.state != ResidentHost || p.flight.Some? || !Fits(vram, p.size) { return Ok(false); }
      if h.None? {
        RefusePromotion(t, id);
        return Err(Internal);
      }
      StartPromotion(t, id, h.value, junk);
      return Ok(true);
    }

    method RefusePromotion(t: Tid, id: PageId)
      requires Inv(Now()) && Idle(Now(), t) && Settled(Now(), id, ResidentHost) && Fits(vram, table[id].size)
      modifies this
      ensures Same(Now(), Refused(old(Now()), old(table)[id].size)) && Inv(Now())
    {
      hide Fits, Same, Inv, Charge;
      RefusalKeepsInv(Now(), table[id].size, id, t);
      var taken := AllocateDevice(id, table[id].size, None, []);
      assert taken == Err(Internal);
      Itself(Now());
    }

    method StartPromotion(t: Tid, id: PageId, h: Handle, junk: Content)
      requires Inv(Now()) && CanClaimPromote(Now(), t, id, h, junk)
      modifies this
      ensures Same(Now(), DoClaimPromote(old(Now()), t, id, h, junk)) && Inv(Now())
    {
      hide Fits, Same, Inv, TransitionAllowed, Advance, Charge, Extents;
      ClaimOk(Now(), ClaimPromote(t, id, h, junk));
      var p := table[id];
      var taken := AllocateDevice(id, p.size, Some(h), junk);
      assert taken == Ok(true);
      var moved := Advance(p.(vram := Some(h), flight := Some(t)), LoadingToVram);
      table, locals := table[id := moved], locals[t := Moving(id, ToVram, moved, Unsent)];
      Itself(Now());
    }

    // ------------------------------------------------------------ settlement

    /** `evict_vram_to_host` completes. */
    method CompleteDemotion(t: Tid, tier: Tier)
      requires Inv(Now()) && CanComplete(Now(), t) && locals[t].move.ToHost?
      modifies this
      ensures Same(Now(), DoComplete(old(Now()), t, tier))
      ensures var p := table[old(locals[t]).id]; p.state.ResidentHost? && p.vram.None? && p.flight.None? && p.tier == tier
      ensures Inv(Now())
    {
      hide Same, Inv, TransitionAllowed, Advance, FreeBuffer, Refund, Charge, Own, Extents;
      CopyOk(Now(), Complete(t, tier));
      var l := locals[t];
      var freed := FreeDevice(l.snap.vram, l.snap.size);
      assert freed.Ok?;
      var moved := Advance(table[l.id].(flight := None, vram := None), ResidentHost);
      table, locals := table[l.id := moved.(tier := tier)], locals - {t};
      Itself(Now());
    }

    /** `evict_host_to_nvme` completes, with or without a write. */
    method CompleteWriteback(t: Tid, tier: Tier)
      requires Inv(Now()) && CanComplete(Now(), t) && locals[t].move.ToNvme?
      modifies this
      ensures Same(Now(), DoComplete(old(Now()), t, tier))
      ensures var p := table[old(locals[t]).id];
        p.state.ResidentNvme? && p.host.None? && p.flight.None? && p.hasCopy && !p.dirty
      ensures Inv(Now())
    {
      hide Same, Inv, TransitionAllowed, Advance, FreeBuffer, Refund, Charge, Own, Extents;
      CopyOk(Now(), Complete(t, tier));
      var l := locals[t];
      var freed := FreeHost(l.snap.host, l.snap.size);
      assert freed.Ok?;
      var moved := Advance(table[l.id].(flight := None, host := None, dirty := false, hasCopy := true), ResidentNvme);
      table, locals := table[l.id := moved], locals - {t};
      Itself(Now());
    }

    /** `load_nvme_to_host` completes. */
    method CompleteLoad(t: Tid, tier: Tier)
      requires Inv(Now()) && CanComplete(Now(), t) && locals[t].move.FromNvme?
      modifies this
      ensures Same(Now(), DoComplete(old(Now()), t, tier))
      ensures var p := table[old(locals[t]).id]; p.state.ResidentHost? && p.flight.None? && p.tier == tier
      ensures Inv(Now())
    {
      hide Same, Inv, TransitionAllowed, Advance, FreeBuffer, Refund, Charge, Own, Extents;
      CopyOk(Now(), Complete(t, tier));
      var l := locals[t];
      var moved := Advance(table[l.id].(flight := None), ResidentHost);
      table, locals := table[l.id := moved.(tier := tier)], locals - {t};
      Itself(Now());
    }

    /** `promote_host_to_vram` completes. */
    method CompletePromotion(t: Tid, tier: Tier)
      requires Inv(Now()) && CanComplete(Now(), t) && locals[t].move.ToVram?
      modifies this
      ensures Same(Now(), DoComplete(old(Now()), t, tier))
      ensures var p := table[old(locals[t]).id]; p.state.ResidentVram? && p.host.None? && p.flight.None?
      ensures Inv(Now())
    {
      hide Same, Inv, TransitionAllowed, Advance, FreeBuffer, Refund, Charge, Own, Extents;
      CopyOk(Now(), Complete(t, tier));
      var l := locals[t];
      var freed := FreeHost(l.snap.host, l.snap.size);
      assert freed.Ok?;
      var moved := Advance(table[l.id].(flight := None, host := None), ResidentVram);
      table, locals := table[l.id := moved], locals - {t};
      Itself(Now());
    }

    /** The failure sections of `evict_vram_to_host` and `load_nvme_to_host`:
        the host buffer is given back. */
    method FailIntoHost(t: Tid)
      requires Inv(Now()) && CanFail(Now(), t) && (locals[t].move.ToHost? || locals[t].move.FromNvme?)
      modifies this
      ensures Same(Now(), DoFail(old(Now()), t))
      ensures var p := table[old(locals[t]).id]; p.state.Error? && p.host.None? && p.flight.None?
      ensures Inv(Now())
    {
      hide Same, Inv, TransitionAllowed, Advance, FreeBuffer, Refund, Charge, Own, Extents;
      CopyOk(Now(), Fail(t));
      var l := locals[t];
      var freed := FreeHost(l.snap.host, l.snap.size);
      assert freed.Ok?;
      var moved := Advance(table[l.id].(flight := None, host := None), Error);
      table, locals := table[l.id := moved], locals - {t};
      Itself(Now());
    }

    /** The failure section of `evict_host_to_nvme`: the range stays reserved. */
    method FailWriteback(t: Tid)
      requires Inv(Now()) && CanFail(Now(), t) && locals[t].move.ToNvme?
      modifies this
      ensures Same(Now(), DoFail(old(Now()), t))
      ensures var p := table[old(locals[t]).id]; p.state.Error? && p.flight.None?
      ensures Inv(Now())
    {
      hide Same, Inv, TransitionAllowed, Advance, FreeBuffer, Refund, Charge, Own, Extents;
      CopyOk(Now(), Fail(t));
      var l := locals[t];
      var moved := Advance(table[l.id].(flight := None), Error);
      table, locals := table[l.id := moved], locals - {t};
      Itself(Now());
    }

    /** The failure section of `promote_host_to_vram`. */
    method FailPromotion(t: Tid)
      requires Inv(Now()) && CanFail(Now(), t) && locals[t].move.ToVram?
      modifies this
      ensures Same(Now(), DoFail(old(Now()), t))
      ensures var p := table[old(locals[t]).id]; p.state.Error? && p.vram.None? && p.flight.None?
      ensures Inv(Now())
    {
      hide Same, Inv, TransitionAllowed, Advance, FreeBuffer, Refund, Charge, Own, Extents;
      CopyOk(Now(), Fail(t));
      var l := locals[t];
      var freed := FreeDevice(l.snap.vram, l.snap.size);
      assert freed.Ok?;
      var moved := Advance(table[l.id].(flight := None, vram := None), Error);
      table, locals := table[l.id := moved], locals - {t};
      Itself(Now());
    }

    // ---------------------------------------------------------------- access

    /** The section of `write_page_impl`: `Ok(false)` sends the caller round its
        retry loop. */
    method WriteSection(t: Tid, id: PageId, data: Content) returns (r: Outcome<bool>)
      requires Inv(Now()) && Idle(Now(), t)
      requires id in table ==> |data| == Extents(table[id].size, pageSize)
      modifies this
      ensures id !in old(table) ==> r == Err(NotFound)
      ensures id in old(table) ==>
        (r == Ok(true) <==> old(table)[id].state.ResidentHost? || old(table)[id].state.ResidentVram?)
      ensures id in old(table) ==>
        (r.Err? <==> old(table)[id].state.Error? || old(table)[id].state.Released? || old(table)[id].state.Unallocated?)
      ensures r == Ok(true) ==> Same(Now(), DoWrite(old(Now()), t, id, data))
      ensures r != Ok(true) ==> unchanged(this)
      ensures Inv(Now())
    {
      hide Same, Inv, Checksum;
      if id !in table { return Err(NotFound); }
      var cur := table[id];
      var host', dev' := host, dev;
      if cur.state.ResidentHost? {
        host' := PutBuffer(host, cur.host, data);
      } else if cur.state.ResidentVram? {
        dev' := PutBuffer(dev, cur.vram, data);
      } else if cur.state.Error? || cur.state.Released? || cur.state.Unallocated? {
        return Err(StateError);
      } else {
        return Ok(false);
      }
      AccessOk(Now(), Write(t, id, data));
      host, dev, accessSeq, table := host', dev', accessSeq + 1,
        table[id := cur.(dirty := true, hasCopy := false, checksum := Checksum(data),
                         lastAccess := accessSeq + 1, accessCount := cur.accessCount + 1)];
      Itself(Now());
      return Ok(true);
    }

    /** The section of `read_page`; `Ok(None)` sends the caller round its loop. */
    method ReadSection(t: Tid, id: PageId) returns (r: Outcome<Option<Content>>)
      requires Inv(Now()) && Idle(Now(), t)
      modifies this
      ensures if id !in old(table) then r == Err(NotFound) else r.Ok?
      ensures r.Ok? ==> (r.value.Some? <==> old(table)[id].state in {ResidentHost, ResidentVram})
      ensures r.Ok? && r.value.Some? ==>
        r.value.value == old(Authoritative(Now(), table[id])) && Same(Now(), DoRead(old(Now()), t, id))
      ensures r.Err? || r.value.None? ==> unchanged(this)
      ensures Inv(Now())
    {
      hide Same, Inv;
      if id !in table { return Err(NotFound); }
      var cur := table[id];
      if cur.state.ResidentHost? {
        r := Ok(Some(DataIn(host, cur.host)));
      } else if cur.state.ResidentVram? {
        r := Ok(Some(DataIn(dev, cur.vram)));
      } else {
        return Ok(None);
      }
      AccessOk(Now(), Read(t, id));
      accessSeq, table := accessSeq + 1,
        table[id := cur.(lastAccess := accessSeq + 1, accessCount := cur.accessCount + 1)];
      Itself(Now());
    }

    /** The clean drop of `evict`. */
    method DropSection(t: Tid, id: PageId) returns (r: Outcome<bool>)
      requires Inv(Now()) && Idle(Now(), t)
      modifies this
      ensures r == if id !in old(table) then Err(NotFound)
                   else var p := old(table)[id]; Ok(p.state.ResidentVram? && p.flight.None? && !p.dirty && p.hasCopy)
      ensures r == Ok(true) ==> Same(Now(), DoDrop(old(Now()), t, id))
      ensures r != Ok(true) ==> unchanged(this)
      ensures Inv(Now())
    {
      hide Same, Inv, TransitionAllowed, Advance, FreeBuffer, Refund;
      if id !in table { return Err(NotFound); }
      var cur := table[id];
      if cur.dirty || !cur.hasCopy || cur.flight.Some? || cur.state != ResidentVram { return Ok(false); }
      AccessOk(Now(), Drop(t, id, Direct));
      var freed := FreeDevice(cur.vram, cur.size);
      assert freed.Ok?;
      var moved := Advance(cur.(vram := None), ResidentNvme);
      table := table[id := moved];
      Itself(Now());
      return Ok(true);
    }

    // -------------------------------------------------------------- shutdown

    /** Every handle a page's entry names is released. */
    method ReleaseHandles(m: Page)
      requires m.host.Some? ==> Frees(host, m.host, m.size)
      requires m.vram.Some? ==> Frees(dev, m.vram, m.size) && m.size <= vram.used
      modifies `host, `ram, `dev, `vram, `ext, `nvme
      ensures host == old(FreeBuffer(host, m.host)) && dev == old(FreeBuffer(dev, m.vram))
      ensures ext == if m.offset.Some? then Disown(old(ext), m.offset.value, Extents(m.size, pageSize)) else old(ext)
      ensures ram == if m.host.Some? then old(Refund(ram, m.size)) else old(ram)
      ensures vram == if m.vram.Some? then old(Refund(vram, m.size)) else old(vram)
      ensures nvme == if m.offset.Some? then old(Refund(nvme, m.size)) else old(nvme)
    {
      var freed := FreeHost(m.host, m.size);
      assert freed.Ok?;
      freed := FreeDevice(m.vram, m.size);
      assert freed.Ok?;
      FreeRange(m.offset, m.size);
    }

    /** One page of the teardown loop of `shutdown_locked`. */
    method ReleasePage(id: PageId)
      requires Inv(Now()) && Quiescent(Now()) && id in table
      modifies this
      ensures Same(Now(), TeardownPage(old(Now()), id))
      ensures Inv(Now()) && Quiescent(Now())
    {
      hide Same, Inv, Extents, Disown, OwnsRange, RangeFreeable, Frees, FreeBuffer, Refund;
      TeardownKeepsInv(Now(), id);
      TeardownNeverThrows(Now(), id);
      ReleaseHandles(table[id]);
      table := table - {id};
      Itself(Now());
    }

    /** `shutdown_locked` from any state the protocol can reach, once the
        workers are joined: the table is emptied and every tier's usage is
        zero, whatever states the pages were left in. */
    method ReleaseAllPages()
      requires Inv(Now()) && Quiescent(Now())
      modifies this
      ensures table == map[]
      ensures vram.used == 0 && ram.used == 0 && nvme.used == 0
      ensures dev == map[] && host == map[] && ext == map[]
      ensures Inv(Now())
    {
      hide Inv, TransitionAllowed, Advance, FreeBuffer, Refund, Charge, Own, Extents;
      while table != map[]
        invariant Inv(Now()) && Quiescent(Now())
        decreases |table|
      {
        var id :| id in table;
        ghost var before := table;
        ReleasePage(id);
        assert table.Keys == before.Keys - {id};
        assert |table.Keys| < |before.Keys|;
      }
      EmptyTableUsesNothing(Now());
    }
  }
}
