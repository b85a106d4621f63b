/** The invariant of the page-movement protocol: who holds what in which state,
    and what every budget's usage is the sum of. */
module ProtocolInvariant {
  import opened Collections
  import opened Pages
  import opened Budgets
  import opened Protocol

  // -------------------------------------------------------------- holdings

  /** The thread a page is in the hands of, by its `in_flight` mark. */
  function Carrier(s: State, p: Page): Option<Local> {
    if p.flight.Some? && p.flight.value in s.locals then Some(s.locals[p.flight.value]) else None
  }

  predicate AtPhase(c: Option<Local>, phase: Phase) {
    c.Some? && c.value.Releasing? && c.value.phase == phase
  }

  /** The buffers and extents that are really the page's. While `free_page`
      has returned a resource but not yet cleared the table entry, the entry
      still names a resource that may already be someone else's. */
  function LiveVram(p: Page, c: Option<Local>): Option<Handle> {
    if AtPhase(c, VramFreed) then None else p.vram
  }

  function LiveHost(p: Page, c: Option<Local>): Option<Handle> {
    if AtPhase(c, HostFreed) then None else p.host
  }

  function LiveRange(p: Page, c: Option<Local>): Option<nat> {
    if AtPhase(c, RangeFreed) then None else p.offset
  }

  /** Where a page's authoritative bytes are, by its state alone. */
  function Authoritative(s: State, p: Page): Content {
    var onStore := DataAt(s, p.offset, Extents(p.size, s.pageSize));
    match p.state
    case ResidentVram => DataIn(s.dev, p.vram)
    case EvictingToHost => DataIn(s.dev, p.vram)
    case ResidentHost => DataIn(s.host, p.host)
    case LoadingToVram => DataIn(s.host, p.host)
    case EvictingToNvme => DataIn(s.host, p.host)
    case ResidentNvme => onStore
    case LoadingToHost => onStore
    case Error => if p.vram.Some? then DataIn(s.dev, p.vram)
                  else if p.host.Some? then DataIn(s.host, p.host) else onStore
    case _ => []
  }

  // ---------------------------------------------------- single ownership

  /** The state fixes which of the three resources a page holds, and the
      `in_flight` mark is set exactly in the four transfer states and during
      release cleanup. */
  predicate Shape(p: Page) {
    && (p.hasCopy ==> p.offset.Some? && !p.dirty)
    && match p.state
       case ResidentVram => p.vram.Some? && p.host.None? && p.flight.None?
       case ResidentHost => p.host.Some? && p.vram.None? && p.flight.None?
       case ResidentNvme => p.offset.Some? && p.host.None? && p.vram.None? && p.flight.None? && !p.dirty
       case LoadingToHost => p.offset.Some? && p.host.Some? && p.vram.None? && p.flight.Some? && !p.dirty
       case LoadingToVram => p.host.Some? && p.vram.Some? && p.flight.Some?
       case EvictingToHost => p.host.Some? && p.vram.Some? && p.flight.Some?
       case EvictingToNvme => p.host.Some? && p.offset.Some? && p.vram.None? && p.flight.Some?
       case Error => p.flight.None? && (p.host.Some? || p.vram.Some? || p.offset.Some?)
                     && !(p.host.Some? && p.vram.Some?)
       case Released => true
       case Unallocated => false
  }

  /** A table entry during `free_page`, against the snapshot it began with. */
  predicate ReleasePoint(l: Local, p: Page)
    requires l.Releasing?
  {
    var snap := l.snap;
    p.size == snap.size
    && match l.phase
       case DropVram => p.vram == snap.vram && snap.vram.Some? && p.host == snap.host && p.offset == snap.offset
       case VramFreed => p.vram == snap.vram && snap.vram.Some? && p.host == snap.host && p.offset == snap.offset
       case VramCleared => p.vram.None? && p.host == snap.host && p.offset == snap.offset
       case DropHost => (p.vram.None? || l.failed) && p.host == snap.host && snap.host.Some? && p.offset == snap.offset
       case HostFreed => (p.vram.None? || l.failed) && p.host == snap.host && snap.host.Some? && p.offset == snap.offset
       case DropRange => ((p.vram.None? && p.host.None?) || l.failed) && p.offset == snap.offset && snap.offset.Some?
       case RangeFreed => ((p.vram.None? && p.host.None?) || l.failed) && p.offset == snap.offset && snap.offset.Some?
       case RangeCleared => ((p.vram.None? && p.host.None?) || l.failed) && p.offset.None?
       case Finish => ((p.vram.None? && p.host.None?) || l.failed) && p.offset.None?
  }

  /** The carrying thread and the table entry agree. */
  predicate Carries(l: Local, id: PageId, p: Page) {
    || (&& l.Moving? && l.id == id && p.state == TransferState(l.move)
        && p.host == l.snap.host && p.vram == l.snap.vram && p.offset == l.snap.offset && p.size == l.snap.size
        && (l.move.ToNvme? ==> p.hasCopy == !l.move.write)
        && (l.move == ToNvme(false) ==> l.io.Unsent?))
    || (l.Releasing? && l.id == id && p.state.Released? && ReleasePoint(l, p))
  }

  /** Owner `o` holds buffer `h` of the given size, and no other. */
  ghost predicate Holds(bufs: map<Handle, Buffer>, o: Owner, h: Option<Handle>) {
    forall k :: h == Some(k) <==> k in bufs && bufs[k].owner == o
  }

  predicate Fitting(bufs: map<Handle, Buffer>, h: Option<Handle>, bytes: nat, n: nat) {
    h.Some? ==> h.value in bufs && bufs[h.value].bytes == bytes && |bufs[h.value].data| == n
  }

  /** Page `id` owns the extents from `r` on, and no other. */
  ghost predicate OwnsRange(ext: map<nat, PageId>, id: PageId, r: Option<nat>, n: nat) {
    forall e :: e in ext && ext[e] == id <==> r.Some? && r.value <= e < r.value + n
  }

  /** The buffers a thread holds in hand. */
  function DeviceInHand(l: Local): Option<Handle> {
    if l.DeviceHeld? then Some(l.h) else None
  }

  function HostInHand(l: Local): Option<Handle> {
    if l.HostHeld? || l.Staged? then Some(l.h) else None
  }

  /** Everything the protocol keeps about one page. */
  ghost predicate PageOk(s: State, id: PageId)
    requires id in s.table
  {
    var p := s.table[id];
    var c := Carrier(s, p);
    var n := Extents(p.size, s.pageSize);
    && p.id == id && id in s.born && s.born[id].bytes == p.size
    && Shape(p)
    && (p.flight.Some? ==> c.Some? && Carries(c.value, id, p))
    && Holds(s.dev, OfPage(id), LiveVram(p, c)) && Fitting(s.dev, LiveVram(p, c), p.size, n)
    && Holds(s.host, OfPage(id), LiveHost(p, c)) && Fitting(s.host, LiveHost(p, c), p.size, n)
    && OwnsRange(s.ext, id, LiveRange(p, c), n) && (LiveRange(p, c).Some? ==> LiveRange(p, c).value + n <= |s.store|)
    // a copy on the store is the page's authoritative content
    && (p.hasCopy && !p.state.Released? ==> DataAt(s, p.offset, n) == Authoritative(s, p))
    // a transfer whose copy has settled well has moved that content
    && (c.Some? && c.value.Moving? && c.value.io == Done(true) ==>
          TargetData(s, c.value.move, c.value.snap) == Authoritative(s, p))
  }

  predicate LocalNamesOk(s: State, t: Tid, l: Local) {
    match l
    case Born(id, bytes, _) => id in s.born && s.born[id] == Birth(bytes, t) && id !in s.table
    case Reserved(id, bytes, _) => id in s.born && s.born[id] == Birth(bytes, t) && id !in s.table
    case DeviceHeld(id, bytes, _, _) => id in s.born && s.born[id] == Birth(bytes, t) && id !in s.table
    case HostHeld(id, bytes, _, _) => id in s.born && s.born[id] == Birth(bytes, t) && id !in s.table
    case Sized(id, bytes, move, _) => id in s.born && s.born[id].bytes == bytes && (move.ToHost? || move.FromNvme?)
    case Staged(id, bytes, move, _, _) => id in s.born && s.born[id].bytes == bytes && (move.ToHost? || move.FromNvme?)
    case Moving(id, _, _, _) => id in s.table && s.table[id].flight == Some(t)
    case Releasing(id, _, _, _) => id in s.table && s.table[id].flight == Some(t)
  }

  /** Everything the protocol keeps about one thread. */
  ghost predicate LocalOk(s: State, t: Tid)
    requires t in s.locals
  {
    var l := s.locals[t];
    && LocalNamesOk(s, t, l)
    && Holds(s.dev, OfThread(t), DeviceInHand(l))
    && (l.DeviceHeld? ==> Fitting(s.dev, Some(l.h), l.bytes, Extents(l.bytes, s.pageSize)))
    && Holds(s.host, OfThread(t), HostInHand(l))
    && (l.HostHeld? || l.Staged? ==> Fitting(s.host, Some(l.h), l.bytes, Extents(l.bytes, s.pageSize)))
  }

  /** Nothing live is forgotten: its owner is still there to name it. */
  predicate Present(s: State, o: Owner) {
    match o
    case OfPage(id) => id in s.table
    case OfThread(t) => t in s.locals
  }

  /** Identifiers are handed out in order and never again. */
  ghost predicate BornBelow(born: map<PageId, Birth>, nextId: nat) {
    forall id :: id in born ==> id < nextId
  }

  ghost predicate Structure(s: State) {
    && s.pageSize > 0
    && BornBelow(s.born, s.nextId)
    && (forall id :: id in s.table ==> PageOk(s, id))
    && (forall t :: t in s.locals ==> LocalOk(s, t))
    && (forall h :: h in s.dev ==> Present(s, s.dev[h].owner))
    && (forall h :: h in s.host ==> Present(s, s.host[h].owner))
    && (forall e :: e in s.ext ==> s.ext[e] in s.table)
  }

  /** Page `id` is as it should be, or gone and holding nothing. */
  ghost predicate PageOkOrGone(s: State, id: PageId) {
    if id in s.table then PageOk(s, id)
    else Holds(s.dev, OfPage(id), None) && Holds(s.host, OfPage(id), None) && OwnsRange(s.ext, id, None, 0)
  }

  ghost predicate LocalOkOrGone(s: State, t: Tid) {
    if t in s.locals then LocalOk(s, t)
    else Holds(s.dev, OfThread(t), None) && Holds(s.host, OfThread(t), None)
  }

  /** The structure, read at one page and one thread. */
  lemma StructureAt(s: State, id: PageId, t: Tid)
    requires Structure(s)
    ensures PageOkOrGone(s, id) && LocalOkOrGone(s, t) && BornBelow(s.born, s.nextId)
    ensures id in s.table ==> id in s.born && s.table[id].id == id
    ensures id in s.born ==> id < s.nextId
    ensures id !in s.table ==> forall n :: OwnsRange(s.ext, id, None, n)
  {}

  // ---------------------------------------------------------- conservation

  function PageVram(s: State, id: PageId): nat {
    if id in s.table && s.table[id].vram.Some? then s.table[id].size else 0
  }

  function PageRam(s: State, id: PageId): nat {
    if id in s.table && LiveHost(s.table[id], Carrier(s, s.table[id])).Some? then s.table[id].size else 0
  }

  function PageNvme(s: State, id: PageId): nat {
    if id in s.table && s.table[id].offset.Some? then s.table[id].size else 0
  }

  /** Bytes a thread has reserved and not yet given to a page, or has taken
      from a page and not yet given back. */
  function HeldVram(s: State, t: Tid): nat {
    if t !in s.locals then 0
    else match s.locals[t]
      case Reserved(_, bytes, _) => bytes
      case DeviceHeld(_, bytes, _, _) => bytes
      case Releasing(_, snap, phase, _) => if phase.VramCleared? then snap.size else 0
      case _ => 0
  }

  function HeldRam(s: State, t: Tid): nat {
    if t !in s.locals then 0
    else match s.locals[t]
      case HostHeld(_, bytes, _, _) => bytes
      case Staged(_, bytes, _, _, _) => bytes
      case _ => 0
  }

  function HeldNvme(s: State, t: Tid): nat {
    if t !in s.locals then 0
    else match s.locals[t]
      case Releasing(_, snap, phase, _) => if phase.RangeCleared? then snap.size else 0
      case _ => 0
  }

  function PagesVram(s: State): map<nat, nat> { map id | id in s.table :: PageVram(s, id) }
  function PagesRam(s: State): map<nat, nat> { map id | id in s.table :: PageRam(s, id) }
  function PagesNvme(s: State): map<nat, nat> { map id | id in s.table :: PageNvme(s, id) }
  function ThreadsVram(s: State): map<nat, nat> { map t | t in s.locals :: HeldVram(s, t) }
  function ThreadsRam(s: State): map<nat, nat> { map t | t in s.locals :: HeldRam(s, t) }
  function ThreadsNvme(s: State): map<nat, nat> { map t | t in s.locals :: HeldNvme(s, t) }

  /** Each tier's usage is exactly the sizes of the pages holding that
      resource plus what threads hold in hand. */
  ghost predicate Ledger(s: State) {
    && s.vram.used == Total(PagesVram(s)) + Total(ThreadsVram(s))
    && s.ram.used == Total(PagesRam(s)) + Total(ThreadsRam(s))
    && s.nvme.used == Total(PagesNvme(s)) + Total(ThreadsNvme(s))
  }

  predicate Bounded(s: State) {
    BudgetOk(s.vram) && BudgetOk(s.ram) && BudgetOk(s.nvme)
  }

  ghost predicate Inv(s: State) {
    Structure(s) && Ledger(s) && Bounded(s)
  }

  lemma InitInv(s: State)
    requires Init(s)
    ensures Inv(s)
  {
    assert PagesVram(s) == map[] && PagesRam(s) == map[] && PagesNvme(s) == map[];
    assert ThreadsVram(s) == map[] && ThreadsRam(s) == map[] && ThreadsNvme(s) == map[];
  }

  // ----------------------------------------------- one step, one page, one thread

  predicate Mine(o: Owner, id: PageId, t: Tid) {
    o == OfPage(id) || o == OfThread(t)
  }

  predicate Carrying(l: Local) {
    l.Moving? || l.Releasing?
  }

  ghost predicate BuffersFramed(b: map<Handle, Buffer>, b': map<Handle, Buffer>, id: PageId, t: Tid) {
    && (forall h :: h in b && !Mine(b[h].owner, id, t) ==> h in b' && b'[h] == b[h])
    && (forall h :: h in b' && !Mine(b'[h].owner, id, t) ==> h in b && b'[h] == b[h])
  }

  ghost predicate ExtentsFramed(ext: map<nat, PageId>, ext': map<nat, PageId>, id: PageId) {
    && (forall e :: e in ext && ext[e] != id ==> e in ext' && ext'[e] == ext[e])
    && (forall e :: e in ext' && ext'[e] != id ==> e in ext && ext[e] == ext'[e])
  }

  /** Only extents of page `id` were written. */
  ghost predicate StoreFramed(ext: map<nat, PageId>, store: seq<Block>, store': seq<Block>, id: PageId) {
    && |store'| == |store|
    && (forall e :: e in ext && ext[e] != id && e < |store| ==> store'[e] == store[e])
  }

  ghost predicate TableFramed(m: map<PageId, Page>, m': map<PageId, Page>, id: PageId) {
    && (forall i :: i in m && i != id ==> i in m' && m'[i] == m[i])
    && (forall i :: i in m' && i != id ==> i in m)
  }

  ghost predicate LocalsFramed(m: map<Tid, Local>, m': map<Tid, Local>, t: Tid) {
    && (forall i :: i in m && i != t ==> i in m' && m'[i] == m[i])
    && (forall i :: i in m' && i != t ==> i in m)
  }

  ghost predicate BornFramed(m: map<PageId, Birth>, m': map<PageId, Birth>) {
    forall i :: i in m ==> i in m' && m'[i] == m[i]
  }

  /** If the page is in someone's hands it is the thread's, and the other way
      round. */
  predicate Matched(s: State, id: PageId, t: Tid) {
    && (t in s.locals && Carrying(s.locals[t]) ==> s.locals[t].id == id)
    && (id in s.table && s.table[id].flight.Some? ==> s.table[id].flight == Some(t))
  }

  /** The step concerned page `id` and thread `t` and left every other page,
      thread, buffer and extent alone. */
  ghost predicate OnlyTouches(s: State, s': State, id: PageId, t: Tid) {
    && s'.pageSize == s.pageSize
    && BornFramed(s.born, s'.born)
    && TableFramed(s.table, s'.table, id)
    && LocalsFramed(s.locals, s'.locals, t)
    && BuffersFramed(s.dev, s'.dev, id, t)
    && BuffersFramed(s.host, s'.host, id, t)
    && ExtentsFramed(s.ext, s'.ext, id)
    && StoreFramed(s.ext, s.store, s'.store, id)
    && Matched(s, id, t) && Matched(s', id, t)
    && (id in s'.table && id !in s.table ==> id in s.born && s.born[id].creator == t)
  }

  ghost predicate FocusOk(s: State, id: PageId, t: Tid) {
    && BornBelow(s.born, s.nextId)
    && PageOkOrGone(s, id)
    && LocalOkOrGone(s, t)
  }

  lemma OtherHolds(b: map<Handle, Buffer>, b': map<Handle, Buffer>, id: PageId, t: Tid, o: Owner, h: Option<Handle>)
    requires BuffersFramed(b, b', id, t) && !Mine(o, id, t) && Holds(b, o, h)
    ensures Holds(b', o, h)
    ensures h.Some? ==> h.value in b && h.value in b' && b'[h.value] == b[h.value]
    ensures DataIn(b', h) == DataIn(b, h)
  {
    forall k ensures h == Some(k) <==> k in b' && b'[k].owner == o {
      if k in b' && b'[k].owner == o { assert k in b && b[k] == b'[k]; }
    }
  }

  lemma OtherRange(s: State, s': State, id: PageId, i: PageId, r: Option<nat>, n: nat)
    requires ExtentsFramed(s.ext, s'.ext, id) && StoreFramed(s.ext, s.store, s'.store, id)
    requires i != id && OwnsRange(s.ext, i, r, n)
    ensures OwnsRange(s'.ext, i, r, n)
    ensures DataAt(s', r, n) == DataAt(s, r, n)
  {
    if r.Some? {
      forall e: nat | r.value <= e < r.value + n && e < |s.store| ensures s'.store[e] == s.store[e] {
        assert e in s.ext && s.ext[e] == i;
      }
      SliceFrame(s.store, s'.store, r.value, n);
    }
    forall e ensures e in s'.ext && s'.ext[e] == i <==> r.Some? && r.value <= e < r.value + n {
      assert e in s.ext && s.ext[e] == i <==> r.Some? && r.value <= e < r.value + n;
    }
  }

  /** A page elsewhere sees none of the step: not its carrier, ... */
  lemma OtherCarrier(s: State, s': State, id: PageId, t: Tid, i: PageId)
    requires i in s.table && PageOk(s, i) && OnlyTouches(s, s', id, t) && i != id
    ensures i in s'.table && s'.table[i] == s.table[i]
    ensures Carrier(s', s.table[i]) == Carrier(s, s.table[i])
    ensures PageVram(s', i) == PageVram(s, i) && PageRam(s', i) == PageRam(s, i) && PageNvme(s', i) == PageNvme(s, i)
  {
    hide ExtentsFramed, BuffersFramed, StoreFramed, BornFramed, Holds, OwnsRange;
  }

  /** ... not its content, ... */
  lemma OtherContent(s: State, s': State, i: PageId)
    requires i in s.table && PageOk(s, i) && s'.pageSize == s.pageSize && !s.table[i].state.Released?
    requires DataIn(s'.dev, s.table[i].vram) == DataIn(s.dev, s.table[i].vram)
    requires DataIn(s'.host, s.table[i].host) == DataIn(s.host, s.table[i].host)
    requires DataAt(s', s.table[i].offset, Extents(s.table[i].size, s.pageSize))
          == DataAt(s, s.table[i].offset, Extents(s.table[i].size, s.pageSize))
    ensures Authoritative(s', s.table[i]) == Authoritative(s, s.table[i])
    ensures var c := Carrier(s, s.table[i]); c.Some? && c.value.Moving? ==>
      TargetData(s', c.value.move, c.value.snap) == TargetData(s, c.value.move, c.value.snap)
  {
    hide DataIn, DataAt, Extents, Holds, OwnsRange, ReleasePoint;
  }

  /** A page that is not being released really holds what its entry names. */
  lemma LiveIsNamed(s: State, i: PageId)
    requires i in s.table && PageOk(s, i) && !s.table[i].state.Released?
    ensures var p := s.table[i];
      LiveVram(p, Carrier(s, p)) == p.vram && LiveHost(p, Carrier(s, p)) == p.host
      && LiveRange(p, Carrier(s, p)) == p.offset
  {
    hide Holds, OwnsRange, Authoritative, TargetData, ReleasePoint;
  }

  /** ... and nothing else that is kept about it. */
  lemma OtherPage(s: State, s': State, id: PageId, t: Tid, i: PageId)
    requires i in s.table && PageOk(s, i) && OnlyTouches(s, s', id, t) && i != id
    ensures i in s'.table && s'.table[i] == s.table[i]
    ensures PageOk(s', i)
    ensures !s.table[i].state.Released? ==> Authoritative(s', s.table[i]) == Authoritative(s, s.table[i])
  {
    OtherCarrier(s, s', id, t, i);
    hide ExtentsFramed, BuffersFramed, StoreFramed, TableFramed, LocalsFramed, Holds, OwnsRange, ReleasePoint;
    hide Authoritative, TargetData, DataIn, DataAt, Shape;
    var p := s.table[i];
    var c := Carrier(s, p);
    OtherHolds(s.dev, s'.dev, id, t, OfPage(i), LiveVram(p, c));
    OtherHolds(s.host, s'.host, id, t, OfPage(i), LiveHost(p, c));
    OtherRange(s, s', id, i, LiveRange(p, c), Extents(p.size, s.pageSize));
    if !p.state.Released? {
      LiveIsNamed(s, i);
      OtherContent(s, s', i);
    }
  }

  lemma OtherThread(s: State, s': State, id: PageId, t: Tid, u: Tid)
    requires u in s.locals && LocalOk(s, u) && OnlyTouches(s, s', id, t) && u != t
    ensures u in s'.locals && s'.locals[u] == s.locals[u]
    ensures LocalOk(s', u)
    ensures HeldVram(s', u) == HeldVram(s, u) && HeldRam(s', u) == HeldRam(s, u) && HeldNvme(s', u) == HeldNvme(s, u)
  {
    hide ExtentsFramed, BuffersFramed, StoreFramed, Holds;
    var l := s.locals[u];
    OtherHolds(s.dev, s'.dev, id, t, OfThread(u), DeviceInHand(l));
    OtherHolds(s.host, s'.host, id, t, OfThread(u), HostInHand(l));
  }

  lemma BufferOwnersPresent(s: State, s': State, b: map<Handle, Buffer>, b': map<Handle, Buffer>, id: PageId, t: Tid)
    requires BuffersFramed(b, b', id, t)
    requires TableFramed(s.table, s'.table, id) && LocalsFramed(s.locals, s'.locals, t)
    requires id in s'.table || Holds(b', OfPage(id), None)
    requires t in s'.locals || Holds(b', OfThread(t), None)
    requires forall h :: h in b ==> Present(s, b[h].owner)
    ensures forall h :: h in b' ==> Present(s', b'[h].owner)
  {
    forall h | h in b' ensures Present(s', b'[h].owner) {
      if !Mine(b'[h].owner, id, t) { assert h in b && b'[h] == b[h]; }
    }
  }

  lemma OwnersPresent(s: State, s': State, id: PageId, t: Tid)
    requires Structure(s) && OnlyTouches(s, s', id, t) && FocusOk(s', id, t)
    ensures forall h :: h in s'.dev ==> Present(s', s'.dev[h].owner)
    ensures forall h :: h in s'.host ==> Present(s', s'.host[h].owner)
    ensures forall e :: e in s'.ext ==> s'.ext[e] in s'.table
  {
    hide PageOk, LocalOk, BuffersFramed, Holds, Present;
    BufferOwnersPresent(s, s', s.dev, s'.dev, id, t);
    BufferOwnersPresent(s, s', s.host, s'.host, id, t);
  }

  /** The frame rule: what holds of the page and thread a step is about, and
      held of everything before, holds of everything after. */
  lemma Frame(s: State, s': State, id: PageId, t: Tid)
    requires Structure(s) && OnlyTouches(s, s', id, t) && FocusOk(s', id, t)
    ensures Structure(s')
  {
    hide PageOk, LocalOk, BuffersFramed, ExtentsFramed, StoreFramed;
    OwnersPresent(s, s', id, t);
    hide Present;
    forall i | i in s'.table ensures PageOk(s', i) {
      if i != id { OtherPage(s, s', id, t, i); }
    }
    forall u | u in s'.locals ensures LocalOk(s', u) {
      if u != t { OtherThread(s, s', id, t, u); }
    }
  }

  /** The ledger balances after a step when it balances at the page and the
      thread the step is about. */
  ghost predicate Balanced(s: State, s': State, id: PageId, t: Tid) {
    && s'.vram.used + PageVram(s, id) + HeldVram(s, t) == s.vram.used + PageVram(s', id) + HeldVram(s', t)
    && s'.ram.used + PageRam(s, id) + HeldRam(s, t) == s.ram.used + PageRam(s', id) + HeldRam(s', t)
    && s'.nvme.used + PageNvme(s, id) + HeldNvme(s, t) == s.nvme.used + PageNvme(s', id) + HeldNvme(s', t)
  }

  lemma PageChargesAgreeElsewhere(s: State, s': State, id: PageId, t: Tid)
    requires Structure(s) && OnlyTouches(s, s', id, t)
    ensures AgreeOff(PagesVram(s), PagesVram(s'), id)
    ensures AgreeOff(PagesRam(s), PagesRam(s'), id)
    ensures AgreeOff(PagesNvme(s), PagesNvme(s'), id)
  {
    hide PageOk, LocalOk, Present, BuffersFramed, ExtentsFramed, StoreFramed;
    hide PageVram, PageRam, PageNvme;
    forall i | i in s.table && i != id
      ensures i in s'.table && PageVram(s', i) == PageVram(s, i)
              && PageRam(s', i) == PageRam(s, i) && PageNvme(s', i) == PageNvme(s, i)
    {
      OtherCarrier(s, s', id, t, i);
    }
  }

  lemma ThreadChargesAgreeElsewhere(s: State, s': State, id: PageId, t: Tid)
    requires Structure(s) && OnlyTouches(s, s', id, t)
    ensures AgreeOff(ThreadsVram(s), ThreadsVram(s'), t)
    ensures AgreeOff(ThreadsRam(s), ThreadsRam(s'), t)
    ensures AgreeOff(ThreadsNvme(s), ThreadsNvme(s'), t)
  {
    hide PageOk, LocalOk, Present, BuffersFramed, ExtentsFramed, StoreFramed;
    hide HeldVram, HeldRam, HeldNvme;
    forall u | u in s.locals && u != t
      ensures u in s'.locals && HeldVram(s', u) == HeldVram(s, u)
              && HeldRam(s', u) == HeldRam(s, u) && HeldNvme(s', u) == HeldNvme(s, u)
    {
      OtherThread(s, s', id, t, u);
    }
  }

  lemma GetCharges(s: State, id: PageId, t: Tid)
    ensures Get(PagesVram(s), id) == PageVram(s, id) && Get(ThreadsVram(s), t) == HeldVram(s, t)
    ensures Get(PagesRam(s), id) == PageRam(s, id) && Get(ThreadsRam(s), t) == HeldRam(s, t)
    ensures Get(PagesNvme(s), id) == PageNvme(s, id) && Get(ThreadsNvme(s), t) == HeldNvme(s, t)
  {}

  lemma LedgerFrame(s: State, s': State, id: PageId, t: Tid)
    requires Structure(s) && Ledger(s) && OnlyTouches(s, s', id, t) && Balanced(s, s', id, t)
    ensures Ledger(s')
  {
    PageChargesAgreeElsewhere(s, s', id, t);
    ThreadChargesAgreeElsewhere(s, s', id, t);
    GetCharges(s, id, t);
    GetCharges(s', id, t);
    hide Total, Get, Structure, OnlyTouches, AgreeOff, PagesVram, PagesRam, PagesNvme, ThreadsVram, ThreadsRam, ThreadsNvme;
    hide PageVram, PageRam, PageNvme, HeldVram, HeldRam, HeldNvme;
    TotalChange(PagesVram(s), PagesVram(s'), id);
    TotalChange(PagesRam(s), PagesRam(s'), id);
    TotalChange(PagesNvme(s), PagesNvme(s'), id);
    TotalChange(ThreadsVram(s), ThreadsVram(s'), t);
    TotalChange(ThreadsRam(s), ThreadsRam(s'), t);
    TotalChange(ThreadsNvme(s), ThreadsNvme(s'), t);
  }

  /** A release never exceeds what is reserved. */
  predicate Covers(s: State, id: PageId, t: Tid) {
    && PageVram(s, id) + HeldVram(s, t) <= s.vram.used
    && PageRam(s, id) + HeldRam(s, t) <= s.ram.used
    && PageNvme(s, id) + HeldNvme(s, t) <= s.nvme.used
  }

  lemma Covered(s: State, id: PageId, t: Tid)
    requires Ledger(s)
    ensures Covers(s, id, t)
  {
    GetCharges(s, id, t);
    if id in s.table {
      TotalAtLeast(PagesVram(s), id);
      TotalAtLeast(PagesRam(s), id);
      TotalAtLeast(PagesNvme(s), id);
    }
    if t in s.locals {
      TotalAtLeast(ThreadsVram(s), t);
      TotalAtLeast(ThreadsRam(s), t);
      TotalAtLeast(ThreadsNvme(s), t);
    }
  }
}
