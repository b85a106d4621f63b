/** The page-movement protocol of src/runtime.cpp as a transition system.

    Every section the runtime executes under `state_mu_` is one atomic step.
    What a thread carries from one section to the next (the local variables of
    the running call) is its entry in `locals`; a thread without an entry holds
    nothing. A call made from within another (an allocation that demotes pages
    to make room, a demotion that writes others back) is a thread of its own
    here, since the caller's entry stays in `locals` meanwhile. Threads, page
    identifiers and buffer handles are unbounded in number, so a run of steps is
    an arbitrary interleaving. */
module Protocol {
  import opened Collections
  import opened Words
  import opened Pages
  import opened Budgets
  import Integrity

  // ---------------------------------------------------------------- content

  /** The bytes of one extent. */
  datatype Block = Block(bytes: seq<Byte>)

  /** The bytes of a page or buffer, cut into extents. */
  type Content = seq<Block>

  function Flatten(c: Content): seq<Byte> {
    if |c| == 0 then [] else c[0].bytes + Flatten(c[1..])
  }

  function Checksum(c: Content): Word {
    Integrity.Fnv(0xC0FFEE, Flatten(c))
  }

  function Extents(size: nat, pageSize: nat): nat {
    if pageSize == 0 then 0 else size / pageSize
  }

  // ------------------------------------------------------------------ state

  datatype Owner = OfPage(id: PageId) | OfThread(t: Tid)

  datatype Buffer = Buffer(owner: Owner, bytes: nat, data: Content)

  /** The identifier's size and the thread inside `allocate_page` for it. */
  datatype Birth = Birth(bytes: nat, creator: Tid)

  /** The four transfers. A writeback carries whether the store is written. */
  datatype Move = ToHost | ToNvme(write: bool) | FromNvme | ToVram

  /** The copy or store operation of a transfer: not issued, running, settled. */
  datatype Io = Unsent | Active | Done(ok: bool)

  /** Who asked for an eviction: a caller naming the page, or the search for
      victims that makes room in a full tier. */
  datatype Cause = Direct | Headroom

  /** Where `free_page` stands between its steps. */
  datatype Phase =
    | DropVram | VramFreed | VramCleared
    | DropHost | HostFreed
    | DropRange | RangeFreed | RangeCleared
    | Finish

  datatype Local =
    | Born(id: PageId, bytes: nat, pinned: bool)
    | Reserved(id: PageId, bytes: nat, pinned: bool)
    | DeviceHeld(id: PageId, bytes: nat, pinned: bool, h: Handle)
    | HostHeld(id: PageId, bytes: nat, pinned: bool, h: Handle)
    | Sized(id: PageId, bytes: nat, move: Move, cause: Cause)
    | Staged(id: PageId, bytes: nat, move: Move, cause: Cause, h: Handle)
    | Moving(id: PageId, move: Move, snap: Page, io: Io)
    | Releasing(id: PageId, snap: Page, phase: Phase, failed: bool)

  /** A thread's search for victims: the device pages it has collected, and the
      pages it has settled on and evicts without looking at their pins again. */
  datatype Search = Search(listed: set<PageId>, chosen: set<PageId>)

  datatype State = State(
    pageSize: nat,
    nextId: nat,
    accessSeq: nat,
    born: map<PageId, Birth>,
    table: map<PageId, Page>,
    locals: map<Tid, Local>,
    cands: map<Tid, Search>,
    dev: map<Handle, Buffer>,
    host: map<Handle, Buffer>,
    ext: map<nat, PageId>,
    store: seq<Block>,
    vram: Budget,
    ram: Budget,
    nvme: Budget
  )

  /** The runtime just after `start`: an empty table over empty tiers. */
  predicate Init(s: State) {
    && s.pageSize > 0 && s.nextId == 1
    && s.born == map[] && s.table == map[] && s.locals == map[] && s.cands == map[]
    && s.dev == map[] && s.host == map[] && s.ext == map[]
    && BudgetOk(s.vram) && BudgetOk(s.ram) && BudgetOk(s.nvme)
    && s.vram.used == 0 && s.ram.used == 0 && s.nvme.used == 0
    // the store's budget is its capacity, with nothing held back
    && s.nvme.reserve == 0 && s.nvme.limit == |s.store| * s.pageSize
  }

  // ------------------------------------------------------------------ steps

  /** `allocate_page`. */
  datatype AllocStep =
    | NewPage(t: Tid, logical: nat, pinned: bool)
    | ReserveVram(t: Tid)
    | DeviceAlloc(t: Tid, h: Handle, junk: Content)
    | DeviceAllocFails(t: Tid)
    | InsertVram(t: Tid)
    | HostAlloc(t: Tid, h: Handle, junk: Content)
    | InsertHost(t: Tid, tier: Tier)
    | InsertNvme(t: Tid, first: nat)

  /** The claims of the four transfers. */
  datatype ClaimStep =
    | ReadSize(t: Tid, id: PageId, move: Move, cause: Cause)
    | GiveUp(t: Tid)
    | StageHost(t: Tid, h: Handle, junk: Content)
    | Unstage(t: Tid)
    | ClaimStaged(t: Tid)
    | ClaimWriteback(t: Tid, id: PageId, first: nat, cause: Cause)
    | ClaimPromote(t: Tid, id: PageId, h: Handle, junk: Content)

  /** The unlocked copy or store operation, and the settlement. */
  datatype CopyStep =
    | Submit(t: Tid)
    | Scribble(t: Tid, junk: Content)
    | Retire(t: Tid, ok: bool, junk: Content)
    | Complete(t: Tid, tier: Tier)
    | Fail(t: Tid)

  datatype AccessStep =
    | Write(t: Tid, id: PageId, data: Content)
    | Read(t: Tid, id: PageId)
    | Drop(t: Tid, id: PageId, cause: Cause)
    | Pin(t: Tid, id: PageId, pinned: bool)
    | Reclaim(t: Tid, id: PageId)

  /** `free_page`, one section or unlocked backend call at a time. */
  datatype FreeStep =
    | BeginFree(t: Tid, id: PageId)
    | DeviceFree(t: Tid, ok: bool)
    | ClearVram(t: Tid)
    | RefundVram(t: Tid)
    | HostFree(t: Tid, ok: bool)
    | ClearHost(t: Tid)
    | FreeRange(t: Tid)
    | ClearRange(t: Tid)
    | RefundNvme(t: Tid)
    | EndFree(t: Tid)

  /** The victim search of `ensure_vram_headroom`, which tests each collected
      page once more before demoting it, and of `claim_host_buffer`, which does
      not. */
  datatype SearchStep =
    | CollectVram(t: Tid)
    | Choose(t: Tid, id: PageId)
    | CollectHost(t: Tid, requester: PageId)
    | Forget(t: Tid)

  datatype Step =
    | Allocating(a: AllocStep)
    | Claiming(c: ClaimStep)
    | Copying(k: CopyStep)
    | Accessing(x: AccessStep)
    | Freeing(f: FreeStep)
    | Searching(v: SearchStep)

  // ------------------------------------------------------ pieces of the steps

  /** `allocate_page` rounds the request up to whole extents. */
  function AllocationSize(logical: nat, pageSize: nat): (r: nat)
    requires pageSize > 0
    ensures logical <= r < logical + pageSize
    ensures r % pageSize == 0
  {
    RoundsUp(logical, pageSize);
    (logical + pageSize - 1) / pageSize * pageSize
  }

  lemma RoundsUp(logical: nat, pageSize: nat)
    requires pageSize > 0
    ensures var r := (logical + pageSize - 1) / pageSize * pageSize;
      logical <= r < logical + pageSize && r % pageSize == 0
  {
    var x := logical + pageSize - 1;
    var q := x / pageSize;
    assert x == q * pageSize + x % pageSize;
    MultipleHasNoRemainder(q, pageSize);
  }

  lemma MultipleHasNoRemainder(q: nat, d: nat)
    requires d > 0
    ensures (q * d) % d == 0
  {
    var m := q * d;
    var k := q - m / d;
    assert m == m / d * d + m % d;
    assert k * d == m % d;
    if k >= 1 { MulMonotone(1, k, d); }
    if k <= -1 { MulMonotone(k, -1, d); }
  }

  function FreshPage(id: PageId, bytes: nat, pinned: bool): Page {
    Page(id, bytes, None, Unallocated, NoTier, false, pinned, None, false, 0, 0, 0, None, None)
  }

  predicate RangeFree(s: State, first: nat, n: nat) {
    first + n <= |s.store| && forall e :: first <= e < first + n ==> e !in s.ext
  }

  function Own(ext: map<nat, PageId>, first: nat, n: nat, id: PageId): (r: map<nat, PageId>)
    ensures forall e :: e in r <==> e in ext || first <= e < first + n
    ensures forall e :: e in r ==> r[e] == if first <= e < first + n then id else ext[e]
  {
    if n == 0 then ext else Own(ext, first, n - 1, id)[first + n - 1 := id]
  }

  function Disown(ext: map<nat, PageId>, first: nat, n: nat): map<nat, PageId> {
    map e | e in ext && !(first <= e < first + n) :: ext[e]
  }

  function SearchOf(s: State, t: Tid): Search {
    if t in s.cands then s.cands[t] else Search({}, {})
  }

  /** The pages a thread will evict without another look at their pins. */
  function Candidates(s: State, t: Tid): set<PageId> {
    SearchOf(s, t).chosen
  }

  /** The state a page is in while a transfer moves it, and the one it must
      be in to be claimed. */
  function TransferState(m: Move): PageState {
    match m
    case ToHost => EvictingToHost
    case ToNvme(_) => EvictingToNvme
    case FromNvme => LoadingToHost
    case ToVram => LoadingToVram
  }

  function SourceState(m: Move): PageState {
    match m
    case ToHost => ResidentVram
    case ToNvme(_) => ResidentHost
    case FromNvme => ResidentNvme
    case ToVram => ResidentHost
  }

  function TargetState(m: Move): PageState {
    match m
    case ToHost => ResidentHost
    case ToNvme(_) => ResidentNvme
    case FromNvme => ResidentHost
    case ToVram => ResidentVram
  }

  function DataIn(bufs: map<Handle, Buffer>, h: Option<Handle>): Content {
    if h.Some? && h.value in bufs then bufs[h.value].data else []
  }

  function DataAt(s: State, offset: Option<nat>, n: nat): Content {
    if offset.Some? then Slice(s.store, offset.value, n) else []
  }

  function PutBuffer(bufs: map<Handle, Buffer>, h: Option<Handle>, data: Content): map<Handle, Buffer> {
    if h.Some? && h.value in bufs then bufs[h.value := bufs[h.value].(data := data)] else bufs
  }

  function PutRange(store: seq<Block>, offset: Option<nat>, data: Content): (r: seq<Block>)
    ensures |r| == |store|
  {
    if offset.Some? && offset.value + |data| <= |store| then Splice(store, offset.value, data) else store
  }

  function FreeBuffer(bufs: map<Handle, Buffer>, h: Option<Handle>): map<Handle, Buffer> {
    if h.Some? then bufs - {h.value} else bufs
  }

  function Reown(bufs: map<Handle, Buffer>, h: Handle, o: Owner): map<Handle, Buffer> {
    if h in bufs then bufs[h := bufs[h].(owner := o)] else bufs
  }

  /** What a transfer reads from, by the pointers it captured at its claim. */
  function SourceData(s: State, m: Move, snap: Page): Content {
    match m
    case ToHost => DataIn(s.dev, snap.vram)
    case ToNvme(_) => DataIn(s.host, snap.host)
    case FromNvme => DataAt(s, snap.offset, Extents(snap.size, s.pageSize))
    case ToVram => DataIn(s.host, snap.host)
  }

  /** What it writes to. */
  function TargetData(s: State, m: Move, snap: Page): Content {
    match m
    case ToHost => DataIn(s.host, snap.host)
    case ToNvme(_) => DataAt(s, snap.offset, Extents(snap.size, s.pageSize))
    case FromNvme => DataIn(s.host, snap.host)
    case ToVram => DataIn(s.dev, snap.vram)
  }

  function PutTarget(s: State, m: Move, snap: Page, data: Content): State {
    s.(host := if m.ToHost? || m.FromNvme? then PutBuffer(s.host, snap.host, data) else s.host,
       dev := if m.ToVram? then PutBuffer(s.dev, snap.vram, data) else s.dev,
       store := if m.ToNvme? then PutRange(s.store, snap.offset, data) else s.store)
  }

  /** `free_page` skips the resources the page did not hold. */
  function FirstPhase(snap: Page): Phase {
    if snap.vram.Some? then DropVram else AfterVram(snap)
  }

  function AfterVram(snap: Page): Phase {
    if snap.host.Some? then DropHost else AfterHost(snap)
  }

  function AfterHost(snap: Page): Phase {
    if snap.offset.Some? then DropRange else Finish
  }

  predicate Idle(s: State, t: Tid) {
    t !in s.locals
  }

  predicate InPhase(s: State, t: Tid, phase: Phase) {
    && t in s.locals && s.locals[t].Releasing? && s.locals[t].phase == phase
    && s.locals[t].id in s.table
  }

  predicate Settled(s: State, id: PageId, st: PageState) {
    id in s.table && s.table[id].state == st && s.table[id].flight.None?
  }

  predicate InMove(s: State, t: Tid) {
    t in s.locals && s.locals[t].Moving? && s.locals[t].id in s.table
  }

  /** A writeback is needed unless the store already holds a clean copy. */
  predicate NeedsWrite(p: Page) {
    p.dirty || !p.hasCopy
  }

  predicate NeedsRange(p: Page) {
    NeedsWrite(p) && p.offset.None?
  }

  function WithoutLocal(s: State, t: Tid): State {
    s.(locals := s.locals - {t})
  }

  predicate IsBorn(s: State, t: Tid) { t in s.locals && s.locals[t].Born? }
  predicate IsReserved(s: State, t: Tid) { t in s.locals && s.locals[t].Reserved? }
  predicate IsSized(s: State, t: Tid) { t in s.locals && s.locals[t].Sized? }
  predicate IsStaged(s: State, t: Tid) { t in s.locals && s.locals[t].Staged? }

  // Each step comes as a pair: `CanX` is what the code tests before the
  // section takes effect, together with what the backends promise (a handle or
  // range newly handed out is not live); `DoX` is the effect of the section.

  // ---------------------------------------------------------- allocate_page

  predicate CanNewPage(s: State, t: Tid, logical: nat) {
    Idle(s, t) && 0 < logical && s.pageSize > 0 && logical + (s.pageSize - 1) < 0x1_0000_0000_0000_0000
    && 0 < s.nextId < 0xffff_ffff_ffff_ffff
  }

  function DoNewPage(s: State, t: Tid, logical: nat, pinned: bool): State
    requires CanNewPage(s, t, logical)
  {
    var bytes := AllocationSize(logical, s.pageSize);
    s.(nextId := s.nextId + 1, born := s.born[s.nextId := Birth(bytes, t)],
       locals := s.locals[t := Born(s.nextId, bytes, pinned)])
  }

  predicate CanReserveVram(s: State, t: Tid) {
    IsBorn(s, t) && Fits(s.vram, s.locals[t].bytes)
  }

  function DoReserveVram(s: State, t: Tid): State
    requires CanReserveVram(s, t)
  {
    var l := s.locals[t];
    s.(vram := Charge(s.vram, l.bytes), locals := s.locals[t := Reserved(l.id, l.bytes, l.pinned)])
  }

  predicate CanDeviceAlloc(s: State, t: Tid, h: Handle, junk: Content) {
    IsReserved(s, t) && h !in s.dev && |junk| == Extents(s.locals[t].bytes, s.pageSize)
  }

  function DoDeviceAlloc(s: State, t: Tid, h: Handle, junk: Content): State
    requires CanDeviceAlloc(s, t, h, junk)
  {
    var l := s.locals[t];
    s.(dev := s.dev[h := Buffer(OfThread(t), l.bytes, junk)],
       locals := s.locals[t := DeviceHeld(l.id, l.bytes, l.pinned, h)])
  }

  function DoDeviceAllocFails(s: State, t: Tid): State
    requires IsReserved(s, t)
  {
    s.(vram := Refund(s.vram, s.locals[t].bytes), locals := s.locals - {t})
  }

  predicate CanInsertVram(s: State, t: Tid) {
    t in s.locals && s.locals[t].DeviceHeld?
  }

  function DoInsertVram(s: State, t: Tid): State
    requires CanInsertVram(s, t)
  {
    var l := s.locals[t];
    var p := FreshPage(l.id, l.bytes, l.pinned).(vram := Some(l.h));
    s.(dev := Reown(s.dev, l.h, OfPage(l.id)), table := s.table[l.id := Moved(p, ResidentVram)],
       locals := s.locals - {t})
  }

  predicate CanHostAlloc(s: State, t: Tid, h: Handle, junk: Content) {
    IsBorn(s, t) && h !in s.host && Fits(s.ram, s.locals[t].bytes)
    && |junk| == Extents(s.locals[t].bytes, s.pageSize)
  }

  function DoHostAlloc(s: State, t: Tid, h: Handle, junk: Content): State
    requires CanHostAlloc(s, t, h, junk)
  {
    var l := s.locals[t];
    s.(host := s.host[h := Buffer(OfThread(t), l.bytes, junk)], ram := Charge(s.ram, l.bytes),
       locals := s.locals[t := HostHeld(l.id, l.bytes, l.pinned, h)])
  }

  predicate CanInsertHost(s: State, t: Tid) {
    t in s.locals && s.locals[t].HostHeld?
  }

  function DoInsertHost(s: State, t: Tid, tier: Tier): State
    requires CanInsertHost(s, t)
  {
    var l := s.locals[t];
    var p := FreshPage(l.id, l.bytes, l.pinned).(host := Some(l.h));
    s.(host := Reown(s.host, l.h, OfPage(l.id)), table := s.table[l.id := Moved(p, ResidentHost).(tier := tier)],
       locals := s.locals - {t})
  }

  predicate CanInsertNvme(s: State, t: Tid, first: nat) {
    IsBorn(s, t) && Fits(s.nvme, s.locals[t].bytes)
    && RangeFree(s, first, Extents(s.locals[t].bytes, s.pageSize))
  }

  function DoInsertNvme(s: State, t: Tid, first: nat): State
    requires CanInsertNvme(s, t, first)
  {
    var l := s.locals[t];
    var p := FreshPage(l.id, l.bytes, l.pinned).(offset := Some(first));
    s.(ext := Own(s.ext, first, Extents(l.bytes, s.pageSize), l.id), nvme := Charge(s.nvme, l.bytes),
       table := s.table[l.id := Moved(p, ResidentNvme)], locals := s.locals - {t})
  }

  // ----------------------------------------------------------------- claims

  predicate CanReadSize(s: State, t: Tid, id: PageId, move: Move, cause: Cause) {
    Idle(s, t) && id in s.table && (move.ToHost? || move.FromNvme?)
    && (cause.Headroom? ==> move.ToHost? && id in Candidates(s, t))
  }

  function DoReadSize(s: State, t: Tid, id: PageId, move: Move, cause: Cause): State
    requires CanReadSize(s, t, id, move, cause)
  {
    s.(locals := s.locals[t := Sized(id, s.table[id].size, move, cause)])
  }

  predicate CanStageHost(s: State, t: Tid, h: Handle, junk: Content) {
    IsSized(s, t) && h !in s.host && Fits(s.ram, s.locals[t].bytes)
    && |junk| == Extents(s.locals[t].bytes, s.pageSize)
  }

  function DoStageHost(s: State, t: Tid, h: Handle, junk: Content): State
    requires CanStageHost(s, t, h, junk)
  {
    var l := s.locals[t];
    s.(host := s.host[h := Buffer(OfThread(t), l.bytes, junk)], ram := Charge(s.ram, l.bytes),
       locals := s.locals[t := Staged(l.id, l.bytes, l.move, l.cause, h)])
  }

  /** The claim of a staged transfer: the page is still where it was. */
  predicate CanClaimStaged(s: State, t: Tid) {
    IsStaged(s, t) && Settled(s, s.locals[t].id, SourceState(s.locals[t].move))
  }

  function DoUnstage(s: State, t: Tid): State
    requires IsStaged(s, t)
  {
    var l := s.locals[t];
    s.(host := s.host - {l.h}, ram := Refund(s.ram, l.bytes), locals := s.locals - {t})
  }

  function DoClaimStaged(s: State, t: Tid): State
    requires CanClaimStaged(s, t)
  {
    var l := s.locals[t];
    var p := Moved(s.table[l.id].(host := Some(l.h), flight := Some(t)), TransferState(l.move));
    s.(host := Reown(s.host, l.h, OfPage(l.id)), table := s.table[l.id := p],
       locals := s.locals[t := Moving(l.id, l.move, p, Unsent)])
  }

  predicate CanClaimWriteback(s: State, t: Tid, id: PageId, first: nat, cause: Cause) {
    Idle(s, t) && Settled(s, id, ResidentHost) && (cause.Headroom? ==> id in Candidates(s, t))
    && (NeedsRange(s.table[id]) ==>
          RangeFree(s, first, Extents(s.table[id].size, s.pageSize)) && Fits(s.nvme, s.table[id].size))
  }

  /** The writeback claim gives the page an extent range when it has none. */
  function DoClaimWriteback(s: State, t: Tid, id: PageId, first: nat): State
    requires Settled(s, id, ResidentHost)
  {
    var p := s.table[id];
    var needs := NeedsRange(p);
    var p' := Moved(p.(offset := if needs then Some(first) else p.offset, flight := Some(t)), EvictingToNvme);
    s.(ext := if needs then Own(s.ext, first, Extents(p.size, s.pageSize), id) else s.ext,
       nvme := if needs then Charge(s.nvme, p.size) else s.nvme,
       table := s.table[id := p'],
       locals := s.locals[t := Moving(id, ToNvme(NeedsWrite(p)), p', Unsent)])
  }

  predicate CanClaimPromote(s: State, t: Tid, id: PageId, h: Handle, junk: Content) {
    Idle(s, t) && Settled(s, id, ResidentHost) && Fits(s.vram, s.table[id].size) && h !in s.dev
    && |junk| == Extents(s.table[id].size, s.pageSize)
  }

  function DoClaimPromote(s: State, t: Tid, id: PageId, h: Handle, junk: Content): State
    requires CanClaimPromote(s, t, id, h, junk)
  {
    var p := s.table[id];
    var p' := Moved(p.(vram := Some(h), flight := Some(t)), LoadingToVram);
    s.(dev := s.dev[h := Buffer(OfPage(id), p.size, junk)], vram := Charge(s.vram, p.size),
       table := s.table[id := p'], locals := s.locals[t := Moving(id, ToVram, p', Unsent)])
  }

  // --------------------------------------------------------- the unlocked copy

  predicate CanSubmit(s: State, t: Tid) {
    InMove(s, t) && s.locals[t].io.Unsent? && s.locals[t].move != ToNvme(false)
  }

  function DoSubmit(s: State, t: Tid): State
    requires CanSubmit(s, t)
  {
    s.(locals := s.locals[t := s.locals[t].(io := Active)])
  }

  predicate CanCopy(s: State, t: Tid, junk: Content) {
    InMove(s, t) && s.locals[t].io.Active? && |junk| == Extents(s.locals[t].snap.size, s.pageSize)
  }

  /** Until the copy settles its destination may hold anything. */
  function DoScribble(s: State, t: Tid, junk: Content): State
    requires CanCopy(s, t, junk)
  {
    PutTarget(s, s.locals[t].move, s.locals[t].snap, junk)
  }

  function DoRetire(s: State, t: Tid, ok: bool, junk: Content): State
    requires CanCopy(s, t, junk)
  {
    var l := s.locals[t];
    var data := if ok then SourceData(s, l.move, l.snap) else junk;
    PutTarget(s, l.move, l.snap, data).(locals := s.locals[t := l.(io := Done(ok))])
  }

  // -------------------------------------------------------------- settlement

  predicate CanComplete(s: State, t: Tid) {
    InMove(s, t) && (s.locals[t].io == Done(true) || (s.locals[t].io.Unsent? && s.locals[t].move == ToNvme(false)))
  }

  /** The page as the completion section leaves it. */
  function CompletedPage(p: Page, m: Move, tier: Tier): Page {
    match m
    case ToHost => Moved(p.(vram := None, flight := None), ResidentHost).(tier := tier)
    case ToNvme(_) => Moved(p.(host := None, flight := None, dirty := false, hasCopy := true), ResidentNvme)
    case FromNvme => Moved(p.(flight := None), ResidentHost).(tier := tier)
    case ToVram => Moved(p.(host := None, flight := None), ResidentVram)
  }

  /** The completion sections: the source is given back. The pointers come from
      the claim's snapshot. */
  function DoComplete(s: State, t: Tid, tier: Tier): State
    requires CanComplete(s, t)
  {
    var l := s.locals[t];
    var freesHost := l.move.ToNvme? || l.move.ToVram?;
    s.(dev := if l.move.ToHost? then FreeBuffer(s.dev, l.snap.vram) else s.dev,
       vram := if l.move.ToHost? then Refund(s.vram, l.snap.size) else s.vram,
       host := if freesHost then FreeBuffer(s.host, l.snap.host) else s.host,
       ram := if freesHost then Refund(s.ram, l.snap.size) else s.ram,
       table := s.table[l.id := CompletedPage(s.table[l.id], l.move, tier)],
       locals := s.locals - {t})
  }

  predicate CanFail(s: State, t: Tid) {
    InMove(s, t) && (s.locals[t].io.Unsent? || s.locals[t].io == Done(false)) && s.locals[t].move != ToNvme(false)
  }

  function FailedPage(p: Page, m: Move): Page {
    match m
    case ToHost => Moved(p.(host := None, flight := None), Error)
    case ToNvme(_) => Moved(p.(flight := None), Error)
    case FromNvme => Moved(p.(host := None, flight := None), Error)
    case ToVram => Moved(p.(vram := None, flight := None), Error)
  }

  /** The failure sections: the destination is given back, the source kept. */
  function DoFail(s: State, t: Tid): State
    requires CanFail(s, t)
  {
    var l := s.locals[t];
    var freesHost := l.move.ToHost? || l.move.FromNvme?;
    s.(dev := if l.move.ToVram? then FreeBuffer(s.dev, l.snap.vram) else s.dev,
       vram := if l.move.ToVram? then Refund(s.vram, l.snap.size) else s.vram,
       host := if freesHost then FreeBuffer(s.host, l.snap.host) else s.host,
       ram := if freesHost then Refund(s.ram, l.snap.size) else s.ram,
       table := s.table[l.id := FailedPage(s.table[l.id], l.move)],
       locals := s.locals - {t})
  }

  // -------------------------------------------------- access and residency

  predicate CanAccess(s: State, t: Tid, id: PageId) {
    Idle(s, t) && id in s.table && (s.table[id].state.ResidentHost? || s.table[id].state.ResidentVram?)
  }

  predicate CanWrite(s: State, t: Tid, id: PageId, data: Content) {
    CanAccess(s, t, id) && |data| == Extents(s.table[id].size, s.pageSize)
  }

  function DoWrite(s: State, t: Tid, id: PageId, data: Content): State
    requires CanWrite(s, t, id, data)
  {
    var p := s.table[id];
    s.(host := if p.state.ResidentHost? then PutBuffer(s.host, p.host, data) else s.host,
       dev := if p.state.ResidentHost? then s.dev else PutBuffer(s.dev, p.vram, data),
       accessSeq := s.accessSeq + 1,
       table := s.table[id := p.(dirty := true, hasCopy := false, checksum := Checksum(data),
                                 lastAccess := s.accessSeq + 1, accessCount := p.accessCount + 1)])
  }

  /** What `read_page` copies out. */
  function ReadData(s: State, id: PageId): Content
    requires id in s.table
  {
    if s.table[id].state.ResidentHost? then DataIn(s.host, s.table[id].host) else DataIn(s.dev, s.table[id].vram)
  }

  function DoRead(s: State, t: Tid, id: PageId): State
    requires CanAccess(s, t, id)
  {
    var p := s.table[id];
    s.(accessSeq := s.accessSeq + 1,
       table := s.table[id := p.(lastAccess := s.accessSeq + 1, accessCount := p.accessCount + 1)])
  }

  /** The clean drop of `evict` and `ensure_vram_headroom`. */
  predicate CanDrop(s: State, t: Tid, id: PageId, cause: Cause) {
    Idle(s, t) && Settled(s, id, ResidentVram) && !s.table[id].dirty && s.table[id].hasCopy
    && (cause.Headroom? ==> id in SearchOf(s, t).listed && !s.table[id].pinned)
  }

  function DoDrop(s: State, t: Tid, id: PageId): State
    requires id in s.table
  {
    var p := s.table[id];
    s.(dev := FreeBuffer(s.dev, p.vram), vram := Refund(s.vram, p.size),
       table := s.table[id := Moved(p.(vram := None), ResidentNvme)])
  }

  predicate CanPin(s: State, t: Tid, id: PageId) {
    Idle(s, t) && id in s.table
  }

  function DoPin(s: State, id: PageId, pinned: bool): State
    requires id in s.table
  {
    s.(table := s.table[id := s.table[id].(pinned := pinned)])
  }

  /** Which cached extents `reserve_nvme_range_locked` may take: the page's
      authoritative copy is elsewhere and no transfer touches it. */
  predicate Reclaimable(p: Page) {
    p.flight.None? && p.offset.Some? && (p.state.ResidentVram? || p.state.ResidentHost?)
  }

  function WithoutCachedCopy(p: Page): Page {
    p.(offset := None, hasCopy := false)
  }

  predicate CanReclaim(s: State, t: Tid, id: PageId) {
    (Idle(s, t) || IsBorn(s, t)) && id in s.table && Reclaimable(s.table[id])
  }

  function DoReclaim(s: State, t: Tid, id: PageId): State
    requires CanReclaim(s, t, id)
  {
    var p := s.table[id];
    s.(ext := Disown(s.ext, p.offset.value, Extents(p.size, s.pageSize)), nvme := Refund(s.nvme, p.size),
       table := s.table[id := WithoutCachedCopy(p)])
  }

  // -------------------------------------------------------------- free_page

  predicate CanBeginFree(s: State, t: Tid, id: PageId) {
    Idle(s, t) && id in s.table && s.table[id].flight.None?
    && var st := s.table[id].state;
       st.ResidentVram? || st.ResidentHost? || st.ResidentNvme? || st.Error? || st.Released?
  }

  function DoBeginFree(s: State, t: Tid, id: PageId): State
    requires CanBeginFree(s, t, id)
  {
    var p := s.table[id];
    var p' := if p.state.Released? then p else Moved(p, Released);
    s.(table := s.table[id := p'.(flight := Some(t))],
       locals := s.locals[t := Releasing(id, p, FirstPhase(p), false)])
  }

  function DoDeviceFree(s: State, t: Tid, ok: bool): State
    requires InPhase(s, t, DropVram)
  {
    var l := s.locals[t];
    s.(dev := if ok then FreeBuffer(s.dev, l.snap.vram) else s.dev,
       locals := s.locals[t := if ok then l.(phase := VramFreed)
                               else l.(phase := AfterVram(l.snap), failed := true)])
  }

  function DoClearVram(s: State, t: Tid): State
    requires InPhase(s, t, VramFreed)
  {
    var l := s.locals[t];
    s.(table := s.table[l.id := s.table[l.id].(vram := None)], locals := s.locals[t := l.(phase := VramCleared)])
  }

  function DoRefundVram(s: State, t: Tid): State
    requires InPhase(s, t, VramCleared)
  {
    var l := s.locals[t];
    s.(vram := Refund(s.vram, l.snap.size), locals := s.locals[t := l.(phase := AfterVram(l.snap))])
  }

  function DoHostFree(s: State, t: Tid, ok: bool): State
    requires InPhase(s, t, DropHost)
  {
    var l := s.locals[t];
    s.(host := if ok then FreeBuffer(s.host, l.snap.host) else s.host,
       ram := if ok then Refund(s.ram, l.snap.size) else s.ram,
       locals := s.locals[t := if ok then l.(phase := HostFreed)
                               else l.(phase := AfterHost(l.snap), failed := true)])
  }

  function DoClearHost(s: State, t: Tid): State
    requires InPhase(s, t, HostFreed)
  {
    var l := s.locals[t];
    s.(table := s.table[l.id := s.table[l.id].(host := None)], locals := s.locals[t := l.(phase := AfterHost(l.snap))])
  }

  function DoFreeRange(s: State, t: Tid): State
    requires InPhase(s, t, DropRange)
  {
    var l := s.locals[t];
    s.(ext := if l.snap.offset.Some? then Disown(s.ext, l.snap.offset.value, Extents(l.snap.size, s.pageSize))
              else s.ext,
       locals := s.locals[t := l.(phase := RangeFreed)])
  }

  function DoClearRange(s: State, t: Tid): State
    requires InPhase(s, t, RangeFreed)
  {
    var l := s.locals[t];
    s.(table := s.table[l.id := s.table[l.id].(offset := None, hasCopy := false)],
       locals := s.locals[t := l.(phase := RangeCleared)])
  }

  function DoRefundNvme(s: State, t: Tid): State
    requires InPhase(s, t, RangeCleared)
  {
    var l := s.locals[t];
    s.(nvme := Refund(s.nvme, l.snap.size), locals := s.locals[t := l.(phase := Finish)])
  }

  function DoEndFree(s: State, t: Tid): State
    requires InPhase(s, t, Finish)
  {
    var l := s.locals[t];
    s.(table := if l.failed then s.table[l.id := s.table[l.id].(flight := None)] else s.table - {l.id},
       locals := s.locals - {t})
  }

  // -------------------------------------------------------- the victim search

  function VramVictims(s: State): set<PageId> {
    set id | id in s.table && s.table[id].state.ResidentVram? && !s.table[id].pinned && s.table[id].flight.None?
  }

  function HostVictims(s: State, requester: PageId): set<PageId> {
    set id | id in s.table && id != requester && s.table[id].state.ResidentHost? && !s.table[id].pinned
             && s.table[id].flight.None?
  }

  predicate CanChoose(s: State, t: Tid, id: PageId) {
    id in SearchOf(s, t).listed && id in VramVictims(s)
  }

  function DoList(s: State, t: Tid, victims: set<PageId>): State {
    s.(cands := s.cands[t := Search(victims, Candidates(s, t))])
  }

  function DoChoose(s: State, t: Tid, victims: set<PageId>): State {
    s.(cands := s.cands[t := Search(SearchOf(s, t).listed, Candidates(s, t) + victims)])
  }

  // ---------------------------------------------------------------- dispatch

  predicate AllocEnabled(s: State, step: AllocStep) {
    match step
    case NewPage(t, logical, _) => CanNewPage(s, t, logical)
    case ReserveVram(t) => CanReserveVram(s, t)
    case DeviceAlloc(t, h, junk) => CanDeviceAlloc(s, t, h, junk)
    case DeviceAllocFails(t) => IsReserved(s, t)
    case InsertVram(t) => CanInsertVram(s, t)
    case HostAlloc(t, h, junk) => CanHostAlloc(s, t, h, junk)
    case InsertHost(t, _) => CanInsertHost(s, t)
    case InsertNvme(t, first) => CanInsertNvme(s, t, first)
  }

  function ApplyAlloc(s: State, step: AllocStep): State
    requires AllocEnabled(s, step)
  {
    match step
    case NewPage(t, logical, pinned) => DoNewPage(s, t, logical, pinned)
    case ReserveVram(t) => DoReserveVram(s, t)
    case DeviceAlloc(t, h, junk) => DoDeviceAlloc(s, t, h, junk)
    case DeviceAllocFails(t) => DoDeviceAllocFails(s, t)
    case InsertVram(t) => DoInsertVram(s, t)
    case HostAlloc(t, h, junk) => DoHostAlloc(s, t, h, junk)
    case InsertHost(t, tier) => DoInsertHost(s, t, tier)
    case InsertNvme(t, first) => DoInsertNvme(s, t, first)
  }

  predicate ClaimEnabled(s: State, step: ClaimStep) {
    match step
    case ReadSize(t, id, move, cause) => CanReadSize(s, t, id, move, cause)
    case GiveUp(t) => IsBorn(s, t) || IsSized(s, t)
    case StageHost(t, h, junk) => CanStageHost(s, t, h, junk)
    case Unstage(t) => IsStaged(s, t) && !CanClaimStaged(s, t)
    case ClaimStaged(t) => CanClaimStaged(s, t)
    case ClaimWriteback(t, id, first, cause) => CanClaimWriteback(s, t, id, first, cause)
    case ClaimPromote(t, id, h, junk) => CanClaimPromote(s, t, id, h, junk)
  }

  function ApplyClaim(s: State, step: ClaimStep): State
    requires ClaimEnabled(s, step)
  {
    match step
    case ReadSize(t, id, move, cause) => DoReadSize(s, t, id, move, cause)
    case GiveUp(t) => WithoutLocal(s, t)
    case StageHost(t, h, junk) => DoStageHost(s, t, h, junk)
    case Unstage(t) => DoUnstage(s, t)
    case ClaimStaged(t) => DoClaimStaged(s, t)
    case ClaimWriteback(t, id, first, _) => DoClaimWriteback(s, t, id, first)
    case ClaimPromote(t, id, h, junk) => DoClaimPromote(s, t, id, h, junk)
  }

  predicate CopyEnabled(s: State, step: CopyStep) {
    match step
    case Submit(t) => CanSubmit(s, t)
    case Scribble(t, junk) => CanCopy(s, t, junk)
    case Retire(t, _, junk) => CanCopy(s, t, junk)
    case Complete(t, _) => CanComplete(s, t)
    case Fail(t) => CanFail(s, t)
  }

  function ApplyCopy(s: State, step: CopyStep): State
    requires CopyEnabled(s, step)
  {
    match step
    case Submit(t) => DoSubmit(s, t)
    case Scribble(t, junk) => DoScribble(s, t, junk)
    case Retire(t, ok, junk) => DoRetire(s, t, ok, junk)
    case Complete(t, tier) => DoComplete(s, t, tier)
    case Fail(t) => DoFail(s, t)
  }

  predicate AccessEnabled(s: State, step: AccessStep) {
    match step
    case Write(t, id, data) => CanWrite(s, t, id, data)
    case Read(t, id) => CanAccess(s, t, id)
    case Drop(t, id, cause) => CanDrop(s, t, id, cause)
    case Pin(t, id, _) => CanPin(s, t, id)
    case Reclaim(t, id) => CanReclaim(s, t, id)
  }

  function ApplyAccess(s: State, step: AccessStep): State
    requires AccessEnabled(s, step)
  {
    match step
    case Write(t, id, data) => DoWrite(s, t, id, data)
    case Read(t, id) => DoRead(s, t, id)
    case Drop(t, id, _) => DoDrop(s, t, id)
    case Pin(_, id, pinned) => DoPin(s, id, pinned)
    case Reclaim(t, id) => DoReclaim(s, t, id)
  }

  predicate FreeEnabled(s: State, step: FreeStep) {
    match step
    case BeginFree(t, id) => CanBeginFree(s, t, id)
    case DeviceFree(t, _) => InPhase(s, t, DropVram)
    case ClearVram(t) => InPhase(s, t, VramFreed)
    case RefundVram(t) => InPhase(s, t, VramCleared)
    case HostFree(t, _) => InPhase(s, t, DropHost)
    case ClearHost(t) => InPhase(s, t, HostFreed)
    case FreeRange(t) => InPhase(s, t, DropRange)
    case ClearRange(t) => InPhase(s, t, RangeFreed)
    case RefundNvme(t) => InPhase(s, t, RangeCleared)
    case EndFree(t) => InPhase(s, t, Finish)
  }

  function ApplyFree(s: State, step: FreeStep): State
    requires FreeEnabled(s, step)
  {
    match step
    case BeginFree(t, id) => DoBeginFree(s, t, id)
    case DeviceFree(t, ok) => DoDeviceFree(s, t, ok)
    case ClearVram(t) => DoClearVram(s, t)
    case RefundVram(t) => DoRefundVram(s, t)
    case HostFree(t, ok) => DoHostFree(s, t, ok)
    case ClearHost(t) => DoClearHost(s, t)
    case FreeRange(t) => DoFreeRange(s, t)
    case ClearRange(t) => DoClearRange(s, t)
    case RefundNvme(t) => DoRefundNvme(s, t)
    case EndFree(t) => DoEndFree(s, t)
  }

  predicate SearchEnabled(s: State, step: SearchStep) {
    step.Choose? ==> CanChoose(s, step.t, step.id)
  }

  function ApplySearch(s: State, step: SearchStep): State {
    match step
    case CollectVram(t) => DoList(s, t, VramVictims(s))
    case Choose(t, id) => DoChoose(s, t, {id})
    case CollectHost(t, requester) => DoChoose(s, t, HostVictims(s, requester))
    case Forget(t) => s.(cands := s.cands - {t})
  }

  predicate Enabled(s: State, step: Step) {
    match step
    case Allocating(a) => AllocEnabled(s, a)
    case Claiming(c) => ClaimEnabled(s, c)
    case Copying(k) => CopyEnabled(s, k)
    case Accessing(x) => AccessEnabled(s, x)
    case Freeing(f) => FreeEnabled(s, f)
    case Searching(v) => SearchEnabled(s, v)
  }

  function Apply(s: State, step: Step): State
    requires Enabled(s, step)
  {
    match step
    case Allocating(a) => ApplyAlloc(s, a)
    case Claiming(c) => ApplyClaim(s, c)
    case Copying(k) => ApplyCopy(s, k)
    case Accessing(x) => ApplyAccess(s, x)
    case Freeing(f) => ApplyFree(s, f)
    case Searching(v) => ApplySearch(s, v)
  }
}
