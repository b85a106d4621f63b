/** Page metadata and the page state machine (src/page.cpp, include/flashtier/page.hpp). */
module Pages {
  import opened Collections
  import opened Words

  type PageId = nat
  type Handle = nat
  type Tid = nat

  datatype ErrorCode =
    | StateError | InvariantError | InvalidArgument | BudgetError
    | NotFound | Unsupported | Internal | Io | Cancelled | StoreCorrupt

  datatype Outcome<+T> = Ok(value: T) | Err(code: ErrorCode)

  datatype PageState =
    | Unallocated | ResidentNvme | LoadingToHost | ResidentHost | LoadingToVram
    | ResidentVram | EvictingToHost | EvictingToNvme | Error | Released

  datatype Tier = NoTier | Vram | HostPinned | HostPageable | Nvme

  /** One page table entry. `offset` is the index of the first extent of the
      page's range, `None` for the source's invalid offset. `flight` is the
      source's `in_flight` bit together with the thread that set it. */
  datatype Page = Page(
    id: PageId,
    size: nat,
    offset: Option<nat>,
    state: PageState,
    tier: Tier,
    dirty: bool,
    pinned: bool,
    flight: Option<Tid>,
    hasCopy: bool,
    lastAccess: nat,
    accessCount: nat,
    checksum: Word,
    host: Option<Handle>,
    vram: Option<Handle>
  )

  predicate TransitionAllowed(from: PageState, to: PageState) {
    match from
    case Unallocated =>
      to.LoadingToVram? || to.ResidentHost? || to.ResidentNvme? || to.ResidentVram? || to.Released?
    case LoadingToVram => to.ResidentVram? || to.Error?
    case LoadingToHost => to.ResidentHost? || to.Error?
    case ResidentVram => to.EvictingToHost? || to.ResidentNvme? || to.Error? || to.Released?
    case ResidentHost => to.LoadingToVram? || to.EvictingToNvme? || to.Error? || to.Released?
    case ResidentNvme => to.LoadingToHost? || to.Error? || to.Released?
    case EvictingToHost => to.ResidentHost? || to.Error?
    case EvictingToNvme => to.ResidentNvme? || to.Error?
    case Error => to.Released?
    case Released => false
  }

  function TierAfter(old_: Tier, to: PageState): Tier {
    match to
    case ResidentVram => Vram
    case ResidentHost => HostPinned
    case ResidentNvme => Nvme
    case Unallocated => NoTier
    case Released => NoTier
    case _ => old_
  }

  /** The clean-drop guard: a device page may only fall back on its store
      copy when that copy is clean and really there. */
  predicate DropsUnsafely(p: Page, to: PageState) {
    p.state.ResidentVram? && to.ResidentNvme? && (p.dirty || !p.hasCopy || p.offset.None?)
  }

  predicate CanMove(p: Page, to: PageState) {
    TransitionAllowed(p.state, to) && !DropsUnsafely(p, to)
  }

  /** The new metadata once `transition` has accepted the move. */
  function Moved(p: Page, to: PageState): Page {
    p.(state := to, tier := TierAfter(p.tier, to))
  }

  /** `PageMetadata::transition`. */
  function Transition(p: Page, to: PageState): (r: Outcome<Page>)
    ensures r.Ok? <==> CanMove(p, to)
    ensures r.Ok? ==> r.value.(state := p.state, tier := p.tier) == p && r.value.state == to
    ensures r.Ok? && to.ResidentVram? ==> r.value.tier == Vram
    ensures r.Ok? && to.ResidentHost? ==> r.value.tier == HostPinned
    ensures r.Ok? && to.ResidentNvme? ==> r.value.tier == Nvme
    ensures r.Ok? && to.Released? ==> r.value.tier == NoTier
    ensures r.Ok? && !(to.ResidentVram? || to.ResidentHost? || to.ResidentNvme? || to.Released?) ==>
      r.value.tier == p.tier
    ensures r.Err? ==> r.code == (if TransitionAllowed(p.state, to) then InvariantError else StateError)
  {
    if !TransitionAllowed(p.state, to) then Err(StateError)
    else if DropsUnsafely(p, to) then Err(InvariantError)
    else Ok(Moved(p, to))
  }
}
