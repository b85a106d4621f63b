/** Every interleaving of the protocol behaves like a plain map from page
    identifiers to bytes. */
module Refinement {
  import opened Collections
  import opened Words
  import opened Pages
  import opened Protocol
  import opened ProtocolInvariant
  import opened ProtocolSteps
  import opened ProtocolSafety

  // ------------------------------------------------------- the plain map

  datatype Entry = Entry(content: Content, checksum: Word)

  datatype Event =
    | New(id: PageId, content: Content)
    | Put(id: PageId, content: Content)
    | Get(id: PageId, content: Content)
    | Del(id: PageId)
    | Quiet

  /** The specification: a map that is created into, written, read and deleted
      from, and in which a read returns what the map holds. */
  predicate SpecAllows(m: map<PageId, Entry>, ev: Event) {
    match ev
    case New(id, _) => id !in m
    case Put(id, _) => id in m
    case Get(id, content) => id in m && m[id].content == content
    case Del(id) => id in m
    case Quiet => true
  }

  function SpecApply(m: map<PageId, Entry>, ev: Event): map<PageId, Entry> {
    match ev
    case New(id, content) => m[id := Entry(content, 0)]
    case Put(id, content) => m[id := Entry(content, Checksum(content))]
    case Get(_, _) => m
    case Del(id) => m - {id}
    case Quiet => m
  }

  // ------------------------------------------------------ the abstraction

  predicate Live(s: State, id: PageId) {
    id in s.table && !s.table[id].state.Released?
  }

  /** What the runtime stores for its callers: the authoritative bytes of every
      page that has not been released. */
  function Abs(s: State): map<PageId, Entry> {
    map id | id in s.table && Live(s, id) :: Entry(Authoritative(s, s.table[id]), s.table[id].checksum)
  }

  function AllocEvent(s: State, step: AllocStep): Event
    requires AllocEnabled(s, step)
  {
    match step
    case InsertVram(t) => New(s.locals[t].id, DataIn(s.dev, Some(s.locals[t].h)))
    case InsertHost(t, _) => New(s.locals[t].id, DataIn(s.host, Some(s.locals[t].h)))
    case InsertNvme(t, first) => New(s.locals[t].id, Slice(s.store, first, Extents(s.locals[t].bytes, s.pageSize)))
    case _ => Quiet
  }

  function AccessEvent(s: State, step: AccessStep): Event
    requires AccessEnabled(s, step)
  {
    match step
    case Write(_, id, data) => Put(id, data)
    case Read(_, id) => Get(id, ReadData(s, id))
    case _ => Quiet
  }

  function FreeEvent(s: State, step: FreeStep): Event
    requires FreeEnabled(s, step)
  {
    match step
    case BeginFree(_, id) => if s.table[id].state.Released? then Quiet else Del(id)
    case _ => Quiet
  }

  /** What a caller can see of a step; moving pages about shows nothing. */
  function EventOf(s: State, step: Step): Event
    requires Enabled(s, step)
  {
    match step
    case Allocating(a) => AllocEvent(s, a)
    case Accessing(x) => AccessEvent(s, x)
    case Freeing(f) => FreeEvent(s, f)
    case _ => Quiet
  }

  function At(s: State, id: PageId): Option<Entry> {
    if Live(s, id) then Some(Entry(Authoritative(s, s.table[id]), s.table[id].checksum)) else None
  }

  lemma AbsFrame(s: State, s': State, id: PageId, t: Tid)
    requires Inv(s) && Sound(s, s', id, t)
    ensures forall i :: i != id ==> At(s', i) == At(s, i)
  {
    hide PageOk, OnlyTouches, Authoritative, Ledger, FocusOk, Balanced;
    forall i | i != id ensures At(s', i) == At(s, i) {
      if i in s.table { OtherPage(s, s', id, t, i); }
      else { AbsentStaysAbsent(s, s', id, t, i); }
    }
  }

  lemma AbsentStaysAbsent(s: State, s': State, id: PageId, t: Tid, i: PageId)
    requires OnlyTouches(s, s', id, t) && i != id && i !in s.table
    ensures i !in s'.table
  {
    hide BuffersFramed, ExtentsFramed, StoreFramed, LocalsFramed;
  }

  // ------------------------------------------ what each step does to its page

  lemma AllocAt(s: State, step: AllocStep)
    requires Inv(s) && AllocEnabled(s, step)
    ensures At(s, AllocFocus(s, step)) == None
    ensures var ev := AllocEvent(s, step);
      At(ApplyAlloc(s, step), AllocFocus(s, step)) ==
        if ev.New? then Some(Entry(ev.content, 0)) else None
    ensures var ev := AllocEvent(s, step); ev.New? ==> ev.id == AllocFocus(s, step)
  {
    hide Ledger, Structure, OwnsRange;
    StructureAt(s, AllocFocus(s, step), step.t);
  }

  lemma ClaimAt(s: State, step: ClaimStep)
    requires Inv(s) && ClaimEnabled(s, step)
    ensures At(ApplyClaim(s, step), ClaimFocus(s, step)) == At(s, ClaimFocus(s, step))
  {
    hide Ledger, Structure, Holds, OwnsRange;
    StructureAt(s, ClaimFocus(s, step), step.t);
  }

  /** While a page moves, its authority is the transfer's source. */
  lemma MovingAuthority(s: State, l: Local, id: PageId, p: Page)
    requires l.Moving? && Carries(l, id, p)
    ensures Authoritative(s, p) == SourceData(s, l.move, l.snap)
  {}

  lemma CarriedBy(s: State, t: Tid)
    requires Structure(s) && InMove(s, t)
    ensures var l := s.locals[t];
      Carries(l, l.id, s.table[l.id]) && Carrier(s, s.table[l.id]) == Some(l) && PageOk(s, l.id)
  {
    hide Holds, OwnsRange, Authoritative, TargetData, Carries;
    StructureAt(s, s.locals[t].id, t);
  }

  lemma SourceUntouched(s: State, m: Move, snap: Page, data: Content)
    ensures SourceData(PutTarget(s, m, snap, data), m, snap) == SourceData(s, m, snap)
    ensures PutTarget(s, m, snap, data).table == s.table
  {}

  /** A running copy writes its destination, never its source. */
  lemma RunningCopyAt(s: State, step: CopyStep)
    requires Inv(s) && CopyEnabled(s, step) && !step.Complete? && !step.Fail?
    ensures At(ApplyCopy(s, step), s.locals[step.t].id) == At(s, s.locals[step.t].id)
  {
    hide Ledger, Structure, PageOk, Carries, Authoritative, SourceData, PutTarget;
    var l := s.locals[step.t];
    CarriedBy(s, step.t);
    MovingAuthority(s, l, l.id, s.table[l.id]);
    MovingAuthority(ApplyCopy(s, step), l, l.id, s.table[l.id]);
    SourceIgnoresThreads(s, s.locals[step.t := l.(io := Active)], l.move, l.snap);
    if step.Scribble? {
      SourceUntouched(s, l.move, l.snap, step.junk);
    } else if step.Retire? {
      var data := if step.ok then SourceData(s, l.move, l.snap) else step.junk;
      SourceUntouched(s, l.move, l.snap, data);
      SourceIgnoresThreads(PutTarget(s, l.move, l.snap, data), ApplyCopy(s, step).locals, l.move, l.snap);
    }
  }

  lemma SourceIgnoresThreads(s: State, locals: map<Tid, Local>, m: Move, snap: Page)
    ensures SourceData(s.(locals := locals), m, snap) == SourceData(s, m, snap)
  {}

  /** A copy that settled well has put the source's bytes at the destination,
      and a skipped writeback finds them there already. */
  lemma Landed(s: State, t: Tid)
    requires Structure(s) && CanComplete(s, t)
    ensures var l := s.locals[t]; TargetData(s, l.move, l.snap) == Authoritative(s, s.table[l.id])
  {
    hide Structure, Authoritative, Shape, Holds, OwnsRange, Fitting, DataIn, ReleasePoint;
    CarriedBy(s, t);
  }

  lemma CompletedToHost(s: State, t: Tid, tier: Tier)
    requires CanComplete(s, t) && s.locals[t].move.ToHost? && Carries(s.locals[t], s.locals[t].id, s.table[s.locals[t].id])
    ensures var id := s.locals[t].id;
      At(DoComplete(s, t, tier), id) == Some(Entry(TargetData(s, s.locals[t].move, s.locals[t].snap), s.table[id].checksum))
  {
    hide ReleasePoint, Slice;
  }

  lemma CompletedFromNvme(s: State, t: Tid, tier: Tier)
    requires CanComplete(s, t) && s.locals[t].move.FromNvme? && Carries(s.locals[t], s.locals[t].id, s.table[s.locals[t].id])
    ensures var id := s.locals[t].id;
      At(DoComplete(s, t, tier), id) == Some(Entry(TargetData(s, s.locals[t].move, s.locals[t].snap), s.table[id].checksum))
  {
    hide ReleasePoint, Slice;
  }

  lemma CompletedToVram(s: State, t: Tid, tier: Tier)
    requires CanComplete(s, t) && s.locals[t].move.ToVram? && Carries(s.locals[t], s.locals[t].id, s.table[s.locals[t].id])
    ensures var id := s.locals[t].id;
      At(DoComplete(s, t, tier), id) == Some(Entry(TargetData(s, s.locals[t].move, s.locals[t].snap), s.table[id].checksum))
  {
    hide ReleasePoint, Slice;
  }

  lemma CompletedToNvme(s: State, t: Tid, tier: Tier)
    requires CanComplete(s, t) && s.locals[t].move.ToNvme? && Carries(s.locals[t], s.locals[t].id, s.table[s.locals[t].id])
    ensures var id := s.locals[t].id;
      At(DoComplete(s, t, tier), id) == Some(Entry(TargetData(s, s.locals[t].move, s.locals[t].snap), s.table[id].checksum))
  {
    hide ReleasePoint, Slice;
  }

  /** Completion moves the authority to the destination. */
  lemma CompletedAt(s: State, t: Tid, tier: Tier)
    requires Inv(s) && CanComplete(s, t)
    ensures At(DoComplete(s, t, tier), s.locals[t].id) == At(s, s.locals[t].id)
  {
    hide Ledger, Structure, Authoritative, TargetData, PageOk, ReleasePoint, DoComplete;
    CarriedBy(s, t);
    Landed(s, t);
    match s.locals[t].move {
      case ToHost => CompletedToHost(s, t, tier);
      case ToNvme(_) => CompletedToNvme(s, t, tier);
      case FromNvme => CompletedFromNvme(s, t, tier);
      case ToVram => CompletedToVram(s, t, tier);
    }
  }

  /** Failure leaves it where it was. */
  lemma FailedAt(s: State, t: Tid)
    requires Inv(s) && CanFail(s, t)
    ensures At(DoFail(s, t), s.locals[t].id) == At(s, s.locals[t].id)
  {
    hide Ledger, Structure, Holds, OwnsRange, Fitting;
    StructureAt(s, s.locals[t].id, t);
  }

  lemma CopyAt(s: State, step: CopyStep)
    requires Inv(s) && CopyEnabled(s, step)
    ensures At(ApplyCopy(s, step), CopyFocus(s, step)) == At(s, CopyFocus(s, step))
  {
    hide Inv, At;
    match step {
      case Complete(t, tier) => CompletedAt(s, t, tier);
      case Fail(t) => FailedAt(s, t);
      case _ => RunningCopyAt(s, step);
    }
  }

  lemma AccessAt(s: State, step: AccessStep)
    requires Inv(s) && AccessEnabled(s, step)
    ensures var ev := AccessEvent(s, step);
      At(ApplyAccess(s, step), step.id) ==
        if ev.Put? then Some(Entry(ev.content, Checksum(ev.content))) else At(s, step.id)
    ensures step.Write? || step.Read? ==> Live(s, step.id)
    ensures step.Read? ==> ReadData(s, step.id) == Authoritative(s, s.table[step.id])
  {
    hide Ledger, Structure, Holds, OwnsRange, Checksum;
    StructureAt(s, step.id, step.t);
  }

  lemma FreeAt(s: State, step: FreeStep)
    requires Inv(s) && FreeEnabled(s, step)
    ensures At(ApplyFree(s, step), FreeFocus(s, step)) == None
    ensures if FreeEvent(s, step).Del?
      then At(s, FreeFocus(s, step)).Some? && FreeEvent(s, step).id == FreeFocus(s, step)
      else At(s, FreeFocus(s, step)) == None
  {
    hide Ledger, Structure, Holds, OwnsRange, Authoritative, TargetData;
    StructureAt(s, FreeFocus(s, step), step.t);
  }

  // ------------------------------------------------------------ refinement

  /** Where the focus page and all the others are known, the map is. */
  lemma AbsChange(s: State, s': State, id: PageId, ev: Event)
    requires forall i :: i != id ==> At(s', i) == At(s, i)
    requires ev.Quiet? || ev.Get? || ev.id == id
    requires match ev
      case New(_, c) => At(s, id) == None && At(s', id) == Some(Entry(c, 0))
      case Put(_, c) => At(s, id).Some? && At(s', id) == Some(Entry(c, Checksum(c)))
      case Get(i, c) => At(s', id) == At(s, id) && At(s, i).Some? && At(s, i).value.content == c
      case Del(_) => At(s, id).Some? && At(s', id) == None
      case Quiet => At(s', id) == At(s, id)
    ensures SpecAllows(Abs(s), ev) && Abs(s') == SpecApply(Abs(s), ev)
  {
    hide Authoritative, Checksum;
    var m, m' := Abs(s), SpecApply(Abs(s), ev);
    forall i ensures (i in Abs(s') <==> i in m') && (i in m' ==> Abs(s')[i] == m'[i]) {
      assert At(s, i).Some? <==> i in Abs(s);
      assert At(s', i).Some? <==> i in Abs(s');
    }
  }

  /** The step `s` to `s'`, seen as the event `ev` of the plain map. */
  predicate Refines(s: State, s': State, ev: Event) {
    SpecAllows(Abs(s), ev) && Abs(s') == SpecApply(Abs(s), ev)
  }

  lemma AllocRefines(s: State, step: AllocStep)
    requires Inv(s) && AllocEnabled(s, step)
    ensures Refines(s, ApplyAlloc(s, step), AllocEvent(s, step))
  {
    hide Inv, Sound, Abs, SpecAllows, SpecApply, At, Authoritative, ApplyAlloc;
    AllocSound(s, step);
    AllocAt(s, step);
    AbsFrame(s, ApplyAlloc(s, step), AllocFocus(s, step), step.t);
    AbsChange(s, ApplyAlloc(s, step), AllocFocus(s, step), AllocEvent(s, step));
  }

  lemma ClaimRefines(s: State, step: ClaimStep)
    requires Inv(s) && ClaimEnabled(s, step)
    ensures Refines(s, ApplyClaim(s, step), Quiet)
  {
    hide Inv, Sound, Abs, SpecAllows, SpecApply, At, Authoritative, ClaimEnabled, ApplyClaim;
    ClaimSound(s, step);
    ClaimAt(s, step);
    AbsFrame(s, ApplyClaim(s, step), ClaimFocus(s, step), step.t);
    AbsChange(s, ApplyClaim(s, step), ClaimFocus(s, step), Quiet);
  }

  lemma CopyRefines(s: State, step: CopyStep)
    requires Inv(s) && CopyEnabled(s, step)
    ensures Refines(s, ApplyCopy(s, step), Quiet)
  {
    hide Inv, Sound, Abs, SpecAllows, SpecApply, At, Authoritative, CopyEnabled, ApplyCopy;
    CopySound(s, step);
    CopyAt(s, step);
    AbsFrame(s, ApplyCopy(s, step), CopyFocus(s, step), step.t);
    AbsChange(s, ApplyCopy(s, step), CopyFocus(s, step), Quiet);
  }

  lemma AccessRefines(s: State, step: AccessStep)
    requires Inv(s) && AccessEnabled(s, step)
    ensures Refines(s, ApplyAccess(s, step), AccessEvent(s, step))
  {
    hide Inv, Sound, Abs, SpecAllows, SpecApply, Authoritative, Checksum, ApplyAccess;
    AccessSound(s, step);
    AccessAt(s, step);
    AbsFrame(s, ApplyAccess(s, step), step.id, AccessThread(s, step));
    AbsChange(s, ApplyAccess(s, step), step.id, AccessEvent(s, step));
  }

  lemma FreeRefines(s: State, step: FreeStep)
    requires Inv(s) && FreeEnabled(s, step)
    ensures Refines(s, ApplyFree(s, step), FreeEvent(s, step))
  {
    hide Inv, Sound, Abs, SpecAllows, SpecApply, At, Authoritative, FreeEnabled, ApplyFree, FreeFocus;
    FreeSound(s, step);
    FreeAt(s, step);
    AbsFrame(s, ApplyFree(s, step), FreeFocus(s, step), step.t);
    AbsChange(s, ApplyFree(s, step), FreeFocus(s, step), FreeEvent(s, step));
  }

  lemma SearchRefines(s: State, step: SearchStep)
    ensures Refines(s, ApplySearch(s, step), Quiet)
  {
    hide Authoritative;
    var s' := ApplySearch(s, step);
    forall i ensures At(s', i) == At(s, i) { SearchAt(s, s'.cands, i); }
    hide At;
    AbsChange(s, s', 0, Quiet);
  }

  /** Refinement: every step of every thread is a step of the plain map, and
      a read returns what the map holds. */
  lemma StepRefines(s: State, step: Step)
    requires Inv(s) && Enabled(s, step)
    ensures SpecAllows(Abs(s), EventOf(s, step))
    ensures Abs(Apply(s, step)) == SpecApply(Abs(s), EventOf(s, step))
  {
    hide Inv, Abs, SpecAllows, SpecApply, AllocEvent, AccessEvent, FreeEvent;
    hide AllocEnabled, ClaimEnabled, CopyEnabled, AccessEnabled, FreeEnabled;
    hide ApplyAlloc, ApplyClaim, ApplyCopy, ApplyAccess, ApplyFree, ApplySearch;
    match step {
      case Allocating(a) => AllocRefines(s, a);
      case Claiming(c) => ClaimRefines(s, c);
      case Copying(k) => CopyRefines(s, k);
      case Accessing(x) => AccessRefines(s, x);
      case Freeing(f) => FreeRefines(s, f);
      case Searching(v) => SearchRefines(s, v);
    }
  }

  lemma SearchAt(s: State, c: map<Tid, Search>, id: PageId)
    ensures At(s.(cands := c), id) == At(s, id)
  {}

  // ------------------------------------------------------------------- runs

  /** The state after a run, if every step of it was enabled in turn. */
  function After(s: State, steps: seq<Step>): Option<State> {
    if |steps| == 0 then Some(s)
    else
      var r := After(s, steps[..|steps| - 1]);
      var step := steps[|steps| - 1];
      if r.Some? && Enabled(r.value, step) then Some(Apply(r.value, step)) else None
  }

  function Trace(s: State, steps: seq<Step>): seq<Event>
    requires After(s, steps).Some?
  {
    if |steps| == 0 then []
    else Trace(s, steps[..|steps| - 1]) +
         [EventOf(After(s, steps[..|steps| - 1]).value, steps[|steps| - 1])]
  }

  function Replay(tr: seq<Event>): map<PageId, Entry> {
    if |tr| == 0 then map[] else SpecApply(Replay(tr[..|tr| - 1]), tr[|tr| - 1])
  }

  /** The content last written to a page (or found at its allocation), unless
      it has been deleted since. `written` tells the two apart. */
  function Latest(tr: seq<Event>, id: PageId): Option<(Content, bool)> {
    if |tr| == 0 then None
    else
      var ev := tr[|tr| - 1];
      if ev.New? && ev.id == id then Some((ev.content, false))
      else if ev.Put? && ev.id == id then Some((ev.content, true))
      else if ev.Del? && ev.id == id then None
      else Latest(tr[..|tr| - 1], id)
  }

  lemma {:induction false} LatestIsReplayed(tr: seq<Event>, id: PageId)
    ensures var m := Replay(tr);
      match Latest(tr, id)
      case None => id !in m
      case Some((c, written)) => id in m && m[id] == Entry(c, if written then Checksum(c) else 0)
    decreases |tr|
  {
    hide Checksum;
    if |tr| > 0 { LatestIsReplayed(tr[..|tr| - 1], id); }
  }

  /** Over every run from a started runtime: the invariant holds, and the
      runtime's contents are the replay of the run's events. */
  lemma {:induction false} RunRefines(s: State, steps: seq<Step>)
    requires Init(s) && After(s, steps).Some?
    ensures Inv(After(s, steps).value)
    ensures Abs(After(s, steps).value) == Replay(Trace(s, steps))
    decreases |steps|
  {
    hide Inv, Enabled, Apply, EventOf, SpecApply;
    if |steps| == 0 {
      InitInv(s);
      NothingStored(s);
    } else {
      var before := steps[..|steps| - 1];
      RunRefines(s, before);
      var s1, step := After(s, before).value, steps[|steps| - 1];
      StepKeepsInv(s1, step);
      StepRefines(s1, step);
      var tr := Trace(s, steps);
      assert tr[..|tr| - 1] == Trace(s, before);
    }
  }

  lemma NothingStored(s: State)
    requires Init(s)
    ensures Abs(s) == map[]
  {}

  /** The main theorem: in every interleaving, a successful read returns exactly
      the bytes of the latest successful write (or, before any write, the bytes
      the page had when it was allocated). */
  lemma ReadReturnsLatestWrite(s: State, steps: seq<Step>, t: Tid, id: PageId)
    requires Init(s) && After(s, steps).Some? && CanAccess(After(s, steps).value, t, id)
    ensures Latest(Trace(s, steps), id).Some?
    ensures ReadData(After(s, steps).value, id) == Latest(Trace(s, steps), id).value.0
  {
    hide Inv, Apply, Abs, Checksum, After, Trace, Latest, Replay, ReadData;
    var s1 := After(s, steps).value;
    RunRefines(s, steps);
    StepRefines(s1, Accessing(Read(t, id)));
    LatestIsReplayed(Trace(s, steps), id);
  }

  /** The stored checksum is that of the latest write. */
  lemma ChecksumIsOfLatestWrite(s: State, steps: seq<Step>, id: PageId)
    requires Init(s) && After(s, steps).Some? && Live(After(s, steps).value, id)
    requires Latest(Trace(s, steps), id).Some? && Latest(Trace(s, steps), id).value.1
    ensures After(s, steps).value.table[id].checksum == Checksum(Latest(Trace(s, steps), id).value.0)
  {
    RunRefines(s, steps);
    LatestIsReplayed(Trace(s, steps), id);
    assert id in Abs(After(s, steps).value);
  }
}
