/** The runtime and its store together. `Protocol` knows which extents are owned
    and which threads wait for a store operation; `ExtentStore` knows which
    extents are allocated and which operations are pending. Here the two run in
    step: every section that allocates, frees or submits makes the call it makes
    in src/runtime.cpp, a thread goes on when the status of its operation is
    terminal, and the store's workers settle operations in between. */
module StoreCoupling {
  import opened Collections
  import opened Pages
  import opened Budgets
  import opened Protocol
  import opened ProtocolInvariant
  import opened ProtocolSafety
  import opened ProtocolFrames
  import opened StoreUsage
  import opened ExtentLists
  import ExtentStore

  /** What the runtime's calls depend on in the store: the used bits and the
      operations accepted and not yet settled. */
  datatype Store = Store(used: seq<bool>, unsettled: map<nat, Request>)

  /** Both, with the operation each waiting thread has been handed. */
  datatype Joint = Joint(s: State, store: Store, op: map<Tid, nat>, next: nat)

  /** The thread waits for a store operation. */
  predicate Waiting(l: Local) {
    l.Moving? && l.io.Active? && (l.move.ToNvme? || l.move.FromNvme?)
  }

  /** The request behind it; a null buffer is `0`. */
  function RequestOf(pageSize: nat, l: Local, o: nat): Request
    requires l.Moving?
  {
    Request(o, if l.snap.offset.Some? then l.snap.offset.value else 0, Extents(l.snap.size, pageSize),
            l.move.FromNvme?, if l.snap.host.Some? then l.snap.host.value + 1 else 0)
  }

  // ------------------------------------------------------------------- steps

  /** The section hands the transfer to the store. */
  predicate Submits(s: State, step: Step) {
    && step.Copying? && step.k.Submit? && step.k.t in s.locals && s.locals[step.k.t].Moving?
    && (s.locals[step.k.t].move.ToNvme? || s.locals[step.k.t].move.FromNvme?)
  }

  /** The thread has its answer from the store. */
  predicate Answered(s: State, step: Step) {
    step.Copying? && step.k.Retire? && step.k.t in s.locals && Waiting(s.locals[step.k.t])
  }

  /** The range a section allocates, or frees. */
  function Taken(s: State, step: Step): Option<(nat, nat)>
    requires Enabled(s, step)
  {
    match step
    case Allocating(InsertNvme(t, first)) => Some((first, Extents(s.locals[t].bytes, s.pageSize)))
    case Claiming(ClaimWriteback(_, id, first, _)) =>
      if NeedsRange(s.table[id]) then Some((first, Extents(s.table[id].size, s.pageSize))) else None
    case _ => None
  }

  function Given(s: State, step: Step): Option<(nat, nat)>
    requires Enabled(s, step)
  {
    match step
    case Accessing(Reclaim(_, id)) => Some((s.table[id].offset.value, Extents(s.table[id].size, s.pageSize)))
    case Freeing(FreeRange(t)) =>
      if s.locals[t].snap.offset.Some? then
        Some((s.locals[t].snap.offset.value, Extents(s.locals[t].snap.size, s.pageSize)))
      else None
    case _ => None
  }

  /** `free_extents` accepts: allocated throughout, and nothing unsettled on it. */
  ghost predicate Freeable(store: Store, first: nat, n: nat) {
    && All(store.used, first, n, true)
    && (forall o, k: nat :: o in store.unsettled && first <= k < first + n ==> !Touches(store.unsettled[o], k))
  }

  datatype JointStep = Section(step: Step) | Settle(o: nat)

  ghost predicate JointEnabled(j: Joint, step: JointStep) {
    match step
    case Section(x) =>
      && Enabled(j.s, x)
      // the allocator hands out free extents
      && (Taken(j.s, x).Some? ==> All(j.store.used, Taken(j.s, x).value.0, Taken(j.s, x).value.1, false))
      // a thread that waits goes on when its operation has a terminal status
      && (Answered(j.s, x) ==> x.k.t in j.op && j.op[x.k.t] !in j.store.unsettled)
    case Settle(o) => o in j.store.unsettled
  }

  function BitsAfter(j: Joint, x: Step): seq<bool>
    requires Enabled(j.s, x)
  {
    var taken, given := Taken(j.s, x), Given(j.s, x);
    if taken.Some? && taken.value.0 + taken.value.1 <= |j.store.used| then
      SetRange(j.store.used, taken.value.0, taken.value.1, true)
    else if given.Some? && given.value.0 + given.value.1 <= |j.store.used| then
      SetRange(j.store.used, given.value.0, given.value.1, false)
    else j.store.used
  }

  ghost function JointApply(j: Joint, step: JointStep): Joint
    requires JointEnabled(j, step)
  {
    match step
    case Section(x) =>
      var submits := Submits(j.s, x);
      Joint(Apply(j.s, x),
            Store(BitsAfter(j, x),
                  if submits then j.store.unsettled[j.next := RequestOf(j.s.pageSize, j.s.locals[x.k.t], j.next)]
                  else j.store.unsettled),
            if submits then j.op[x.k.t := j.next] else if Answered(j.s, x) then j.op - {x.k.t} else j.op,
            if submits then j.next + 1 else j.next)
    case Settle(o) => j.(store := j.store.(unsettled := j.store.unsettled - {o}))
  }

  // ---------------------------------------------------------------- coupling

  /** The used bits are the owned extents. */
  ghost predicate SameExtents(used: seq<bool>, ext: map<nat, PageId>, total: nat) {
    |used| == total && (forall e :: e in ext ==> e < total) && forall k :: 0 <= k < |used| ==> (used[k] <==> k in ext)
  }

  /** Exactly the waiting threads have an operation, each its own, and an
      operation that is unsettled is somebody's, over that thread's range. */
  ghost predicate OwnOperations(s: State, unsettled: map<nat, Request>, op: map<Tid, nat>, next: nat) {
    && (forall t :: t in op <==> t in s.locals && Waiting(s.locals[t]))
    && (forall t, u :: t in op && u in op && t != u ==> op[t] != op[u])
    && (forall t :: t in op ==> op[t] < next)
    && (forall t :: t in op && op[t] in unsettled ==> unsettled[op[t]] == RequestOf(s.pageSize, s.locals[t], op[t]))
    && (forall o :: o in unsettled ==> exists t :: t in op && op[t] == o)
  }

  ghost predicate Coupled(j: Joint) {
    && Inv(j.s) && WholeSizes(j.s)
    && SameExtents(j.store.used, j.s.ext, |j.s.store|)
    && OwnOperations(j.s, j.store.unsettled, j.op, j.next)
  }

  // ---------------------------------------------------- what a section changes

  /** The waiting threads, and what they wait for, are the same. */
  ghost predicate SameWaiting(l: map<Tid, Local>, l': map<Tid, Local>) {
    forall t :: (t in l && Waiting(l[t]) ==> t in l' && l'[t] == l[t])
             && (t in l' && Waiting(l'[t]) ==> t in l && l[t] == l'[t])
  }

  lemma AllocLeaves(s: State, a: AllocStep)
    requires AllocEnabled(s, a)
    ensures SameWaiting(s.locals, ApplyAlloc(s, a).locals) && (!a.InsertNvme? ==> ApplyAlloc(s, a).ext == s.ext)
  {
    hide Own, Reown, Charge, Refund, Fits, AllocationSize, Extents;
  }

  lemma ClaimLeaves(s: State, c: ClaimStep)
    requires ClaimEnabled(s, c)
    ensures SameWaiting(s.locals, ApplyClaim(s, c).locals)
    ensures !(c.ClaimWriteback? && NeedsRange(s.table[c.id])) ==> ApplyClaim(s, c).ext == s.ext
  {
    hide Own, Reown, Charge, Refund, Fits, Extents, Moved;
  }

  lemma CopyLeaves(s: State, k: CopyStep)
    requires CopyEnabled(s, k)
    ensures ApplyCopy(s, k).ext == s.ext
    ensures !Submits(s, Copying(k)) && !Answered(s, Copying(k)) ==> SameWaiting(s.locals, ApplyCopy(s, k).locals)
  {
    hide Refund, FreeBuffer, PutBuffer, PutRange, SourceData, CompletedPage, FailedPage, Extents;
  }

  lemma AccessLeaves(s: State, x: AccessStep)
    requires AccessEnabled(s, x)
    ensures SameWaiting(s.locals, ApplyAccess(s, x).locals) && (!x.Reclaim? ==> ApplyAccess(s, x).ext == s.ext)
  {
    hide Checksum, FreeBuffer, PutBuffer, Disown, Refund, Extents;
  }

  lemma FreeLeaves(s: State, f: FreeStep)
    requires FreeEnabled(s, f)
    ensures SameWaiting(s.locals, ApplyFree(s, f).locals) && (!f.FreeRange? ==> ApplyFree(s, f).ext == s.ext)
  {
    hide FreeBuffer, Disown, Refund, Extents, Moved;
  }

  lemma SectionLeaves(s: State, x: Step)
    requires Enabled(s, x)
    ensures Taken(s, x).None? && Given(s, x).None? ==> Apply(s, x).ext == s.ext
    ensures !Submits(s, x) && !Answered(s, x) ==> SameWaiting(s.locals, Apply(s, x).locals)
  {
    hide SameWaiting, Submits, Answered, Extents;
    hide ApplyAlloc, ApplyClaim, ApplyCopy, ApplyAccess, ApplySearch;
    match x {
      case Allocating(a) => AllocLeaves(s, a);
      case Claiming(c) => ClaimLeaves(s, c);
      case Copying(k) => CopyLeaves(s, k);
      case Accessing(y) => AccessLeaves(s, y);
      case Freeing(f) => FreeLeaves(s, f);
      case Searching(v) => SearchLeaves(s, v);
    }
  }

  lemma SearchLeaves(s: State, v: SearchStep)
    ensures ApplySearch(s, v).ext == s.ext && SameWaiting(s.locals, ApplySearch(s, v).locals)
  {}

  /** What a section allocates becomes owned, what it frees ceases to be. */
  lemma TakenIsOwned(s: State, x: Step)
    requires Enabled(s, x) && Taken(s, x).Some?
    ensures var r := Taken(s, x).value;
      r.0 + r.1 <= |s.store| && forall e :: e in Apply(s, x).ext <==> e in s.ext || r.0 <= e < r.0 + r.1
  {
    hide Charge, Fits, Extents, Moved;
  }

  lemma GivenIsDisowned(s: State, x: Step)
    requires Enabled(s, x) && Given(s, x).Some?
    ensures var r := Given(s, x).value; forall e :: e in Apply(s, x).ext <==> e in s.ext && !(r.0 <= e < r.0 + r.1)
  {
    hide Refund, Extents;
  }

  // ------------------------------------------------- the store accepts the calls

  lemma WaitingHasRange(s: State, t: Tid)
    requires Inv(s) && t in s.locals && s.locals[t].Moving? && (s.locals[t].move.ToNvme? || s.locals[t].move.FromNvme?)
    ensures var l := s.locals[t];
      && l.snap.offset.Some? && l.snap.host.Some? && l.id in s.born && s.born[l.id].bytes == l.snap.size
      && (forall e :: l.snap.offset.value <= e < l.snap.offset.value + Extents(l.snap.size, s.pageSize) ==> e in s.ext)
      && l.snap.offset.value + Extents(l.snap.size, s.pageSize) <= |s.store|
  {
    hide Structure, Ledger, Holds, Authoritative, TargetData, Extents;
    StructureAt(s, s.locals[t].id, t);
  }

  lemma WholeIsNonEmpty(size: nat, pageSize: nat)
    requires pageSize > 0 && size > 0 && size % pageSize == 0
    ensures Extents(size, pageSize) > 0
  {
    assert size == size / pageSize * pageSize + size % pageSize;
  }

  lemma ReclaimedSize(s: State, id: PageId)
    requires Inv(s) && WholeSizes(s) && id in s.table
    ensures Extents(s.table[id].size, s.pageSize) > 0
  {
    hide Structure, Ledger, Holds, OwnsRange, Authoritative, TargetData, Shape;
    StructureAt(s, id, 0);
    WholeIsNonEmpty(s.table[id].size, s.pageSize);
  }

  lemma GivenIsQuiet(s: State, x: Step)
    requires Inv(s) && WholeSizes(s) && Enabled(s, x) && Given(s, x).Some?
    ensures Given(s, x).value.1 > 0 && RangeFreeable(s, Given(s, x).value.0, Given(s, x).value.1)
  {
    hide Inv, WholeSizes, RangeFreeable, Extents;
    match x {
      case Accessing(y) =>
        AccessNeverThrows(s, y);
        ReclaimedSize(s, y.id);
      case Freeing(f) =>
        FreeNeverThrows(s, f);
        ReleasedSize(s, f.t);
    }
  }

  lemma ReleasedSize(s: State, t: Tid)
    requires Inv(s) && WholeSizes(s) && InPhase(s, t, DropRange)
    ensures Extents(s.locals[t].snap.size, s.pageSize) > 0
  {
    hide Structure, Ledger, Holds, OwnsRange, Authoritative, TargetData, Shape, Extents;
    StructureAt(s, s.locals[t].id, t);
    ReclaimedSize(s, s.locals[t].id);
  }

  /** Every range a section frees is allocated in the store and has no operation
      unsettled on it: `free_extents` never refuses. */
  lemma FreesAreAccepted(j: Joint, x: Step)
    requires Coupled(j) && Enabled(j.s, x) && Given(j.s, x).Some?
    ensures Given(j.s, x).value.1 > 0 && Freeable(j.store, Given(j.s, x).value.0, Given(j.s, x).value.1)
  {
    hide Inv, WholeSizes, Enabled, Given, Extents;
    var first, n := Given(j.s, x).value.0, Given(j.s, x).value.1;
    GivenIsQuiet(j.s, x);
    forall k | first <= k < first + n ensures k < |j.store.used| && j.store.used[k] {
      assert k in j.s.ext;
    }
    assert first + n <= |j.store.used| by { assert n > 0 && first + n - 1 in j.s.ext; }
    forall o, k: nat | o in j.store.unsettled && first <= k < first + n ensures !Touches(j.store.unsettled[o], k) {
      var t :| t in j.op && j.op[t] == o;
      WaitingHasRange(j.s, t);
      assert !ActiveIo(j.s, k);
      assert !IoCovers(j.s, j.s.locals[t], k);
    }
  }

  /** Every transfer handed to the store lies on allocated extents. */
  lemma SubmitsAreAccepted(j: Joint, x: Step)
    requires Coupled(j) && Enabled(j.s, x) && Submits(j.s, x)
    ensures InUse(j.store.used, RequestOf(j.s.pageSize, j.s.locals[x.k.t], j.next))
    ensures RequestOf(j.s.pageSize, j.s.locals[x.k.t], j.next).buffer != 0
  {
    hide Inv, Enabled, Extents;
    var l := j.s.locals[x.k.t];
    WaitingHasRange(j.s, x.k.t);
    WholeIsNonEmpty(l.snap.size, j.s.pageSize);
    forall k | l.snap.offset.value <= k < l.snap.offset.value + Extents(l.snap.size, j.s.pageSize)
      ensures j.store.used[k]
    {
      assert k in j.s.ext;
    }
  }

  // ------------------------------------------------------------ it is preserved

  lemma SectionKeepsExtents(j: Joint, x: Step)
    requires Coupled(j) && JointEnabled(j, Section(x))
    ensures SameExtents(BitsAfter(j, x), Apply(j.s, x).ext, |Apply(j.s, x).store|)
  {
    hide Inv, WholeSizes, Enabled, Apply, Taken, Given, OwnOperations;
    StepSteady(j.s, x);
    SectionLeaves(j.s, x);
    TakenOrGiven(j.s, x);
    if Taken(j.s, x).Some? {
      TakenIsOwned(j.s, x);
    } else if Given(j.s, x).Some? {
      FreesAreAccepted(j, x);
      GivenIsDisowned(j.s, x);
    }
  }

  lemma TakenOrGiven(s: State, x: Step)
    requires Enabled(s, x)
    ensures Taken(s, x).None? || Given(s, x).None?
  {
    hide Enabled;
  }

  lemma QuietKeepsOperations(s: State, s': State, unsettled: map<nat, Request>, op: map<Tid, nat>, next: nat)
    requires OwnOperations(s, unsettled, op, next) && SameWaiting(s.locals, s'.locals) && s'.pageSize == s.pageSize
    ensures OwnOperations(s', unsettled, op, next)
  {
    hide RequestOf;
  }

  lemma IoIsNoPartOfIt(pageSize: nat, l: Local, o: nat)
    requires l.Moving?
    ensures RequestOf(pageSize, l.(io := Active), o) == RequestOf(pageSize, l, o)
  {}

  lemma SubmitKeepsOperations(s: State, s': State, unsettled: map<nat, Request>, op: map<Tid, nat>, next: nat, t: Tid)
    requires OwnOperations(s, unsettled, op, next) && s'.pageSize == s.pageSize && t in s.locals
    requires s.locals[t].Moving? && s.locals[t].io.Unsent? && (s.locals[t].move.ToNvme? || s.locals[t].move.FromNvme?)
    requires s'.locals == s.locals[t := s.locals[t].(io := Active)]
    ensures OwnOperations(s', unsettled[next := RequestOf(s.pageSize, s.locals[t], next)], op[t := next], next + 1)
  {
    hide RequestOf;
    IoIsNoPartOfIt(s.pageSize, s.locals[t], next);
    var unsettled', op' := unsettled[next := RequestOf(s.pageSize, s.locals[t], next)], op[t := next];
    assert t !in op && next !in unsettled;
    forall o | o in unsettled' ensures exists u :: u in op' && op'[u] == o {
      if o == next {
        assert op'[t] == o;
      } else {
        var u :| u in op && op[u] == o;
        assert op'[u] == o;
      }
    }
  }

  lemma AnswerKeepsOperations(s: State, s': State, unsettled: map<nat, Request>, op: map<Tid, nat>, next: nat, t: Tid)
    requires OwnOperations(s, unsettled, op, next) && s'.pageSize == s.pageSize && t in op && op[t] !in unsettled
    requires exists ok :: s'.locals == s.locals[t := s.locals[t].(io := Done(ok))]
    ensures OwnOperations(s', unsettled, op - {t}, next)
  {
    hide RequestOf;
    forall o | o in unsettled ensures exists u :: u in op - {t} && (op - {t})[u] == o {
      var u :| u in op && op[u] == o;
      assert u in op - {t};
    }
  }

  lemma SettleKeepsOperations(s: State, unsettled: map<nat, Request>, op: map<Tid, nat>, next: nat, o: nat)
    requires OwnOperations(s, unsettled, op, next)
    ensures OwnOperations(s, unsettled - {o}, op, next)
  {
    hide RequestOf;
  }

  lemma SubmitSets(s: State, x: Step)
    requires Enabled(s, x) && Submits(s, x)
    ensures s.locals[x.k.t].io.Unsent? && Apply(s, x).locals == s.locals[x.k.t := s.locals[x.k.t].(io := Active)]
  {}

  lemma AnswerSets(s: State, x: Step)
    requires Enabled(s, x) && Answered(s, x)
    ensures Apply(s, x).locals == s.locals[x.k.t := s.locals[x.k.t].(io := Done(x.k.ok))]
  {
    hide PutBuffer, PutRange, SourceData;
  }

  /** The two stay in step, whatever threads and workers do. */
  lemma StepKeepsCoupled(j: Joint, step: JointStep)
    requires Coupled(j) && JointEnabled(j, step)
    ensures Coupled(JointApply(j, step))
  {
    hide Inv, WholeSizes, Enabled, Apply, Taken, Given, SameExtents, OwnOperations, BitsAfter, RequestOf;
    match step {
      case Settle(o) => SettleKeepsOperations(j.s, j.store.unsettled, j.op, j.next, o);
      case Section(x) =>
        SectionKeepsWhole(j.s, x);
        SectionKeepsExtents(j, x);
        SectionKeepsOperations(j, x);
    }
  }

  lemma SectionKeepsWhole(s: State, x: Step)
    requires Inv(s) && WholeSizes(s) && Enabled(s, x)
    ensures Inv(Apply(s, x)) && WholeSizes(Apply(s, x))
  {
    hide Inv, Enabled, Apply;
    StepKeepsInv(s, x);
    StepSteady(s, x);
  }

  lemma SectionKeepsOperations(j: Joint, x: Step)
    requires Coupled(j) && JointEnabled(j, Section(x))
    ensures var j' := JointApply(j, Section(x)); OwnOperations(j'.s, j'.store.unsettled, j'.op, j'.next)
  {
    hide Inv, WholeSizes, Enabled, Apply, Taken, Given, SameExtents, OwnOperations, BitsAfter, RequestOf, SameWaiting;
    StepSteady(j.s, x);
    SectionLeaves(j.s, x);
    var s' := Apply(j.s, x);
    if Submits(j.s, x) {
      SubmitSets(j.s, x);
      SubmitKeepsOperations(j.s, s', j.store.unsettled, j.op, j.next, x.k.t);
    } else if Answered(j.s, x) {
      AnswerSets(j.s, x);
      AnswerKeepsOperations(j.s, s', j.store.unsettled, j.op, j.next, x.k.t);
    } else {
      QuietKeepsOperations(j.s, s', j.store.unsettled, j.op, j.next);
    }
  }

  // --------------------------------------------------------------------- runs

  ghost predicate JointInit(j: Joint) {
    && Init(j.s) && j.store == Store(AllFree(|j.s.store|), map[]) && j.op == map[] && j.next == 0
  }

  ghost function JointAfter(j: Joint, steps: seq<JointStep>): Option<Joint> {
    if |steps| == 0 then Some(j)
    else
      var r := JointAfter(j, steps[..|steps| - 1]);
      var step := steps[|steps| - 1];
      if r.Some? && JointEnabled(r.value, step) then Some(JointApply(r.value, step)) else None
  }

  lemma {:induction false} RunKeepsCoupled(j: Joint, steps: seq<JointStep>)
    requires JointInit(j) && JointAfter(j, steps).Some?
    ensures Coupled(JointAfter(j, steps).value)
    decreases |steps|
  {
    if |steps| == 0 {
      InitInv(j.s);
      hide Inv;
    } else {
      hide Coupled, JointEnabled, JointApply;
      RunKeepsCoupled(j, steps[..|steps| - 1]);
      StepKeepsCoupled(JointAfter(j, steps[..|steps| - 1]).value, steps[|steps| - 1]);
    }
  }

  /** In every run of the two together, no section that frees extents meets I/O
      or a free extent, and no section hands over a transfer off its extents. */
  lemma StoreNeverRefuses(j: Joint, steps: seq<JointStep>, x: Step)
    requires JointInit(j) && JointAfter(j, steps).Some? && Enabled(JointAfter(j, steps).value.s, x)
    ensures var k := JointAfter(j, steps).value;
      && (Given(k.s, x).Some? ==>
            Given(k.s, x).value.1 > 0 && Freeable(k.store, Given(k.s, x).value.0, Given(k.s, x).value.1))
      && (Submits(k.s, x) ==>
            var c := RequestOf(k.s.pageSize, k.s.locals[x.k.t], k.next); InUse(k.store.used, c) && c.buffer != 0)
  {
    hide JointAfter, Enabled, Coupled, Given, Freeable, Submits, InUse, RequestOf;
    RunKeepsCoupled(j, steps);
    var k := JointAfter(j, steps).value;
    if Given(k.s, x).Some? { FreesAreAccepted(k, x); }
    if Submits(k.s, x) { SubmitsAreAccepted(k, x); }
  }

  // -------------------------------------------------------- the store's own code

  /** The unsettled operations, from the store's own records. */
  ghost function Unsettled(status: map<nat, ExtentStore.Status>, issued: map<nat, Request>): map<nat, Request> {
    map o | o in issued && o in status && status[o].Pending? :: issued[o]
  }

  /** The backend is in the state the runtime's side knows. */
  ghost predicate Shows(n: ExtentStore.NvmeBackend, store: Store, pageSize: nat)
    reads n
  {
    && n.Valid() && n.isOpen && n.pageSize == pageSize
    && n.used == store.used && Unsettled(n.status, n.issued) == store.unsettled
  }

  /** `Submit` adds its operation and `Settle` removes one, as the steps above. */
  lemma UnsettledFollows(status: map<nat, ExtentStore.Status>, issued: map<nat, Request>, o: nat, c: Request,
                         done: ExtentStore.Status)
    requires !done.Pending?
    ensures Unsettled(status[o := ExtentStore.Pending], issued[o := c]) == Unsettled(status, issued)[o := c]
    ensures Unsettled(status[o := done], issued) == Unsettled(status, issued) - {o}
  {}

  /** What StoreNeverRefuses gives for a range makes the very call succeed. */
  lemma FreeCallSucceeds(n: ExtentStore.NvmeBackend, store: Store, pageSize: nat, first: nat, count: nat)
    requires Shows(n, store, pageSize) && Freeable(store, first, count) && count > 0
    ensures n.FreeFault((first + 1) * pageSize, count) == None
  {
    hide ExtentStore.NvmeBackend.FreeFault, ExtentStore.OpsOk, CountsIo, ListsFree, ExtentStore.Recorded, CountUsed;
    forall o, k: nat | o in n.issued && first <= k < first + count && Touches(n.issued[o], k)
      ensures o !in store.unsettled
    {
      OutOfTheWay(n, store, pageSize, first, count, o, k);
    }
    n.FinishedRangeIsFreeable(first, count);
  }

  lemma OutOfTheWay(n: ExtentStore.NvmeBackend, store: Store, pageSize: nat, first: nat, count: nat, o: nat, k: nat)
    requires Shows(n, store, pageSize) && Freeable(store, first, count)
    requires o in n.issued && first <= k < first + count && Touches(n.issued[o], k)
    ensures o !in store.unsettled
  {
    hide ExtentStore.NvmeBackend.Core, All;
    assert forall i :: i in store.unsettled ==> store.unsettled[i] == n.issued[i];
  }

  /** And what it gives for a transfer, within the platform's limit on one. */
  lemma SubmitCallSucceeds(n: ExtentStore.NvmeBackend, store: Store, pageSize: nat, c: Request, maxIo: nat)
    requires Shows(n, store, pageSize) && InUse(store.used, c) && c.buffer != 0 && c.count * pageSize <= maxIo
    ensures n.IoFault((c.first + 1) * pageSize, c.buffer, c.count * pageSize, maxIo) == None
  {
    hide ExtentStore.OpsOk, CountsIo, ListsFree, ExtentStore.Recorded, CountUsed, Unsettled;
    ExtentStore.OffsetOf(c.first, pageSize);
    ExtentStore.Division(c.count, pageSize);
    MulMonotone(1, c.count, pageSize);
    MulMonotone(c.first + 1 + c.count, n.extentCount + 1, pageSize);
    Distributes(c.first + 1, c.count, pageSize);
  }
}
