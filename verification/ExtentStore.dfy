/** The asynchronous extent store (src/backends/nvme_backend.cpp, the POSIX
    implementation). Every public call holds the lifecycle lock; the workers
    move a request from the queue to a terminal status in three separate
    sections: take, retire, settle. */
module ExtentStore {
  import opened Collections
  import opened Pages
  import opened ExtentLists

  /** `AsyncOpImpl`: pending until it is completed, failed or cancelled. */
  datatype Status = Pending | Complete(bytes: nat) | Failed | Cancelled

  /** The operations named by the queued and running requests, and those
      retired but not yet settled, are distinct and are exactly the pending
      ones. */
  ghost predicate OpsOk(live: seq<Request>, settling: seq<nat>, pending: set<nat>, status: map<nat, Status>, next: nat) {
    && (forall i, j :: 0 <= i < j < |live| ==> live[i].op != live[j].op)
    && (forall i :: 0 <= i < |live| ==> live[i].op in pending)
    && (forall o :: o in pending ==> exists i :: 0 <= i < |live| && live[i].op == o)
    && NoDup(settling)
    && (forall o :: o in settling ==> o !in pending && o in status)
    && (forall o :: o in pending ==> o in status)
    && (forall o: nat :: o in status <==> o < next)
    && (forall o :: o in status ==> (status[o].Pending? <==> o in pending || o in settling))
  }

  /** Which free run an allocation of `n` extents takes: a single extent is the
      one freed last, a longer run the highest there is. */
  ghost predicate Chosen(u: seq<bool>, free: seq<nat>, n: nat, f: nat) {
    && All(u, f, n, false)
    && (n == 1 ==> |free| > 0 && f == free[|free| - 1])
    && (n > 1 ==> forall g: nat :: g > f ==> !All(u, g, n, false))
  }

  function Names(q: seq<Request>): set<nat> {
    set c | c in q :: c.op
  }

  /** How a worker settles: completed with its byte count, or failed. */
  function Worked(answer: Option<nat>): Status {
    match answer
    case Some(bytes) => Complete(bytes)
    case None => Failed
  }

  /** A terminal status is final. */
  ghost predicate Final(a: map<nat, Status>, b: map<nat, Status>) {
    forall o :: o in a && !a[o].Pending? ==> o in b && b[o] == a[o]
  }

  /** The live requests are among those accepted. */
  ghost predicate Recorded(live: seq<Request>, issued: map<nat, Request>) {
    forall i :: 0 <= i < |live| ==> live[i].op in issued && issued[live[i].op] == live[i]
  }

  lemma RecordedMidInsert(q: seq<Request>, r: seq<Request>, issued: map<nat, Request>, status: map<nat, Status>,
                          pending: set<nat>, settling: seq<nat>, next: nat, c: Request)
    requires Recorded(q + r, issued) && OpsOk(q + r, settling, pending, status, next) && c.op == next
    ensures Recorded((q + [c]) + r, issued[c.op := c])
  {
    var live, live' := q + r, (q + [c]) + r;
    forall i | 0 <= i < |live'| ensures live'[i].op in issued[c.op := c] && issued[c.op := c][live'[i].op] == live'[i] {
      if i != |q| {
        var j := if i < |q| then i else i - 1;
        assert live'[i] == live[j] && live[j].op in pending;
      }
    }
  }

  lemma RecordedWithout(live: seq<Request>, issued: map<nat, Request>, i: nat)
    requires Recorded(live, issued) && i < |live|
    ensures Recorded(Without(live, i), issued)
  {}

  lemma RecordedReordered(q: seq<Request>, r: seq<Request>, issued: map<nat, Request>)
    requires |q| > 0 && Recorded(q + r, issued)
    ensures Recorded(q[1..] + (r + [q[0]]), issued)
  {
    var live, live' := q + r, q[1..] + (r + [q[0]]);
    assert forall i :: 0 <= i < |live'| ==> live'[i] == live[if i == |live| - 1 then 0 else i + 1];
  }

  /** I/O is counted over an extent only on behalf of an operation that covers
      it and is still pending: the counters are lowered before a status is
      published. */
  lemma BusyIsPending(u: seq<bool>, a: seq<nat>, live: seq<Request>, settling: seq<nat>, pending: set<nat>,
                      status: map<nat, Status>, next: nat, k: nat) returns (i: nat)
    requires CountsIo(u, a, live) && OpsOk(live, settling, pending, status, next) && k < |u| && a[k] != 0
    ensures i < |live| && Touches(live[i], k) && live[i].op in status && status[live[i].op].Pending?
  {
    CoverZero(live, k);
    i :| 0 <= i < |live| && Touches(live[i], k);
    assert live[i].op in pending;
  }

  lemma OpsAfterSubmit(live: seq<Request>, settling: seq<nat>, pending: set<nat>, status: map<nat, Status>, next: nat, c: Request)
    requires OpsOk(live, settling, pending, status, next) && c.op == next
    ensures OpsOk(live + [c], settling, pending + {next}, status[next := Pending], next + 1)
    ensures Final(status, status[next := Pending])
  {
    var live' := live + [c];
    forall o | o in pending + {next} ensures exists i :: 0 <= i < |live'| && live'[i].op == o {
      if o == next {
        assert live'[|live|].op == o;
      } else {
        var i :| 0 <= i < |live| && live[i].op == o;
        assert live'[i].op == o;
      }
    }
  }

  lemma OpsReordered(q: seq<Request>, r: seq<Request>, settling: seq<nat>, pending: set<nat>, status: map<nat, Status>, next: nat)
    requires |q| > 0 && OpsOk(q + r, settling, pending, status, next)
    ensures OpsOk(q[1..] + (r + [q[0]]), settling, pending, status, next)
  {
    var live := q + r;
    var live' := q[1..] + (r + [q[0]]);
    var n := |live| - 1;
    assert forall i :: 0 <= i < n ==> live'[i] == live[i + 1];
    assert live'[n] == live[0];
    forall o | o in pending ensures exists i :: 0 <= i < |live'| && live'[i].op == o {
      var i :| 0 <= i < |live| && live[i].op == o;
      assert live'[if i == 0 then n else i - 1].op == o;
    }
  }

  lemma OthersRemain(live: seq<Request>, i: nat, j: nat)
    requires i < |live| && j < |live| && j != i
    ensures exists k :: 0 <= k < |Without(live, i)| && Without(live, i)[k] == live[j]
  {
    assert Without(live, i)[if j < i then j else j - 1] == live[j];
  }

  /** A request leaves the live ones; its operation is then settling. */
  lemma OpsAfterRetire(live: seq<Request>, settling: seq<nat>, pending: set<nat>, status: map<nat, Status>, next: nat, i: nat)
    requires i < |live| && OpsOk(live, settling, pending, status, next)
    ensures OpsOk(Without(live, i), settling + [live[i].op], pending - {live[i].op}, status, next)
  {
    var live' := Without(live, i);
    assert forall j :: 0 <= j < |live'| ==> live'[j] == live[if j < i then j else j + 1];
    assert live[i].op in pending;
    hide Without;
    forall o | o in pending - {live[i].op} ensures exists j :: 0 <= j < |live'| && live'[j].op == o {
      var j :| 0 <= j < |live| && live[j].op == o;
      OthersRemain(live, i, j);
    }
  }

  lemma OpsAfterSettle(live: seq<Request>, settling: seq<nat>, pending: set<nat>, status: map<nat, Status>, next: nat,
                       k: nat, done: Status)
    requires k < |settling| && !done.Pending? && OpsOk(live, settling, pending, status, next)
    ensures settling[k] in status && status[settling[k]].Pending?
    ensures OpsOk(live, Without(settling, k), pending, status[settling[k] := done], next)
    ensures Final(status, status[settling[k] := done])
  {
    var rest := Without(settling, k);
    var o := settling[k];
    assert o in settling;
    assert forall j :: 0 <= j < |rest| ==> rest[j] == settling[if j < k then j else j + 1];
    forall x | x in settling && x != o ensures x in rest {
      var j :| 0 <= j < |settling| && settling[j] == x;
      assert rest[if j < k then j else j - 1] == x;
    }
    assert o !in rest;
  }

  /** The file system's part in `open`. */
  datatype OsAnswer = Ready | FailedEarly(code: ErrorCode) | FailedLate(code: ErrorCode)

  /** `validate_store_geometry`. */
  predicate GeometryOk(capacity: nat, size: nat, maxFile: nat, maxIo: nat) {
    capacity != 0 && 4096 <= size <= maxIo && capacity % size == 0 && capacity + size <= maxFile
  }

  function AllQuiet(n: nat): seq<nat> {
    seq(n, _ => 0)
  }

  /** The `n` numbers from `first` on. */
  function UpFrom(first: nat, n: nat): (r: seq<nat>)
    ensures |r| == n && forall i :: 0 <= i < n ==> r[i] == first + i
  {
    seq(n, i requires 0 <= i < n => first + i)
  }

  function Ascending(n: nat): seq<nat> {
    seq(n, i requires 0 <= i < n => i)
  }

  class NvmeBackend {
    var isOpen: bool
    var stopping: bool
    var fd: bool
    var pageSize: nat
    var fileSize: nat
    var extentCount: nat
    var usedExtents: nat
    var used: seq<bool>
    var activeIo: seq<nat>
    var freeList: seq<nat>
    var queue: seq<Request>
    /** requests a worker has taken and not yet retired */
    var running: seq<Request>
    /** operations a worker has retired and not yet settled */
    var settling: seq<nat>
    var pending: set<nat>
    /** the operations handed out so far */
    var status: map<nat, Status>
    var nextOp: nat
    /** every request ever accepted, by operation */
    ghost var issued: map<nat, Request>

    ghost predicate Core()
      reads `isOpen, `pageSize, `fileSize, `extentCount, `usedExtents, `used, `activeIo, `freeList, `queue, `running,
            `settling, `pending, `status, `nextOp, `issued
    {
      && ListsFree(used, freeList) && usedExtents == CountUsed(used)
      && CountsIo(used, activeIo, queue + running)
      && OpsOk(queue + running, settling, pending, status, nextOp)
      && Recorded(queue + running, issued) && issued.Keys == status.Keys
      && (isOpen ==> pageSize > 0 && |used| == extentCount && fileSize == (extentCount + 1) * pageSize)
      && (!isOpen ==> queue == [] && running == [] && settling == [])
    }

    /** What holds whenever the lifecycle lock is free. */
    ghost predicate Valid() reads this {
      Core() && !stopping
    }

    constructor ()
      ensures Valid() && !isOpen && status == map[]
    {
      fd := false;
      isOpen, stopping, pageSize, fileSize, extentCount, usedExtents := false, false, 0, 0, 0, 0;
      used, activeIo, freeList, queue, running, settling := [], [], [], [], [], [];
      pending, status, nextOp, issued := {}, map[], 0, map[];
    }

    // -------------------------------------------------------------- allocation

    /** `allocate_extent`: the extent freed last is the first to be reused. */
    method AllocateExtent() returns (r: Outcome<Option<nat>>)
      requires Valid()
      modifies `freeList, `used, `usedExtents
      ensures Valid()
      ensures r.Err? <==> !isOpen
      ensures r.Ok? ==> (r.value.None? <==> CountUsed(old(used)) == |old(used)|)
      ensures r.Ok? && r.value.Some? ==>
        |old(freeList)| > 0 && var first := old(freeList)[|old(freeList)| - 1];
        && All(old(used), first, 1, false) && used == SetRange(old(used), first, 1, true)
        && r.value.value == (first + 1) * pageSize && freeList == old(freeList)[..|old(freeList)| - 1]
      ensures r.Err? || r.value.None? ==> used == old(used) && freeList == old(freeList)
    {
      hide OpsOk, Recorded;
      if !isOpen || stopping { return Err(StateError); }
      if |freeList| == 0 {
        AllUsed(used);
        return Ok(None);
      }
      var idx := freeList[|freeList| - 1];
      ListsFreeAfterPop(used, freeList);
      RunFitsCount(used, idx, 1);
      CountSetRange(used, idx, 1, true);
      CountsAfterTake(used, activeIo, queue + running, idx, 1);
      assert SetRange(used, idx, 1, true) == used[idx := true];
      freeList := freeList[..|freeList| - 1];
      used := used[idx := true];
      usedExtents := usedExtents + 1;
      return Ok(Some((idx + 1) * pageSize));
    }

    /** The scan of `allocate_extents`, from the top down. */
    method HighestRun(n: nat) returns (found: bool, first: nat)
      requires n > 0
      ensures found ==> All(used, first, n, false) && forall f: nat :: f > first ==> !All(used, f, n, false)
      ensures !found ==> forall f: nat :: !All(used, f, n, false)
    {
      var run := 0;
      var cursor := |used|;
      while cursor != 0
        invariant 0 <= cursor && cursor + run <= |used| && 0 <= run < n
        invariant forall k :: cursor <= k < cursor + run ==> !used[k]
        invariant cursor + run == |used| || used[cursor + run]
        invariant forall f: nat :: f >= cursor ==> !All(used, f, n, false)
      {
        var idx := cursor - 1;
        if !used[idx] {
          run := run + 1;
          if run == n { return true, idx; }
          Blocked(used, idx, n, idx + run);
        } else {
          run := 0;
          Blocked(used, idx, n, idx);
        }
        cursor := idx;
      }
      return false, 0;
    }

    /** `allocate_extents`. One extent is taken from the free list; several are
        the highest free run, and there is one unless the call answers `None`. */
    method AllocateExtents(n: nat) returns (r: Outcome<Option<nat>>)
      requires Valid()
      modifies `freeList, `used, `usedExtents
      ensures Valid()
      ensures r.Err? <==> !isOpen || n == 0
      ensures r.Err? ==> r.code == if !isOpen then StateError else InvalidArgument
      ensures r.Ok? ==> (r.value.Some? <==> exists f: nat :: All(old(used), f, n, false))
      ensures r.Ok? && r.value.Some? ==>
        exists f: nat :: Chosen(old(used), old(freeList), n, f) && r.value.value == (f + 1) * pageSize
                         && used == SetRange(old(used), f, n, true)
      ensures r.Err? || r.value.None? ==> used == old(used) && freeList == old(freeList)
    {
      hide OpsOk, Recorded, ListsFree, CountUsed, CountsIo;
      if !isOpen { return Err(StateError); }
      if n == 0 { return Err(InvalidArgument); }
      if n == 1 {
        FreeListHasRun(used, freeList);
        r := AllocateExtent();
        return;
      }
      if n > extentCount - usedExtents {
        forall f: nat ensures !All(used, f, n, false) {
          if All(used, f, n, false) { RunFitsCount(used, f, n); }
        }
        return Ok(None);
      }
      var found, first := HighestRun(n);
      if !found { return Ok(None); }
      TakeRun(first, n);
      return Ok(Some((first + 1) * pageSize));
    }

    /** The second half of `allocate_extents`: the bits, the list, the count. */
    method TakeRun(first: nat, n: nat)
      requires Valid() && All(used, first, n, false)
      modifies `freeList, `used, `usedExtents
      ensures Valid() && used == SetRange(old(used), first, n, true)
      ensures freeList == Outside(old(freeList), first, first + n)
    {
      hide OpsOk, Recorded;
      ghost var u := used;
      ListsFreeAfterTake(used, freeList, first, n);
      CountSetRange(used, first, n, true);
      CountsAfterTake(used, activeIo, queue + running, first, n);
      for i := 0 to n
        invariant used == SetRange(u, first, i, true)
        invariant freeList == old(freeList) && usedExtents == old(usedExtents)
      {
        used := used[first + i := true];
      }
      freeList := Outside(freeList, first, first + n);
      usedExtents := usedExtents + n;
    }

    // ------------------------------------------------------------------ freeing

    /** What `free_extents` demands, in the order it is asked. */
    ghost function FreeFault(offset: nat, n: nat): (e: Option<ErrorCode>)
      requires Valid()
      reads this
    {
      if !isOpen then Some(StateError)
      else if n == 0 || offset < pageSize || offset % pageSize != 0 then Some(InvalidArgument)
      else if offset / pageSize - 1 + n > extentCount then Some(InvalidArgument)
      else if !All(used, offset / pageSize - 1, n, true) then Some(StateError)
      else if exists k :: offset / pageSize - 1 <= k < offset / pageSize - 1 + n && activeIo[k] != 0 then Some(StateError)
      else None
    }

    /** `free_extents`: refused as a whole, or done as a whole. */
    method FreeExtents(offset: nat, n: nat) returns (r: Outcome<bool>)
      requires Valid()
      modifies `freeList, `used, `usedExtents
      ensures Valid()
      ensures r == match old(FreeFault(offset, n)) case None => Ok(true) case Some(e) => Err(e)
      ensures r.Err? ==> used == old(used) && freeList == old(freeList)
      ensures r.Ok? ==>
        pageSize > 0 && offset >= pageSize && used == SetRange(old(used), offset / pageSize - 1, n, false)
      ensures r.Ok? ==> freeList == old(freeList) + UpFrom(offset / pageSize - 1, n)
    {
      hide OpsOk, Recorded, ListsFree, CountUsed;
      if !isOpen { return Err(StateError); }
      if n == 0 || offset < pageSize || offset % pageSize != 0 { return Err(InvalidArgument); }
      var first := offset / pageSize - 1;
      if n > extentCount || first > extentCount - n { return Err(InvalidArgument); }
      if stopping { return Err(StateError); }
      for i := 0 to n
        invariant All(used, first, i, true)
        invariant forall k :: first <= k < first + i ==> activeIo[k] == 0
      {
        if !used[first + i] {
          NotAll(used, first, n, first + i);
          return Err(StateError);
        }
        if activeIo[first + i] != 0 { return Err(StateError); }
      }
      GiveRun(first, n);
      return Ok(true);
    }

    /** Every operation accepted over these extents has a terminal status. */
    ghost predicate Finished(first: nat, n: nat)
      reads this
    {
      forall o, k :: o in issued && first <= k < first + n && Touches(issued[o], k) ==>
        o in status && !status[o].Pending?
    }

    /** I/O in progress over an extent is that of an accepted operation which
        covers it and has no terminal status yet. */
    lemma BusyOperation(k: nat) returns (o: nat)
      requires Core() && k < |used| && activeIo[k] != 0
      ensures o in issued && Touches(issued[o], k) && o in status && status[o].Pending?
    {
      var i := BusyIsPending(used, activeIo, queue + running, settling, pending, status, nextOp, k);
      o := (queue + running)[i].op;
    }

    /** A caller that frees an allocated range after the operations on it have
        settled is never refused, least of all for active I/O. */
    lemma FinishedRangeIsFreeable(first: nat, n: nat)
      requires Valid() && isOpen && n > 0 && All(used, first, n, true) && Finished(first, n)
      ensures FreeFault((first + 1) * pageSize, n) == None
    {
      OffsetOf(first, pageSize);
      forall k | first <= k < first + n ensures activeIo[k] == 0 {
        if activeIo[k] != 0 { var o := BusyOperation(k); }
      }
    }

    /** The second half of `free_extents`. */
    method GiveRun(first: nat, n: nat)
      requires Valid() && All(used, first, n, true)
      requires forall k :: first <= k < first + n ==> activeIo[k] == 0
      modifies `freeList, `used, `usedExtents
      ensures Valid() && used == SetRange(old(used), first, n, false)
      ensures freeList == old(freeList) + UpFrom(first, n)
    {
      hide OpsOk, Recorded, CountsIo, CountUsed, ListsFree;
      ghost var u := used;
      CountSetRange(used, first, n, false);
      CountsAfterGive(used, activeIo, queue + running, first, n);
      FreeBits(first, n);
      usedExtents := usedExtents - n;
    }

    /** The loop: each bit cleared, each extent put at the back of the list. */
    method FreeBits(first: nat, n: nat)
      requires ListsFree(used, freeList) && All(used, first, n, true)
      modifies `freeList, `used
      ensures used == SetRange(old(used), first, n, false) && ListsFree(used, freeList)
      ensures freeList == old(freeList) + UpFrom(first, n)
    {
      hide ListsFree;
      ghost var u, free := used, freeList;
      for i := 0 to n
        invariant used == SetRange(u, first, i, false)
        invariant ListsFree(used, freeList) && freeList == free + UpFrom(first, i)
      {
        ListsFreeAfterGive(used, freeList, first + i);
        used := used[first + i := false];
        freeList := freeList + [first + i];
        assert UpFrom(first, i + 1) == UpFrom(first, i) + [first + i];
      }
    }

    /** What was just allocated can be given back, and then nothing has changed
        but the order of the free list. */
    method TakeAndGive(n: nat) returns (taken: bool)
      requires Valid() && isOpen && n > 0
      modifies `freeList, `used, `usedExtents
      ensures Valid() && used == old(used) && usedExtents == old(usedExtents)
      ensures taken <==> exists f: nat :: All(old(used), f, n, false)
    {
      hide NvmeBackend.FreeFault, ListsFree, OpsOk, Recorded;
      ghost var u := used;
      var got := AllocateExtents(n);
      if got.value.None? { return false; }
      ghost var f: nat :| Chosen(u, old(freeList), n, f) && got.value.value == (f + 1) * pageSize
                          && used == SetRange(u, f, n, true);
      TakenIsFreeable(u, f, n);
      OffsetOf(f, pageSize);
      var freed := FreeExtents(got.value.value, n);
      assert used == u;
      return true;
    }

    /** Nothing is in progress over extents that were free a moment ago. */
    lemma TakenIsFreeable(u: seq<bool>, f: nat, n: nat)
      requires Valid() && isOpen && n > 0 && CountsIo(u, activeIo, queue + running)
      requires All(u, f, n, false) && used == SetRange(u, f, n, true)
      ensures FreeFault((f + 1) * pageSize, n) == None
    {
      hide ListsFree, OpsOk, Recorded;
      OffsetOf(f, pageSize);
      forall k | f <= k < f + n ensures activeIo[k] == 0 {
        if activeIo[k] != 0 { BusyIsUsed(u, activeIo, queue + running, k); }
      }
    }

    /** The extent freed last is the next to be handed out. */
    method ReuseLastFreed(offset: nat) returns (again: Option<nat>)
      requires Valid() && isOpen
      modifies `freeList, `used, `usedExtents
      ensures Valid() && used == old(used) && freeList == old(freeList)
      ensures again == if old(FreeFault(offset, 1)) == None then Some(offset) else None
    {
      hide NvmeBackend.FreeFault, ListsFree, OpsOk, Recorded, CountsIo, CountUsed, All;
      ghost var u, free := used, freeList;
      if FreeFault(offset, 1) == None { AtOffset(offset); }
      var freed := FreeExtents(offset, 1);
      if freed.Err? { return None; }
      FreeListHasRun(used, freeList);
      var got := AllocateExtent();
      assert freeList == free;
      assert used == u;
      return got.value;
    }

    lemma AtOffset(offset: nat)
      requires Valid() && isOpen && FreeFault(offset, 1) == None
      ensures pageSize > 0 && 0 <= offset / pageSize - 1 < |used| && used[offset / pageSize - 1]
      ensures offset / pageSize * pageSize == offset
    {
      hide ListsFree, OpsOk, Recorded, CountsIo, CountUsed;
      assert offset == offset / pageSize * pageSize + offset % pageSize;
    }

    // ---------------------------------------------------------------------- I/O

    /** What `read_async` and `write_async` demand, in the order it is asked. */
    ghost function IoFault(offset: nat, buffer: nat, bytes: nat, maxIo: nat): (e: Option<ErrorCode>)
      requires Valid()
      reads this
    {
      if !isOpen then Some(StateError)
      else if buffer == 0 || bytes == 0 || bytes > maxIo then Some(InvalidArgument)
      else if offset < pageSize || offset % pageSize != 0 || bytes % pageSize != 0 then Some(InvalidArgument)
      else if offset + bytes > fileSize then Some(InvalidArgument)
      else if !All(used, offset / pageSize - 1, bytes / pageSize, true) then Some(StateError)
      else None
    }

    /** `read_async` and `write_async`: refused and nothing changed, or a fresh
        pending operation at the back of the queue. A null buffer is `0`. */
    method Submit(offset: nat, buffer: nat, bytes: nat, maxIo: nat, isRead: bool) returns (r: Outcome<nat>)
      requires Valid()
      modifies `queue, `pending, `status, `nextOp, `issued, `activeIo
      ensures Valid() && Final(old(status), status)
      ensures match old(IoFault(offset, buffer, bytes, maxIo)) {
        case Some(e) => r == Err(e) && queue == old(queue) && status == old(status) && activeIo == old(activeIo)
                        && issued == old(issued)
        case None => r == Ok(old(nextOp)) && pageSize > 0 && offset >= pageSize && status == old(status)[old(nextOp) := Pending]
          && queue == old(queue) + [Request(old(nextOp), offset / pageSize - 1, bytes / pageSize, isRead, buffer)]
          && issued == old(issued)[old(nextOp) := queue[|old(queue)|]]
      }
    {
      if !isOpen { return Err(StateError); }
      if buffer == 0 { return Err(InvalidArgument); }
      if bytes == 0 || bytes > maxIo { return Err(InvalidArgument); }
      if offset < pageSize || offset % pageSize != 0 || bytes % pageSize != 0 || offset >= fileSize
         || bytes > fileSize - offset {
        return Err(InvalidArgument);
      }
      if stopping { return Err(StateError); }
      var c := Request(nextOp, offset / pageSize - 1, bytes / pageSize, isRead, buffer);
      InsideStore(pageSize, extentCount, offset, bytes);
      for i := 0 to c.count
        invariant All(used, c.first, i, true)
      {
        if !used[c.first + i] {
          NotAll(used, c.first, c.count, c.first + i);
          return Err(StateError);
        }
      }
      Enqueue(c);
      return Ok(c.op);
    }

    /** The second half of `read_async` and `write_async`. */
    method Enqueue(c: Request)
      requires Valid() && isOpen && InUse(used, c) && c.op == nextOp
      modifies `queue, `pending, `status, `nextOp, `issued, `activeIo
      ensures Valid() && Final(old(status), status)
      ensures queue == old(queue) + [c] && status == old(status)[c.op := Pending] && issued == old(issued)[c.op := c]
    {
      hide Recorded, OpsOk, CountsIo, ListsFree, CountUsed, Bump;
      CountsAfterSubmit(used, activeIo, queue + running, c);
      CountsMidInsert(used, Bump(activeIo, c.first, c.count, true), queue, running, c);
      OpsAfterSubmit(queue + running, settling, pending, status, nextOp, c);
      OpsMidInsert(queue, running, settling, pending + {nextOp}, status[nextOp := Pending], nextOp + 1, c);
      RecordedMidInsert(queue, running, issued, status, pending, settling, nextOp, c);
      pending, status, nextOp := pending + {c.op}, status[c.op := Pending], nextOp + 1;
      issued := issued[c.op := c];
      queue := queue + [c];
      RaiseCounts(c);
    }

    method RaiseCounts(c: Request)
      requires c.first + c.count <= |activeIo|
      modifies `activeIo
      ensures activeIo == Bump(old(activeIo), c.first, c.count, true)
    {
      ghost var a := activeIo;
      for i := 0 to c.count
        invariant activeIo == Bump(a, c.first, i, true)
      {
        activeIo := activeIo[c.first + i := activeIo[c.first + i] + 1];
      }
    }

    // ------------------------------------------------------------------ workers

    /** `worker_loop` takes the front of the queue. */
    method Take() returns (c: Request)
      requires Core() && queue != []
      modifies `queue, `running
      ensures Core()
      ensures c == old(queue)[0] && queue == old(queue)[1..] && running == old(running) + [c]
    {
      hide Recorded, OpsOk, CountsIo, ListsFree, CountUsed;
      c := queue[0];
      CountsReordered(used, activeIo, queue, running);
      OpsReordered(queue, running, settling, pending, status, nextOp);
      RecordedReordered(queue, running, issued);
      queue, running := queue[1..], running + [c];
    }

    /** `retire_posix_operation`: the extents are given up before the status is
        published. */
    method Retire(i: nat)
      requires Core() && i < |running|
      modifies `running, `settling, `pending, `activeIo
      ensures Core()
      ensures running == Without(old(running), i) && settling == old(settling) + [old(running)[i].op]
    {
      hide Recorded, OpsOk, CountsIo, ListsFree, CountUsed, Bump;
      var c := running[i];
      ghost var k := |queue| + i;
      assert (queue + running)[k] == c;
      assert Without(queue + running, k) == queue + Without(running, i);
      CountsAfterRetire(used, activeIo, queue + running, k);
      OpsAfterRetire(queue + running, settling, pending, status, nextOp, k);
      RecordedWithout(queue + running, issued, k);
      LowerCounts(c);
      pending := pending - {c.op};
      running, settling := Without(running, i), settling + [c.op];
    }

    method LowerCounts(c: Request)
      requires c.first + c.count <= |activeIo|
      modifies `activeIo
      ensures activeIo == Bump(old(activeIo), c.first, c.count, false)
    {
      ghost var a := activeIo;
      for i := 0 to c.count
        invariant activeIo == Bump(a, c.first, i, false)
      {
        if activeIo[c.first + i] != 0 {
          activeIo := activeIo[c.first + i := activeIo[c.first + i] - 1];
        }
      }
    }

    /** `AsyncOpImpl::complete`, `fail` or `cancel`; all three keep a status
        that is already terminal. */
    method Settle(k: nat, done: Status)
      requires Core() && k < |settling| && !done.Pending?
      modifies `settling, `status
      ensures Core() && Final(old(status), status)
      ensures settling == Without(old(settling), k) && status == old(status)[old(settling)[k] := done]
      ensures old(settling)[k] in old(status) && old(status)[old(settling)[k]].Pending?
    {
      hide Recorded, CountsIo, ListsFree, CountUsed;
      OpsAfterSettle(queue + running, settling, pending, status, nextOp, k, done);
      if status[settling[k]].Pending? {
        status := status[settling[k] := done];
      }
      settling := Without(settling, k);
    }

    // ----------------------------------------------------------------- draining

    /** The loop of `cancel_all` and `close`: what is queued is retired and
        cancelled, what runs is left alone. */
    method DrainQueue()
      requires Core()
      modifies `queue, `pending, `status, `activeIo
      ensures Core() && queue == []
      ensures status.Keys == old(status.Keys)
      ensures forall o :: o in status ==> status[o] == if o in Names(old(queue)) then Status.Cancelled else old(status)[o]
    {
      hide NvmeBackend.Core;
      var done := 0;
      assert old(queue)[..0] == [];
      while |queue| > 0
        invariant Core() && status.Keys == old(status.Keys)
        invariant done <= |old(queue)| && queue == old(queue)[done..]
        invariant forall o :: o in status ==>
          status[o] == if o in Names(old(queue)[..done]) then Status.Cancelled else old(status)[o]
        decreases |queue|
      {
        assert old(queue)[..done + 1] == old(queue)[..done] + [queue[0]];
        CancelFront();
        done := done + 1;
      }
      assert old(queue)[..done] == old(queue);
    }

    method CancelFront()
      requires Core() && |queue| > 0
      modifies `queue, `pending, `status, `activeIo
      ensures Core() && Final(old(status), status)
      ensures queue == old(queue)[1..] && status == old(status)[old(queue)[0].op := Status.Cancelled]
      ensures old(queue)[0].op in old(status)
    {
      hide Recorded, OpsOk, CountsIo, ListsFree, CountUsed, Bump;
      var c := queue[0];
      assert Without(queue + running, 0) == queue[1..] + running;
      CountsAfterRetire(used, activeIo, queue + running, 0);
      OpsAfterRetire(queue + running, settling, pending, status, nextOp, 0);
      RecordedWithout(queue + running, issued, 0);
      OpsAfterSettle(queue[1..] + running, settling + [c.op], pending - {c.op}, status, nextOp, |settling|, Status.Cancelled);
      assert Without(settling + [c.op], |settling|) == settling;
      queue, pending := queue[1..], pending - {c.op};
      LowerCounts(c);
      if status[c.op].Pending? {
        status := status[c.op := Status.Cancelled];
      }
    }

    /** `cancel_all`. */
    method CancelAll()
      requires Valid()
      modifies `queue, `pending, `status, `activeIo
      ensures Valid()
      ensures isOpen ==> queue == []
      ensures status.Keys == old(status.Keys)
      ensures forall o :: o in status ==>
        status[o] == if isOpen && o in Names(old(queue)) then Status.Cancelled else old(status)[o]
    {
      if isOpen { DrainQueue(); }
    }

    // ---------------------------------------------------------------- lifecycle

    /** The workers finish what they have taken, in any order, and exit.
        `answer` is what the transfer of each operation comes to. */
    method JoinWorkers(answer: nat -> Option<nat>)
      requires Core()
      modifies `running, `settling, `pending, `activeIo, `status
      ensures Core() && running == [] && settling == []
      ensures status.Keys == old(status.Keys)
      ensures forall o :: o in status ==>
        status[o] == old(status)[o] || (old(status)[o].Pending? && status[o] == Worked(answer(o)))
    {
      hide NvmeBackend.Core;
      while |running| > 0 || |settling| > 0
        invariant Core() && status.Keys == old(status.Keys)
        invariant forall o :: o in status ==>
          status[o] == old(status)[o] || (old(status)[o].Pending? && status[o] == Worked(answer(o)))
        decreases 2 * |running| + |settling|
      {
        if * {
          if |running| > 0 {
            var i :| 0 <= i < |running|;
            Retire(i);
          } else {
            Settle(0, Worked(answer(settling[0])));
          }
        } else if |settling| > 0 {
          var k :| 0 <= k < |settling|;
          Settle(k, Worked(answer(settling[k])));
        } else {
          Retire(0);
        }
      }
    }

    /** `close`: what was queued is cancelled, what was running is settled by
        its worker, and nothing handed out is left pending. */
    method Close(answer: nat -> Option<nat>)
      requires Valid()
      modifies this
      ensures Valid() && !isOpen && !fd && status.Keys == old(status.Keys)
      ensures old(isOpen || fd) ==> used == [] && usedExtents == 0
      ensures old(isOpen || fd) ==> forall o :: o in status ==>
        status[o] == if !old(status)[o].Pending? then old(status)[o]
                     else if o in Names(old(queue)) then Status.Cancelled
                     else Worked(answer(o))
      ensures !old(isOpen || fd) ==> status == old(status)
    {
      hide NvmeBackend.Core;
      if !isOpen && !fd { return; }
      stopping := true;
      QueuedArePending();
      DrainQueue();
      JoinWorkers(answer);
      Clear();
    }

    /** The end of `close`, with the workers gone. */
    method Clear()
      requires Core() && queue == [] && running == [] && settling == []
      modifies `fd, `used, `activeIo, `freeList, `pending, `usedExtents, `stopping, `isOpen
      ensures Valid() && !isOpen && !fd && used == [] && usedExtents == 0
      ensures forall o :: o in status ==> !status[o].Pending?
    {
      NothingPending(queue + running, settling, pending, status, nextOp);
      hide OpsOk, Recorded;
      fd, isOpen, stopping := false, false, false;
      used, activeIo, freeList, pending, usedExtents := [], [], [], {}, 0;
    }

    lemma QueuedArePending()
      requires Core()
      ensures forall o :: o in Names(queue) ==> o in status && status[o].Pending?
    {
      forall o | o in Names(queue) ensures o in status && status[o].Pending? {
        var c :| c in queue && c.op == o;
        var i :| 0 <= i < |queue| && queue[i] == c;
        assert (queue + running)[i].op == o;
      }
    }

    /** `open`: whatever was open is closed first; on success every extent is
        free, the highest first in line. `os` is what the file system answers:
        a failure before the file is locked leaves the tables as prepared. */
    method Open(capacity: nat, size: nat, maxFile: nat, maxIo: nat, os: OsAnswer, answer: nat -> Option<nat>)
      returns (r: Outcome<nat>)
      requires Valid()
      modifies this
      ensures Valid() && isOpen == r.Ok?
      ensures r == if !GeometryOk(capacity, size, maxFile, maxIo) then Err(InvalidArgument)
                   else match os case Ready => Ok(capacity / size) case FailedEarly(e) => Err(e) case FailedLate(e) => Err(e)
      ensures r.Ok? ==> extentCount == r.value && pageSize == size && CountUsed(used) == 0
      ensures r.Ok? ==> freeList == Ascending(extentCount)
    {
      Close(answer);
      if capacity == 0 || size < 4096 || capacity % size != 0 { return Err(InvalidArgument); }
      if size > maxIo { return Err(InvalidArgument); }
      if capacity + size > maxFile { return Err(InvalidArgument); }
      Prepare(capacity, size);
      match os {
        case FailedEarly(e) =>
          return Err(e);
        case FailedLate(e) =>
          fd := true;
          Close(answer);
          return Err(e);
        case Ready =>
          fd := true;
          isOpen := true;
          return Ok(extentCount);
      }
    }

    /** The tables of a store nobody has used. */
    method Prepare(capacity: nat, size: nat)
      requires Valid() && !isOpen && size > 0 && capacity % size == 0
      modifies `pageSize, `fileSize, `extentCount, `used, `activeIo, `freeList, `usedExtents
      ensures Valid() && pageSize == size && fileSize == (extentCount + 1) * size
      ensures extentCount == capacity / size && |used| == extentCount && CountUsed(used) == 0
      ensures freeList == Ascending(extentCount)
    {
      hide Recorded, OpsOk, CountUsed, CountsIo, ListsFree, Ascending, AllFree, AllQuiet;
      assert queue + running == [];
      WholeStore(capacity, size);
      var n := capacity / size;
      CountNone(n);
      EveryExtentFree(n);
      pageSize, fileSize, extentCount, usedExtents := size, capacity + size, n, 0;
      used, activeIo := AllFree(n), AllQuiet(n);
      FillFreeList();
    }

    method FillFreeList()
      modifies `freeList
      ensures freeList == Ascending(extentCount)
    {
      freeList := [];
      for idx := 0 to extentCount
        invariant freeList == Ascending(idx)
      {
        freeList := freeList + [idx];
      }
    }
  }

  lemma NotAll(u: seq<bool>, f: nat, n: nat, k: nat)
    requires f <= k < f + n && k < |u| && !u[k]
    ensures !All(u, f, n, true)
  {}

  /** A used extent, or the end of the store, inside the window. */
  lemma Blocked(u: seq<bool>, f: nat, n: nat, k: nat)
    requires f <= k < f + n && (k < |u| ==> u[k])
    ensures !All(u, f, n, false)
  {}

  lemma AllUsed(u: seq<bool>)
    requires ListsFree(u, [])
    ensures CountUsed(u) == |u|
  {
    CountAllUsed(u);
  }

  lemma {:induction false} CountAllUsed(u: seq<bool>)
    requires forall k :: 0 <= k < |u| ==> u[k]
    ensures CountUsed(u) == |u|
  {
    if |u| > 0 { CountAllUsed(u[..|u| - 1]); }
  }

  lemma FreeListHasRun(u: seq<bool>, free: seq<nat>)
    requires ListsFree(u, free)
    ensures |free| > 0 <==> exists f: nat :: All(u, f, 1, false)
    ensures |free| > 0 <==> CountUsed(u) < |u|
  {
    if |free| > 0 {
      assert free[|free| - 1] in free;
      assert All(u, free[|free| - 1], 1, false);
      RunFitsCount(u, free[|free| - 1], 1);
    } else {
      AllUsed(u);
      forall f: nat ensures !All(u, f, 1, false) {
        Blocked(u, f, 1, f);
      }
    }
  }

  /** A request that passes the checks lies in the payload, extent by extent. */
  lemma InsideStore(pageSize: nat, extents: nat, offset: nat, bytes: nat)
    requires pageSize > 0 && bytes > 0 && offset % pageSize == 0 && bytes % pageSize == 0
    requires pageSize <= offset && offset + bytes <= (extents + 1) * pageSize
    ensures bytes / pageSize > 0 && offset / pageSize >= 1
    ensures offset / pageSize - 1 + bytes / pageSize <= extents
  {
    var a, b := offset / pageSize, bytes / pageSize;
    assert offset == a * pageSize && bytes == b * pageSize;
    assert (a + b) * pageSize <= (extents + 1) * pageSize;
    Ordered(a + b, extents + 1, pageSize);
  }

  lemma Ordered(x: nat, y: nat, k: nat)
    requires k > 0 && x * k <= y * k
    ensures x <= y
  {
    assert (x - y) * k <= 0;
  }

  lemma CountsMidInsert(u: seq<bool>, a: seq<nat>, q: seq<Request>, r: seq<Request>, c: Request)
    requires CountsIo(u, a, (q + r) + [c])
    ensures CountsIo(u, a, (q + [c]) + r)
  {
    var live, live' := (q + r) + [c], (q + [c]) + r;
    forall k | 0 <= k < |u| ensures a[k] == Cover(live', k) {
      CoverSplits(q + r, [c], k);
      CoverSplits(q, r, k);
      CoverSplits(q + [c], r, k);
      CoverSplits(q, [c], k);
    }
    forall i | 0 <= i < |live'| ensures InUse(u, live'[i]) {
      assert live'[i] == live[if i < |q| then i else if i == |q| then |live| - 1 else i - 1];
    }
  }

  lemma OpsMidInsert(q: seq<Request>, r: seq<Request>, settling: seq<nat>, pending: set<nat>, status: map<nat, Status>,
                     next: nat, c: Request)
    requires OpsOk((q + r) + [c], settling, pending, status, next)
    ensures OpsOk((q + [c]) + r, settling, pending, status, next)
  {
    var live, live' := (q + r) + [c], (q + [c]) + r;
    assert forall i :: 0 <= i < |live'| ==> live'[i] == live[if i < |q| then i else if i == |q| then |live| - 1 else i - 1];
    forall o | o in pending ensures exists i :: 0 <= i < |live'| && live'[i].op == o {
      var i :| 0 <= i < |live| && live[i].op == o;
      assert live'[if i < |q| then i else if i == |live| - 1 then |q| else i + 1].op == o;
    }
  }

  lemma NothingPending(live: seq<Request>, settling: seq<nat>, pending: set<nat>, status: map<nat, Status>, next: nat)
    requires OpsOk(live, settling, pending, status, next) && live == [] && settling == []
    ensures pending == {} && forall o :: o in status ==> !status[o].Pending?
  {}

  lemma EveryExtentFree(n: nat)
    ensures |AllFree(n)| == n && ListsFree(AllFree(n), Ascending(n))
    ensures CountsIo(AllFree(n), AllQuiet(n), [])
  {
    forall k | 0 <= k < n ensures k in Ascending(n) {
      assert Ascending(n)[k] == k;
    }
  }

  lemma WholeStore(capacity: nat, size: nat)
    requires size > 0 && capacity % size == 0
    ensures capacity + size == (capacity / size + 1) * size
  {}

  lemma OffsetOf(first: nat, size: nat)
    requires size > 0
    ensures (first + 1) * size >= size && (first + 1) * size % size == 0 && (first + 1) * size / size == first + 1
  {
    MulMonotone(1, first + 1, size);
    Division(first + 1, size);
  }

  lemma Division(x: nat, size: nat)
    requires size > 0
    ensures x * size % size == 0 && x * size / size == x
  {
    var q, r := x * size / size, x * size % size;
    assert x * size == q * size + r;
    assert (x - q) * size == r;
    if x > q { MulMonotone(1, x - q, size); }
    if x < q { MulMonotone(x - q, -1, size); }
  }
}
