/** The queue sections of src/runtime.cpp as methods that update `queue_`,
    `pending_prefetches_` and the flags in place. Each is proved to be the step
    of TransferQueue it stands for, or to leave everything alone. */
module TransferEngine {
  import opened Pages
  import opened TransferQueue

  class Engine {
    const depth: nat
    const prefetchDepth: nat
    var running: bool
    var stopping: bool
    var queue: seq<Request>
    var pending: set<PageId>
    var taken: multiset<Request>
    var cancelled: multiset<Request>
    var workers: nat
    var fates: map<nat, Fate>
    var next: nat

    ghost function Now(): Queue reads this {
      Queue(depth, prefetchDepth, running, stopping, queue, pending, taken, cancelled, workers, fates, next)
    }

    constructor (depth: nat, prefetchDepth: nat)
      ensures Init(Now()) && Inv(Now()) && this.depth == depth && this.prefetchDepth == prefetchDepth
    {
      this.depth, this.prefetchDepth := depth, prefetchDepth;
      running, stopping, queue, pending, taken, cancelled := false, true, [], {}, multiset{}, multiset{};
      workers, fates, next := 0, map[], 0;
      new;
      InitInv(Now());
    }

    /** `submit_demand` at the moment its wait ends: refused once stopped, and
        otherwise queued with a promise to wait on. */
    method SubmitDemand(page: PageId, target: Tier) returns (r: Outcome<nat>)
      requires Inv(Now()) && (stopping || !running || |queue| < depth)
      modifies this
      ensures Inv(Now())
      ensures r.Ok? <==> old(running) && !old(stopping)
      ensures r.Ok? ==> old(Enabled(Now(), TransferQueue.SubmitDemand(page, target)))
      ensures r.Ok? ==> queue == old(queue) + [Demand(page, target, r.value)] && r.value !in old(fates)
      ensures r.Ok? ==> r.value == old(next) && Now() == Apply(old(Now()), TransferQueue.SubmitDemand(page, target))
      ensures r.Err? ==> r.code == Cancelled && Now() == old(Now())
    {
      hide Inv;
      if stopping || !running { return Err(Cancelled); }
      StepKeepsInv(Now(), TransferQueue.SubmitDemand(page, target));
      NextIsNew(Now());
      queue := queue + [Demand(page, target, next)];
      fates := fates[next := Waiting];
      next := next + 1;
      return Ok(next - 1);
    }

    /** `submit_prefetch`: a duplicate and a full queue are both dropped. */
    method SubmitPrefetch(page: PageId, target: Tier) returns (r: Outcome<bool>)
      requires Inv(Now())
      modifies this
      ensures Inv(Now())
      ensures r.Ok? <==> old(running) && !old(stopping)
      ensures r.Ok? ==> Now() == Apply(old(Now()), TransferQueue.SubmitPrefetch(page, target))
      ensures r.Ok? ==> (r.value <==> page !in old(pending) && |old(queue)| < depth + prefetchDepth)
      ensures r.Ok? ==> queue == if r.value then old(queue) + [Prefetch(page, target)] else old(queue)
      ensures r.Err? ==> r.code == Cancelled && Now() == old(Now())
    {
      hide Inv;
      if stopping || !running { return Err(Cancelled); }
      StepKeepsInv(Now(), TransferQueue.SubmitPrefetch(page, target));
      var duplicate := page in pending;
      if !duplicate && |queue| < depth + prefetchDepth {
        pending := pending + {page};
        queue := queue + [Prefetch(page, target)];
        return Ok(true);
      }
      return Ok(false);
    }

    /** `remove_queued_prefetch`. */
    method RemovePrefetch(page: PageId)
      requires Inv(Now())
      modifies this
      ensures Inv(Now()) && Now() == Apply(old(Now()), DropPrefetch(page))
    {
      hide Inv;
      StepKeepsInv(Now(), DropPrefetch(page));
      var rest, removed := RemoveQueuedPrefetch(queue, page);
      queue := rest;
      if removed { pending := pending - {page}; }
    }

    /** `worker_loop` pops the front. */
    method TakeFront() returns (r: Request)
      requires Inv(Now()) && Enabled(Now(), Take)
      modifies this
      ensures Inv(Now()) && Now() == Apply(old(Now()), Take) && r == old(queue)[0]
    {
      hide Inv;
      StepKeepsInv(Now(), Take);
      r := queue[0];
      queue, taken := queue[1..], taken + multiset{r};
    }

    /** `worker_loop` ends a demand: its promise is settled, which it cannot
        have been before. */
    method EndDemand(r: Request, ok: bool)
      requires Inv(Now()) && Enabled(Now(), FinishDemand(r, ok))
      modifies this
      ensures Inv(Now()) && Now() == Apply(old(Now()), FinishDemand(r, ok))
      ensures r.promise in old(fates) && old(fates)[r.promise] == Waiting
      ensures fates == old(fates)[r.promise := if ok then Fulfilled else Rejected]
    {
      hide Inv, Outstanding;
      FinishKeepsInv(Now(), FinishDemand(r, ok));
      assert fates[r.promise].Waiting?;
      taken, fates := taken - multiset{r}, fates[r.promise := if ok then Fulfilled else Rejected];
    }

    /** `worker_loop` ends a prefetch: its mark is erased. */
    method EndPrefetch(r: Request)
      requires Inv(Now()) && Enabled(Now(), FinishPrefetch(r))
      modifies this
      ensures Inv(Now()) && Now() == Apply(old(Now()), FinishPrefetch(r))
    {
      hide Inv, Outstanding;
      FinishKeepsInv(Now(), FinishPrefetch(r));
      taken, pending := taken - multiset{r}, pending - {r.page};
    }

    /** The first section of `shutdown`. */
    method StopAdmission()
      requires Inv(Now())
      modifies this
      ensures Inv(Now()) && Now() == Apply(old(Now()), Stop)
    {
      hide Inv;
      StepKeepsInv(Now(), Stop);
      running, stopping, cancelled, queue, pending := false, true, cancelled + multiset(queue), [], {};
    }

    /** The cancelling loop of `shutdown`: every demand that was swapped out is
        rejected, none of them for the second time. */
    method RejectCancelled()
      requires Inv(Now())
      modifies `cancelled, `fates
      ensures Inv(Now()) && cancelled == multiset{}
      ensures Final(old(fates), fates)
      ensures forall r :: r in old(cancelled) && r.Demand? ==> r.promise in fates && fates[r.promise] == Rejected
    {
      hide Inv, Outstanding;
      while cancelled != multiset{}
        invariant Inv(Now()) && Final(old(fates), fates)
        invariant forall r :: r in old(cancelled) ==>
          r in cancelled || (r.Demand? ==> r.promise in fates && fates[r.promise] == Rejected)
        decreases |cancelled|
      {
        var r :| r in cancelled;
        FinishKeepsInv(Now(), Reject(r));
        StepSettlesOnce(Now(), Reject(r));
        cancelled := cancelled - multiset{r};
        if r.Demand? { fates := fates[r.promise := Rejected]; }
      }
    }
  }
}
