/** The transfer engine's queue (src/runtime.cpp, `submit_demand`,
    `submit_prefetch`, `remove_queued_prefetch`, `worker_loop`, `shutdown`): a
    bounded queue shared by demands, each with a promise somebody waits on, and
    prefetches, at most one per page. A step is one hold of the queue lock, or
    the settling of one promise. */
module TransferQueue {
  import opened Pages

  datatype Request =
    | Demand(page: PageId, target: Tier, promise: nat)
    | Prefetch(page: PageId, target: Tier)

  datatype Fate = Waiting | Fulfilled | Rejected

  /** `taken` are the requests workers have popped and not finished with, and
      `cancelled` those that shutdown has swapped out and not yet rejected. */
  datatype Queue = Queue(
    depth: nat, prefetchDepth: nat,
    running: bool, stopping: bool,
    queue: seq<Request>, pending: set<PageId>,
    taken: multiset<Request>, cancelled: multiset<Request>, workers: nat,
    fates: map<nat, Fate>, next: nat)

  predicate Init(s: Queue) {
    && !s.running && s.stopping && s.queue == [] && s.pending == {} && s.taken == multiset{}
    && s.cancelled == multiset{} && s.workers == 0 && s.fates == map[] && s.next == 0
  }

  /** `start` prepares, spawns its workers and only then admits work; it holds
      the control lock, so an earlier shutdown has rejected what it cancelled.
      A start that fails stops. */
  datatype Step =
    | Prepare
    | Spawn
    | Admit
    | SubmitDemand(page: PageId, target: Tier)
    | SubmitPrefetch(page: PageId, target: Tier)
    | DropPrefetch(page: PageId)
    | Take
    | FinishDemand(r: Request, ok: bool)
    | FinishPrefetch(r: Request)
    | Stop
    | Reject(r: Request)
    | Exit

  // ------------------------------------------------------------------- steps

  /** The loop of `remove_queued_prefetch`. */
  function WithoutPrefetch(q: seq<Request>, page: PageId): (r: seq<Request>)
    ensures |r| <= |q|
  {
    if |q| == 0 then []
    else
      var rest := WithoutPrefetch(q[..|q| - 1], page);
      if q[|q| - 1].Prefetch? && q[|q| - 1].page == page then rest else rest + [q[|q| - 1]]
  }

  predicate HasPrefetch(q: seq<Request>, page: PageId) {
    exists i :: 0 <= i < |q| && q[i].Prefetch? && q[i].page == page
  }

  predicate Enabled(s: Queue, step: Step) {
    match step
    case Prepare => !s.running && s.stopping && s.workers == 0 && s.cancelled == multiset{}
    case Spawn => !s.running && !s.stopping
    case Admit => !s.running && !s.stopping
    case SubmitDemand(_, _) => s.running && !s.stopping && |s.queue| < s.depth
    case SubmitPrefetch(_, _) => s.running && !s.stopping
    case DropPrefetch(_) => true
    case Take => |s.taken| < s.workers && |s.queue| > 0
    case FinishDemand(r, _) => r.Demand? && r in s.taken
    case FinishPrefetch(r) => r.Prefetch? && r in s.taken
    case Stop => true
    case Reject(r) => r in s.cancelled
    case Exit => s.stopping && s.queue == [] && |s.taken| < s.workers
  }

  function Settle(fates: map<nat, Fate>, r: Request, f: Fate): map<nat, Fate> {
    if r.Demand? then fates[r.promise := f] else fates
  }

  function Apply(s: Queue, step: Step): Queue
    requires Enabled(s, step)
  {
    match step
    case Prepare => s.(stopping := false, pending := {})
    case Spawn => s.(workers := s.workers + 1)
    case Admit => s.(running := true)
    case SubmitDemand(page, target) =>
      s.(queue := s.queue + [Demand(page, target, s.next)], fates := s.fates[s.next := Waiting], next := s.next + 1)
    case SubmitPrefetch(page, target) =>
      var queued := page !in s.pending && |s.queue| < s.depth + s.prefetchDepth;
      s.(queue := if queued then s.queue + [Prefetch(page, target)] else s.queue,
         pending := if queued then s.pending + {page} else s.pending)
    case DropPrefetch(page) =>
      s.(queue := WithoutPrefetch(s.queue, page),
         pending := if HasPrefetch(s.queue, page) then s.pending - {page} else s.pending)
    case Take => s.(queue := s.queue[1..], taken := s.taken + multiset{s.queue[0]})
    case FinishDemand(r, ok) =>
      s.(taken := s.taken - multiset{r}, fates := Settle(s.fates, r, if ok then Fulfilled else Rejected))
    case FinishPrefetch(r) => s.(taken := s.taken - multiset{r}, pending := s.pending - {r.page})
    case Stop =>
      s.(running := false, stopping := true, queue := [], cancelled := s.cancelled + multiset(s.queue), pending := {})
    case Reject(r) => s.(cancelled := s.cancelled - multiset{r}, fates := Settle(s.fates, r, Rejected))
    case Exit => s.(workers := s.workers - 1)
  }

  // --------------------------------------------------------------- invariant

  /** Every request somebody still has in hand. */
  function Outstanding(s: Queue): multiset<Request> {
    InHand(s.queue, s.taken, s.cancelled)
  }

  function InHand(q: seq<Request>, taken: multiset<Request>, cancelled: multiset<Request>): multiset<Request> {
    multiset(q) + taken + cancelled
  }

  /** Two requests that must not both be outstanding. */
  predicate Clash(a: Request, b: Request) {
    || (a.Demand? && b.Demand? && a.promise == b.promise)
    || (a.Prefetch? && b.Prefetch? && a.page == b.page)
  }

  ghost predicate Single(m: multiset<Request>) {
    (forall r :: m[r] <= 1) && forall a, b :: a in m && b in m && Clash(a, b) ==> a == b
  }

  /** A promise is waiting exactly while its demand is outstanding. */
  ghost predicate Promised(m: multiset<Request>, fates: map<nat, Fate>, next: nat) {
    && (forall p: nat :: p in fates <==> p < next)
    && (forall r :: r in m && r.Demand? ==> r.promise in fates && fates[r.promise].Waiting?)
    && (forall p :: p in fates && fates[p].Waiting? ==> exists r :: r in m && r.Demand? && r.promise == p)
  }

  /** The pages with a prefetch outstanding. */
  ghost predicate Marked(m: multiset<Request>, pending: set<PageId>) {
    && (forall r :: r in m && r.Prefetch? ==> r.page in pending)
    && (forall p :: p in pending ==> exists r :: r in m && r.Prefetch? && r.page == p)
  }

  function Demands(q: seq<Request>): (n: nat)
    ensures n <= |q|
  {
    if |q| == 0 then 0 else Demands(q[..|q| - 1]) + if q[|q| - 1].Demand? then 1 else 0
  }

  ghost predicate Inv(s: Queue) {
    && Single(Outstanding(s)) && Promised(Outstanding(s), s.fates, s.next)
    && |s.taken| <= s.workers
    && |s.queue| <= s.depth + s.prefetchDepth && Demands(s.queue) <= s.depth
    && (!s.stopping ==> Marked(Outstanding(s), s.pending) && s.cancelled == multiset{})
    && (s.stopping ==> s.queue == [] && s.pending == {} && !s.running)
    && (!s.running ==> s.queue == [])
  }

  lemma InitInv(s: Queue)
    requires Init(s)
    ensures Inv(s)
  {}

  // ------------------------------------------- adding and removing a request

  lemma AddOne(m: multiset<Request>, r: Request)
    requires Single(m) && forall a :: a in m ==> !Clash(a, r)
    ensures Single(m + multiset{r})
  {
    assert Clash(r, r);
    assert r !in m;
  }

  lemma PromiseAdded(m: multiset<Request>, fates: map<nat, Fate>, next: nat, r: Request)
    requires Promised(m, fates, next)
    ensures r == Demand(r.page, r.target, next) ==> Promised(m + multiset{r}, fates[next := Waiting], next + 1)
    ensures r.Prefetch? ==> Promised(m + multiset{r}, fates, next)
  {
    var m' := m + multiset{r};
    assert r in m';
    forall p | p in fates && fates[p].Waiting? ensures exists a :: a in m' && a.Demand? && a.promise == p {
      var a :| a in m && a.Demand? && a.promise == p;
      assert a in m';
    }
  }

  lemma PromiseSettled(m: multiset<Request>, fates: map<nat, Fate>, next: nat, r: Request, f: Fate)
    requires Single(m) && Promised(m, fates, next) && r in m && !f.Waiting?
    ensures Single(m - multiset{r}) && Promised(m - multiset{r}, Settle(fates, r, f), next)
    ensures r.Demand? ==> r.promise in fates && fates[r.promise].Waiting?
  {
    var m' := m - multiset{r};
    assert forall a :: a in m' ==> a in m && a != r;
    assert forall a :: a in m && a != r ==> a in m';
    var fates' := Settle(fates, r, f);
    forall p | p in fates' && fates'[p].Waiting? ensures exists a :: a in m' && a.Demand? && a.promise == p {
      var a :| a in m && a.Demand? && a.promise == p;
      assert a in m';
    }
    forall a | a in m' && a.Demand? ensures a.promise in fates' && fates'[a.promise].Waiting? {
      assert r.Demand? && a.promise == r.promise ==> Clash(a, r);
    }
  }

  lemma MarkAdded(m: multiset<Request>, pending: set<PageId>, r: Request)
    requires Marked(m, pending)
    ensures Marked(m + multiset{r}, if r.Prefetch? then pending + {r.page} else pending)
  {
    var m' := m + multiset{r};
    assert r in m';
    forall p | p in pending ensures exists a :: a in m' && a.Prefetch? && a.page == p {
      var a :| a in m && a.Prefetch? && a.page == p;
      assert a in m';
    }
  }

  lemma MarkRemoved(m: multiset<Request>, pending: set<PageId>, r: Request)
    requires Single(m) && Marked(m, pending) && r in m
    ensures Marked(m - multiset{r}, if r.Prefetch? then pending - {r.page} else pending)
  {
    var m' := m - multiset{r};
    var pending' := if r.Prefetch? then pending - {r.page} else pending;
    assert forall a :: a in m' ==> a in m && a != r;
    forall p | p in pending' ensures exists a :: a in m' && a.Prefetch? && a.page == p {
      var a :| a in m && a.Prefetch? && a.page == p;
      assert a != r;
      assert a in m';
    }
    forall a | a in m' && a.Prefetch? ensures a.page in pending' {
      assert r.Prefetch? && a.page == r.page ==> Clash(a, r);
    }
  }

  lemma NewPromise(m: multiset<Request>, fates: map<nat, Fate>, next: nat, page: PageId, target: Tier)
    requires Single(m) && Promised(m, fates, next)
    ensures Single(m + multiset{Demand(page, target, next)})
  {
    forall a | a in m ensures !Clash(a, Demand(page, target, next)) {}
    AddOne(m, Demand(page, target, next));
  }

  lemma NewPrefetch(m: multiset<Request>, pending: set<PageId>, page: PageId, target: Tier)
    requires Single(m) && Marked(m, pending) && page !in pending
    ensures Single(m + multiset{Prefetch(page, target)})
  {
    forall a | a in m ensures !Clash(a, Prefetch(page, target)) {}
    AddOne(m, Prefetch(page, target));
  }

  // ------------------------------------------------------------ changing hands

  lemma AtBack(q: seq<Request>, t: multiset<Request>, c: multiset<Request>, r: Request)
    ensures InHand(q + [r], t, c) == InHand(q, t, c) + multiset{r}
    ensures Demands(q + [r]) == Demands(q) + if r.Demand? then 1 else 0
  {
    assert (q + [r])[..|q|] == q;
  }

  lemma {:induction false} DemandsBehind(q: seq<Request>)
    requires |q| > 0
    ensures Demands(q[1..]) <= Demands(q)
    decreases |q|
  {
    if |q| > 1 {
      var p := q[..|q| - 1];
      DemandsBehind(p);
      assert q[1..][..|q| - 2] == p[1..];
    }
  }

  lemma FromFront(q: seq<Request>, t: multiset<Request>, c: multiset<Request>)
    requires |q| > 0
    ensures InHand(q[1..], t + multiset{q[0]}, c) == InHand(q, t, c) && Demands(q[1..]) <= Demands(q)
  {
    assert q == [q[0]] + q[1..];
    DemandsBehind(q);
  }

  lemma Swapped(q: seq<Request>, t: multiset<Request>, c: multiset<Request>)
    ensures InHand([], t, c + multiset(q)) == InHand(q, t, c)
  {}

  lemma LetGo(q: seq<Request>, t: multiset<Request>, c: multiset<Request>, r: Request)
    ensures |t - multiset{r}| <= |t|
    ensures r in t ==> r in InHand(q, t, c) && InHand(q, t - multiset{r}, c) == InHand(q, t, c) - multiset{r}
    ensures r in c ==> r in InHand(q, t, c) && InHand(q, t, c - multiset{r}) == InHand(q, t, c) - multiset{r}
  {}

  // ---------------------------------------------------------------- the steps

  lemma SubmitDemandKeepsInv(s: Queue, page: PageId, target: Tier)
    requires Inv(s) && Enabled(s, SubmitDemand(page, target))
    ensures Inv(Apply(s, SubmitDemand(page, target)))
  {
    hide Single, Promised, Marked, Demands, InHand;
    var r, m := Demand(page, target, s.next), Outstanding(s);
    AtBack(s.queue, s.taken, s.cancelled, r);
    NewPromise(m, s.fates, s.next, page, target);
    PromiseAdded(m, s.fates, s.next, r);
    MarkAdded(m, s.pending, r);
  }

  lemma SubmitPrefetchKeepsInv(s: Queue, page: PageId, target: Tier)
    requires Inv(s) && Enabled(s, SubmitPrefetch(page, target))
    ensures Inv(Apply(s, SubmitPrefetch(page, target)))
  {
    hide Single, Promised, Marked, Demands, InHand;
    if page !in s.pending && |s.queue| < s.depth + s.prefetchDepth {
      var r, m := Prefetch(page, target), Outstanding(s);
      AtBack(s.queue, s.taken, s.cancelled, r);
      NewPrefetch(m, s.pending, page, target);
      PromiseAdded(m, s.fates, s.next, r);
      MarkAdded(m, s.pending, r);
    }
  }

  lemma NobodyMarked()
    ensures Marked(multiset{}, {}) && InHand([], multiset{}, multiset{}) == multiset{}
  {}

  /** Requests change hands, none appears or disappears. */
  lemma MovesKeepInv(s: Queue, step: Step)
    requires Inv(s) && Enabled(s, step)
    requires step.Prepare? || step.Spawn? || step.Admit? || step.Take? || step.Stop? || step.Exit?
    ensures Inv(Apply(s, step)) && Outstanding(Apply(s, step)) == Outstanding(s)
  {
    hide Single, Promised, Marked, InHand;
    if step.Take? { FromFront(s.queue, s.taken, s.cancelled); }
    if step.Stop? { Swapped(s.queue, s.taken, s.cancelled); }
    if step.Prepare? {
      assert s.taken == multiset{};
      NobodyMarked();
    }
  }

  lemma FinishKeepsInv(s: Queue, step: Step)
    requires Inv(s) && Enabled(s, step)
    requires step.FinishDemand? || step.FinishPrefetch? || step.Reject?
    ensures Inv(Apply(s, step)) && Outstanding(Apply(s, step)) == Outstanding(s) - multiset{step.r}
    ensures step.r.Demand? ==> step.r.promise in s.fates && s.fates[step.r.promise].Waiting?
  {
    hide Single, Promised, Marked, Demands, InHand;
    match step
    case FinishDemand(r, ok) => DemandKeepsInv(s, r, ok);
    case FinishPrefetch(r) => PrefetchKeepsInv(s, r);
    case Reject(r) => RejectKeepsInv(s, r);
  }

  lemma DemandKeepsInv(s: Queue, r: Request, ok: bool)
    requires r.Demand? && Inv(s) && Enabled(s, FinishDemand(r, ok))
    ensures Inv(Apply(s, FinishDemand(r, ok)))
    ensures Outstanding(Apply(s, FinishDemand(r, ok))) == Outstanding(s) - multiset{r}
    ensures r.promise in s.fates && s.fates[r.promise].Waiting?
  {
    hide Single, Promised, Marked, Demands, InHand;
    LetGo(s.queue, s.taken, s.cancelled, r);
    PromiseSettled(Outstanding(s), s.fates, s.next, r, if ok then Fulfilled else Rejected);
    if !s.stopping { MarkRemoved(Outstanding(s), s.pending, r); }
  }

  lemma PrefetchKeepsInv(s: Queue, r: Request)
    requires Inv(s) && Enabled(s, FinishPrefetch(r))
    ensures Inv(Apply(s, FinishPrefetch(r)))
    ensures Outstanding(Apply(s, FinishPrefetch(r))) == Outstanding(s) - multiset{r}
  {
    hide Single, Promised, Marked, Demands, InHand;
    LetGo(s.queue, s.taken, s.cancelled, r);
    PromiseSettled(Outstanding(s), s.fates, s.next, r, Rejected);
    if !s.stopping { MarkRemoved(Outstanding(s), s.pending, r); }
  }

  lemma RejectKeepsInv(s: Queue, r: Request)
    requires Inv(s) && Enabled(s, Reject(r))
    ensures Inv(Apply(s, Reject(r))) && Outstanding(Apply(s, Reject(r))) == Outstanding(s) - multiset{r}
    ensures r.Demand? ==> r.promise in s.fates && s.fates[r.promise].Waiting?
  {
    hide Single, Promised, Marked, Demands, InHand;
    LetGo(s.queue, s.taken, s.cancelled, r);
    PromiseSettled(Outstanding(s), s.fates, s.next, r, Rejected);
    if !s.stopping { MarkRemoved(Outstanding(s), s.pending, r); }
  }

  lemma {:induction false} Filtered(q: seq<Request>, page: PageId)
    ensures forall r :: multiset(WithoutPrefetch(q, page))[r]
              == if r.Prefetch? && r.page == page then 0 else multiset(q)[r]
    ensures HasPrefetch(q, page) <==> exists r :: r in multiset(q) && r.Prefetch? && r.page == page
    ensures Demands(WithoutPrefetch(q, page)) <= Demands(q)
    decreases |q|
  {
    if |q| > 0 {
      var n := |q| - 1;
      assert q == q[..n] + [q[n]];
      Filtered(q[..n], page);
      var rest := WithoutPrefetch(q[..n], page);
      assert (rest + [q[n]])[..|rest|] == rest;
      if HasPrefetch(q, page) {
        var i :| 0 <= i < |q| && q[i].Prefetch? && q[i].page == page;
        assert q[i] in multiset(q);
      }
    }
  }

  /** The queue holds one prefetch of a page at most, so filtering removes one. */
  lemma OnlyOne(q: seq<Request>, t: multiset<Request>, c: multiset<Request>, r: Request)
    requires Single(InHand(q, t, c)) && r in multiset(q) && r.Prefetch?
    ensures r in InHand(q, t, c)
    ensures InHand(WithoutPrefetch(q, r.page), t, c) == InHand(q, t, c) - multiset{r}
  {
    Filtered(q, r.page);
    var m := InHand(q, t, c);
    forall a ensures multiset(WithoutPrefetch(q, r.page))[a] == (multiset(q) - multiset{r})[a] {
      if a in multiset(q) && a.Prefetch? && a.page == r.page {
        assert a in m && r in m && Clash(a, r);
      }
      assert m[r] <= 1 && m[a] <= 1;
    }
    assert multiset(WithoutPrefetch(q, r.page)) == multiset(q) - multiset{r};
  }

  lemma {:induction false} NothingFiltered(q: seq<Request>, page: PageId)
    requires !HasPrefetch(q, page)
    ensures WithoutPrefetch(q, page) == q
    decreases |q|
  {
    if |q| > 0 {
      NothingFiltered(q[..|q| - 1], page);
      assert q == q[..|q| - 1] + [q[|q| - 1]];
    }
  }

  lemma Dropped(q: seq<Request>, page: PageId) returns (r: Request)
    requires HasPrefetch(q, page)
    ensures r in multiset(q) && r.Prefetch? && r.page == page
    ensures Demands(WithoutPrefetch(q, page)) <= Demands(q)
  {
    Filtered(q, page);
    r :| r in multiset(q) && r.Prefetch? && r.page == page;
  }

  lemma DropKeepsInv(s: Queue, page: PageId)
    requires Inv(s)
    ensures Inv(Apply(s, DropPrefetch(page)))
  {
    hide Single, Promised, Marked, Demands, HasPrefetch, WithoutPrefetch, InHand;
    if HasPrefetch(s.queue, page) {
      var r := Dropped(s.queue, page);
      OnlyOne(s.queue, s.taken, s.cancelled, r);
      PromiseSettled(Outstanding(s), s.fates, s.next, r, Rejected);
      MarkRemoved(Outstanding(s), s.pending, r);
    } else {
      NothingFiltered(s.queue, page);
    }
  }

  lemma StepKeepsInv(s: Queue, step: Step)
    requires Inv(s) && Enabled(s, step)
    ensures Inv(Apply(s, step))
  {
    hide Inv, Apply;
    match step {
      case SubmitDemand(page, target) => SubmitDemandKeepsInv(s, page, target);
      case SubmitPrefetch(page, target) => SubmitPrefetchKeepsInv(s, page, target);
      case DropPrefetch(page) => DropKeepsInv(s, page);
      case FinishDemand(_, _) => FinishKeepsInv(s, step);
      case FinishPrefetch(_) => FinishKeepsInv(s, step);
      case Reject(_) => FinishKeepsInv(s, step);
      case _ => MovesKeepInv(s, step);
    }
  }

  /** `remove_queued_prefetch`: the erasing loop over the queue. */
  method RemoveQueuedPrefetch(queue: seq<Request>, page: PageId) returns (rest: seq<Request>, removed: bool)
    ensures rest == WithoutPrefetch(queue, page) && removed == HasPrefetch(queue, page)
  {
    rest, removed := queue, false;
    var i, seen := 0, 0;
    assert queue[..0] == [];
    while i < |rest|
      invariant i <= |rest| && seen <= |queue| && |rest| - i == |queue| - seen
      invariant rest[..i] == WithoutPrefetch(queue[..seen], page) && rest[i..] == queue[seen..]
      invariant removed == HasPrefetch(queue[..seen], page)
      decreases |queue| - seen
    {
      assert rest[i] == queue[seen];
      assert queue[..seen + 1][..seen] == queue[..seen];
      StillThere(queue, page, seen);
      if rest[i].Prefetch? && rest[i].page == page {
        assert rest[..i] + rest[i + 1..] == rest[..i] + queue[seen + 1..];
        rest, removed := rest[..i] + rest[i + 1..], true;
      } else {
        assert rest[..i + 1] == rest[..i] + [queue[seen]];
        i := i + 1;
      }
      seen := seen + 1;
    }
    assert rest[..i] == rest && queue[..seen] == queue;
  }

  lemma StillThere(q: seq<Request>, page: PageId, n: nat)
    requires n < |q|
    ensures HasPrefetch(q[..n + 1], page) <==> HasPrefetch(q[..n], page) || (q[n].Prefetch? && q[n].page == page)
  {
    assert forall i :: 0 <= i < n ==> q[..n + 1][i] == q[..n][i];
    if HasPrefetch(q[..n], page) {
      var i :| 0 <= i < n && q[..n][i].Prefetch? && q[..n][i].page == page;
      assert q[..n + 1][i].Prefetch?;
    }
    if q[n].Prefetch? && q[n].page == page { assert q[..n + 1][n] == q[n]; }
  }

  // --------------------------------------------------------------------- runs

  predicate Run(s: Queue, steps: seq<Step>)
    decreases |steps|
  {
    |steps| == 0 || (Enabled(s, steps[0]) && Run(Apply(s, steps[0]), steps[1..]))
  }

  function End(s: Queue, steps: seq<Step>): Queue
    requires Run(s, steps)
    decreases |steps|
  {
    if |steps| == 0 then s else End(Apply(s, steps[0]), steps[1..])
  }

  /** A promise once settled keeps its fate, and none is forgotten. */
  ghost predicate Final(a: map<nat, Fate>, b: map<nat, Fate>) {
    forall p :: p in a ==> p in b && (a[p].Waiting? || b[p] == a[p])
  }

  /** No step settles a promise that is already settled, which would throw. */
  lemma StepSettlesOnce(s: Queue, step: Step)
    requires Inv(s) && Enabled(s, step)
    ensures Final(s.fates, Apply(s, step).fates)
  {
    hide Inv, Outstanding, WithoutPrefetch, HasPrefetch, Settle;
    if step.FinishDemand? || step.FinishPrefetch? || step.Reject? {
      FinishKeepsInv(s, step);
      SettledOnce(s.fates, step.r);
    }
    NextIsNew(s);
  }

  lemma SettledOnce(fates: map<nat, Fate>, r: Request)
    requires r.Demand? ==> r.promise in fates && fates[r.promise].Waiting?
    ensures Final(fates, Settle(fates, r, Fulfilled)) && Final(fates, Settle(fates, r, Rejected))
  {}

  lemma NextIsNew(s: Queue)
    requires Inv(s)
    ensures s.next !in s.fates
  {
    hide Single, Marked;
  }

  /** In every run the queue stays bounded, every promise waits exactly while
      its demand is in somebody's hands, and settles once. */
  lemma {:induction false} RunKeepsInv(s: Queue, steps: seq<Step>)
    requires Inv(s) && Run(s, steps)
    ensures Inv(End(s, steps)) && Final(s.fates, End(s, steps).fates)
    decreases |steps|
  {
    hide Inv, Apply, Enabled;
    if |steps| > 0 {
      StepKeepsInv(s, steps[0]);
      StepSettlesOnce(s, steps[0]);
      RunKeepsInv(Apply(s, steps[0]), steps[1..]);
    }
  }

  // -------------------------------------------------- how promises are settled

  /** The step that makes good on promise `p`, or breaks it. */
  predicate Fulfils(step: Step, p: nat) {
    step.FinishDemand? && step.r.Demand? && step.r.promise == p && step.ok
  }

  predicate Breaks(step: Step, p: nat) {
    || (step.FinishDemand? && step.r.Demand? && step.r.promise == p && !step.ok)
    || (step.Reject? && step.r.Demand? && step.r.promise == p)
  }

  predicate HasFate(s: Queue, p: nat, f: Fate) {
    p in s.fates && s.fates[p] == f
  }

  lemma StepSettlesAsItSays(s: Queue, step: Step, p: nat)
    requires Inv(s) && Enabled(s, step)
    ensures var s' := Apply(s, step);
      && (HasFate(s', p, Fulfilled) <==> HasFate(s, p, Fulfilled) || Fulfils(step, p))
      && (HasFate(s', p, Rejected) <==> HasFate(s, p, Rejected) || Breaks(step, p))
  {
    hide Inv, Outstanding, WithoutPrefetch, HasPrefetch;
    if step.FinishDemand? || step.FinishPrefetch? || step.Reject? { FinishKeepsInv(s, step); }
    NextIsNew(s);
  }

  lemma {:induction false} RunSettlesAsItSays(s: Queue, steps: seq<Step>, p: nat)
    requires Inv(s) && Run(s, steps)
    ensures var t := End(s, steps);
      && (HasFate(t, p, Fulfilled) <==>
            HasFate(s, p, Fulfilled) || exists i :: 0 <= i < |steps| && Fulfils(steps[i], p))
      && (HasFate(t, p, Rejected) <==>
            HasFate(s, p, Rejected) || exists i :: 0 <= i < |steps| && Breaks(steps[i], p))
    decreases |steps|
  {
    hide Inv, Apply, Enabled, Fulfils, Breaks, HasFate;
    if |steps| > 0 {
      var rest := steps[1..];
      StepKeepsInv(s, steps[0]);
      StepSettlesAsItSays(s, steps[0], p);
      RunSettlesAsItSays(Apply(s, steps[0]), rest, p);
      assert forall i :: 0 <= i < |rest| ==> rest[i] == steps[i + 1];
      assert forall i :: 1 <= i < |steps| ==> steps[i] == rest[i - 1];
    }
  }

  /** A demand is told the truth. Over any run from a start, its promise is
      fulfilled if and only if a worker finished it well, and rejected if and
      only if a worker failed it or shutdown rejected it. */
  lemma PromisesAreTrue(s: Queue, steps: seq<Step>, p: nat)
    requires Init(s) && Run(s, steps)
    ensures HasFate(End(s, steps), p, Fulfilled) <==> exists i :: 0 <= i < |steps| && Fulfils(steps[i], p)
    ensures HasFate(End(s, steps), p, Rejected) <==> exists i :: 0 <= i < |steps| && Breaks(steps[i], p)
  {
    InitInv(s);
    RunSettlesAsItSays(s, steps, p);
  }

  // ------------------------------------------------------------------- in turn

  /** `a` is out of the queue, or stands before every `b`. */
  ghost predicate AheadOf(q: seq<Request>, a: Request, b: Request) {
    forall i, j :: 0 <= i < |q| && 0 <= j < |q| && q[i] == a && q[j] == b ==> i < j
  }

  lemma {:induction false} FilterKeepsOrder(q: seq<Request>, page: PageId, a: Request, b: Request)
    requires AheadOf(q, a, b)
    ensures AheadOf(WithoutPrefetch(q, page), a, b)
    ensures forall r :: r in WithoutPrefetch(q, page) ==> r in q
    decreases |q|
  {
    if |q| > 0 {
      var n := |q| - 1;
      assert q == q[..n] + [q[n]];
      FilterKeepsOrder(q[..n], page, a, b);
      assert forall i :: 0 <= i < n ==> q[..n][i] == q[i];
      assert q[n] == a ==> b !in q[..n] by {
        assert forall j :: 0 <= j < n && q[n] == a ==> q[j] != b;
      }
    }
  }

  /** A demand that was handed a promise. */
  predicate Handed(s: Queue, a: Request) {
    a.Demand? && a.promise < s.next
  }

  lemma StepKeepsOrder(s: Queue, step: Step, a: Request, b: Request)
    requires Enabled(s, step) && Handed(s, a) && a != b && AheadOf(s.queue, a, b)
    ensures Handed(Apply(s, step), a) && AheadOf(Apply(s, step).queue, a, b)
  {
    if step.DropPrefetch? { FilterKeepsOrder(s.queue, step.page, a, b); }
    hide WithoutPrefetch;
  }

  /** No demand is overtaken: whatever stands behind it in the queue is not
      taken while it waits. */
  lemma {:induction false} NoOvertaking(s: Queue, steps: seq<Step>, a: Request, b: Request)
    requires Run(s, steps) && Handed(s, a) && a != b && AheadOf(s.queue, a, b)
    ensures var t := End(s, steps); AheadOf(t.queue, a, b) && (|t.queue| > 0 && t.queue[0] == b ==> a !in t.queue)
    decreases |steps|
  {
    hide Apply, Enabled;
    if |steps| > 0 {
      StepKeepsOrder(s, steps[0], a, b);
      NoOvertaking(Apply(s, steps[0]), steps[1..], a, b);
    }
  }

  /** The queue's bounds, in any state of any run. */
  lemma QueueIsBounded(s: Queue, steps: seq<Step>)
    requires Init(s) && Run(s, steps)
    ensures var t := End(s, steps); Demands(t.queue) <= t.depth && |t.queue| <= t.depth + t.prefetchDepth
  {
    InitInv(s);
    RunKeepsInv(s, steps);
  }

  /** While work is admitted, a page is marked exactly when one prefetch of it,
      and only one, is queued or being worked on. */
  lemma OnePrefetchPerPage(s: Queue, steps: seq<Step>, page: PageId)
    requires Init(s) && Run(s, steps) && !End(s, steps).stopping
    ensures var t := End(s, steps); var m := Outstanding(t);
      && (page in t.pending <==> exists r :: r in m && r.Prefetch? && r.page == page)
      && (forall a, b :: a in m && b in m && a.Prefetch? && b.Prefetch? && a.page == page && b.page == page ==>
            a == b && m[a] == 1)
  {
    InitInv(s);
    RunKeepsInv(s, steps);
    hide InHand, Promised, Run, End;
    var m := Outstanding(End(s, steps));
    forall a, b | a in m && b in m && a.Prefetch? && b.Prefetch? && a.page == page && b.page == page
      ensures a == b && m[a] == 1
    {
      assert Clash(a, b);
    }
  }

  // ----------------------------------------------------------------- shutdown

  /** Shutdown has returned: the workers are joined, the cancelled rejected. */
  predicate Down(s: Queue) {
    s.stopping && s.workers == 0 && s.cancelled == multiset{}
  }

  /** No caller is left waiting on a promise nobody will settle. */
  lemma NobodyLeftWaiting(s: Queue, steps: seq<Step>)
    requires Init(s) && Run(s, steps) && Down(End(s, steps))
    ensures forall p :: p in End(s, steps).fates ==> !End(s, steps).fates[p].Waiting?
  {
    InitInv(s);
    RunKeepsInv(s, steps);
    hide Run, End, Single, Marked;
    var t := End(s, steps);
    assert |t.taken| == 0;
    assert Outstanding(t) == multiset{};
  }

  /** What the engine does by itself. */
  predicate Internal(step: Step) {
    step.Take? || step.FinishDemand? || step.FinishPrefetch? || step.Reject? || step.Exit?
  }

  function Work(s: Queue): nat {
    2 * |s.queue| + |s.taken| + |s.cancelled| + s.workers
  }

  lemma WorkShrinks(s: Queue, step: Step)
    requires Enabled(s, step) && Internal(step)
    ensures Work(Apply(s, step)) == Work(s) - 1
  {}

  /** Once stopping, the engine is never stuck: until shutdown is done there is
      something it can do, and each thing brings the end nearer by one. */
  lemma NeverStuck(s: Queue) returns (step: Step)
    requires Inv(s) && s.stopping && !Down(s)
    ensures Enabled(s, step) && Internal(step) && Apply(s, step).stopping
  {
    hide Single, Promised, Marked, InHand, Demands;
    if s.cancelled != multiset{} {
      var r :| r in s.cancelled;
      step := Reject(r);
    } else if s.taken != multiset{} {
      var r :| r in s.taken;
      step := if r.Demand? then FinishDemand(r, false) else FinishPrefetch(r);
    } else {
      step := Exit;
    }
  }

  /** So shutdown completes, in no more steps than there is work. */
  lemma {:induction false} ShutdownCompletes(s: Queue) returns (steps: seq<Step>)
    requires Inv(s) && s.stopping
    ensures Run(s, steps) && Down(End(s, steps)) && |steps| <= Work(s)
    decreases Work(s)
  {
    hide Inv;
    if Down(s) { return []; }
    var step := NeverStuck(s);
    WorkShrinks(s, step);
    StepKeepsInv(s, step);
    var rest := ShutdownCompletes(Apply(s, step));
    steps := [step] + rest;
    assert steps[1..] == rest;
  }

  /** And no schedule of the engine can put it off. */
  lemma {:induction false} ShutdownIsBounded(s: Queue, steps: seq<Step>)
    requires Run(s, steps) && forall i :: 0 <= i < |steps| ==> Internal(steps[i])
    ensures |steps| + Work(End(s, steps)) == Work(s)
    decreases |steps|
  {
    if |steps| > 0 {
      WorkShrinks(s, steps[0]);
      ShutdownIsBounded(Apply(s, steps[0]), steps[1..]);
    }
  }

  /** A demand for a page whose prefetch is queued joins the queue behind it;
      the prefetch is neither promoted nor removed. */
  lemma PrefetchIsNotUpgraded(s: Queue, page: PageId, target: Tier)
    requires Enabled(s, SubmitDemand(page, target)) && HasPrefetch(s.queue, page)
    ensures var t := Apply(s, SubmitDemand(page, target));
      t.queue == s.queue + [Demand(page, target, s.next)] && t.pending == s.pending && HasPrefetch(t.queue, page)
  {
    var t := Apply(s, SubmitDemand(page, target));
    var i :| 0 <= i < |s.queue| && s.queue[i].Prefetch? && s.queue[i].page == page;
    assert t.queue[i] == s.queue[i];
  }
}
