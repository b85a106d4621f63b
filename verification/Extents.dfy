/** The bookkeeping values of the extent allocator: the used bits, their
    count, the free list and the per-extent count of I/O in progress. */
module ExtentLists {

  // ---------------------------------------------------------------- used bits

  function CountUsed(u: seq<bool>): (n: nat)
    ensures n <= |u|
  {
    if |u| == 0 then 0 else CountUsed(u[..|u| - 1]) + if u[|u| - 1] then 1 else 0
  }

  lemma {:induction false} CountUpdate(u: seq<bool>, k: nat, v: bool)
    requires k < |u|
    ensures CountUsed(u[k := v]) + (if u[k] then 1 else 0) == CountUsed(u) + if v then 1 else 0
    decreases |u|
  {
    var n := |u| - 1;
    if k == n {
      assert u[k := v][..n] == u[..n];
    } else {
      assert u[k := v][..n] == u[..n][k := v];
      CountUpdate(u[..n], k, v);
    }
  }

  function AllFree(n: nat): seq<bool> {
    seq(n, _ => false)
  }

  lemma {:induction false} CountNone(n: nat)
    ensures CountUsed(AllFree(n)) == 0
  {
    if n > 0 {
      assert AllFree(n)[..n - 1] == AllFree(n - 1);
      CountNone(n - 1);
    }
  }

  /** The bits `[first, first + n)` set to `v`. */
  function SetRange(u: seq<bool>, first: nat, n: nat, v: bool): (r: seq<bool>)
    requires first + n <= |u|
    ensures |r| == |u|
    ensures forall k :: 0 <= k < |u| ==> r[k] == if first <= k < first + n then v else u[k]
  {
    if n == 0 then u else SetRange(u, first, n - 1, v)[first + n - 1 := v]
  }

  /** Every bit of the range is `v`. */
  predicate All(u: seq<bool>, first: nat, n: nat, v: bool) {
    first + n <= |u| && forall k :: first <= k < first + n ==> u[k] == v
  }

  lemma {:induction false} CountSetRange(u: seq<bool>, first: nat, n: nat, v: bool)
    requires All(u, first, n, !v)
    ensures CountUsed(SetRange(u, first, n, v)) == if v then CountUsed(u) + n else CountUsed(u) - n
    decreases n
  {
    if n > 0 {
      CountSetRange(u, first, n - 1, v);
      CountUpdate(SetRange(u, first, n - 1, v), first + n - 1, v);
    }
  }

  /** A free run of `n` extents leaves room for `n` more. */
  lemma RunFitsCount(u: seq<bool>, first: nat, n: nat)
    requires All(u, first, n, false)
    ensures CountUsed(u) + n <= |u|
  {
    CountSetRange(u, first, n, true);
  }

  // ---------------------------------------------------------------- free list

  predicate NoDup<T(==)>(s: seq<T>) {
    forall i, j :: 0 <= i < j < |s| ==> s[i] != s[j]
  }

  /** The free list holds every clear bit once and nothing else. */
  predicate ListsFree(u: seq<bool>, free: seq<nat>) {
    && NoDup(free)
    && (forall k :: k in free ==> k < |u| && !u[k])
    && (forall k :: 0 <= k < |u| && !u[k] ==> k in free)
  }

  /** `std::remove_if` over the list: what lies outside `[first, end)`, in order. */
  function Outside(free: seq<nat>, first: nat, end: nat): (r: seq<nat>)
    ensures forall k :: k in r <==> k in free && !(first <= k < end)
    ensures NoDup(free) ==> NoDup(r)
  {
    if |free| == 0 then []
    else
      var rest := Outside(free[1..], first, end);
      assert free == [free[0]] + free[1..];
      assert NoDup(free) ==> free[0] !in free[1..] && NoDup(free[1..]);
      if first <= free[0] < end then rest else [free[0]] + rest
  }

  lemma ListsFreeAfterTake(u: seq<bool>, free: seq<nat>, first: nat, n: nat)
    requires ListsFree(u, free) && All(u, first, n, false)
    ensures ListsFree(SetRange(u, first, n, true), Outside(free, first, first + n))
  {}

  lemma ListsFreeAfterPop(u: seq<bool>, free: seq<nat>)
    requires ListsFree(u, free) && |free| > 0
    ensures var k := free[|free| - 1]; k < |u| && !u[k] && ListsFree(u[k := true], free[..|free| - 1])
  {
    var n := |free| - 1;
    var k := free[n];
    assert k in free;
    assert forall i :: 0 <= i < n ==> free[i] != k;
    assert free == free[..n] + [k];
    var u' := u[k := true];
    forall j | 0 <= j < |u'| && !u'[j] ensures j in free[..n] {
      assert !u[j] && j in free && j != k;
    }
    forall j | j in free[..n] ensures j < |u'| && !u'[j] {
      assert j in free && j != k;
    }
  }

  lemma ListsFreeAfterGive(u: seq<bool>, free: seq<nat>, k: nat)
    requires ListsFree(u, free) && k < |u| && u[k]
    ensures ListsFree(u[k := false], free + [k])
  {
    assert k !in free;
    forall j | 0 <= j < |u| && !u[k := false][j] ensures j in free + [k] {
      if j != k { assert j in free; }
    }
  }

  // ------------------------------------------------------------ I/O in progress

  /** One queued or running transfer over `[first, first + count)`. */
  datatype Request = Request(op: nat, first: nat, count: nat, isRead: bool, buffer: nat)

  predicate Touches(c: Request, k: nat) {
    c.first <= k < c.first + c.count
  }

  /** The number of requests over extent `k`. */
  function Cover(live: seq<Request>, k: nat): nat {
    if |live| == 0 then 0 else Cover(live[..|live| - 1], k) + if Touches(live[|live| - 1], k) then 1 else 0
  }

  lemma {:induction false} CoverSplits(a: seq<Request>, b: seq<Request>, k: nat)
    ensures Cover(a + b, k) == Cover(a, k) + Cover(b, k)
    decreases |b|
  {
    if |b| == 0 {
      assert a + b == a;
    } else {
      assert (a + b)[..|a + b| - 1] == a + b[..|b| - 1];
      CoverSplits(a, b[..|b| - 1], k);
    }
  }

  function Without<T>(s: seq<T>, i: nat): (r: seq<T>)
    requires i < |s|
    ensures |r| == |s| - 1
  {
    s[..i] + s[i + 1..]
  }

  lemma CoverWithout(live: seq<Request>, i: nat, k: nat)
    requires i < |live|
    ensures Cover(live, k) == Cover(Without(live, i), k) + if Touches(live[i], k) then 1 else 0
  {
    assert live == live[..i] + [live[i]] + live[i + 1..];
    CoverSplits(live[..i] + [live[i]], live[i + 1..], k);
    CoverSplits(live[..i], [live[i]], k);
    CoverSplits(live[..i], live[i + 1..], k);
    assert [live[i]][..0] == [];
  }

  /** One more, or one fewer, in progress over the range; the decrement stops
      at zero. */
  function Bump(a: seq<nat>, first: nat, n: nat, up: bool): (r: seq<nat>)
    requires first + n <= |a|
    ensures |r| == |a|
    ensures forall k :: 0 <= k < |a| ==> r[k] == if first <= k < first + n then Bumped(a[k], up) else a[k]
  {
    if n == 0 then a
    else
      var r := Bump(a, first, n - 1, up);
      r[first + n - 1 := Bumped(a[first + n - 1], up)]
  }

  function Bumped(x: nat, up: bool): nat {
    if up then x + 1 else if x != 0 then x - 1 else 0
  }

  /** A request stays inside the allocated extents. */
  predicate InUse(u: seq<bool>, c: Request) {
    c.count > 0 && All(u, c.first, c.count, true)
  }

  /** The counters are exactly the requests in progress, and those touch
      allocated extents only. */
  ghost predicate CountsIo(u: seq<bool>, a: seq<nat>, live: seq<Request>) {
    && |a| == |u|
    && (forall k :: 0 <= k < |u| ==> a[k] == Cover(live, k))
    && (forall i :: 0 <= i < |live| ==> InUse(u, live[i]))
  }

  lemma {:induction false} CoverZero(live: seq<Request>, k: nat)
    ensures Cover(live, k) == 0 <==> forall i :: 0 <= i < |live| ==> !Touches(live[i], k)
    decreases |live|
  {
    if |live| > 0 {
      CoverZero(live[..|live| - 1], k);
      assert forall i :: 0 <= i < |live| - 1 ==> live[..|live| - 1][i] == live[i];
    }
  }

  /** I/O is in progress over an extent only while it is allocated. */
  lemma BusyIsUsed(u: seq<bool>, a: seq<nat>, live: seq<Request>, k: nat)
    requires CountsIo(u, a, live) && k < |u| && a[k] != 0
    ensures u[k]
  {
    CoverZero(live, k);
  }

  lemma CountsAfterSubmit(u: seq<bool>, a: seq<nat>, live: seq<Request>, c: Request)
    requires CountsIo(u, a, live) && InUse(u, c)
    ensures c.first + c.count <= |a|
    ensures CountsIo(u, Bump(a, c.first, c.count, true), live + [c])
  {
    var live' := live + [c];
    forall k | 0 <= k < |u| ensures Bump(a, c.first, c.count, true)[k] == Cover(live', k) {
      assert live'[..|live|] == live;
    }
  }

  lemma CountsAfterRetire(u: seq<bool>, a: seq<nat>, live: seq<Request>, i: nat)
    requires CountsIo(u, a, live) && i < |live|
    ensures live[i].first + live[i].count <= |a| && CountsIo(u, Bump(a, live[i].first, live[i].count, false), Without(live, i))
  {
    forall k | 0 <= k < |u|
      ensures Bump(a, live[i].first, live[i].count, false)[k] == Cover(Without(live, i), k)
    {
      CoverWithout(live, i, k);
    }
  }

  /** Moving a request from one place in the order to another changes nothing. */
  lemma CountsReordered(u: seq<bool>, a: seq<nat>, q: seq<Request>, r: seq<Request>)
    requires |q| > 0 && CountsIo(u, a, q + r)
    ensures CountsIo(u, a, q[1..] + (r + [q[0]]))
  {
    assert q == [q[0]] + q[1..];
    var live' := q[1..] + (r + [q[0]]);
    forall k | 0 <= k < |u| ensures a[k] == Cover(live', k) {
      CoverSplits(q, r, k);
      CoverSplits([q[0]], q[1..], k);
      CoverSplits(q[1..], r + [q[0]], k);
      CoverSplits(r, [q[0]], k);
    }
    forall i | 0 <= i < |live'| ensures InUse(u, live'[i]) {
      if i < |q| - 1 { assert live'[i] == (q + r)[i + 1]; }
      else if i < |q| - 1 + |r| { assert live'[i] == (q + r)[i + 1]; }
      else { assert live'[i] == (q + r)[0]; }
    }
  }

  /** Taking free extents leaves the requests in progress alone. */
  lemma CountsAfterTake(u: seq<bool>, a: seq<nat>, live: seq<Request>, first: nat, n: nat)
    requires CountsIo(u, a, live) && first + n <= |u|
    ensures CountsIo(SetRange(u, first, n, true), a, live)
  {}

  /** Freeing extents over which nothing is in progress does too. */
  lemma CountsAfterGive(u: seq<bool>, a: seq<nat>, live: seq<Request>, first: nat, n: nat)
    requires CountsIo(u, a, live) && first + n <= |u|
    requires forall k :: first <= k < first + n ==> a[k] == 0
    ensures CountsIo(SetRange(u, first, n, false), a, live)
  {
    var u' := SetRange(u, first, n, false);
    forall i | 0 <= i < |live| ensures InUse(u', live[i]) {
      assert InUse(u, live[i]);
      forall k | live[i].first <= k < live[i].first + live[i].count ensures u'[k] {
        CoverZero(live, k);
        assert Touches(live[i], k);
      }
    }
  }
}
