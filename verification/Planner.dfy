/** The eviction planner (src/planner.cpp). */
module Planner {
  import opened Collections
  import opened Pages
  import opened Policy

  /** The device figures the planner works from. */
  datatype Figures = Figures(limit: nat, reserve: nat, used: nat)

  function Usable(b: Figures): nat {
    if b.reserve <= b.limit then b.limit - b.reserve else 0
  }

  /** `vram_has_headroom`. */
  predicate HasHeadroom(b: Figures, need: nat) {
    b.reserve <= b.limit && b.used <= Usable(b) && need <= Usable(b) - b.used
  }

  /** The bytes that have to be freed. */
  function Shortfall(b: Figures, need: nat): nat {
    var headroom := if b.used < Usable(b) then Usable(b) - b.used else 0;
    if need <= headroom then 0 else need - headroom
  }

  datatype Reason = DemoteToHost | WritebackToNvme | DropToNvmeClean | SpillToNvme

  datatype Decision = Decision(id: PageId, target: Tier, reason: Reason)

  /** A page that may be evicted. */
  predicate Legal(p: Page) {
    !p.pinned && p.flight.None?
  }

  /** The legal pages, in order. */
  function LegalOf(s: seq<Page>): (r: seq<Page>)
    ensures forall p :: p in r <==> p in s && Legal(p)
  {
    if |s| == 0 then []
    else
      var rest := LegalOf(s[..|s| - 1]);
      assert s == s[..|s| - 1] + [s[|s| - 1]];
      if Legal(s[|s| - 1]) then rest + [s[|s| - 1]] else rest
  }

  function Sizes(s: seq<Page>): nat {
    if |s| == 0 then 0 else Sizes(s[..|s| - 1]) + s[|s| - 1].size
  }

  /** Host room left once the pages of `s` have been placed in order: each goes
      to the host if it still fits, to the store otherwise. */
  function RoomAfter(s: seq<Page>, room: nat): (r: nat)
    ensures r <= room
  {
    if |s| == 0 then room
    else
      var left := RoomAfter(s[..|s| - 1], room);
      if s[|s| - 1].size <= left then left - s[|s| - 1].size else left
  }

  function Choice(p: Page, left: nat): Decision {
    if p.size <= left then Decision(p.id, HostPinned, DemoteToHost)
    else Decision(p.id, Nvme, if p.dirty then WritebackToNvme else if p.hasCopy then DropToNvmeClean else SpillToNvme)
  }

  /** `d` evicts exactly the pages of `s`, each placed by the room left. */
  ghost predicate Places(d: seq<Decision>, s: seq<Page>, room: nat) {
    |d| == |s| && forall i :: 0 <= i < |s| ==> d[i] == Choice(s[i], RoomAfter(s[..i], room))
  }

  /** A plan for `short` bytes: the shortest run of legal victims, best first,
      that covers them. */
  ghost predicate Plan(d: seq<Decision>, victims: seq<Page>, short: nat, room: nat) {
    && |d| <= |victims| && Places(d, victims[..|d|], room)
    && Sizes(victims[..|d|]) >= short
    && (forall k :: 0 <= k < |d| ==> Sizes(victims[..k]) < short)
  }

  /** The first page with the id of `p`. */
  function FirstLike(pages: seq<Page>, p: Page): (r: Page)
    requires p in pages
    ensures r in pages && r.id == p.id
  {
    if pages[0].id == p.id then pages[0]
    else
      assert p in pages[1..];
      FirstLike(pages[1..], p)
  }

  /** What the planner looks up for a ranking: for each id its first page, which
      with distinct ids is the page itself. */
  function LookedUp(pages: seq<Page>, ranked: seq<Page>): (r: seq<Page>)
    requires forall i :: 0 <= i < |ranked| ==> ranked[i] in pages
    ensures |r| == |ranked| && forall i :: 0 <= i < |r| ==> r[i] == FirstLike(pages, ranked[i])
  {
    seq(|ranked|, i requires 0 <= i < |ranked| => FirstLike(pages, ranked[i]))
  }

  /** The pages `plan_evictions` goes through, best victim first. */
  ghost function InTurn(key: Page -> real, pages: seq<Page>): seq<Page> {
    SameMembers(Rank(key, pages), pages);
    LookedUp(pages, Rank(key, pages))
  }

  lemma DistinctLookUp(key: Page -> real, pages: seq<Page>)
    requires Distinct(pages)
    ensures InTurn(key, pages) == Rank(key, pages)
  {
    SameMembers(Rank(key, pages), pages);
    var ranked := Rank(key, pages);
    forall i | 0 <= i < |ranked| ensures FirstLike(pages, ranked[i]) == ranked[i] {
      assert ranked[i] in pages && FirstLike(pages, ranked[i]) in pages;
    }
  }

  lemma {:induction false} FirstLikeIs(pages: seq<Page>, p: Page, i: nat)
    requires p in pages && i < |pages| && pages[i].id == p.id && forall j :: 0 <= j < i ==> pages[j].id != p.id
    ensures FirstLike(pages, p) == pages[i]
    decreases |pages|
  {
    if i > 0 {
      assert p in pages[1..];
      FirstLikeIs(pages[1..], p, i - 1);
    }
  }

  /** `find_by_id`. */
  method FindById(pages: seq<Page>, id: PageId) returns (meta: Option<Page>)
    ensures forall p :: p in pages && p.id == id ==> meta == Some(FirstLike(pages, p))
    ensures meta.None? ==> forall p :: p in pages ==> p.id != id
  {
    for i := 0 to |pages|
      invariant forall j :: 0 <= j < i ==> pages[j].id != id
    {
      if pages[i].id == id {
        forall p | p in pages && p.id == id ensures FirstLike(pages, p) == pages[i] {
          FirstLikeIs(pages, p, i);
        }
        return Some(pages[i]);
      }
    }
    return None;
  }

  /** The branches of the loop body: where one victim goes and why. */
  method Place(p: Page, left: nat) returns (d: Decision, left': nat)
    ensures d == Choice(p, left) && left' == if p.size <= left then left - p.size else left
  {
    if left < p.size && p.dirty { return Decision(p.id, Nvme, WritebackToNvme), left; }
    if left < p.size && p.hasCopy { return Decision(p.id, Nvme, DropToNvmeClean), left; }
    if left < p.size { return Decision(p.id, Nvme, SpillToNvme), left; }
    return Decision(p.id, HostPinned, DemoteToHost), left - p.size;
  }

  /** `plan_evictions`, with the policy's score as a parameter. */
  method PlanEvictions(b: Figures, need: nat, candidates: seq<Page>, key: Page -> real, hostFree: nat)
    returns (r: Outcome<seq<Decision>>)
    ensures r.Ok? ==> Plan(r.value, LegalOf(InTurn(key, candidates)), Shortfall(b, need), hostFree)
    ensures r.Err? <==> Sizes(LegalOf(InTurn(key, candidates))) < Shortfall(b, need)
    // in terms of the headroom alone: no sooner than needed, and never given up too soon
    ensures Sizes(LegalOf(InTurn(key, candidates))) <= b.used ==>
      if r.Ok? then NoSooner(b, need, r.value, LegalOf(InTurn(key, candidates)))
      else !HasHeadroom(Evicted(b, Sizes(LegalOf(InTurn(key, candidates)))), need)
    ensures Distinct(candidates) ==> InTurn(key, candidates) == Rank(key, candidates)
    ensures r.Err? ==> r.code == BudgetError
  {
    hide Distinct, Progress, Plan, LegalOf, Sizes, Rank, Choice, FirstLike, NoSooner, HasHeadroom, Evicted;
    var usable := if b.limit >= b.reserve then b.limit - b.reserve else 0;
    var headroom := if b.used < usable then usable - b.used else 0;
    SameMembers(Rank(key, candidates), candidates);
    ghost var ranked := InTurn(key, candidates);
    if Distinct(candidates) { DistinctLookUp(key, candidates); }
    if Sizes(LegalOf(ranked)) <= b.used { ShortfallIsLeast(b, need, LegalOf(ranked), hostFree); }
    if need <= headroom {
      EmptyPlan(LegalOf(ranked), hostFree);
      return Ok([]);
    }
    var want: nat := need - headroom;
    var short: nat, left: nat := want, hostFree;
    var ordered := RankVictims(key, candidates);
    var d: seq<Decision> := [];
    var i := 0;
    NoProgress(ranked, want, hostFree);
    while i < |ordered| && short != 0
      invariant 0 <= i <= |ordered|
      invariant Progress(d, LegalOf(ranked[..i]), want, short, hostFree, left)
    {
      var meta := FindById(candidates, ordered[i]);
      assert Rank(key, candidates)[i] in candidates;
      LegalNext(ranked, i);
      var p := meta.value;
      i := i + 1;
      if p.pinned { continue; }
      if p.flight.Some? { continue; }
      ProgressStep(d, LegalOf(ranked[..i - 1]), want, short, hostFree, left, p);
      var decision;
      decision, left := Place(p, left);
      d := d + [decision];
      var freed := if p.size < short then p.size else short;
      short := if freed >= short then 0 else short - freed;
    }
    Settle(ranked, i, d, want, short, hostFree, left);
    if short != 0 { return Err(BudgetError); }
    return Ok(d);
  }

  lemma NoProgress(ranked: seq<Page>, want: nat, room: nat)
    ensures Progress([], LegalOf(ranked[..0]), want, want, room, room)
  {}

  lemma LegalNext(s: seq<Page>, i: nat)
    requires i < |s|
    ensures LegalOf(s[..i + 1]) == if Legal(s[i]) then LegalOf(s[..i]) + [s[i]] else LegalOf(s[..i])
  {
    assert s[..i + 1][..i] == s[..i];
  }

  /** The state of the loop: every legal page seen so far has been placed, and
      they did not cover the shortfall before the last one. */
  ghost predicate Progress(d: seq<Decision>, seen: seq<Page>, want: nat, short: nat, room: nat, left: nat) {
    && Places(d, seen, room) && left == RoomAfter(seen, room)
    && short == (if Sizes(seen) < want then want - Sizes(seen) else 0)
    && (forall k :: 0 <= k < |seen| ==> Sizes(seen[..k]) < want)
  }

  lemma ProgressStep(d: seq<Decision>, seen: seq<Page>, want: nat, short: nat, room: nat, left: nat, p: Page)
    requires Progress(d, seen, want, short, room, left) && short != 0
    ensures Progress(d + [Choice(p, left)], seen + [p], want, if p.size < short then short - p.size else 0, room,
                     if p.size <= left then left - p.size else left)
  {
    var seen' := seen + [p];
    assert seen'[..|seen|] == seen;
    forall k | 0 <= k < |seen'| ensures seen'[..k] == if k < |seen| then seen[..k] else seen {}
  }

  lemma PlanIsShort(d: seq<Decision>, victims: seq<Page>, short: nat, room: nat)
    requires Plan(d, victims, short, room)
    ensures |d| <= |victims|
  {}

  lemma EmptyPlan(victims: seq<Page>, room: nat)
    ensures Plan([], victims, 0, room)
  {}

  lemma Settle(ranked: seq<Page>, i: nat, d: seq<Decision>, want: nat, short: nat, room: nat, left: nat)
    requires i <= |ranked| && Progress(d, LegalOf(ranked[..i]), want, short, room, left)
    requires i == |ranked| || short == 0
    ensures short == 0 ==> Plan(d, LegalOf(ranked), want, room)
    ensures short == 0 <==> Sizes(LegalOf(ranked)) >= want
  {
    hide LegalOf, Sizes, Places;
    LegalPrefix(ranked, i);
    var all, n := LegalOf(ranked), |LegalOf(ranked[..i])|;
    SizesPrefix(all, n);
    if i == |ranked| { assert ranked[..i] == ranked; }
    assert |d| == n by { PlacesAll(d, all[..n], room); }
    assert forall k :: 0 <= k < n ==> all[..n][..k] == all[..k];
  }

  lemma PlacesAll(d: seq<Decision>, s: seq<Page>, room: nat)
    requires Places(d, s, room)
    ensures |d| == |s| && forall i :: 0 <= i < |d| ==> d[i].id == s[i].id
  {
    forall i | 0 <= i < |d| ensures d[i].id == s[i].id {
      assert d[i] == Choice(s[i], RoomAfter(s[..i], room));
    }
  }

  lemma {:induction false} LegalPrefix(s: seq<Page>, i: nat)
    requires i <= |s|
    ensures |LegalOf(s[..i])| <= |LegalOf(s)| && LegalOf(s)[..|LegalOf(s[..i])|] == LegalOf(s[..i])
    decreases |s| - i
  {
    if i == |s| {
      assert s[..i] == s;
    } else {
      LegalPrefix(s, i + 1);
      assert s[..i + 1][..i] == s[..i];
    }
  }

  lemma {:induction false} SizesPrefix(s: seq<Page>, n: nat)
    requires n <= |s|
    ensures Sizes(s[..n]) <= Sizes(s)
    decreases |s| - n
  {
    if n == |s| {
      assert s[..n] == s;
    } else {
      SizesPrefix(s, n + 1);
      assert s[..n + 1][..n] == s[..n];
    }
  }

  // ---------------------------------------------------------------- theorems

  /** Pages named by a plan are candidates neither pinned nor in flight, and no
      page twice; and all such candidates are there to choose from. */
  lemma PlanIsLegal(d: seq<Decision>, key: Page -> real, candidates: seq<Page>, short: nat, room: nat)
    requires Distinct(candidates) && Plan(d, LegalOf(Rank(key, candidates)), short, room)
    ensures forall i :: 0 <= i < |d| ==>
      exists p :: p in candidates && !p.pinned && p.flight.None? && p.id == d[i].id
    ensures forall i, j :: 0 <= i < j < |d| ==> d[i].id != d[j].id
    ensures forall p :: p in LegalOf(Rank(key, candidates)) <==> p in candidates && !p.pinned && p.flight.None?
  {
    hide LegalOf, Rank, Sizes, Places;
    var ranked := Rank(key, candidates);
    var victims := LegalOf(ranked);
    SameMembers(ranked, candidates);
    DistinctPermuted(candidates, ranked);
    LegalDistinct(ranked);
    PlacesAll(d, victims[..|d|], room);
    assert forall i :: 0 <= i < |d| ==> d[i].id == victims[i].id;
    forall i | 0 <= i < |d| ensures exists p :: p in candidates && !p.pinned && p.flight.None? && p.id == d[i].id {
      assert victims[i] in candidates && Legal(victims[i]);
    }
  }

  lemma {:induction false} LegalDistinct(s: seq<Page>)
    requires Distinct(s)
    ensures Distinct(LegalOf(s))
  {
    if |s| > 0 {
      var n := |s| - 1;
      LegalDistinct(s[..n]);
      forall p | p in LegalOf(s[..n]) ensures p.id != s[n].id {
        assert p in s[..n];
      }
    }
  }

  lemma NoLonger(d: seq<Decision>, e: seq<Decision>, victims: seq<Page>, short: nat, room: nat)
    requires Plan(d, victims, short, room) && Plan(e, victims, short, room)
    ensures |e| <= |d|
  {
    hide Sizes, Places;
    assert Sizes(victims[..|d|]) >= short;
  }

  /** There is one plan at most for given victims, need and room. */
  lemma PlanIsUnique(d: seq<Decision>, e: seq<Decision>, victims: seq<Page>, short: nat, room: nat)
    requires Plan(d, victims, short, room) && Plan(e, victims, short, room)
    ensures d == e
  {
    hide Sizes, RoomAfter, Choice;
    NoLonger(d, e, victims, short, room);
    NoLonger(e, d, victims, short, room);
  }

  /** The plan does not depend on the order in which the page table yields the
      candidates: neither what is planned nor whether planning fails. */
  lemma PlanIgnoresCollectionOrder(key: Page -> real, a: seq<Page>, b: seq<Page>, short: nat, room: nat,
                                   d: seq<Decision>, e: seq<Decision>)
    requires multiset(a) == multiset(b) && Distinct(a)
    ensures LegalOf(Rank(key, a)) == LegalOf(Rank(key, b))
    ensures Plan(d, LegalOf(Rank(key, a)), short, room) && Plan(e, LegalOf(Rank(key, b)), short, room) ==> d == e
  {
    hide Plan, LegalOf, Rank;
    RankIgnoresCollectionOrder(key, a, b);
    if Plan(d, LegalOf(Rank(key, a)), short, room) && Plan(e, LegalOf(Rank(key, b)), short, room) {
      PlanIsUnique(d, e, LegalOf(Rank(key, a)), short, room);
    }
  }

  /** The sizes a plan sends to the host. */
  function ToHost(d: seq<Decision>, s: seq<Page>): nat
    requires |d| == |s|
  {
    if |s| == 0 then 0
    else ToHost(d[..|d| - 1], s[..|s| - 1]) + if d[|d| - 1].target.HostPinned? then s[|s| - 1].size else 0
  }

  /** What goes to the host fits the host room the planner was given. */
  lemma {:induction false} HostRoomRespected(d: seq<Decision>, s: seq<Page>, room: nat)
    requires Places(d, s, room)
    ensures ToHost(d, s) + RoomAfter(s, room) == room
    decreases |s|
  {
    if |s| > 0 {
      var n := |s| - 1;
      assert forall i :: 0 <= i < n ==> s[..n][..i] == s[..i];
      HostRoomRespected(d[..n], s[..n], room);
      assert d[n] == Choice(s[n], RoomAfter(s[..n], room));
    }
  }

  /** Each victim goes to the host exactly when it fits beside those sent there
      before it; what goes to the store is written back if dirty, dropped if
      the store has it already, and spilled otherwise. */
  lemma PlacedGreedily(d: seq<Decision>, s: seq<Page>, room: nat, i: nat)
    requires Places(d, s, room) && i < |s|
    ensures d[i].id == s[i].id && (d[i].target == HostPinned || d[i].target == Nvme)
    ensures d[i].target == HostPinned <==> ToHost(d[..i], s[..i]) + s[i].size <= room
    ensures d[i].reason == DemoteToHost <==> d[i].target == HostPinned
    ensures d[i].target == Nvme ==>
      && (d[i].reason == WritebackToNvme <==> s[i].dirty)
      && (d[i].reason == DropToNvmeClean <==> !s[i].dirty && s[i].hasCopy)
  {
    assert d[i] == Choice(s[i], RoomAfter(s[..i], room));
    assert forall j :: 0 <= j < i ==> s[..i][..j] == s[..j];
    HostRoomRespected(d[..i], s[..i], room);
  }

  /** The device figures once the victims have left. */
  function Evicted(b: Figures, gone: nat): Figures {
    b.(used := if gone <= b.used then b.used - gone else 0)
  }

  /** The device is set up and within its usable limit. */
  predicate WithinLimit(b: Figures) {
    b.reserve <= b.limit && b.used <= Usable(b)
  }

  /** Within its limit, the device has the headroom once the plan is carried
      out, whatever the need; the victims are part of the usage. */
  lemma PlanMakesHeadroom(b: Figures, need: nat, d: seq<Decision>, victims: seq<Page>, room: nat)
    requires Plan(d, victims, Shortfall(b, need), room) && WithinLimit(b) && Sizes(victims[..|d|]) <= b.used
    ensures HasHeadroom(Evicted(b, Sizes(victims[..|d|])), need)
  {}

  /** No proper prefix of the plan would have made the room. */
  ghost predicate NoSooner(b: Figures, need: nat, d: seq<Decision>, victims: seq<Page>) {
    |d| <= |victims| && forall k :: 0 <= k < |d| ==> !HasHeadroom(Evicted(b, Sizes(victims[..k])), need)
  }

  /** Freeing anything less than the shortfall does not make the room, on any
      device: so no prefix of a plan does, and where no plan exists not even
      all the victims would. */
  lemma ShortfallIsLeast(b: Figures, need: nat, victims: seq<Page>, room: nat)
    requires Sizes(victims) <= b.used
    ensures forall d :: Plan(d, victims, Shortfall(b, need), room) ==> NoSooner(b, need, d, victims)
    ensures Sizes(victims) < Shortfall(b, need) ==> !HasHeadroom(Evicted(b, Sizes(victims)), need)
  {
    forall d | Plan(d, victims, Shortfall(b, need), room) ensures NoSooner(b, need, d, victims) {
      forall k | 0 <= k < |d| ensures !HasHeadroom(Evicted(b, Sizes(victims[..k])), need) {
        SizesPrefix(victims, k);
      }
    }
  }

  /** A need above the usable limit is refused: all victims together do not
      cover it. */
  lemma TooMuchIsRefused(b: Figures, need: nat, victims: seq<Page>)
    requires WithinLimit(b) && need > Usable(b) && Sizes(victims) <= b.used
    ensures Sizes(victims) < Shortfall(b, need)
  {}

  /** Carrying out any plan whose victims are part of the usage makes room. */
  ghost predicate PlansSuffice(b: Figures, need: nat) {
    forall d, victims, room :: Plan(d, victims, Shortfall(b, need), room) && Sizes(victims) <= b.used ==>
      HasHeadroom(Evicted(b, Sizes(victims[..|d|])), need)
  }

  /** Beyond its limit it need not: the planner counts the need alone, not the
      bytes by which usage exceeds the limit. One victim of exactly the needed
      size satisfies the planner and leaves no room. */
  lemma OverLimitPlanFallsShort(b: Figures, need: nat)
    requires !WithinLimit(b) && need <= b.used
    ensures !PlansSuffice(b, need)
  {
    var p := Page(1, need, None, ResidentVram, Vram, false, false, None, false, 0, 0, 0, None, Some(1));
    assert [p][..1] == [p] && [p][..0] == [];
    var d := if need == 0 then [] else [Choice(p, 0)];
    assert Sizes([p]) == need && Sizes([p][..|d|]) == need;
    assert Plan(d, [p], Shortfall(b, need), 0);
    assert !HasHeadroom(Evicted(b, Sizes([p][..|d|])), need);
  }

  /** So, for every device and every need: plans make room exactly when usage is
      within the limit, or the need exceeds the usage and no plan exists. */
  lemma PlansSufficeExactly(b: Figures, need: nat)
    ensures PlansSuffice(b, need) <==> WithinLimit(b) || need > b.used
  {
    if WithinLimit(b) || need > b.used {
      forall d, victims, room | Plan(d, victims, Shortfall(b, need), room) && Sizes(victims) <= b.used
        ensures HasHeadroom(Evicted(b, Sizes(victims[..|d|])), need)
      {
        SizesPrefix(victims, |d|);
        if WithinLimit(b) { PlanMakesHeadroom(b, need, d, victims, room); }
      }
    } else {
      OverLimitPlanFallsShort(b, need);
    }
  }
}
