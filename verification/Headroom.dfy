/** Planning on a state of the protocol (`ensure_vram_headroom` in
    src/runtime.cpp): in every reachable state the planner's victims are part of
    the device usage and usage is within the limit, so its plans make room. */
module Headroom {
  import opened Collections
  import opened Pages
  import opened Budgets
  import opened Policy
  import opened Protocol
  import opened ProtocolInvariant
  import opened ProtocolTheorems
  import P = Planner

  /** The candidates as the page table yields them, in some order. */
  ghost predicate Snapshot(s: State, candidates: seq<Page>) {
    && Distinct(candidates)
    && (forall p :: p in candidates <==> p.id in s.table && s.table[p.id] == p && p.state.ResidentVram?
                                         && !p.pinned && p.flight.None?)
  }

  /** The device figures handed to the planner. */
  function FiguresOf(s: State): P.Figures {
    P.Figures(s.vram.limit, s.vram.reserve, s.vram.used)
  }

  lemma {:induction false} SizesWithin(m: map<nat, nat>, victims: seq<Page>)
    requires Distinct(victims) && forall i :: 0 <= i < |victims| ==> victims[i].id in m && m[victims[i].id] == victims[i].size
    ensures P.Sizes(victims) <= Total(m)
    decreases |victims|
  {
    if |victims| > 0 {
      var n := |victims| - 1;
      var last := victims[n];
      TotalRemove(m, last.id);
      SizesWithin(m - {last.id}, victims[..n]);
    }
  }

  /** Distinct pages resident on the device are part of its usage. */
  lemma VictimsAreUsage(s: State, victims: seq<Page>)
    requires Inv(s) && Distinct(victims)
    requires forall i :: 0 <= i < |victims| ==>
      victims[i].id in s.table && s.table[victims[i].id] == victims[i] && victims[i].state.ResidentVram?
    ensures P.Sizes(victims) <= s.vram.used
  {
    hide Holds, OwnsRange, Authoritative, TargetData, LocalOk, Total, Distinct;
    forall i | 0 <= i < |victims|
      ensures victims[i].id in PagesVram(s) && PagesVram(s)[victims[i].id] == victims[i].size
    {
      assert PageOk(s, victims[i].id);
    }
    SizesWithin(PagesVram(s), victims);
  }

  /** The planner's test is the budget's: what it calls headroom can be
      reserved. */
  lemma HeadroomIsTheBudgets(s: State, need: nat)
    requires Inv(s)
    ensures P.HasHeadroom(FiguresOf(s), need) <==> Fits(s.vram, need)
  {
    hide Structure, Ledger;
  }

  /** In every reachable state, for every need and every order in which the table
      yields the candidates, `victims` being the unpinned settled pages on the
      device, best first: a plan exists exactly when evicting all of them would
      make the room; carried out it makes the room; and no shorter one would. */
  lemma ReachablePlanMakesHeadroom(s: State, candidates: seq<Page>, key: Page -> real, need: nat, room: nat,
                                   d: seq<P.Decision>)
    requires Reachable(s) && Snapshot(s, candidates)
    ensures var b, victims := FiguresOf(s), P.LegalOf(Rank(key, candidates));
      && (forall p :: p in victims <==> p in candidates)
      && (P.Shortfall(b, need) <= P.Sizes(victims) <==> P.HasHeadroom(P.Evicted(b, P.Sizes(victims)), need))
      && (P.Plan(d, victims, P.Shortfall(b, need), room) ==>
            P.NoSooner(b, need, d, victims) && P.HasHeadroom(P.Evicted(b, P.Sizes(victims[..|d|])), need))
  {
    hide Reachable, Inv, P.LegalOf, Rank, P.Sizes, P.Plan, Distinct;
    var b, ranked := FiguresOf(s), Rank(key, candidates);
    var victims := P.LegalOf(ranked);
    ReachableInv(s);
    WithinItsLimit(s);
    SameMembers(ranked, candidates);
    DistinctPermuted(candidates, ranked);
    P.LegalDistinct(ranked);
    VictimsAreUsage(s, victims);
    P.ShortfallIsLeast(b, need, victims, room);
    if P.Plan(d, victims, P.Shortfall(b, need), room) {
      P.PlanIsShort(d, victims, P.Shortfall(b, need), room);
      P.SizesPrefix(victims, |d|);
      P.PlanMakesHeadroom(b, need, d, victims, room);
    }
  }

  lemma WithinItsLimit(s: State)
    requires Inv(s)
    ensures P.WithinLimit(FiguresOf(s))
  {
    hide Structure, Ledger;
  }
}
