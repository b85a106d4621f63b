/** A page that is allocated pinned, and that no caller then names, is never
    moved: a caller needs to know nothing of what other threads are about. */
module PinnedAtBirth {
  import opened Collections
  import opened Pages
  import opened Budgets
  import opened Protocol
  import opened ProtocolInvariant
  import opened ProtocolSafety
  import opened ProtocolFrames
  import opened ProtocolTheorems
  import opened Refinement
  import opened Pinning

  // --------------------------------------------- searches name pages that exist

  /** Searches have settled only on pages that have been handed out. */
  ghost predicate ChosenBorn(s: State) {
    forall t, id :: t in s.cands && id in s.cands[t].chosen ==> id in s.born
  }

  lemma SearchKeepsChosenBorn(s: State, step: SearchStep)
    requires Inv(s) && SearchEnabled(s, step) && ChosenBorn(s)
    ensures ChosenBorn(ApplySearch(s, step))
  {
    hide Ledger, Holds, OwnsRange, Authoritative, TargetData, LocalOk;
    var s' := ApplySearch(s, step);
    forall t, id | t in s'.cands && id in s'.cands[t].chosen ensures id in s'.born {
      if id in s.table { assert PageOk(s, id); }
    }
  }

  lemma StepKeepsChosenBorn(s: State, step: Step)
    requires Inv(s) && Enabled(s, step) && ChosenBorn(s)
    ensures ChosenBorn(Apply(s, step))
  {
    hide Inv, ApplyAlloc, ApplyClaim, ApplyCopy, ApplyAccess, ApplyFree, ApplySearch;
    hide AllocEnabled, ClaimEnabled, CopyEnabled, AccessEnabled, FreeEnabled, SearchEnabled;
    StepSteady(s, step);
    if step.Searching? { SearchKeepsChosenBorn(s, step.v); }
  }

  lemma {:induction false} RunKeepsChosenBorn(s: State, steps: seq<Step>)
    requires Init(s) && After(s, steps).Some?
    ensures ChosenBorn(After(s, steps).value)
    decreases |steps|
  {
    hide Inv, Apply, Enabled;
    if |steps| > 0 {
      var before := steps[..|steps| - 1];
      RunKeepsChosenBorn(s, before);
      RunRefines(s, before);
      StepKeepsChosenBorn(After(s, before).value, steps[|steps| - 1]);
    }
  }

  // ------------------------------------------------------------- before it is in

  predicate Allocates(l: Local) {
    l.Born? || l.Reserved? || l.DeviceHeld? || l.HostHeld?
  }

  /** Only the call that is allocating the page has it, and will pin it. */
  ghost predicate InOneHand(locals: map<Tid, Local>, id: PageId) {
    forall t :: t in locals && locals[t].id == id ==> Allocates(locals[t]) && locals[t].pinned
  }

  /** Handed out and not in the table: about to be inserted, pinned, or given up. */
  ghost predicate Cradled(s: State, id: PageId) {
    id in s.born && id !in s.table && OnNoList(s.cands, id) && InOneHand(s.locals, id)
  }

  ghost predicate Guarded(s: State, id: PageId) {
    Cradled(s, id) || Sheltered(s, id)
  }

  lemma BirthCradles(s: State, t: Tid, logical: nat)
    requires Inv(s) && ChosenBorn(s) && CanNewPage(s, t, logical)
    ensures Cradled(DoNewPage(s, t, logical, true), s.nextId)
  {
    hide Ledger, Holds, OwnsRange, Authoritative, TargetData, AllocationSize;
    var id, s' := s.nextId, DoNewPage(s, t, logical, true);
    assert id !in s.born;
    StructureAt(s, id, t);
    forall u | u in s.locals ensures s.locals[u].id in s.born {
      LocalIsBorn(s, u);
    }
  }

  lemma LocalIsBorn(s: State, u: Tid)
    requires Structure(s) && u in s.locals
    ensures s.locals[u].id in s.born
  {
    hide Holds, OwnsRange, Authoritative, TargetData;
    assert LocalOk(s, u);
    StructureAt(s, s.locals[u].id, u);
  }

  /** Two calls never allocate the same page. */
  lemma OneCreator(s: State, t: Tid, u: Tid)
    requires Structure(s) && t in s.locals && u in s.locals && t != u
    requires Allocates(s.locals[t]) && Allocates(s.locals[u])
    ensures s.locals[t].id != s.locals[u].id
  {
    hide Holds, PageOk;
    assert LocalOk(s, t) && LocalOk(s, u);
  }

  /** A step about another page, or none. */
  lemma CradledElsewhere(s: State, s': State, f: PageId, t: Tid, id: PageId)
    requires Cradled(s, id) && OnlyTouches(s, s', f, t) && f != id && s'.cands == s.cands
    requires t in s'.locals && s'.locals[t].id == id ==> Allocates(s'.locals[t]) && s'.locals[t].pinned
    ensures Cradled(s', id)
  {
    hide BuffersFramed, ExtentsFramed, StoreFramed, OnNoList, Matched;
  }

  lemma InsertShelters(s: State, step: AllocStep, id: PageId)
    requires Inv(s) && AllocEnabled(s, step) && Cradled(s, id) && AllocFocus(s, step) == id && !step.NewPage?
    requires step.InsertVram? || step.InsertHost? || step.InsertNvme?
    ensures Sheltered(ApplyAlloc(s, step), id)
  {
    hide Ledger, Structure, Own, Reown, Charge, OnNoList;
    forall u | u in s.locals && u != step.t && Allocates(s.locals[u]) ensures s.locals[u].id != s.locals[step.t].id {
      OneCreator(s, step.t, u);
    }
  }

  lemma AllocKeepsGuarded(s: State, step: AllocStep, id: PageId)
    requires Inv(s) && AllocEnabled(s, step) && Cradled(s, id)
    ensures Guarded(ApplyAlloc(s, step), id)
  {
    hide Ledger, Structure, OnlyTouches, OnNoList, Sheltered;
    StructureAt(s, id, step.t);
    if AllocFocus(s, step) == id {
      InsertShelters(s, step, id);
    } else {
      AllocSound(s, step);
      AllocSteady(s, step);
      AllocHands(s, step, id);
      CradledElsewhere(s, ApplyAlloc(s, step), AllocFocus(s, step), step.t, id);
    }
  }

  lemma AllocHands(s: State, step: AllocStep, id: PageId)
    requires AllocEnabled(s, step) && Cradled(s, id) && id < s.nextId
    ensures var s' := ApplyAlloc(s, step);
      step.t in s'.locals && s'.locals[step.t].id == id ==> Allocates(s'.locals[step.t]) && s'.locals[step.t].pinned
  {
    hide Own, Reown, Charge, Refund, OnNoList, Fits;
    assert step.t in s.locals && s.locals[step.t].id == id ==> Allocates(s.locals[step.t]) && s.locals[step.t].pinned;
  }

  lemma ClaimHands(s: State, step: ClaimStep, id: PageId)
    requires ClaimEnabled(s, step) && Cradled(s, id) && id < s.nextId
    ensures ClaimFocus(s, step) != id
    ensures var s' := ApplyClaim(s, step); step.t in s'.locals ==> s'.locals[step.t].id != id
  {
    hide Own, Reown, Charge, Refund, OnNoList, Fits, Moved;
    assert step.t in s.locals && s.locals[step.t].id == id ==> Allocates(s.locals[step.t]);
  }

  lemma CopyHands(s: State, step: CopyStep, id: PageId)
    requires CopyEnabled(s, step) && Cradled(s, id)
    ensures CopyFocus(s, step) != id
    ensures var s' := ApplyCopy(s, step); step.t in s'.locals ==> s'.locals[step.t].id != id
  {
    hide Refund, OnNoList, PutBuffer, PutRange, SourceData, CompletedPage, FailedPage, FreeBuffer;
  }

  lemma FreeHands(s: State, step: FreeStep, id: PageId)
    requires FreeEnabled(s, step) && Cradled(s, id)
    ensures FreeFocus(s, step) != id
    ensures var s' := ApplyFree(s, step); step.t in s'.locals ==> s'.locals[step.t].id != id
  {
    hide Refund, OnNoList, FreeBuffer, Disown, Moved;
  }

  lemma ClaimKeepsCradled(s: State, step: ClaimStep, id: PageId)
    requires Inv(s) && ClaimEnabled(s, step) && Cradled(s, id)
    ensures Cradled(ApplyClaim(s, step), id)
  {
    hide Ledger, Structure, OnlyTouches, OnNoList, InOneHand, ApplyClaim, ClaimEnabled;
    StructureAt(s, id, step.t);
    ClaimSound(s, step);
    ClaimSteady(s, step);
    ClaimHands(s, step, id);
    CradledElsewhere(s, ApplyClaim(s, step), ClaimFocus(s, step), step.t, id);
  }

  lemma CopyKeepsCradled(s: State, step: CopyStep, id: PageId)
    requires Inv(s) && CopyEnabled(s, step) && Cradled(s, id)
    ensures Cradled(ApplyCopy(s, step), id)
  {
    hide Inv, OnlyTouches, OnNoList, InOneHand, ApplyCopy, CopyEnabled;
    CopySound(s, step);
    CopySteady(s, step);
    CopyHands(s, step, id);
    CradledElsewhere(s, ApplyCopy(s, step), CopyFocus(s, step), step.t, id);
  }

  lemma FreeKeepsCradled(s: State, step: FreeStep, id: PageId)
    requires Inv(s) && FreeEnabled(s, step) && Cradled(s, id)
    ensures Cradled(ApplyFree(s, step), id)
  {
    hide Inv, OnlyTouches, OnNoList, InOneHand, ApplyFree, FreeEnabled;
    FreeSound(s, step);
    FreeSteady(s, step);
    FreeHands(s, step, id);
    CradledElsewhere(s, ApplyFree(s, step), FreeFocus(s, step), step.t, id);
  }

  lemma AccessKeepsCradled(s: State, step: AccessStep, id: PageId)
    requires AccessEnabled(s, step) && Cradled(s, id)
    ensures Cradled(ApplyAccess(s, step), id)
  {
    hide OnNoList, InOneHand, Checksum, PutBuffer, FreeBuffer, Disown;
  }

  lemma SearchKeepsCradled(s: State, step: SearchStep, id: PageId)
    requires SearchEnabled(s, step) && Cradled(s, id)
    ensures Cradled(ApplySearch(s, step), id)
  {
    hide InOneHand;
  }

  lemma StepKeepsGuarded(s: State, step: Step, id: PageId)
    requires Inv(s) && Enabled(s, step) && Guarded(s, id) && !Directed(step, id)
    ensures Guarded(Apply(s, step), id)
  {
    if Sheltered(s, id) {
      hide Inv, Sheltered, Enabled, Apply, Cradled;
      StepKeepsSheltered(s, step, id);
    } else {
      hide Inv, Sheltered, Cradled;
      hide AllocEnabled, ClaimEnabled, CopyEnabled, AccessEnabled, FreeEnabled, SearchEnabled;
      hide ApplyAlloc, ApplyClaim, ApplyCopy, ApplyAccess, ApplyFree, ApplySearch;
      match step {
        case Allocating(a) => AllocKeepsGuarded(s, a, id);
        case Claiming(c) => ClaimKeepsCradled(s, c, id);
        case Copying(k) => CopyKeepsCradled(s, k, id);
        case Accessing(x) => AccessKeepsCradled(s, x, id);
        case Freeing(f) => FreeKeepsCradled(s, f, id);
        case Searching(v) => SearchKeepsCradled(s, v, id);
      }
    }
  }

  // --------------------------------------------------------------------- runs

  lemma {:induction false} RunKeepsGuarded(s: State, steps: seq<Step>, id: PageId)
    requires Inv(s) && Guarded(s, id) && After(s, steps).Some? && Undirected(steps, id)
    ensures Inv(After(s, steps).value) && Guarded(After(s, steps).value, id)
    decreases |steps|
  {
    hide Inv, Guarded, Enabled, Apply, Directed;
    if |steps| > 0 {
      var before := steps[..|steps| - 1];
      RunKeepsGuarded(s, before, id);
      StepKeepsInv(After(s, before).value, steps[|steps| - 1]);
      StepKeepsGuarded(After(s, before).value, steps[|steps| - 1], id);
    }
  }

  lemma {:induction false} AfterSplits(s: State, steps: seq<Step>, i: nat)
    requires i <= |steps| && After(s, steps).Some?
    ensures After(s, steps[..i]).Some? && After(After(s, steps[..i]).value, steps[i..]) == After(s, steps)
    decreases |steps|
  {
    hide Enabled, Apply;
    if i == |steps| {
      assert steps[..i] == steps && steps[i..] == [];
    } else {
      var before := steps[..|steps| - 1];
      AfterSplits(s, before, i);
      assert before[..i] == steps[..i];
      assert steps[i..][..|steps[i..]| - 1] == before[i..];
    }
  }

  /** What a caller can rely on: from any reachable state, a page allocated with
      its pin set and named by no later call stays where it was put. Whenever it
      is in the table it is pinned and at rest, and from then to the end of the
      run its state and its host and device pointers are the same. */
  lemma PinnedFromBirth(s: State, t: Tid, logical: nat, steps: seq<Step>, i: nat)
    requires Reachable(s) && CanNewPage(s, t, logical)
    requires After(DoNewPage(s, t, logical, true), steps).Some? && Undirected(steps, s.nextId) && i <= |steps|
    ensures var s1, id := DoNewPage(s, t, logical, true), s.nextId;
      && After(s1, steps[..i]).Some?
      && var mid, end := After(s1, steps[..i]).value, After(s1, steps).value;
      id in mid.table ==> mid.table[id].pinned && mid.table[id].flight.None? && id in end.table
                          && SameResidency(mid.table[id], end.table[id])
  {
    hide Inv, Reachable, Enabled, Apply, Directed, After, DoNewPage, CanNewPage, Guarded, OnNoList, InNoHands;
    var s1, id := DoNewPage(s, t, logical, true), s.nextId;
    NewPageIsGuarded(s, t, logical);
    AfterSplits(s1, steps, i);
    assert Undirected(steps[..i], id) && Undirected(steps[i..], id);
    RunKeepsGuarded(s1, steps[..i], id);
    var mid := After(s1, steps[..i]).value;
    if id in mid.table {
      CradledIsOut(mid, id);
      PinnedFrame(mid, steps[i..], id);
    }
  }

  lemma NewPageIsGuarded(s: State, t: Tid, logical: nat)
    requires Reachable(s) && CanNewPage(s, t, logical)
    ensures Inv(DoNewPage(s, t, logical, true)) && Guarded(DoNewPage(s, t, logical, true), s.nextId)
  {
    hide Inv, Reachable, ChosenBorn, Cradled, DoNewPage, CanNewPage;
    ReachableInv(s);
    ReachableChosenBorn(s);
    BirthCradles(s, t, logical);
    AllocKeepsInv(s, NewPage(t, logical, true));
  }

  lemma CradledIsOut(s: State, id: PageId)
    requires Guarded(s, id) && id in s.table
    ensures Sheltered(s, id)
  {}

  lemma ReachableChosenBorn(s: State)
    requires Reachable(s)
    ensures ChosenBorn(s)
  {
    hide ChosenBorn, Init, After;
    var s0, steps :| Init(s0) && After(s0, steps) == Some(s);
    RunKeepsChosenBorn(s0, steps);
  }
}
