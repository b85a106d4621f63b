/** What the steps of the protocol leave alone: the extent size, the size of the
    store and its budget's limits always; the births but for a new page; the
    searches for victims but for a search. */
module ProtocolFrames {
  import opened Pages
  import opened Budgets
  import opened Protocol

  predicate SameLimits(a: Budget, b: Budget) {
    a.limit == b.limit && a.reserve == b.reserve
  }

  predicate Steady(s: State, s': State) {
    s'.pageSize == s.pageSize && |s'.store| == |s.store| && SameLimits(s.nvme, s'.nvme)
  }

  lemma AllocSteady(s: State, step: AllocStep)
    requires AllocEnabled(s, step)
    ensures Steady(s, ApplyAlloc(s, step)) && ApplyAlloc(s, step).cands == s.cands
    ensures step.NewPage? ==> step.logical > 0 && s.pageSize > 0
    ensures ApplyAlloc(s, step).born == if step.NewPage? then
      s.born[s.nextId := Birth(AllocationSize(step.logical, s.pageSize), step.t)] else s.born
  {
    hide Checksum, Fits, Own, Reown, AllocationSize;
  }

  lemma ClaimSteady(s: State, step: ClaimStep)
    requires ClaimEnabled(s, step)
    ensures Steady(s, ApplyClaim(s, step)) && ApplyClaim(s, step).cands == s.cands && ApplyClaim(s, step).born == s.born
  {
    hide Fits, Own, Reown, Moved;
  }

  lemma CopySteady(s: State, step: CopyStep)
    requires CopyEnabled(s, step)
    ensures Steady(s, ApplyCopy(s, step)) && ApplyCopy(s, step).cands == s.cands && ApplyCopy(s, step).born == s.born
  {
    hide Charge, Refund, CompletedPage, FailedPage, FreeBuffer, PutBuffer, PutRange, SourceData;
  }

  lemma AccessSteady(s: State, step: AccessStep)
    requires AccessEnabled(s, step)
    ensures Steady(s, ApplyAccess(s, step)) && ApplyAccess(s, step).cands == s.cands
    ensures ApplyAccess(s, step).born == s.born
  {
    hide Checksum, FreeBuffer, PutBuffer, Disown, Moved;
  }

  lemma FreeSteady(s: State, step: FreeStep)
    requires FreeEnabled(s, step)
    ensures Steady(s, ApplyFree(s, step)) && ApplyFree(s, step).cands == s.cands && ApplyFree(s, step).born == s.born
  {
    hide FreeBuffer, Disown, Moved;
  }

  lemma SearchSteady(s: State, step: SearchStep)
    ensures Steady(s, ApplySearch(s, step)) && ApplySearch(s, step).born == s.born
  {}

  predicate Bears(step: Step) {
    step.Allocating? && step.a.NewPage?
  }

  lemma StepSteady(s: State, step: Step)
    requires Enabled(s, step)
    ensures Steady(s, Apply(s, step))
    ensures !step.Searching? ==> Apply(s, step).cands == s.cands
    ensures Bears(step) ==> step.a.logical > 0 && s.pageSize > 0
    ensures Apply(s, step).born == if Bears(step) then
      s.born[s.nextId := Birth(AllocationSize(step.a.logical, s.pageSize), step.a.t)] else s.born
  {
    hide ApplyAlloc, ApplyClaim, ApplyCopy, ApplyAccess, ApplyFree, ApplySearch, AllocationSize, Steady;
    hide AllocEnabled, ClaimEnabled, CopyEnabled, AccessEnabled, FreeEnabled, SearchEnabled;
    match step {
      case Allocating(a) => AllocSteady(s, a);
      case Claiming(c) => ClaimSteady(s, c);
      case Copying(k) => CopySteady(s, k);
      case Accessing(x) => AccessSteady(s, x);
      case Freeing(f) => FreeSteady(s, f);
      case Searching(v) => SearchSteady(s, v);
    }
  }
}
