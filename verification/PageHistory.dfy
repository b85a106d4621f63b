/** What the marks in a page's entry say about the run that led to them: whether
    the store has its bytes, whether it is dirty or pinned, when and how often it
    was used. */
module PageHistory {
  import opened Collections
  import opened Pages
  import opened Policy
  import opened Protocol
  import opened Budgets
  import opened Refinement

  /** What a step did to one page, as far as the marks go. */
  datatype Note = Inserted(pinned: bool) | Stored | Written | Seen | RangeLost | PinSet(pinned: bool) | Nothing

  function NoteOf(s: State, step: Step, id: PageId): Note
    requires Enabled(s, step)
  {
    match step
    case Allocating(InsertVram(t)) => if s.locals[t].id == id then Inserted(s.locals[t].pinned) else Nothing
    case Allocating(InsertHost(t, _)) => if s.locals[t].id == id then Inserted(s.locals[t].pinned) else Nothing
    case Allocating(InsertNvme(t, _)) => if s.locals[t].id == id then Inserted(s.locals[t].pinned) else Nothing
    case Copying(Complete(t, _)) => if s.locals[t].id == id && s.locals[t].move.ToNvme? then Stored else Nothing
    case Accessing(Write(_, i, _)) => if i == id then Written else Nothing
    case Accessing(Read(_, i)) => if i == id then Seen else Nothing
    case Accessing(Reclaim(_, i)) => if i == id then RangeLost else Nothing
    case Accessing(Pin(_, i, pinned)) => if i == id then PinSet(pinned) else Nothing
    case Freeing(ClearRange(t)) => if s.locals[t].id == id then RangeLost else Nothing
    case _ => Nothing
  }

  predicate IsAccess(step: Step) {
    step.Accessing? && (step.x.Write? || step.x.Read?)
  }

  // ------------------------------------------------------------ one step's marks

  /** The tier of a page at rest outside host memory is that of its residence. */
  predicate TierFits(p: Page) {
    (p.state.ResidentVram? ==> p.tier == Vram) && (p.state.ResidentNvme? ==> p.tier == Nvme)
    && (p.state.Released? ==> p.tier == NoTier)
  }

  /** The marks of `q`, after a step with note `n` from an entry `p`. */
  predicate Marked(p: Option<Page>, q: Page, n: Note, now: nat) {
    && (p.None? ==> n.Inserted?)
    && (n.Inserted? ==> !q.hasCopy && !q.dirty && q.pinned == n.pinned && q.lastAccess == 0 && q.accessCount == 0)
    && (!n.Inserted? && p.Some? ==>
          && q.hasCopy == (n.Stored? || (p.value.hasCopy && !n.Written? && !n.RangeLost?))
          && q.dirty == (n.Written? || (p.value.dirty && !n.Stored?))
          && q.pinned == (if n.PinSet? then n.pinned else p.value.pinned)
          && q.lastAccess == (if n.Written? || n.Seen? then now else p.value.lastAccess)
          && q.accessCount == p.value.accessCount + if n.Written? || n.Seen? then 1 else 0)
    && ((p.Some? ==> TierFits(p.value)) ==> TierFits(q))
  }

  function EntryOf(s: State, id: PageId): Option<Page> {
    if id in s.table then Some(s.table[id]) else None
  }

  /** The step leaves its marks on the page, if it is there afterwards. */
  predicate LeavesMarks(s: State, s': State, n: Note, id: PageId) {
    id in s'.table ==> Marked(EntryOf(s, id), s'.table[id], n, s'.accessSeq)
  }

  lemma AllocMarks(s: State, a: AllocStep, id: PageId)
    requires AllocEnabled(s, a)
    ensures LeavesMarks(s, ApplyAlloc(s, a), NoteOf(s, Allocating(a), id), id)
    ensures ApplyAlloc(s, a).accessSeq == s.accessSeq
  {
    hide Own, Reown, Charge, Refund, Fits, AllocationSize, Extents;
  }

  lemma ClaimMarks(s: State, c: ClaimStep, id: PageId)
    requires ClaimEnabled(s, c)
    ensures LeavesMarks(s, ApplyClaim(s, c), Nothing, id) && ApplyClaim(s, c).accessSeq == s.accessSeq
  {
    hide Own, Reown, Charge, Refund, Fits, Extents;
  }

  lemma CopyMarks(s: State, k: CopyStep, id: PageId)
    requires CopyEnabled(s, k)
    ensures LeavesMarks(s, ApplyCopy(s, k), NoteOf(s, Copying(k), id), id)
    ensures ApplyCopy(s, k).accessSeq == s.accessSeq
  {
    hide Refund, FreeBuffer, PutBuffer, PutRange, SourceData, Extents;
  }

  lemma AccessMarks(s: State, x: AccessStep, id: PageId)
    requires AccessEnabled(s, x)
    ensures LeavesMarks(s, ApplyAccess(s, x), NoteOf(s, Accessing(x), id), id)
    ensures ApplyAccess(s, x).accessSeq == s.accessSeq + if IsAccess(Accessing(x)) then 1 else 0
  {
    hide Checksum, FreeBuffer, PutBuffer, Disown, Refund, Extents;
  }

  lemma FreeMarks(s: State, f: FreeStep, id: PageId)
    requires FreeEnabled(s, f)
    ensures LeavesMarks(s, ApplyFree(s, f), NoteOf(s, Freeing(f), id), id)
    ensures ApplyFree(s, f).accessSeq == s.accessSeq
  {
    hide FreeBuffer, Disown, Refund, Extents;
  }

  lemma StepMarks(s: State, step: Step, id: PageId)
    requires Enabled(s, step)
    ensures LeavesMarks(s, Apply(s, step), NoteOf(s, step, id), id)
    ensures Apply(s, step).accessSeq == s.accessSeq + if IsAccess(step) then 1 else 0
  {
    hide LeavesMarks, ApplyAlloc, ApplyClaim, ApplyCopy, ApplyAccess, ApplyFree, ApplySearch;
    match step {
      case Allocating(a) => AllocMarks(s, a, id);
      case Claiming(c) => ClaimMarks(s, c, id);
      case Copying(k) => CopyMarks(s, k, id);
      case Accessing(x) => AccessMarks(s, x, id);
      case Freeing(f) => FreeMarks(s, f, id);
      case Searching(v) => SearchMarks(s, v, id);
    }
  }

  lemma SearchMarks(s: State, v: SearchStep, id: PageId)
    ensures LeavesMarks(s, ApplySearch(s, v), Nothing, id) && ApplySearch(s, v).accessSeq == s.accessSeq
  {}

  // --------------------------------------------------------------- a whole run

  /** The notes of a run about one page, step by step. */
  function Notes(s: State, steps: seq<Step>, id: PageId): (r: seq<Note>)
    requires After(s, steps).Some?
    ensures |r| == |steps|
  {
    if |steps| == 0 then []
    else
      var before := steps[..|steps| - 1];
      Notes(s, before, id) + [NoteOf(After(s, before).value, steps[|steps| - 1], id)]
  }

  /** Something of `yes` happened, and nothing of `no` since. */
  ghost predicate Since(notes: seq<Note>, yes: set<Note>, no: set<Note>) {
    exists i :: 0 <= i < |notes| && notes[i] in yes && forall j :: i < j < |notes| ==> notes[j] !in no
  }

  lemma SinceSnoc(notes: seq<Note>, n: Note, yes: set<Note>, no: set<Note>)
    ensures Since(notes + [n], yes, no) <==> n in yes || (Since(notes, yes, no) && n !in no)
  {
    var more := notes + [n];
    assert more[|notes|] == n;
    if n in yes { assert Since(more, yes, no); }
    if Since(notes, yes, no) && n !in no {
      var i :| 0 <= i < |notes| && notes[i] in yes && forall j :: i < j < |notes| ==> notes[j] !in no;
      assert more[i] in yes;
    }
    if Since(more, yes, no) && n !in yes {
      var i :| 0 <= i < |more| && more[i] in yes && forall j :: i < j < |more| ==> more[j] !in no;
      assert notes[i] in yes;
      assert forall j :: i < j < |notes| ==> more[j] == notes[j];
    }
  }

  const INSERTIONS: set<Note> := {Inserted(true), Inserted(false)}

  /** The step, from 1, of the latest use since the page was inserted; 0 if it
      has not been used. */
  function LastUse(notes: seq<Note>): (r: nat)
    ensures r <= |notes|
  {
    if |notes| == 0 || notes[|notes| - 1].Inserted? then 0
    else if notes[|notes| - 1].Written? || notes[|notes| - 1].Seen? then |notes|
    else LastUse(notes[..|notes| - 1])
  }

  /** How often it has been used since. */
  function Uses(notes: seq<Note>): nat {
    if |notes| == 0 || notes[|notes| - 1].Inserted? then 0
    else Uses(notes[..|notes| - 1]) + if notes[|notes| - 1].Written? || notes[|notes| - 1].Seen? then 1 else 0
  }

  function Accesses(steps: seq<Step>): nat {
    if |steps| == 0 then 0 else Accesses(steps[..|steps| - 1]) + if IsAccess(steps[|steps| - 1]) then 1 else 0
  }

  /** What the entry of a page has to say about the run. */
  ghost predicate Telling(p: Page, notes: seq<Note>) {
    && (p.hasCopy <==> Since(notes, {Stored}, {Written, RangeLost} + INSERTIONS))
    && (p.dirty <==> Since(notes, {Written}, {Stored} + INSERTIONS))
    && (p.pinned <==> Since(notes, {Inserted(true), PinSet(true)}, {Inserted(false), PinSet(false)}))
    && p.accessCount == Uses(notes)
    && TierFits(p)
  }

  lemma TellingNext(p: Option<Page>, q: Page, notes: seq<Note>, n: Note, now: nat)
    requires Marked(p, q, n, now) && (p.Some? ==> Telling(p.value, notes))
    ensures Telling(q, notes + [n])
  {
    hide Since, TierFits;
    assert (notes + [n])[..|notes|] == notes;
    SinceSnoc(notes, n, {Stored}, {Written, RangeLost} + INSERTIONS);
    SinceSnoc(notes, n, {Written}, {Stored} + INSERTIONS);
    SinceSnoc(notes, n, {Inserted(true), PinSet(true)}, {Inserted(false), PinSet(false)});
    assert n.Inserted? ==> n in INSERTIONS;
    assert n in INSERTIONS ==> n.Inserted?;
  }

  /** Over every run from a start. The store has the bytes of a page if and only
      if a writeback of it completed and it has been neither written nor robbed
      of its range since. It is dirty if and only if it was written and no
      writeback completed since. It is pinned if and only if it was last pinned.
      Its count is that of its uses. All since it was inserted. */
  lemma {:induction false} MarksTellTheRun(s: State, steps: seq<Step>, id: PageId)
    requires Init(s) && After(s, steps).Some? && id in After(s, steps).value.table
    ensures Telling(After(s, steps).value.table[id], Notes(s, steps, id))
    decreases |steps|
  {
    hide Enabled, Apply, NoteOf, Telling, Marked;
    if |steps| > 0 {
      var before := steps[..|steps| - 1];
      var s1, step := After(s, before).value, steps[|steps| - 1];
      StepMarks(s1, step, id);
      if id in s1.table { MarksTellTheRun(s, before, id); }
      TellingNext(EntryOf(s1, id), Apply(s1, step).table[id], Notes(s, before, id), NoteOf(s1, step, id),
                  Apply(s1, step).accessSeq);
    }
  }

  // ------------------------------------------------------------------- recency

  lemma {:induction false} ClockCounts(s: State, steps: seq<Step>)
    requires After(s, steps).Some?
    ensures After(s, steps).value.accessSeq == s.accessSeq + Accesses(steps)
    decreases |steps|
  {
    hide Enabled, Apply, NoteOf, LeavesMarks, IsAccess;
    if |steps| > 0 {
      ClockCounts(s, steps[..|steps| - 1]);
      StepMarks(After(s, steps[..|steps| - 1]).value, steps[|steps| - 1], 0);
    }
  }

  /** The time stamp of a page is that of its latest use. */
  lemma {:induction false} StampIsLastUse(s: State, steps: seq<Step>, id: PageId)
    requires Init(s) && After(s, steps).Some? && id in After(s, steps).value.table
    ensures var last := LastUse(Notes(s, steps, id));
      After(s, steps).value.table[id].lastAccess == if last == 0 then 0 else s.accessSeq + Accesses(steps[..last])
    decreases |steps|
  {
    hide Enabled, Apply, NoteOf;
    if |steps| > 0 {
      var before := steps[..|steps| - 1];
      var s1, step := After(s, before).value, steps[|steps| - 1];
      StepMarks(s1, step, id);
      ClockCounts(s, steps);
      var notes, n := Notes(s, before, id), NoteOf(s1, step, id);
      assert (notes + [n])[..|notes|] == notes && steps[..|steps|] == steps;
      if id in s1.table {
        StampIsLastUse(s, before, id);
        assert before[..LastUse(notes)] == steps[..LastUse(notes)];
      }
    }
  }

  lemma NoteOfAccess(s: State, step: Step, id: PageId)
    requires Enabled(s, step) && (NoteOf(s, step, id).Written? || NoteOf(s, step, id).Seen?)
    ensures IsAccess(step) && step.x.id == id
  {}

  /** The latest use is a step that accesses this page. */
  lemma {:induction false} LastUseIsAccess(s: State, steps: seq<Step>, id: PageId)
    requires After(s, steps).Some? && LastUse(Notes(s, steps, id)) > 0
    ensures var last := LastUse(Notes(s, steps, id)); IsAccess(steps[last - 1]) && steps[last - 1].x.id == id
    decreases |steps|
  {
    hide Enabled, Apply, NoteOf, IsAccess;
    var before := steps[..|steps| - 1];
    var s1, step := After(s, before).value, steps[|steps| - 1];
    var notes, n := Notes(s, before, id), NoteOf(s1, step, id);
    assert (notes + [n])[..|notes|] == notes;
    if n.Written? || n.Seen? { NoteOfAccess(s1, step, id); } else { LastUseIsAccess(s, before, id); }
  }

  lemma {:induction false} LaterIsMore(steps: seq<Step>, i: nat, j: nat)
    requires i <= j <= |steps|
    ensures Accesses(steps[..i]) <= Accesses(steps[..j])
    ensures i < j && IsAccess(steps[j - 1]) ==> Accesses(steps[..i]) < Accesses(steps[..j])
    decreases j - i
  {
    if i < j {
      LaterIsMore(steps, i, j - 1);
      assert steps[..j][..j - 1] == steps[..j - 1];
    }
  }

  /** Stamps order pages as their latest uses do: one page's is the older exactly
      when it was used less recently, pages not used at all coming first. */
  lemma StampsOrderUses(s: State, steps: seq<Step>, a: PageId, b: PageId)
    requires Init(s) && After(s, steps).Some?
    requires a in After(s, steps).value.table && b in After(s, steps).value.table
    ensures var t := After(s, steps).value.table;
      t[a].lastAccess < t[b].lastAccess <==> LastUse(Notes(s, steps, a)) < LastUse(Notes(s, steps, b))
  {
    hide After, Notes, LastUse;
    StampIsLastUse(s, steps, a);
    StampIsLastUse(s, steps, b);
    var x, y := LastUse(Notes(s, steps, a)), LastUse(Notes(s, steps, b));
    if x > 0 { UseCounts(s, steps, a); }
    if y > 0 { UseCounts(s, steps, b); }
    if x < y { LaterIsMore(steps, x, y); } else { LaterIsMore(steps, y, x); }
  }

  lemma UseCounts(s: State, steps: seq<Step>, id: PageId)
    requires After(s, steps).Some? && LastUse(Notes(s, steps, id)) > 0
    ensures var last := LastUse(Notes(s, steps, id)); IsAccess(steps[last - 1]) && Accesses(steps[..last]) > 0
  {
    hide After, Notes, LastUse;
    LastUseIsAccess(s, steps, id);
    LaterIsMore(steps, 0, LastUse(Notes(s, steps, id)));
  }

  /** The first victim under LRU is the candidate used least recently in the run
      that led here. */
  lemma LruTakesLeastRecentlyUsed(s: State, steps: seq<Step>, candidates: seq<Page>, p: Page)
    requires Init(s) && After(s, steps).Some? && Distinct(candidates) && p in candidates
    requires forall q :: q in candidates ==> q.id in After(s, steps).value.table && After(s, steps).value.table[q.id] == q
    ensures |Rank(LruKey, candidates)| > 0 && var v := Rank(LruKey, candidates)[0];
      v in candidates && LastUse(Notes(s, steps, v.id)) <= LastUse(Notes(s, steps, p.id))
  {
    hide After, Notes, LastUse, Rank, Distinct;
    LruTakesTheOldest(candidates, p);
    var v := Rank(LruKey, candidates)[0];
    StampsOrderUses(s, steps, p.id, v.id);
  }
}
