/** Next-use annotation of an access trace (src/workload.cpp). */
module Workload {

  datatype TraceAccess = TraceAccess(pageId: nat, write: bool, nextUseDistance: nat)

  /** `d` is how far the next access to the same page lies ahead, zero when
      there is none. */
  predicate NextUse(ids: seq<nat>, i: nat, d: nat)
    requires i < |ids|
  {
    if d == 0 then forall j :: i < j < |ids| ==> ids[j] != ids[i]
    else i + d < |ids| && ids[i + d] == ids[i] && forall j :: i < j < i + d ==> ids[j] != ids[i]
  }

  /** The first access to each page at or after position `i`. */
  ghost predicate FirstFrom(ids: seq<nat>, i: nat, next: map<nat, nat>) {
    && (forall p :: p in next ==> i <= next[p] < |ids| && ids[next[p]] == p)
    && (forall j :: i <= j < |ids| ==> ids[j] in next && next[ids[j]] <= j)
  }

  /** `annotate_next_use`: one pass backwards for the distances, one forwards. */
  method AnnotateNextUse(ids: seq<nat>) returns (out: seq<TraceAccess>)
    ensures |out| == |ids|
    ensures forall i :: 0 <= i < |ids| ==>
      out[i].pageId == ids[i] && !out[i].write && NextUse(ids, i, out[i].nextUseDistance)
  {
    var last := new nat[|ids|](_ => 0);
    var next: map<nat, nat> := map[];
    var i := |ids|;
    while i > 0
      invariant 0 <= i <= |ids| && FirstFrom(ids, i, next)
      invariant forall k :: i <= k < |ids| ==> NextUse(ids, k, last[k])
    {
      i := i - 1;
      if ids[i] in next {
        last[i] := next[ids[i]] - i;
      } else {
        last[i] := 0;
      }
      next := next[ids[i] := i];
    }
    out := [];
    for k := 0 to |ids|
      invariant |out| == k
      invariant forall j :: 0 <= j < k ==>
        out[j].pageId == ids[j] && !out[j].write && out[j].nextUseDistance == last[j]
    {
      out := out + [TraceAccess(ids[k], false, last[k])];
    }
  }
}
