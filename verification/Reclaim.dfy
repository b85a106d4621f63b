/** Reclaiming cached extents (`reserve_nvme_range_locked` in
    src/runtime.cpp): which pages give theirs up, and what that can achieve. */
module Reclaim {
  import opened Collections
  import opened Pages
  import opened Budgets
  import opened Protocol
  import opened ProtocolInvariant
  import opened ProtocolSafety

  /** The pages whose cached range may be taken, all but one that is excluded:
      resident in memory, so not dependent on the store, and not in transfer. */
  function Targets(table: map<PageId, Page>, exclude: PageId): set<PageId> {
    set id | id in table && id != exclude && Reclaimable(table[id])
  }

  ghost function Bytes(s: State, gone: set<PageId>): map<nat, nat>
    requires gone <= s.table.Keys
  {
    map id | id in gone :: s.table[id].size
  }

  /** The state once exactly the pages of `gone` have given up their ranges, in
      whatever order. */
  ghost function Reclaimed(s: State, gone: set<PageId>): State
    requires gone <= s.table.Keys && Total(Bytes(s, gone)) <= s.nvme.used
  {
    s.(ext := map e | e in s.ext && s.ext[e] !in gone :: s.ext[e],
       nvme := s.nvme.(used := s.nvme.used - Total(Bytes(s, gone))),
       table := map id | id in s.table :: if id in gone then WithoutCachedCopy(s.table[id]) else s.table[id])
  }

  /** A range of `n` extents and `bytes` of budget are to be had. */
  predicate FreeRun(ext: map<nat, PageId>, total: nat, first: nat, n: nat) {
    first + n <= total && forall e :: first <= e < first + n ==> e !in ext
  }

  ghost predicate Obtainable(s: State, n: nat, bytes: nat) {
    Fits(s.nvme, bytes) && exists first: nat :: FreeRun(s.ext, |s.store|, first, n)
  }

  lemma NoneReleased(s: State)
    ensures Total(Bytes(s, {})) == 0 && Reclaimed(s, {}) == s
  {
    assert Bytes(s, {}) == map[];
    assert Reclaimed(s, {}).ext == s.ext;
    assert Reclaimed(s, {}).table == s.table;
  }

  lemma BytesGrow(s: State, gone: set<PageId>, id: PageId)
    requires gone <= s.table.Keys && id in s.table && id !in gone
    ensures Total(Bytes(s, gone + {id})) == Total(Bytes(s, gone)) + s.table[id].size
  {
    TotalRemove(Bytes(s, gone + {id}), id);
    assert Bytes(s, gone + {id}) - {id} == Bytes(s, gone);
  }

  /** The range of a page that can be reclaimed is exactly what it owns. */
  lemma OwnsWhatItNames(s: State, id: PageId)
    requires Inv(s) && id in s.table && Reclaimable(s.table[id])
    ensures OwnsRange(s.ext, id, s.table[id].offset, Extents(s.table[id].size, s.pageSize))
  {
    hide Structure, Ledger, Holds, OwnsRange, Authoritative, TargetData, Shape;
    StructureAt(s, id, 0);
  }

  /** One round of the loop takes one more page into the released ones. */
  lemma ReleaseOne(s: State, gone: set<PageId>, t: Tid, id: PageId)
    requires gone <= s.table.Keys && id in s.table && id !in gone && Total(Bytes(s, gone)) <= s.nvme.used
    requires CanReclaim(Reclaimed(s, gone), t, id) && s.table[id].size <= Reclaimed(s, gone).nvme.used
    requires OwnsRange(s.ext, id, s.table[id].offset, Extents(s.table[id].size, s.pageSize))
    ensures Total(Bytes(s, gone + {id})) <= s.nvme.used
    ensures DoReclaim(Reclaimed(s, gone), t, id) == Reclaimed(s, gone + {id})
  {
    hide Total, Bytes, Extents;
    BytesGrow(s, gone, id);
    var a, b := DoReclaim(Reclaimed(s, gone), t, id), Reclaimed(s, gone + {id});
    assert a.ext == b.ext;
    assert a.table == b.table;
    assert a.nvme == b.nvme;
  }

  /** Releasing more never makes a reservation harder. */
  lemma ReleasingHelps(s: State, gone: set<PageId>, more: set<PageId>, n: nat, bytes: nat)
    requires gone <= more <= s.table.Keys && Total(Bytes(s, more)) <= s.nvme.used
    ensures Total(Bytes(s, gone)) <= s.nvme.used
    ensures Obtainable(Reclaimed(s, gone), n, bytes) ==> Obtainable(Reclaimed(s, more), n, bytes)
  {
    BytesMonotone(s, gone, more);
    hide Total, Bytes;
    if Obtainable(Reclaimed(s, gone), n, bytes) {
      var first: nat :| FreeRun(Reclaimed(s, gone).ext, |s.store|, first, n);
      WindowBefore(s, gone, first, n);
      WindowBefore(s, more, first, n);
      assert FreeRun(Reclaimed(s, more).ext, |s.store|, first, n);
    }
  }

  lemma {:induction false} BytesMonotone(s: State, gone: set<PageId>, more: set<PageId>)
    requires gone <= more <= s.table.Keys
    ensures Total(Bytes(s, gone)) <= Total(Bytes(s, more))
    decreases more
  {
    if gone != more {
      var id :| id in more && id !in gone;
      var less := more - {id};
      assert more == less + {id};
      BytesMonotone(s, gone, less);
      BytesGrow(s, less, id);
    } else {
      assert gone == more;
    }
  }

  /** The extents from `first` are free or owned by pages of `gone`. */
  predicate Window(s: State, gone: set<PageId>, first: nat, n: nat) {
    first + n <= |s.store| && forall e :: first <= e < first + n && e in s.ext ==> s.ext[e] in gone
  }

  /** In terms of the state before any release: some window of `n` extents
      holds only free extents and extents of pages that can be reclaimed. */
  lemma WindowBefore(s: State, gone: set<PageId>, first: nat, n: nat)
    requires gone <= s.table.Keys && Total(Bytes(s, gone)) <= s.nvme.used
    ensures FreeRun(Reclaimed(s, gone).ext, |s.store|, first, n)
      <==> Window(s, gone, first, n)
  {
    hide Total, Bytes;
    var ext := Reclaimed(s, gone).ext;
    assert forall e :: e in ext <==> e in s.ext && s.ext[e] !in gone;
    if FreeRun(ext, |s.store|, first, n) {
      forall e | first <= e < first + n ensures e in s.ext ==> s.ext[e] in gone {
        assert e !in ext;
      }
    }
    if Window(s, gone, first, n) {
      forall e | first <= e < first + n ensures e !in ext {
        assert e in s.ext ==> s.ext[e] in gone;
      }
    }
  }

  /** The pages of `gone` can all be released: the usage covers their sizes
      and the protocol's invariant holds afterwards. */
  ghost predicate Releasable(s: State, exclude: PageId, gone: set<PageId>) {
    gone <= Targets(s.table, exclude) && Total(Bytes(s, gone)) <= s.nvme.used && Inv(Reclaimed(s, gone))
  }

  /** Whatever set of cached ranges is chosen. */
  lemma {:induction false} AllReleasable(s: State, exclude: PageId, gone: set<PageId>, t: Tid)
    requires gone <= Targets(s.table, exclude) && (Idle(s, t) || IsBorn(s, t)) && Inv(s)
    ensures Releasable(s, exclude, gone)
    decreases gone
  {
    hide Inv;
    if gone == {} {
      NoneReleased(s);
    } else {
      hide Releasable, Targets;
      var id :| id in gone;
      var less := gone - {id};
      AllReleasable(s, exclude, less, t);
      OneMore(s, exclude, less, t, id);
      assert gone == less + {id};
    }
  }

  lemma OneMore(s: State, exclude: PageId, gone: set<PageId>, t: Tid, id: PageId)
    requires Releasable(s, exclude, gone) && id in Targets(s.table, exclude) && id !in gone
    requires (Idle(s, t) || IsBorn(s, t)) && Inv(s)
    ensures Releasable(s, exclude, gone + {id}) && CanReclaim(Reclaimed(s, gone), t, id)
    ensures DoReclaim(Reclaimed(s, gone), t, id) == Reclaimed(s, gone + {id})
  {
    hide Inv, Total, Bytes, Extents, OwnsRange;
    var s1 := Reclaimed(s, gone);
    assert s1.table[id] == s.table[id] && s1.locals == s.locals;
    StepKeepsInv(s1, Accessing(Protocol.Reclaim(t, id)));
    AccessNeverThrows(s1, Protocol.Reclaim(t, id));
    OwnsWhatItNames(s, id);
    ReleaseOne(s, gone, t, id);
  }

  // ------------------------------------------------------------------- order

  /** The order of (offset, id) pairs. */
  predicate Before(table: map<PageId, Page>, a: PageId, b: PageId)
    requires a in table && b in table && table[a].offset.Some? && table[b].offset.Some?
  {
    table[a].offset.value < table[b].offset.value || (table[a].offset.value == table[b].offset.value && a <= b)
  }

  predicate Cached(table: map<PageId, Page>, ids: set<PageId>) {
    forall id :: id in ids ==> id in table && table[id].offset.Some?
  }

  lemma {:induction false} FirstExists(table: map<PageId, Page>, ids: set<PageId>) returns (first: PageId)
    requires ids != {} && Cached(table, ids)
    ensures first in ids && forall b :: b in ids ==> Before(table, first, b)
    decreases ids
  {
    var any :| any in ids;
    var rest := ids - {any};
    first := any;
    if rest != {} {
      var other := FirstExists(table, rest);
      first := if Before(table, other, any) then other else any;
    }
    forall b | b in ids ensures Before(table, first, b) {
      assert b == any || b in rest;
    }
  }

  ghost predicate InOrder(table: map<PageId, Page>, order: seq<PageId>) {
    && (forall i :: 0 <= i < |order| ==> order[i] in table && table[order[i]].offset.Some?)
    && (forall i, j :: 0 <= i < j < |order| ==> order[i] != order[j] && Before(table, order[i], order[j]))
  }

  /** `std::sort` over the (offset, id) pairs. */
  method SortedByOffset(table: map<PageId, Page>, ids: set<PageId>) returns (order: seq<PageId>)
    requires Cached(table, ids)
    ensures InOrder(table, order) && forall id :: id in order <==> id in ids
    ensures forall i, j :: 0 <= i < j < |order| ==>
      var x, y := table[order[i]].offset.value, table[order[j]].offset.value;
      x <= y && (x == y ==> order[i] < order[j])
  {
    order := [];
    var rest := ids;
    while rest != {}
      invariant rest <= ids && InOrder(table, order)
      invariant forall id :: id in order <==> id in ids - rest
      invariant forall i, b :: 0 <= i < |order| && b in rest ==> Before(table, order[i], b)
      decreases rest
    {
      ghost var _ := FirstExists(table, rest);
      var first :| first in rest && forall b :: b in rest ==> Before(table, first, b);
      assert first !in order;
      order, rest := order + [first], rest - {first};
    }
  }

  /** The pages released after `i` rounds. */
  function Prefix(order: seq<PageId>, i: nat): set<PageId>
    requires i <= |order|
  {
    set id | id in order[..i]
  }

  lemma PrefixGrows(table: map<PageId, Page>, order: seq<PageId>, i: nat)
    requires InOrder(table, order) && i < |order|
    ensures order[i] !in Prefix(order, i) && Prefix(order, i + 1) == Prefix(order, i) + {order[i]}
  {
    assert order[..i + 1] == order[..i] + [order[i]];
  }

  lemma PrefixTaken(order: seq<PageId>, i: nat)
    requires i <= |order|
    ensures Prefix(order[..i], |order[..i]|) == Prefix(order, i)
  {
    assert order[..i][..i] == order[..i];
  }

  lemma PrefixWhole(order: seq<PageId>, ids: set<PageId>)
    requires forall id :: id in order <==> id in ids
    ensures Prefix(order, |order|) == ids && Prefix(order, 0) == {}
  {
    assert order[..|order|] == order;
  }

  /** `released` are pages of `ids`, lowest offset first, and whatever of `ids`
      is not among them lies higher. */
  ghost predicate LowestFirst(table: map<PageId, Page>, ids: set<PageId>, released: seq<PageId>) {
    && Cached(table, ids) && (forall id :: id in released ==> id in ids)
    && (forall i, j :: 0 <= i < j < |released| ==>
          released[i] != released[j] && table[released[i]].offset.value <= table[released[j]].offset.value)
    && (forall i, b :: 0 <= i < |released| && b in ids && b !in released ==>
          table[released[i]].offset.value <= table[b].offset.value)
  }

  lemma PrefixIsLowest(table: map<PageId, Page>, ids: set<PageId>, order: seq<PageId>, i: nat)
    requires InOrder(table, order) && Cached(table, ids) && (forall id :: id in order <==> id in ids) && i <= |order|
    ensures LowestFirst(table, ids, order[..i])
  {
    var done := order[..i];
    assert forall j :: 0 <= j < i ==> order[j] in done;
    forall k, b | 0 <= k < |done| && b in ids && b !in done
      ensures table[done[k]].offset.value <= table[b].offset.value
    {
      var j :| 0 <= j < |order| && order[j] == b;
      assert Before(table, order[k], order[j]);
    }
    assert forall k, l :: 0 <= k < l < i ==> Before(table, order[k], order[l]);
  }

  /** With these pages released a reservation still fails. */
  ghost predicate Hopeless(s: State, exclude: PageId, gone: set<PageId>, n: nat, bytes: nat) {
    Releasable(s, exclude, gone) && !Obtainable(Reclaimed(s, gone), n, bytes)
  }

  /** Every attempt before the last release failed. */
  ghost predicate NoSooner(s: State, exclude: PageId, released: seq<PageId>, n: nat, bytes: nat) {
    forall j :: 0 <= j < |released| ==> Hopeless(s, exclude, Prefix(released, j), n, bytes)
  }

  lemma NothingSooner(s: State, exclude: PageId, n: nat, bytes: nat, order: seq<PageId>)
    ensures order[..0] == [] && NoSooner(s, exclude, order[..0], n, bytes)
  {}

  lemma NoSoonerNext(s: State, exclude: PageId, order: seq<PageId>, i: nat, now: State, n: nat, bytes: nat)
    requires i < |order| && NoSooner(s, exclude, order[..i], n, bytes)
    requires Standing(s, exclude, Prefix(order, i), now) && !Obtainable(now, n, bytes)
    ensures NoSooner(s, exclude, order[..i + 1], n, bytes)
  {
    var next := order[..i + 1];
    assert Hopeless(s, exclude, Prefix(order, i), n, bytes);
    hide Hopeless, Standing;
    forall j | 0 <= j < |next| ensures Hopeless(s, exclude, Prefix(next, j), n, bytes) {
      assert next[..j] == order[..j];
      if j < i {
        assert order[..i][..j] == order[..j];
        assert Prefix(order[..i], j) == Prefix(next, j);
      } else {
        assert Prefix(next, j) == Prefix(order, i);
      }
    }
  }

  /** Where a reservation stands after some rounds; `now` is the state. */
  ghost predicate Standing(s: State, exclude: PageId, gone: set<PageId>, now: State) {
    Releasable(s, exclude, gone) && now == Reclaimed(s, gone)
  }

  lemma StandingAtFirst(s: State, exclude: PageId, t: Tid)
    requires (Idle(s, t) || IsBorn(s, t)) && Inv(s)
    ensures Standing(s, exclude, {}, s) && Releasable(s, exclude, Targets(s.table, exclude))
  {
    hide Inv, Total, Bytes;
    AllReleasable(s, exclude, {}, t);
    AllReleasable(s, exclude, Targets(s.table, exclude), t);
    NoneReleased(s);
  }

  lemma StandingNext(s: State, exclude: PageId, gone: set<PageId>, now: State, t: Tid, id: PageId)
    requires Standing(s, exclude, gone, now) && id in Targets(s.table, exclude) && id !in gone
    requires (Idle(s, t) || IsBorn(s, t)) && Inv(s)
    ensures CanReclaim(now, t, id) && Standing(s, exclude, gone + {id}, DoReclaim(now, t, id))
  {
    hide Inv, Total, Bytes, DoReclaim, Reclaimed;
    OneMore(s, exclude, gone, t, id);
  }

  /** What is obtainable now is obtainable once everything has been released;
      after the last round the two are the same. */
  lemma StandingDecides(s: State, exclude: PageId, gone: set<PageId>, now: State, n: nat, bytes: nat)
    requires Standing(s, exclude, gone, now) && Releasable(s, exclude, Targets(s.table, exclude))
    ensures Obtainable(now, n, bytes) ==> Obtainable(Reclaimed(s, Targets(s.table, exclude)), n, bytes)
    ensures gone == Targets(s.table, exclude) ==>
      (Obtainable(now, n, bytes) <==> Obtainable(Reclaimed(s, Targets(s.table, exclude)), n, bytes))
  {
    hide Inv, Total, Bytes, Reclaimed, Obtainable;
    ReleasingHelps(s, gone, Targets(s.table, exclude), n, bytes);
  }
}
