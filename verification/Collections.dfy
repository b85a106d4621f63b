/** Small vocabulary shared by every module: optional values, finite sums over
    maps, and slices of the extent store. */
module Collections {

  datatype Option<+T> = None | Some(value: T)

  // ---------------------------------------------------------------- sums

  /** The sum of all values of a finite map; the unit of every ledger below. */
  ghost function Total(m: map<nat, nat>): nat {
    if m == map[] then 0
    else
      var k :| k in m;
      m[k] + Total(m - {k})
  }

  /** The sum does not depend on the order in which keys are taken out. */
  lemma {:induction false} TotalRemove(m: map<nat, nat>, k: nat)
    requires k in m
    ensures Total(m) == m[k] + Total(m - {k})
    decreases |m|
  {
    var j :| j in m && Total(m) == m[j] + Total(m - {j});
    if j != k {
      var rest := m - {j};
      assert |rest.Keys| < |m.Keys| by { assert rest.Keys == m.Keys - {j}; }
      TotalRemove(rest, k);
      var other := m - {k};
      assert |other.Keys| < |m.Keys| by { assert other.Keys == m.Keys - {k}; }
      TotalRemove(other, j);
      assert rest - {k} == other - {j};
    }
  }

  function Get(m: map<nat, nat>, k: nat): nat {
    if k in m then m[k] else 0
  }

  ghost predicate AgreeOff(m: map<nat, nat>, m': map<nat, nat>, k: nat) {
    && (forall i :: i in m && i != k ==> i in m' && m'[i] == m[i])
    && (forall i :: i in m' && i != k ==> i in m)
  }

  /** Two maps that agree off one key differ in total by that key's change. */
  lemma TotalChange(m: map<nat, nat>, m': map<nat, nat>, k: nat)
    requires AgreeOff(m, m', k)
    ensures Total(m') + Get(m, k) == Total(m) + Get(m', k)
  {
    assert m - {k} == m' - {k};
    if k in m { TotalRemove(m, k); } else { assert m - {k} == m; }
    if k in m' { TotalRemove(m', k); } else { assert m' - {k} == m'; }
  }

  lemma TotalAtLeast(m: map<nat, nat>, k: nat)
    requires k in m
    ensures m[k] <= Total(m)
  {
    TotalRemove(m, k);
  }

  // -------------------------------------------------------------- slices

  function Slice<T>(s: seq<T>, first: nat, n: nat): seq<T> {
    if first + n <= |s| then s[first..first + n] else []
  }

  function Splice<T>(s: seq<T>, first: nat, data: seq<T>): (r: seq<T>)
    requires first + |data| <= |s|
    ensures |r| == |s|
  {
    s[..first] + data + s[first + |data|..]
  }

  lemma SliceOfSplice<T>(s: seq<T>, first: nat, data: seq<T>)
    requires first + |data| <= |s|
    ensures Slice(Splice(s, first, data), first, |data|) == data
    ensures forall e: nat {:trigger Splice(s, first, data)[e]} ::
      e < |s| && !(first <= e < first + |data|) ==> Splice(s, first, data)[e] == s[e]
  {}

  lemma SliceFrame<T>(s: seq<T>, s': seq<T>, first: nat, n: nat)
    requires |s| == |s'|
    requires forall e: nat {:trigger s[e]} {:trigger s'[e]} :: first <= e < first + n && e < |s| ==> s[e] == s'[e]
    ensures Slice(s, first, n) == Slice(s', first, n)
  {
    if first + n <= |s| {
      assert s[first..first + n] == s'[first..first + n];
    }
  }

  // ---------------------------------------------------------- multiplication

  lemma MulMonotone(a: int, b: int, d: nat)
    requires a <= b
    ensures a * d <= b * d
  {
    assert (b - a) * d >= 0;
  }
}
