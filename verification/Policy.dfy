/** Victim ranking (src/policy.cpp). Both policies sort the candidates by a
    score, lowest first, and break ties by page id; they differ in the score. */
module Policy {
  import opened Pages

  /** The comparator of `rank_victims`. */
  predicate Precedes(key: Page -> real, a: Page, b: Page) {
    key(a) < key(b) || (key(a) == key(b) && a.id < b.id)
  }

  /** `LruPolicy`: the access recorded longest ago scores lowest. */
  function LruKey(p: Page): real {
    p.lastAccess as real
  }

  predicate Distinct(s: seq<Page>) {
    forall i, j :: 0 <= i < j < |s| ==> s[i].id != s[j].id
  }

  predicate Sorted(key: Page -> real, s: seq<Page>) {
    forall i, j :: 0 <= i < j < |s| ==> !Precedes(key, s[j], s[i])
  }

  /** Keeping the order, `p` goes before the first that does not precede it. */
  function Insert(key: Page -> real, p: Page, s: seq<Page>): (r: seq<Page>)
    ensures multiset(r) == multiset{p} + multiset(s)
  {
    if |s| == 0 then [p]
    else if Precedes(key, s[0], p) then
      assert s == [s[0]] + s[1..];
      [s[0]] + Insert(key, p, s[1..])
    else [p] + s
  }

  function Rank(key: Page -> real, s: seq<Page>): (r: seq<Page>)
    ensures multiset(r) == multiset(s)
  {
    if |s| == 0 then [] else
      assert s == [s[0]] + s[1..];
      Insert(key, s[0], Rank(key, s[1..]))
  }

  lemma SameMembers(a: seq<Page>, b: seq<Page>)
    requires multiset(a) == multiset(b)
    ensures forall p :: p in a <==> p in b
  {
    forall p ensures p in a <==> p in b {
      assert p in multiset(a) <==> p in multiset(b);
    }
  }

  lemma {:induction false} InsertSorted(key: Page -> real, p: Page, s: seq<Page>)
    requires Sorted(key, s)
    ensures Sorted(key, Insert(key, p, s))
  {
    if |s| > 0 {
      if Precedes(key, s[0], p) {
        assert s == [s[0]] + s[1..];
        InsertSorted(key, p, s[1..]);
        var r := Insert(key, p, s[1..]);
        forall q | q in r ensures !Precedes(key, q, s[0]) {
          assert q in multiset(r);
          assert q == p || q in s[1..];
        }
      }
    }
  }

  /** The ranking loses or repeats nobody, and runs from the lowest score to the
      highest, equal scores by id. */
  lemma {:induction false} RankSorts(key: Page -> real, s: seq<Page>)
    ensures Sorted(key, Rank(key, s)) && multiset(Rank(key, s)) == multiset(s)
    ensures forall i, j :: 0 <= i < j < |Rank(key, s)| ==>
      var a, b := Rank(key, s)[i], Rank(key, s)[j]; key(a) <= key(b) && (key(a) == key(b) ==> a.id <= b.id)
  {
    if |s| > 0 {
      RankSorts(key, s[1..]);
      InsertSorted(key, s[0], Rank(key, s[1..]));
    }
  }

  lemma {:induction false} DistinctPermuted(a: seq<Page>, b: seq<Page>)
    requires multiset(a) == multiset(b) && Distinct(a)
    ensures Distinct(b)
  {
    SameMembers(a, b);
    forall i, j | 0 <= i < j < |b| ensures b[i].id != b[j].id {
      if b[i] == b[j] {
        assert b == b[..i] + [b[i]] + b[i + 1..j] + [b[j]] + b[j + 1..];
        assert multiset(b)[b[i]] >= 2;
        Once(a, b[i]);
      } else {
        assert b[i] in b && b[j] in b;
      }
    }
  }

  lemma {:induction false} Once(a: seq<Page>, p: Page)
    requires Distinct(a)
    ensures multiset(a)[p] <= 1
  {
    if p in a {
      var k :| 0 <= k < |a| && a[k] == p;
      assert a == a[..k] + [p] + a[k + 1..];
      assert p !in a[..k] && p !in a[k + 1..];
    }
  }

  /** Sorting decides the result: two sorted arrangements of the same pages are
      the same, so neither the sorting algorithm nor the order in which the
      candidates were collected matters. */
  lemma {:induction false} SortedIsUnique(key: Page -> real, a: seq<Page>, b: seq<Page>)
    requires multiset(a) == multiset(b) && Distinct(a) && Sorted(key, a) && Sorted(key, b)
    ensures a == b
  {
    SameFirst(key, a, b);
    if |a| > 0 {
      TailsAgree(a, b);
      SortedIsUnique(key, a[1..], b[1..]);
      assert a == [a[0]] + a[1..] && b == [b[0]] + b[1..];
    }
  }

  lemma SameFirst(key: Page -> real, a: seq<Page>, b: seq<Page>)
    requires multiset(a) == multiset(b) && Distinct(a) && Sorted(key, a) && Sorted(key, b)
    ensures |a| == |b| && (|a| > 0 ==> a[0] == b[0])
  {
    assert |a| == |multiset(a)| == |multiset(b)| == |b|;
    if |a| > 0 {
      SameMembers(a, b);
      DistinctPermuted(a, b);
      assert a[0] in b && b[0] in a;
      FirstIsLeast(key, a, b[0]);
      FirstIsLeast(key, b, a[0]);
    }
  }

  lemma TailsAgree(a: seq<Page>, b: seq<Page>)
    requires multiset(a) == multiset(b) && |a| > 0 && |b| > 0 && a[0] == b[0]
    ensures multiset(a[1..]) == multiset(b[1..])
  {
    assert a == [a[0]] + a[1..] && b == [b[0]] + b[1..];
    assert multiset(a[1..]) == multiset(a) - multiset{a[0]};
    assert multiset(b[1..]) == multiset(b) - multiset{b[0]};
  }

  lemma FirstIsLeast(key: Page -> real, s: seq<Page>, p: Page)
    requires Sorted(key, s) && Distinct(s) && p in s
    ensures p == s[0] || Precedes(key, s[0], p)
  {
    var k :| 0 <= k < |s| && s[k] == p;
  }

  lemma RankIgnoresCollectionOrder(key: Page -> real, a: seq<Page>, b: seq<Page>)
    requires multiset(a) == multiset(b) && Distinct(a)
    ensures Rank(key, a) == Rank(key, b)
  {
    RankSorts(key, a);
    RankSorts(key, b);
    DistinctPermuted(a, Rank(key, a));
    SortedIsUnique(key, Rank(key, a), Rank(key, b));
  }

  /** The first victim under LRU has gone unused longest, and is the lowest id
      among those. */
  lemma LruTakesTheOldest(s: seq<Page>, p: Page)
    requires Distinct(s) && p in s
    ensures |Rank(LruKey, s)| > 0 && var v := Rank(LruKey, s)[0];
      v in s && v.lastAccess <= p.lastAccess && (v.lastAccess == p.lastAccess ==> v.id <= p.id)
  {
    RankSorts(LruKey, s);
    SameMembers(s, Rank(LruKey, s));
    DistinctPermuted(s, Rank(LruKey, s));
    FirstIsLeast(LruKey, Rank(LruKey, s), p);
  }

  /** `rank_victims`: the ids in ranked order, whatever order the candidates
      come in. */
  method RankVictims(key: Page -> real, candidates: seq<Page>) returns (ids: seq<PageId>)
    ensures |ids| == |Rank(key, candidates)|
    ensures forall i :: 0 <= i < |ids| ==> ids[i] == Rank(key, candidates)[i].id
  {
    var c := Rank(key, candidates);
    ids := [];
    for i := 0 to |c|
      invariant |ids| == i && forall j :: 0 <= j < i ==> ids[j] == c[j].id
    {
      ids := ids + [c[i].id];
    }
  }
}
