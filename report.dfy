/**
  The report built after the upserts (routes/upload.js:557-566, 588): the
  first 100 changes, the ten updated changes of largest magnitude, and the
  significant ones, whose magnitude exceeds 10.
*/
module Report {
  import opened Accumulation
  import opened Detect

  const SUMMARY_CHANGES: nat := 100
  const TOP_CHANGES: nat := 10
  const SIGNIFICANT: nat := 10

  /** `s.slice(0, n)` */
  function Prefix<T>(s: seq<T>, n: nat): (r: seq<T>)
    ensures |r| <= n && r <= s
    ensures |s| <= n ==> r == s
    ensures |s| > n ==> |r| == n
  {
    s[..Min(n, |s|)]
  }

  /** `s.filter(p)`, keeping order. */
  function Filter<T>(s: seq<T>, p: T -> bool): seq<T>
    decreases |s|
  {
    if |s| == 0 then []
    else Filter(s[..|s| - 1], p) + (if p(s[|s| - 1]) then [s[|s| - 1]] else [])
  }

  lemma {:induction false} FilterMembers<T>(s: seq<T>, p: T -> bool)
    ensures forall x :: x in Filter(s, p) <==> x in s && p(x)
    ensures |Filter(s, p)| <= |s|
    decreases |s|
  {
    if |s| > 0 {
      var prev := s[..|s| - 1];
      FilterMembers(prev, p);
      assert s == prev + [s[|s| - 1]];
    }
  }

  /** Each element kept occurs in the filtered list as often as in the input. */
  lemma {:induction false} FilterCount<T>(s: seq<T>, p: T -> bool)
    ensures forall x | p(x) :: multiset(Filter(s, p))[x] == multiset(s)[x]
    decreases |s|
  {
    if |s| > 0 {
      var prev := s[..|s| - 1];
      FilterCount(prev, p);
      assert s == prev + [s[|s| - 1]];
    }
  }

  function Magnitude(c: Change): nat {
    if c.Updated? then Abs(c.change) else 0
  }

  predicate IsUpdate(c: Change) {
    c.Updated?
  }

  predicate IsSignificant(c: Change) {
    c.Updated? && Abs(c.change) > SIGNIFICANT
  }

  /** Non-increasing magnitude. */
  predicate ByMagnitude(s: seq<Change>) {
    forall i, j | 0 <= i < j < |s| :: Magnitude(s[i]) >= Magnitude(s[j])
  }

  /** Inserting into a list sorted by magnitude, after every element of at
      least the same magnitude. */
  function Insert(x: Change, s: seq<Change>): (r: seq<Change>)
    ensures multiset(r) == multiset(s) + multiset{x}
    ensures forall y :: y in r <==> y in s || y == x
    ensures |r| == |s| + 1
    decreases |s|
  {
    if |s| == 0 then [x]
    else if Magnitude(s[0]) >= Magnitude(x) then
      assert s == [s[0]] + s[1..];
      [s[0]] + Insert(x, s[1..])
    else [x] + s
  }

  /** The comparator sort `(a, b) => Math.abs(b.change) - Math.abs(a.change)`,
      as an insertion sort that places each change after those of at least
      its magnitude. */
  function SortByMagnitude(s: seq<Change>): seq<Change>
    decreases |s|
  {
    if |s| == 0 then [] else Insert(s[|s| - 1], SortByMagnitude(s[..|s| - 1]))
  }

  lemma {:induction false} InsertSorted(x: Change, s: seq<Change>)
    requires ByMagnitude(s)
    ensures ByMagnitude(Insert(x, s))
    decreases |s|
  {
    if |s| > 0 && Magnitude(s[0]) >= Magnitude(x) {
      InsertSorted(x, s[1..]);
      var r := Insert(x, s[1..]);
      forall j | 0 <= j < |r| ensures Magnitude(s[0]) >= Magnitude(r[j]) {
        assert r[j] in r;
        if r[j] != x {
          var k :| 0 <= k < |s[1..]| && s[1..][k] == r[j];
          assert s[k + 1] == r[j];
        }
      }
      assert Insert(x, s) == [s[0]] + r;
    }
  }

  /** The sort orders by non-increasing magnitude and keeps every change. */
  lemma SortMeaning(s: seq<Change>)
    ensures ByMagnitude(SortByMagnitude(s))
    ensures multiset(SortByMagnitude(s)) == multiset(s)
  {
    SortSorted(s);
    SortPermutes(s);
  }

  lemma {:induction false} SortSorted(s: seq<Change>)
    ensures ByMagnitude(SortByMagnitude(s))
    decreases |s|
  {
    if |s| > 0 {
      var prev := s[..|s| - 1];
      SortSorted(prev);
      InsertSorted(s[|s| - 1], SortByMagnitude(prev));
    }
  }

  lemma {:induction false} SortPermutes(s: seq<Change>)
    ensures multiset(SortByMagnitude(s)) == multiset(s)
    decreases |s|
  {
    if |s| > 0 {
      var prev := s[..|s| - 1];
      SortPermutes(prev);
      assert s == prev + [s[|s| - 1]];
    }
  }

  /** `summary.changes` */
  function SummaryChanges(changes: seq<Change>): seq<Change> {
    Prefix(changes, SUMMARY_CHANGES)
  }

  /** `summary.topChanges` */
  function TopChanges(changes: seq<Change>): seq<Change> {
    Prefix(SortByMagnitude(Filter(changes, IsUpdate)), TOP_CHANGES)
  }

  /** `significantChanges` */
  function SignificantChanges(changes: seq<Change>): seq<Change> {
    Filter(changes, IsSignificant)
  }

  /** The summary lists the first changes in order, at most 100 of them,
      and all of them when there are no more than 100. */
  lemma SummaryMeaning(changes: seq<Change>)
    ensures var r := SummaryChanges(changes);
      && |r| == Min(SUMMARY_CHANGES, |changes|)
      && forall i | 0 <= i < |r| :: r[i] == changes[i]
  {
  }

  /** A prefix holds no element more often than the whole list. */
  lemma PrefixMultiset<T>(s: seq<T>, n: nat)
    ensures multiset(Prefix(s, n)) <= multiset(s)
  {
    var m := Min(n, |s|);
    assert s == s[..m] + s[m..];
  }

  /** The first `n` of a list sorted by magnitude are sorted and at least as
      large as every later one. */
  lemma TopOfSorted(sorted: seq<Change>, n: nat)
    requires ByMagnitude(sorted)
    ensures var r := Prefix(sorted, n);
      && ByMagnitude(r)
      && forall i, j | 0 <= i < |r| <= j < |sorted| :: Magnitude(r[i]) >= Magnitude(sorted[j])
  {
    var r := Prefix(sorted, n);
    assert forall i | 0 <= i < |r| :: r[i] == sorted[i];
  }

  /** The top changes are at most ten updated changes taken from the list,
      as many as there are up to ten, in non-increasing magnitude; they begin
      a sorted permutation of the updated changes, whose later entries have
      no larger magnitude. */
  lemma TopMeaning(changes: seq<Change>)
    ensures var ups := Filter(changes, IsUpdate);
      var sorted := SortByMagnitude(ups);
      var r := TopChanges(changes);
      && |r| == Min(TOP_CHANGES, |ups|)
      && (forall c | c in r :: c.Updated? && c in changes)
      && ByMagnitude(r)
      && multiset(r) <= multiset(ups)
      && r <= sorted && multiset(sorted) == multiset(ups)
      && (forall i, j | 0 <= i < |r| <= j < |sorted| :: Magnitude(r[i]) >= Magnitude(sorted[j]))
  {
    var ups := Filter(changes, IsUpdate);
    var sorted := SortByMagnitude(ups);
    SortMeaning(ups);
    assert |sorted| == |ups| by {
      assert |multiset(sorted)| == |multiset(ups)|;
    }
    TopOfSorted(sorted, TOP_CHANGES);
    PrefixMultiset(sorted, TOP_CHANGES);
    TopUpdates(changes);
  }

  /** Every top change is an updated change of the list. */
  lemma TopUpdates(changes: seq<Change>)
    ensures forall c | c in TopChanges(changes) :: c.Updated? && c in changes
  {
    var ups := Filter(changes, IsUpdate);
    var sorted := SortByMagnitude(ups);
    SortMeaning(ups);
    FilterMembers(changes, IsUpdate);
    var r := Prefix(sorted, TOP_CHANGES);
    forall c | c in r ensures c.Updated? && c in changes {
      var i :| 0 <= i < |r| && r[i] == c;
      assert sorted[i] == c;
      SameMembers(sorted, ups, c);
      assert IsUpdate(c);
    }
  }

  lemma SameMembers<T>(a: seq<T>, b: seq<T>, x: T)
    requires multiset(a) == multiset(b) && x in a
    ensures x in b
  {
    assert x in multiset(a);
  }

  /** The significant changes are exactly the updated changes of magnitude
      above 10, each as often as in the list, in their order. */
  lemma SignificantMeaning(changes: seq<Change>)
    ensures var r := SignificantChanges(changes);
      && (forall c :: c in r <==> c in changes && c.Updated? && Abs(c.change) > SIGNIFICANT)
      && (forall c | IsSignificant(c) :: multiset(r)[c] == multiset(changes)[c])
  {
    FilterMembers(changes, IsSignificant);
    FilterCount(changes, IsSignificant);
  }
}
