/** The weighted-time sweep of the ninja build report.

    A target runs from start to end.  The report charges each target, at every
    moment it runs, 1/n of the elapsed time, where n targets are running then.
    Share is that charge written as a sum over elementary intervals; the sweep
    computes it in one pass over the sorted start and stop events. */
module BuildTime {
  import opened Common

  class Target {
    const start: real
    const end: real
    var weightedDuration: real

    constructor (start: real, end: real)
      ensures this.start == start && this.end == end && weightedDuration == 0.0
    {
      this.start, this.end, weightedDuration := start, end, 0.0;
    }

    function Duration(): real {
      end - start
    }

    /** The assertion made whenever a weighted duration is read back. */
    predicate WeightedDurationOk()
      reads this
    {
      weightedDuration <= Duration() + EPSILON
    }
  }

  const EPSILON := 0.000002

  function Members(entries: seq<Target>): (s: set<Target>)
    ensures forall t | t in s :: t in entries
    ensures forall t | t in entries :: t in s
  {
    set t | t in entries
  }

  // ---------------------------------------------------------------- The integral

  /** The targets that run during the whole of [a, b]. */
  function Active(targets: set<Target>, a: real, b: real): set<Target> {
    set t | t in targets && t.start <= a && b <= t.end
  }

  /** What one target that runs during [a, b] is charged for it. */
  function Rate(targets: set<Target>, a: real, b: real): real {
    var n := |Active(targets, a, b)|;
    if n == 0 then 0.0 else PerTask(b - a, n)
  }

  function PerTask(elapsed: real, n: nat): real
    requires n > 0
  {
    elapsed / n as real
  }

  function Term(targets: set<Target>, t: Target, a: real, b: real): real {
    if t.start <= a && b <= t.end then Rate(targets, a, b) else 0.0
  }

  /** The charge of target t over the first k intervals between adjacent cuts. */
  function Share(targets: set<Target>, t: Target, cuts: seq<real>, k: nat): real
    requires k < |cuts|
  {
    if k == 0 then 0.0
    else Share(targets, t, cuts, k - 1) + Term(targets, t, cuts[k - 1], cuts[k])
  }

  /** The charge of target t over its whole life. */
  function FullShare(targets: set<Target>, t: Target, cuts: seq<real>): real
    requires |cuts| > 0
  {
    Share(targets, t, cuts, |cuts| - 1)
  }

  /** Time during which at least one target runs (busy) or none does (idle). */
  function Busy(targets: set<Target>, cuts: seq<real>, k: nat): real
    requires k < |cuts|
  {
    if k == 0 then 0.0
    else Busy(targets, cuts, k - 1)
         + if Active(targets, cuts[k - 1], cuts[k]) == {} then 0.0 else cuts[k] - cuts[k - 1]
  }

  function TotalShare(entries: seq<Target>, targets: set<Target>, cuts: seq<real>, k: nat): real
    requires k < |cuts|
  {
    if entries == [] then 0.0
    else Share(targets, entries[0], cuts, k) + TotalShare(entries[1..], targets, cuts, k)
  }

  predicate Ascending(cuts: seq<real>) {
    forall i, j :: 0 <= i <= j < |cuts| ==> cuts[i] <= cuts[j]
  }

  /** The cuts separate every moment at which the running set can change. */
  predicate Covers(cuts: seq<real>, targets: set<Target>) {
    && Ascending(cuts)
    && forall t | t in targets :: t.start in cuts && t.end in cuts
  }

  // ------------------------------------------------- The integral ignores the cuts

  predicate NoEventInside(targets: set<Target>, a: real, b: real) {
    forall t | t in targets :: !(a < t.start < b) && !(a < t.end < b)
  }

  lemma SplitTerm(targets: set<Target>, t: Target, a: real, x: real, b: real)
    requires a <= x <= b && NoEventInside(targets, a, b) && t in targets
    ensures Term(targets, t, a, b) == Term(targets, t, a, x) + Term(targets, t, x, b)
  {
    if a < x < b {
      assert Active(targets, a, x) == Active(targets, a, b);
      assert Active(targets, x, b) == Active(targets, a, b);
      var n := |Active(targets, a, b)|;
      if n != 0 {
        assert (b - a) / n as real == (x - a) / n as real + (b - x) / n as real;
      }
    }
  }

  function Inserted(cuts: seq<real>, x: real, p: nat): seq<real>
    requires p <= |cuts|
  {
    cuts[..p] + [x] + cuts[p..]
  }

  lemma GapHasNoEvent(cuts: seq<real>, targets: set<Target>, k: nat)
    requires Covers(cuts, targets) && 0 < k < |cuts|
    ensures NoEventInside(targets, cuts[k - 1], cuts[k])
  {
    forall i | 0 <= i < |cuts| ensures !(cuts[k - 1] < cuts[i] < cuts[k]) {
      if i <= k - 1 { assert cuts[i] <= cuts[k - 1]; } else { assert cuts[k] <= cuts[i]; }
    }
  }

  lemma {:induction false} InsertBelow(targets: set<Target>, t: Target, cuts: seq<real>, x: real, p: nat, k: nat)
    requires p <= |cuts| && k < p
    ensures Share(targets, t, Inserted(cuts, x, p), k) == Share(targets, t, cuts, k)
  {
    if k > 0 { InsertBelow(targets, t, cuts, x, p, k - 1); }
  }

  /** One more cut changes nobody's share. */
  lemma {:induction false} InsertAbove(targets: set<Target>, t: Target, cuts: seq<real>, x: real, p: nat, k: nat)
    requires Covers(cuts, targets) && t in targets && k < |cuts|
    requires p <= k || p == k + 1 == |cuts|
    requires Ascending(Inserted(cuts, x, p))
    ensures Share(targets, t, Inserted(cuts, x, p), k + 1) == Share(targets, t, cuts, k)
  {
    hide Rate, Active, Covers;
    var c := Inserted(cuts, x, p);
    if p == |cuts| {
      InsertBelow(targets, t, cuts, x, p, k);
      BeyondTheEnds(targets, t, cuts, x);
      assert c[k] == cuts[k] && c[k + 1] == x;
    } else if k == 0 {
      BeyondTheEnds(targets, t, cuts, x);
      assert c[0] == x && c[1] == cuts[0];
      assert Share(targets, t, c, 1) == Share(targets, t, c, 0) + Term(targets, t, c[0], c[1]);
    } else if p == k {
      InsertBelow(targets, t, cuts, x, p, k - 1);
      assert c[k - 1] == cuts[k - 1] && c[k] == x && c[k + 1] == cuts[k];
      GapHasNoEvent(cuts, targets, k);
      SplitTerm(targets, t, cuts[k - 1], x, cuts[k]);
    } else {
      InsertAbove(targets, t, cuts, x, p, k - 1);
      assert c[k] == cuts[k - 1] && c[k + 1] == cuts[k];
    }
  }

  lemma BeyondTheEnds(targets: set<Target>, t: Target, cuts: seq<real>, x: real)
    requires Covers(cuts, targets) && t in targets && |cuts| > 0
    ensures x <= cuts[0] ==> Term(targets, t, x, cuts[0]) == 0.0
    ensures cuts[|cuts| - 1] <= x ==> Term(targets, t, cuts[|cuts| - 1], x) == 0.0
  {
    assert t.start in cuts && t.end in cuts;
    NoWidth(targets, x);
    hide Rate;
  }

  lemma NoWidth(targets: set<Target>, x: real)
    ensures Rate(targets, x, x) == 0.0
  {
  }

  function Position(cuts: seq<real>, x: real): (p: nat)
    ensures p <= |cuts|
    ensures forall i :: 0 <= i < p ==> cuts[i] < x
    ensures p < |cuts| ==> x <= cuts[p]
  {
    if cuts == [] || x <= cuts[0] then 0 else 1 + Position(cuts[1..], x)
  }

  function Insert(cuts: seq<real>, x: real): seq<real> {
    Inserted(cuts, x, Position(cuts, x))
  }

  lemma InsertSorted(cuts: seq<real>, x: real)
    requires Ascending(cuts)
    ensures Ascending(Insert(cuts, x))
  {
    var p, c := Position(cuts, x), Insert(cuts, x);
    forall i, j | 0 <= i <= j < |c| ensures c[i] <= c[j] {
      assert c[i] == if i < p then cuts[i] else if i == p then x else cuts[i - 1];
      assert c[j] == if j < p then cuts[j] else if j == p then x else cuts[j - 1];
    }
  }

  lemma InsertContents(cuts: seq<real>, x: real)
    ensures multiset(Insert(cuts, x)) == multiset(cuts) + multiset{x}
    ensures forall y | y in cuts :: y in Insert(cuts, x)
  {
    var p := Position(cuts, x);
    assert cuts == cuts[..p] + cuts[p..];
    forall y | y in cuts ensures y in Insert(cuts, x) {
      assert y in multiset(cuts) && y in multiset(Insert(cuts, x));
    }
  }

  lemma InsertCut(targets: set<Target>, t: Target, cuts: seq<real>, x: real)
    requires Covers(cuts, targets) && t in targets
    ensures Covers(Insert(cuts, x), targets)
    ensures FullShare(targets, t, Insert(cuts, x)) == FullShare(targets, t, cuts)
  {
    InsertSorted(cuts, x);
    InsertContents(cuts, x);
    assert t.start in cuts;
    InsertAbove(targets, t, cuts, x, Position(cuts, x), |cuts| - 1);
  }

  function InsertAll(cuts: seq<real>, xs: seq<real>): seq<real> {
    if xs == [] then cuts else Insert(InsertAll(cuts, xs[1..]), xs[0])
  }

  lemma {:induction false} InsertAllCuts(targets: set<Target>, t: Target, cuts: seq<real>, xs: seq<real>)
    requires Covers(cuts, targets) && t in targets
    ensures Covers(InsertAll(cuts, xs), targets)
    ensures multiset(InsertAll(cuts, xs)) == multiset(cuts) + multiset(xs)
    ensures InsertAll(cuts, xs) != []
    ensures FullShare(targets, t, InsertAll(cuts, xs)) == FullShare(targets, t, cuts)
  {
    if xs != [] {
      InsertAllCuts(targets, t, cuts, xs[1..]);
      InsertCut(targets, t, InsertAll(cuts, xs[1..]), xs[0]);
      InsertContents(InsertAll(cuts, xs[1..]), xs[0]);
      assert xs == [xs[0]] + xs[1..];
    }
  }

  lemma {:induction false} SortedUnique(a: seq<real>, b: seq<real>)
    requires Ascending(a) && Ascending(b) && multiset(a) == multiset(b)
    ensures a == b
  {
    hide Ascending;
    assert |a| == |multiset(a)| && |b| == |multiset(b)|;
    if |a| > 0 {
      SameLeast(a, b);
      TailOf(a);
      TailOf(b);
      SortedUnique(a[1..], b[1..]);
      assert a == [a[0]] + a[1..] && b == [b[0]] + b[1..];
    }
  }

  lemma TailOf(a: seq<real>)
    requires Ascending(a) && |a| > 0
    ensures Ascending(a[1..])
    ensures multiset(a[1..]) == multiset(a) - multiset{a[0]}
  {
    assert a == [a[0]] + a[1..];
  }

  lemma SameLeast(a: seq<real>, b: seq<real>)
    requires Ascending(a) && Ascending(b) && multiset(a) == multiset(b) && |a| > 0 && |b| > 0
    ensures a[0] == b[0]
  {
    assert a[0] in multiset(b) && b[0] in multiset(a);
  }

  /** The share is a property of the targets alone: any two cut sequences that
      separate all start and stop times, however refined, give the same value. */
  lemma ShareIndependentOfCuts(targets: set<Target>, t: Target, a: seq<real>, b: seq<real>)
    requires Covers(a, targets) && Covers(b, targets) && t in targets
    ensures FullShare(targets, t, a) == FullShare(targets, t, b)
  {
    InsertAllCuts(targets, t, a, b);
    InsertAllCuts(targets, t, b, a);
    SortedUnique(InsertAll(a, b), InsertAll(b, a));
  }

  // ---------------------------------------------------------- The weighted clock

  /** The sweep's accumulated weighted time when it reaches cut k. */
  function Clock(targets: set<Target>, cuts: seq<real>, k: nat): real
    requires k < |cuts|
  {
    if k == 0 then 0.0 else Clock(targets, cuts, k - 1) + Rate(targets, cuts[k - 1], cuts[k])
  }

  lemma {:induction false} ShareAsClock(targets: set<Target>, t: Target, cuts: seq<real>, j0: nat, j1: nat, k: nat)
    requires Ascending(cuts) && j0 <= j1 < |cuts| && k < |cuts|
    requires cuts[j0] == t.start && cuts[j1] == t.end
    ensures Share(targets, t, cuts, k)
         == if k <= j0 then 0.0
            else Clock(targets, cuts, if k <= j1 then k else j1) - Clock(targets, cuts, j0)
  {
    if k > 0 {
      ShareAsClock(targets, t, cuts, j0, j1, k - 1);
      assert Rate(targets, cuts[k], cuts[k]) == 0.0;
      if k <= j0 {
        assert cuts[k - 1] <= cuts[k] <= cuts[j0];
      } else if k <= j1 {
        assert cuts[j0] <= cuts[k - 1] && cuts[k] <= cuts[j1];
      } else {
        assert cuts[j1] <= cuts[k - 1] <= cuts[k];
      }
    }
  }

  /** n times r, by repeated addition. */
  ghost function Scaled(n: nat, r: real): real {
    if n == 0 then 0.0 else r + Scaled(n - 1, r)
  }

  lemma {:induction false} ScaledIsProduct(n: nat, r: real)
    ensures Scaled(n, r) == n as real * r
  {
    if n > 0 {
      ScaledIsProduct(n - 1, r);
      assert n as real * r == (n - 1) as real * r + r;
    }
  }

  lemma {:induction false} ScaledAdds(n: nat, r: real, q: real)
    ensures Scaled(n, r + q) == Scaled(n, r) + Scaled(n, q)
  {
    if n > 0 { ScaledAdds(n - 1, r, q); }
  }

  lemma {:induction false} ScaledGrows(m: nat, n: nat, r: real)
    requires m <= n && r >= 0.0
    ensures Scaled(m, r) <= Scaled(n, r)
  {
    if m < n { ScaledGrows(m, n - 1, r); }
  }

  lemma DivisionBounds(w: real, n: nat, m: nat)
    requires w >= 0.0 && 1 <= n <= m
    ensures w <= Scaled(m, w / n as real)
    ensures w / n as real <= w
  {
    var r := w / n as real;
    ScaledIsProduct(n, r);
    ScaledGrows(n, m, r);
    ScaledGrows(1, n, r);
  }

  lemma RateBounds(targets: set<Target>, t: Target, a: real, b: real)
    requires t in targets && t.start <= a <= b <= t.end
    ensures b - a <= Scaled(|targets|, Rate(targets, a, b))
    ensures Rate(targets, a, b) <= b - a
  {
    var active := Active(targets, a, b);
    assert t in active;
    SubsetSize(active, targets);
    SubsetSize({t}, active);
    DivisionBounds(b - a, |active|, |targets|);
  }

  lemma SubsetSize<T>(a: set<T>, b: set<T>)
    requires a <= b
    ensures |a| <= |b|
  {
    assert b == a + (b - a);
  }

  lemma {:induction false} ClockBounds(targets: set<Target>, t: Target, cuts: seq<real>, j0: nat, j: nat)
    requires Ascending(cuts) && j0 <= j < |cuts| && t in targets
    requires t.start == cuts[j0] && cuts[j] <= t.end
    ensures cuts[j] - cuts[j0] <= Scaled(|targets|, Clock(targets, cuts, j) - Clock(targets, cuts, j0))
    ensures Clock(targets, cuts, j) - Clock(targets, cuts, j0) <= cuts[j] - cuts[j0]
  {
    if j == j0 {
      ScaledIsProduct(|targets|, 0.0);
    } else {
      assert cuts[j0] <= cuts[j - 1] <= cuts[j];
      ClockBounds(targets, t, cuts, j0, j - 1);
      RateBounds(targets, t, cuts[j - 1], cuts[j]);
      ScaledAdds(|targets|, Clock(targets, cuts, j - 1) - Clock(targets, cuts, j0), Rate(targets, cuts[j - 1],
          cuts[j]));
    }
  }

  lemma ShareSpan(targets: set<Target>, t: Target, cuts: seq<real>) returns (j0: nat, j1: nat)
    requires Covers(cuts, targets) && t in targets && t.start <= t.end
    ensures j0 <= j1 < |cuts| && cuts[j0] == t.start && cuts[j1] == t.end
    ensures FullShare(targets, t, cuts) == Clock(targets, cuts, j1) - Clock(targets, cuts, j0)
  {
    j0, j1 := IndexOf(cuts, t.start), IndexOf(cuts, t.end);
    if j1 < j0 {
      assert cuts[j1] <= cuts[j0];
      j1 := j0;
    }
    ShareAsClock(targets, t, cuts, j0, j1, |cuts| - 1);
  }

  lemma ScaledShareBounds(targets: set<Target>, t: Target, cuts: seq<real>)
    requires Covers(cuts, targets) && t in targets && t.start <= t.end
    ensures t.Duration() <= Scaled(|targets|, FullShare(targets, t, cuts))
    ensures FullShare(targets, t, cuts) <= t.Duration()
  {
    var j0, j1 := ShareSpan(targets, t, cuts);
    ClockBounds(targets, t, cuts, j0, j1);
  }

  /** A share lies between duration / N and duration. */
  lemma ShareBounds(targets: set<Target>, t: Target, cuts: seq<real>)
    requires Covers(cuts, targets) && t in targets && t.start <= t.end
    ensures t.Duration() <= |targets| as real * FullShare(targets, t, cuts)
    ensures FullShare(targets, t, cuts) <= t.Duration()
  {
    ScaledShareBounds(targets, t, cuts);
    ScaledIsProduct(|targets|, FullShare(targets, t, cuts));
  }

  // ----------------------------------------------------------------- Conservation

  lemma {:induction false} TotalStep(entries: seq<Target>, targets: set<Target>, cuts: seq<real>, k: nat)
    requires Distinct(entries) && 0 < k < |cuts|
    ensures TotalShare(entries, targets, cuts, k)
         == TotalShare(entries, targets, cuts, k - 1)
            + |Active(Members(entries), cuts[k - 1], cuts[k])| as real * Rate(targets, cuts[k - 1], cuts[k])
  {
    var a, b := cuts[k - 1], cuts[k];
    ActiveStep(entries, a, b);
    if entries != [] {
      TotalStep(entries[1..], targets, cuts, k);
      Successor(|Active(Members(entries[1..]), a, b)|, Rate(targets, a, b));
    }
  }

  lemma ActiveStep(entries: seq<Target>, a: real, b: real)
    requires Distinct(entries)
    ensures |Active(Members(entries), a, b)|
         == if entries == [] then 0
            else |Active(Members(entries[1..]), a, b)| + (if entries[0].start <= a && b <= entries[0].end then 1 else 0)
  {
    if entries == [] {
      assert Active(Members(entries), a, b) == {};
    } else {
      var t := entries[0];
      var rest := Active(Members(entries[1..]), a, b);
      assert t !in rest;
      assert Members(entries) == {t} + Members(entries[1..]);
      if t.start <= a && b <= t.end {
        assert Active(Members(entries), a, b) == {t} + rest;
      } else {
        assert Active(Members(entries), a, b) == rest;
      }
    }
  }

  lemma Successor(n: nat, r: real)
    ensures (n + 1) as real * r == n as real * r + r
  {
  }

  /** The shares add up to the time during which anything ran at all. */
  lemma {:induction false} Conservation(entries: seq<Target>, cuts: seq<real>, k: nat)
    requires Distinct(entries) && k < |cuts|
    ensures TotalShare(entries, Members(entries), cuts, k) == Busy(Members(entries), cuts, k)
  {
    if k == 0 {
      NothingYet(entries, Members(entries), cuts);
    } else {
      Conservation(entries, cuts, k - 1);
      IntervalCharge(entries, cuts, k);
      hide TotalShare, Active;
    }
  }

  /** In each interval the running targets are charged exactly its width. */
  lemma IntervalCharge(entries: seq<Target>, cuts: seq<real>, k: nat)
    requires Distinct(entries) && 0 < k < |cuts|
    ensures TotalShare(entries, Members(entries), cuts, k)
         == TotalShare(entries, Members(entries), cuts, k - 1)
            + if Active(Members(entries), cuts[k - 1], cuts[k]) == {} then 0.0 else cuts[k] - cuts[k - 1]
  {
    hide Rate, Active, TotalShare;
    TotalStep(entries, Members(entries), cuts, k);
    RateTimesCount(Members(entries), cuts[k - 1], cuts[k]);
  }

  lemma RateTimesCount(targets: set<Target>, a: real, b: real)
    ensures |Active(targets, a, b)| as real * Rate(targets, a, b)
         == if Active(targets, a, b) == {} then 0.0 else b - a
  {
  }

  lemma {:induction false} NothingYet(entries: seq<Target>, targets: set<Target>, cuts: seq<real>)
    requires |cuts| > 0
    ensures TotalShare(entries, targets, cuts, 0) == 0.0
  {
    if entries != [] { NothingYet(entries[1..], targets, cuts); }
  }

  /** At every moment from the first cut to the last some target is running. */
  ghost predicate NoIdleGap(targets: set<Target>, cuts: seq<real>)
    requires |cuts| > 0
  {
    forall x: real :: cuts[0] <= x < cuts[|cuts| - 1] ==> RunsAt(targets, x)
  }

  ghost predicate RunsAt(targets: set<Target>, x: real) {
    exists t :: t in targets && t.start <= x < t.end
  }

  lemma {:induction false} BusyAtMost(targets: set<Target>, cuts: seq<real>, k: nat)
    requires Ascending(cuts) && k < |cuts|
    ensures Busy(targets, cuts, k) <= cuts[k] - cuts[0]
    ensures Busy(targets, cuts, k) == cuts[k] - cuts[0] ==>
              forall j :: 0 < j <= k && cuts[j - 1] < cuts[j] ==> Active(targets, cuts[j - 1], cuts[j]) != {}
  {
    if k > 0 { BusyAtMost(targets, cuts, k - 1); }
  }

  lemma {:induction false} BusyAll(targets: set<Target>, cuts: seq<real>, k: nat)
    requires Ascending(cuts) && k < |cuts|
    requires forall j :: 0 < j <= k && cuts[j - 1] < cuts[j] ==> Active(targets, cuts[j - 1], cuts[j]) != {}
    ensures Busy(targets, cuts, k) == cuts[k] - cuts[0]
  {
    if k > 0 { BusyAll(targets, cuts, k - 1); }
  }

  lemma BusyLengthHasNoGap(targets: set<Target>, cuts: seq<real>)
    requires Covers(cuts, targets) && |cuts| > 0
    requires Busy(targets, cuts, |cuts| - 1) == cuts[|cuts| - 1] - cuts[0]
    ensures NoIdleGap(targets, cuts)
  {
    BusyAtMost(targets, cuts, |cuts| - 1);
    hide Busy;
    forall x: real | cuts[0] <= x < cuts[|cuts| - 1] ensures RunsAt(targets, x) {
      var j := IntervalAround(cuts, x);
      var t :| t in Active(targets, cuts[j - 1], cuts[j]);
      assert t in targets && t.start <= x < t.end;
    }
  }

  lemma NoGapIsBusyLength(targets: set<Target>, cuts: seq<real>)
    requires Covers(cuts, targets) && |cuts| > 0 && NoIdleGap(targets, cuts)
    ensures Busy(targets, cuts, |cuts| - 1) == cuts[|cuts| - 1] - cuts[0]
  {
    hide Busy;
    forall j | 0 < j < |cuts| && cuts[j - 1] < cuts[j] ensures Active(targets, cuts[j - 1], cuts[j]) != {} {
      assert cuts[0] <= cuts[j - 1] && cuts[j] <= cuts[|cuts| - 1];
      assert RunsAt(targets, cuts[j - 1]);
      var t :| t in targets && t.start <= cuts[j - 1] < t.end;
      GapHasNoEvent(cuts, targets, j);
      assert t in Active(targets, cuts[j - 1], cuts[j]);
    }
    BusyAll(targets, cuts, |cuts| - 1);
  }

  /** The busy time is the whole length exactly when there is no idle gap. */
  lemma BusyIsLengthIffNoGap(targets: set<Target>, cuts: seq<real>)
    requires Covers(cuts, targets) && |cuts| > 0
    ensures Busy(targets, cuts, |cuts| - 1) == cuts[|cuts| - 1] - cuts[0] <==> NoIdleGap(targets, cuts)
  {
    hide *;
    if Busy(targets, cuts, |cuts| - 1) == cuts[|cuts| - 1] - cuts[0] {
      BusyLengthHasNoGap(targets, cuts);
    }
    if NoIdleGap(targets, cuts) {
      NoGapIsBusyLength(targets, cuts);
    }
  }

  lemma IntervalAround(cuts: seq<real>, x: real) returns (j: nat)
    requires |cuts| > 0 && cuts[0] <= x < cuts[|cuts| - 1]
    ensures 0 < j < |cuts| && cuts[j - 1] <= x < cuts[j]
  {
    j := 1;
    while cuts[j] <= x
      invariant 0 < j < |cuts| && cuts[j - 1] <= x
      decreases |cuts| - j
    {
      j := j + 1;
    }
  }

  // ------------------------------------------------------------------- The events

  datatype Event = Event(time: real, stop: bool, target: Target)

  function StartOf(t: Target): Event { Event(t.start, false, t) }

  function StopOf(t: Target): Event { Event(t.end, true, t) }

  predicate IsEventOf(e: Event, targets: set<Target>) {
    e.target in targets && (e == StartOf(e.target) || e == StopOf(e.target))
  }

  /** The sort key is (time, kind), and 'start' comes before 'stop'. */
  predicate InOrder(a: Event, b: Event) {
    a.time < b.time || (a.time == b.time && (!a.stop || b.stop))
  }

  predicate Sorted(es: seq<Event>) {
    forall i, j :: 0 <= i < j < |es| ==> InOrder(es[i], es[j])
  }

  /** Every start and stop event of the targets exactly once, in key order.
      Events with equal keys may come in any order. */
  ghost predicate Arranges(es: seq<Event>, targets: set<Target>) {
    && Sorted(es)
    && Distinct(es)
    && (forall e | e in es :: IsEventOf(e, targets))
    && (forall t | t in targets :: StartOf(t) in es && StopOf(t) in es)
  }

  function Times(es: seq<Event>): (ts: seq<real>)
    ensures |ts| == |es|
    ensures forall i :: 0 <= i < |es| ==> ts[i] == es[i].time
  {
    seq(|es|, i requires 0 <= i < |es| => es[i].time)
  }

  lemma ArrangedTimesCover(es: seq<Event>, targets: set<Target>)
    requires Arranges(es, targets)
    ensures Covers(Times(es), targets)
  {
    var ts := Times(es);
    forall i, j | 0 <= i <= j < |ts| ensures ts[i] <= ts[j] {
      if i < j { assert InOrder(es[i], es[j]); }
    }
    forall t | t in targets ensures t.start in ts && t.end in ts {
      assert ts[IndexOf(es, StartOf(t))] == t.start && ts[IndexOf(es, StopOf(t))] == t.end;
    }
  }

  function EventsOf(entries: seq<Target>): seq<Event> {
    if entries == [] then []
    else
      var last := entries[|entries| - 1];
      EventsOf(entries[..|entries| - 1]) + [StartOf(last), StopOf(last)]
  }

  lemma {:induction false} EventsOnce(entries: seq<Target>)
    requires Distinct(entries)
    ensures Distinct(EventsOf(entries))
    ensures forall e :: e in EventsOf(entries) <==> IsEventOf(e, Members(entries))
  {
    if entries != [] {
      var init, last := entries[..|entries| - 1], entries[|entries| - 1];
      EventsOnce(init);
      assert entries == init + [last];
      assert Members(entries) == Members(init) + {last} && last !in Members(init);
      forall e | e in EventsOf(init) ensures e.target != last {
        assert IsEventOf(e, Members(init));
      }
    }
  }

  /** Stable insertion into an ordered event list. */
  function InsertEvent(es: seq<Event>, e: Event): seq<Event> {
    if es == [] || InOrder(es[|es| - 1], e) then es + [e]
    else InsertEvent(es[..|es| - 1], e) + [es[|es| - 1]]
  }

  function SortEvents(es: seq<Event>): seq<Event> {
    if es == [] then [] else InsertEvent(SortEvents(es[..|es| - 1]), es[|es| - 1])
  }

  lemma {:induction false} InsertEventContents(es: seq<Event>, e: Event)
    ensures multiset(InsertEvent(es, e)) == multiset(es) + multiset{e}
  {
    if |es| > 0 && !InOrder(es[|es| - 1], e) {
      assert es == es[..|es| - 1] + [es[|es| - 1]];
      InsertEventContents(es[..|es| - 1], e);
    }
  }

  lemma {:induction false} InsertEventSorts(es: seq<Event>, e: Event)
    requires Sorted(es)
    ensures Sorted(InsertEvent(es, e))
  {
    if |es| > 0 && InOrder(es[|es| - 1], e) {
      LastInOrder(es, e);
    } else if |es| > 0 {
      var init, last := es[..|es| - 1], es[|es| - 1];
      InsertEventSorts(init, e);
      InsertEventContents(init, e);
      var r := InsertEvent(init, e);
      forall x | x in r ensures InOrder(x, last) {
        assert x in multiset(r);
      }
    }
  }

  lemma LastInOrder(es: seq<Event>, e: Event)
    requires Sorted(es) && |es| > 0 && InOrder(es[|es| - 1], e)
    ensures Sorted(es + [e])
  {
    forall i | 0 <= i < |es| ensures InOrder(es[i], e) {
      assert i < |es| - 1 ==> InOrder(es[i], es[|es| - 1]);
    }
  }

  lemma {:induction false} SortEventsSorts(es: seq<Event>)
    ensures Sorted(SortEvents(es))
    ensures multiset(SortEvents(es)) == multiset(es)
  {
    if |es| > 0 {
      SortEventsSorts(es[..|es| - 1]);
      InsertEventSorts(SortEvents(es[..|es| - 1]), es[|es| - 1]);
      InsertEventContents(SortEvents(es[..|es| - 1]), es[|es| - 1]);
      assert es == es[..|es| - 1] + [es[|es| - 1]];
    }
  }

  lemma SamePermutationDistinct<T>(a: seq<T>, b: seq<T>)
    requires multiset(a) == multiset(b) && Distinct(a)
    ensures Distinct(b)
    ensures forall x :: x in a <==> x in b
  {
    forall x ensures x in a <==> x in b {
      assert x in a <==> x in multiset(a);
      assert x in b <==> x in multiset(b);
    }
    forall i, j | 0 <= i < j < |b| ensures b[i] != b[j] {
      if b[i] == b[j] {
        assert b == b[..j] + b[j..];
        assert multiset(b)[b[j]] == multiset(b[..j])[b[j]] + multiset(b[j..])[b[j]];
        assert b[..j][i] == b[j] && b[j..][0] == b[j];
        OccursOnce(a, b[j]);
      }
    }
  }

  lemma {:induction false} OccursOnce<T>(a: seq<T>, x: T)
    requires Distinct(a)
    ensures multiset(a)[x] <= 1
  {
    if a != [] {
      OccursOnce(a[1..], x);
      assert a == [a[0]] + a[1..];
    }
  }

  lemma SortArranges(entries: seq<Target>)
    requires Distinct(entries)
    ensures Arranges(SortEvents(EventsOf(entries)), Members(entries))
  {
    EventsOnce(entries);
    SortEventsSorts(EventsOf(entries));
    SamePermutationDistinct(EventsOf(entries), SortEvents(EventsOf(entries)));
    forall e | e in SortEvents(EventsOf(entries)) ensures IsEventOf(e, Members(entries)) {
      assert e in multiset(SortEvents(EventsOf(entries)));
      assert e in multiset(EventsOf(entries));
    }
    forall t | t in Members(entries)
      ensures StartOf(t) in SortEvents(EventsOf(entries)) && StopOf(t) in SortEvents(EventsOf(entries))
    {
      assert IsEventOf(StartOf(t), Members(entries)) && IsEventOf(StopOf(t), Members(entries));
    }
  }

  // -------------------------------------------------------------------- The sweep

  /** The targets that have started and not stopped among the first k events. */
  ghost function Running(es: seq<Event>, targets: set<Target>, k: nat): set<Target>
    requires k <= |es|
  {
    set t | t in targets && StartOf(t) in es[..k] && StopOf(t) !in es[..k]
  }

  lemma RunningIsActive(es: seq<Event>, targets: set<Target>, k: nat)
    requires Arranges(es, targets) && 0 < k < |es| && es[k - 1].time < es[k].time
    ensures Running(es, targets, k) == Active(targets, es[k - 1].time, es[k].time)
  {
    ArrangedTimesCover(es, targets);
    var ts := Times(es);
    forall t | t in targets
      ensures t in Running(es, targets, k) <==> t in Active(targets, ts[k - 1], ts[k])
    {
      var i, j := IndexOf(es, StartOf(t)), IndexOf(es, StopOf(t));
      assert i < k <==> StartOf(t) in es[..k] by { PrefixIndex(es, StartOf(t), k); }
      assert j < k <==> StopOf(t) in es[..k] by { PrefixIndex(es, StopOf(t), k); }
      assert ts[i] == t.start && ts[j] == t.end;
      assert if i < k then ts[i] <= ts[k - 1] else ts[k] <= ts[i];
      assert if j < k then ts[j] <= ts[k - 1] else ts[k] <= ts[j];
    }
  }

  lemma PrefixIndex<T>(s: seq<T>, x: T, k: nat)
    requires x in s && k <= |s|
    ensures IndexOf(s, x) < k <==> x in s[..k]
  {
    var i := IndexOf(s, x);
    if i < k { assert s[..k][i] == x; }
  }

  ghost function Stopped(es: seq<Event>, targets: set<Target>, k: nat): set<Target>
    requires k <= |es|
  {
    set t | t in targets && StopOf(t) in es[..k]
  }

  lemma EventKind(es: seq<Event>, targets: set<Target>, k: nat)
    requires Arranges(es, targets) && k < |es|
    ensures es[k].target in targets && es[k] == if es[k].stop then StopOf(es[k].target) else StartOf(es[k].target)
  {
    assert es[k] in es && IsEventOf(es[k], targets);
  }

  lemma AfterStart(es: seq<Event>, targets: set<Target>, k: nat)
    requires Arranges(es, targets) && k < |es| && !es[k].stop
    requires forall t | t in Stopped(es, targets, k) :: t.start <= t.end
    ensures Running(es, targets, k + 1) == Running(es, targets, k) + {es[k].target}
    ensures Stopped(es, targets, k + 1) == Stopped(es, targets, k)
  {
    EventKind(es, targets, k);
    FirstOccurrence(es, targets, k);
    assert es[..k + 1] == es[..k] + [es[k]];
  }

  lemma AfterStop(es: seq<Event>, targets: set<Target>, k: nat)
    requires Arranges(es, targets) && k < |es| && es[k].stop
    ensures es[k].target !in Stopped(es, targets, k)
    ensures Running(es, targets, k + 1) == Running(es, targets, k) - {es[k].target}
    ensures Stopped(es, targets, k + 1) == Stopped(es, targets, k) + {es[k].target}
  {
    EventKind(es, targets, k);
    FirstOccurrence(es, targets, k);
    assert es[..k + 1] == es[..k] + [es[k]];
  }

  /** The sum of the full shares of the targets in done. */
  ghost function SettledShare(entries: seq<Target>, done: set<Target>, targets: set<Target>, cuts: seq<real>): real
    requires |cuts| > 0
  {
    if entries == [] then 0.0
    else (if entries[0] in done then FullShare(targets, entries[0], cuts) else 0.0)
         + SettledShare(entries[1..], done, targets, cuts)
  }

  lemma {:induction false} SettleOne(
      entries: seq<Target>, done: set<Target>, t: Target, targets: set<Target>, cuts: seq<real>)
    requires |cuts| > 0 && Distinct(entries) && t !in done
    ensures SettledShare(entries, done + {t}, targets, cuts)
         == SettledShare(entries, done, targets, cuts) + if t in entries then FullShare(targets, t, cuts) else 0.0
  {
    if entries != [] {
      SettleOne(entries[1..], done, t, targets, cuts);
      assert t in entries <==> t == entries[0] || t in entries[1..];
    }
  }

  lemma {:induction false} NoneSettled(entries: seq<Target>, targets: set<Target>, cuts: seq<real>)
    requires |cuts| > 0
    ensures SettledShare(entries, {}, targets, cuts) == 0.0
  {
    if entries != [] { NoneSettled(entries[1..], targets, cuts); }
  }

  lemma {:induction false} AllSettled(entries: seq<Target>, done: set<Target>, targets: set<Target>, cuts: seq<real>)
    requires |cuts| > 0 && Members(entries) <= done
    ensures SettledShare(entries, done, targets, cuts) == TotalShare(entries, targets, cuts, |cuts| - 1)
  {
    if entries != [] {
      assert entries[0] in Members(entries);
      assert Members(entries[1..]) <= Members(entries);
      AllSettled(entries[1..], done, targets, cuts);
    }
  }

  lemma RateStep(es: seq<Event>, targets: set<Target>, k: nat)
    requires Arranges(es, targets) && 0 < k < |es|
    ensures var n := |Running(es, targets, k)|;
            Rate(targets, es[k - 1].time, es[k].time) == if n == 0 then 0.0 else PerTask(es[k].time - es[k - 1].time, n)
  {
    if es[k - 1].time < es[k].time {
      RunningIsActive(es, targets, k);
    } else {
      assert InOrder(es[k - 1], es[k]);
    }
  }

  /** What the sweep adds to its clock before it looks at an event. */
  function Accumulated(weighted: real, elapsed: real, numRunning: nat): real {
    if numRunning > 0 then weighted + PerTask(elapsed, numRunning) else weighted
  }

  ghost function TimeBefore(es: seq<Event>, k: nat): real
    requires k <= |es| && |es| > 0
  {
    if k == 0 then es[0].time else es[k - 1].time
  }

  ghost function ClockBefore(es: seq<Event>, targets: set<Target>, k: nat): real
    requires k <= |es|
  {
    if k == 0 then 0.0 else Clock(targets, Times(es), k - 1)
  }

  lemma ClockStep(es: seq<Event>, targets: set<Target>, k: nat, running: set<Target>)
    requires Arranges(es, targets) && k < |es| && running == Running(es, targets, k)
    ensures Accumulated(ClockBefore(es, targets, k), es[k].time - TimeBefore(es, k), |running|)
         == Clock(targets, Times(es), k) == ClockBefore(es, targets, k + 1)
    ensures TimeBefore(es, k + 1) == es[k].time
  {
    if k > 0 { RateStep(es, targets, k); } else { assert running == {}; }
  }

  lemma BeforeFirst(es: seq<Event>, targets: set<Target>)
    requires |es| > 0
    ensures Running(es, targets, 0) == {} && Stopped(es, targets, 0) == {}
    ensures ClockBefore(es, targets, 0) == 0.0 && TimeBefore(es, 0) == es[0].time
  {
  }

  lemma AfterLast(es: seq<Event>, targets: set<Target>)
    requires Arranges(es, targets)
    ensures Stopped(es, targets, |es|) == targets && Running(es, targets, |es|) == {}
  {
    assert es[..|es|] == es;
  }

  lemma FirstOccurrence(es: seq<Event>, targets: set<Target>, k: nat)
    requires Arranges(es, targets) && k < |es|
    ensures IndexOf(es, es[k]) == k && es[k] !in es[..k]
  {
    PrefixIndex(es, es[k], k);
  }

  /** A stop event whose target is not running comes before the start event. */
  lemma StopBeforeStart(es: seq<Event>, targets: set<Target>, k: nat)
    requires Arranges(es, targets) && k < |es| && es[k].stop && es[k].target !in Running(es, targets, k)
    ensures es[k].target in targets && es[k].target.end < es[k].target.start
  {
    EventKind(es, targets, k);
    FirstOccurrence(es, targets, k);
    var start := StartOf(es[k].target);
    PrefixIndex(es, start, k);
    assert InOrder(es[k], es[IndexOf(es, start)]);
  }

  /** The clock when target t starts. */
  ghost function ClockAtStart(es: seq<Event>, targets: set<Target>, t: Target): real {
    if StartOf(t) in es then Clock(targets, Times(es), IndexOf(es, StartOf(t))) else 0.0
  }

  lemma StartClock(es: seq<Event>, targets: set<Target>, k: nat)
    requires Arranges(es, targets) && k < |es| && !es[k].stop
    ensures ClockAtStart(es, targets, es[k].target) == Clock(targets, Times(es), k)
  {
    EventKind(es, targets, k);
    FirstOccurrence(es, targets, k);
  }

  /** Between its start and its stop the clock moves by a target's share. */
  lemma StopCharge(es: seq<Event>, targets: set<Target>, k: nat)
    requires Arranges(es, targets) && k < |es| && es[k].stop && es[k].target in Running(es, targets, k)
    ensures es[k].target.start <= es[k].target.end
    ensures Clock(targets, Times(es), k) - ClockAtStart(es, targets, es[k].target)
         == FullShare(targets, es[k].target, Times(es))
  {
    hide Share, Clock;
    EventKind(es, targets, k);
    var start := StartOf(es[k].target);
    PrefixIndex(es, start, k);
    var i := IndexOf(es, start);
    assert InOrder(es[i], es[k]);
    ArrangedTimesCover(es, targets);
    ShareAsClock(targets, es[k].target, Times(es), i, k, |es| - 1);
  }

  /** running holds the targets that the sweep asserts to be none. */
  datatype SweepOutcome = KeyError | Swept(weightedTotal: real, running: map<Target, real>)

  /** Target t has been charged exactly its share. */
  ghost predicate Charged(t: Target, targets: set<Target>, cuts: seq<real>)
    requires |cuts| > 0
    reads t
  {
    t.start <= t.end && t.weightedDuration == FullShare(targets, t, cuts)
  }

  lemma ChargedNow(t: Target, targets: set<Target>, cuts: seq<real>)
    requires |cuts| > 0 && t.start <= t.end && t.weightedDuration == FullShare(targets, t, cuts)
    ensures Charged(t, targets, cuts)
  {
  }

  lemma ChargedInOrder(done: set<Target>, targets: set<Target>, cuts: seq<real>)
    requires |cuts| > 0 && forall t | t in done :: Charged(t, targets, cuts)
    ensures forall t | t in done :: t.start <= t.end
  {
  }

  /** The local variables of the sweep. */
  datatype Progress = Progress(running: map<Target, real>, lastTime: real, weightedTime: real, weightedTotal: real)

  /** What holds after the first k events. */
  ghost predicate InProgress(p: Progress, k: nat, entries: seq<Target>, events: seq<Event>, targets: set<Target>)
    requires k <= |events| && |events| > 0
    reads targets
  {
    && p.running.Keys == Running(events, targets, k)
    && p.lastTime == TimeBefore(events, k)
    && p.weightedTime == ClockBefore(events, targets, k)
    && (forall t | t in p.running :: p.running[t] == ClockAtStart(events, targets, t))
    && (forall t | t in Stopped(events, targets, k) :: t in targets && Charged(t, targets, Times(events)))
    && p.weightedTotal == SettledShare(entries, Stopped(events, targets, k), targets, Times(events))
  }

  method HandleStart(p: Progress, event: Event, ghost k: nat, ghost entries: seq<Target>,
                     ghost events: seq<Event>, ghost targets: set<Target>)
    returns (q: Progress)
    requires Arranges(events, targets) && k < |events| && event == events[k] && !event.stop
    requires InProgress(p, k, entries, events, targets)
    ensures InProgress(q, k + 1, entries, events, targets)
  {
    hide Arranges, Running, Stopped, ClockBefore, TimeBefore, ClockAtStart;
    hide SettledShare, Accumulated, Times, Clock, Charged;
    ClockStep(events, targets, k, p.running.Keys);
    ChargedInOrder(Stopped(events, targets, k), targets, Times(events));
    StartClock(events, targets, k);
    AfterStart(events, targets, k);
    var weightedTime := Accumulated(p.weightedTime, event.time - p.lastTime, |p.running|);
    q := p.(running := p.running[event.target := weightedTime], lastTime := event.time, weightedTime := weightedTime);
  }

  method HandleStop(p: Progress, event: Event, ghost k: nat, ghost entries: seq<Target>,
                    ghost events: seq<Event>, ghost targets: set<Target>)
    returns (ok: bool, q: Progress)
    requires Distinct(entries) && targets == Members(entries)
    requires Arranges(events, targets) && k < |events| && event == events[k] && event.stop
    requires InProgress(p, k, entries, events, targets)
    modifies event.target`weightedDuration
    ensures ok ==> InProgress(q, k + 1, entries, events, targets)
    ensures !ok ==> exists t | t in targets :: t.end < t.start
  {
    hide Arranges, Running, Stopped, ClockBefore, TimeBefore, ClockAtStart, SettledShare;
    hide Accumulated, Times, Clock, Charged, FullShare;
    var target := event.target;
    EventKind(events, targets, k);
    ClockStep(events, targets, k, p.running.Keys);
    var weightedTime := Accumulated(p.weightedTime, event.time - p.lastTime, |p.running|);
    if target !in p.running {
      StopBeforeStart(events, targets, k);
      return false, p;
    }
    StopCharge(events, targets, k);
    AfterStop(events, targets, k);
    SettleOne(entries, Stopped(events, targets, k), target, targets, Times(events));
    var weightedDuration := weightedTime - p.running[target];
    target.weightedDuration := weightedDuration;
    ChargedNow(target, targets, Times(events));
    ok := true;
    q := Progress(p.running - {target}, event.time, weightedTime, p.weightedTotal + weightedDuration);
  }

  /** One pass over the events.  Whatever the order of events with equal keys, each
      target is charged its share; a stop event that meets no running target is
      the only failure, and it means that some target ends before it starts. */
  method Sweep(entries: seq<Target>, events: seq<Event>, ghost targets: set<Target>) returns (r: SweepOutcome)
    requires Distinct(entries) && targets == Members(entries)
    requires Arranges(events, targets) && |events| > 0
    modifies targets`weightedDuration
    ensures r.KeyError? <==> exists t | t in targets :: t.end < t.start
    ensures r.Swept? ==> r.running == map[]
    ensures r.Swept? ==> forall t | t in targets :: Charged(t, targets, Times(events))
    ensures r.Swept? ==> r.weightedTotal == Busy(targets, Times(events), |Times(events)| - 1)
  {
    hide Arranges, Running, Stopped, ClockBefore, TimeBefore, ClockAtStart, SettledShare;
    hide Times, Clock, Charged, Distinct, Busy;
    NoneSettled(entries, targets, Times(events));
    BeforeFirst(events, targets);
    var p := Progress(map[], events[0].time, 0.0, 0.0);
    for k := 0 to |events|
      invariant InProgress(p, k, entries, events, targets)
    {
      EventKind(events, targets, k);
      if events[k].stop {
        var ok;
        ok, p := HandleStop(p, events[k], k, entries, events, targets);
        if !ok { return KeyError; }
      } else {
        p := HandleStart(p, events[k], k, entries, events, targets);
      }
    }
    AfterLast(events, targets);
    AllSettled(entries, targets, targets, Times(events));
    Conservation(entries, Times(events), |Times(events)| - 1);
    ChargedInOrder(targets, targets, Times(events));
    r := Swept(p.weightedTotal, p.running);
  }

  function CpuTime(entries: seq<Target>): real {
    if entries == [] then 0.0 else CpuTime(entries[..|entries| - 1]) + entries[|entries| - 1].Duration()
  }

  function Earliest(entries: seq<Target>): real {
    if entries == [] then -1.0
    else
      var before, start := Earliest(entries[..|entries| - 1]), entries[|entries| - 1].start;
      if before < 0.0 || start < before then start else before
  }

  function Latest(entries: seq<Target>): real {
    if entries == [] then 0.0
    else
      var before, end := Latest(entries[..|entries| - 1]), entries[|entries| - 1].end;
      if end > before then end else before
  }

  // ------------------------------------------------------ CPU time as an area

  /** The part of a target's life that lies in the first k intervals. */
  function Lifetime(t: Target, cuts: seq<real>, k: nat): real
    requires k < |cuts|
  {
    if k == 0 then 0.0
    else Lifetime(t, cuts, k - 1) + if t.start <= cuts[k - 1] && cuts[k] <= t.end then cuts[k] - cuts[k - 1] else 0.0
  }

  function TotalLifetime(entries: seq<Target>, cuts: seq<real>, k: nat): real
    requires k < |cuts|
  {
    if entries == [] then 0.0 else Lifetime(entries[0], cuts, k) + TotalLifetime(entries[1..], cuts, k)
  }

  /** The area under the number of running targets. */
  function Area(targets: set<Target>, cuts: seq<real>, k: nat): real
    requires k < |cuts|
  {
    if k == 0 then 0.0
    else Area(targets, cuts, k - 1) + Rectangle(|Active(targets, cuts[k - 1], cuts[k])|, cuts[k] - cuts[k - 1])
  }

  function Rectangle(height: nat, width: real): real {
    height as real * width
  }

  lemma RectangleIsScaled(height: nat, width: real)
    ensures Rectangle(height, width) == Scaled(height, width)
  {
    ScaledIsProduct(height, width);
  }

  lemma {:induction false} LifetimeAt(t: Target, cuts: seq<real>, j0: nat, j1: nat, k: nat)
    requires Ascending(cuts) && j0 <= j1 < |cuts| && k < |cuts|
    requires cuts[j0] == t.start && cuts[j1] == t.end
    ensures Lifetime(t, cuts, k) == if k <= j0 then 0.0 else cuts[if k <= j1 then k else j1] - cuts[j0]
  {
    if k > 0 {
      LifetimeAt(t, cuts, j0, j1, k - 1);
      if k <= j0 {
        assert cuts[k - 1] <= cuts[k] <= cuts[j0];
      } else if k <= j1 {
        assert cuts[j0] <= cuts[k - 1] && cuts[k] <= cuts[j1];
      } else {
        assert cuts[j1] <= cuts[k - 1] <= cuts[k];
      }
    }
  }

  lemma LifetimeIsDuration(t: Target, targets: set<Target>, cuts: seq<real>)
    requires Covers(cuts, targets) && t in targets && t.start <= t.end
    ensures |cuts| > 0 && Lifetime(t, cuts, |cuts| - 1) == t.Duration()
  {
    var j0, j1 := IndexOf(cuts, t.start), IndexOf(cuts, t.end);
    LifetimeAt(t, cuts, j0, j1, |cuts| - 1);
  }

  lemma {:induction false} TotalLifetimeStep(entries: seq<Target>, cuts: seq<real>, k: nat)
    requires Distinct(entries) && 0 < k < |cuts|
    ensures TotalLifetime(entries, cuts, k)
         == TotalLifetime(entries, cuts, k - 1)
            + Scaled(|Active(Members(entries), cuts[k - 1], cuts[k])|, cuts[k] - cuts[k - 1])
  {
    ActiveStep(entries, cuts[k - 1], cuts[k]);
    if entries != [] { TotalLifetimeStep(entries[1..], cuts, k); }
  }

  lemma {:induction false} NoLifetime(entries: seq<Target>, cuts: seq<real>)
    requires |cuts| > 0
    ensures TotalLifetime(entries, cuts, 0) == 0.0
  {
    if entries != [] { NoLifetime(entries[1..], cuts); }
  }

  lemma {:induction false} LifetimesFillArea(entries: seq<Target>, cuts: seq<real>, k: nat)
    requires Distinct(entries) && k < |cuts|
    ensures TotalLifetime(entries, cuts, k) == Area(Members(entries), cuts, k)
  {
    if k == 0 {
      NoLifetime(entries, cuts);
    } else {
      LifetimesFillArea(entries, cuts, k - 1);
      TotalLifetimeStep(entries, cuts, k);
      RectangleIsScaled(|Active(Members(entries), cuts[k - 1], cuts[k])|, cuts[k] - cuts[k - 1]);
      hide TotalLifetime, Active, Scaled, Rectangle;
    }
  }

  lemma {:induction false} CpuTimeSplits(entries: seq<Target>)
    requires entries != []
    ensures CpuTime(entries) == entries[0].Duration() + CpuTime(entries[1..])
  {
    if |entries| > 1 {
      var init := entries[..|entries| - 1];
      CpuTimeSplits(init);
      assert entries[1..][..|entries| - 2] == init[1..];
    }
  }

  lemma {:induction false} DurationsAreLifetimes(entries: seq<Target>, targets: set<Target>, cuts: seq<real>)
    requires Covers(cuts, targets) && |cuts| > 0
    requires forall t | t in entries :: t in targets && t.start <= t.end
    ensures CpuTime(entries) == TotalLifetime(entries, cuts, |cuts| - 1)
  {
    hide Covers, Lifetime;
    if entries != [] {
      CpuTimeSplits(entries);
      LifetimeIsDuration(entries[0], targets, cuts);
      DurationsAreLifetimes(entries[1..], targets, cuts);
    }
  }

  /** CPU time is the area under the number of running targets. */
  lemma CpuTimeIsArea(entries: seq<Target>, cuts: seq<real>)
    requires Distinct(entries) && Covers(cuts, Members(entries)) && |cuts| > 0
    requires forall t | t in entries :: t.start <= t.end
    ensures CpuTime(entries) == Area(Members(entries), cuts, |cuts| - 1)
  {
    hide Covers, Distinct, CpuTime;
    DurationsAreLifetimes(entries, Members(entries), cuts);
    LifetimesFillArea(entries, cuts, |cuts| - 1);
  }

  lemma IntervalArea(targets: set<Target>, a: real, b: real)
    requires a <= b
    ensures var n, busy := |Active(targets, a, b)|, if Active(targets, a, b) == {} then 0.0 else b - a;
            busy <= Scaled(n, b - a) <= Scaled(|targets|, busy)
  {
    var n := |Active(targets, a, b)|;
    SubsetSize(Active(targets, a, b), targets);
    ScaledGrows(n, |targets|, b - a);
    if n > 0 { ScaledGrows(1, n, b - a); } else { ScaledIsProduct(|targets|, 0.0); }
  }

  lemma {:induction false} AreaBounds(targets: set<Target>, cuts: seq<real>, k: nat)
    requires Ascending(cuts) && k < |cuts|
    ensures Busy(targets, cuts, k) <= Area(targets, cuts, k) <= Scaled(|targets|, Busy(targets, cuts, k))
  {
    if k == 0 {
      ScaledIsProduct(|targets|, 0.0);
    } else {
      var a, b := cuts[k - 1], cuts[k];
      AreaBounds(targets, cuts, k - 1);
      IntervalArea(targets, a, b);
      RectangleIsScaled(|Active(targets, a, b)|, b - a);
      hide Scaled, Active, Rectangle;
      ScaledAdds(|targets|, Busy(targets, cuts, k - 1), if Active(targets, a, b) == {} then 0.0 else b - a);
    }
  }

  /** The parallelism of a build is at most the number of its targets, and at least one
      when there is no idle gap. */
  lemma ParallelismBounds(entries: seq<Target>)
    requires Distinct(entries) && NonNegative(entries) && entries != []
    requires (forall t | t in entries :: t.start <= t.end) && Latest(entries) != Earliest(entries)
    ensures |CutsOf(entries)| > 0
    ensures var parallelism := CpuTime(entries) / (Latest(entries) - Earliest(entries));
            && parallelism <= |entries| as real
            && (NoIdleGap(Members(entries), CutsOf(entries)) ==> parallelism >= 1.0)
  {
    var targets, cuts := Members(entries), CutsOf(entries);
    var n := |cuts| - 1;
    hide Earliest, Latest, CpuTime, CutsOf, Members, NonNegative, NoIdleGap, Busy, Area, Scaled, Covers, Distinct;
    CutsCover(entries);
    LengthIsSpan(entries);
    CpuTimeIsArea(entries, cuts);
    CoversAscends(cuts, targets);
    AreaBounds(targets, cuts, n);
    BusyAtMost(targets, cuts, n);
    BusyAtLeastZero(targets, cuts, n);
    BusyIsLengthIffNoGap(targets, cuts);
    MembersCount(entries);
    Ratio(CpuTime(entries), Busy(targets, cuts, n), Latest(entries) - Earliest(entries), |targets|, |entries|);
  }

  lemma {:induction false} BusyAtLeastZero(targets: set<Target>, cuts: seq<real>, k: nat)
    requires Ascending(cuts) && k < |cuts|
    ensures Busy(targets, cuts, k) >= 0.0
  {
    hide Active;
    if k > 0 { BusyAtLeastZero(targets, cuts, k - 1); }
  }

  lemma CoversAscends(cuts: seq<real>, targets: set<Target>)
    requires Covers(cuts, targets)
    ensures Ascending(cuts)
  {
  }

  lemma {:induction false} MembersCount(entries: seq<Target>)
    ensures |Members(entries)| <= |entries|
  {
    if entries != [] {
      MembersCount(entries[1..]);
      assert Members(entries) == {entries[0]} + Members(entries[1..]);
    } else {
      assert Members(entries) == {};
    }
  }

  lemma Ratio(cpu: real, busy: real, length: real, n: nat, m: nat)
    requires 0.0 <= busy <= length && length != 0.0 && n <= m && busy <= cpu <= Scaled(n, busy)
    ensures cpu / length <= m as real
    ensures busy == length ==> cpu / length >= 1.0
  {
    ScaledGrows(n, m, busy);
    ScaledIsProduct(m, busy);
    Quotient(cpu, length, m as real, busy);
  }

  lemma Quotient(cpu: real, length: real, m: real, busy: real)
    requires length > 0.0 && 0.0 <= busy <= length && 0.0 <= m && cpu <= m * busy
    ensures cpu / length <= m
    ensures cpu >= length ==> cpu / length >= 1.0
  {
    assert m * busy <= m * length;
    AtMost(cpu, length, m);
    assert length / length == 1.0;
    if cpu >= length { AtMostQuotient(length, cpu, length); }
  }

  lemma AtMost(x: real, d: real, m: real)
    requires d > 0.0 && x <= m * d
    ensures x / d <= m
  {
  }

  lemma AtMostQuotient(x: real, y: real, d: real)
    requires d > 0.0 && x <= y
    ensures x / d <= y / d
  {
  }

  /** Log times are counted from the start of the build. */
  predicate NonNegative(entries: seq<Target>) {
    forall t | t in entries :: 0.0 <= t.start && 0.0 <= t.end
  }

  lemma {:induction false} EarliestIsLeast(entries: seq<Target>)
    requires NonNegative(entries) && entries != []
    ensures forall t | t in entries :: 0.0 <= Earliest(entries) <= t.start
    ensures exists t | t in entries :: t.start == Earliest(entries)
  {
    var init, last := entries[..|entries| - 1], entries[|entries| - 1];
    assert entries == init + [last];
    if init != [] {
      EarliestIsLeast(init);
      var t :| t in init && t.start == Earliest(init);
      assert t in entries && last in entries;
    }
  }

  lemma {:induction false} LatestIsGreatest(entries: seq<Target>)
    requires NonNegative(entries) && entries != []
    ensures 0.0 <= Latest(entries) && forall t | t in entries :: t.end <= Latest(entries)
    ensures exists t | t in entries :: t.end == Latest(entries)
  {
    var init, last := entries[..|entries| - 1], entries[|entries| - 1];
    assert entries == init + [last];
    if init != [] {
      LatestIsGreatest(init);
      var t :| t in init && t.end == Latest(init);
      assert t in entries && last in entries;
    }
  }

  /** The cuts the sweep itself produces: all start and stop times in order. */
  function CutsOf(entries: seq<Target>): seq<real> {
    Times(SortEvents(EventsOf(entries)))
  }

  lemma CutsCover(entries: seq<Target>)
    requires Distinct(entries)
    ensures Covers(CutsOf(entries), Members(entries))
    ensures |CutsOf(entries)| > 0 <==> entries != []
  {
    SortArranges(entries);
    ArrangedTimesCover(SortEvents(EventsOf(entries)), Members(entries));
    if entries != [] {
      assert entries[0] in Members(entries);
      assert StartOf(entries[0]) in SortEvents(EventsOf(entries));
    }
  }

  /** The computed length runs from the first start to the last end. */
  lemma LengthIsSpan(entries: seq<Target>)
    requires Distinct(entries) && NonNegative(entries) && entries != []
    requires forall t | t in entries :: t.start <= t.end
    ensures var cuts := CutsOf(entries);
            |cuts| > 0 && Latest(entries) - Earliest(entries) == cuts[|cuts| - 1] - cuts[0]
  {
    var a, b := FirstAndLast(entries);
    EarliestIsLeast(entries);
    LatestIsGreatest(entries);
    hide *;
    var t :| t in entries && t.start == Earliest(entries);
    var u :| u in entries && u.end == Latest(entries);
  }

  lemma CutsBracket(cuts: seq<real>, targets: set<Target>)
    requires Covers(cuts, targets) && |cuts| > 0
    ensures forall t | t in targets :: cuts[0] <= t.start && t.end <= cuts[|cuts| - 1]
  {
    forall t | t in targets ensures cuts[0] <= t.start && t.end <= cuts[|cuts| - 1] {
      assert t.start in cuts && t.end in cuts;
    }
  }

  lemma EventWithinTarget(es: seq<Event>, targets: set<Target>, k: nat) returns (a: Target)
    requires Arranges(es, targets) && k < |es| && forall t | t in targets :: t.start <= t.end
    ensures a in targets && a.start <= es[k].time <= a.end
  {
    EventKind(es, targets, k);
    hide Arranges;
    a := es[k].target;
  }

  lemma FirstAndLast(entries: seq<Target>) returns (a: Target, b: Target)
    requires Distinct(entries) && entries != []
    requires forall t | t in entries :: t.start <= t.end
    ensures var cuts := CutsOf(entries);
            && |cuts| > 0
            && a in entries && b in entries && a.start <= cuts[0] && cuts[|cuts| - 1] <= b.end
            && forall t | t in entries :: cuts[0] <= t.start && t.end <= cuts[|cuts| - 1]
  {
    hide EventsOf, SortEvents, Arranges, Covers, Distinct;
    var targets, es := Members(entries), SortEvents(EventsOf(entries));
    SortArranges(entries);
    CutsCover(entries);
    CutsBracket(CutsOf(entries), targets);
    a := EventWithinTarget(es, targets, 0);
    b := EventWithinTarget(es, targets, |es| - 1);
  }

  datatype Outcome =
    | IndexError         // no targets: there is no first event
    | TargetKeyError     // a stop event for a target that is not running
    | ZeroDivisionError  // the whole build takes no time
    | Summary(length: real, weightedTotal: real, cpuTime: real, parallelism: real)

  method GatherEvents(entries: seq<Target>)
    returns (events: seq<Event>, earliest: real, latest: real, totalCpuTime: real)
    ensures events == EventsOf(entries)
    ensures earliest == Earliest(entries) && latest == Latest(entries)
    ensures totalCpuTime == CpuTime(entries)
  {
    events, earliest, latest, totalCpuTime := [], -1.0, 0.0, 0.0;
    for i := 0 to |entries|
      invariant events == EventsOf(entries[..i])
      invariant earliest == Earliest(entries[..i]) && latest == Latest(entries[..i])
      invariant totalCpuTime == CpuTime(entries[..i])
    {
      var target := entries[i];
      assert entries[..i + 1][..i] == entries[..i];
      if earliest < 0.0 || target.start < earliest {
        earliest := target.start;
      }
      if target.end > latest {
        latest := target.end;
      }
      totalCpuTime := totalCpuTime + target.Duration();
      events := events + [StartOf(target), StopOf(target)];
    }
    assert entries[..|entries|] == entries;
  }

  lemma ChargedIsBounded(targets: set<Target>, cuts: seq<real>)
    requires Covers(cuts, targets) && |cuts| > 0
    requires forall t | t in targets :: Charged(t, targets, cuts)
    ensures forall t | t in targets :: t.weightedDuration <= t.Duration() && t.WeightedDurationOk()
  {
    hide FullShare, Covers;
    forall t | t in targets ensures t.weightedDuration <= t.Duration() && t.WeightedDurationOk() {
      assert Charged(t, targets, cuts);
      ShareBounds(targets, t, cuts);
    }
  }

  /** The summary of a build, up to the printing of it.  Every target gets its share
      and the check on its weighted duration cannot fail. */
  method SummarizeEntries(entries: seq<Target>) returns (r: Outcome)
    requires Distinct(entries)
    modifies Members(entries)`weightedDuration
    ensures r.IndexError? <==> entries == []
    ensures r.TargetKeyError? <==> exists t | t in Members(entries) :: t.end < t.start
    ensures r.Summary? ==> r.length == Latest(entries) - Earliest(entries) != 0.0
    ensures r.Summary? ==> r.cpuTime == CpuTime(entries) && r.parallelism == r.cpuTime / r.length
    ensures r.ZeroDivisionError? ==> Latest(entries) == Earliest(entries)
    ensures r.Summary? || r.ZeroDivisionError? ==>
      && |CutsOf(entries)| > 0
      && forall t | t in Members(entries) ::
           && Charged(t, Members(entries), CutsOf(entries))
           && t.weightedDuration <= t.Duration() && t.WeightedDurationOk()
    ensures r.Summary? ==>
      && |CutsOf(entries)| > 0
      && r.weightedTotal == Busy(Members(entries), CutsOf(entries), |CutsOf(entries)| - 1)
  {
    hide Busy, SortEvents, EventsOf, Times, Distinct, Arranges, Covers, Charged, Target.WeightedDurationOk;
    hide CpuTime, Earliest, Latest;
    var taskStartStopTimes, earliest, latest, totalCpuTime := GatherEvents(entries);
    var length := latest - earliest;
    var events := SortEvents(taskStartStopTimes);
    SortArranges(entries);
    CutsCover(entries);
    if |events| == 0 {
      return IndexError;
    }
    var swept := Sweep(entries, events, Members(entries));
    if swept.KeyError? {
      return TargetKeyError;
    }
    ChargedIsBounded(Members(entries), CutsOf(entries));
    r := if length == 0.0 then ZeroDivisionError
         else Summary(length, swept.weightedTotal, totalCpuTime, totalCpuTime / length);
  }

  lemma {:induction false} TotalIndependentOfCuts(
      entries: seq<Target>, targets: set<Target>, a: seq<real>, b: seq<real>)
    requires Covers(a, targets) && Covers(b, targets) && |a| > 0 && |b| > 0 && Members(entries) <= targets
    ensures TotalShare(entries, targets, a, |a| - 1) == TotalShare(entries, targets, b, |b| - 1)
  {
    hide Share, Covers;
    if entries != [] {
      assert entries[0] in Members(entries) && Members(entries[1..]) <= Members(entries);
      ShareIndependentOfCuts(targets, entries[0], a, b);
      TotalIndependentOfCuts(entries[1..], targets, a, b);
    }
  }

  /** Neither the order of the entries nor the tie-break of the sort matters: any two
      arrangements of the events charge every target alike and total the same. */
  lemma TieBreakIndependent(entries: seq<Target>, es: seq<Event>, fs: seq<Event>)
    requires Distinct(entries) && |es| > 0 && |fs| > 0
    requires Arranges(es, Members(entries)) && Arranges(fs, Members(entries))
    ensures forall t | t in Members(entries) ::
              FullShare(Members(entries), t, Times(es)) == FullShare(Members(entries), t, Times(fs))
    ensures Busy(Members(entries), Times(es), |Times(es)| - 1) == Busy(Members(entries), Times(fs), |Times(fs)| - 1)
  {
    hide Share, Busy, Covers, Distinct, Arranges;
    var targets := Members(entries);
    ArrangedTimesCover(es, targets);
    ArrangedTimesCover(fs, targets);
    forall t | t in targets ensures FullShare(targets, t, Times(es)) == FullShare(targets, t, Times(fs)) {
      ShareIndependentOfCuts(targets, t, Times(es), Times(fs));
    }
    TotalIndependentOfCuts(entries, targets, Times(es), Times(fs));
    Conservation(entries, Times(es), |Times(es)| - 1);
    Conservation(entries, Times(fs), |Times(fs)| - 1);
  }
}
