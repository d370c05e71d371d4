/** The load-balanced scheduler of the prefill/decode proxy.

    A request is placed on the prefill instance with the least utilisation, then on
    the decode instance with the fewest requests, and each counter is given back when
    its stage ends.  Every call below is one step under the scheduler's lock; a run is
    any interleaving of such steps. */
module LoadBalancer {
  import opened Common

  function Min(s: seq<int>): (m: int)
    requires |s| > 0
    ensures m in s && forall x | x in s :: m <= x
  {
    if |s| == 1 then s[0]
    else
      var rest := Min(s[1..]);
      assert s == [s[0]] + s[1..];
      if s[0] <= rest then s[0] else rest
  }

  /** The first instance with the least value. */
  function ArgMin(s: seq<int>): (i: nat)
    requires |s| > 0
    ensures i < |s| && forall j :: 0 <= j < |s| ==> s[i] <= s[j]
    ensures forall j :: 0 <= j < i ==> s[i] < s[j]
  {
    var m := Min(s);
    assert forall j :: 0 <= j < |s| ==> s[j] in s;
    IndexOf(s, m)
  }

  // ------------------------------------------------------------------ The counters

  datatype Counters = Counters(utils: seq<int>, prefill: seq<int>, decode: seq<int>)

  predicate AllZero(s: seq<int>) {
    forall i :: 0 <= i < |s| ==> s[i] == 0
  }

  function Zeros(n: nat): seq<int> {
    seq(n, _ => 0)
  }

  predicate Shaped(c: Counters, prefillNames: seq<string>, decodeNames: seq<string>) {
    |c.utils| == |c.prefill| == |prefillNames| && |c.decode| == |decodeNames|
  }

  function PlacePrefill(c: Counters, requestLen: nat): Counters
    requires |c.utils| == |c.prefill| > 0
  {
    var i := ArgMin(c.utils);
    c.(prefill := c.prefill[i := c.prefill[i] + 1], utils := c.utils[i := c.utils[i] + requestLen])
  }

  function PlaceDecode(c: Counters): Counters
    requires |c.decode| > 0
  {
    var j := ArgMin(c.decode);
    c.(decode := c.decode[j := c.decode[j] + 1])
  }

  function FinishPrefill(c: Counters, i: nat): Counters
    requires i < |c.prefill| == |c.utils|
  {
    var prefill := c.prefill[i := c.prefill[i] - 1];
    c.(prefill := prefill, utils := if AllZero(prefill) then Zeros(|c.utils|) else c.utils)
  }

  function FinishDecode(c: Counters, j: nat): Counters
    requires j < |c.decode|
  {
    c.(decode := c.decode[j := c.decode[j] - 1])
  }

  class LoadBalancedScheduler {
    const prefillInstances: seq<string>
    const decodeInstances: seq<string>
    const prefillUtilsCounter: array<int>
    const prefillBsCounter: array<int>
    const decodeBsCounter: array<int>

    ghost predicate Valid() {
      && prefillUtilsCounter.Length == prefillBsCounter.Length == |prefillInstances|
      && decodeBsCounter.Length == |decodeInstances|
      && prefillUtilsCounter != prefillBsCounter
      && prefillUtilsCounter != decodeBsCounter
      && prefillBsCounter != decodeBsCounter
    }

    function View(): Counters
      reads prefillUtilsCounter, prefillBsCounter, decodeBsCounter
    {
      Counters(prefillUtilsCounter[..], prefillBsCounter[..], decodeBsCounter[..])
    }

    constructor (prefillInstances: seq<string>, decodeInstances: seq<string>)
      ensures Valid()
      ensures this.prefillInstances == prefillInstances && this.decodeInstances == decodeInstances
      ensures View() == Counters(Zeros(|prefillInstances|), Zeros(|prefillInstances|), Zeros(|decodeInstances|))
      ensures fresh(prefillUtilsCounter) && fresh(prefillBsCounter) && fresh(decodeBsCounter)
    {
      this.prefillInstances, this.decodeInstances := prefillInstances, decodeInstances;
      prefillUtilsCounter := new int[|prefillInstances|](_ => 0);
      prefillBsCounter := new int[|prefillInstances|](_ => 0);
      decodeBsCounter := new int[|decodeInstances|](_ => 0);
    }

    /** None stands for the ValueError of min over an empty list.  A missing length and
        a zero length both take the decode branch, as truthiness decides. */
    method Schedule(requestLen: Option<nat>) returns (r: Option<string>)
      requires Valid()
      modifies prefillUtilsCounter, prefillBsCounter, decodeBsCounter
      ensures var before := old(View());
              if requestLen.Some? && requestLen.value > 0 then
                if prefillInstances == [] then r.None? && View() == before
                else
                  && r == Some(prefillInstances[ArgMin(before.utils)])
                  && View() == PlacePrefill(before, requestLen.value)
              else
                if decodeInstances == [] then r.None? && View() == before
                else r == Some(decodeInstances[ArgMin(before.decode)]) && View() == PlaceDecode(before)
    {
      if requestLen.Some? && requestLen.value > 0 {
        if prefillUtilsCounter.Length == 0 { return None; }
        var minValue := Min(prefillUtilsCounter[..]);
        var minIndex := IndexOf(prefillUtilsCounter[..], minValue);
        prefillBsCounter[minIndex] := prefillBsCounter[minIndex] + 1;
        prefillUtilsCounter[minIndex] := prefillUtilsCounter[minIndex] + requestLen.value;
        return Some(prefillInstances[minIndex]);
      } else {
        if decodeBsCounter.Length == 0 { return None; }
        var minValue := Min(decodeBsCounter[..]);
        var minIndex := IndexOf(decodeBsCounter[..], minValue);
        decodeBsCounter[minIndex] := decodeBsCounter[minIndex] + 1;
        return Some(decodeInstances[minIndex]);
      }
    }

    /** The prefill half of a completion; false stands for the ValueError of an
        unknown name.  When the last running prefill ends, utilisation is cleared. */
    method CompletePrefill(name: string) returns (ok: bool)
      requires Valid()
      modifies prefillUtilsCounter, prefillBsCounter
      ensures ok <==> name in prefillInstances
      ensures View() == if ok then FinishPrefill(old(View()), IndexOf(prefillInstances, name)) else old(View())
    {
      if name !in prefillInstances { return false; }
      var index := IndexOf(prefillInstances, name);
      prefillBsCounter[index] := prefillBsCounter[index] - 1;
      var allZero := true;
      var i := 0;
      while i < |prefillInstances|
        invariant 0 <= i <= |prefillInstances|
        invariant allZero && forall k :: 0 <= k < i ==> prefillBsCounter[k] == 0
      {
        if prefillBsCounter[i] != 0 {
          allZero := false;
          break;
        }
        i := i + 1;
      }
      assert allZero <==> AllZero(prefillBsCounter[..]);
      if allZero {
        for k := 0 to |prefillInstances|
          modifies prefillUtilsCounter
          invariant forall j :: 0 <= j < k ==> prefillUtilsCounter[j] == 0
        {
          prefillUtilsCounter[k] := 0;
        }
      }
      ok := true;
    }

    method CompleteDecode(name: string) returns (ok: bool)
      requires Valid()
      modifies decodeBsCounter
      ensures ok <==> name in decodeInstances
      ensures View() == if ok then FinishDecode(old(View()), IndexOf(decodeInstances, name)) else old(View())
    {
      if name !in decodeInstances { return false; }
      var index := IndexOf(decodeInstances, name);
      decodeBsCounter[index] := decodeBsCounter[index] - 1;
      ok := true;
    }

    /** Either half is skipped when its name is missing or empty; an unknown prefill
        name raises before the decode half is reached. */
    method ScheduleCompletion(prefillInstance: Option<string>, decodeInstance: Option<string>) returns (ok: bool)
      requires Valid()
      modifies prefillUtilsCounter, prefillBsCounter, decodeBsCounter
      ensures View()
           == CompletionEffect(old(View()), prefillInstances, decodeInstances, prefillInstance, decodeInstance)
      ensures ok <==> Known(prefillInstance, prefillInstances) && Known(decodeInstance, decodeInstances)
    {
      ok := true;
      if prefillInstance.Some? && prefillInstance.value != "" {
        ok := CompletePrefill(prefillInstance.value);
        if !ok { return; }
      }
      if decodeInstance.Some? && decodeInstance.value != "" {
        ok := CompleteDecode(decodeInstance.value);
      }
    }
  }

  /** A name that is missing, empty, or one of the instances. */
  predicate Known(name: Option<string>, instances: seq<string>) {
    name.Some? && name.value != "" ==> name.value in instances
  }

  function CompletionEffect(c: Counters, prefillNames: seq<string>, decodeNames: seq<string>,
                            p: Option<string>, d: Option<string>): Counters
    requires Shaped(c, prefillNames, decodeNames)
  {
    var givesPrefill, givesDecode := p.Some? && p.value != "", d.Some? && d.value != "";
    if givesPrefill && p.value !in prefillNames then c
    else
      var c1 := if givesPrefill then FinishPrefill(c, IndexOf(prefillNames, p.value)) else c;
      if givesDecode && d.value in decodeNames then FinishDecode(c1, IndexOf(decodeNames, d.value)) else c1
  }

  predicate Given(name: Option<string>) {
    name.Some? && name.value != ""
  }

  /** What a completion does to each counter: nothing at all if the prefill instance is
      unknown; otherwise each stage that is given is given back once, and utilisation is
      cleared exactly when that leaves no prefill. */
  lemma CompletionExactly(c: Counters, prefillNames: seq<string>, decodeNames: seq<string>,
                          p: Option<string>, d: Option<string>)
    requires Shaped(c, prefillNames, decodeNames)
    ensures var t := CompletionEffect(c, prefillNames, decodeNames, p, d);
            if Given(p) && p.value !in prefillNames then t == c
            else
              && |t.prefill| == |c.prefill| && |t.decode| == |c.decode| && |t.utils| == |c.utils|
              && (forall i :: 0 <= i < |c.prefill| ==>
                    t.prefill[i] == c.prefill[i] - if Given(p) && i == IndexOf(prefillNames, p.value) then 1 else 0)
              && (forall j :: 0 <= j < |c.decode| ==>
                    t.decode[j] == c.decode[j]
                      - if Given(d) && d.value in decodeNames && j == IndexOf(decodeNames, d.value) then 1 else 0)
              && (forall i :: 0 <= i < |c.utils| ==>
                    t.utils[i] == if Given(p) && AllZero(t.prefill) then 0 else c.utils[i])
  {
  }

  // --------------------------------------------------------------- List scheduling

  datatype Job = Job(len: nat, inst: nat)

  /** The total length placed on instance i. */
  function Load(jobs: seq<Job>, i: nat): int {
    if jobs == [] then 0
    else
      var last := jobs[|jobs| - 1];
      Load(jobs[..|jobs| - 1], i) + if last.inst == i then last.len else 0
  }

  function Loads(jobs: seq<Job>, m: nat): (r: seq<int>)
    ensures |r| == m && forall i :: 0 <= i < m ==> r[i] == Load(jobs, i)
  {
    seq(m, i requires 0 <= i < m => Load(jobs, i))
  }

  function Longest(jobs: seq<Job>): (r: nat)
    ensures forall job | job in jobs :: job.len <= r
  {
    if jobs == [] then 0
    else
      var init, last := jobs[..|jobs| - 1], jobs[|jobs| - 1];
      assert jobs == init + [last];
      if Longest(init) < last.len then last.len else Longest(init)
  }

  function SumLens(jobs: seq<Job>): int {
    if jobs == [] then 0 else SumLens(jobs[..|jobs| - 1]) + jobs[|jobs| - 1].len
  }

  /** Every job went to the first least loaded of m instances. */
  predicate Greedy(jobs: seq<Job>, m: nat)
    requires m > 0
  {
    jobs == [] ||
    (Greedy(jobs[..|jobs| - 1], m) && jobs[|jobs| - 1].inst == ArgMin(Loads(jobs[..|jobs| - 1], m)))
  }

  predicate OnInstances(jobs: seq<Job>, m: nat) {
    forall k :: 0 <= k < |jobs| ==> jobs[k].inst < m
  }

  /** Greedy placement never lets two instances drift apart by more than one job. */
  lemma {:induction false} SpreadAtMostLongest(jobs: seq<Job>, m: nat, i: nat, j: nat)
    requires m > 0 && Greedy(jobs, m) && i < m && j < m
    ensures Load(jobs, i) - Load(jobs, j) <= Longest(jobs)
  {
    if jobs != [] {
      var init := jobs[..|jobs| - 1];
      SpreadAtMostLongest(init, m, i, j);
      assert Loads(init, m)[jobs[|jobs| - 1].inst] <= Loads(init, m)[j];
    }
  }

  lemma {:induction false} GreedyOnInstances(jobs: seq<Job>, m: nat)
    requires m > 0 && Greedy(jobs, m)
    ensures OnInstances(jobs, m)
  {
    if jobs != [] {
      GreedyOnInstances(jobs[..|jobs| - 1], m);
      assert jobs == jobs[..|jobs| - 1] + [jobs[|jobs| - 1]];
    }
  }

  function TotalLoad(jobs: seq<Job>, m: nat): int {
    if m == 0 then 0 else TotalLoad(jobs, m - 1) + Load(jobs, m - 1)
  }

  lemma {:induction false} TotalLoadStep(jobs: seq<Job>, m: nat)
    requires jobs != []
    ensures TotalLoad(jobs, m) == TotalLoad(jobs[..|jobs| - 1], m)
                                  + if jobs[|jobs| - 1].inst < m then jobs[|jobs| - 1].len else 0
  {
    if m > 0 { TotalLoadStep(jobs, m - 1); }
  }

  lemma {:induction false} EmptyLoad(m: nat)
    ensures TotalLoad([], m) == 0
  {
    if m > 0 { EmptyLoad(m - 1); }
  }

  lemma {:induction false} TotalLoadIsSum(jobs: seq<Job>, m: nat)
    requires OnInstances(jobs, m)
    ensures TotalLoad(jobs, m) == SumLens(jobs)
  {
    if jobs == [] {
      EmptyLoad(m);
    } else {
      TotalLoadIsSum(jobs[..|jobs| - 1], m);
      TotalLoadStep(jobs, m);
    }
  }

  lemma {:induction false} TotalAtLeast(jobs: seq<Job>, m: nat, bound: int)
    requires forall i :: 0 <= i < m ==> bound <= Load(jobs, i)
    ensures m * bound <= TotalLoad(jobs, m)
  {
    if m > 0 {
      TotalAtLeast(jobs, m - 1, bound);
      assert m * bound == (m - 1) * bound + bound;
    }
  }

  lemma {:induction false} TotalAtMost(jobs: seq<Job>, m: nat, bound: int)
    requires forall i :: 0 <= i < m ==> Load(jobs, i) <= bound
    ensures TotalLoad(jobs, m) <= m * bound
  {
    if m > 0 {
      TotalAtMost(jobs, m - 1, bound);
      assert m * bound == (m - 1) * bound + bound;
    }
  }

  /** The fullest instance leaves the others at most one longest job behind it. */
  lemma {:induction false} TotalNear(jobs: seq<Job>, m: nat, i: nat, gap: int, k: nat)
    requires i < m && k <= m && gap >= 0
    requires forall j :: 0 <= j < m ==> Load(jobs, i) - gap <= Load(jobs, j)
    ensures k * (Load(jobs, i) - gap) + (if i < k then gap else 0) <= TotalLoad(jobs, k)
  {
    if k > 0 {
      TotalNear(jobs, m, i, gap, k - 1);
      var floor := Load(jobs, i) - gap;
      assert k * floor == (k - 1) * floor + floor;
    }
  }

  lemma {:induction false} JobWithinLoad(jobs: seq<Job>, k: nat)
    requires k < |jobs|
    ensures jobs[k].len <= Load(jobs, jobs[k].inst)
  {
    LoadNonNegative(jobs[..|jobs| - 1], jobs[k].inst);
    if k < |jobs| - 1 {
      JobWithinLoad(jobs[..|jobs| - 1], k);
    }
  }

  lemma {:induction false} LoadNonNegative(jobs: seq<Job>, i: nat)
    ensures Load(jobs, i) >= 0
  {
    if jobs != [] { LoadNonNegative(jobs[..|jobs| - 1], i); }
  }

  predicate SameLengths(a: seq<Job>, b: seq<Job>) {
    |a| == |b| && forall k :: 0 <= k < |a| ==> a[k].len == b[k].len
  }

  lemma {:induction false} SameSum(a: seq<Job>, b: seq<Job>)
    requires SameLengths(a, b)
    ensures SumLens(a) == SumLens(b)
  {
    if a != [] { SameSum(a[..|a| - 1], b[..|b| - 1]); }
  }

  lemma {:induction false} LongestIsJob(jobs: seq<Job>) returns (k: nat)
    requires jobs != []
    ensures k < |jobs| && jobs[k].len == Longest(jobs)
  {
    var init := jobs[..|jobs| - 1];
    if init == [] || Longest(init) < jobs[|jobs| - 1].len {
      k := |jobs| - 1;
    } else {
      k := LongestIsJob(init);
    }
  }

  /** Graham's bound: no instance carries more than 2 - 1/m times what the fullest
      instance carries in any other placement of the same jobs. */
  lemma GrahamBound(jobs: seq<Job>, other: seq<Job>, m: nat, makespan: int, i: nat, load: int)
    requires m > 0 && Greedy(jobs, m) && i < m && load == Load(jobs, i)
    requires SameLengths(jobs, other) && OnInstances(other, m)
    requires forall j :: 0 <= j < m ==> Load(other, j) <= makespan
    ensures m * load <= (2 * m - 1) * makespan
  {
    hide Load, TotalLoad, SumLens, Greedy;
    if jobs == [] {
      EmptyBound(other, m, i);
    } else {
      var gap := Longest(jobs);
      forall j | 0 <= j < m ensures Load(jobs, i) - gap <= Load(jobs, j) {
        SpreadAtMostLongest(jobs, m, i, j);
      }
      TotalNear(jobs, m, i, gap, m);
      GreedyOnInstances(jobs, m);
      TotalLoadIsSum(jobs, m);
      TotalLoadIsSum(other, m);
      SameSum(jobs, other);
      TotalAtMost(other, m, makespan);
      var k := LongestIsJob(jobs);
      JobWithinLoad(other, k);
      GrahamArithmetic(m, load, gap, makespan);
    }
  }

  lemma EmptyBound(other: seq<Job>, m: nat, i: nat)
    ensures Load([], i) == 0 <= Load(other, 0)
  {
    LoadNonNegative(other, 0);
  }

  lemma GrahamArithmetic(m: nat, load: int, gap: int, makespan: int)
    requires m > 0 && gap <= makespan && m * (load - gap) + gap <= m * makespan
    ensures m * load <= (2 * m - 1) * makespan
  {
    Distribute(m, load, -gap);
    Distribute(makespan, m, m - 1);
    Distribute(gap, m, -1);
    ProductGrows(gap, makespan, m - 1);
  }

  lemma Distribute(k: int, a: int, b: int)
    ensures k * (a + b) == k * a + k * b
  {
  }

  // ------------------------------------------------------- The bound cannot improve

  /** r rounds of unit jobs, each round visiting the instances in order. */
  function Rounds(r: nat, m: nat): seq<Job> {
    if r == 0 then [] else Rounds(r - 1, m) + Round(m, m)
  }

  function Round(m: nat, t: nat): (js: seq<Job>)
    requires t <= m
    ensures |js| == t && forall k :: 0 <= k < t ==> js[k] == Job(1, k)
  {
    seq(t, k requires 0 <= k < t => Job(1, k))
  }

  /** b instances, numbered from 1, with m unit jobs each. */
  function Blocks(b: nat, m: nat): seq<Job> {
    if b == 0 then [] else Blocks(b - 1, m) + seq(m, _ => Job(1, b))
  }

  lemma AppendJob(jobs: seq<Job>, job: Job, m: nat)
    ensures forall i :: Load(jobs + [job], i) == Load(jobs, i) + if job.inst == i then job.len else 0
    ensures m > 0 ==>
      (Greedy(jobs + [job], m) <==> Greedy(jobs, m) && job.inst == ArgMin(Loads(jobs, m)))
  {
    assert (jobs + [job])[..|jobs + [job]| - 1] == jobs;
  }

  lemma ArgMinIs(s: seq<int>, k: nat)
    requires k < |s| && forall j :: 0 <= j < |s| ==> s[k] <= s[j]
    requires forall j :: 0 <= j < k ==> s[k] < s[j]
    ensures ArgMin(s) == k
  {
    var i := ArgMin(s);
    assert s[i] <= s[k];
  }

  predicate Filled(jobs: seq<Job>, q: int, m: nat, t: nat) {
    forall i :: 0 <= i < m ==> Load(jobs, i) == if i < t then q + 1 else q
  }

  lemma RoundStep(jobs: seq<Job>, q: int, m: nat, t: nat)
    requires t < m && Greedy(jobs, m) && Filled(jobs, q, m, t)
    ensures Greedy(jobs + [Job(1, t)], m) && Filled(jobs + [Job(1, t)], q, m, t + 1)
  {
    hide Load, Greedy, ArgMin;
    ArgMinIs(Loads(jobs, m), t);
    AppendJob(jobs, Job(1, t), m);
  }

  lemma {:induction false} RoundPrefix(base: seq<Job>, q: int, m: nat, t: nat)
    requires 0 < m && t <= m && Greedy(base, m) && Filled(base, q, m, 0)
    ensures Greedy(base + Round(m, t), m) && Filled(base + Round(m, t), q, m, t)
  {
    hide Greedy, Filled;
    if t == 0 {
      assert base + Round(m, 0) == base;
    } else {
      RoundPrefix(base, q, m, t - 1);
      RoundStep(base + Round(m, t - 1), q, m, t - 1);
      assert base + Round(m, t) == base + Round(m, t - 1) + [Job(1, t - 1)];
    }
  }

  lemma {:induction false} RoundsBalance(r: nat, m: nat)
    requires m > 0
    ensures Greedy(Rounds(r, m), m) && |Rounds(r, m)| == r * m
    ensures forall i :: 0 <= i < m ==> Load(Rounds(r, m), i) == r
    ensures forall job | job in Rounds(r, m) :: job.len == 1
  {
    if r > 0 {
      RoundsBalance(r - 1, m);
      RoundPrefix(Rounds(r - 1, m), r - 1, m, m);
      assert r * m == (r - 1) * m + m;
    }
  }

  lemma {:induction false} ConstantLoad(base: seq<Job>, n: nat, b: nat, i: nat)
    ensures Load(base + seq(n, _ => Job(1, b)), i) == Load(base, i) + if i == b then n else 0
  {
    if n == 0 {
      assert base + seq(n, _ => Job(1, b)) == base;
    } else {
      var jobs := base + seq(n, _ => Job(1, b));
      assert jobs[..|jobs| - 1] == base + seq(n - 1, _ => Job(1, b));
      ConstantLoad(base, n - 1, b, i);
    }
  }

  lemma {:induction false} BlocksBalance(b: nat, m: nat)
    ensures |Blocks(b, m)| == b * m && OnInstances(Blocks(b, m), b + 1)
    ensures forall i: nat :: Load(Blocks(b, m), i) == if 1 <= i <= b then m else 0
    ensures forall job | job in Blocks(b, m) :: job.len == 1
  {
    if b > 0 {
      BlocksBalance(b - 1, m);
      forall i: nat ensures Load(Blocks(b, m), i) == if 1 <= i <= b then m else 0 {
        ConstantLoad(Blocks(b - 1, m), m, b, i);
      }
      assert b * m == (b - 1) * m + m;
    }
  }

  lemma LongJobLast(units: seq<Job>, q: int, m: nat)
    requires m > 0 && Greedy(units, m) && forall i :: 0 <= i < m ==> Load(units, i) == q
    ensures Greedy(units + [Job(m, 0)], m) && Load(units + [Job(m, 0)], 0) == q + m
  {
    hide Load, Greedy, ArgMin;
    ArgMinIs(Loads(units, m), 0);
    AppendJob(units, Job(m, 0), m);
  }

  lemma UnitsAlike(a: seq<Job>, b: seq<Job>, job: Job)
    requires |a| == |b| && (forall x | x in a :: x.len == 1) && (forall x | x in b :: x.len == 1)
    ensures SameLengths(a + [job], b + [job])
  {
    assert forall k :: 0 <= k < |a| ==> a[k] in a && b[k] in b;
  }

  /** m - 1 rounds of unit requests, then one of length m; and a better placement. */
  function TightRun(m: nat): seq<Job>
    requires m > 0
  {
    Rounds(m - 1, m) + [Job(m, 0)]
  }

  function TightSpread(m: nat): seq<Job>
    requires m > 0
  {
    Blocks(m - 1, m) + [Job(m, 0)]
  }

  lemma TightSpreadLoads(m: nat)
    requires m > 0
    ensures OnInstances(TightSpread(m), m) && forall j :: 0 <= j < m ==> Load(TightSpread(m), j) <= m
  {
    BlocksBalance(m - 1, m);
    AppendJob(Blocks(m - 1, m), Job(m, 0), m);
    hide Blocks, Load;
  }

  /** For every number of instances some sequence of requests meets Graham's bound with
      equality, since m * (2m - 1) is (2m - 1) * m. */
  lemma GrahamBoundIsTight(m: nat)
    requires m > 0
    ensures Greedy(TightRun(m), m) && SameLengths(TightRun(m), TightSpread(m)) && OnInstances(TightSpread(m), m)
    ensures forall j :: 0 <= j < m ==> Load(TightSpread(m), j) <= m
    ensures Load(TightRun(m), 0) == 2 * m - 1
  {
    hide Rounds, Blocks, Load, Greedy;
    RoundsBalance(m - 1, m);
    BlocksBalance(m - 1, m);
    TightSpreadLoads(m);
    LongJobLast(Rounds(m - 1, m), m - 1, m);
    UnitsAlike(Rounds(m - 1, m), Blocks(m - 1, m), Job(m, 0));
  }

  // ------------------------------------------------------------------ The proxy runs

  datatype Phase =
    | Prefilling(p: string)             // sent to prefill instance p
    | Assigned(p: string, d: string)    // prefilled, decode instance d chosen
    | Decoding(d: string)               // prefill given back, decode stream open

  /** period is the history of placements since utilisation was last cleared. */
  datatype Proxy = Proxy(prefillNames: seq<string>, decodeNames: seq<string>,
                         counters: Counters, live: map<nat, Phase>, period: seq<Job>)

  datatype Step =
    | Arrive(id: nat, len: nat)
    | PrefillReturned(id: nat)
    | PrefillDone(id: nat)
    | DecodeDone(id: nat)

  /** The instance lists a server is started with. */
  predicate Configured(prefillNames: seq<string>, decodeNames: seq<string>) {
    && |prefillNames| > 0 && |decodeNames| > 0
    && Distinct(prefillNames) && Distinct(decodeNames)
    && "" !in prefillNames && "" !in decodeNames
  }

  predicate WellNamed(s: Proxy) {
    && Configured(s.prefillNames, s.decodeNames)
    && Shaped(s.counters, s.prefillNames, s.decodeNames)
  }

  predicate Enabled(s: Proxy, step: Step) {
    match step
    case Arrive(id, len) => id !in s.live
    case PrefillReturned(id) => id in s.live && s.live[id].Prefilling?
    case PrefillDone(id) => id in s.live && s.live[id].Assigned?
    case DecodeDone(id) => id in s.live && s.live[id].Decoding?
  }

  /** A request of length zero is sent to a decode instance in place of a prefill one; when
      giving it back fails because no prefill instance has that name, the request is lost. */
  function Next(s: Proxy, step: Step): Proxy
    requires WellNamed(s) && Enabled(s, step)
  {
    var c := s.counters;
    match step
    case Arrive(id, len) =>
      if len > 0 then
        var i := ArgMin(c.utils);
        s.(counters := PlacePrefill(c, len), live := s.live[id := Prefilling(s.prefillNames[i])],
           period := s.period + [Job(len, i)])
      else
        s.(counters := PlaceDecode(c), live := s.live[id := Prefilling(s.decodeNames[ArgMin(c.decode)])])
    case PrefillReturned(id) =>
      var j := ArgMin(c.decode);
      s.(counters := PlaceDecode(c), live := s.live[id := Assigned(s.live[id].p, s.decodeNames[j])])
    case PrefillDone(id) =>
      var c' := CompletionEffect(c, s.prefillNames, s.decodeNames, Some(s.live[id].p), None);
      if s.live[id].p in s.prefillNames then
        s.(counters := c', live := s.live[id := Decoding(s.live[id].d)],
           period := if AllZero(c'.prefill) then [] else s.period)
      else
        s.(counters := c', live := s.live - {id})
    case DecodeDone(id) =>
      s.(counters := CompletionEffect(c, s.prefillNames, s.decodeNames, None, Some(s.live[id].d)),
         live := s.live - {id})
  }

  predicate Positive(step: Step) {
    step.Arrive? ==> step.len > 0
  }

  /** How many requests of length zero have arrived. */
  function ZeroLengths(steps: seq<Step>): nat {
    if steps == [] then 0 else (if Positive(steps[0]) then 0 else 1) + ZeroLengths(steps[1..])
  }

  function OnPrefill(live: map<nat, Phase>, name: string): set<nat> {
    set id | id in live && !live[id].Decoding? && live[id].p == name
  }

  function OnDecode(live: map<nat, Phase>, name: string): set<nat> {
    set id | id in live && !live[id].Prefilling? && live[id].d == name
  }

  predicate NamesKnown(s: Proxy) {
    forall id | id in s.live ::
      && (!s.live[id].Decoding? ==> s.live[id].p in s.prefillNames)
      && (!s.live[id].Prefilling? ==> s.live[id].d in s.decodeNames)
  }

  predicate CountsRight(s: Proxy)
    requires Shaped(s.counters, s.prefillNames, s.decodeNames)
  {
    && (forall i :: 0 <= i < |s.prefillNames| ==> s.counters.prefill[i] == |OnPrefill(s.live, s.prefillNames[i])|)
    && (forall j :: 0 <= j < |s.decodeNames| ==> s.counters.decode[j] == |OnDecode(s.live, s.decodeNames[j])|)
  }

  predicate UtilisationRight(s: Proxy)
    requires |s.prefillNames| > 0
  {
    && s.counters.utils == Loads(s.period, |s.prefillNames|)
    && Greedy(s.period, |s.prefillNames|)
    && (AllZero(s.counters.prefill) ==> s.period == [])
  }

  predicate Inv(s: Proxy) {
    WellNamed(s) && NamesKnown(s) && CountsRight(s) && UtilisationRight(s)
  }

  function Initial(prefillNames: seq<string>, decodeNames: seq<string>): Proxy {
    Proxy(prefillNames, decodeNames,
          Counters(Zeros(|prefillNames|), Zeros(|prefillNames|), Zeros(|decodeNames|)), map[], [])
  }

  lemma InitialInv(prefillNames: seq<string>, decodeNames: seq<string>)
    requires Configured(prefillNames, decodeNames)
    ensures Inv(Initial(prefillNames, decodeNames))
  {
    var s := Initial(prefillNames, decodeNames);
    forall name: string ensures OnPrefill(s.live, name) == {} && OnDecode(s.live, name) == {} {
    }
    assert s.counters.utils == Loads([], |prefillNames|);
  }

  predicate HoldsPrefill(phase: Phase, name: string) {
    !phase.Decoding? && phase.p == name
  }

  predicate HoldsDecode(phase: Phase, name: string) {
    !phase.Prefilling? && phase.d == name
  }

  lemma SetDelta(before: set<nat>, after: set<nat>, id: nat)
    requires before - {id} == after - {id}
    ensures |after| == |before| - (if id in before then 1 else 0) + (if id in after then 1 else 0)
  {
    OneFewer(before, id);
    OneFewer(after, id);
  }

  lemma OneFewer(a: set<nat>, id: nat)
    ensures |a - {id}| == |a| - if id in a then 1 else 0
  {
    if id in a { assert a == (a - {id}) + {id}; } else { assert a - {id} == a; }
  }

  lemma IndexOfName(names: seq<string>, i: nat)
    requires Distinct(names) && i < |names|
    ensures IndexOf(names, names[i]) == i
  {
  }

  /** Two populations that differ in one request at most. */
  predicate DifferAt(before: map<nat, Phase>, after: map<nat, Phase>, id: nat) {
    before - {id} == after - {id}
  }

  lemma PrefillDelta(before: map<nat, Phase>, after: map<nat, Phase>, id: nat, name: string)
    requires DifferAt(before, after, id)
    ensures |OnPrefill(after, name)| == |OnPrefill(before, name)|
              - (if id in before && HoldsPrefill(before[id], name) then 1 else 0)
              + (if id in after && HoldsPrefill(after[id], name) then 1 else 0)
  {
    forall x | x != id ensures x in OnPrefill(before, name) <==> x in OnPrefill(after, name) {
      assert x in before <==> x in before - {id};
      assert x in after <==> x in after - {id};
      if x in before { assert before[x] == (before - {id})[x] == (after - {id})[x] == after[x]; }
    }
    assert OnPrefill(before, name) - {id} == OnPrefill(after, name) - {id};
    SetDelta(OnPrefill(before, name), OnPrefill(after, name), id);
  }

  lemma DecodeDelta(before: map<nat, Phase>, after: map<nat, Phase>, id: nat, name: string)
    requires DifferAt(before, after, id)
    ensures |OnDecode(after, name)| == |OnDecode(before, name)|
              - (if id in before && HoldsDecode(before[id], name) then 1 else 0)
              + (if id in after && HoldsDecode(after[id], name) then 1 else 0)
  {
    forall x | x != id ensures x in OnDecode(before, name) <==> x in OnDecode(after, name) {
      assert x in before <==> x in before - {id};
      assert x in after <==> x in after - {id};
      if x in before { assert before[x] == (before - {id})[x] == (after - {id})[x] == after[x]; }
    }
    assert OnDecode(before, name) - {id} == OnDecode(after, name) - {id};
    SetDelta(OnDecode(before, name), OnDecode(after, name), id);
  }

  lemma StepFrame(s: Proxy, step: Step)
    requires WellNamed(s) && NamesKnown(s) && Enabled(s, step) && Positive(step)
    ensures var t := Next(s, step); WellNamed(t) && NamesKnown(t) && DifferAt(s.live, t.live, step.id)
    ensures var t := Next(s, step); t.prefillNames == s.prefillNames && t.decodeNames == s.decodeNames
  {
    hide ArgMin;
  }

  /** The prefill counters follow the population through one step. */
  lemma StepPrefill(s: Proxy, step: Step, i: nat)
    requires WellNamed(s) && NamesKnown(s) && Enabled(s, step) && i < |s.prefillNames| && Positive(step)
    requires s.counters.prefill[i] == |OnPrefill(s.live, s.prefillNames[i])|
    ensures var t := Next(s, step);
            |t.counters.prefill| == |s.prefillNames| &&
            t.counters.prefill[i] == |OnPrefill(t.live, s.prefillNames[i])|
  {
    StepFrame(s, step);
    IndexOfName(s.prefillNames, i);
    PrefillDelta(s.live, Next(s, step).live, step.id, s.prefillNames[i]);
    hide OnPrefill, ArgMin, DifferAt;
  }

  lemma StepDecode(s: Proxy, step: Step, j: nat)
    requires WellNamed(s) && NamesKnown(s) && Enabled(s, step) && j < |s.decodeNames| && Positive(step)
    requires s.counters.decode[j] == |OnDecode(s.live, s.decodeNames[j])|
    ensures var t := Next(s, step);
            |t.counters.decode| == |s.decodeNames| &&
            t.counters.decode[j] == |OnDecode(t.live, s.decodeNames[j])|
  {
    StepFrame(s, step);
    IndexOfName(s.decodeNames, j);
    DecodeDelta(s.live, Next(s, step).live, step.id, s.decodeNames[j]);
    hide OnDecode, ArgMin, DifferAt;
  }

  lemma StepCounts(s: Proxy, step: Step)
    requires WellNamed(s) && NamesKnown(s) && CountsRight(s) && Enabled(s, step) && Positive(step)
    ensures WellNamed(Next(s, step)) && NamesKnown(Next(s, step)) && CountsRight(Next(s, step))
  {
    hide OnPrefill, OnDecode, Enabled;
    StepFrame(s, step);
    forall i | 0 <= i < |s.prefillNames|
      ensures Next(s, step).counters.prefill[i] == |OnPrefill(Next(s, step).live, s.prefillNames[i])|
    {
      StepPrefill(s, step, i);
    }
    forall j | 0 <= j < |s.decodeNames|
      ensures Next(s, step).counters.decode[j] == |OnDecode(Next(s, step).live, s.decodeNames[j])|
    {
      StepDecode(s, step, j);
    }
  }

  /** Utilisation is the load of the greedy placements of the busy period. */
  lemma StepUtilisation(s: Proxy, step: Step)
    requires Inv(s) && Enabled(s, step) && Positive(step)
    ensures UtilisationRight(Next(s, step))
  {
    hide Load, Greedy, ArgMin;
    var m, t := |s.prefillNames|, Next(s, step);
    match step
    case Arrive(id, len) =>
      var i := ArgMin(s.counters.utils);
      AppendJob(s.period, Job(len, i), m);
      assert t.counters.utils == Loads(t.period, m);
      assert s.counters.prefill[i] >= 0;
      assert t.counters.prefill[i] != 0;
    case PrefillReturned(id) =>
    case PrefillDone(id) =>
      if AllZero(t.counters.prefill) { NothingPlaced(m); }
    case DecodeDone(id) =>
  }

  lemma NothingPlaced(m: nat)
    requires m > 0
    ensures Loads([], m) == Zeros(m) && Greedy([], m)
  {
  }

  lemma StepInv(s: Proxy, step: Step)
    requires Inv(s) && Enabled(s, step) && Positive(step)
    ensures Inv(Next(s, step))
  {
    StepCounts(s, step);
    StepUtilisation(s, step);
  }

  /** Some interleaving of the requests' steps leads from s to t. */
  ghost predicate Run(s: Proxy, steps: seq<Step>, t: Proxy)
    decreases |steps|
  {
    if steps == [] then s == t
    else WellNamed(s) && Enabled(s, steps[0]) && Run(Next(s, steps[0]), steps[1..], t)
  }

  lemma {:induction false} RunInv(s: Proxy, steps: seq<Step>, t: Proxy)
    requires Inv(s) && Run(s, steps, t) && ZeroLengths(steps) == 0
    ensures Inv(t)
    decreases |steps|
  {
    if steps != [] {
      StepInv(s, steps[0]);
      RunInv(Next(s, steps[0]), steps[1..], t);
    }
  }

  /** For every interleaving of any number of requests of positive length: each counter is the number of
      requests its instance holds, an idle prefill stage has no utilisation left, and
      utilisations differ by at most the longest request of the busy period. */
  lemma RunSafety(prefillNames: seq<string>, decodeNames: seq<string>, steps: seq<Step>, s: Proxy)
    requires Configured(prefillNames, decodeNames) && ZeroLengths(steps) == 0
    requires Run(Initial(prefillNames, decodeNames), steps, s)
    ensures WellNamed(s) && CountsRight(s)
    ensures AllZero(s.counters.prefill) ==> AllZero(s.counters.utils)
    ensures forall i, j :: 0 <= i < |s.counters.utils| && 0 <= j < |s.counters.utils| ==>
              s.counters.utils[i] - s.counters.utils[j] <= Longest(s.period)
  {
    InitialInv(prefillNames, decodeNames);
    RunInv(Initial(prefillNames, decodeNames), steps, s);
    hide Run, Greedy, Load, OnPrefill, OnDecode, NamesKnown;
    forall i, j | 0 <= i < |s.counters.utils| && 0 <= j < |s.counters.utils|
      ensures s.counters.utils[i] - s.counters.utils[j] <= Longest(s.period)
    {
      SpreadAtMostLongest(s.period, |s.prefillNames|, i, j);
    }
  }

  lemma CompetitiveNow(s: Proxy, other: seq<Job>, makespan: int, i: nat)
    requires Inv(s) && i < |s.counters.utils|
    requires SameLengths(s.period, other) && OnInstances(other, |s.prefillNames|)
    requires forall j :: 0 <= j < |s.prefillNames| ==> Load(other, j) <= makespan
    ensures |s.prefillNames| * s.counters.utils[i] <= (2 * |s.prefillNames| - 1) * makespan
  {
    hide Greedy, Load, CountsRight, NamesKnown, SameLengths, OnInstances;
    GrahamBound(s.period, other, |s.prefillNames|, makespan, i, s.counters.utils[i]);
  }

  /** In every run, no utilisation exceeds 2 - 1/m times the fullest instance of any
      other placement of the requests of the same busy period. */
  lemma RunIsCompetitive(prefillNames: seq<string>, decodeNames: seq<string>, steps: seq<Step>, s: Proxy,
                         other: seq<Job>, makespan: int, i: nat)
    requires Configured(prefillNames, decodeNames) && ZeroLengths(steps) == 0
    requires Run(Initial(prefillNames, decodeNames), steps, s) && i < |s.counters.utils|
    requires SameLengths(s.period, other) && OnInstances(other, |s.prefillNames|)
    requires forall j :: 0 <= j < |s.prefillNames| ==> Load(other, j) <= makespan
    ensures |s.prefillNames| * s.counters.utils[i] <= (2 * |s.prefillNames| - 1) * makespan
  {
    hide *;
    InitialInv(prefillNames, decodeNames);
    RunInv(Initial(prefillNames, decodeNames), steps, s);
    CompetitiveNow(s, other, makespan, i);
  }

  /** Once every request has completed, all counters are back at zero. */
  lemma DrainedIsInitial(prefillNames: seq<string>, decodeNames: seq<string>, steps: seq<Step>, s: Proxy)
    requires Configured(prefillNames, decodeNames) && ZeroLengths(steps) == 0
    requires Run(Initial(prefillNames, decodeNames), steps, s) && s.live == map[]
    ensures AllZero(s.counters.prefill) && AllZero(s.counters.decode) && AllZero(s.counters.utils)
  {
    RunSafety(prefillNames, decodeNames, steps, s);
    forall name: string ensures OnPrefill(s.live, name) == {} && OnDecode(s.live, name) == {} {
    }
  }

  function Sum(s: seq<int>): int {
    if s == [] then 0 else s[0] + Sum(s[1..])
  }

  lemma {:induction false} SumBump(s: seq<int>, j: nat)
    requires j < |s|
    ensures Sum(s[j := s[j] + 1]) == Sum(s) + 1
  {
    if j > 0 {
      assert s[j := s[j] + 1][1..] == s[1..][j - 1 := s[1..][j - 1] + 1];
      SumBump(s[1..], j - 1);
    }
  }

  lemma {:induction false} SumDrop(s: seq<int>, j: nat)
    requires j < |s|
    ensures Sum(s[j := s[j] - 1]) == Sum(s) - 1
  {
    var less := s[j := s[j] - 1];
    SumBump(less, j);
    assert less[j := less[j] + 1] == s;
  }

  // ------------------------------------------------------- Runs with lengths of zero

  predicate DecodeKnown(s: Proxy) {
    forall id | id in s.live && !s.live[id].Prefilling? :: s.live[id].d in s.decodeNames
  }

  /** The requests that hold a decode instance. */
  function Holders(live: map<nat, Phase>): set<nat> {
    set id | id in live && !live[id].Prefilling?
  }

  lemma HoldersDelta(before: map<nat, Phase>, after: map<nat, Phase>, id: nat)
    requires DifferAt(before, after, id)
    ensures |Holders(after)| == |Holders(before)|
              - (if id in before && !before[id].Prefilling? then 1 else 0)
              + (if id in after && !after[id].Prefilling? then 1 else 0)
  {
    forall x | x != id ensures x in Holders(before) <==> x in Holders(after) {
      assert x in before <==> x in before - {id};
      assert x in after <==> x in after - {id};
      if x in before { assert before[x] == (before - {id})[x] == (after - {id})[x] == after[x]; }
    }
    assert Holders(before) - {id} == Holders(after) - {id};
    SetDelta(Holders(before), Holders(after), id);
  }

  lemma StepShape(s: Proxy, step: Step)
    requires WellNamed(s) && DecodeKnown(s) && Enabled(s, step)
    ensures var t := Next(s, step);
            && WellNamed(t) && DecodeKnown(t) && DifferAt(s.live, t.live, step.id)
            && t.prefillNames == s.prefillNames && t.decodeNames == s.decodeNames
  {
    hide ArgMin, Distinct;
  }

  /** A step never takes more from the decode counters than the requests that let go, and
      the arrival of a request of length zero adds one that is never given back. */
  lemma StepExcess(s: Proxy, step: Step, excess: nat)
    requires WellNamed(s) && DecodeKnown(s) && Enabled(s, step)
    requires Sum(s.counters.decode) >= |Holders(s.live)| + excess
    ensures Sum(Next(s, step).counters.decode)
         >= |Holders(Next(s, step).live)| + excess + if Positive(step) then 0 else 1
  {
    var t, c := Next(s, step), s.counters;
    StepShape(s, step);
    HoldersDelta(s.live, t.live, step.id);
    SumBump(c.decode, ArgMin(c.decode));
    if step.DecodeDone? { SumDrop(c.decode, IndexOf(s.decodeNames, s.live[step.id].d)); }
    hide Holders, ArgMin, Sum, DifferAt, Distinct;
  }

  lemma {:induction false} RunExcess(s: Proxy, steps: seq<Step>, t: Proxy, excess: nat)
    requires WellNamed(s) && DecodeKnown(s) && Run(s, steps, t)
    requires Sum(s.counters.decode) >= |Holders(s.live)| + excess
    ensures WellNamed(t) && DecodeKnown(t) && t.decodeNames == s.decodeNames && t.prefillNames == s.prefillNames
    ensures Sum(t.counters.decode) >= |Holders(t.live)| + excess + ZeroLengths(steps)
    decreases |steps|
  {
    hide Sum, Holders, DecodeKnown, Enabled, Next, Positive;
    if steps != [] {
      StepShape(s, steps[0]);
      StepExcess(s, steps[0], excess);
      RunExcess(Next(s, steps[0]), steps[1..], t, excess + if Positive(steps[0]) then 0 else 1);
    }
  }

  /** The holders of the named decode instances. */
  function HoldersOf(live: map<nat, Phase>, names: seq<string>): set<nat> {
    set id | id in live && !live[id].Prefilling? && live[id].d in names
  }

  lemma {:induction false} SumOfPopulation(live: map<nat, Phase>, names: seq<string>, counts: seq<int>)
    requires Distinct(names) && |counts| == |names|
    requires forall j :: 0 <= j < |names| ==> counts[j] == |OnDecode(live, names[j])|
    ensures Sum(counts) == |HoldersOf(live, names)|
  {
    if names == [] {
      assert HoldersOf(live, names) == {};
    } else {
      var rest := names[1..];
      HoldersSplit(live, names);
      assert forall j :: 0 <= j < |rest| ==> rest[j] == names[j + 1] && counts[1..][j] == counts[j + 1];
      hide OnDecode, HoldersOf, Distinct;
      SumOfPopulation(live, rest, counts[1..]);
    }
  }

  lemma HoldersSplit(live: map<nat, Phase>, names: seq<string>)
    requires Distinct(names) && names != []
    ensures Distinct(names[1..])
    ensures |HoldersOf(live, names)| == |OnDecode(live, names[0])| + |HoldersOf(live, names[1..])|
  {
    var rest := names[1..];
    assert names[0] !in rest;
    assert names == [names[0]] + rest;
    hide Distinct;
    assert HoldersOf(live, names) == OnDecode(live, names[0]) + HoldersOf(live, rest);
    assert OnDecode(live, names[0]) !! HoldersOf(live, rest);
  }

  lemma InitialExcess(prefillNames: seq<string>, decodeNames: seq<string>)
    requires Configured(prefillNames, decodeNames)
    ensures var s := Initial(prefillNames, decodeNames);
            && WellNamed(s) && DecodeKnown(s) && Sum(s.counters.decode) >= |Holders(s.live)|
  {
    assert Holders(map[]) == {};
    SumOfZeros(Zeros(|decodeNames|));
  }

  lemma {:induction false} SumOfZeros(s: seq<int>)
    requires AllZero(s)
    ensures Sum(s) == 0
  {
    if s != [] { SumOfZeros(s[1..]); }
  }

  /** Over every run, requests of any length included, the counters are the numbers of
      requests that the instances hold exactly when no request of length zero has arrived. */
  lemma CountsRightIff(prefillNames: seq<string>, decodeNames: seq<string>, steps: seq<Step>, s: Proxy)
    requires Configured(prefillNames, decodeNames) && Run(Initial(prefillNames, decodeNames), steps, s)
    ensures WellNamed(s) && (CountsRight(s) <==> ZeroLengths(steps) == 0)
  {
    InitialExcess(prefillNames, decodeNames);
    RunExcess(Initial(prefillNames, decodeNames), steps, s, 0);
    hide Run, Sum;
    if ZeroLengths(steps) == 0 { RunSafety(prefillNames, decodeNames, steps, s); }
    if CountsRight(s) {
      hide OnDecode;
      SumOfPopulation(s.live, s.decodeNames, s.counters.decode);
      assert HoldersOf(s.live, s.decodeNames) == Holders(s.live);
    }
  }

  /** Once no request is left, all counters are zero exactly when none of length zero has
      arrived. */
  lemma DrainedIsZeroIff(prefillNames: seq<string>, decodeNames: seq<string>, steps: seq<Step>, s: Proxy)
    requires Configured(prefillNames, decodeNames) && Run(Initial(prefillNames, decodeNames), steps, s)
    requires s.live == map[]
    ensures AllZero(s.counters.prefill) && AllZero(s.counters.decode) && AllZero(s.counters.utils) <==>
      ZeroLengths(steps) == 0
  {
    InitialExcess(prefillNames, decodeNames);
    RunExcess(Initial(prefillNames, decodeNames), steps, s, 0);
    hide Run, Sum;
    if ZeroLengths(steps) == 0 { DrainedIsInitial(prefillNames, decodeNames, steps, s); }
    if AllZero(s.counters.decode) { SumOfZeros(s.counters.decode); }
  }

  /** The effect on the counters of one request that meets no other: it is placed at both
      stages, then gives the stages back.  A completion that names no prefill instance
      raises, and the decode stage is then never given back. */
  function Lifecycle(c: Counters, prefillNames: seq<string>, decodeNames: seq<string>, len: nat): Counters
    requires Configured(prefillNames, decodeNames) && Shaped(c, prefillNames, decodeNames)
  {
    var first := if len > 0 then prefillNames[ArgMin(c.utils)] else decodeNames[ArgMin(c.decode)];
    var c1 := if len > 0 then PlacePrefill(c, len) else PlaceDecode(c);
    var second := decodeNames[ArgMin(c1.decode)];
    var c2 := PlaceDecode(c1);
    var c3 := CompletionEffect(c2, prefillNames, decodeNames, Some(first), None);
    if first in prefillNames then CompletionEffect(c3, prefillNames, decodeNames, None, Some(second)) else c3
  }

  /** A request gives back what it took exactly when its length is positive: a length of
      zero takes the decode branch at both stages and leaves decode counts behind, two of
      them unless an instance serves both stages. */
  lemma LifecycleBalancedIff(c: Counters, prefillNames: seq<string>, decodeNames: seq<string>, len: nat)
    requires Configured(prefillNames, decodeNames) && Shaped(c, prefillNames, decodeNames)
    ensures var after := Lifecycle(c, prefillNames, decodeNames, len);
            && (after.prefill == c.prefill && after.decode == c.decode <==> len > 0)
            && (len == 0 && (forall name | name in decodeNames :: name !in prefillNames) ==>
                  Sum(after.decode) == Sum(c.decode) + 2)
  {
    hide Min, IndexOf, AllZero;
    if len > 0 {
      PositiveLifecycle(c, prefillNames, decodeNames, len);
    } else {
      ZeroLifecycle(c, prefillNames, decodeNames);
    }
  }

  lemma PositiveLifecycle(c: Counters, prefillNames: seq<string>, decodeNames: seq<string>, len: nat)
    requires Configured(prefillNames, decodeNames) && Shaped(c, prefillNames, decodeNames) && len > 0
    ensures var after := Lifecycle(c, prefillNames, decodeNames, len);
            after.prefill == c.prefill && after.decode == c.decode
  {
    hide Min, IndexOf, AllZero, ArgMin;
    IndexOfName(prefillNames, ArgMin(c.utils));
    IndexOfName(decodeNames, ArgMin(c.decode));
  }

  lemma ZeroLifecycle(c: Counters, prefillNames: seq<string>, decodeNames: seq<string>)
    requires Configured(prefillNames, decodeNames) && Shaped(c, prefillNames, decodeNames)
    ensures var first, after := decodeNames[ArgMin(c.decode)], Lifecycle(c, prefillNames, decodeNames, 0);
            Sum(after.decode) == Sum(c.decode) + if first in prefillNames then 1 else 2
  {
    hide Min, IndexOf, AllZero, ArgMin, Distinct, Sum;
    var once := PlaceDecode(c);
    var j := ArgMin(once.decode);
    SumBump(c.decode, ArgMin(c.decode));
    SumBump(once.decode, j);
    var twice := PlaceDecode(once);
    if decodeNames[ArgMin(c.decode)] in prefillNames {
      IndexOfName(decodeNames, j);
      assert twice.decode[j := twice.decode[j] - 1] == once.decode;
      assert Lifecycle(c, prefillNames, decodeNames, 0).decode == once.decode;
    } else {
      assert Lifecycle(c, prefillNames, decodeNames, 0) == twice;
    }
  }
}
