/** Parallel sampling: one request split into sub-requests, whose outputs are assembled
    into one. */
module Assembly {
  import opened Common

  /** An insertion-ordered dictionary without one of its keys. */
  function Without(ids: seq<string>, id: string): (r: seq<string>)
    ensures forall x :: x in r <==> x in ids && x != id
  {
    if ids == [] then []
    else
      var rest := Without(ids[1..], id);
      assert forall x :: x in ids <==> x == ids[0] || x in ids[1..];
      if ids[0] == id then rest else [ids[0]] + rest
  }

  lemma {:induction false} WithoutDistinct(ids: seq<string>, id: string)
    requires Distinct(ids)
    ensures Distinct(Without(ids, id)) && |Without(ids, id)| == |ids| - if id in ids then 1 else 0
    ensures ids != [] && ids[0] == id ==> Without(ids, id) == ids[1..]
    ensures ids != [] && ids[0] != id ==> Without(ids, id) != [] && Without(ids, id)[0] == ids[0]
  {
    if ids != [] {
      WithoutDistinct(ids[1..], id);
      if ids[0] == id {
        Absent(ids[1..], id);
      } else {
        assert id in ids <==> id in ids[1..];
        assert ids[0] !in Without(ids[1..], id);
      }
    }
  }

  lemma {:induction false} Absent(ids: seq<string>, id: string)
    requires id !in ids
    ensures Without(ids, id) == ids
  {
    if ids != [] { Absent(ids[1..], id); }
  }

  // ----------------------------------------------------------------------- The group

  /** ids are the sub-requests in order of creation; pending and done the keys of
      to_be_finished and finished_reqs. */
  datatype Group = Group(ids: seq<string>, pending: seq<string>, done: seq<string>, streaming: bool, produced: bool)

  function NewGroup(ids: seq<string>, streaming: bool): Group {
    Group(ids, ids, [], streaming, false)
  }

  /** Whether a call for sub-request id yields the assembled group. */
  predicate Yields(g: Group, id: string, finished: bool)
    requires g.streaming ==> g.pending != []
  {
    if g.streaming then id == g.pending[0]
    else g.pending == [id] && finished && !g.produced
  }

  function AfterAssemble(g: Group, id: string, finished: bool): Group
    requires g.streaming ==> g.pending != []
  {
    if !g.streaming && Yields(g, id, finished) then g.(produced := true) else g
  }

  function AfterFinish(g: Group, id: string): Group {
    g.(pending := Without(g.pending, id), done := g.done + [id])
  }

  class SampleGroup {
    const ids: seq<string>
    const streaming: bool
    var toBeFinished: seq<string>
    var finishedReqs: seq<string>
    var outputProduced: bool

    function View(): Group
      reads this
    {
      Group(ids, toBeFinished, finishedReqs, streaming, outputProduced)
    }

    constructor (ids: seq<string>, streaming: bool)
      ensures View() == NewGroup(ids, streaming)
    {
      this.ids, this.streaming := ids, streaming;
      toBeFinished, finishedReqs, outputProduced := ids, [], false;
    }

    method MaybeAssembleGroup(id: string, finished: bool) returns (assembled: bool)
      requires streaming ==> toBeFinished != []
      modifies this`outputProduced
      ensures assembled == Yields(old(View()), id, finished)
      ensures View() == AfterAssemble(old(View()), id, finished)
    {
      if streaming {
        return id == toBeFinished[0];
      }
      if |toBeFinished| == 1 && id in toBeFinished && finished {
        if !outputProduced {
          outputProduced := true;
          return true;
        }
      }
      assembled := false;
    }

    /** false stands for the KeyError of an id that is not pending. */
    method FinishSeq(id: string) returns (ok: bool)
      modifies this`toBeFinished, this`finishedReqs
      ensures ok <==> id in old(toBeFinished)
      ensures View() == if ok then AfterFinish(old(View()), id) else old(View())
    {
      if id !in toBeFinished { return false; }
      toBeFinished := Without(toBeFinished, id);
      finishedReqs := finishedReqs + [id];
      ok := true;
    }
  }

  // -------------------------------------------------------------------- The registry

  datatype Outcome =
    | NotSplit   // an ordinary request: its own output is produced
    | Nothing    // a sub-request whose group is not due
    | Assembled  // the output of the whole group
    | KeyError

  class Registry {
    var groups: map<string, SampleGroup>

    constructor ()
      ensures groups == map[]
    {
      groups := map[];
    }

    /** The head of from_seq_group: what becomes of a call for one request id. */
    method FromSeqGroup(id: string, finished: bool) returns (r: Outcome)
      requires id in groups ==> groups[id].streaming ==> groups[id].toBeFinished != []
      modifies this, if id in groups then {groups[id]} else {}
      ensures id !in old(groups) ==> r == NotSplit && groups == old(groups)
      ensures id in old(groups) ==>
        var before := old(groups[id].View());
        var assembled := AfterAssemble(before, id, finished);
        if finished && id !in before.pending then
          r == KeyError && groups == old(groups) && old(groups)[id].View() == assembled
        else
          var after := if finished then AfterFinish(assembled, id) else assembled;
          && old(groups)[id].View() == after
          && r == (if Yields(before, id, finished) then Assembled else Nothing)
          && groups == (if r == Assembled && after.pending == []
                        then old(groups) - (set x | x in before.ids) else old(groups))
    {
      if id !in groups {
        return NotSplit;
      }
      var group := groups[id];
      var assembled := group.MaybeAssembleGroup(id, finished);
      if finished {
        var ok := group.FinishSeq(id);
        if !ok { return KeyError; }
      }
      if !assembled {
        return Nothing;
      }
      if group.toBeFinished == [] {
        groups := groups - (set x | x in group.ids);
      }
      r := Assembled;
    }
  }

  // ---------------------------------------------------------------- Runs of one group

  /** A call of the engine; it polls only sub-requests that have not finished. */
  datatype Call = Call(id: string, finished: bool)

  /** registered: the group's sub ids still in the registry. */
  datatype State = State(group: Group, registered: set<string>)

  function Ids(s: seq<string>): set<string> {
    set x | x in s
  }

  predicate Legal(s: State, c: Call) {
    c.id in s.group.pending
  }

  function Step(s: State, c: Call): (State, bool)
    requires Legal(s, c)
  {
    var g := AfterAssemble(s.group, c.id, c.finished);
    var after := if c.finished then AfterFinish(g, c.id) else g;
    var due := Yields(s.group, c.id, c.finished);
    (State(after, if due && after.pending == [] then s.registered - Ids(after.ids) else s.registered), due)
  }

  /** How many calls of a run return the assembled group, and where the run ends. */
  ghost predicate Run(s: State, calls: seq<Call>, t: State, count: nat)
    decreases |calls|
  {
    if calls == [] then s == t && count == 0
    else
      && Legal(s, calls[0])
      && var (next, y) := Step(s, calls[0]);
         (if y then count > 0 && Run(next, calls[1..], t, count - 1) else Run(next, calls[1..], t, count))
  }

  /** Pending and done partition the sub-requests, and the registry holds all of them
      until the group is done. */
  predicate Inv(s: State) {
    var g := s.group;
    && g.ids != [] && Distinct(g.ids) && Distinct(g.pending) && Distinct(g.done)
    && Ids(g.pending) + Ids(g.done) == Ids(g.ids)
    && Ids(g.pending) !! Ids(g.done)
    && s.registered == (if g.pending == [] then {} else Ids(g.ids))
    && (g.produced <==> !g.streaming && g.pending == [])
  }

  lemma StepInv(s: State, c: Call)
    requires Inv(s) && Legal(s, c)
    ensures Inv(Step(s, c).0)
    ensures Step(s, c).1 ==> s.group.streaming || (c.finished && Step(s, c).0.group.pending == [])
    ensures c.finished && Step(s, c).0.group.pending == [] ==> Step(s, c).1
  {
    var g, t := s.group, Step(s, c).0.group;
    if c.finished {
      WithoutDistinct(g.pending, c.id);
      assert Ids(t.pending) == Ids(g.pending) - {c.id};
      assert Ids(t.done) == Ids(g.done) + {c.id};
      if t.pending == [] {
        assert |g.pending| == 1 && g.pending == [c.id];
      } else if !g.streaming {
        assert g.pending != [c.id];
      }
    }
  }

  lemma {:induction false} RunInv(s: State, calls: seq<Call>, t: State, count: nat)
    requires Inv(s) && Run(s, calls, t, count)
    ensures Inv(t) && t.group.ids == s.group.ids && t.group.streaming == s.group.streaming
    decreases |calls|
  {
    if calls != [] {
      StepInv(s, calls[0]);
      var (next, y) := Step(s, calls[0]);
      RunInv(next, calls[1..], t, if y then count - 1 else count);
    }
  }

  function Initial(ids: seq<string>, streaming: bool): State {
    State(NewGroup(ids, streaming), Ids(ids))
  }

  lemma {:induction false} YieldsOnceAtEnd(s: State, calls: seq<Call>, t: State, count: nat)
    requires Inv(s) && !s.group.streaming && Run(s, calls, t, count)
    ensures count == if s.group.pending != [] && t.group.pending == [] then 1 else 0
    decreases |calls|
  {
    if calls != [] {
      StepInv(s, calls[0]);
      var (next, y) := Step(s, calls[0]);
      YieldsOnceAtEnd(next, calls[1..], t, if y then count - 1 else count);
    }
  }

  /** Without streaming, in whatever order the sub-requests finish, the assembled group
      is returned exactly once, by the call that finishes the last of them; pending and
      finished always partition the ids, and then no id is left in the registry. */
  lemma AssembledExactlyOnce(ids: seq<string>, calls: seq<Call>, t: State, count: nat)
    requires ids != [] && Distinct(ids) && Run(Initial(ids, false), calls, t, count)
    ensures count == if t.group.pending == [] then 1 else 0
    ensures Ids(t.group.pending) + Ids(t.group.done) == Ids(ids) && Ids(t.group.pending) !! Ids(t.group.done)
    ensures t.group.pending == [] ==> Ids(t.group.done) == Ids(ids) && t.registered == {}
    ensures t.group.pending != [] ==> t.registered == Ids(ids)
  {
    RunInv(Initial(ids, false), calls, t, count);
    YieldsOnceAtEnd(Initial(ids, false), calls, t, count);
  }

  // ------------------------------------------------------------------------- Streaming

  /** The pending sub-requests are in the order of their creation. */
  predicate InOrder(ids: seq<string>, pending: seq<string>) {
    pending != [] ==>
      && pending[0] in ids
      && (forall x | x in pending[1..] :: x in ids && IndexOf(ids, pending[0]) < IndexOf(ids, x))
      && InOrder(ids, pending[1..])
  }

  lemma {:induction false} WithoutInOrder(ids: seq<string>, pending: seq<string>, id: string)
    requires InOrder(ids, pending)
    ensures InOrder(ids, Without(pending, id))
  {
    if pending != [] { WithoutInOrder(ids, pending[1..], id); }
  }

  lemma {:induction false} OrderedSuffix(ids: seq<string>, p: nat)
    requires Distinct(ids) && p <= |ids|
    ensures InOrder(ids, ids[p..])
    decreases |ids| - p
  {
    if p < |ids| {
      OrderedSuffix(ids, p + 1);
      assert ids[p..][1..] == ids[p + 1..];
    }
  }

  lemma {:induction false} RunKeepsOrder(s: State, calls: seq<Call>, t: State, count: nat)
    requires InOrder(s.group.ids, s.group.pending) && Run(s, calls, t, count)
    ensures InOrder(t.group.ids, t.group.pending) && t.group.ids == s.group.ids
    decreases |calls|
  {
    if calls != [] {
      WithoutInOrder(s.group.ids, s.group.pending, calls[0].id);
      var (next, y) := Step(s, calls[0]);
      RunKeepsOrder(next, calls[1..], t, if y then count - 1 else count);
    }
  }

  /** With streaming, whatever calls came before in whatever order, a call returns the
      assembled group exactly when every sub-request created earlier has finished. */
  lemma StreamingYieldsIff(ids: seq<string>, calls: seq<Call>, s: State, count: nat, c: Call)
    requires ids != [] && Distinct(ids) && Run(Initial(ids, true), calls, s, count) && Legal(s, c)
    ensures c.id in ids
    ensures Step(s, c).1 <==> forall j :: 0 <= j < IndexOf(ids, c.id) ==> ids[j] in s.group.done
  {
    assert ids[0..] == ids;
    OrderedSuffix(ids, 0);
    RunKeepsOrder(Initial(ids, true), calls, s, count);
    RunInv(Initial(ids, true), calls, s, count);
    FirstIsLeast(ids, s.group.pending);
    hide Run, Step, InOrder, Distinct;
    EarlierDone(s.group, c.id);
  }

  lemma FirstIsLeast(ids: seq<string>, pending: seq<string>)
    requires InOrder(ids, pending)
    ensures pending != [] ==> pending[0] in ids
    ensures forall x | x in pending :: x in ids && IndexOf(ids, pending[0]) <= IndexOf(ids, x)
  {
    assert forall x :: x in pending ==> x == pending[0] || x in pending[1..];
  }

  lemma EarlierDone(g: Group, id: string)
    requires id in g.pending && Ids(g.pending) + Ids(g.done) == Ids(g.ids) && Ids(g.pending) !! Ids(g.done)
    requires g.pending[0] in g.ids
    requires forall x | x in g.pending :: x in g.ids && IndexOf(g.ids, g.pending[0]) <= IndexOf(g.ids, x)
    ensures id == g.pending[0] <==> forall j :: 0 <= j < IndexOf(g.ids, id) ==> g.ids[j] in g.done
  {
    if id == g.pending[0] {
      forall j | 0 <= j < IndexOf(g.ids, id) ensures g.ids[j] in g.done {
        assert g.ids[j] in Ids(g.ids);
        NotPendingBefore(g, id, j);
      }
    } else {
      var j := IndexOf(g.ids, g.pending[0]);
      assert g.ids[j] in Ids(g.pending);
    }
  }

  lemma NotPendingBefore(g: Group, id: string, j: nat)
    requires id in g.ids && forall x | x in g.pending :: x in g.ids && IndexOf(g.ids, id) <= IndexOf(g.ids, x)
    requires j < IndexOf(g.ids, id)
    ensures g.ids[j] !in g.pending
  {
    assert IndexOf(g.ids, g.ids[j]) <= j;
  }

  /** An engine step first makes the outputs of the sub-requests that finish in it, then
      those of the others. */
  function FinishCalls(ids: seq<string>, flags: seq<bool>): seq<Call>
    requires |ids| == |flags|
  {
    if ids == [] then []
    else
      var rest := FinishCalls(ids[1..], flags[1..]);
      if flags[0] then [Call(ids[0], true)] + rest else rest
  }

  function PollCalls(ids: seq<string>): seq<Call> {
    if ids == [] then [] else [Call(ids[0], false)] + PollCalls(ids[1..])
  }

  function Unfinished(ids: seq<string>, flags: seq<bool>): seq<string>
    requires |ids| == |flags|
  {
    if ids == [] then []
    else
      var rest := Unfinished(ids[1..], flags[1..]);
      if flags[0] then rest else [ids[0]] + rest
  }

  function Leading(flags: seq<bool>): nat {
    if flags == [] || !flags[0] then 0 else 1 + Leading(flags[1..])
  }

  /** Among calls that finish nothing only the one for the first pending sub-request
      returns the group. */
  lemma {:induction false} PollPass(s: State, order: seq<string>, t: State, count: nat)
    requires Run(s, PollCalls(order), t, count) && s.group.streaming && s.group.pending != [] && Distinct(order)
    ensures count == if s.group.pending[0] in order then 1 else 0
    decreases |order|
  {
    if order != [] {
      assert PollCalls(order)[1..] == PollCalls(order[1..]);
      assert Distinct(order[1..]) && order[0] !in order[1..];
      var (next, y) := Step(s, PollCalls(order)[0]);
      PollPass(next, order[1..], t, if y then count - 1 else count);
    }
  }

  lemma {:induction false} WithoutMiddle(kept: seq<string>, id: string, rest: seq<string>)
    requires Distinct(kept + [id] + rest)
    ensures Without(kept + [id] + rest, id) == kept + rest
  {
    var all := kept + [id] + rest;
    WithoutDistinct(all, id);
    if kept == [] {
      assert all[0] == id && all[1..] == rest;
    } else {
      assert all[1..] == kept[1..] + [id] + rest;
      assert all[0] == kept[0] && all[0] != all[|kept|];
      assert Distinct(kept[1..] + [id] + rest) by { assert all[1..] == kept[1..] + [id] + rest; }
      WithoutMiddle(kept[1..], id, rest);
      assert [kept[0]] + (kept[1..] + rest) == kept + rest;
    }
  }

  lemma Regroup(kept: seq<string>, x: string, rest: seq<string>)
    ensures kept + ([x] + rest) == (kept + [x]) + rest
  {
  }

  /** Finishing the first of the sub-requests not yet looked at. */
  lemma FinishNext(s: State, kept: seq<string>, ids: seq<string>)
    requires ids != [] && s.group.streaming && s.group.pending == kept + ids && Distinct(kept + ids)
    ensures Legal(s, Call(ids[0], true)) && (Step(s, Call(ids[0], true)).1 <==> kept == [])
    ensures var g := Step(s, Call(ids[0], true)).0.group;
            g.pending == kept + ids[1..] && Distinct(kept + ids[1..]) && g.streaming
  {
    assert (kept + ids)[|kept|] == ids[0];
    assert kept + ids == kept + [ids[0]] + ids[1..];
    WithoutMiddle(kept, ids[0], ids[1..]);
    WithoutDistinct(kept + ids, ids[0]);
    hide Without;
  }

  /** The first pass returns the group once for each leading sub-request that finishes. */
  lemma {:induction false} FinishPass(
      s: State, kept: seq<string>, ids: seq<string>, flags: seq<bool>, t: State, count: nat)
    requires |ids| == |flags| && s.group.streaming && s.group.pending == kept + ids && Distinct(kept + ids)
    requires Run(s, FinishCalls(ids, flags), t, count)
    ensures count == if kept == [] then Leading(flags) else 0
    ensures t.group.pending == kept + Unfinished(ids, flags) && t.group.streaming
    decreases |ids|
  {
    if ids != [] {
      hide Distinct, Without, Step, Legal;
      Regroup(kept, ids[0], ids[1..]);
      assert ids == [ids[0]] + ids[1..];
      var calls := FinishCalls(ids, flags);
      if flags[0] {
        assert calls[0] == Call(ids[0], true) && calls[1..] == FinishCalls(ids[1..], flags[1..]);
        FinishNext(s, kept, ids);
        var (next, y) := Step(s, calls[0]);
        FinishPass(next, kept, ids[1..], flags[1..], t, if y then count - 1 else count);
      } else {
        hide Run;
        FinishPass(s, kept + [ids[0]], ids[1..], flags[1..], t, count);
        Regroup(kept, ids[0], Unfinished(ids[1..], flags[1..]));
      }
    }
  }

  lemma {:induction false} RunSplit(
      s: State, a: seq<Call>, b: seq<Call>, t: State, count: nat) returns (mid: State, k: nat)
    requires Run(s, a + b, t, count)
    ensures k <= count && Run(s, a, mid, k) && Run(mid, b, t, count - k)
    decreases |a|
  {
    if a == [] {
      assert [] + b == b;
      return s, 0;
    }
    assert (a + b)[1..] == a[1..] + b && (a + b)[0] == a[0];
    var (next, y) := Step(s, a[0]);
    mid, k := RunSplit(next, a[1..], b, t, if y then count - 1 else count);
    if y { k := k + 1; }
  }

  /** With streaming, one engine step returns the assembled group once for each leading
      sub-request that finishes in it and once more if any sub-request does not finish, in
      whatever order those are polled: exactly once, as intended, only if the first
      remaining sub-request does not finish or is the last one. */
  lemma StreamingRound(s: State, flags: seq<bool>, order: seq<string>, t: State, count: nat)
    requires s.group.streaming && Distinct(s.group.pending) && |flags| == |s.group.pending|
    requires Distinct(order) && forall id :: id in order <==> id in Unfinished(s.group.pending, flags)
    requires Run(s, FinishCalls(s.group.pending, flags) + PollCalls(order), t, count)
    ensures count == Leading(flags) + if Leading(flags) < |flags| then 1 else 0
  {
    hide Run, FinishCalls, Unfinished, Leading, Distinct;
    var ids := s.group.pending;
    var mid, k := RunSplit(s, FinishCalls(ids, flags), PollCalls(order), t, count);
    assert [] + ids == ids && [] + Unfinished(ids, flags) == Unfinished(ids, flags);
    FinishPass(s, [], ids, flags, mid, k);
    SomeUnfinished(ids, flags);
    LastPass(mid, order, t, count - k);
  }

  lemma LastPass(s: State, order: seq<string>, t: State, count: nat)
    requires s.group.streaming && Distinct(order) && Run(s, PollCalls(order), t, count)
    requires forall id :: id in order <==> id in s.group.pending
    ensures count == if s.group.pending == [] then 0 else 1
  {
    if s.group.pending == [] {
      assert forall i :: 0 <= i < |order| ==> order[i] in order;
    } else {
      assert s.group.pending[0] in order;
      hide Run;
      PollPass(s, order, t, count);
    }
  }

  lemma {:induction false} SomeUnfinished(ids: seq<string>, flags: seq<bool>)
    requires |ids| == |flags|
    ensures Leading(flags) <= |flags| && (Unfinished(ids, flags) == [] <==> Leading(flags) == |flags|)
  {
    if ids != [] { SomeUnfinished(ids[1..], flags[1..]); }
  }

  // ------------------------------------------------------------------------ Best of n

  datatype Candidate = Candidate(index: nat, logprob: real)

  /** Stable insertion into a list ordered by descending log probability. */
  function InsertBest(order: seq<Candidate>, c: Candidate): seq<Candidate> {
    if order == [] || order[|order| - 1].logprob >= c.logprob then order + [c]
    else InsertBest(order[..|order| - 1], c) + [order[|order| - 1]]
  }

  function BestFirst(seqs: seq<Candidate>): seq<Candidate> {
    if seqs == [] then [] else InsertBest(BestFirst(seqs[..|seqs| - 1]), seqs[|seqs| - 1])
  }

  /** The sequences of the returned group: all of them, or the top realN. */
  function Selected(seqs: seq<Candidate>, realN: Option<nat>, n: nat): seq<Candidate> {
    if realN.None? then seqs
    else
      var keep := if realN.value != 0 then realN.value else n;
      if keep <= |seqs| && keep <= |BestFirst(seqs)| then BestFirst(seqs)[..keep] else BestFirst(seqs)
  }

  predicate Descending(order: seq<Candidate>) {
    forall a, b :: 0 <= a < b < |order| ==> order[a].logprob >= order[b].logprob
  }

  lemma {:induction false} InsertContents(order: seq<Candidate>, c: Candidate)
    ensures multiset(InsertBest(order, c)) == multiset(order) + multiset{c}
  {
    if |order| > 0 && order[|order| - 1].logprob < c.logprob {
      assert order == order[..|order| - 1] + [order[|order| - 1]];
      InsertContents(order[..|order| - 1], c);
    }
  }

  lemma AppendWorst(order: seq<Candidate>, c: Candidate)
    requires Descending(order) && forall k :: 0 <= k < |order| ==> order[k].logprob >= c.logprob
    ensures Descending(order + [c])
  {
  }

  lemma LastIsWorst(order: seq<Candidate>)
    requires Descending(order) && |order| > 0
    ensures Descending(order[..|order| - 1])
    ensures forall k :: 0 <= k < |order| ==> order[k].logprob >= order[|order| - 1].logprob
  {
  }

  lemma {:induction false} InsertSorts(order: seq<Candidate>, c: Candidate)
    requires Descending(order)
    ensures Descending(InsertBest(order, c))
  {
    if |order| > 0 { LastIsWorst(order); }
    hide Descending;
    if |order| == 0 || order[|order| - 1].logprob >= c.logprob {
      AppendWorst(order, c);
    } else {
      var init, last := order[..|order| - 1], order[|order| - 1];
      InsertSorts(init, c);
      InsertContents(init, c);
      var r := InsertBest(init, c);
      forall k | 0 <= k < |r| ensures r[k].logprob >= last.logprob {
        assert r[k] in multiset(r);
        assert r[k] in multiset(init) || r[k] == c;
      }
      AppendWorst(r, last);
    }
  }

  lemma {:induction false} BestFirstSorts(seqs: seq<Candidate>)
    ensures Descending(BestFirst(seqs))
    ensures multiset(BestFirst(seqs)) == multiset(seqs)
  {
    if |seqs| > 0 {
      hide InsertBest, Descending;
      var init, last := seqs[..|seqs| - 1], seqs[|seqs| - 1];
      BestFirstSorts(init);
      InsertSorts(BestFirst(init), last);
      InsertContents(BestFirst(init), last);
      assert seqs == init + [last];
    }
  }

  /** The group returned with best_of set holds the realN best sequences, or the n best if
      realN is zero, best first: none of those left out is better than one kept. */
  lemma SelectedAreBest(seqs: seq<Candidate>, realN: nat, n: nat)
    ensures var kept, limit := Selected(seqs, Some(realN), n), if realN == 0 then n else realN;
            && |kept| == (if limit <= |seqs| then limit else |seqs|)
            && Descending(kept) && multiset(kept) <= multiset(seqs)
            && forall c, k :: c in multiset(seqs) - multiset(kept) && k in kept ==> k.logprob >= c.logprob
  {
    BestFirstSorts(seqs);
    hide BestFirst, InsertBest;
    var order, kept := BestFirst(seqs), Selected(seqs, Some(realN), n);
    assert |order| == |multiset(order)| == |multiset(seqs)| == |seqs|;
    PrefixIsBest(order, |kept|);
  }

  /** Without best_of the group is returned as it was created. */
  lemma SelectedWithoutBestOf(seqs: seq<Candidate>, n: nat)
    ensures Selected(seqs, None, n) == seqs
  {
  }

  /** Sequences of equal log probability stay in the order of their creation. */
  predicate Stable(order: seq<Candidate>) {
    forall i, j :: 0 <= i < j < |order| && order[i].logprob == order[j].logprob ==> order[i].index < order[j].index
  }

  predicate Created(seqs: seq<Candidate>) {
    forall i :: 0 <= i < |seqs| ==> seqs[i].index == i
  }

  lemma {:induction false} InsertStable(order: seq<Candidate>, c: Candidate)
    requires Stable(order) && Descending(order) && forall i :: 0 <= i < |order| ==> order[i].index < c.index
    ensures Stable(InsertBest(order, c))
  {
    if order != [] && order[|order| - 1].logprob < c.logprob {
      var init, last := order[..|order| - 1], order[|order| - 1];
      InsertStable(init, c);
      InsertContents(init, c);
      var shorter := InsertBest(init, c);
      forall i | 0 <= i < |shorter| && shorter[i].logprob == last.logprob ensures shorter[i].index < last.index {
        assert shorter[i] in multiset(shorter);
        var k :| 0 <= k < |init| && init[k] == shorter[i];
        assert order[k] == init[k];
      }
    }
  }

  lemma {:induction false} BestFirstStable(seqs: seq<Candidate>)
    requires Created(seqs)
    ensures Stable(BestFirst(seqs))
  {
    if seqs != [] {
      var init, last := seqs[..|seqs| - 1], seqs[|seqs| - 1];
      BestFirstStable(init);
      BestFirstSorts(init);
      var order := BestFirst(init);
      forall i | 0 <= i < |order| ensures order[i].index < last.index {
        assert order[i] in multiset(order);
        var k :| 0 <= k < |init| && init[k] == order[i];
      }
      InsertStable(order, last);
    }
  }

  /** Ties among the selected are in the order of creation. */
  lemma SelectedAreStable(seqs: seq<Candidate>, realN: Option<nat>, n: nat)
    requires Created(seqs)
    ensures Stable(Selected(seqs, realN, n))
  {
    BestFirstStable(seqs);
  }

  lemma PrefixIsBest(order: seq<Candidate>, p: nat)
    requires Descending(order) && p <= |order|
    ensures Descending(order[..p]) && multiset(order[..p]) <= multiset(order)
    ensures forall c, k :: c in multiset(order) - multiset(order[..p]) && k in order[..p] ==> k.logprob >= c.logprob
  {
    assert order == order[..p] + order[p..];
    assert multiset(order) - multiset(order[..p]) == multiset(order[p..]);
    forall c, k | c in multiset(order[p..]) && k in order[..p] ensures k.logprob >= c.logprob {
      KeptBeforeDropped(order, p, c, k);
    }
  }

  lemma KeptBeforeDropped(order: seq<Candidate>, p: nat, c: Candidate, k: Candidate)
    requires Descending(order) && p <= |order| && k in order[..p] && c in order[p..]
    ensures k.logprob >= c.logprob
  {
    var a :| 0 <= a < p && order[..p][a] == k;
    var b :| 0 <= b < |order| - p && order[p..][b] == c;
    assert order[a] == k && order[p + b] == c;
  }
}
