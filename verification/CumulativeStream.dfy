/** Cumulative requests: every poll returns all there is, and a collector keeps the latest
    output of each index. */
module CumulativeStream {
  import opened Common
  import opened StopStrings
  import opened OutputStreaming

  predicate DistinctIndices<L>(cs: seq<Completion<L>>) {
    forall i, j :: 0 <= i < j < |cs| ==> cs[i].index != cs[j].index
  }

  predicate SameIndices<L>(a: seq<Completion<L>>, b: seq<Completion<L>>) {
    |a| == |b| && forall i :: 0 <= i < |a| ==> a[i].index == b[i].index
  }

  /** The later outputs whose index is not held yet, in order. */
  function Unheld<L>(outs: seq<Completion<L>>, nexts: seq<Completion<L>>): seq<Completion<L>> {
    if nexts == [] then []
    else
      var rest := Unheld(outs, nexts[1..]);
      if Find(outs, nexts[0].index) == |outs| then [nexts[0]] + rest else rest
  }

  lemma {:induction false} SameFind<L>(a: seq<Completion<L>>, b: seq<Completion<L>>, index: int)
    requires SameIndices(a, b)
    ensures Find(a, index) == Find(b, index)
  {
    if a != [] && a[0].index != index { SameFind(a[1..], b[1..], index); }
  }

  lemma {:induction false} FindAppended<L>(outs: seq<Completion<L>>, c: Completion<L>, index: int)
    requires c.index != index
    ensures Find(outs + [c], index) == if Find(outs, index) < |outs| then Find(outs, index) else |outs| + 1
  {
    if outs == [] {
      assert [c][1..] == [];
    } else if outs[0].index != index {
      assert (outs + [c])[1..] == outs[1..] + [c];
      FindAppended(outs[1..], c, index);
    }
  }

  lemma {:induction false} SameUnheld<L>(a: seq<Completion<L>>, b: seq<Completion<L>>, nexts: seq<Completion<L>>)
    requires forall k :: 0 <= k < |nexts| ==>
      (Find(a, nexts[k].index) == |a| <==> Find(b, nexts[k].index) == |b|)
    ensures Unheld(a, nexts) == Unheld(b, nexts)
  {
    if nexts != [] {
      assert forall k :: 0 <= k < |nexts[1..]| ==> nexts[1..][k] == nexts[k + 1];
      SameUnheld(a, b, nexts[1..]);
    }
  }

  /** New indices follow what is held, in order. */
  ghost predicate Follow<L>(outs: seq<Completion<L>>, nexts: seq<Completion<L>>, r: seq<Completion<L>>) {
    |r| >= |outs| && r[|outs|..] == Unheld(outs, nexts)
  }

  /** Each later output stands where its index was first held. */
  ghost predicate Stand<L>(outs: seq<Completion<L>>, nexts: seq<Completion<L>>, r: seq<Completion<L>>) {
    |r| >= |outs| && forall k :: 0 <= k < |nexts| && Find(outs, nexts[k].index) < |outs| ==>
      r[Find(outs, nexts[k].index)] == nexts[k]
  }

  predicate Touched<L>(outs: seq<Completion<L>>, nexts: seq<Completion<L>>, p: nat) {
    exists k :: 0 <= k < |nexts| && Find(outs, nexts[k].index) == p
  }

  /** The other outputs are as before. */
  ghost predicate Stay<L>(outs: seq<Completion<L>>, nexts: seq<Completion<L>>, r: seq<Completion<L>>) {
    |r| >= |outs| && forall p: nat :: p < |outs| && !Touched(outs, nexts, p) ==> r[p] == outs[p]
  }

  ghost predicate Replaced<L>(outs: seq<Completion<L>>, nexts: seq<Completion<L>>, r: seq<Completion<L>>) {
    Follow(outs, nexts, r) && Stand(outs, nexts, r) && Stay(outs, nexts, r)
  }

  /** Without aggregation a merge never fails, changes no list, and replaces. */
  lemma {:induction false} AddAllReplaces<L>(m: Merging<L>, nexts: seq<Completion<L>>)
    requires m.ok && DistinctIndices(nexts)
    ensures var r := AddAll(m, nexts, false);
            r.ok && r.store == m.store && Replaced(m.outs, nexts, r.outs)
    decreases |nexts|
  {
    if nexts == [] {
      NothingReplaced(m.outs);
    } else {
      var next, rest := nexts[0], nexts[1..];
      var first := AddOne(m, next, false);
      ReplaceOne(m, next);
      assert nexts == [next] + rest;
      assert forall k :: 0 <= k < |rest| ==> rest[k] == nexts[k + 1] && rest[k].index != next.index;
      hide AddOne, Replaced, Find;
      AddAllReplaces(first, rest);
      var r := AddAll(first, rest, false).outs;
      if Find(m.outs, next.index) < |m.outs| {
        ReplaceHeld(m.outs, next, rest, r);
      } else {
        ReplaceNew(m.outs, next, rest, r);
      }
    }
  }

  lemma NothingReplaced<L>(outs: seq<Completion<L>>)
    ensures Replaced(outs, [], outs)
  {
  }

  lemma ReplaceOne<L>(m: Merging<L>, next: Completion<L>)
    ensures var p, r := Find(m.outs, next.index), AddOne(m, next, false);
            && p <= |m.outs| && r.ok == m.ok && r.store == m.store
            && r.outs == if p < |m.outs| then m.outs[p := next] else m.outs + [next]
  {
  }

  lemma HeldFinds<L>(outs: seq<Completion<L>>, next: Completion<L>, rest: seq<Completion<L>>)
    requires Find(outs, next.index) < |outs| && forall k :: 0 <= k < |rest| ==> rest[k].index != next.index
    ensures var p := Find(outs, next.index);
            forall k :: 0 <= k < |rest| ==> Find(outs[p := next], rest[k].index) == Find(outs, rest[k].index) != p
  {
    var p := Find(outs, next.index);
    forall k | 0 <= k < |rest| ensures Find(outs[p := next], rest[k].index) == Find(outs, rest[k].index) != p {
      SameFind(outs[p := next], outs, rest[k].index);
    }
  }

  lemma ReplaceHeld<L>(outs: seq<Completion<L>>, next: Completion<L>, rest: seq<Completion<L>>, r: seq<Completion<L>>)
    requires Find(outs, next.index) < |outs| && forall k :: 0 <= k < |rest| ==> rest[k].index != next.index
    requires Replaced(outs[Find(outs, next.index) := next], rest, r)
    ensures Replaced(outs, [next] + rest, r)
  {
    var p, nexts := Find(outs, next.index), [next] + rest;
    HeldFinds(outs, next, rest);
    assert nexts[0] == next && nexts[1..] == rest;
    FollowHeld(outs, next, rest, r);
    hide Find, Unheld, Follow;
    StandHeld(outs, next, rest, r);
    StayHeld(outs, next, rest, r);
  }

  lemma UnheldStep<L>(outs: seq<Completion<L>>, next: Completion<L>, rest: seq<Completion<L>>)
    ensures Unheld(outs, [next] + rest)
         == if Find(outs, next.index) == |outs| then [next] + Unheld(outs, rest) else Unheld(outs, rest)
  {
    hide Find;
    assert ([next] + rest)[0] == next && ([next] + rest)[1..] == rest;
  }

  lemma FollowHeld<L>(outs: seq<Completion<L>>, next: Completion<L>, rest: seq<Completion<L>>, r: seq<Completion<L>>)
    requires Find(outs, next.index) < |outs| && forall k :: 0 <= k < |rest| ==> rest[k].index != next.index
    requires Follow(outs[Find(outs, next.index) := next], rest, r)
    ensures Follow(outs, [next] + rest, r)
  {
    hide Find, Unheld;
    HeldFinds(outs, next, rest);
    SameUnheld(outs[Find(outs, next.index) := next], outs, rest);
    UnheldStep(outs, next, rest);
  }

  lemma StandHeld<L>(outs: seq<Completion<L>>, next: Completion<L>, rest: seq<Completion<L>>, r: seq<Completion<L>>)
    requires Find(outs, next.index) < |outs| && forall k :: 0 <= k < |rest| ==> rest[k].index != next.index
    requires var changed := outs[Find(outs, next.index) := next]; Stand(changed, rest, r) && Stay(changed, rest, r)
    ensures Stand(outs, [next] + rest, r)
  {
    var p, nexts := Find(outs, next.index), [next] + rest;
    var changed := outs[p := next];
    HeldFinds(outs, next, rest);
    hide Find;
    assert !Touched(changed, rest, p);
    forall k | 0 <= k < |nexts| && Find(outs, nexts[k].index) < |outs|
      ensures r[Find(outs, nexts[k].index)] == nexts[k]
    {
      if k > 0 { assert nexts[k] == rest[k - 1]; }
    }
  }

  lemma StayHeld<L>(outs: seq<Completion<L>>, next: Completion<L>, rest: seq<Completion<L>>, r: seq<Completion<L>>)
    requires Find(outs, next.index) < |outs| && forall k :: 0 <= k < |rest| ==> rest[k].index != next.index
    requires Stay(outs[Find(outs, next.index) := next], rest, r)
    ensures Stay(outs, [next] + rest, r)
  {
    var p, nexts := Find(outs, next.index), [next] + rest;
    var changed := outs[p := next];
    HeldFinds(outs, next, rest);
    hide Find;
    assert nexts[0] == next && forall k :: 0 <= k < |rest| ==> rest[k] == nexts[k + 1];
    forall q: nat | q < |outs| && !Touched(outs, nexts, q) ensures r[q] == outs[q] {
      assert Find(outs, nexts[0].index) == p != q;
    }
  }

  lemma NewFinds<L>(outs: seq<Completion<L>>, next: Completion<L>, rest: seq<Completion<L>>)
    requires forall k :: 0 <= k < |rest| ==> rest[k].index != next.index
    ensures forall k :: 0 <= k < |rest| ==>
      Find(outs + [next], rest[k].index)
      == if Find(outs, rest[k].index) < |outs| then Find(outs, rest[k].index) else |outs| + 1
  {
    forall k | 0 <= k < |rest|
      ensures Find(outs + [next], rest[k].index)
           == if Find(outs, rest[k].index) < |outs| then Find(outs, rest[k].index) else |outs| + 1
    {
      FindAppended(outs, next, rest[k].index);
    }
  }

  lemma ReplaceNew<L>(outs: seq<Completion<L>>, next: Completion<L>, rest: seq<Completion<L>>, r: seq<Completion<L>>)
    requires Find(outs, next.index) == |outs| && forall k :: 0 <= k < |rest| ==> rest[k].index != next.index
    requires Replaced(outs + [next], rest, r)
    ensures Replaced(outs, [next] + rest, r)
  {
    hide Find, Unheld;
    FollowNew(outs, next, rest, r);
    StandNew(outs, next, rest, r);
    StayNew(outs, next, rest, r);
  }

  lemma FollowNew<L>(outs: seq<Completion<L>>, next: Completion<L>, rest: seq<Completion<L>>, r: seq<Completion<L>>)
    requires Find(outs, next.index) == |outs| && forall k :: 0 <= k < |rest| ==> rest[k].index != next.index
    requires Follow(outs + [next], rest, r) && Stay(outs + [next], rest, r)
    ensures Follow(outs, [next] + rest, r)
  {
    hide Find, Unheld, Stay, Touched, Follow;
    NewStays(outs, next, rest, r);
    NewFinds(outs, next, rest);
    SameUnheld(outs + [next], outs, rest);
    UnheldStep(outs, next, rest);
    FollowsMore(outs, next, rest, [next] + rest, r);
  }

  lemma FollowsMore<L>(outs: seq<Completion<L>>, next: Completion<L>, rest: seq<Completion<L>>,
                       nexts: seq<Completion<L>>, r: seq<Completion<L>>)
    requires Follow(outs + [next], rest, r) && r[|outs|] == next
    requires Unheld(outs, nexts) == [next] + Unheld(outs + [next], rest)
    ensures Follow(outs, nexts, r)
  {
    hide Unheld;
    TailOf(r, |outs|);
  }

  lemma TailOf<T>(r: seq<T>, n: nat)
    requires n < |r|
    ensures r[n..] == [r[n]] + r[n + 1..]
  {
  }

  lemma NewStays<L>(outs: seq<Completion<L>>, next: Completion<L>, rest: seq<Completion<L>>, r: seq<Completion<L>>)
    requires Find(outs, next.index) == |outs| && forall k :: 0 <= k < |rest| ==> rest[k].index != next.index
    requires Stay(outs + [next], rest, r)
    ensures |r| > |outs| && r[|outs|] == next
  {
    hide Find;
    NewFinds(outs, next, rest);
    assert !Touched(outs + [next], rest, |outs|);
    assert (outs + [next])[|outs|] == next;
  }

  lemma StandNew<L>(outs: seq<Completion<L>>, next: Completion<L>, rest: seq<Completion<L>>, r: seq<Completion<L>>)
    requires Find(outs, next.index) == |outs| && forall k :: 0 <= k < |rest| ==> rest[k].index != next.index
    requires Stand(outs + [next], rest, r)
    ensures Stand(outs, [next] + rest, r)
  {
    var nexts := [next] + rest;
    NewFinds(outs, next, rest);
    hide Find;
    forall k | 0 <= k < |nexts| && Find(outs, nexts[k].index) < |outs|
      ensures r[Find(outs, nexts[k].index)] == nexts[k]
    {
      if k > 0 { assert nexts[k] == rest[k - 1]; }
    }
  }

  lemma StayNew<L>(outs: seq<Completion<L>>, next: Completion<L>, rest: seq<Completion<L>>, r: seq<Completion<L>>)
    requires Find(outs, next.index) == |outs| && forall k :: 0 <= k < |rest| ==> rest[k].index != next.index
    requires Stay(outs + [next], rest, r)
    ensures Stay(outs, [next] + rest, r)
  {
    var nexts, more := [next] + rest, outs + [next];
    NewFinds(outs, next, rest);
    hide Find;
    assert forall k :: 0 <= k < |rest| ==> rest[k] == nexts[k + 1];
    forall q: nat | q < |outs| && !Touched(outs, nexts, q) ensures r[q] == outs[q] {
      assert more[q] == outs[q];
    }
  }

  // ------------------------------------------------------------------------------ Runs

  lemma FindAligned<L>(cs: seq<Completion<L>>, i: nat)
    requires Aligned(cs) && i < |cs|
    ensures Find(cs, i) == i
  {
    assert cs[i].index == i;
  }

  /** Outputs of all indices in order replace everything that is held, if that is no more. */
  lemma AllReplaced<L>(m: Merging<L>, nexts: seq<Completion<L>>)
    requires m.ok && Aligned(m.outs) && Aligned(nexts) && |m.outs| <= |nexts|
    ensures AddAll(m, nexts, false) == Merging(nexts, m.store, true)
  {
    AddAllReplaces(m, nexts);
    var r := AddAll(m, nexts, false).outs;
    forall i | 0 <= i < |m.outs| ensures r[i] == nexts[i] {
      FindAligned(m.outs, i);
    }
    BeyondHeld(m.outs, nexts, 0);
    hide AddAll, Find, Unheld;
    assert nexts[0..] == nexts;
    assert r == nexts[..|m.outs|] + nexts[|m.outs|..];
  }

  lemma {:induction false} BeyondHeld<L>(outs: seq<Completion<L>>, nexts: seq<Completion<L>>, k: nat)
    requires Aligned(outs) && Aligned(nexts) && |outs| <= |nexts| && k <= |nexts|
    ensures Unheld(outs, nexts[k..]) == nexts[if k < |outs| then |outs| else k..]
    decreases |nexts| - k
  {
    if k < |nexts| {
      var rest := nexts[k..];
      BeyondHeld(outs, nexts, k + 1);
      assert rest[0] == nexts[k] && rest[1..] == nexts[k + 1..];
      if k < |outs| { FindAligned(outs, k); }
      assert k >= |outs| ==> [nexts[k]] + nexts[k + 1..] == nexts[k..];
    }
  }

  /** The sequences of a group at one poll, the entries of their lists, and what the store
      of lists holds. */
  datatype Snapshot<L> = Snapshot(vs: seq<SeqView<L>>, items: seq<seq<Logprobs>>, slots: seq<L>,
                                  store: map<L, seq<Logprobs>>)

  predicate WellFormed<L>(s: Snapshot<L>) {
    |s.items| == |s.slots| == |s.vs|
  }

  /** What a collector of a cumulative request holds after the polls, and whether no merge
      failed. */
  function HeldAfter<L(==)>(polls: seq<Snapshot<L>>, p: OutParams): Merging<L>
    requires polls != [] && forall k :: 0 <= k < |polls| ==> WellFormed(polls[k])
  {
    var last := polls[|polls| - 1];
    assert WellFormed(last);
    var es := Emissions(last.vs, last.items, p, last.slots);
    if |polls| == 1 then Merging(es, last.store, true)
    else
      var before := HeldAfter(polls[..|polls| - 1], p);
      AddAll(before.(store := last.store), es, false)
  }

  predicate NeverShrinks<L>(polls: seq<Snapshot<L>>) {
    forall j, k :: 0 <= j < k < |polls| ==> |polls[j].vs| <= |polls[k].vs|
  }

  lemma EmissionsAligned<L>(s: Snapshot<L>, p: OutParams)
    requires WellFormed(s)
    ensures Aligned(Emissions(s.vs, s.items, p, s.slots))
  {
  }

  lemma {:induction false} HeldIsLastPoll<L>(polls: seq<Snapshot<L>>, p: OutParams)
    requires polls != [] && (forall k :: 0 <= k < |polls| ==> WellFormed(polls[k])) && NeverShrinks(polls)
    ensures var last := polls[|polls| - 1];
            HeldAfter(polls, p) == Merging(Emissions(last.vs, last.items, p, last.slots), last.store, true)
  {
    hide Emissions, Emission;
    if |polls| > 1 {
      var init, last := polls[..|polls| - 1], polls[|polls| - 1];
      HeldIsLastPoll(init, p);
      var prev := init[|init| - 1];
      EmissionsAligned(prev, p);
      EmissionsAligned(last, p);
      AllReplaced(Merging(Emissions(prev.vs, prev.items, p, prev.slots), last.store, true),
                  Emissions(last.vs, last.items, p, last.slots));
    }
  }

  /** Over any polls of a cumulative request the collector never fails and holds, for each
      sequence, all its visible text and tokens as of the last poll, its own list of log
      probabilities if they are asked for, and its reasons; a poll moves no offset. */
  lemma CollectorHoldsLatest<L>(polls: seq<Snapshot<L>>, p: OutParams, i: nat)
    requires polls != [] && (forall k :: 0 <= k < |polls| ==> WellFormed(polls[k])) && NeverShrinks(polls)
    requires !p.delta && i < |polls[|polls| - 1].vs|
    ensures var v, held := polls[|polls| - 1].vs[i], HeldAfter(polls, p);
            && held.ok && |held.outs| == |polls[|polls| - 1].vs|
            && held.outs[i] == Completion(
                 i, VisibleText(v.text, v.status, p.buffer), v.output,
                 if p.includeLogprobs then Some(v.cumulativeLogprob) else None,
                 if p.includeLogprobs then Some(v.list) else None,
                 FinishedReason(v.status), v.stopReason)
            && AfterEmission(v, p) == v
  {
    HeldIsLastPoll(polls, p);
  }

  /** A sequence has a reason exactly when it has finished: it stopped, it reached a length
      limit before or while running, or it was aborted. */
  lemma ReasonIffFinished(s: Status)
    ensures FinishedReason(s).Some? <==> IsFinished(s)
    ensures IsFinished(s) <==> s != Waiting && s != Running && s != Swapped
    ensures FinishedReason(s) == Some("stop") <==> s == FinishedStopped
    ensures FinishedReason(s) == Some("abort") <==> s == FinishedAborted
    ensures FinishedReason(s) == Some("length") <==> s == FinishedLengthCapped || s == FinishedIgnored
  {
    assert "stop" != "length" && "stop" != "abort" && "length" != "abort" by {
      assert "stop"[0] == 's' && "length"[0] == 'l' && "abort"[0] == 'a';
    }
  }

  /** A finished sequence hides nothing; a running one hides exactly the last buffer
      characters, or all of a shorter text. */
  lemma VisibleExactly(text: string, status: Status, buffer: nat)
    ensures IsFinished(status) ==> VisibleText(text, status, buffer) == text
    ensures !IsFinished(status) && buffer <= |text| ==>
      |VisibleText(text, status, buffer)| == |text| - buffer && VisibleText(text, status, buffer) <= text
    ensures !IsFinished(status) && buffer > |text| ==> VisibleText(text, status, buffer) == ""
  {
  }
}
