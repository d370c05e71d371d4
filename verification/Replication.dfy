/** The driver's sequence state replicated to a worker.

    The driver appends tokens and sends either its whole state or only the delta since
    the last send; messages wait in a first-in first-out queue and the worker replays
    them.  The scheduler that chooses when to send which is not part of this model: its
    duties appear as the guards of the two send steps. */
module Replication {
  import opened Common
  import opened SequenceState

  datatype Msg = Full(data: Data) | Partial(delta: Delta)

  /** sent is the driver as of its last send; mustFull holds before the first send and
      after a reset. */
  datatype System = System(driver: Data, worker: Option<Data>, queue: seq<Msg>, sent: Option<Data>, mustFull: bool)

  datatype Step =
    | AppendToken(token: int, logprob: real)
    | ComputeTokens(n: int)
    | ResetDriver
    | SendFull
    | SendDelta
    | Deliver

  /** A delta for an unknown sequence leaves the worker without one. */
  function Receive(worker: Option<Data>, msg: Msg): Option<Data> {
    match msg
    case Full(data) => Some(data)
    case Partial(delta) => if worker.Some? then Some(Apply(worker.value, delta)) else None
  }

  function Replay(worker: Option<Data>, queue: seq<Msg>): Option<Data> {
    if queue == [] then worker
    else Receive(Replay(worker, queue[..|queue| - 1]), queue[|queue| - 1])
  }

  predicate Enabled(s: System, step: Step) {
    match step
    case ComputeTokens(n) => s.driver.computed + n <= Len(s.driver)
    case SendFull => s.driver.appended == []
    case SendDelta => !s.mustFull
    case Deliver => s.queue != []
    case _ => true
  }

  function Next(s: System, step: Step): System
    requires Enabled(s, step)
  {
    match step
    case AppendToken(token, logprob) => s.(driver := Append(s.driver, token, logprob))
    case ComputeTokens(n) => s.(driver := Compute(s.driver, n))
    case ResetDriver => s.(driver := Reset(s.driver), mustFull := true)
    case SendFull => s.(queue := s.queue + [Full(s.driver)], sent := Some(s.driver), mustFull := false)
    case SendDelta =>
      var after := s.driver.(appended := []);
      s.(driver := after, queue := s.queue + [Partial(PendingDelta(s.driver))], sent := Some(after))
    case Deliver => s.(worker := Receive(s.worker, s.queue[0]), queue := s.queue[1..])
  }

  function Initial(prompt: seq<int>): System {
    System(FromSeqs(prompt, []), None, [], None, true)
  }

  predicate ConsistentMsg(msg: Msg) {
    msg.Full? ==> Consistent(msg.data)
  }

  predicate Inv(s: System) {
    && Consistent(s.driver)
    && (s.worker.Some? ==> Consistent(s.worker.value))
    && (forall msg | msg in s.queue :: ConsistentMsg(msg))
    // no delta ever reaches a worker that does not know the sequence
    && (s.worker.None? && s.queue != [] ==> s.queue[0].Full?)
    && Replay(s.worker, s.queue) == s.sent
    && (s.sent.Some? ==> s.sent.value.appended == [])
    && (!s.mustFull ==>
          && s.sent.Some?
          && s.driver.prompt == s.sent.value.prompt
          && s.driver.output == s.sent.value.output + s.driver.appended)
  }

  lemma ReplayAppend(worker: Option<Data>, queue: seq<Msg>, msg: Msg)
    ensures Replay(worker, queue + [msg]) == Receive(Replay(worker, queue), msg)
  {
    assert (queue + [msg])[..|queue + [msg]| - 1] == queue;
  }

  lemma {:induction false} ReplayDeliver(worker: Option<Data>, queue: seq<Msg>)
    requires queue != []
    ensures Replay(Receive(worker, queue[0]), queue[1..]) == Replay(worker, queue)
  {
    var init, last := queue[..|queue| - 1], queue[|queue| - 1];
    if init == [] {
      assert queue[1..] == [] && Replay(worker, init) == worker;
    } else {
      ReplayDeliver(worker, init);
      assert queue[1..] == init[1..] + [last];
      ReplayAppend(Receive(worker, queue[0]), init[1..], last);
    }
  }

  lemma ApplyConsistent(d: Data, delta: Delta)
    requires Consistent(d)
    ensures Consistent(Apply(d, delta))
  {
    assert d.prompt + d.output + delta.tokens == d.prompt + (d.output + delta.tokens);
  }

  /** The delta of a driver brings the copy of its last send up to date. */
  lemma DeltaCatchesUp(sent: Data, driver: Data)
    requires Consistent(sent) && Consistent(driver) && sent.appended == []
    requires driver.prompt == sent.prompt && driver.output == sent.output + driver.appended
    ensures Apply(sent, PendingDelta(driver)) == driver.(appended := [])
  {
    ApplyConsistent(sent, PendingDelta(driver));
  }

  lemma {:induction false} ReplayConsistent(worker: Option<Data>, queue: seq<Msg>)
    requires worker.Some? ==> Consistent(worker.value)
    requires forall msg | msg in queue :: ConsistentMsg(msg)
    ensures Replay(worker, queue).Some? ==> Consistent(Replay(worker, queue).value)
  {
    if queue != [] {
      var init, last := queue[..|queue| - 1], queue[|queue| - 1];
      ReplayConsistent(worker, init);
      assert ConsistentMsg(last);
      if last.Partial? && Replay(worker, init).Some? {
        ApplyConsistent(Replay(worker, init).value, last.delta);
      }
    }
  }

  lemma SendInv(s: System, step: Step)
    requires Inv(s) && Enabled(s, step) && (step.SendFull? || step.SendDelta?)
    ensures Inv(Next(s, step))
  {
    var t := Next(s, step);
    var msg := t.queue[|s.queue|];
    assert t.queue == s.queue + [msg];
    ReplayAppend(s.worker, s.queue, msg);
    if step.SendDelta? {
      ReplayConsistent(s.worker, s.queue);
      DeltaCatchesUp(s.sent.value, s.driver);
    }
  }

  lemma DeliverInv(s: System)
    requires Inv(s) && Enabled(s, Deliver)
    ensures Inv(Next(s, Deliver))
  {
    assert ConsistentMsg(s.queue[0]);
    ReplayDeliver(s.worker, s.queue);
    if s.queue[0].Partial? {
      ApplyConsistent(s.worker.value, s.queue[0].delta);
    }
    hide Replay;
  }

  lemma StepInv(s: System, step: Step)
    requires Inv(s) && Enabled(s, step)
    ensures Inv(Next(s, step))
  {
    match step
    case AppendToken(token, logprob) =>
      assert s.driver.prompt + s.driver.output + [token] == s.driver.prompt + (s.driver.output + [token]);
    case SendFull => SendInv(s, step);
    case SendDelta => SendInv(s, step);
    case Deliver => DeliverInv(s);
    case _ =>
  }

  ghost predicate Run(s: System, steps: seq<Step>, t: System)
    decreases |steps|
  {
    if steps == [] then s == t
    else Enabled(s, steps[0]) && Run(Next(s, steps[0]), steps[1..], t)
  }

  lemma {:induction false} RunInv(s: System, steps: seq<Step>, t: System)
    requires Inv(s) && Run(s, steps, t)
    ensures Inv(t)
    decreases |steps|
  {
    if steps != [] {
      StepInv(s, steps[0]);
      RunInv(Next(s, steps[0]), steps[1..], t);
    }
  }

  // ------------------------------------------------------------------- What it means

  function QueuedTokens(queue: seq<Msg>): seq<int> {
    if queue == [] then []
    else
      var last := queue[|queue| - 1];
      QueuedTokens(queue[..|queue| - 1]) + if last.Partial? then last.delta.tokens else []
  }

  lemma {:induction false} ReplayOfDeltas(worker: Data, queue: seq<Msg>)
    requires forall msg | msg in queue :: msg.Partial?
    ensures Replay(Some(worker), queue).Some?
    ensures Replay(Some(worker), queue).value.output == worker.output + QueuedTokens(queue)
    ensures Replay(Some(worker), queue).value.prompt == worker.prompt
  {
    if queue != [] {
      var init, last := queue[..|queue| - 1], queue[|queue| - 1];
      assert last in queue;
      ReplayOfDeltas(worker, init);
      assert worker.output + QueuedTokens(init) + last.delta.tokens
          == worker.output + (QueuedTokens(init) + last.delta.tokens);
    }
  }

  /** In every reachable state with only deltas in flight and no full send due, the
      driver's output is the worker's, then the queued tokens, then the pending ones;
      and both token caches are prompt followed by output. */
  lemma DriverIsWorkerPlusFlight(prompt: seq<int>, steps: seq<Step>, s: System)
    requires Run(Initial(prompt), steps, s)
    ensures Consistent(s.driver) && (s.worker.Some? ==> Consistent(s.worker.value))
    ensures !s.mustFull && s.worker.Some? && (forall msg | msg in s.queue :: msg.Partial?) ==>
      && s.driver.output == s.worker.value.output + QueuedTokens(s.queue) + s.driver.appended
      && s.driver.prompt == s.worker.value.prompt
  {
    RunInv(Initial(prompt), steps, s);
    if s.worker.Some? && forall msg | msg in s.queue :: msg.Partial? {
      ReplayOfDeltas(s.worker.value, s.queue);
    }
  }

  function Deliveries(n: nat): seq<Step> {
    seq(n, _ => Deliver)
  }

  /** From every reachable state, delivering what is queued leaves the worker equal to
      the driver as of its last send: tokens, logprob, computed count and stage. */
  lemma DrainedWorkerIsLastSend(prompt: seq<int>, steps: seq<Step>, s: System, t: System)
    requires Run(Initial(prompt), steps, s) && Run(s, Deliveries(|s.queue|), t)
    ensures t.queue == [] && t.worker == t.sent == s.sent && t.driver == s.driver
  {
    RunInv(Initial(prompt), steps, s);
    Drain(s, t);
  }

  lemma {:induction false} Drain(s: System, t: System)
    requires Inv(s) && Run(s, Deliveries(|s.queue|), t)
    ensures t.queue == [] && t.worker == t.sent == s.sent && t.driver == s.driver
    decreases |s.queue|
  {
    if s.queue != [] {
      StepInv(s, Deliver);
      assert Deliveries(|s.queue|)[1..] == Deliveries(|s.queue| - 1);
      Drain(Next(s, Deliver), t);
    }
  }

  /** Draining is always possible: no guard can block a delivery. */
  lemma {:induction false} CanDrain(s: System) returns (t: System)
    requires Inv(s)
    ensures Run(s, Deliveries(|s.queue|), t)
    decreases |s.queue|
  {
    t := s;
    if s.queue != [] {
      StepInv(s, Deliver);
      t := CanDrain(Next(s, Deliver));
      assert Deliveries(|s.queue|)[1..] == Deliveries(|s.queue| - 1);
    }
  }

  // -------------------------------------------------------- Why the guards are needed

  function AppendAll(d: Data, tokens: seq<(int, real)>): Data {
    if tokens == [] then d
    else
      var last := tokens[|tokens| - 1];
      Append(AppendAll(d, tokens[..|tokens| - 1]), last.0, last.1)
  }

  lemma {:induction false} AppendAllTracks(d: Data, tokens: seq<(int, real)>)
    ensures var e := AppendAll(d, tokens);
            exists more: seq<int> ::
              |more| == |tokens| && e.output == d.output + more && e.appended == d.appended + more
  {
    if tokens == [] {
      assert d.output + [] == d.output && d.appended + [] == d.appended;
    } else {
      var init, last := tokens[..|tokens| - 1], tokens[|tokens| - 1];
      AppendAllTracks(d, init);
      var e := AppendAll(d, init);
      var more: seq<int> :| |more| == |init| && e.output == d.output + more && e.appended == d.appended + more;
      assert e.output + [last.0] == d.output + (more + [last.0]);
      assert e.appended + [last.0] == d.appended + (more + [last.0]);
    }
  }

  /** A delta sent after a reset keeps the worker right exactly when the reset dropped
      no pending token. */
  lemma DeltaAfterReset(worker: Data, driver: Data, later: seq<(int, real)>)
    requires driver.output == worker.output + driver.appended
    ensures var after := AppendAll(Reset(driver), later);
            Apply(worker, PendingDelta(after)).output == after.output <==> driver.appended == []
  {
    AppendAllTracks(Reset(driver), later);
    var after := AppendAll(Reset(driver), later);
    var more: seq<int> :| |more| == |later| && after.output == driver.output + more && after.appended == [] + more;
    assert after.appended == more;
    if driver.appended == [] {
      assert driver.output == worker.output;
    } else {
      assert |worker.output + more| < |after.output|;
    }
  }

  /** A full send leaves the pending tokens pending, so the next delta is right exactly
      when there were none. */
  lemma DeltaAfterFull(driver: Data, later: seq<(int, real)>)
    ensures var after := AppendAll(driver, later);
            Apply(driver, PendingDelta(after)).output == after.output <==> driver.appended == []
  {
    AppendAllTracks(driver, later);
    var after := AppendAll(driver, later);
    var more: seq<int> :|
      |more| == |later| && after.output == driver.output + more && after.appended == driver.appended + more;
    if driver.appended == [] {
      assert after.appended == more;
    } else {
      assert |driver.output + after.appended| > |after.output|;
    }
  }
}
