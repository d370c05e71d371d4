/** Forming batches of requests for a backend that pads every batch to its longest prompt
    and its longest output. */
module Batching {
  import opened Common

  datatype Request = Request(prompt: string, promptLen: nat, outputLen: nat)

  const Limit: nat := 2048

  type Batch = seq<Request>

  function Max(a: nat, b: nat): nat {
    if a < b then b else a
  }

  function Prompts(batch: Batch): (r: seq<string>)
    ensures |r| == |batch| && forall i :: 0 <= i < |batch| ==> r[i] == batch[i].prompt
  {
    seq(|batch|, i requires 0 <= i < |batch| => batch[i].prompt)
  }

  function MaxPrompt(batch: Batch): (r: nat)
    ensures forall i :: 0 <= i < |batch| ==> batch[i].promptLen <= r
    ensures batch == [] ==> r == 0
    ensures batch != [] ==> exists i :: 0 <= i < |batch| && batch[i].promptLen == r
  {
    if batch == [] then 0 else Max(MaxPrompt(batch[..|batch| - 1]), batch[|batch| - 1].promptLen)
  }

  function MaxOutput(batch: Batch): (r: nat)
    ensures forall i :: 0 <= i < |batch| ==> batch[i].outputLen <= r
    ensures batch == [] ==> r == 0
    ensures batch != [] ==> exists i :: 0 <= i < |batch| && batch[i].outputLen == r
  {
    if batch == [] then 0 else Max(MaxOutput(batch[..|batch| - 1]), batch[|batch| - 1].outputLen)
  }

  /** The padded size of a batch. */
  function Padded(batch: Batch): nat {
    MaxPrompt(batch) + MaxOutput(batch)
  }

  /** The requests of the first k batches. */
  function Concat(batches: seq<Batch>, k: nat): seq<Request>
    requires k <= |batches|
  {
    if k == 0 then [] else Concat(batches, k - 1) + batches[k - 1]
  }

  /** What the backend is asked to generate. */
  datatype Call = Call(prompts: seq<string>, maxNewTokens: nat)

  predicate CallsFor(calls: seq<Call>, batches: seq<Batch>) {
    |calls| == |batches| && forall b :: 0 <= b < |batches| ==>
      calls[b] == Call(Prompts(batches[b]), MaxOutput(batches[b]))
  }

  /** A batch is not empty, within the size limit, and within the padded limit unless it
      holds a single request. */
  predicate Sound(batch: Batch, maxBatchSize: int) {
    batch != [] && (|batch| == 1 || (|batch| <= maxBatchSize && Padded(batch) <= Limit))
  }

  /** The next request would break one of the limits. */
  predicate Full(batch: Batch, next: Request, maxBatchSize: int) {
    |batch| >= maxBatchSize || Padded(batch + [next]) > Limit
  }

  predicate AllSound(batches: seq<Batch>, maxBatchSize: int) {
    forall b :: 0 <= b < |batches| ==> Sound(batches[b], maxBatchSize)
  }

  /** No batch could have taken the first request of the next one. */
  predicate Greedy(batches: seq<Batch>, maxBatchSize: int) {
    forall b :: 0 <= b < |batches| - 1 && batches[b + 1] != [] ==> Full(batches[b], batches[b + 1][0], maxBatchSize)
  }

  /** The batch may follow the given ones. */
  predicate MayFollow(batches: seq<Batch>, batch: Batch, maxBatchSize: int) {
    Sound(batch, maxBatchSize) && (batches != [] ==> Full(batches[|batches| - 1], batch[0], maxBatchSize))
  }

  lemma MaximaGrow(batch: Batch, r: Request)
    ensures MaxPrompt(batch + [r]) == Max(MaxPrompt(batch), r.promptLen)
    ensures MaxOutput(batch + [r]) == Max(MaxOutput(batch), r.outputLen)
  {
    assert (batch + [r])[..|batch|] == batch;
  }

  lemma PromptsGrow(batch: Batch, r: Request)
    ensures Prompts(batch + [r]) == Prompts(batch) + [r.prompt]
  {
  }

  lemma GrowBatch(batches: seq<Batch>, batch: Batch, r: Request, maxBatchSize: int)
    requires MayFollow(batches, batch, maxBatchSize) && !Full(batch, r, maxBatchSize)
    ensures MayFollow(batches, batch + [r], maxBatchSize)
  {
    hide MaxPrompt, MaxOutput;
  }

  lemma FlushBatch(batches: seq<Batch>, batch: Batch, maxBatchSize: int)
    requires AllSound(batches, maxBatchSize) && Greedy(batches, maxBatchSize) && MayFollow(batches, batch, maxBatchSize)
    ensures AllSound(batches + [batch], maxBatchSize) && Greedy(batches + [batch], maxBatchSize)
  {
    hide Sound, Full;
    var all := batches + [batch];
    assert forall b :: 0 <= b < |batches| ==> all[b] == batches[b];
    assert all[|batches|] == batch;
  }

  lemma ConcatAdded(batches: seq<Batch>, batch: Batch)
    ensures Concat(batches + [batch], |batches| + 1) == Concat(batches, |batches|) + batch
  {
    SameConcat(batches + [batch], batches, |batches|);
  }

  /** The batches made so far and the current one hold the first i requests. */
  predicate Covers(batches: seq<Batch>, current: Batch, requests: seq<Request>, i: nat) {
    i <= |requests| && Concat(batches, |batches|) + current == requests[..i]
  }

  lemma CoverNext(batches: seq<Batch>, current: Batch, requests: seq<Request>, i: nat)
    requires i < |requests| && Covers(batches, current, requests, i)
    ensures Covers(batches, current + [requests[i]], requests, i + 1)
  {
    hide Concat;
    var before := Concat(batches, |batches|);
    assert before + (current + [requests[i]]) == (before + current) + [requests[i]];
  }

  lemma CoverFlushed(batches: seq<Batch>, current: Batch, requests: seq<Request>, i: nat)
    requires Covers(batches, current, requests, i)
    ensures Covers(batches + [current], [], requests, i)
  {
    ConcatAdded(batches, current);
    hide Concat;
    var all := batches + [current];
    assert Concat(all, |all|) + [] == Concat(all, |all|);
  }

  lemma CoversAll(batches: seq<Batch>, requests: seq<Request>)
    requires Covers(batches, [], requests, |requests|)
    ensures Concat(batches, |batches|) == requests
  {
    hide Concat;
    assert requests[..|requests|] == requests;
  }

  lemma StartBatch(batches: seq<Batch>, batch: Batch, r: Request, maxBatchSize: int)
    requires Full(batch, r, maxBatchSize)
    ensures MayFollow(batches + [batch], [] + [r], maxBatchSize)
  {
    hide Full, Padded;
    assert [] + [r] == [r];
  }

  lemma {:induction false} SameConcat(a: seq<Batch>, b: seq<Batch>, k: nat)
    requires k <= |a| && k <= |b| && forall i :: 0 <= i < k ==> a[i] == b[i]
    ensures Concat(a, k) == Concat(b, k)
  {
    if k > 0 { SameConcat(a, b, k - 1); }
  }

  lemma FlushCalls(calls: seq<Call>, batches: seq<Batch>, batch: Batch)
    requires CallsFor(calls, batches)
    ensures CallsFor(calls + [Call(Prompts(batch), MaxOutput(batch))], batches + [batch])
  {
    hide MaxOutput, Prompts;
  }

  lemma FullIff(batch: Batch, r: Request, maxBatchSize: int)
    ensures Full(batch, r, maxBatchSize) <==>
      |batch| >= maxBatchSize || Max(MaxPrompt(batch), r.promptLen) + Max(MaxOutput(batch), r.outputLen) > Limit
  {
    MaximaGrow(batch, r);
  }

  /** A split of the requests, in order, into batches within the limits. */
  predicate Splits(batches: seq<Batch>, requests: seq<Request>, maxBatchSize: int) {
    Concat(batches, |batches|) == requests && AllSound(batches, maxBatchSize)
  }

  /** The batching loop.  The backend is called once for each batch of a greedy split. */
  method RunHf(requests: seq<Request>, maxBatchSize: int) returns (calls: seq<Call>)
    ensures exists batches ::
              && CallsFor(calls, batches)
              && Splits(batches, requests, maxBatchSize) && Greedy(batches, maxBatchSize)
  {
    hide MaxPrompt, MaxOutput, AllSound, Greedy, CallsFor, Concat, Sound, MayFollow, Prompts, Full, Covers;
    calls := [];
    ghost var batches: seq<Batch> := [];
    var batch: seq<string> := [];
    var maxPromptLen, maxOutputLen := 0, 0;
    ghost var current: Batch := [];
    NoBatches(requests, maxBatchSize);
    for i := 0 to |requests|
      invariant Covers(batches, current, requests, i)
      invariant batch == Prompts(current) && maxPromptLen == MaxPrompt(current) && maxOutputLen == MaxOutput(current)
      invariant CallsFor(calls, batches) && AllSound(batches, maxBatchSize) && Greedy(batches, maxBatchSize)
      invariant i == |requests| ==> current == []
      invariant i < |requests| ==> MayFollow(batches, current + [requests[i]], maxBatchSize)
    {
      MaximaGrow(current, requests[i]);
      PromptsGrow(current, requests[i]);
      CoverNext(batches, current, requests, i);
      batch := batch + [requests[i].prompt];
      maxPromptLen := Max(maxPromptLen, requests[i].promptLen);
      maxOutputLen := Max(maxOutputLen, requests[i].outputLen);
      current := current + [requests[i]];
      if i != |requests| - 1 { FullIff(current, requests[i + 1], maxBatchSize); }
      if |batch| < maxBatchSize && i != |requests| - 1 {
        if Max(maxPromptLen, requests[i + 1].promptLen) + Max(maxOutputLen, requests[i + 1].outputLen) <= Limit {
          GrowBatch(batches, current, requests[i + 1], maxBatchSize);
          continue;
        }
      }
      FlushCalls(calls, batches, current);
      FlushBatch(batches, current, maxBatchSize);
      CoverFlushed(batches, current, requests, i + 1);
      if i != |requests| - 1 { StartBatch(batches, current, requests[i + 1], maxBatchSize); }
      calls := calls + [Call(batch, maxOutputLen)];
      batches := batches + [current];
      batch, current := [], [];
      maxPromptLen, maxOutputLen := 0, 0;
    }
    CoversAll(batches, requests);
  }

  lemma NoBatches(requests: seq<Request>, maxBatchSize: int)
    ensures Covers([], [], requests, 0)
    ensures CallsFor([], []) && AllSound([], maxBatchSize) && Greedy([], maxBatchSize)
    ensures MaxPrompt([]) == 0 && MaxOutput([]) == 0 && Prompts([]) == []
    ensures forall r :: MayFollow([], [] + [r], maxBatchSize)
  {
  }

  /** A batch is sound exactly when it holds one request, or no more than allowed and no
      prompt of it exceeds 2048 together with any output of it. */
  lemma SoundIff(batch: Batch, maxBatchSize: int)
    ensures Sound(batch, maxBatchSize) <==>
      && batch != []
      && (|batch| == 1 ||
          (|batch| <= maxBatchSize &&
           forall i, j :: 0 <= i < |batch| && 0 <= j < |batch| ==> batch[i].promptLen + batch[j].outputLen <= 2048))
  {
    if batch != [] {
      var i :| 0 <= i < |batch| && batch[i].promptLen == MaxPrompt(batch);
      var j :| 0 <= j < |batch| && batch[j].outputLen == MaxOutput(batch);
    }
  }

  // ---------------------------------------------------------------------- Fewest batches

  lemma BlockMaxima(a: Batch, b: Batch, p: nat)
    requires OccursAt(b, a, p)
    ensures Padded(a) <= Padded(b)
  {
    assert forall i :: 0 <= i < |a| ==> a[i] == b[p + i];
  }

  lemma BlockIsSound(a: Batch, b: Batch, p: nat, maxBatchSize: int)
    requires OccursAt(b, a, p) && a != [] && Sound(b, maxBatchSize)
    ensures Sound(a, maxBatchSize)
  {
    BlockMaxima(a, b, p);
  }

  lemma FullIsNotSound(batch: Batch, r: Request, maxBatchSize: int)
    requires batch != [] && Full(batch, r, maxBatchSize)
    ensures !Sound(batch + [r], maxBatchSize)
  {
  }

  function End(batches: seq<Batch>, k: nat): nat
    requires k <= |batches|
  {
    |Concat(batches, k)|
  }

  lemma {:induction false} Located(batches: seq<Batch>, k: nat, n: nat)
    requires k < n <= |batches|
    ensures End(batches, k) + |batches[k]| == End(batches, k + 1) <= End(batches, n)
    ensures batches[k] == Concat(batches, n)[End(batches, k)..End(batches, k + 1)]
  {
    if k + 1 < n { Located(batches, k, n - 1); }
  }

  /** Split the same requests in any other sound way: after each number of batches, the
      greedy split has covered at least as many requests. */
  lemma {:induction false} GreedyStaysAhead(
    requests: seq<Request>, greedy: seq<Batch>, other: seq<Batch>, maxBatchSize: int, k: nat)
    requires Splits(greedy, requests, maxBatchSize) && Greedy(greedy, maxBatchSize)
    requires Splits(other, requests, maxBatchSize) && k <= |greedy| && k <= |other|
    ensures End(other, k) <= End(greedy, k)
  {
    hide Sound, Full;
    if k > 0 {
      hide Concat, AllSound, Greedy;
      GreedyStaysAhead(requests, greedy, other, maxBatchSize, k - 1);
      if End(greedy, k) < End(other, k) {
        NoOvertaking(greedy, other, maxBatchSize, k - 1);
      }
    }
  }

  lemma NoOvertaking(greedy: seq<Batch>, other: seq<Batch>, maxBatchSize: int, k: nat)
    requires AllSound(greedy, maxBatchSize) && Greedy(greedy, maxBatchSize) && AllSound(other, maxBatchSize)
    requires Concat(greedy, |greedy|) == Concat(other, |other|) && k < |greedy| && k < |other|
    requires End(other, k) <= End(greedy, k)
    ensures End(other, k + 1) <= End(greedy, k + 1)
  {
    hide Sound, Full, Concat;
    var all := Concat(greedy, |greedy|);
    Located(greedy, k, |greedy|);
    Located(other, k, |other|);
    if End(greedy, k + 1) < End(other, k + 1) {
      EndIsLength(greedy, other);
      NextExists(greedy, k + 1);
      var next := NextRequest(greedy, k + 1, maxBatchSize);
      hide AllSound;
      hide End;
      OvertakenIsNotFull(all, greedy[k], next, other[k], End(greedy, k), End(other, k), maxBatchSize);
    }
  }

  lemma EndIsLength(a: seq<Batch>, b: seq<Batch>)
    requires Concat(a, |a|) == Concat(b, |b|)
    ensures End(a, |a|) == End(b, |b|) == |Concat(a, |a|)|
  {
  }

  lemma NextRequest(batches: seq<Batch>, k: nat, maxBatchSize: int) returns (next: Request)
    requires AllSound(batches, maxBatchSize) && Greedy(batches, maxBatchSize) && 0 < k < |batches|
    ensures End(batches, k) < |Concat(batches, |batches|)| && next == Concat(batches, |batches|)[End(batches, k)]
    ensures Full(batches[k - 1], next, maxBatchSize)
  {
    hide Concat, Full;
    NotEmpty(batches, k, maxBatchSize);
    Located(batches, k, |batches|);
    next := batches[k][0];
  }

  lemma NotEmpty(batches: seq<Batch>, k: nat, maxBatchSize: int)
    requires AllSound(batches, maxBatchSize) && k < |batches|
    ensures batches[k] != []
  {
  }

  lemma NextExists(batches: seq<Batch>, k: nat)
    requires k <= |batches| && End(batches, k) < End(batches, |batches|)
    ensures k < |batches|
  {
  }

  lemma BlockOfSlice(all: seq<Request>, a: nat, b: nat, p: nat, n: nat)
    requires a <= b <= |all| && p + n <= b - a
    ensures OccursAt(all[a..b], all[a + p..a + p + n], p)
  {
    SliceOfSlice(all, a, b, p, p + n);
  }

  lemma OvertakenIsNotFull(
      all: seq<Request>, batch: Batch, next: Request, other: Batch, c: nat, a: nat, maxBatchSize: int)
    requires a <= c && c + |batch| < a + |other| <= |all| && Sound(batch, maxBatchSize) && Sound(other, maxBatchSize)
    requires batch == all[c..c + |batch|] && next == all[c + |batch|] && other == all[a..a + |other|]
    ensures !Full(batch, next, maxBatchSize)
  {
    hide MaxPrompt, MaxOutput, Padded;
    assert batch + [next] == all[c..c + |batch| + 1];
    BlockOfSlice(all, a, a + |other|, c - a, |batch| + 1);
    BlockIsSound(batch + [next], other, c - a, maxBatchSize);
    if Full(batch, next, maxBatchSize) { FullIsNotSound(batch, next, maxBatchSize); }
  }

  /** No way of splitting the requests, in order, into batches within the limits needs
      fewer batches than the loop makes. */
  lemma GreedyNeedsFewest(requests: seq<Request>, greedy: seq<Batch>, other: seq<Batch>, maxBatchSize: int)
    requires Splits(greedy, requests, maxBatchSize) && Greedy(greedy, maxBatchSize)
    requires Splits(other, requests, maxBatchSize)
    ensures |greedy| <= |other|
  {
    hide Concat;
    if |other| < |greedy| {
      GreedyStaysAhead(requests, greedy, other, maxBatchSize, |other|);
      Located(greedy, |other|, |greedy|);
    }
  }
}
