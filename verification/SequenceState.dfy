/** The token state of one sequence, its per-step deltas, and its block keys. */
module SequenceState {
  import opened Common

  datatype Stage = Prefill | Decode

  /** The fields of a SequenceData that reach a worker, and the pending delta. */
  datatype Data = Data(prompt: seq<int>, output: seq<int>, logprob: real, computed: int, stage: Stage,
                       allTokens: seq<int>, appended: seq<int>)

  datatype Delta = Delta(tokens: seq<int>, logprob: real, computed: int, stage: Stage)

  function FromSeqs(prompt: seq<int>, output: seq<int>): Data {
    Data(prompt, output, 0.0, 0, Prefill, prompt + output, [])
  }

  function Len(d: Data): nat {
    |d.output| + |d.prompt|
  }

  function Append(d: Data, token: int, logprob: real): Data {
    d.(output := d.output + [token], appended := d.appended + [token],
       allTokens := d.allTokens + [token], logprob := d.logprob + logprob)
  }

  /** The result of counting n more computed tokens; the stage moves only when the
      count does not overrun. */
  function Compute(d: Data, n: int): Data {
    var computed := d.computed + n;
    d.(computed := computed, stage := if computed == Len(d) then Decode else d.stage)
  }

  function Reset(d: Data): Data {
    d.(computed := 0, stage := Prefill, appended := [])
  }

  function PendingDelta(d: Data): Delta {
    Delta(d.appended, d.logprob, d.computed, d.stage)
  }

  function Apply(d: Data, delta: Delta): Data {
    d.(computed := delta.computed, logprob := delta.logprob, stage := delta.stage,
       output := d.output + delta.tokens, allTokens := d.allTokens + delta.tokens)
  }

  predicate Consistent(d: Data) {
    d.allTokens == d.prompt + d.output
  }

  class SequenceData {
    const promptTokenIds: seq<int>
    var outputTokenIds: seq<int>
    var cumulativeLogprob: real
    var numComputedTokens: int
    var stage: Stage
    var cachedAllTokenIds: seq<int>
    var newAppendedTokens: seq<int>

    function View(): Data
      reads this
    {
      Data(promptTokenIds, outputTokenIds, cumulativeLogprob, numComputedTokens, stage,
           cachedAllTokenIds, newAppendedTokens)
    }

    constructor (promptTokenIds: seq<int>, outputTokenIds: seq<int>)
      ensures View() == FromSeqs(promptTokenIds, outputTokenIds) && Consistent(View())
      ensures this.promptTokenIds == promptTokenIds && this.outputTokenIds == outputTokenIds
      ensures cumulativeLogprob == 0.0 && numComputedTokens == 0 && stage == Prefill && newAppendedTokens == []
    {
      this.promptTokenIds, this.outputTokenIds := promptTokenIds, outputTokenIds;
      cumulativeLogprob, numComputedTokens, stage := 0.0, 0, Prefill;
      cachedAllTokenIds, newAppendedTokens := promptTokenIds + outputTokenIds, [];
    }

    method AppendTokenId(token: int, logprob: real)
      modifies this
      ensures View() == Append(old(View()), token, logprob)
      ensures outputTokenIds == old(outputTokenIds) + [token] && newAppendedTokens == old(newAppendedTokens) + [token]
      ensures cachedAllTokenIds == old(cachedAllTokenIds) + [token]
      ensures cumulativeLogprob == old(cumulativeLogprob) + logprob
      ensures numComputedTokens == old(numComputedTokens) && stage == old(stage)
      ensures old(Consistent(View())) ==> Consistent(View())
    {
      outputTokenIds := outputTokenIds + [token];
      newAppendedTokens := newAppendedTokens + [token];
      cachedAllTokenIds := cachedAllTokenIds + [token];
      cumulativeLogprob := cumulativeLogprob + logprob;
      assert old(Consistent(View())) ==>
        promptTokenIds + old(outputTokenIds) + [token] == promptTokenIds + (old(outputTokenIds) + [token]);
    }

    /** false stands for the AssertionError of an overrun, raised after the addition. */
    method UpdateNumComputedTokens(n: int) returns (ok: bool)
      modifies this`numComputedTokens, this`stage
      ensures ok <==> old(numComputedTokens) + n <= Len(old(View()))
      ensures View() == Compute(old(View()), n)
      ensures numComputedTokens == old(numComputedTokens) + n
      ensures stage == if numComputedTokens == |promptTokenIds| + |outputTokenIds| then Decode else old(stage)
    {
      numComputedTokens := numComputedTokens + n;
      if numComputedTokens > |outputTokenIds| + |promptTokenIds| {
        return false;
      }
      if |outputTokenIds| + |promptTokenIds| - numComputedTokens == 0 {
        stage := Decode;
      }
      ok := true;
    }

    method ResetStateForRecompute()
      modifies this`numComputedTokens, this`stage, this`newAppendedTokens
      ensures View() == Reset(old(View()))
      ensures numComputedTokens == 0 && stage == Prefill && newAppendedTokens == []
    {
      numComputedTokens, stage, newAppendedTokens := 0, Prefill, [];
    }

    method GetDeltaAndReset() returns (delta: Delta)
      modifies this`newAppendedTokens
      ensures delta == PendingDelta(old(View())) && View() == old(View()).(appended := [])
      ensures delta == Delta(old(newAppendedTokens), cumulativeLogprob, numComputedTokens, stage)
    {
      delta := Delta(newAppendedTokens, cumulativeLogprob, numComputedTokens, stage);
      newAppendedTokens := [];
    }

    method ApplyDelta(delta: Delta)
      modifies this
      ensures View() == Apply(old(View()), delta)
      ensures outputTokenIds == old(outputTokenIds) + delta.tokens
      ensures cachedAllTokenIds == old(cachedAllTokenIds) + delta.tokens
      ensures delta == Delta(delta.tokens, cumulativeLogprob, numComputedTokens, stage)
      ensures newAppendedTokens == old(newAppendedTokens)
    {
      numComputedTokens := delta.computed;
      cumulativeLogprob := delta.logprob;
      stage := delta.stage;
      outputTokenIds := outputTokenIds + delta.tokens;
      cachedAllTokenIds := cachedAllTokenIds + delta.tokens;
    }
  }

  // ----------------------------------------------------------- Deltas for a whole group

  /** What a step changes for the group as a whole. */
  datatype StepFields = StepFields(blockTables: map<int, seq<int>>, tokenChunkSize: int, doSample: bool, isPrompt: bool)

  datatype GroupDelta = GroupDelta(requestId: string, items: seq<(int, Delta)>, fields: StepFields)

  datatype ApplyOutcome = Applied | KeyError | AssertionError

  /** The deltas of a dictionary, in order, up to the first unknown sequence id. */
  function KnownPrefix(items: seq<(int, Delta)>, known: set<int>): (k: nat)
    ensures k <= |items|
  {
    if items == [] || items[0].0 !in known then 0 else 1 + KnownPrefix(items[1..], known)
  }

  function ApplyTo(d: Data, id: int, items: seq<(int, Delta)>): Data {
    if items == [] then d
    else
      var before := ApplyTo(d, id, items[..|items| - 1]);
      var (key, delta) := items[|items| - 1];
      if key == id then Apply(before, delta) else before
  }

  class SequenceGroupMetadata {
    const requestId: string
    const seqData: map<int, SequenceData>
    var blockTables: map<int, seq<int>>
    var tokenChunkSize: int
    var doSample: bool
    var isPrompt: bool

    function Fields(): StepFields
      reads this
    {
      StepFields(blockTables, tokenChunkSize, doSample, isPrompt)
    }

    ghost predicate Valid() {
      forall a, b | a in seqData && b in seqData && a != b :: seqData[a] != seqData[b]
    }

    /** Every known sequence gets its own delta and no other; an unknown id stops the
        loop, and the request id is compared only after all deltas are applied. */
    method ApplyDelta(delta: GroupDelta) returns (r: ApplyOutcome)
      requires Valid()
      modifies this, seqData.Values
      ensures forall id | id in seqData ::
        seqData[id].View()
        == ApplyTo(old(seqData[id].View()), id, delta.items[..KnownPrefix(delta.items, seqData.Keys)])
      ensures r.KeyError? <==> exists item | item in delta.items :: item.0 !in seqData
      ensures !r.KeyError? ==> (r.Applied? <==> requestId == delta.requestId)
      ensures Fields() == if r.Applied? then delta.fields else old(Fields())
    {
      hide KnownPrefix;
      for k := 0 to |delta.items|
        invariant forall item | item in delta.items[..k] :: item.0 in seqData
        invariant forall id | id in seqData ::
          seqData[id].View() == ApplyTo(old(seqData[id].View()), id, delta.items[..k])
        invariant Fields() == old(Fields())
      {
        var (id, d) := delta.items[k];
        assert delta.items[..k + 1] == delta.items[..k] + [delta.items[k]];
        assert delta.items[..k + 1][..k] == delta.items[..k];
        if id !in seqData {
          PrefixStops(delta.items, seqData.Keys, k);
          return KeyError;
        }
        assert seqData[id] in seqData.Values;
        seqData[id].ApplyDelta(d);
      }
      assert delta.items[..|delta.items|] == delta.items;
      PrefixComplete(delta.items, seqData.Keys);
      if requestId != delta.requestId {
        return AssertionError;
      }
      blockTables, tokenChunkSize := delta.fields.blockTables, delta.fields.tokenChunkSize;
      doSample, isPrompt := delta.fields.doSample, delta.fields.isPrompt;
      r := Applied;
    }
  }

  predicate DistinctKeys(items: seq<(int, Delta)>) {
    forall i, j :: 0 <= i < j < |items| ==> items[i].0 != items[j].0
  }

  /** The deltas of a dictionary reach exactly the sequences they are keyed by. */
  lemma {:induction false} ApplyToOwn(d: Data, id: int, items: seq<(int, Delta)>)
    requires DistinctKeys(items)
    ensures (forall k :: 0 <= k < |items| ==> items[k].0 != id) ==> ApplyTo(d, id, items) == d
    ensures forall k :: 0 <= k < |items| && items[k].0 == id ==>
      var delta := items[k].1;
      ApplyTo(d, id, items)
      == Data(d.prompt, d.output + delta.tokens, delta.logprob, delta.computed, delta.stage,
              d.allTokens + delta.tokens, d.appended)
  {
    if items != [] {
      var init := items[..|items| - 1];
      ApplyToOwn(d, id, init);
      assert forall k :: 0 <= k < |init| ==> init[k] == items[k];
    }
  }

  /** The deltas up to the first unknown id, all of them if there is none. */
  lemma {:induction false} KnownPrefixExact(items: seq<(int, Delta)>, known: set<int>)
    ensures var k := KnownPrefix(items, known);
            && (forall i :: 0 <= i < k ==> items[i].0 in known)
            && (k < |items| ==> items[k].0 !in known)
  {
    if items != [] { KnownPrefixExact(items[1..], known); }
  }

  /** Computing just the tokens that are left moves to the decode stage, computing fewer
      changes no stage, and a recomputation starts from nothing. */
  lemma ComputeAndReset(d: Data, n: int)
    ensures d.computed + n == Len(d) ==> Compute(d, n).stage == Decode
    ensures d.computed + n < Len(d) ==> Compute(d, n).stage == d.stage
    ensures Compute(d, n).computed == d.computed + n && Compute(d, n).output == d.output
    ensures var r := Reset(Compute(d, n));
            && r.computed == 0 && r.stage == Prefill && r.appended == [] && r.output == d.output
            && Compute(r, Len(d)).stage == Decode
  {
  }

  lemma {:induction false} PrefixStops(items: seq<(int, Delta)>, known: set<int>, k: nat)
    requires k < |items| && items[k].0 !in known
    requires forall item | item in items[..k] :: item.0 in known
    ensures KnownPrefix(items, known) == k
  {
    if k > 0 {
      assert items[..k][0] == items[0];
      assert items[1..][..k - 1] == items[..k][1..];
      PrefixStops(items[1..], known, k - 1);
    }
  }

  lemma {:induction false} PrefixComplete(items: seq<(int, Delta)>, known: set<int>)
    requires forall item | item in items :: item.0 in known
    ensures KnownPrefix(items, known) == |items|
  {
    if items != [] { PrefixComplete(items[1..], known); }
  }

  // --------------------------------------------------------------------- Block keys

  type PrefixParts = (seq<int>, Option<seq<int>>)

  function Take(s: seq<int>, n: int): seq<int> {
    if n <= 0 then [] else if n <= |s| then s[..n] else s
  }

  function PrefixTokenIds(d: Data, n: nat): PrefixParts {
    if n > |d.prompt| then (d.prompt, Some(Take(d.output, n - |d.prompt|)))
    else (Take(d.prompt, n), None)
  }

  datatype BlockKey = BlockKey(parts: PrefixParts, loraId: int)

  /** What hash_of_block hashes. */
  function KeyOfBlock(d: Data, loraId: int, blockSize: nat, i: nat): BlockKey {
    BlockKey(PrefixTokenIds(d, i * blockSize + blockSize), loraId)
  }

  function Joined(parts: PrefixParts): seq<int> {
    parts.0 + if parts.1.Some? then parts.1.value else []
  }

  /** The parts are the first n tokens of the sequence. */
  lemma PrefixPartsJoin(d: Data, n: nat)
    ensures Joined(PrefixTokenIds(d, n)) == Take(d.prompt + d.output, n)
  {
  }

  /** Two prefixes have equal parts exactly when their tokens are equal and both lie
      within the prompts or the prompts are the same. */
  lemma PartsEqualIff(d: Data, e: Data, n: nat)
    ensures PrefixTokenIds(d, n) == PrefixTokenIds(e, n) <==>
      && Take(d.prompt + d.output, n) == Take(e.prompt + e.output, n)
      && ((n <= |d.prompt| && n <= |e.prompt|) || d.prompt == e.prompt)
  {
    PrefixPartsJoin(d, n);
    PrefixPartsJoin(e, n);
    if n <= |d.prompt| && n <= |e.prompt| {
      assert Joined(PrefixTokenIds(d, n)) == PrefixTokenIds(d, n).0;
      assert Joined(PrefixTokenIds(e, n)) == PrefixTokenIds(e, n).0;
    } else if d.prompt == e.prompt {
      OutputPart(d, n);
      OutputPart(e, n);
    }
  }

  lemma OutputPart(d: Data, n: nat)
    requires n > |d.prompt|
    ensures Take(d.prompt + d.output, n)[|d.prompt|..] == Take(d.output, n - |d.prompt|)
  {
  }

  lemma TakeTake(s: seq<int>, m: nat, n: nat)
    requires m <= n
    ensures Take(Take(s, n), m) == Take(s, m)
  {
  }

  lemma PartsPrefixClosed(d: Data, e: Data, m: nat, n: nat)
    requires m <= n && PrefixTokenIds(d, n) == PrefixTokenIds(e, n)
    ensures PrefixTokenIds(d, m) == PrefixTokenIds(e, m)
  {
    hide PrefixTokenIds, Take;
    PartsEqualIff(d, e, n);
    PartsEqualIff(d, e, m);
    TakeTake(d.prompt + d.output, m, n);
    TakeTake(e.prompt + e.output, m, n);
  }

  /** Two blocks have equal keys exactly when the adapters are the same, the tokens up to the
      end of the block are equal, and both prefixes lie within the prompts or the prompts
      are the same. */
  lemma KeysEqualIff(d: Data, e: Data, loraD: int, loraE: int, blockSize: nat, i: nat)
    ensures KeyOfBlock(d, loraD, blockSize, i) == KeyOfBlock(e, loraE, blockSize, i) <==>
      var n := (i + 1) * blockSize;
      && loraD == loraE
      && Take(d.prompt + d.output, n) == Take(e.prompt + e.output, n)
      && ((n <= |d.prompt| && n <= |e.prompt|) || d.prompt == e.prompt)
  {
    hide PrefixTokenIds, Take;
    Product(i + 1, blockSize);
    PartsEqualIff(d, e, (i + 1) * blockSize);
  }

  /** Equal keys at block i mean equal keys at every earlier block. */
  lemma KeysPrefixClosed(d: Data, e: Data, loraD: int, loraE: int, blockSize: nat, i: nat, j: nat)
    requires j <= i && KeyOfBlock(d, loraD, blockSize, i) == KeyOfBlock(e, loraE, blockSize, i)
    ensures KeyOfBlock(d, loraD, blockSize, j) == KeyOfBlock(e, loraE, blockSize, j)
  {
    hide PrefixTokenIds;
    ProductGrows(j, i, blockSize);
    PartsPrefixClosed(d, e, j * blockSize + blockSize, i * blockSize + blockSize);
  }

  /** The same tokens split differently between prompt and output get different keys,
      so equal tokens alone do not make equal keys. */
  lemma SameTokensDifferentKeys(loraId: int)
    ensures var d, e := FromSeqs([1, 2], [3]), FromSeqs([1], [2, 3]);
            d.allTokens == e.allTokens && KeyOfBlock(d, loraId, 2, 0) != KeyOfBlock(e, loraId, 2, 0)
  {
  }
}
