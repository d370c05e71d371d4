/** What a client receives of a group of sequences, and how it puts it together again.

    In delta mode every poll returns, per sequence, only the text and tokens since the
    last poll; the client merges the parts by completion index. */
module OutputStreaming {
  import opened Common
  import opened StopStrings
  import SequenceState

  datatype Status =
    | Waiting
    | Running
    | Swapped
    | FinishedStopped
    | FinishedLengthCapped
    | FinishedAborted
    | FinishedIgnored

  predicate IsFinished(s: Status) {
    s.FinishedStopped? || s.FinishedLengthCapped? || s.FinishedAborted? || s.FinishedIgnored?
  }

  function FinishedReason(s: Status): Option<string> {
    match s
    case FinishedStopped => Some("stop")
    case FinishedLengthCapped => Some("length")
    case FinishedAborted => Some("abort")
    case FinishedIgnored => Some("length")
    case _ => None
  }

  /** Candidate token to log probability. */
  type Logprobs = map<int, real>

  /** A list with one entry per generated token.  Lists are handed out by reference. */
  class LogprobList {
    var items: seq<Logprobs>

    constructor (items: seq<Logprobs>)
      ensures this.items == items
    {
      this.items := items;
    }
  }

  // ------------------------------------------------------------------- One sequence

  /** A sequence; list is the identity of its list of log probabilities. */
  datatype SeqView<L> = SeqView(output: seq<int>, list: L, cumulativeLogprob: real, text: string,
                                status: Status, stopReason: Option<string>, textOffset: nat, tokenOffset: nat)

  /** The text a cumulative request is given. */
  function VisibleText(text: string, status: Status, buffer: nat): string {
    if IsFinished(status) then text else text[..VisibleLength(text, buffer)]
  }

  datatype TokensOut = OneToken(token: int) | ManyTokens(tokens: seq<int>)

  function TokenList(r: TokensOut): seq<int> {
    if r.OneToken? then [r.token] else r.tokens
  }

  class Sequence {
    const data: SequenceState.SequenceData
    const outputLogprobs: LogprobList
    var outputText: string
    var status: Status
    var stopReason: Option<string>
    var lastOutputTokenIdsOffset: nat
    var lastOutputTextOffset: nat

    constructor (data: SequenceState.SequenceData)
      ensures this.data == data && outputText == "" && status == Waiting
      ensures fresh(outputLogprobs) && outputLogprobs.items == []
      ensures stopReason == None && lastOutputTokenIdsOffset == 0 && lastOutputTextOffset == 0
    {
      this.data := data;
      outputLogprobs := new LogprobList([]);
      outputText, status, stopReason := "", Waiting, None;
      lastOutputTokenIdsOffset, lastOutputTextOffset := 0, 0;
    }

    ghost predicate Valid()
      reads this, data
    {
      SequenceState.Consistent(data.View()) && lastOutputTokenIdsOffset <= |data.outputTokenIds|
    }

    function View(): SeqView<LogprobList>
      reads this, data
    {
      SeqView(data.outputTokenIds, outputLogprobs, data.cumulativeLogprob, outputText, status, stopReason,
              lastOutputTextOffset, lastOutputTokenIdsOffset)
    }

    method AppendTokenId(token: int, logprobs: Logprobs)
      requires Valid() && token in logprobs
      modifies outputLogprobs, data
      ensures Valid()
      ensures outputLogprobs.items == old(outputLogprobs.items) + [logprobs]
      ensures View() == old(View()).(output := old(View()).output + [token],
                                     cumulativeLogprob := old(View()).cumulativeLogprob + logprobs[token])
    {
      outputLogprobs.items := outputLogprobs.items + [logprobs];
      data.AppendTokenId(token, logprobs[token]);
    }

    /** In delta mode the returned texts continue each other: this one starts where the
        last one ended, and is empty when nothing new is visible. */
    method GetOutputTextToReturn(bufferLength: nat, delta: bool) returns (text: string)
      modifies this`lastOutputTextOffset
      ensures !delta ==> text == VisibleText(outputText, status, bufferLength)
                         && lastOutputTextOffset == old(lastOutputTextOffset)
      ensures delta ==>
        var visible := VisibleText(outputText, status, bufferLength);
        if old(lastOutputTextOffset) < |visible|
        then text == visible[old(lastOutputTextOffset)..] && lastOutputTextOffset == |visible|
        else text == "" && lastOutputTextOffset == old(lastOutputTextOffset)
    {
      var truncate := bufferLength != 0 && !IsFinished(status);
      if !delta {
        return if !truncate then outputText
               else outputText[..if |outputText| < bufferLength then 0 else |outputText| - bufferLength];
      }
      var length: int := |outputText|;
      if truncate {
        length := length - bufferLength;
      }
      var lastOffset := lastOutputTextOffset;
      if lastOffset < length {
        lastOutputTextOffset := length;
        return outputText[lastOffset..length];
      }
      text := "";
    }

    /** A single new token is returned bare, anything else as a list. */
    method GetOutputTokenIdsToReturn(delta: bool) returns (r: TokensOut)
      requires Valid()
      modifies this`lastOutputTokenIdsOffset
      ensures Valid()
      ensures !delta ==> r == ManyTokens(data.outputTokenIds)
                         && lastOutputTokenIdsOffset == old(lastOutputTokenIdsOffset)
      ensures delta ==>
        && TokenList(r) == data.outputTokenIds[old(lastOutputTokenIdsOffset)..]
        && (r.OneToken? <==> |TokenList(r)| == 1)
        && lastOutputTokenIdsOffset == |data.outputTokenIds|
    {
      if !delta {
        return ManyTokens(data.outputTokenIds);
      }
      var outputLen := |data.outputTokenIds|;
      var numNewTokens := outputLen - lastOutputTokenIdsOffset;
      lastOutputTokenIdsOffset := outputLen;
      ghost var prompt := data.promptTokenIds;
      var all := data.cachedAllTokenIds;
      assert all == prompt + data.outputTokenIds;
      if numNewTokens == 1 {
        return OneToken(all[|all| - 1]);
      }
      if numNewTokens == 0 {
        return ManyTokens([]);
      }
      r := ManyTokens(all[|all| - numNewTokens..]);
    }
  }

  // --------------------------------------------------------------------- Completions

  datatype Completion<L> = Completion(index: int, text: string, tokenIds: seq<int>, cumulativeLogprob: Option<real>,
                                      list: Option<L>, finishReason: Option<string>, stopReason: Option<string>)

  /** The entries of a list; without a list there are none. */
  function Items<L(==)>(store: map<L, seq<Logprobs>>, list: Option<L>): seq<Logprobs> {
    if list.Some? && list.value in store then store[list.value] else []
  }

  /** The contents of some lists. */
  function StoreOf(lists: set<LogprobList>): map<LogprobList, seq<Logprobs>>
    reads lists
  {
    map l | l in lists :: l.items
  }

  class CompletionOutput {
    var index: int
    var text: string
    var tokenIds: seq<int>
    var cumulativeLogprob: Option<real>
    var logprobs: Option<LogprobList>
    var finishReason: Option<string>
    var stopReason: Option<string>

    constructor (c: Completion<LogprobList>)
      ensures View() == c
    {
      index, text, tokenIds, cumulativeLogprob := c.index, c.text, c.tokenIds, c.cumulativeLogprob;
      logprobs, finishReason, stopReason := c.list, c.finishReason, c.stopReason;
    }

    function View(): Completion<LogprobList>
      reads this
    {
      Completion(index, text, tokenIds, cumulativeLogprob, logprobs, finishReason, stopReason)
    }

    method Assign(c: Completion<LogprobList>)
      modifies this
      ensures View() == c && index == c.index
    {
      index, text, tokenIds, cumulativeLogprob := c.index, c.text, c.tokenIds, c.cumulativeLogprob;
      logprobs, finishReason, stopReason := c.list, c.finishReason, c.stopReason;
    }

    /** Extends text, tokens and the list in place; whoever shares the list sees it grow.
        false stands for the failed assertion, raised when text and tokens are already
        extended. */
    method Extend(next: CompletionOutput, ghost lists: set<LogprobList>) returns (ok: bool)
      requires next != this && Within([this, next], lists)
      modifies this, if logprobs.Some? then {logprobs.value} else {}
      ensures logprobs == old(logprobs) && index == old(index)
      ensures text == old(text) + next.text && tokenIds == old(tokenIds) + next.tokenIds
      ensures (cumulativeLogprob, finishReason, stopReason) ==
        if ok then (next.cumulativeLogprob, next.finishReason, next.stopReason)
        else old((cumulativeLogprob, finishReason, stopReason))
      ensures ok <==> CanMerge(old(StoreOf(lists)), old(View()), next.View())
      ensures View() == if ok then Merge(old(View()), next.View()) else HalfMerge(old(View()), next.View())
      ensures StoreOf(lists) ==
        if ok then Stored(old(StoreOf(lists)), old(View()), next.View()) else old(StoreOf(lists))
    {
      assert [this, next][0] == this && [this, next][1] == next;
      text := text + next.text;
      tokenIds := tokenIds + next.tokenIds;
      if next.logprobs.Some? && next.logprobs.value.items != [] {
        if logprobs.None? {
          return false;
        }
        logprobs.value.items := logprobs.value.items + next.logprobs.value.items;
      }
      cumulativeLogprob := next.cumulativeLogprob;
      finishReason := next.finishReason;
      stopReason := next.stopReason;
      ok := true;
    }
  }

  /** Every list of the outputs is one of the given ones. */
  predicate Within(outs: seq<CompletionOutput>, lists: set<LogprobList>)
    reads set c | c in outs
  {
    forall i :: 0 <= i < |outs| && outs[i].logprobs.Some? ==> outs[i].logprobs.value in lists
  }

  /** The assertion made when log probabilities are merged. */
  predicate CanMerge<L(==)>(store: map<L, seq<Logprobs>>, c: Completion<L>, next: Completion<L>) {
    Items(store, next.list) != [] ==> c.list.Some?
  }

  /** All of a merge but the contents of the lists. */
  function Merge<L>(c: Completion<L>, next: Completion<L>): Completion<L> {
    Completion(c.index, c.text + next.text, c.tokenIds + next.tokenIds, next.cumulativeLogprob,
               c.list, next.finishReason, next.stopReason)
  }

  /** What a merge has done when its assertion fails. */
  function HalfMerge<L>(c: Completion<L>, next: Completion<L>): Completion<L> {
    c.(text := c.text + next.text, tokenIds := c.tokenIds + next.tokenIds)
  }

  /** The lists after a merge. */
  function Stored<L(==)>(
      store: map<L, seq<Logprobs>>, c: Completion<L>, next: Completion<L>): (r: map<L, seq<Logprobs>>)
    ensures c.list.Some? ==> Items(r, c.list) == Items(store, c.list) + Items(store, next.list)
    ensures forall l | l in store :: l in r && (Some(l) != c.list ==> r[l] == store[l])
    ensures forall l | l in r :: l in store || Some(l) == c.list
  {
    if c.list.None? || Items(store, next.list) == [] then store
    else store[c.list.value := Items(store, c.list) + Items(store, next.list)]
  }

  /** Completions in the order of their indices, from zero. */
  predicate Aligned<L>(cs: seq<Completion<L>>) {
    forall i :: 0 <= i < |cs| ==> cs[i].index == i
  }

  /** The first position with the given completion index, or the length. */
  function Find<L>(outs: seq<Completion<L>>, index: int): (p: nat)
    ensures p <= |outs|
    ensures p < |outs| ==> outs[p].index == index
    ensures forall j :: 0 <= j < p ==> outs[j].index != index
  {
    if outs == [] || outs[0].index == index then 0 else 1 + Find(outs[1..], index)
  }

  /** Completions and lists during a merge; ok is false once an assertion has failed. */
  datatype Merging<L> = Merging(outs: seq<Completion<L>>, store: map<L, seq<Logprobs>>, ok: bool)

  function AddOne<L(==)>(m: Merging<L>, next: Completion<L>, aggregate: bool): Merging<L> {
    var p := Find(m.outs, next.index);
    if p == |m.outs| then m.(outs := m.outs + [next])
    else if !aggregate then m.(outs := m.outs[p := next])
    else if CanMerge(m.store, m.outs[p], next) then
      Merging(m.outs[p := Merge(m.outs[p], next)], Stored(m.store, m.outs[p], next), true)
    else Merging(m.outs[p := HalfMerge(m.outs[p], next)], m.store, false)
  }

  /** The completions added one by one, up to the first failure. */
  function AddAll<L(==)>(m: Merging<L>, nexts: seq<Completion<L>>, aggregate: bool): Merging<L>
    decreases |nexts|
  {
    if nexts == [] || !m.ok then m else AddAll(AddOne(m, nexts[0], aggregate), nexts[1..], aggregate)
  }

  lemma {:induction false} AddAllStep<L>(m: Merging<L>, nexts: seq<Completion<L>>, aggregate: bool, k: nat)
    requires k < |nexts|
    ensures var before := AddAll(m, nexts[..k], aggregate);
            AddAll(m, nexts[..k + 1], aggregate) == if before.ok then AddOne(before, nexts[k], aggregate) else before
    decreases k
  {
    var upTo := nexts[..k + 1];
    assert nexts[..0] == [];
    if m.ok {
      assert upTo[0] == nexts[0] && upTo[1..] == nexts[1..][..k];
      var first := AddOne(m, nexts[0], aggregate);
      if k == 0 {
        assert AddAll(m, upTo, aggregate) == AddAll(first, [], aggregate);
      } else {
        assert nexts[..k][1..] == nexts[1..][..k - 1];
        AddAllStep(first, nexts[1..], aggregate, k - 1);
      }
    }
  }

  /** A failure ends the merge. */
  lemma {:induction false} AddAllFails<L>(m: Merging<L>, nexts: seq<Completion<L>>, aggregate: bool, k: nat)
    requires k <= |nexts| && !AddAll(m, nexts[..k], aggregate).ok
    ensures AddAll(m, nexts, aggregate) == AddAll(m, nexts[..k], aggregate)
    decreases |nexts| - k
  {
    if k == |nexts| {
      assert nexts[..k] == nexts;
    } else {
      AddAllStep(m, nexts, aggregate, k);
      AddAllFails(m, nexts, aggregate, k + 1);
    }
  }

  function Views(outs: seq<CompletionOutput>): (r: seq<Completion<LogprobList>>)
    reads set c | c in outs
    ensures |r| == |outs| && forall i :: 0 <= i < |outs| ==> r[i] == outs[i].View()
  {
    seq(|outs|, i requires 0 <= i < |outs| reads set c | c in outs => outs[i].View())
  }

  class RequestOutput {
    var outputs: seq<CompletionOutput>
    var finished: bool
    var kvTransferParams: Option<map<string, string>>

    constructor (outputs: seq<CompletionOutput>, finished: bool, params: Option<map<string, string>>)
      ensures this.outputs == outputs && this.finished == finished && kvTransferParams == params
    {
      this.outputs, this.finished, kvTransferParams := outputs, finished, params;
    }

    /** Makes room for completion i in a cached output. */
    method EnsureSlot(i: nat)
      requires i <= |outputs| && CacheValid(outputs)
      modifies this`outputs
      ensures i < |outputs| && CacheValid(outputs) && old(outputs) <= outputs
      ensures |outputs| == if i < |old(outputs)| then |old(outputs)| else i + 1
      ensures forall c | c in outputs :: c in old(outputs) || fresh(c)
      ensures i == |old(outputs)| ==> fresh(outputs[i])
    {
      if i >= |outputs| {
        var blank := new CompletionOutput(Completion(i, "", [], None, None, None, None));
        outputs := outputs + [blank];
      }
    }

    method FindSlot(index: int) returns (i: nat)
      ensures i == Find(Views(outputs), index)
    {
      i := 0;
      while i < |outputs| && outputs[i].index != index
        invariant 0 <= i <= |outputs|
        invariant forall j :: 0 <= j < i ==> outputs[j].index != index
      {
        i := i + 1;
      }
    }

    method AddCompletion(next: CompletionOutput, aggregate: bool, ghost lists: set<LogprobList>) returns (ok: bool)
      requires Distinct(outputs) && next !in outputs && Within(outputs, lists) && Within([next], lists)
      modifies this`outputs, (set c | c in outputs), lists
      ensures Merging(Views(outputs), StoreOf(lists), ok)
           == AddOne(Merging(old(Views(outputs)), old(StoreOf(lists)), true), next.View(), aggregate)
      ensures Distinct(outputs) && forall c | c in outputs :: c in old(outputs) || c == next
      ensures Within(outputs, lists)
    {
      hide Merge, HalfMerge, CanMerge, Stored, Find, Views, StoreOf;
      var i := FindSlot(next.index);
      ok := true;
      assert [next][0] == next;
      if i == |outputs| {
        outputs := outputs + [next];
      } else if aggregate {
        ok := outputs[i].Extend(next, lists);
        assert forall j :: 0 <= j < |outputs| && j != i ==> outputs[j] != outputs[i];
      } else {
        outputs := outputs[i := next];
      }
    }

    /** Merges a later output into this one; false stands for the failed assertion, which
        leaves the completions before it merged and one of them half merged. */
    method Add(next: RequestOutput, aggregate: bool, ghost lists: set<LogprobList>) returns (ok: bool)
      requires next != this && Distinct(outputs) && Distinct(next.outputs)
      requires forall c | c in next.outputs :: c !in outputs
      requires Within(outputs, lists) && Within(next.outputs, lists)
      modifies this, (set c | c in outputs), (set c | c in next.outputs), lists
      ensures finished == (old(finished) || next.finished) && kvTransferParams == next.kvTransferParams
      ensures Merging(Views(outputs), StoreOf(lists), ok)
           == AddAll(Merging(old(Views(outputs)), old(StoreOf(lists)), true), old(Views(next.outputs)), aggregate)
      ensures Distinct(outputs)
    {
      hide AddOne, AddAll, Views, StoreOf, CompletionOutput.View;
      finished := finished || next.finished;
      kvTransferParams := next.kvTransferParams;
      ghost var m, nexts := Merging(Views(outputs), StoreOf(lists), true), Views(next.outputs);
      NoneAdded(m, nexts, aggregate);
      WithinByView(next.outputs, lists);
      hide Within, Distinct;
      var incoming := next.outputs;
      for k := 0 to |incoming|
        invariant incoming == next.outputs == old(next.outputs)
        invariant finished == (old(finished) || next.finished) && kvTransferParams == next.kvTransferParams
        invariant forall c | c in outputs :: c in old(outputs) || c in old(next.outputs)
        invariant Distinct(outputs) && Within(outputs, lists)
        invariant forall j :: k <= j < |incoming| ==> incoming[j] !in outputs && incoming[j].View() == nexts[j]
        invariant AddAll(m, nexts[..k], aggregate) == Merging(Views(outputs), StoreOf(lists), true)
      {
        AddAllStep(m, nexts, aggregate, k);
        WithinByView([incoming[k]], lists);
        var added := AddCompletion(incoming[k], aggregate, lists);
        if !added {
          AddAllFails(m, nexts, aggregate, k + 1);
          return false;
        }
      }
      assert nexts[..|nexts|] == nexts;
      ok := true;
    }
  }

  lemma WithinByView(outs: seq<CompletionOutput>, lists: set<LogprobList>)
    ensures Within(outs, lists) <==>
      forall i :: 0 <= i < |outs| && outs[i].View().list.Some? ==> outs[i].View().list.value in lists
  {
    assert forall i :: 0 <= i < |outs| ==> outs[i].View().list == outs[i].logprobs;
  }

  lemma NoneAdded<L>(m: Merging<L>, nexts: seq<Completion<L>>, aggregate: bool)
    ensures AddAll(m, nexts[..0], aggregate) == m
  {
  }

  /** What is handed to a collector: an output or an exception. */
  datatype Item = Result(out: RequestOutput) | Failure(exception: string)

  /** Holds the merged outputs of one request, or an exception, until they are taken. */
  class RequestOutputCollector {
    const aggregate: bool
    var output: Option<Item>

    constructor (delta: bool)
      ensures aggregate == delta && output == None
    {
      aggregate, output := delta, None;
    }

    /** Whether an item put now is merged into the output that is held. */
    predicate Merges(next: Item)
      reads this
    {
      output.Some? && output.value.Result? && next.Result?
    }

    /** The first output is kept as it is, later ones are merged into it; an exception
        replaces what is held, and an output is dropped while an exception is held. */
    method Put(next: Item, ghost lists: set<LogprobList>) returns (ok: bool)
      requires Merges(next) ==>
        && next.out != output.value.out && Distinct(output.value.out.outputs) && Distinct(next.out.outputs)
        && (forall c | c in next.out.outputs :: c !in output.value.out.outputs)
        && Within(output.value.out.outputs, lists) && Within(next.out.outputs, lists)
      modifies this`output
      modifies if Merges(next) then {output.value.out} else {}
      modifies if Merges(next) then (set c | c in output.value.out.outputs) else {}
      modifies if Merges(next) then (set c | c in next.out.outputs) else {}
      modifies if Merges(next) then lists else {}
      ensures old(output).None? || next.Failure? ==> ok && output == Some(next)
      ensures old(output).Some? && next.Result? ==> output == old(output) && (old(output).value.Failure? ==> ok)
      ensures old(Merges(next)) ==>
        var held := output.value.out;
        && held.finished == (old(output.value.out.finished) || old(next.out.finished))
        && held.kvTransferParams == old(next.out.kvTransferParams)
        && Merging(Views(held.outputs), StoreOf(lists), ok)
           == AddAll(Merging(old(Views(output.value.out.outputs)), old(StoreOf(lists)), true),
                     old(Views(next.out.outputs)), aggregate)
    {
      hide Views, StoreOf, AddAll, Within, Distinct;
      ok := true;
      if output.None? || next.Failure? {
        output := Some(next);
      } else if output.value.Result? {
        ok := output.value.out.Add(next.out, aggregate, lists);
      }
    }

    /** A held exception is raised, which the caller sees as the item itself. */
    method GetNowait() returns (r: Option<Item>)
      modifies this`output
      ensures r == old(output) && output == None
    {
      r := output;
      output := None;
    }
  }

  // ---------------------------------------------------------------- Producing outputs

  datatype OutParams = OutParams(buffer: nat, delta: bool, includeLogprobs: bool)

  function EmittedText<L>(v: SeqView<L>, p: OutParams): string {
    var visible := VisibleText(v.text, v.status, p.buffer);
    if !p.delta then visible
    else if v.textOffset < |visible| then visible[v.textOffset..]
    else ""
  }

  function EmittedTokens<L>(v: SeqView<L>, p: OutParams): seq<int> {
    if p.delta && v.tokenOffset <= |v.output| then v.output[v.tokenOffset..] else v.output
  }

  /** The list of an output: the sequence's own, a new one, or none. */
  datatype ListOut = Own | New(items: seq<Logprobs>) | NoList

  /** In delta mode a copy of the last n entries, and nothing when there is no new token;
      but a list that is still empty is handed out itself. */
  function EmittedList<L>(v: SeqView<L>, items: seq<Logprobs>, p: OutParams): ListOut {
    var n := |EmittedTokens(v, p)|;
    if !p.includeLogprobs then NoList
    else if !p.delta || items == [] then Own
    else if n == 0 then NoList
    else New(if n <= |items| then items[|items| - n..] else items)
  }

  /** The output of a sequence whose list has the given items; slot is where a new list
      goes. */
  function Emission<L>(v: SeqView<L>, items: seq<Logprobs>, i: nat, p: OutParams, slot: L): Completion<L> {
    var list := match EmittedList(v, items, p)
                case Own => Some(v.list)
                case New(_) => Some(slot)
                case NoList => None;
    Completion(i, EmittedText(v, p), EmittedTokens(v, p), if p.includeLogprobs then Some(v.cumulativeLogprob) else None,
               list, FinishedReason(v.status), v.stopReason)
  }

  function AfterEmission<L>(v: SeqView<L>, p: OutParams): SeqView<L> {
    var visible := VisibleText(v.text, v.status, p.buffer);
    if !p.delta then v
    else v.(textOffset := if v.textOffset < |visible| then |visible| else v.textOffset, tokenOffset := |v.output|)
  }

  /** If a new list is made, slot is it. */
  ghost predicate Holds(slot: LogprobList, out: ListOut)
    reads slot
  {
    out.New? ==> slot.items == out.items
  }

  method EmitCompletion(s: Sequence, i: nat, p: OutParams) returns (c: Completion<LogprobList>, ghost slot: LogprobList)
    requires s.Valid()
    modifies s`lastOutputTextOffset, s`lastOutputTokenIdsOffset
    ensures s.Valid() && s.View() == AfterEmission(old(s.View()), p)
    ensures c == Emission(old(s.View()), s.outputLogprobs.items, i, p, slot)
    ensures var out := EmittedList(old(s.View()), s.outputLogprobs.items, p);
            Holds(slot, out) && (out.New? ==> fresh(slot))
  {
    var text := s.GetOutputTextToReturn(p.buffer, p.delta);
    var tokensOut := s.GetOutputTokenIdsToReturn(p.delta);
    var numOutputTokens := if tokensOut.OneToken? then 1 else |tokensOut.tokens|;
    var logprobs := if p.includeLogprobs then Some(s.outputLogprobs) else None;
    slot := s.outputLogprobs;
    if p.delta && logprobs.Some? && logprobs.value.items != [] {
      if numOutputTokens > 0 {
        var from := |logprobs.value.items| - numOutputTokens;
        var copied := new LogprobList(logprobs.value.items[if from < 0 then 0 else from..]);
        slot := copied;
        logprobs := Some(copied);
      } else {
        logprobs := None;
      }
    }
    c := Completion(i, text, TokenList(tokensOut), if p.includeLogprobs then Some(s.data.cumulativeLogprob) else None,
                    logprobs, FinishedReason(s.status), s.stopReason);
  }

  predicate CacheValid(outs: seq<CompletionOutput>)
    reads set c | c in outs
  {
    Distinct(outs) && forall i :: 0 <= i < |outs| ==> outs[i].index == i
  }

  ghost predicate SeqsValid(seqs: seq<Sequence>)
    reads set s | s in seqs, set s | s in seqs :: s.data
  {
    forall i :: 0 <= i < |seqs| ==> seqs[i].Valid()
  }

  function SeqViews(seqs: seq<Sequence>): (r: seq<SeqView<LogprobList>>)
    reads set s | s in seqs, set s | s in seqs :: s.data
    ensures |r| == |seqs| && forall i :: 0 <= i < |seqs| ==> r[i] == seqs[i].View()
  {
    seq(|seqs|, i requires 0 <= i < |seqs| reads set s | s in seqs, set s | s in seqs :: s.data => seqs[i].View())
  }

  /** The items of every sequence's list. */
  function SeqItems(seqs: seq<Sequence>): (r: seq<seq<Logprobs>>)
    reads set s | s in seqs :: s.outputLogprobs
    ensures |r| == |seqs| && forall i :: 0 <= i < |seqs| ==> r[i] == seqs[i].outputLogprobs.items
  {
    seq(|seqs|, i requires 0 <= i < |seqs| reads set s | s in seqs :: s.outputLogprobs => seqs[i].outputLogprobs.items)
  }

  function AfterEmissions<L>(vs: seq<SeqView<L>>, p: OutParams): (r: seq<SeqView<L>>)
    ensures |r| == |vs| && forall i :: 0 <= i < |vs| ==> r[i] == AfterEmission(vs[i], p)
  {
    seq(|vs|, i requires 0 <= i < |vs| => AfterEmission(vs[i], p))
  }

  function Emissions<L>(
      vs: seq<SeqView<L>>, items: seq<seq<Logprobs>>, p: OutParams, slots: seq<L>): (r: seq<Completion<L>>)
    requires |slots| == |items| == |vs|
    ensures |r| == |vs| && forall i :: 0 <= i < |vs| ==> r[i] == Emission(vs[i], items[i], i, p, slots[i])
  {
    seq(|vs|, i requires 0 <= i < |vs| => Emission(vs[i], items[i], i, p, slots[i]))
  }

  /** What a poll makes of each sequence's list. */
  function ListOuts<L>(vs: seq<SeqView<L>>, items: seq<seq<Logprobs>>, p: OutParams): (r: seq<ListOut>)
    requires |items| == |vs|
    ensures |r| == |vs| && forall i :: 0 <= i < |vs| ==> r[i] == EmittedList(vs[i], items[i], p)
  {
    seq(|vs|, i requires 0 <= i < |vs| => EmittedList(vs[i], items[i], p))
  }

  /** The new lists are distinct and hold what was copied. */
  predicate SlotsHold(slots: seq<LogprobList>, outs: seq<ListOut>)
    requires |slots| == |outs|
    reads set l | l in slots
  {
    && (forall i :: 0 <= i < |outs| && outs[i].New? ==> slots[i].items == outs[i].items)
    && (forall i, j :: 0 <= i < j < |outs| && outs[i].New? && outs[j].New? ==> slots[i] != slots[j])
  }

  lemma OtherSeqs(seqs: seq<Sequence>, i: nat)
    requires Distinct(seqs) && i < |seqs|
    ensures forall j :: 0 <= j < |seqs| && j != i ==> seqs[j] != seqs[i]
  {
  }

  lemma NoSlots(outs: seq<ListOut>)
    ensures SlotsHold([], outs[..0])
  {
  }

  lemma OneMoreSlot(slots: seq<LogprobList>, slot: LogprobList, outs: seq<ListOut>, i: nat)
    requires |slots| == i < |outs| && SlotsHold(slots, outs[..i])
    requires outs[i].New? ==> slot !in slots && slot.items == outs[i].items
    ensures SlotsHold(slots + [slot], outs[..i + 1])
  {
    assert forall j :: 0 <= j < i ==> outs[..i][j] == outs[..i + 1][j];
  }

  /** One poll of every sequence.  No list of log probabilities changes; copies are new
      and distinct, but empty lists are handed out themselves. */
  method PollAll(seqs: seq<Sequence>, p: OutParams)
    returns (cs: seq<Completion<LogprobList>>, ghost slots: seq<LogprobList>)
    requires Distinct(seqs) && SeqsValid(seqs)
    modifies set s | s in seqs
    ensures SeqsValid(seqs) && SeqViews(seqs) == AfterEmissions(old(SeqViews(seqs)), p)
    ensures |slots| == |seqs| && cs == Emissions(old(SeqViews(seqs)), SeqItems(seqs), p, slots)
    ensures var outs := ListOuts(old(SeqViews(seqs)), SeqItems(seqs), p);
            SlotsHold(slots, outs) && forall i :: 0 <= i < |seqs| && outs[i].New? ==> fresh(slots[i])
  {
    hide Emission, AfterEmission, EmittedList, SeqViews, Emissions, AfterEmissions, ListOuts, SeqItems;
    hide Sequence.View, Sequence.Valid, SlotsHold, Distinct;
    ghost var before, items := SeqViews(seqs), SeqItems(seqs);
    ghost var outs := ListOuts(before, items, p);
    cs, slots := [], [];
    assert SlotsHold([], outs[..0]) by { NoSlots(outs); }
    for i := 0 to |seqs|
      invariant |cs| == |slots| == i
      invariant forall j :: 0 <= j < i ==> cs[j] == Emission(before[j], items[j], j, p, slots[j])
      invariant forall j :: 0 <= j < i ==> seqs[j].View() == AfterEmission(before[j], p)
      invariant forall j :: i <= j < |seqs| ==> seqs[j].View() == before[j]
      invariant forall j :: 0 <= j < |seqs| ==> seqs[j].Valid()
      invariant SlotsHold(slots, outs[..i]) && forall j :: 0 <= j < i && outs[j].New? ==> fresh(slots[j])
    {
      var c, slot := EmitCompletion(seqs[i], i, p);
      OtherSeqs(seqs, i);
      OneMoreSlot(slots, slot, outs, i);
      cs, slots := cs + [c], slots + [slot];
    }
    assert outs[..|seqs|] == outs;
    assert SeqItems(seqs) == items;
  }

  /** The completions of one poll in new objects. */
  method EmitFresh(
      seqs: seq<Sequence>, p: OutParams) returns (outs: seq<CompletionOutput>, ghost slots: seq<LogprobList>)
    requires Distinct(seqs) && SeqsValid(seqs)
    modifies set s | s in seqs
    ensures SeqsValid(seqs) && SeqViews(seqs) == AfterEmissions(old(SeqViews(seqs)), p)
    ensures |slots| == |seqs| && Views(outs) == Emissions(old(SeqViews(seqs)), SeqItems(seqs), p, slots)
    ensures SlotsHold(slots, ListOuts(old(SeqViews(seqs)), SeqItems(seqs), p))
    ensures Distinct(outs) && forall c | c in outs :: fresh(c)
  {
    hide *;
    var cs;
    cs, slots := PollAll(seqs, p);
    outs := CreateOutputs(cs);
  }

  method CreateOutputs(cs: seq<Completion<LogprobList>>) returns (outs: seq<CompletionOutput>)
    ensures Views(outs) == cs
    ensures Distinct(outs) && forall c | c in outs :: fresh(c)
  {
    outs := [];
    for i := 0 to |cs|
      invariant Views(outs) == cs[..i] && Distinct(outs) && forall c | c in outs :: fresh(c)
    {
      var out := new CompletionOutput(cs[i]);
      outs := outs + [out];
    }
  }

  /** The same completions written into the objects of the cached output, as far as there
      are any; the cache is left with exactly one object per sequence. */
  method EmitCached(seqs: seq<Sequence>, p: OutParams, cached: RequestOutput) returns (ghost slots: seq<LogprobList>)
    requires Distinct(seqs) && SeqsValid(seqs) && CacheValid(cached.outputs)
    modifies (set s | s in seqs), cached`outputs, (set c | c in cached.outputs)
    ensures SeqsValid(seqs) && SeqViews(seqs) == AfterEmissions(old(SeqViews(seqs)), p)
    ensures |slots| == |seqs| && Views(cached.outputs) == Emissions(old(SeqViews(seqs)), SeqItems(seqs), p, slots)
    ensures SlotsHold(slots, ListOuts(old(SeqViews(seqs)), SeqItems(seqs), p))
    ensures CacheValid(cached.outputs)
    ensures forall i :: 0 <= i < |old(cached.outputs)| && i < |seqs| ==> cached.outputs[i] == old(cached.outputs[i])
  {
    hide AfterEmission, AfterEmissions, SeqViews, Views, Distinct, CacheValid;
    hide SeqItems, ListOuts, EmittedList, SlotsHold;
    var cs;
    cs, slots := PollAll(seqs, p);
    WriteCached(cs, cached);
  }

  method WriteCached(cs: seq<Completion<LogprobList>>, cached: RequestOutput)
    requires CacheValid(cached.outputs)
    requires forall i :: 0 <= i < |cs| ==> cs[i].index == i
    modifies cached`outputs, (set c | c in cached.outputs)
    ensures Views(cached.outputs) == cs && CacheValid(cached.outputs)
    ensures forall i :: 0 <= i < |old(cached.outputs)| && i < |cs| ==> cached.outputs[i] == old(cached.outputs[i])
  {
    hide CompletionOutput.View;
    ghost var reused := cached.outputs;
    for i := 0 to |cs|
      invariant |cached.outputs| == if i < |reused| then |reused| else i
      invariant forall j :: 0 <= j < |reused| ==> cached.outputs[j] == reused[j]
      invariant forall c | c in cached.outputs :: c in reused || fresh(c)
      invariant CacheValid(cached.outputs)
      invariant forall j :: 0 <= j < i ==> cached.outputs[j].View() == cs[j]
    {
      cached.EnsureSlot(i);
      cached.outputs[i].Assign(cs[i]);
    }
    cached.outputs := cached.outputs[..|cs|];
  }
}
