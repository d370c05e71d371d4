/** Runs of a delta stream: sequences generate text until a stop string or another
    condition ends them, a collector merges the outputs of polls, and a client takes what
    has been merged and leaves the collector empty.

    Lists of log probabilities are shared, so they live in a store: list i is the own list
    of sequence i, and copies get numbers that were not used before. */
module DeltaStream {
  import opened Common
  import opened StopStrings
  import opened OutputStreaming

  /** The request's stop strings, whether they stay in the text, and the output mode. */
  datatype Request = Request(stops: seq<string>, includeStop: bool, out: OutParams)

  /** What __post_init__ guarantees of a request in delta mode. */
  ghost predicate WellFormed(r: Request) {
    r.out.delta && "" !in r.stops && (r.includeStop || Safe(r.stops, r.out.buffer))
  }

  /** What had been given of a sequence when a batch of merged outputs began, and how many
      tokens the sequence had then. */
  datatype Start = Start(textFrom: nat, tokenFrom: nat, tokenAt: nat)

  /** What the collector holds.  Crashed stands for the failed assertion of a merge. */
  datatype Held = NoOutput | Output(outs: seq<Completion<nat>>, finished: bool, starts: seq<Start>) | Crashed

  /** All the text and tokens that the client has taken of a sequence. */
  datatype Given = Given(text: string, tokenIds: seq<int>)

  type Lists = map<nat, seq<Logprobs>>

  /** history holds the entries generated for each sequence, next the first unused list. */
  datatype Group = Group(seqs: seq<SeqView<nat>>, history: seq<seq<Logprobs>>, store: Lists, next: nat,
                         held: Held, given: seq<Given>)

  /** The stop checker looks at the text after each append.  It is not part of this
      model: a step names the stop string it found and where, or none. */
  datatype Found = Nothing | StopAt(stop: string, pos: nat)

  datatype Step =
    | Generate(i: nat, token: int, logprobs: Logprobs, logprob: real, piece: string, found: Found)
    | Finish(i: nat, status: Status)
    | Poll
    | Take

  function Appended(v: SeqView<nat>, step: Step): SeqView<nat>
    requires step.Generate?
  {
    v.(output := v.output + [step.token], cumulativeLogprob := v.cumulativeLogprob + step.logprob,
       text := v.text + step.piece)
  }

  /** A stop string ends the sequence and the text is cut before it, or after it when
      it is to be included. */
  function Checked(v: SeqView<nat>, found: Found, includeStop: bool): SeqView<nat>
    requires found.StopAt? ==> OccursAt(v.text, found.stop, found.pos)
  {
    if found.Nothing? then v
    else v.(text := v.text[..if includeStop then found.pos + |found.stop| else found.pos],
            status := FinishedStopped, stopReason := Some(found.stop))
  }

  ghost predicate Enabled(g: Group, step: Step, r: Request) {
    match step
    case Generate(i, token, logprobs, logprob, piece, found) =>
      && i < |g.seqs| == |g.history| && !IsFinished(g.seqs[i].status)
      && (found.Nothing? ==> StopFree(g.seqs[i].text + piece, r.stops))
      && (found.StopAt? ==> found.stop in r.stops && OccursAt(g.seqs[i].text + piece, found.stop, found.pos))
    case Finish(i, status) => i < |g.seqs| && !IsFinished(g.seqs[i].status) && IsFinished(status)
    case Poll => true
    case Take => g.held.Output? && |g.held.outs| == |g.given|
  }

  predicate AllFinished(vs: seq<SeqView<nat>>) {
    forall i :: 0 <= i < |vs| ==> IsFinished(vs[i].status)
  }

  // ------------------------------------------------------------------------- The poll

  function OwnItems(g: Group): (r: seq<seq<Logprobs>>)
    ensures |r| == |g.seqs| && forall i :: 0 <= i < |r| ==> r[i] == Items(g.store, Some(g.seqs[i].list))
  {
    seq(|g.seqs|, i requires 0 <= i < |g.seqs| => Items(g.store, Some(g.seqs[i].list)))
  }

  function Slots(g: Group): (r: seq<nat>)
    ensures |r| == |g.seqs| && forall i :: 0 <= i < |r| ==> r[i] == g.next + i
  {
    seq(|g.seqs|, i requires 0 <= i < |g.seqs| => g.next + i)
  }

  function Outputs(g: Group, r: Request): (es: seq<Completion<nat>>)
    ensures |es| == |g.seqs|
    ensures forall i :: 0 <= i < |es| ==> es[i] == Emission(g.seqs[i], OwnItems(g)[i], i, r.out, g.next + i)
  {
    Emissions(g.seqs, OwnItems(g), r.out, Slots(g))
  }

  predicate IsCopy(outs: seq<ListOut>, base: nat, l: nat) {
    base <= l < base + |outs| && outs[l - base].New?
  }

  /** The copies a poll makes, from number base on. */
  function Copies(outs: seq<ListOut>, base: nat): Lists {
    map l | base <= l < base + |outs| && IsCopy(outs, base, l) :: outs[l - base].items
  }

  /** The store with the copies a poll makes. */
  function WithCopies(g: Group, r: Request): Lists {
    g.store + Copies(ListOuts(g.seqs, OwnItems(g), r.out), g.next)
  }

  function StartsOf(vs: seq<SeqView<nat>>): (r: seq<Start>)
    ensures |r| == |vs|
    ensures forall i :: 0 <= i < |vs| ==> r[i] == Start(vs[i].textOffset, vs[i].tokenOffset, |vs[i].output|)
  {
    seq(|vs|, i requires 0 <= i < |vs| => Start(vs[i].textOffset, vs[i].tokenOffset, |vs[i].output|))
  }

  /** The first output is kept; later ones are merged into it by completion index. */
  function Polled(g: Group, r: Request): Group {
    var es, store, seqs := Outputs(g, r), WithCopies(g, r), AfterEmissions(g.seqs, r.out);
    var t := g.(seqs := seqs, store := store, next := g.next + |g.seqs|);
    match g.held
    case NoOutput => t.(held := Output(es, AllFinished(g.seqs), StartsOf(g.seqs)))
    case Crashed => t
    case Output(outs, finished, starts) =>
      var m := AddAll(Merging(outs, store, true), es, true);
      t.(store := m.store, held := if m.ok then Output(m.outs, finished || AllFinished(g.seqs), starts) else Crashed)
  }

  function Taken(given: seq<Given>, outs: seq<Completion<nat>>): (r: seq<Given>)
    requires |given| == |outs|
    ensures |r| == |outs|
    ensures forall i :: 0 <= i < |outs| ==>
      r[i] == Given(given[i].text + outs[i].text, given[i].tokenIds + outs[i].tokenIds)
  {
    seq(|outs|, i requires 0 <= i < |outs| =>
      Given(given[i].text + outs[i].text, given[i].tokenIds + outs[i].tokenIds))
  }

  ghost function Next(g: Group, step: Step, r: Request): Group
    requires Enabled(g, step, r)
  {
    match step
    case Generate(i, token, logprobs, logprob, piece, found) =>
      var own := g.seqs[i].list;
      g.(seqs := g.seqs[i := Checked(Appended(g.seqs[i], step), found, r.includeStop)],
         history := g.history[i := g.history[i] + [logprobs]],
         store := g.store[own := Items(g.store, Some(own)) + [logprobs]])
    case Finish(i, status) => g.(seqs := g.seqs[i := g.seqs[i].(status := status)])
    case Poll => Polled(g, r)
    case Take => g.(held := NoOutput, given := Taken(g.given, g.held.outs))
  }

  function Fresh(list: nat): SeqView<nat> {
    SeqView([], list, 0.0, "", Waiting, None, 0, 0)
  }

  function EmptyLists(n: nat): (r: Lists)
    ensures forall l: nat :: l in r <==> l < n
    ensures forall l | l in r :: r[l] == []
  {
    if n == 0 then map[] else EmptyLists(n - 1)[n - 1 := []]
  }

  function Initial(n: nat): Group {
    Group(seq(n, i requires 0 <= i < n => Fresh(i)), seq(n, _ => []), EmptyLists(n), n, NoOutput,
          seq(n, _ => Given("", [])))
  }

  // ------------------------------------------------------------------- One sequence

  ghost predicate SeqOk(v: SeqView<nat>, r: Request) {
    && v.textOffset <= |v.text| && v.tokenOffset <= |v.output|
    && (!IsFinished(v.status) ==>
          StopFree(v.text, r.stops) && v.textOffset <= |VisibleText(v.text, v.status, r.out.buffer)|)
  }

  /** No stop string leaks: cutting never removes text that was already returned. */
  lemma CutKeepsReturned(v: SeqView<nat>, step: Step, r: Request)
    requires WellFormed(r) && SeqOk(v, r) && !IsFinished(v.status) && step.Generate?
    requires step.found.StopAt? && step.found.stop in r.stops
    requires OccursAt(v.text + step.piece, step.found.stop, step.found.pos)
    ensures v.textOffset <= |Checked(Appended(v, step), step.found, r.includeStop).text|
  {
    var stop, p := step.found.stop, step.found.pos;
    if r.includeStop {
      if p + |stop| <= |v.text| { InsideText(v.text, step.piece, stop, p); }
    } else {
      assert VisibleLength(v.text, r.out.buffer) <= p;
    }
  }

  /** What a step that is not a poll may do to a sequence. */
  ghost predicate Grows(v: SeqView<nat>, w: SeqView<nat>, r: Request) {
    && SeqOk(w, r) && w.textOffset == v.textOffset && w.tokenOffset == v.tokenOffset && w.list == v.list
    && v.textOffset <= |v.text| && v.text[..v.textOffset] == w.text[..w.textOffset]
    && v.tokenOffset <= |v.output| && v.output <= w.output
  }

  lemma GenerateOk(v: SeqView<nat>, step: Step, r: Request)
    requires WellFormed(r) && SeqOk(v, r) && !IsFinished(v.status) && step.Generate?
    requires step.found.Nothing? ==> StopFree(v.text + step.piece, r.stops)
    requires step.found.StopAt? ==>
      step.found.stop in r.stops && OccursAt(v.text + step.piece, step.found.stop, step.found.pos)
    ensures var w := Checked(Appended(v, step), step.found, r.includeStop);
            Grows(v, w, r) && w.output == v.output + [step.token]
  {
    hide Safe, StopFree;
    if step.found.StopAt? {
      CutKeepsReturned(v, step, r);
    }
  }

  /** A poll returns exactly what lies between the old and the new offsets. */
  lemma EmissionOk(v: SeqView<nat>, items: seq<Logprobs>, i: nat, r: Request, slot: nat)
    requires WellFormed(r) && SeqOk(v, r)
    ensures var w, e := AfterEmission(v, r.out), Emission(v, items, i, r.out, slot);
            && SeqOk(w, r) && w.text == v.text && w.output == v.output && w.status == v.status && w.list == v.list
            && v.textOffset <= w.textOffset
            && e.text == v.text[v.textOffset..w.textOffset]
            && e.tokenIds == v.output[v.tokenOffset..]
            && w.tokenOffset == |v.output|
            && w.textOffset == |VisibleText(v.text, v.status, r.out.buffer)|
  {
  }

  // ------------------------------------------------------------------------ The merge

  /** Extending the list of one output changes no list of another index. */
  predicate Separate(outs: seq<Completion<nat>>, es: seq<Completion<nat>>)
    requires |outs| == |es|
  {
    forall i, j :: 0 <= i < |outs| && 0 <= j < |outs| && i != j && outs[i].list.Some? ==>
      outs[i].list != outs[j].list && outs[i].list != es[j].list
  }

  predicate AllMerge(store: Lists, outs: seq<Completion<nat>>, es: seq<Completion<nat>>, k: nat)
    requires k <= |outs| == |es|
  {
    forall i :: 0 <= i < k ==> CanMerge(store, outs[i], es[i])
  }

  function MergedUpTo(outs: seq<Completion<nat>>, es: seq<Completion<nat>>, k: nat): (r: seq<Completion<nat>>)
    requires |outs| == |es|
    ensures |r| == |outs|
    ensures forall i :: 0 <= i < |outs| ==> r[i] == if i < k then Merge(outs[i], es[i]) else outs[i]
  {
    seq(|outs|, i requires 0 <= i < |outs| => if i < k then Merge(outs[i], es[i]) else outs[i])
  }

  function StoredUpTo(store: Lists, outs: seq<Completion<nat>>, es: seq<Completion<nat>>, k: nat): Lists
    requires k <= |outs| == |es|
  {
    if k == 0 then store else Stored(StoredUpTo(store, outs, es, k - 1), outs[k - 1], es[k - 1])
  }

  /** A list that no output holds is not touched, and no list appears or disappears. */
  lemma {:induction false} Untouched(store: Lists, outs: seq<Completion<nat>>, es: seq<Completion<nat>>, k: nat, l: nat)
    requires k <= |outs| == |es| && l in store
    requires forall i :: 0 <= i < k ==> outs[i].list != Some(l)
    ensures l in StoredUpTo(store, outs, es, k) && StoredUpTo(store, outs, es, k)[l] == store[l]
  {
    if k > 0 { Untouched(store, outs, es, k - 1, l); }
  }

  lemma {:induction false} SameLists(store: Lists, outs: seq<Completion<nat>>, es: seq<Completion<nat>>, k: nat)
    requires k <= |outs| == |es| && forall i :: 0 <= i < |outs| && outs[i].list.Some? ==> outs[i].list.value in store
    ensures forall l :: l in StoredUpTo(store, outs, es, k) <==> l in store
  {
    if k > 0 { SameLists(store, outs, es, k - 1); }
  }

  lemma UntouchedItems(store: Lists, outs: seq<Completion<nat>>, es: seq<Completion<nat>>, k: nat, list: Option<nat>)
    requires k <= |outs| == |es| && forall i :: 0 <= i < |outs| && outs[i].list.Some? ==> outs[i].list.value in store
    requires forall i :: 0 <= i < k && outs[i].list.Some? ==> outs[i].list != list
    ensures Items(StoredUpTo(store, outs, es, k), list) == Items(store, list)
  {
    SameLists(store, outs, es, k);
    if list.Some? && list.value in store { Untouched(store, outs, es, k, list.value); }
  }

  /** The list of output j is extended once, by the entries its part came with. */
  lemma {:induction false} StoredAt(store: Lists, outs: seq<Completion<nat>>, es: seq<Completion<nat>>, k: nat, j: nat)
    requires j < k <= |outs| == |es| && outs[j].list.Some? && Separate(outs, es)
    requires forall i :: 0 <= i < |outs| && outs[i].list.Some? ==> outs[i].list.value in store
    ensures Items(StoredUpTo(store, outs, es, k), outs[j].list) == Items(store, outs[j].list) + Items(store, es[j].list)
  {
    hide Stored, Items;
    if j == k - 1 {
      UntouchedItems(store, outs, es, j, outs[j].list);
      UntouchedItems(store, outs, es, j, es[j].list);
      ExtendedOnce(StoredUpTo(store, outs, es, j), outs[j], es[j]);
    } else {
      StoredAt(store, outs, es, k - 1, j);
      OtherKept(StoredUpTo(store, outs, es, k - 1), outs[k - 1], es[k - 1], outs[j].list);
    }
  }

  lemma ExtendedOnce(store: Lists, c: Completion<nat>, e: Completion<nat>)
    requires c.list.Some?
    ensures Items(Stored(store, c, e), c.list) == Items(store, c.list) + Items(store, e.list)
  {
  }

  lemma OtherKept(store: Lists, c: Completion<nat>, e: Completion<nat>, list: Option<nat>)
    requires c.list != list
    ensures Items(Stored(store, c, e), list) == Items(store, list)
  {
  }

  lemma MergedAligned(outs: seq<Completion<nat>>, es: seq<Completion<nat>>, k: nat)
    requires |outs| == |es| && Aligned(outs)
    ensures Aligned(MergedUpTo(outs, es, k))
  {
  }

  predicate Mergeable(store: Lists, outs: seq<Completion<nat>>, es: seq<Completion<nat>>) {
    && |outs| == |es| && Aligned(outs) && Aligned(es) && Separate(outs, es)
    && forall i :: 0 <= i < |outs| && outs[i].list.Some? ==> outs[i].list.value in store
  }

  /** Outputs in index order merge position by position. */
  lemma {:induction false} AddAllAligned(store: Lists, outs: seq<Completion<nat>>, es: seq<Completion<nat>>, k: nat)
    requires Mergeable(store, outs, es) && k <= |es| && AllMerge(store, outs, es, k)
    ensures AddAll(Merging(outs, store, true), es[..k], true)
         == Merging(MergedUpTo(outs, es, k), StoredUpTo(store, outs, es, k), true)
  {
    var m := Merging(outs, store, true);
    if k == 0 {
      assert MergedUpTo(outs, es, 0) == outs;
    } else {
      AddAllAligned(store, outs, es, k - 1);
      AddAllStep(m, es, true, k - 1);
      NextMerge(store, outs, es, k - 1);
      hide AddAll, Merge, CanMerge, AddOne;
      assert MergedUpTo(outs, es, k - 1)[k - 1 := Merge(outs[k - 1], es[k - 1])] == MergedUpTo(outs, es, k);
    }
  }

  function AfterNext(before: seq<Completion<nat>>, stored: Lists, outs: seq<Completion<nat>>, es: seq<Completion<nat>>,
                     k: nat, ok: bool): Merging<nat>
    requires k < |outs| == |es| == |before|
  {
    if ok then Merging(before[k := Merge(outs[k], es[k])], Stored(stored, outs[k], es[k]), true)
    else Merging(before[k := HalfMerge(outs[k], es[k])], stored, false)
  }

  lemma NextMerge(store: Lists, outs: seq<Completion<nat>>, es: seq<Completion<nat>>, k: nat)
    requires Mergeable(store, outs, es) && k < |es|
    ensures AddOne(Merging(MergedUpTo(outs, es, k), StoredUpTo(store, outs, es, k), true), es[k], true)
         == AfterNext(MergedUpTo(outs, es, k), StoredUpTo(store, outs, es, k), outs, es, k,
                      CanMerge(store, outs[k], es[k]))
  {
    var before := MergedUpTo(outs, es, k);
    MergedAligned(outs, es, k);
    assert Find(before, es[k].index) == k;
    UntouchedItems(store, outs, es, k, es[k].list);
    hide Merge, HalfMerge, Stored, StoredUpTo, Items, MergedUpTo;
  }

  /** The merge fails exactly when some position cannot be merged. */
  lemma {:induction false} AddAllOkIff(store: Lists, outs: seq<Completion<nat>>, es: seq<Completion<nat>>, k: nat)
    requires Mergeable(store, outs, es) && k <= |es|
    ensures AddAll(Merging(outs, store, true), es[..k], true).ok <==> AllMerge(store, outs, es, k)
  {
    if k > 0 {
      AddAllOkIff(store, outs, es, k - 1);
      AddAllStep(Merging(outs, store, true), es, true, k - 1);
      if AllMerge(store, outs, es, k - 1) {
        AddAllAligned(store, outs, es, k - 1);
        NextMerge(store, outs, es, k - 1);
      }
      hide AddAll, AddOne, CanMerge, MergedUpTo, StoredUpTo;
    }
  }

  // -------------------------------------------------------------------- The invariant

  /** The sequence's own list ends in the entries of the tokens that have not been
      returned. */
  predicate ListOk(v: SeqView<nat>, history: seq<Logprobs>, own: seq<Logprobs>) {
    && |history| == |v.output| && v.tokenOffset <= |v.output| && (own == [] <==> history == [])
    && |history| - v.tokenOffset <= |own|
    && own[|own| - (|history| - v.tokenOffset)..] == history[v.tokenOffset..]
  }

  /** The batch holds the text and tokens returned since its start. */
  predicate Streamed(c: Completion<nat>, v: SeqView<nat>, i: nat, st: Start) {
    && c.index == i
    && st.textFrom <= v.textOffset <= |v.text| && c.text == v.text[st.textFrom..v.textOffset]
    && st.tokenFrom <= st.tokenAt <= v.tokenOffset <= |v.output|
    && c.tokenIds == v.output[st.tokenFrom..v.tokenOffset]
  }

  /** The list of a batch: a batch that began before the first token holds the sequence's
      own list, which every merge extends once more; one that began with new tokens holds
      a copy that stays right; any other has no list, until a merge needs one. */
  predicate BatchList(
      c: Completion<nat>, v: SeqView<nat>, history: seq<Logprobs>, store: Lists, n: nat, i: nat, st: Start,
                      includeLogprobs: bool)
    requires |history| == |v.output| && st.tokenFrom <= st.tokenAt <= v.tokenOffset <= |v.output|
  {
    if !includeLogprobs then c.list == None
    else if st.tokenAt == 0 then
      c.list == Some(i) && |Items(store, Some(i))| == |history| + v.tokenOffset
    else if st.tokenFrom < st.tokenAt then
      c.list.Some? && c.list.value >= n && Items(store, c.list) == history[st.tokenFrom..v.tokenOffset]
    else c.list == None && v.tokenOffset == st.tokenAt
  }

  predicate Before(v: SeqView<nat>, textFrom: nat, tokenFrom: nat, given: Given) {
    && textFrom <= |v.text| && tokenFrom <= |v.output|
    && given == Given(v.text[..textFrom], v.output[..tokenFrom])
  }

  ghost predicate SeqsOk(g: Group, r: Request) {
    && |g.history| == |g.given| == |g.seqs|
    && forall i :: 0 <= i < |g.seqs| ==>
         SeqOk(g.seqs[i], r) && g.seqs[i].list == i && |g.history[i]| == |g.seqs[i].output|
  }

  predicate MemoryOk(g: Group) {
    && |g.history| == |g.seqs| <= g.next
    && (forall l | l in g.store :: l < g.next)
    && forall i :: 0 <= i < |g.seqs| ==> i in g.store && ListOk(g.seqs[i], g.history[i], g.store[i])
  }

  /** Facts about position i of a batch. */
  predicate BatchAt(g: Group, i: nat, r: Request)
    requires i < |g.seqs| == |g.history| == |g.given| && g.held.Output? && |g.held.outs| == |g.held.starts| == |g.seqs|
  {
    var c, v, st := g.held.outs[i], g.seqs[i], g.held.starts[i];
    && Streamed(c, v, i, st) && |g.history[i]| == |v.output|
    && BatchList(c, v, g.history[i], g.store, |g.seqs|, i, st, r.out.includeLogprobs)
    && Before(v, st.textFrom, st.tokenFrom, g.given[i])
  }

  predicate HeldOk(g: Group, r: Request)
    requires |g.seqs| == |g.history| == |g.given|
  {
    match g.held
    case Crashed => true
    case NoOutput =>
      forall i :: 0 <= i < |g.seqs| ==> Before(g.seqs[i], g.seqs[i].textOffset, g.seqs[i].tokenOffset, g.given[i])
    case Output(outs, finished, starts) =>
      && |outs| == |starts| == |g.seqs|
      && (forall i :: 0 <= i < |outs| ==> BatchAt(g, i, r))
      && (forall i :: 0 <= i < |outs| && outs[i].list.Some? ==> outs[i].list.value in g.store)
      && (forall i, j :: 0 <= i < |outs| && 0 <= j < |outs| && i != j && outs[i].list.Some? ==>
            outs[i].list != outs[j].list)
      && (finished ==> AllFinished(g.seqs))
  }

  ghost predicate Inv(g: Group, r: Request) {
    SeqsOk(g, r) && HeldOk(g, r) && (!g.held.Crashed? ==> MemoryOk(g))
  }

  // ------------------------------------------------------- Steps that are not polls

  lemma GenerateList(v: SeqView<nat>, w: SeqView<nat>, history: seq<Logprobs>, own: seq<Logprobs>, entry: Logprobs)
    requires ListOk(v, history, own) && w.tokenOffset == v.tokenOffset && |w.output| == |v.output| + 1
    ensures ListOk(w, history + [entry], own + [entry])
  {
    var n := |history| - v.tokenOffset;
    assert (own + [entry])[|own| - n..] == own[|own| - n..] + [entry];
    assert (history + [entry])[v.tokenOffset..] == history[v.tokenOffset..] + [entry];
  }

  lemma SliceOfPrefix<T>(a: seq<T>, b: seq<T>, n: nat, i: nat)
    requires i <= n <= |a| && n <= |b| && a[..n] == b[..n]
    ensures a[i..n] == b[i..n] && a[..i] == b[..i]
  {
    assert a[i..n] == a[..n][i..] && b[i..n] == b[..n][i..];
    assert a[..i] == a[..n][..i] && b[..i] == b[..n][..i];
  }

  lemma SameReturned(v: SeqView<nat>, w: SeqView<nat>, r: Request)
    requires Grows(v, w, r)
    ensures w.text[..v.textOffset] == v.text[..v.textOffset] && w.output[..v.tokenOffset] == v.output[..v.tokenOffset]
  {
  }

  lemma StreamedGrows(c: Completion<nat>, v: SeqView<nat>, w: SeqView<nat>, i: nat, st: Start, given: Given, r: Request)
    requires Streamed(c, v, i, st) && Before(v, st.textFrom, st.tokenFrom, given) && Grows(v, w, r)
    ensures Streamed(c, w, i, st) && Before(w, st.textFrom, st.tokenFrom, given)
  {
    SameReturned(v, w, r);
    SliceOfPrefix(v.text, w.text, v.textOffset, st.textFrom);
    SliceOfPrefix(v.output, w.output, v.tokenOffset, st.tokenFrom);
    hide SeqOk;
  }

  /** A new entry joins the own list; a copy keeps what it holds. */
  lemma BatchListGrows(
      c: Completion<nat>, v: SeqView<nat>, w: SeqView<nat>, history: seq<Logprobs>, entry: Logprobs, store: Lists,
      n: nat, i: nat, st: Start, asked: bool)
    requires |history| == |v.output| && st.tokenFrom <= st.tokenAt <= v.tokenOffset <= |v.output| && i < n && i in store
    requires BatchList(c, v, history, store, n, i, st, asked)
    requires w.tokenOffset == v.tokenOffset && |w.output| == |v.output| + 1
    ensures BatchList(c, w, history + [entry], store[i := store[i] + [entry]], n, i, st, asked)
  {
    assert (history + [entry])[st.tokenFrom..v.tokenOffset] == history[st.tokenFrom..v.tokenOffset];
  }

  lemma BatchListFrame(
      c: Completion<nat>, v: SeqView<nat>, history: seq<Logprobs>, store: Lists, t: Lists, n: nat, i: nat, st: Start,
      asked: bool)
    requires |history| == |v.output| && st.tokenFrom <= st.tokenAt <= v.tokenOffset <= |v.output|
    requires BatchList(c, v, history, store, n, i, st, asked)
    requires Items(t, Some(i)) == Items(store, Some(i)) && Items(t, c.list) == Items(store, c.list)
    ensures BatchList(c, v, history, t, n, i, st, asked)
  {
  }

  lemma GenerateAt(g: Group, step: Step, r: Request, j: nat)
    requires WellFormed(r) && Inv(g, r) && Enabled(g, step, r) && step.Generate? && j < |g.seqs|
    requires g.held.Output?
    ensures BatchAt(Next(g, step, r), j, r)
  {
    var i, t := step.i, Next(g, step, r);
    var c, v, st := g.held.outs[j], g.seqs[j], g.held.starts[j];
    assert BatchAt(g, j, r);
    GenerateOk(g.seqs[i], step, r);
    hide Checked, Appended, Streamed, Before, SeqOk, BatchList;
    if i == j {
      StreamedGrows(c, v, t.seqs[i], i, st, g.given[i], r);
      BatchListBounds(c, v, i, st);
      BatchListGrows(c, v, t.seqs[i], g.history[i], step.logprobs, g.store, |g.seqs|, i, st, r.out.includeLogprobs);
    } else {
      BatchListBounds(c, v, j, st);
      OtherList(c, v, g.history[j], g.store, |g.seqs|, j, st, r.out.includeLogprobs, i);
      BatchListFrame(c, v, g.history[j], g.store, t.store, |g.seqs|, j, st, r.out.includeLogprobs);
    }
  }

  lemma BatchListBounds(c: Completion<nat>, v: SeqView<nat>, i: nat, st: Start)
    requires Streamed(c, v, i, st)
    ensures st.tokenFrom <= st.tokenAt <= v.tokenOffset <= |v.output|
  {
  }

  /** A batch never holds another sequence's own list. */
  lemma OtherList(c: Completion<nat>, v: SeqView<nat>, history: seq<Logprobs>, store: Lists, n: nat, i: nat, st: Start,
                  asked: bool, j: nat)
    requires |history| == |v.output| && st.tokenFrom <= st.tokenAt <= v.tokenOffset <= |v.output|
    requires BatchList(c, v, history, store, n, i, st, asked) && j < n && i != j
    ensures c.list != Some(j)
  {
  }

  lemma GenerateSeqs(g: Group, step: Step, r: Request)
    requires WellFormed(r) && SeqsOk(g, r) && Enabled(g, step, r) && step.Generate?
    ensures SeqsOk(Next(g, step, r), r)
  {
    GenerateOk(g.seqs[step.i], step, r);
    hide Checked, Appended, SeqOk, WellFormed, StopFree;
  }

  lemma GenerateMemory(g: Group, step: Step, r: Request)
    requires WellFormed(r) && SeqsOk(g, r) && MemoryOk(g) && Enabled(g, step, r) && step.Generate?
    ensures MemoryOk(Next(g, step, r))
  {
    var i, t := step.i, Next(g, step, r);
    GenerateOk(g.seqs[i], step, r);
    GenerateList(g.seqs[i], t.seqs[i], g.history[i], g.store[i], step.logprobs);
    hide Checked, Appended, SeqOk, ListOk, WellFormed, StopFree;
  }

  lemma GenerateInv(g: Group, step: Step, r: Request)
    requires WellFormed(r) && Inv(g, r) && Enabled(g, step, r) && step.Generate?
    ensures Inv(Next(g, step, r), r)
  {
    var i, t := step.i, Next(g, step, r);
    hide Checked, Appended, BatchAt, SeqOk, MemoryOk, WellFormed, StopFree, ListOk;
    GenerateSeqs(g, step, r);
    if !g.held.Crashed? { GenerateMemory(g, step, r); }
    GenerateOk(g.seqs[i], step, r);
    if g.held.Output? {
      forall j | 0 <= j < |t.seqs| ensures BatchAt(t, j, r) { GenerateAt(g, step, r, j); }
    }
    if g.held.NoOutput? { BeforeGrows(g.seqs[i], t.seqs[i], g.given[i], r); }
    hide Before, Grows, SeqsOk;
  }

  lemma BeforeGrows(v: SeqView<nat>, w: SeqView<nat>, given: Given, r: Request)
    requires Before(v, v.textOffset, v.tokenOffset, given) && Grows(v, w, r)
    ensures Before(w, w.textOffset, w.tokenOffset, given)
  {
  }

  lemma FinishInv(g: Group, step: Step, r: Request)
    requires WellFormed(r) && Inv(g, r) && Enabled(g, step, r) && step.Finish?
    ensures Inv(Next(g, step, r), r)
  {
    var t := Next(g, step, r);
    if g.held.Output? {
      forall j | 0 <= j < |t.seqs| ensures BatchAt(t, j, r) { assert BatchAt(g, j, r); }
    }
    hide BatchAt, StopFree;
  }

  /** What the client has taken is what was returned. */
  lemma TakeInv(g: Group, r: Request)
    requires Inv(g, r) && Enabled(g, Take, r)
    ensures Inv(Next(g, Take, r), r)
  {
    var t := Next(g, Take, r);
    forall i | 0 <= i < |t.seqs| ensures Before(t.seqs[i], t.seqs[i].textOffset, t.seqs[i].tokenOffset, t.given[i]) {
      assert BatchAt(g, i, r);
      Joined(g.held.outs[i], g.seqs[i], i, g.held.starts[i], g.given[i]);
    }
    hide Before, BatchAt, SeqOk, ListOk;
  }

  /** What was given before a batch, then the batch, is what has been returned. */
  lemma Joined(c: Completion<nat>, v: SeqView<nat>, i: nat, st: Start, given: Given)
    requires Streamed(c, v, i, st) && Before(v, st.textFrom, st.tokenFrom, given)
    ensures given.text + c.text == v.text[..v.textOffset] && given.tokenIds + c.tokenIds == v.output[..v.tokenOffset]
  {
  }

  // ------------------------------------------------------------------- Polls, in detail

  lemma CopiesAreNew(g: Group, r: Request)
    requires MemoryOk(g)
    ensures forall l :: l in g.store ==> l in WithCopies(g, r) && WithCopies(g, r)[l] == g.store[l]
    ensures forall l :: l in WithCopies(g, r) ==> l < g.next + |g.seqs|
  {
    hide ListOk, EmittedList;
  }

  lemma CopyAt(g: Group, r: Request, i: nat)
    requires MemoryOk(g) && i < |g.seqs| && ListOuts(g.seqs, OwnItems(g), r.out)[i].New?
    ensures g.next + i in WithCopies(g, r)
    ensures WithCopies(g, r)[g.next + i] == ListOuts(g.seqs, OwnItems(g), r.out)[i].items
  {
    hide ListOk, EmittedList;
    assert IsCopy(ListOuts(g.seqs, OwnItems(g), r.out), g.next, g.next + i);
  }

  /** Which list a part comes with. */
  function PartList(v: SeqView<nat>, i: nat, slot: nat, asked: bool): Option<nat> {
    if !asked then None
    else if v.output == [] then Some(i)
    else if v.tokenOffset < |v.output| then Some(slot)
    else None
  }

  lemma EmittedListIs(v: SeqView<nat>, history: seq<Logprobs>, own: seq<Logprobs>, r: Request)
    requires r.out.delta && ListOk(v, history, own)
    ensures EmittedList(v, own, r.out)
         == if !r.out.includeLogprobs then NoList
            else if v.output == [] then Own
            else if v.tokenOffset < |v.output| then New(history[v.tokenOffset..])
            else NoList
  {
    assert |EmittedTokens(v, r.out)| == |v.output| - v.tokenOffset;
  }

  lemma PartListIs(v: SeqView<nat>, history: seq<Logprobs>, own: seq<Logprobs>, i: nat, slot: nat, r: Request)
    requires r.out.delta && ListOk(v, history, own) && v.list == i
    ensures Emission(v, own, i, r.out, slot).list == PartList(v, i, slot, r.out.includeLogprobs)
    ensures Emission(v, own, i, r.out, slot).index == i
  {
    EmittedListIs(v, history, own, r);
    hide ListOk, EmittedList, EmittedText, EmittedTokens;
  }

  lemma AtIndex(g: Group, r: Request, i: nat)
    requires SeqsOk(g, r) && MemoryOk(g) && i < |g.seqs|
    ensures |g.history| == |g.given| == |g.seqs| <= g.next
    ensures g.seqs[i].list == i && SeqOk(g.seqs[i], r) && |g.history[i]| == |g.seqs[i].output| && i in g.store
    ensures ListOk(g.seqs[i], g.history[i], g.store[i]) && OwnItems(g)[i] == g.store[i]
    ensures g.seqs[i].tokenOffset <= |g.history[i]|
  {
    hide SeqOk;
  }

  /** Part e of a poll comes with exactly the entries that have not been returned. */
  predicate PartOk(g: Group, i: nat, e: Completion<nat>, store: Lists, asked: bool) {
    && i < |g.seqs| == |g.history| && g.seqs[i].tokenOffset <= |g.history[i]|
    && e.index == i && e.list == PartList(g.seqs[i], i, g.next + i, asked)
    && Items(store, e.list) == (if asked then g.history[i][g.seqs[i].tokenOffset..] else [])
    && (e.list.Some? ==> e.list.value in store)
  }

  lemma PartItems(g: Group, i: nat, own: seq<Logprobs>, e: Completion<nat>, store: Lists, asked: bool)
    requires i < |g.seqs| == |g.history| && ListOk(g.seqs[i], g.history[i], own) && i in store && store[i] == own
    requires e.index == i && e.list == PartList(g.seqs[i], i, g.next + i, asked)
    requires asked && g.seqs[i].tokenOffset < |g.seqs[i].output| ==>
      g.next + i in store && store[g.next + i] == g.history[i][g.seqs[i].tokenOffset..]
    ensures PartOk(g, i, e, store, asked)
  {
  }

  lemma CopyHolds(g: Group, r: Request, i: nat)
    requires WellFormed(r) && SeqsOk(g, r) && MemoryOk(g) && i < |g.seqs|
    requires r.out.includeLogprobs && g.seqs[i].tokenOffset < |g.seqs[i].output|
    ensures g.next + i in WithCopies(g, r) && g.seqs[i].tokenOffset <= |g.history[i]|
    ensures WithCopies(g, r)[g.next + i] == g.history[i][g.seqs[i].tokenOffset..]
  {
    AtIndex(g, r, i);
    hide SeqsOk;
    EmittedListIs(g.seqs[i], g.history[i], g.store[i], r);
    CopyAt(g, r, i);
    hide EmittedList, WithCopies, MemoryOk, ListOk;
  }

  lemma PartAt(g: Group, r: Request, i: nat)
    requires WellFormed(r) && SeqsOk(g, r) && MemoryOk(g) && i < |g.seqs|
    ensures PartOk(g, i, Outputs(g, r)[i], WithCopies(g, r), r.out.includeLogprobs)
  {
    assert r.out.delta;
    AtIndex(g, r, i);
    hide WellFormed, Emission, SeqsOk, MemoryOk, WithCopies, ListOk, PartList, SeqOk, Items, PartOk;
    var e := Outputs(g, r)[i];
    assert e == Emission(g.seqs[i], g.store[i], i, r.out, g.next + i);
    PartListIs(g.seqs[i], g.history[i], g.store[i], i, g.next + i, r);
    CopiesAreNew(g, r);
    if r.out.includeLogprobs && g.seqs[i].tokenOffset < |g.seqs[i].output| { CopyHolds(g, r, i); }
    hide Outputs, OwnItems;
    PartItems(g, i, g.store[i], e, WithCopies(g, r), r.out.includeLogprobs);
  }

  lemma ListOkReturned(
      v: SeqView<nat>, w: SeqView<nat>, history: seq<Logprobs>, own: seq<Logprobs>, extra: seq<Logprobs>)
    requires ListOk(v, history, own) && w.output == v.output && w.tokenOffset == |v.output|
    requires history == [] ==> extra == []
    ensures ListOk(w, history, own + extra)
  {
    assert (own + extra)[|own + extra|..] == [] == history[|history|..];
  }

  // ------------------------------------------------------------------ The first poll

  lemma FirstStreamed(v: SeqView<nat>, own: seq<Logprobs>, i: nat, r: Request, slot: nat)
    requires WellFormed(r) && SeqOk(v, r)
    ensures Streamed(Emission(v, own, i, r.out, slot), AfterEmission(v, r.out), i,
                     Start(v.textOffset, v.tokenOffset, |v.output|))
  {
    EmissionOk(v, own, i, r, slot);
    hide AfterEmission, SeqOk, WellFormed, EmittedText, EmittedTokens;
  }

  lemma FirstBatchList(c: Completion<nat>, v: SeqView<nat>, w: SeqView<nat>, history: seq<Logprobs>, store: Lists,
                       n: nat, i: nat, slot: nat, asked: bool)
    requires i in store && ListOk(v, history, store[i]) && w.output == v.output && w.tokenOffset == |v.output|
    requires n <= slot
    requires c.list == PartList(v, i, slot, asked)
    requires Items(store, c.list) == if asked then history[v.tokenOffset..] else []
    ensures BatchList(c, w, history, store, n, i, Start(v.textOffset, v.tokenOffset, |v.output|), asked)
  {
    assert history[v.tokenOffset..] == history[v.tokenOffset..w.tokenOffset];
  }

  /** What a poll that does not fail leaves at position i. */
  predicate AfterPollAt(t: Group, i: nat, r: Request) {
    && i < |t.seqs| == |t.history| == |t.given| && t.held.Output? && |t.held.outs| == |t.held.starts| == |t.seqs|
    && BatchAt(t, i, r) && i in t.store && ListOk(t.seqs[i], t.history[i], t.store[i])
    && (t.held.outs[i].list.Some? ==> t.held.outs[i].list.value in t.store)
  }

  lemma FirstListAt(g: Group, r: Request, i: nat, w: SeqView<nat>)
    requires WellFormed(r) && SeqsOk(g, r) && MemoryOk(g) && i < |g.seqs| && |g.history| == |g.seqs|
    requires w.output == g.seqs[i].output && w.tokenOffset == |w.output| == |g.history[i]|
    requires g.seqs[i].tokenOffset <= |w.output|
    ensures i in WithCopies(g, r) && ListOk(w, g.history[i], WithCopies(g, r)[i])
    ensures BatchList(Outputs(g, r)[i], w, g.history[i], WithCopies(g, r), |g.seqs|, i,
                      Start(g.seqs[i].textOffset, g.seqs[i].tokenOffset, |g.seqs[i].output|), r.out.includeLogprobs)
    ensures Outputs(g, r)[i].list.Some? ==> Outputs(g, r)[i].list.value in WithCopies(g, r)
  {
    hide WellFormed, SeqsOk, MemoryOk, WithCopies, Outputs, OwnItems, ListOk, BatchList, SeqOk, PartList;
    AtIndex(g, r, i);
    PartAt(g, r, i);
    CopiesAreNew(g, r);
    assert g.store[i] + [] == g.store[i];
    ListOkReturned(g.seqs[i], w, g.history[i], g.store[i], []);
    FirstBatchList(Outputs(g, r)[i], g.seqs[i], w, g.history[i], WithCopies(g, r), |g.seqs|, i, g.next + i,
                   r.out.includeLogprobs);
  }

  lemma FirstStreamedAt(g: Group, r: Request, i: nat, w: SeqView<nat>)
    requires WellFormed(r) && Inv(g, r) && g.held.NoOutput? && i < |g.seqs| && w == AfterEmission(g.seqs[i], r.out)
    ensures |g.history| == |g.given| == |g.seqs|
    ensures var v := g.seqs[i];
            && Streamed(Outputs(g, r)[i], w, i, Start(v.textOffset, v.tokenOffset, |v.output|))
            && Before(w, v.textOffset, v.tokenOffset, g.given[i])
            && w.output == v.output && w.tokenOffset == |w.output| == |g.history[i]| && v.tokenOffset <= |w.output|
  {
    var slot: nat, v := g.next + i, g.seqs[i];
    assert Before(v, v.textOffset, v.tokenOffset, g.given[i]);
    assert SeqOk(v, r) && |g.history[i]| == |v.output|;
    hide Inv, SeqsOk, MemoryOk, HeldOk, OwnItems, Streamed, WellFormed, SeqOk, Emission, AfterEmission;
    EmissionOk(v, OwnItems(g)[i], i, r, slot);
    FirstStreamed(v, OwnItems(g)[i], i, r, slot);
  }

  lemma FirstAt(g: Group, r: Request, i: nat)
    requires WellFormed(r) && Inv(g, r) && g.held.NoOutput? && i < |g.seqs|
    ensures AfterPollAt(Polled(g, r), i, r)
  {
    var w := AfterEmission(g.seqs[i], r.out);
    hide Inv, WellFormed, ListOk, BatchList, Polled, AfterEmission, Outputs;
    hide Streamed, Before, SeqsOk, MemoryOk, WithCopies;
    InvParts(g, r);
    PolledSeqs(g, r, i);
    PolledRest(g, r);
    FirstPoll(g, r);
    FirstStreamedAt(g, r, i, w);
    FirstListAt(g, r, i, w);
  }

  // -------------------------------------------------------------------- Later polls

  /** The batch began when the sequence had tokens and none of them was new. */
  predicate Stalled(st: Start) {
    st.tokenFrom == st.tokenAt > 0
  }

  /** What makes the merge of position i fail. */
  predicate FailsAt(g: Group, i: nat, r: Request)
    requires g.held.Output? && i < |g.seqs| == |g.held.starts|
  {
    r.out.includeLogprobs && Stalled(g.held.starts[i]) && g.seqs[i].tokenOffset < |g.seqs[i].output|
  }

  lemma CanMergeIff(g: Group, r: Request, i: nat)
    requires WellFormed(r) && Inv(g, r) && g.held.Output? && i < |g.seqs|
    ensures |g.held.outs| == |g.held.starts| == |g.seqs|
    ensures CanMerge(WithCopies(g, r), g.held.outs[i], Outputs(g, r)[i]) <==> !FailsAt(g, i, r)
  {
    PartAt(g, r, i);
    AtIndex(g, r, i);
    assert BatchAt(g, i, r);
    hide Inv, SeqsOk, MemoryOk, HeldOk, WithCopies, Outputs, OwnItems, WellFormed, SeqOk, PartList, ListOk, Before;
  }

  lemma PartsSeparate(g: Group, r: Request, i: nat, j: nat)
    requires WellFormed(r) && Inv(g, r) && g.held.Output? && i < |g.seqs| && j < |g.seqs| && i != j
    requires |g.held.outs| == |g.seqs| && g.held.outs[i].list.Some?
    ensures g.held.outs[i].list != Some(j) && g.held.outs[i].list != Outputs(g, r)[j].list
  {
    PartAt(g, r, j);
    assert BatchAt(g, i, r);
    assert g.held.outs[i].list.value in g.store;
    assert g.held.outs[i].list.value < g.next;
    hide Inv, SeqsOk, MemoryOk, HeldOk, WithCopies, Outputs, OwnItems, WellFormed, SeqOk, Before;
    OtherList(g.held.outs[i], g.seqs[i], g.history[i], g.store, |g.seqs|, i, g.held.starts[i],
        r.out.includeLogprobs, j);
  }

  lemma HeldMergeable(g: Group, r: Request)
    requires WellFormed(r) && Inv(g, r) && g.held.Output?
    ensures Mergeable(WithCopies(g, r), g.held.outs, Outputs(g, r))
  {
    var outs, es := g.held.outs, Outputs(g, r);
    CopiesAreNew(g, r);
    forall i | 0 <= i < |outs| ensures outs[i].index == i == es[i].index {
      PartAt(g, r, i);
      assert BatchAt(g, i, r);
    }
    forall i, j | 0 <= i < |outs| && 0 <= j < |outs| && i != j && outs[i].list.Some?
      ensures outs[i].list != outs[j].list && outs[i].list != es[j].list
    {
      PartsSeparate(g, r, i, j);
    }
    assert forall i :: 0 <= i < |outs| && outs[i].list.Some? ==> outs[i].list.value in g.store;
    hide Inv, WithCopies, Outputs, WellFormed;
  }

  /** The state after a poll of a collector that holds a batch. */
  lemma LaterPoll(g: Group, r: Request)
    requires WellFormed(r) && Inv(g, r) && g.held.Output?
    ensures |g.held.outs| == |g.seqs| == |g.held.starts|
    ensures var outs, es, t := g.held.outs, Outputs(g, r), Polled(g, r);
            if exists i :: 0 <= i < |g.seqs| && FailsAt(g, i, r) then t.held.Crashed?
            else && t.held == Output(MergedUpTo(outs, es, |es|), g.held.finished || AllFinished(g.seqs), g.held.starts)
                 && t.store == StoredUpTo(WithCopies(g, r), outs, es, |es|)
  {
    var outs, es, store := g.held.outs, Outputs(g, r), WithCopies(g, r);
    HeldMergeable(g, r);
    forall i | 0 <= i < |g.seqs| ensures CanMerge(store, outs[i], es[i]) <==> !FailsAt(g, i, r) {
      CanMergeIff(g, r, i);
    }
    hide Inv, WithCopies, Outputs, WellFormed, Mergeable, FailsAt;
    hide CanMerge, AddAll, MergedUpTo, StoredUpTo, AllFinished;
    assert es[..|es|] == es;
    AddAllOkIff(store, outs, es, |es|);
    if AllMerge(store, outs, es, |es|) { AddAllAligned(store, outs, es, |es|); }
  }

  lemma LaterStreamed(c: Completion<nat>, v: SeqView<nat>, own: seq<Logprobs>, i: nat, st: Start, r: Request, slot: nat)
    requires WellFormed(r) && SeqOk(v, r) && Streamed(c, v, i, st)
    ensures Streamed(Merge(c, Emission(v, own, i, r.out, slot)), AfterEmission(v, r.out), i, st)
  {
    EmissionOk(v, own, i, r, slot);
    var w := AfterEmission(v, r.out);
    assert v.text[st.textFrom..v.textOffset] + v.text[v.textOffset..w.textOffset] == v.text[st.textFrom..w.textOffset];
    assert v.output[st.tokenFrom..v.tokenOffset] + v.output[v.tokenOffset..] == v.output[st.tokenFrom..|v.output|];
    hide AfterEmission, SeqOk, WellFormed, EmittedText, EmittedTokens, EmittedList;
  }

  lemma LaterBatchList(
      c: Completion<nat>, d: Completion<nat>, v: SeqView<nat>, w: SeqView<nat>, history: seq<Logprobs>,
      store: Lists, t: Lists, n: nat, i: nat, st: Start, asked: bool, entries: seq<Logprobs>)
    requires i in store && i in t && i < n && ListOk(v, history, store[i])
    requires st.tokenFrom <= st.tokenAt <= v.tokenOffset
    requires BatchList(c, v, history, store, n, i, st, asked) && d.list == c.list
    requires w.output == v.output && w.tokenOffset == |v.output|
    requires entries == if asked then history[v.tokenOffset..] else []
    requires entries != [] ==> c.list.Some?
    requires c.list.Some? ==> Items(t, c.list) == Items(store, c.list) + entries
    requires c.list != Some(i) ==> Items(t, Some(i)) == Items(store, Some(i))
    ensures BatchList(d, w, history, t, n, i, st, asked) && ListOk(w, history, t[i])
  {
    if c.list == Some(i) {
      ListOkReturned(v, w, history, store[i], entries);
    } else {
      assert store[i] + [] == store[i];
      ListOkReturned(v, w, history, store[i], []);
    }
    if asked && st.tokenAt > 0 && st.tokenFrom < st.tokenAt {
      assert history[st.tokenFrom..v.tokenOffset] + history[v.tokenOffset..] == history[st.tokenFrom..|history|];
    }
    hide ListOk;
  }

  /** What a successful merge does to the lists at position i. */
  lemma LaterLists(g: Group, r: Request, i: nat)
    requires WellFormed(r) && Inv(g, r) && g.held.Output? && i < |g.seqs| && Polled(g, r).held.Output?
    ensures |g.held.outs| == |g.seqs|
    ensures var c, t, store := g.held.outs[i], Polled(g, r).store, WithCopies(g, r);
            && i in t && (forall l :: l in t <==> l in store)
            && (c.list.Some? ==> Items(t, c.list) == Items(store, c.list) + Items(store, Outputs(g, r)[i].list))
            && (c.list != Some(i) ==> Items(t, Some(i)) == Items(store, Some(i)))
  {
    LaterPoll(g, r);
    HeldMergeable(g, r);
    CopiesAreNew(g, r);
    AtIndex(g, r, i);
    var outs, es, store := g.held.outs, Outputs(g, r), WithCopies(g, r);
    SameLists(store, outs, es, |es|);
    if outs[i].list.Some? { StoredAt(store, outs, es, |es|, i); }
    if outs[i].list != Some(i) {
      forall j | 0 <= j < |outs| && outs[j].list.Some? ensures outs[j].list != Some(i) {
        if j != i { PartsSeparate(g, r, j, i); }
      }
      UntouchedItems(store, outs, es, |es|, Some(i));
    }
    hide Inv, WithCopies, Outputs, WellFormed, Mergeable, FailsAt, StoredUpTo, MergedUpTo, Polled;
  }

  lemma InvAt(g: Group, r: Request, i: nat)
    requires Inv(g, r) && g.held.Output? && i < |g.seqs|
    ensures |g.held.outs| == |g.held.starts| == |g.seqs| && BatchAt(g, i, r)
    ensures g.held.outs[i].list.Some? ==> g.held.outs[i].list.value in g.store
    ensures SeqsOk(g, r) && MemoryOk(g) && |g.history| == |g.given| == |g.seqs| && SeqOk(g.seqs[i], r)
    ensures i in g.store && ListOk(g.seqs[i], g.history[i], g.store[i]) && OwnItems(g)[i] == g.store[i]
  {
    AtIndex(g, r, i);
    hide BatchAt, ListOk, SeqOk;
  }

  lemma PolledSeqs(g: Group, r: Request, i: nat)
    requires i < |g.seqs|
    ensures var t := Polled(g, r);
            && |t.seqs| == |g.seqs| && t.seqs[i] == AfterEmission(g.seqs[i], r.out)
            && t.history == g.history && t.given == g.given
  {
    hide AddAll, WithCopies, Outputs, AfterEmission;
  }

  lemma LaterListAt(g: Group, r: Request, i: nat, w: SeqView<nat>, d: Completion<nat>)
    requires WellFormed(r) && Inv(g, r) && g.held.Output? && i < |g.seqs| && Polled(g, r).held.Output?
    requires |g.held.outs| == |g.seqs| == |g.held.starts| == |g.history| && d.list == g.held.outs[i].list
    requires w.output == g.seqs[i].output && w.tokenOffset == |w.output| == |g.history[i]|
    requires g.held.starts[i].tokenFrom <= g.held.starts[i].tokenAt <= w.tokenOffset
    ensures i in Polled(g, r).store && ListOk(w, g.history[i], Polled(g, r).store[i])
    ensures BatchList(d, w, g.history[i], Polled(g, r).store, |g.seqs|, i, g.held.starts[i], r.out.includeLogprobs)
    ensures d.list.Some? ==> d.list.value in Polled(g, r).store
  {
    var c, v, st, store := g.held.outs[i], g.seqs[i], g.held.starts[i], WithCopies(g, r);
    InvAt(g, r, i);
    hide Inv, SeqsOk, MemoryOk, HeldOk, WithCopies, Outputs, WellFormed, SeqOk, Before, ListOk, Polled, PartList;
    PartAt(g, r, i);
    CopiesAreNew(g, r);
    CanMergeIff(g, r, i);
    LaterPoll(g, r);
    LaterLists(g, r, i);
    BatchListFrame(c, v, g.history[i], g.store, store, |g.seqs|, i, st, r.out.includeLogprobs);
    hide BatchList, Streamed;
    LaterBatchList(c, d, v, w, g.history[i], store, Polled(g, r).store, |g.seqs|, i, st, r.out.includeLogprobs,
                   Items(store, Outputs(g, r)[i].list));
  }

  lemma LaterOutAt(g: Group, r: Request, i: nat)
    requires WellFormed(r) && Inv(g, r) && g.held.Output? && i < |g.seqs| && Polled(g, r).held.Output?
    ensures |g.held.outs| == |g.held.starts| == |Polled(g, r).held.outs| == |g.seqs|
    ensures Polled(g, r).held.starts == g.held.starts
    ensures Polled(g, r).held.outs[i] == Merge(g.held.outs[i], Outputs(g, r)[i])
  {
    hide Inv, WithCopies, WellFormed, Outputs, StoredUpTo, FailsAt, Polled, Merge;
    LaterPoll(g, r);
  }

  lemma LaterStreamedAt(g: Group, r: Request, i: nat, w: SeqView<nat>)
    requires WellFormed(r) && Inv(g, r) && g.held.Output? && i < |g.seqs| && w == AfterEmission(g.seqs[i], r.out)
    ensures |g.held.outs| == |g.held.starts| == |g.given| == |g.history| == |g.seqs|
    ensures Streamed(Merge(g.held.outs[i], Outputs(g, r)[i]), w, i, g.held.starts[i])
    ensures Before(w, g.held.starts[i].textFrom, g.held.starts[i].tokenFrom, g.given[i])
    ensures w.output == g.seqs[i].output && w.tokenOffset == |w.output| == |g.history[i]|
    ensures g.held.starts[i].tokenFrom <= g.held.starts[i].tokenAt <= w.tokenOffset
  {
    var slot: nat, v := g.next + i, g.seqs[i];
    InvAt(g, r, i);
    EmissionOk(v, g.store[i], i, r, slot);
    hide Inv, SeqsOk, MemoryOk, HeldOk, WellFormed, SeqOk, BatchList, Emission, AfterEmission, OwnItems;
    assert |g.history[i]| == |v.output| by { hide BatchAt; }
    LaterStreamed(g.held.outs[i], v, g.store[i], i, g.held.starts[i], r, slot);
    hide ListOk;
  }

  lemma LaterAt(g: Group, r: Request, i: nat)
    requires WellFormed(r) && Inv(g, r) && g.held.Output? && i < |g.seqs| && Polled(g, r).held.Output?
    ensures AfterPollAt(Polled(g, r), i, r)
  {
    var w, t := AfterEmission(g.seqs[i], r.out), Polled(g, r);
    hide Inv, WellFormed, ListOk, BatchList, Polled, AfterEmission, Outputs, Streamed, Before;
    PolledSeqs(g, r, i);
    LaterOutAt(g, r, i);
    LaterStreamedAt(g, r, i, w);
    LaterListAt(g, r, i, w, t.held.outs[i]);
  }

  lemma PolledSeqsOk(g: Group, r: Request)
    requires WellFormed(r) && SeqsOk(g, r)
    ensures SeqsOk(Polled(g, r), r) && (AllFinished(Polled(g, r).seqs) <==> AllFinished(g.seqs))
  {
    forall i | 0 <= i < |g.seqs|
      ensures SeqOk(AfterEmission(g.seqs[i], r.out), r)
      ensures AfterEmission(g.seqs[i], r.out).list == g.seqs[i].list
      ensures AfterEmission(g.seqs[i], r.out).output == g.seqs[i].output
      ensures AfterEmission(g.seqs[i], r.out).status == g.seqs[i].status
    {
      EmissionOk(g.seqs[i], [], i, r, 0);
      PolledSeqs(g, r, i);
    }
    hide SeqOk, AfterEmission, WellFormed, AddAll, WithCopies, Outputs;
  }

  predicate ListsApart(t: Group) {
    && t.held.Output? && (forall l | l in t.store :: l < t.next)
    && (forall i, j :: 0 <= i < |t.held.outs| && 0 <= j < |t.held.outs| && i != j && t.held.outs[i].list.Some? ==>
          t.held.outs[i].list != t.held.outs[j].list)
  }

  lemma FirstPoll(g: Group, r: Request)
    requires g.held.NoOutput?
    ensures var t := Polled(g, r);
            && t.held == Output(Outputs(g, r), AllFinished(g.seqs), StartsOf(g.seqs)) && t.store == WithCopies(g, r)
            && t.next == g.next + |g.seqs| && |t.seqs| == |g.seqs|
  {
    hide WithCopies, Outputs, AllFinished, AfterEmission;
  }

  lemma InvParts(g: Group, r: Request)
    requires Inv(g, r)
    ensures SeqsOk(g, r) && |g.history| == |g.given| == |g.seqs|
    ensures !g.held.Crashed? ==> MemoryOk(g) && |g.seqs| <= g.next
    ensures g.held.Output? ==> |g.held.outs| == |g.held.starts| == |g.seqs| && ListsApart(g)
  {
    hide SeqOk, BatchAt, ListOk, AllFinished;
  }

  lemma FirstLists(g: Group, r: Request)
    requires WellFormed(r) && Inv(g, r) && g.held.NoOutput?
    ensures ListsApart(Polled(g, r))
  {
    hide Inv, SeqsOk, MemoryOk, WellFormed, WithCopies, Polled, Emission, Outputs;
    InvParts(g, r);
    var es := Outputs(g, r);
    FirstPoll(g, r);
    CopiesAreNew(g, r);
    forall i | 0 <= i < |g.seqs| ensures es[i].list == PartList(g.seqs[i], i, g.next + i, r.out.includeLogprobs) {
      PartAt(g, r, i);
    }
  }

  lemma StillApart(g: Group, r: Request)
    requires WellFormed(r) && Inv(g, r) && g.held.Output? && Polled(g, r).held.Output?
    ensures ListsApart(Polled(g, r))
  {
    hide Inv, SeqsOk, MemoryOk, WellFormed, WithCopies, Polled, Outputs, StoredUpTo, FailsAt, Merge;
    InvParts(g, r);
    PolledShape(g, r);
    forall i | 0 <= i < |g.seqs| ensures Polled(g, r).held.outs[i].list == g.held.outs[i].list {
      LaterOutAt(g, r, i);
      MergeKeepsList(g.held.outs[i], Outputs(g, r)[i]);
    }
    CopiesAreNew(g, r);
    if g.seqs != [] {
      LaterLists(g, r, 0);
    } else {
      LaterPoll(g, r);
      NoneStored(WithCopies(g, r), g.held.outs, Outputs(g, r));
    }
  }

  lemma MergeKeepsList(c: Completion<nat>, e: Completion<nat>)
    ensures Merge(c, e).list == c.list
  {
  }

  lemma NoneStored(store: Lists, outs: seq<Completion<nat>>, es: seq<Completion<nat>>)
    requires |outs| == |es| == 0
    ensures StoredUpTo(store, outs, es, 0) == store
  {
  }

  lemma PolledRest(g: Group, r: Request)
    ensures var t := Polled(g, r);
            && |t.seqs| == |g.seqs| && t.history == g.history && t.given == g.given && t.next == g.next + |g.seqs|
            && (t.held.Output? ==> !g.held.Crashed?) && !t.held.NoOutput?
  {
    hide WithCopies, Outputs, AddAll, AfterEmission;
  }

  lemma PolledShape(g: Group, r: Request)
    requires WellFormed(r) && Inv(g, r) && Polled(g, r).held.Output?
    ensures var t := Polled(g, r);
            && |t.held.outs| == |t.held.starts| == |t.seqs| == |g.seqs| == |t.history| == |t.given|
            && t.next == g.next + |g.seqs| && |g.seqs| <= g.next
  {
    hide Inv, SeqsOk, WellFormed, WithCopies, MemoryOk, Outputs, StoredUpTo, FailsAt, MergedUpTo, Polled;
    InvParts(g, r);
    PolledRest(g, r);
    if g.held.NoOutput? { FirstPoll(g, r); } else { LaterPoll(g, r); }
  }

  lemma PollInv(g: Group, r: Request)
    requires WellFormed(r) && Inv(g, r)
    ensures Inv(Polled(g, r), r)
  {
    var t := Polled(g, r);
    assert g.held.Crashed? ==> t.held.Crashed?;
    assert SeqsOk(g, r);
    hide Inv, Polled, WellFormed, SeqsOk, BatchAt, ListOk, AllFinished;
    PolledSeqsOk(g, r);
    if t.held.Output? {
      PolledShape(g, r);
      PollFinished(g, r);
      if g.held.NoOutput? { FirstLists(g, r); } else { StillApart(g, r); }
      forall i | 0 <= i < |g.seqs| ensures AfterPollAt(t, i, r) {
        if g.held.NoOutput? { FirstAt(g, r, i); } else { LaterAt(g, r, i); }
      }
    }
    PolledInv(t, r);
  }

  lemma PolledInv(t: Group, r: Request)
    requires SeqsOk(t, r) && !t.held.NoOutput?
    requires t.held.Output? ==>
      && |t.held.outs| == |t.held.starts| == |t.seqs| <= t.next && ListsApart(t)
      && (forall i :: 0 <= i < |t.seqs| ==> AfterPollAt(t, i, r)) && t.held.finished == AllFinished(t.seqs)
    ensures Inv(t, r)
  {
    hide BatchAt, ListOk, AllFinished, SeqOk;
    if t.held.Output? {
      forall i | 0 <= i < |t.seqs|
        ensures BatchAt(t, i, r) && i in t.store && ListOk(t.seqs[i], t.history[i], t.store[i])
        ensures t.held.outs[i].list.Some? ==> t.held.outs[i].list.value in t.store
      {
        assert AfterPollAt(t, i, r);
      }
    }
  }

  lemma PollFinished(g: Group, r: Request)
    requires WellFormed(r) && Inv(g, r) && Polled(g, r).held.Output?
    ensures Polled(g, r).held.finished == AllFinished(Polled(g, r).seqs)
  {
    PolledSeqsOk(g, r);
    hide AllFinished, AddAll, WithCopies, Outputs, WellFormed, SeqsOk, MemoryOk, BatchAt;
  }

  // ------------------------------------------------------------------------------ Runs

  lemma StepInv(g: Group, step: Step, r: Request)
    requires WellFormed(r) && Inv(g, r) && Enabled(g, step, r)
    ensures Inv(Next(g, step, r), r)
  {
    match step
    case Generate(_, _, _, _, _, _) => GenerateInv(g, step, r);
    case Finish(_, _) => FinishInv(g, step, r);
    case Poll => PollInv(g, r);
    case Take => TakeInv(g, r);
  }

  ghost predicate Run(g: Group, steps: seq<Step>, r: Request, t: Group)
    decreases |steps|
  {
    if steps == [] then g == t
    else Enabled(g, steps[0], r) && Run(Next(g, steps[0], r), steps[1..], r, t)
  }

  lemma {:induction false} RunInv(g: Group, steps: seq<Step>, r: Request, t: Group)
    requires WellFormed(r) && Inv(g, r) && Run(g, steps, r, t)
    ensures Inv(t, r)
    decreases |steps|
  {
    hide Inv, Next, Enabled, WellFormed;
    if steps != [] {
      StepInv(g, steps[0], r);
      RunInv(Next(g, steps[0], r), steps[1..], r, t);
    }
  }

  lemma InitialInv(n: nat, r: Request)
    requires WellFormed(r)
    ensures Inv(Initial(n), r)
  {
    forall s, p: nat | s in r.stops ensures !OccursAt("", s, p) {
    }
  }

  /** What the client has taken and the batch in the collector are together the output a
      cumulative request would get of sequence i. */
  ghost predicate IsCumulative(t: Group, i: nat, r: Request) {
    && i < |t.seqs| == |t.given| && t.held.Output? && i < |t.held.outs|
    && var c, v, given := t.held.outs[i], t.seqs[i], t.given[i];
       && c.index == i
       && given.text + c.text == VisibleText(v.text, v.status, r.out.buffer)
       && given.tokenIds + c.tokenIds == v.output
       && c.cumulativeLogprob == (if r.out.includeLogprobs then Some(v.cumulativeLogprob) else None)
       && c.finishReason == FinishedReason(v.status) && c.stopReason == v.stopReason
  }

  /** The batch has exactly one entry for each of its tokens, the one generated with it. */
  predicate LogprobsRight(t: Group, i: nat) {
    && i < |t.seqs| == |t.given| == |t.history| && t.held.Output? && i < |t.held.outs|
    && |t.given[i].tokenIds| <= |t.history[i]|
    && Items(t.store, t.held.outs[i].list) == t.history[i][|t.given[i].tokenIds|..]
  }

  predicate ReasonsAt(t: Group, i: nat, r: Request) {
    && i < |t.seqs| && t.held.Output? && i < |t.held.outs|
    && var c, v := t.held.outs[i], t.seqs[i];
       && c.cumulativeLogprob == (if r.out.includeLogprobs then Some(v.cumulativeLogprob) else None)
       && c.finishReason == FinishedReason(v.status) && c.stopReason == v.stopReason
       && v.tokenOffset == |v.output| && v.textOffset == |VisibleText(v.text, v.status, r.out.buffer)|
  }

  lemma PollReasons(g: Group, r: Request, i: nat)
    requires WellFormed(r) && Inv(g, r) && Polled(g, r).held.Output? && i < |g.seqs|
    ensures ReasonsAt(Polled(g, r), i, r)
  {
    hide Inv, SeqsOk, MemoryOk, WellFormed, OwnItems, Outputs;
    hide WithCopies, Polled, EmittedText, EmittedTokens, EmittedList;
    InvParts(g, r);
    PolledRest(g, r);
    AtIndex(g, r, i);
    PolledSeqs(g, r, i);
    PolledShape(g, r);
    hide SeqOk;
    var slot: nat := g.next + i;
    EmissionOk(g.seqs[i], OwnItems(g)[i], i, r, slot);
    assert Outputs(g, r)[i] == Emission(g.seqs[i], OwnItems(g)[i], i, r.out, slot);
    if g.held.NoOutput? { FirstPoll(g, r); } else { LaterOutAt(g, r, i); }
  }

  lemma BatchIsCumulative(g: Group, r: Request, i: nat)
    requires WellFormed(r) && Inv(g, r) && Polled(g, r).held.Output? && i < |g.seqs|
    ensures IsCumulative(Polled(g, r), i, r)
  {
    var t := Polled(g, r);
    hide Inv, Polled, WellFormed, BatchList, Streamed, Before;
    PollInv(g, r);
    PolledShape(g, r);
    PollReasons(g, r, i);
    InvAt(t, r, i);
    hide SeqsOk, MemoryOk, SeqOk, ListOk;
    ReturnedIsJoined(t, r, i);
    VisibleIsPrefix(t.seqs[i].text, t.seqs[i].status, r.out.buffer);
    hide VisibleText;
  }

  lemma ReturnedIsJoined(t: Group, r: Request, i: nat)
    requires i < |t.seqs| == |t.history| == |t.given| && t.held.Output? && |t.held.outs| == |t.held.starts| == |t.seqs|
    requires BatchAt(t, i, r)
    ensures var c, v, given := t.held.outs[i], t.seqs[i], t.given[i];
            && c.index == i && v.textOffset <= |v.text| && v.tokenOffset <= |v.output|
            && given.text + c.text == v.text[..v.textOffset] && given.tokenIds + c.tokenIds == v.output[..v.tokenOffset]
  {
    Joined(t.held.outs[i], t.seqs[i], i, t.held.starts[i], t.given[i]);
  }

  lemma VisibleIsPrefix(text: string, status: Status, buffer: nat)
    ensures VisibleText(text, status, buffer) <= text
  {
  }

  /** For every run of appends, stops, finishes, polls and takes, a poll fails exactly when
      log probabilities are asked for and some sequence, which had tokens but no new one
      when the batch began, now has a new one.  After any other poll the collector's batch
      continues what the client has taken: text, token ids, reasons and the finished flag
      are together those a cumulative request would get, with one completion per index. */
  lemma DeltaStreamIsCumulative(n: nat, steps: seq<Step>, r: Request, g: Group)
    requires WellFormed(r) && Run(Initial(n), steps, r, g) && !g.held.Crashed?
    ensures g.held.Output? ==> |g.held.starts| == |g.seqs|
    ensures var t := Polled(g, r);
            if g.held.Output? && exists i :: 0 <= i < |g.seqs| && FailsAt(g, i, r) then t.held.Crashed?
            else && t.held.Output? && |t.held.outs| == |t.seqs| && t.held.finished == AllFinished(t.seqs)
                 && forall i :: 0 <= i < |t.seqs| ==> IsCumulative(t, i, r)
  {
    InitialInv(n, r);
    RunInv(Initial(n), steps, r, g);
    hide Run, WellFormed, Inv, Polled, FailsAt, IsCumulative, AllFinished, Outputs, WithCopies, MergedUpTo, StoredUpTo;
    if g.held.Output? { LaterPoll(g, r); } else { FirstPoll(g, r); }
    PolledRest(g, r);
    if Polled(g, r).held.Output? {
      PolledShape(g, r);
      PollFinished(g, r);
      forall i | 0 <= i < |Polled(g, r).seqs| ensures IsCumulative(Polled(g, r), i, r) { BatchIsCumulative(g, r, i); }
    }
  }

  /** The batch began when sequence i had no token, and now the sequence has one. */
  predicate BeganEarly(t: Group, i: nat) {
    i < |t.seqs| && t.held.Output? && i < |t.held.starts| && t.held.starts[i].tokenAt == 0 && t.seqs[i].output != []
  }

  predicate WithoutList(t: Group, i: nat) {
    t.held.Output? && i < |t.held.outs| && t.held.outs[i].list == None
  }

  /** After a poll, the log probabilities of a batch are right unless the batch began
      before the first token of a sequence that now has tokens: a list that is handed out
      while it is empty grows once by itself and once more by every merge. */
  lemma LogprobsRightIff(n: nat, steps: seq<Step>, r: Request, g: Group, t: Group, i: nat)
    requires WellFormed(r) && Run(Initial(n), steps, r, g) && t == Polled(g, r) && t.held.Output? && i < |g.seqs|
    ensures r.out.includeLogprobs ==> (LogprobsRight(t, i) <==> !BeganEarly(t, i))
    ensures !r.out.includeLogprobs ==> WithoutList(t, i)
  {
    InitialInv(n, r);
    RunInv(Initial(n), steps, r, g);
    hide Run, Inv, Polled, LogprobsRight;
    PollInv(g, r);
    PolledShape(g, r);
    PollReasons(g, r, i);
    InvAt(t, r, i);
    hide WellFormed, SeqsOk, MemoryOk, SeqOk;
    RightAt(t, r, i);
  }

  lemma RightAt(t: Group, r: Request, i: nat)
    requires i < |t.seqs| == |t.history| == |t.given| && t.held.Output? && |t.held.outs| == |t.held.starts| == |t.seqs|
    requires BatchAt(t, i, r) && t.seqs[i].tokenOffset == |t.seqs[i].output|
    ensures r.out.includeLogprobs ==> (LogprobsRight(t, i) <==> !BeganEarly(t, i))
    ensures !r.out.includeLogprobs ==> WithoutList(t, i)
  {
    var st, h := t.held.starts[i], t.history[i];
    assert |t.given[i].tokenIds| == st.tokenFrom;
    assert h[st.tokenFrom..|h|] == h[st.tokenFrom..];
    hide Streamed, Before;
  }

  // -------------------------------------------------------- A client that never takes

  predicate NoTake(steps: seq<Step>) {
    forall k :: 0 <= k < |steps| ==> !steps[k].Take?
  }

  /** The tokens that sequence i gets before the first poll. */
  function TokensBeforePoll(steps: seq<Step>, i: nat): nat {
    if steps == [] || steps[0].Poll? then 0
    else (if steps[0].Generate? && steps[0].i == i then 1 else 0) + TokensBeforePoll(steps[1..], i)
  }

  predicate NothingTaken(g: Group) {
    forall i :: 0 <= i < |g.given| ==> g.given[i] == Given("", [])
  }

  lemma {:induction false} RunWithoutTake(g: Group, steps: seq<Step>, r: Request, t: Group)
    requires WellFormed(r) && Inv(g, r) && Run(g, steps, r, t) && NoTake(steps) && NothingTaken(g) && !g.held.Crashed?
    ensures NothingTaken(t) && !t.held.Crashed?
    decreases |steps|
  {
    if steps != [] {
      var next := Next(g, steps[0], r);
      StepInv(g, steps[0], r);
      StepWithoutTake(g, steps[0], r);
      hide Inv, Next, Enabled, WellFormed, NothingTaken;
      assert !steps[0].Take? && forall k :: 0 <= k < |steps[1..]| ==> steps[1..][k] == steps[k + 1];
      RunWithoutTake(next, steps[1..], r, t);
    }
  }

  lemma StepWithoutTake(g: Group, step: Step, r: Request)
    requires WellFormed(r) && Inv(g, r) && Enabled(g, step, r) && !step.Take? && NothingTaken(g) && !g.held.Crashed?
    ensures NothingTaken(Next(g, step, r)) && !Next(g, step, r).held.Crashed?
  {
    if step.Poll? {
      if g.held.Output? {
        forall i | 0 <= i < |g.seqs| ensures |g.held.starts| == |g.seqs| && !FailsAt(g, i, r) {
          InvAt(g, r, i);
        }
        hide Inv, FailsAt, WellFormed, Polled;
        LaterPoll(g, r);
      } else {
        FirstPoll(g, r);
      }
      PolledRest(g, r);
    }
  }

  lemma {:induction false} StartsFixed(g: Group, steps: seq<Step>, r: Request, t: Group)
    requires WellFormed(r) && Inv(g, r) && Run(g, steps, r, t) && NoTake(steps) && g.held.Output? && !t.held.Crashed?
    ensures t.held.Output? && t.held.starts == g.held.starts
    decreases |steps|
  {
    if steps != [] {
      var next := Next(g, steps[0], r);
      StepInv(g, steps[0], r);
      StepKeepsStarts(g, steps[0], r);
      hide Inv, Next, Enabled, WellFormed;
      assert !steps[0].Take? && forall k :: 0 <= k < |steps[1..]| ==> steps[1..][k] == steps[k + 1];
      if next.held.Crashed? {
        StaysCrashed(next, steps[1..], r, t);
      } else {
        StartsFixed(next, steps[1..], r, t);
      }
    }
  }

  lemma StepKeepsStarts(g: Group, step: Step, r: Request)
    requires WellFormed(r) && Inv(g, r) && Enabled(g, step, r) && !step.Take? && g.held.Output?
    ensures Next(g, step, r).held.Crashed? ||
      (Next(g, step, r).held.Output? && Next(g, step, r).held.starts == g.held.starts)
  {
    if step.Poll? {
      hide Inv, WellFormed, Polled;
      LaterPoll(g, r);
    }
  }

  lemma {:induction false} StaysCrashed(g: Group, steps: seq<Step>, r: Request, t: Group)
    requires g.held.Crashed? && Run(g, steps, r, t)
    ensures t.held.Crashed?
    decreases |steps|
  {
    if steps != [] {
      assert Next(g, steps[0], r).held.Crashed?;
      StaysCrashed(Next(g, steps[0], r), steps[1..], r, t);
    }
  }

  /** A batch that has not been taken began with the first poll. */
  lemma {:induction false} StartsAtFirstPoll(g: Group, steps: seq<Step>, r: Request, t: Group, i: nat)
    requires WellFormed(r) && Inv(g, r) && Run(g, steps, r, t) && NoTake(steps) && g.held.NoOutput? && !t.held.Crashed?
    requires i < |g.seqs|
    ensures t.held.NoOutput? ==> i < |t.seqs| && |t.seqs[i].output| == |g.seqs[i].output| + TokensBeforePoll(steps, i)
    ensures t.held.Output? ==>
      i < |t.held.starts| && t.held.starts[i].tokenAt == |g.seqs[i].output| + TokensBeforePoll(steps, i)
    decreases |steps|
  {
    if steps != [] {
      var next := Next(g, steps[0], r);
      StepInv(g, steps[0], r);
      assert !steps[0].Take? && forall k :: 0 <= k < |steps[1..]| ==> steps[1..][k] == steps[k + 1];
      if steps[0].Poll? {
        FirstPoll(g, r);
        hide Inv, Enabled, WellFormed, Outputs, WithCopies;
        StartsFixed(next, steps[1..], r, t);
      } else {
        assert next.held.NoOutput? && |next.seqs| == |g.seqs|;
        OneToken(g, steps[0], r, i);
        hide Inv, Next, Enabled, WellFormed;
        StartsAtFirstPoll(next, steps[1..], r, t, i);
      }
    }
  }

  lemma OneToken(g: Group, step: Step, r: Request, i: nat)
    requires Enabled(g, step, r) && (step.Generate? || step.Finish?) && i < |g.seqs|
    ensures |Next(g, step, r).seqs| == |g.seqs|
    ensures |Next(g, step, r).seqs[i].output| == |g.seqs[i].output| + if step.Generate? && step.i == i then 1 else 0
  {
  }

  lemma EarlyByTokens(n: nat, steps: seq<Step>, r: Request, g: Group, t: Group, i: nat)
    requires WellFormed(r) && Inv(g, r) && Run(Initial(n), steps, r, g) && NoTake(steps) && t == Polled(g, r)
    requires t.held.Output? && i < |t.seqs| == n && |t.held.starts| == n == |g.seqs|
    ensures BeganEarly(t, i) <==> t.seqs[i].output != [] && TokensBeforePoll(steps, i) == 0
  {
    InitialInv(n, r);
    hide Inv, WellFormed, Polled;
    PolledRest(g, r);
    StartsAtFirstPoll(Initial(n), steps, r, g, i);
    PolledSeqs(g, r, i);
    AfterKeeps(g.seqs[i], r);
    hide Run, AfterEmission;
    if g.held.NoOutput? { FirstPoll(g, r); } else { LaterPoll(g, r); }
  }

  lemma {:induction false} SameCount(g: Group, steps: seq<Step>, r: Request, t: Group)
    requires Run(g, steps, r, t)
    ensures |t.seqs| == |g.seqs|
    decreases |steps|
  {
    if steps != [] {
      PolledRest(g, r);
      SameCount(Next(g, steps[0], r), steps[1..], r, t);
    }
  }

  /** A collector that is never emptied never fails, and its log probabilities are right
      after a poll exactly when they are not asked for or no sequence that has tokens was
      polled before its first one. */
  lemma WithoutTake(n: nat, steps: seq<Step>, r: Request, g: Group, t: Group)
    requires WellFormed(r) && Run(Initial(n), steps, r, g) && NoTake(steps) && t == Polled(g, r)
    ensures t.held.Output? && NothingTaken(t)
    ensures r.out.includeLogprobs ==> forall i: nat :: i < |t.seqs| ==>
      (LogprobsRight(t, i) <==> t.seqs[i].output == [] || TokensBeforePoll(steps, i) > 0)
  {
    InitialInv(n, r);
    RunInv(Initial(n), steps, r, g);
    RunWithoutTake(Initial(n), steps, r, g);
    StepWithoutTake(g, Poll, r);
    assert Next(g, Poll, r) == t;
    hide Run, Inv, WellFormed, Polled, LogprobsRight, Next;
    PolledRest(g, r);
    PollInv(g, r);
    PolledShape(g, r);
    SameCount(Initial(n), steps, r, g);
    forall i: nat | r.out.includeLogprobs && i < |t.seqs|
      ensures LogprobsRight(t, i) <==> t.seqs[i].output == [] || TokensBeforePoll(steps, i) > 0
    {
      LogprobsRightIff(n, steps, r, g, t, i);
      EarlyByTokens(n, steps, r, g, t, i);
    }
  }

  // ------------------------------------------------------- Joining a stream part-way

  /** A client that starts from an arbitrary poll can merge the next part exactly when log
      probabilities are not asked for, the sequence had no token at the first poll, that
      poll returned a token, or the next one does not. */
  lemma LateClientMergesIff(
      v: SeqView<nat>, w: SeqView<nat>, before: seq<Logprobs>, after: seq<Logprobs>, own: seq<Logprobs>,
      store: Lists, i: nat, r: Request, slot: nat, nextSlot: nat)
    requires r.out.delta && v.list == i && w.list == i && ListOk(v, before, own)
    requires ListOk(w, after, Items(store, Some(i)))
    requires v.output <= w.output && w.tokenOffset == |v.output|
    requires Items(store, Some(nextSlot)) == after[w.tokenOffset..]
    ensures var c, e := Emission(v, own, i, r.out, slot), Emission(w, Items(store, Some(i)), i, r.out, nextSlot);
            CanMerge(store, c, e) <==>
            !r.out.includeLogprobs || v.output == [] || v.tokenOffset < |v.output| || w.output == v.output
  {
    PartListIs(v, before, own, i, slot, r);
    PartListIs(w, after, Items(store, Some(i)), i, nextSlot, r);
    hide Emission, EmittedList;
    if w.output == [] { assert Items(store, Some(i)) == []; }
  }

  // -------------------------------------------------------------- Shared lists, in small

  lemma FirstPollOfNew(r: Request)
    requires WellFormed(r) && r.out.includeLogprobs
    ensures var g := Polled(Initial(1), r);
            && Inv(g, r) && g.held.Output? && |g.held.outs| == |g.seqs| == |g.history| == 1
            && g.held.outs[0].list == Some(0) && g.held.outs[0].tokenIds == [] && g.seqs[0] == Fresh(0)
            && Items(g.store, Some(0)) == [] && g.history[0] == []
  {
    var g := Initial(1);
    hide Inv, Polled, WellFormed, WithCopies, EmittedText, EmittedTokens;
    hide EmittedList, SeqsOk, MemoryOk, Outputs, OwnItems;
    InitialInv(1, r);
    InvParts(g, r);
    PollInv(g, r);
    FirstPoll(g, r);
    PolledSeqs(g, r, 0);
    PolledRest(g, r);
    NewSeqPolled(r);
    PartAt(g, r, 0);
    CopiesAreNew(g, r);
    hide AfterEmission;
    FirstStreamedAt(g, r, 0, AfterEmission(g.seqs[0], r.out));
  }

  lemma NewSeqPolled(r: Request)
    ensures AfterEmission(Fresh(0), r.out) == Fresh(0)
  {
  }

  ghost predicate SharesOne(g: Group, entries: seq<Logprobs>, r: Request) {
    && Inv(g, r) && g.held.Output? && |g.held.outs| == |g.seqs| == |g.history| == 1
    && g.held.outs[0].list == Some(0) && g.held.outs[0].tokenIds == [] && g.seqs[0].tokenOffset == 0
    && Items(g.store, Some(0)) == entries == g.history[0] && |g.seqs[0].output| == |entries|
  }

  /** A generated entry shows up in the list that was handed out. */
  lemma GenerateShared(g: Group, step: Step, r: Request)
    requires WellFormed(r) && SharesOne(g, [], r) && step.Generate? && step.i == 0 && Enabled(g, step, r)
    ensures SharesOne(Next(g, step, r), [step.logprobs], r)
  {
    GenerateInv(g, step, r);
    GenerateOk(g.seqs[0], step, r);
    hide Inv, WellFormed, Checked, Appended;
    assert g.seqs[0].list == 0 by { InvAt(g, r, 0); AtIndex(g, r, 0); }
  }

  /** One token and two entries. */
  predicate Doubled(t: Group, entry: Logprobs) {
    && t.held.Output? && |t.held.outs| == 1 && |t.held.outs[0].tokenIds| == 1
    && Items(t.store, t.held.outs[0].list) == [entry, entry] == Items(t.store, Some(0))
  }

  lemma SharedDoubles(t: Group, own: seq<Logprobs>, entries: seq<Logprobs>, entry: Logprobs)
    requires t.held.Output? && |t.held.outs| == 1 && |t.held.outs[0].tokenIds| == 1
    requires t.held.outs[0].list == Some(0) && own == entries == [entry] && Items(t.store, Some(0)) == own + entries
    ensures Doubled(t, entry)
  {
  }

  lemma PollShared(g: Group, entry: Logprobs, r: Request)
    requires WellFormed(r) && r.out.includeLogprobs && SharesOne(g, [entry], r) && |g.seqs[0].output| == 1
    requires Polled(g, r).held.Output?
    ensures Doubled(Polled(g, r), entry)
  {
    hide Inv, WellFormed, Polled, SeqsOk, MemoryOk, WithCopies, Outputs;
    hide Emission, OwnItems, SeqOk, ListOk, Doubled, BatchAt;
    InvAt(g, r, 0);
    PolledShape(g, r);
    PartAt(g, r, 0);
    CopiesAreNew(g, r);
    LaterLists(g, r, 0);
    LaterOutAt(g, r, 0);
    PartOneToken(g, r);
    hide PartList;
    SharedDoubles(Polled(g, r), [entry], g.history[0][0..], entry);
  }

  lemma PartOneToken(g: Group, r: Request)
    requires WellFormed(r) && |g.seqs| == 1 && g.seqs[0].tokenOffset == 0
    ensures |Outputs(g, r)[0].tokenIds| == |g.seqs[0].output|
  {
    hide WithCopies, EmittedText, EmittedList;
  }

  lemma SharedPollSucceeds(g: Group, entries: seq<Logprobs>, r: Request)
    requires WellFormed(r) && SharesOne(g, entries, r)
    ensures Polled(g, r).held.Output?
  {
    InvAt(g, r, 0);
    NotStalled(g, r);
    hide Inv, WellFormed, Polled, FailsAt, BatchAt;
    LaterPoll(g, r);
  }

  lemma NotStalled(g: Group, r: Request)
    requires |g.history| == 1 && SharesOne(g, g.history[0], r)
    ensures |g.held.starts| == 1 && !FailsAt(g, 0, r)
  {
    InvAt(g, r, 0);
  }

  lemma RunOfThree(g: Group, a: Step, b: Step, c: Step, r: Request)
    requires Enabled(g, a, r) && Enabled(Next(g, a, r), b, r) && Enabled(Next(Next(g, a, r), b, r), c, r)
    ensures Run(g, [a, b, c], r, Next(Next(Next(g, a, r), b, r), c, r))
  {
    hide Next, Enabled;
    assert [a, b, c][1..] == [b, c] && [b, c][1..] == [c] && [c][1..] == [];
    var t := Next(Next(Next(g, a, r), b, r), c, r);
    assert Run(t, [], r, t);
    assert Run(Next(Next(g, a, r), b, r), [c], r, t);
    assert Run(Next(g, a, r), [b, c], r, t);
  }

  lemma RunOfPolls(g: Group, step: Step, r: Request)
    requires Enabled(Polled(g, r), step, r)
    ensures Run(g, [Poll, step, Poll], r, Polled(Next(Polled(g, r), step, r), r))
  {
    hide Polled, Run;
    assert Next(g, Poll, r) == Polled(g, r);
    RunOfThree(g, Poll, step, Poll, r);
  }

  /** One poll before the first token and one after it leave the collector, and the
      sequence itself, with two entries for one token. */
  lemma PollGeneratePoll(r: Request, token: int, entry: Logprobs, logprob: real, piece: string) returns (t: Group)
    requires WellFormed(r) && r.out.includeLogprobs && StopFree(piece, r.stops)
    ensures Run(Initial(1), [Poll, Generate(0, token, entry, logprob, piece, Nothing), Poll], r, t)
    ensures Doubled(t, entry)
  {
    var g, step := Polled(Initial(1), r), Generate(0, token, entry, logprob, piece, Nothing);
    FirstPollOfNew(r);
    GenerateEnabled(g, step, r);
    hide Inv, WellFormed, Polled, Run, StopFree;
    GenerateShared(g, step, r);
    hide Next, Enabled, Doubled;
    SharedPollSucceeds(Next(g, step, r), [entry], r);
    PollShared(Next(g, step, r), entry, r);
    t := Polled(Next(g, step, r), r);
    RunOfPolls(Initial(1), step, r);
  }

  lemma GenerateEnabled(g: Group, step: Step, r: Request)
    requires |g.seqs| == |g.history| == 1 && g.seqs[0] == Fresh(0)
    requires step.Generate? && step.i == 0 && step.found == Nothing && StopFree(step.piece, r.stops)
    ensures Enabled(g, step, r)
  {
    assert "" + step.piece == step.piece;
  }

  lemma TakeThenGenerate(g: Group, step: Step, r: Request)
    requires Inv(g, r) && |g.seqs| == |g.history| == 1 && g.held.Output? && |g.held.outs| == 1
    requires g.seqs[0] == Fresh(0) && Items(g.store, Some(0)) == []
    requires step.Generate? && step.i == 0 && step.found == Nothing && StopFree(step.piece, r.stops)
    ensures Enabled(g, Take, r) && Enabled(Next(g, Take, r), step, r)
    ensures Items(Next(Next(g, Take, r), step, r).store, Some(0)) == [step.logprobs]
  {
    InvParts(g, r);
    hide Inv, StopFree;
    GenerateEnabled(Next(g, Take, r), step, r);
    hide Checked, Appended;
  }

  /** An output that is taken before the first token has an entry once there is one. */
  lemma TakenListGrows(r: Request, token: int, entry: Logprobs, logprob: real, piece: string)
    returns (taken: Completion<nat>, t: Group)
    requires WellFormed(r) && r.out.includeLogprobs && StopFree(piece, r.stops)
    ensures Run(Initial(1), [Poll, Take, Generate(0, token, entry, logprob, piece, Nothing)], r, t)
    ensures taken.tokenIds == [] && Items(t.store, taken.list) == [entry]
  {
    hide Inv, WellFormed, Polled, Run, StopFree, Next, Enabled, Items, Initial;
    var g, step := Polled(Initial(1), r), Generate(0, token, entry, logprob, piece, Nothing);
    FirstPollOfNew(r);
    TakeThenGenerate(g, step, r);
    PollIsNext(Initial(1), r);
    taken, t := g.held.outs[0], Next(Next(g, Take, r), step, r);
    RunOfThree(Initial(1), Poll, Take, step, r);
  }

  lemma PollIsNext(g: Group, r: Request)
    ensures Enabled(g, Poll, r) && Next(g, Poll, r) == Polled(g, r)
  {
    hide Polled;
  }

  // -------------------------------------------------------------- A failure, in small

  /** One running sequence with its text and the number of its tokens. */
  ghost predicate OneSeq(g: Group, text: string, tokens: nat, r: Request) {
    && Inv(g, r) && |g.seqs| == |g.history| == 1
    && g.seqs[0].text == text && |g.seqs[0].output| == tokens && g.seqs[0].status == Waiting
  }

  lemma GenerateOne(g: Group, text: string, tokens: nat, step: Step, r: Request)
    requires WellFormed(r) && OneSeq(g, text, tokens, r) && step.Generate? && step.i == 0 && step.found == Nothing
    requires StopFree(text + step.piece, r.stops)
    ensures Enabled(g, step, r) && OneSeq(Next(g, step, r), text + step.piece, tokens + 1, r)
    ensures Next(g, step, r).held == g.held && Next(g, step, r).seqs[0].tokenOffset == g.seqs[0].tokenOffset
  {
    hide Inv, WellFormed, StopFree;
    GenerateInv(g, step, r);
  }

  lemma PollOne(g: Group, text: string, tokens: nat, r: Request)
    requires WellFormed(r) && OneSeq(g, text, tokens, r) && g.held.NoOutput?
    ensures OneSeq(Polled(g, r), text, tokens, r) && Polled(g, r).seqs[0].tokenOffset == tokens
    ensures Polled(g, r).held.Output? && |Polled(g, r).held.outs| == |Polled(g, r).given| == 1
    ensures Polled(g, r).held.starts == [Start(g.seqs[0].textOffset, g.seqs[0].tokenOffset, tokens)]
  {
    assert r.out.delta;
    hide Inv, WellFormed, Polled, Outputs, WithCopies, SeqsOk, MemoryOk, OwnItems;
    InvParts(g, r);
    PollInv(g, r);
    FirstPoll(g, r);
    PolledRest(g, r);
    PolledSeqs(g, r, 0);
    AfterKeeps(g.seqs[0], r);
  }

  lemma AfterKeeps(v: SeqView<nat>, r: Request)
    ensures var w := AfterEmission(v, r.out); w.output == v.output && w.text == v.text && w.status == v.status
    ensures r.out.delta ==> AfterEmission(v, r.out).tokenOffset == |v.output|
  {
  }

  lemma TakeOne(g: Group, text: string, tokens: nat, r: Request)
    requires OneSeq(g, text, tokens, r) && g.held.Output? && |g.held.outs| == |g.given| == 1
    ensures Enabled(g, Take, r) && OneSeq(Next(g, Take, r), text, tokens, r) && Next(g, Take, r).held.NoOutput?
    ensures Next(g, Take, r).seqs == g.seqs
  {
    hide Inv;
    TakeInv(g, r);
  }

  lemma RunStep(g: Group, step: Step, steps: seq<Step>, r: Request, t: Group)
    requires Enabled(g, step, r) && Run(Next(g, step, r), steps, r, t)
    ensures Run(g, [step] + steps, r, t)
  {
    hide Next, Enabled;
    assert ([step] + steps)[1..] == steps;
  }

  /** A batch that begins without a new token fails at the next one. */
  lemma StalledFails(g: Group, text: string, r: Request)
    requires WellFormed(r) && r.out.includeLogprobs && OneSeq(g, text, 2, r) && g.held.Output?
    requires |g.held.starts| == 1 && g.held.starts[0].tokenFrom == g.held.starts[0].tokenAt == 1
    requires g.seqs[0].tokenOffset == 1
    ensures Polled(g, r).held.Crashed?
  {
    assert FailsAt(g, 0, r);
    hide Inv, WellFormed, Polled, FailsAt;
    LaterPoll(g, r);
  }

  /** The run from the first poll on. */
  lemma FromFirstPoll(g: Group, text: string, second: Step, r: Request) returns (t: Group)
    requires WellFormed(r) && r.out.includeLogprobs && OneSeq(g, text, 1, r) && g.held.NoOutput?
    requires second.Generate? && second.i == 0 && second.found == Nothing && StopFree(text + second.piece, r.stops)
    ensures Run(g, [Poll, Take, Poll, second, Poll], r, t) && t.held.Crashed?
  {
    hide OneSeq, Inv, WellFormed, Next, Enabled, Polled, StopFree, Run;
    var g2 := Polled(g, r);
    PollOne(g, text, 1, r);
    PollIsNext(g, r);
    TakeOne(g2, text, 1, r);
    var g3 := Next(g2, Take, r);
    var g4 := Polled(g3, r);
    PollOne(g3, text, 1, r);
    PollIsNext(g3, r);
    GenerateOne(g4, text, 1, second, r);
    var g5 := Next(g4, second, r);
    t := Polled(g5, r);
    StalledFails(g5, text + second.piece, r);
    PollIsNext(g5, r);
    RunOfNone(t, r);
    assert [Poll] == [Poll] + [] && [second, Poll] == [second] + [Poll];
    assert [Poll, second, Poll] == [Poll] + [second, Poll];
    assert [Take, Poll, second, Poll] == [Take] + [Poll, second, Poll];
    assert [Poll, Take, Poll, second, Poll] == [Poll] + [Take, Poll, second, Poll];
    RunStep(g5, Poll, [], r, t);
    RunStep(g4, second, [Poll], r, t);
    RunStep(g3, Poll, [second, Poll], r, t);
    RunStep(g2, Take, [Poll, second, Poll], r, t);
    RunStep(g, Poll, [Take, Poll, second, Poll], r, t);
  }

  lemma RunOfNone(g: Group, r: Request)
    ensures Run(g, [], r, g)
  {
  }

  /** A token, a poll, a take, a poll without a new token, a token, a poll: the last poll
      fails when log probabilities are asked for. */
  lemma StalledBatchFails(r: Request, first: Step, second: Step) returns (t: Group)
    requires WellFormed(r) && r.out.includeLogprobs
    requires first.Generate? && first.i == 0 && first.found == Nothing && StopFree(first.piece, r.stops)
    requires second.Generate? && second.i == 0 && second.found == Nothing
    requires StopFree(first.piece + second.piece, r.stops)
    ensures Run(Initial(1), [first, Poll, Take, Poll, second, Poll], r, t) && t.held.Crashed?
  {
    hide OneSeq, Inv, WellFormed, Next, Enabled, Polled, StopFree, Run, Initial;
    NewIsOne(r);
    assert "" + first.piece == first.piece;
    GenerateOne(Initial(1), "", 0, first, r);
    t := FromFirstPoll(Next(Initial(1), first, r), first.piece, second, r);
    RunStep(Initial(1), first, [Poll, Take, Poll, second, Poll], r, t);
    assert [first, Poll, Take, Poll, second, Poll] == [first] + [Poll, Take, Poll, second, Poll];
  }

  lemma NewIsOne(r: Request)
    requires WellFormed(r)
    ensures OneSeq(Initial(1), "", 0, r) && Initial(1).held.NoOutput?
  {
    InitialInv(1, r);
    hide Inv;
  }

  // ---------------------------------------------------------------- No stop-string leak

  lemma StepKeepsReturned(g: Group, step: Step, r: Request, i: nat)
    requires WellFormed(r) && SeqsOk(g, r) && Enabled(g, step, r) && i < |g.seqs|
    ensures |Next(g, step, r).seqs| == |g.seqs| && SeqsOk(Next(g, step, r), r)
    ensures var v, w := g.seqs[i], Next(g, step, r).seqs[i];
            && v.textOffset <= w.textOffset <= |w.text| && v.textOffset <= |v.text|
            && v.text[..v.textOffset] == w.text[..v.textOffset]
  {
    match step
    case Generate(k, _, _, _, _, _) =>
      GenerateOk(g.seqs[k], step, r);
      hide Checked, Appended, WellFormed;
    case Finish(_, _) =>
    case Poll =>
      PolledSeqsOk(g, r);
      PolledSeqs(g, r, i);
      PolledRest(g, r);
      EmissionOk(g.seqs[i], [], i, r, 0);
      hide Polled, AfterEmission, WellFormed;
    case Take =>
  }

  /** Whatever text a client has been given at some point of a run is a prefix of the
      text the sequence has at every later point, in particular of the text as cut at a
      stop string. */
  lemma {:induction false} ReturnedTextIsPrefix(g: Group, steps: seq<Step>, r: Request, t: Group, i: nat)
    requires WellFormed(r) && SeqsOk(g, r) && Run(g, steps, r, t) && i < |g.seqs|
    ensures |t.seqs| == |g.seqs| && g.seqs[i].textOffset <= |g.seqs[i].text|
    ensures g.seqs[i].text[..g.seqs[i].textOffset] <= t.seqs[i].text
    decreases |steps|
  {
    if steps == [] {
      assert SeqOk(g.seqs[i], r);
    } else {
      hide Next, Enabled, WellFormed, SeqsOk;
      StepKeepsReturned(g, steps[0], r, i);
      ReturnedTextIsPrefix(Next(g, steps[0], r), steps[1..], r, t, i);
    }
  }

  /** Once all sequences have finished, a poll that does not fail completes what the client
      is given to their full texts, each cut at its stop string if one ended it. */
  lemma FinalTextIsDelivered(n: nat, steps: seq<Step>, r: Request, g: Group, t: Group, i: nat)
    requires WellFormed(r) && Run(Initial(n), steps, r, g) && AllFinished(g.seqs) && i < |g.seqs|
    requires t == Polled(g, r) && !t.held.Crashed?
    ensures IsCumulative(t, i, r) && t.held.finished && i < |g.seqs| == |t.seqs|
    ensures t.given[i].text + t.held.outs[i].text == g.seqs[i].text
    ensures t.given[i].tokenIds + t.held.outs[i].tokenIds == g.seqs[i].output
  {
    assert g.held.Crashed? ==> t.held.Crashed?;
    DeltaStreamIsCumulative(n, steps, r, g);
    hide Run, WellFormed, Polled, FailsAt;
    PolledRest(g, r);
    PolledSeqs(g, r, i);
    AfterKeeps(g.seqs[i], r);
    hide AfterEmission;
    assert IsCumulative(t, i, r) && IsFinished(g.seqs[i].status);
  }

}
