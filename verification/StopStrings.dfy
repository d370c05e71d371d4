/** Stop strings and the characters held back for them.

    While a sequence runs, the last output_text_buffer_length characters of its text are
    not returned, because a stop string may still be forming there.  When a stop string
    appears the text is cut and everything left is returned. */
module StopStrings {
  import opened Common

  // -------------------------------------------------------------- Sampling parameters

  datatype OutputKind = Cumulative | DeltaOnly | FinalOnly

  /** The stop argument: absent, one string, or a list. */
  datatype StopArg = NoStop | OneStop(s: string) | ManyStops(list: seq<string>)

  function StopList(arg: StopArg): seq<string> {
    match arg
    case NoStop => []
    case OneStop(s) => [s]
    case ManyStops(list) => list
  }

  function Longest(stops: seq<string>): (n: nat)
    ensures forall s | s in stops :: |s| <= n
  {
    if stops == [] then 0
    else
      var rest := Longest(stops[1..]);
      assert forall s | s in stops :: s == stops[0] || s in stops[1..];
      if rest < |stops[0]| then |stops[0]| else rest
  }

  const SAMPLING_EPS := 0.00001
  const MAX_TEMP := 0.01

  /** The numeric arguments. */
  datatype Numbers = Numbers(presencePenalty: real, frequencyPenalty: real, repetitionPenalty: real, temperature: real,
                             topP: real, topK: int, minP: real, maxTokens: Option<int>, minTokens: int,
                             logprobs: Option<int>, promptLogprobs: Option<int>, truncatePromptTokens: Option<int>)

  predicate InRange(a: Numbers) {
    && -2.0 <= a.presencePenalty <= 2.0 && -2.0 <= a.frequencyPenalty <= 2.0 && a.repetitionPenalty > 0.0
    && a.temperature >= 0.0 && 0.0 < a.topP <= 1.0 && a.topK >= -1 && 0.0 <= a.minP <= 1.0
    && (a.maxTokens.Some? ==> a.maxTokens.value >= 1 && a.minTokens <= a.maxTokens.value) && a.minTokens >= 0
    && (a.logprobs.Some? ==> a.logprobs.value >= 0) && (a.promptLogprobs.Some? ==> a.promptLogprobs.value >= 0)
    && (a.truncatePromptTokens.Some? ==> a.truncatePromptTokens.value >= 1)
  }

  /** Very small temperatures are raised. */
  function Raised(a: Numbers): Numbers {
    if 0.0 < a.temperature < MAX_TEMP then a.(temperature := MAX_TEMP) else a
  }

  /** Temperature zero is greedy sampling. */
  function Settled(a: Numbers): Numbers {
    if a.temperature == 0.0 then a.(topP := 1.0, topK := 0, minP := 0.0) else Raised(a)
  }

  /** Arguments that are accepted. */
  const PlainNumbers := Numbers(0.0, 0.0, 1.0, 1.0, 1.0, 0, 0.0, Some(16), 0, None, None, None)

  /** The bounds of every argument, the others being plain. */
  lemma RangeOfEach(x: real, j: int, k: int)
    ensures InRange(PlainNumbers.(presencePenalty := x)) <==> -2.0 <= x <= 2.0
    ensures InRange(PlainNumbers.(frequencyPenalty := x)) <==> -2.0 <= x <= 2.0
    ensures InRange(PlainNumbers.(repetitionPenalty := x)) <==> 0.0 < x
    ensures InRange(PlainNumbers.(temperature := x)) <==> 0.0 <= x
    ensures InRange(PlainNumbers.(topP := x)) <==> 0.0 < x <= 1.0
    ensures InRange(PlainNumbers.(topK := k)) <==> -1 <= k
    ensures InRange(PlainNumbers.(minP := x)) <==> 0.0 <= x <= 1.0
    ensures InRange(PlainNumbers.(maxTokens := Some(k), minTokens := j)) <==> 1 <= k && 0 <= j <= k
    ensures InRange(PlainNumbers.(maxTokens := None, minTokens := j)) <==> 0 <= j
    ensures InRange(PlainNumbers.(logprobs := Some(k))) <==> 0 <= k
    ensures InRange(PlainNumbers.(promptLogprobs := Some(k))) <==> 0 <= k
    ensures InRange(PlainNumbers.(truncatePromptTokens := Some(k))) <==> 1 <= k
  {
  }

  /** Arguments are accepted only one by one: whatever else is set, each bound holds. */
  lemma RangeIsEach(a: Numbers)
    ensures InRange(a) <==>
      && InRange(PlainNumbers.(presencePenalty := a.presencePenalty))
      && InRange(PlainNumbers.(frequencyPenalty := a.frequencyPenalty))
      && InRange(PlainNumbers.(repetitionPenalty := a.repetitionPenalty))
      && InRange(PlainNumbers.(temperature := a.temperature))
      && InRange(PlainNumbers.(topP := a.topP)) && InRange(PlainNumbers.(topK := a.topK))
      && InRange(PlainNumbers.(minP := a.minP))
      && InRange(PlainNumbers.(maxTokens := a.maxTokens, minTokens := a.minTokens))
      && InRange(PlainNumbers.(logprobs := a.logprobs))
      && InRange(PlainNumbers.(promptLogprobs := a.promptLogprobs))
      && InRange(PlainNumbers.(truncatePromptTokens := a.truncatePromptTokens))
  {
  }

  /** Settled arguments are greedy with all choices switched off, or have a temperature of
      at least a hundredth; they stay in range and do not settle further. */
  lemma SettledIsStable(a: Numbers)
    requires InRange(a)
    ensures var b := Settled(a);
            && InRange(b) && Settled(b) == b
            && b.(temperature := a.temperature, topP := a.topP, topK := a.topK, minP := a.minP) == a
            && (a.temperature == 0.0 ==> b.temperature == 0.0 && (b.topP, b.topK, b.minP) == (1.0, 0, 0.0))
            && (a.temperature > 0.0 ==> (b.topP, b.topK, b.minP) == (a.topP, a.topK, a.minP))
            && (a.temperature > 0.0 ==> b.temperature == if a.temperature < 0.01 then 0.01 else a.temperature)
  {
  }

  lemma RangeFacts(a: Numbers)
    ensures InRange(Raised(a)) <==> InRange(a)
    ensures InRange(a) ==> (Raised(a).temperature < SAMPLING_EPS <==> a.temperature == 0.0)
    ensures a.temperature == 0.0 ==> Raised(a) == a
    ensures a.temperature != 0.0 ==> Settled(a) == Raised(a)
  {
  }

  class SamplingParams {
    var n: int
    var bestOf: Option<int>
    var realN: Option<int>
    var numbers: Numbers
    var seed: Option<int>
    var stop: seq<string>
    const stopTokenIds: seq<int>
    var allStopTokenIds: set<int>
    const includeStopStrInOutput: bool
    const outputKind: OutputKind
    const detokenize: bool
    var outputTextBufferLength: int

    constructor (n: int, bestOf: Option<int>, numbers: Numbers, seed: Option<int>, stop: StopArg,
                 stopTokenIds: Option<seq<int>>, includeStop: bool, kind: OutputKind, detokenize: bool)
      ensures this.seed == seed && allStopTokenIds == {}
      ensures stop.NoStop? ==> this.stop == []
      ensures stop.OneStop? ==> this.stop == [stop.s]
      ensures stop.ManyStops? ==> this.stop == stop.list
      ensures this.stopTokenIds == if stopTokenIds.Some? then stopTokenIds.value else []
      ensures this.n == n && this.bestOf == bestOf && realN == None && this.stop == StopList(stop)
      ensures includeStopStrInOutput == includeStop && outputKind == kind && this.detokenize == detokenize
      ensures this.numbers == numbers && outputTextBufferLength == 0
    {
      this.n, this.bestOf, realN, this.stop := n, bestOf, None, StopList(stop);
      includeStopStrInOutput, outputKind, this.detokenize := includeStop, kind, detokenize;
      this.numbers, this.seed, outputTextBufferLength := numbers, seed, 0;
      this.stopTokenIds, allStopTokenIds := if stopTokenIds.Some? then stopTokenIds.value else [], {};
    }

    /** Whether best_of replaces n; zero counts as unset on both sides. */
    predicate BestOfApplies()
      reads this
    {
      bestOf.Some? && bestOf.value != 0 && (realN.None? || realN.value == 0)
    }

    /** n and _real_n as they will be. */
    function Counts(): (int, Option<int>)
      reads this
    {
      if BestOfApplies() then (bestOf.value, Some(n)) else (n, realN)
    }

    /** __post_init__; false stands for the ValueError of a failed check.  After a success
        a running sequence may return all but the last outputTextBufferLength characters. */
    method PostInit() returns (ok: bool)
      modifies this
      ensures ok <==>
        && old(Counts()).0 >= 1
        && (bestOf.Some? ==> bestOf.value >= 1 && bestOf.value >= old(n) && bestOf.value >= old(Counts()).0)
        && InRange(old(numbers)) && (old(numbers).temperature == 0.0 ==> old(Counts()).0 == 1)
        && "" !in stop && (stop != [] ==> detokenize)
        && (outputKind == DeltaOnly ==> bestOf == old(Counts()).1)
      ensures stop == old(stop) && bestOf == old(bestOf)
      ensures ok ==> (n, realN) == old(Counts()) && numbers == Settled(old(numbers))
      ensures ok ==>
        (n, realN) == if bestOf.Some? && bestOf.value != 0 && (old(realN) == None || old(realN) == Some(0))
                      then (bestOf.value, Some(old(n))) else (old(n), old(realN))
      ensures ok ==> seed == if old(seed) == Some(-1) then None else old(seed)
      ensures allStopTokenIds == old(allStopTokenIds) + if ok then (set t | t in stopTokenIds) else {}
      ensures stop != [] && !includeStopStrInOutput && ok ==>
        outputTextBufferLength == Longest(stop) - 1 >= 0 && Safe(stop, outputTextBufferLength)
      ensures stop == [] || includeStopStrInOutput ==> outputTextBufferLength == old(outputTextBufferLength)
    {
      hide Longest, Safe, InRange, Counts, BestOfApplies, Raised;
      RangeFacts(numbers);
      var prepared := Prepare();
      if !prepared {
        return false;
      }
      var valid := VerifyArgs();
      if !valid {
        return false;
      }
      if numbers.temperature < SAMPLING_EPS {
        numbers := numbers.(topP := 1.0, topK := 0, minP := 0.0);
        if n > 1 {
          return false;
        }
      }
      if stop != [] {
        LongestMinusOneIsSafe(stop);
      }
      allStopTokenIds := allStopTokenIds + (set t | t in stopTokenIds);
      ok := true;
    }

    /** The part before the arguments are checked. */
    method Prepare() returns (ok: bool)
      modifies this`n, this`realN, this`numbers, this`seed, this`outputTextBufferLength
      ensures ok <==> (bestOf.Some? && bestOf.value != 0 ==> bestOf.value >= old(n))
      ensures ok ==> (n, realN) == old(Counts()) && numbers == Raised(old(numbers))
      ensures ok ==>
        (n, realN) == if bestOf.Some? && bestOf.value != 0 && (old(realN) == None || old(realN) == Some(0))
                      then (bestOf.value, Some(old(n))) else (old(n), old(realN))
      ensures ok ==> seed == if old(seed) == Some(-1) then None else old(seed)
      ensures outputTextBufferLength ==
        if ok && stop != [] && !includeStopStrInOutput then Longest(stop) - 1 else old(outputTextBufferLength)
    {
      ok := ApplyBestOf();
      if !ok {
        return;
      }
      if 0.0 < numbers.temperature < MAX_TEMP {
        numbers := numbers.(temperature := MAX_TEMP);
      }
      if seed == Some(-1) {
        seed := None;
      }
      if stop != [] && !includeStopStrInOutput {
        outputTextBufferLength := Longest(stop) - 1;
      }
    }

    /** best_of takes the place of n, which is remembered, unless that was done before. */
    method ApplyBestOf() returns (ok: bool)
      modifies this`n, this`realN
      ensures ok <==> (bestOf.Some? && bestOf.value != 0 ==> bestOf.value >= old(n))
      ensures (n, realN) == if ok then old(Counts()) else (old(n), old(realN))
      ensures ok ==>
        (n, realN) == if bestOf.Some? && bestOf.value != 0 && (old(realN) == None || old(realN) == Some(0))
                      then (bestOf.value, Some(old(n))) else (old(n), old(realN))
    {
      if bestOf.Some? && bestOf.value != 0 {
        if bestOf.value < n {
          return false;
        }
        if realN == None || realN.value == 0 {
          realN := Some(n);
          n := bestOf.value;
        }
      }
      ok := true;
    }

    method VerifyArgs() returns (ok: bool)
      ensures ok <==>
        && n >= 1 && (bestOf.Some? ==> bestOf.value >= 1 && bestOf.value >= n) && InRange(numbers)
        && "" !in stop && (stop != [] ==> detokenize) && (outputKind == DeltaOnly ==> bestOf == realN)
    {
      if n < 1 || (bestOf.Some? && (bestOf.value < 1 || bestOf.value < n)) {
        return false;
      }
      if !InRange(numbers) {
        return false;
      }
      if "" in stop || (stop != [] && !detokenize) {
        return false;
      }
      ok := bestOf == realN || outputKind != DeltaOnly;
    }
  }

  // ------------------------------------------------------------------- Occurrences

  ghost predicate StopFree(text: string, stops: seq<string>) {
    forall s, p: nat | s in stops :: !OccursAt(text, s, p)
  }

  /** What a running sequence may have returned of its text. */
  function VisibleLength(text: string, buffer: nat): nat {
    if buffer <= |text| then |text| - buffer else 0
  }

  /** Holding back buffer characters is safe when a stop string that appears after the
      next piece of text never starts inside what was visible before it. */
  ghost predicate Safe(stops: seq<string>, buffer: nat) {
    forall text: string, piece: string, s, p: nat |
      s in stops && StopFree(text, stops) && OccursAt(text + piece, s, p) :: VisibleLength(text, buffer) <= p
  }

  /** Every proper prefix of a stop string that contains no stop string fits. */
  ghost predicate PrefixesFit(stops: seq<string>, buffer: nat) {
    forall s, k: nat | s in stops && k < |s| && StopFree(s[..k], stops) :: k <= buffer
  }

  lemma SubstringStopFree(text: string, stops: seq<string>, i: nat, j: nat)
    requires StopFree(text, stops) && i <= j <= |text|
    ensures StopFree(text[i..j], stops)
  {
    forall s, p: nat | s in stops ensures !OccursAt(text[i..j], s, p) {
      assert !OccursAt(text, s, i + p);
      if p + |s| <= j - i {
        SliceOfSlice(text, i, j, p, p + |s|);
      }
    }
  }

  lemma InsideText(text: string, piece: string, s: string, p: nat)
    requires OccursAt(text + piece, s, p) && p + |s| <= |text|
    ensures OccursAt(text, s, p)
  {
    assert text[p..p + |s|] == (text + piece)[p..p + |s|];
  }

  lemma FitIsSafe(stops: seq<string>, buffer: nat, text: string, piece: string, s: string, p: nat)
    requires PrefixesFit(stops, buffer)
    requires s in stops && StopFree(text, stops) && OccursAt(text + piece, s, p)
    ensures VisibleLength(text, buffer) <= p
  {
    if p < |text| {
      var k := |text| - p;
      if |s| <= k {
        InsideText(text, piece, s, p);
      } else {
        assert s[..k] == (text + piece)[p..p + |s|][..k] == text[p..|text|];
        SubstringStopFree(text, stops, p, |text|);
      }
    }
  }

  /** The exact size of a safe hold-back. */
  lemma SafeIffPrefixesFit(stops: seq<string>, buffer: nat)
    ensures Safe(stops, buffer) <==> PrefixesFit(stops, buffer)
  {
    if Safe(stops, buffer) {
      forall s, k: nat | s in stops && k < |s| && StopFree(s[..k], stops) ensures k <= buffer {
        assert s[..k] + s[k..] == s;
        assert OccursAt(s[..k] + s[k..], s, 0);
      }
    }
    if PrefixesFit(stops, buffer) {
      forall text: string, piece: string, s, p: nat |
        s in stops && StopFree(text, stops) && OccursAt(text + piece, s, p)
        ensures VisibleLength(text, buffer) <= p
      {
        FitIsSafe(stops, buffer, text, piece, s, p);
      }
    }
  }

  lemma LongestOne(stops: seq<string>) returns (s: string)
    requires stops != []
    ensures s in stops && |s| == Longest(stops)
  {
    s := stops[0];
    if |stops| > 1 && |s| <= Longest(stops[1..]) {
      s := LongestOne(stops[1..]);
    }
  }

  /** The hold-back that __post_init__ chooses, one less than the longest stop string,
      is safe; for a single stop string nothing smaller is. */
  lemma LongestMinusOneIsSafe(stops: seq<string>)
    requires stops != [] && "" !in stops
    ensures Longest(stops) > 0 && Safe(stops, Longest(stops) - 1)
    ensures |stops| == 1 ==> forall buffer: nat :: Safe(stops, buffer) ==> buffer >= Longest(stops) - 1
  {
    var longest := LongestOne(stops);
    SafeIffPrefixesFit(stops, Longest(stops) - 1);
    if |stops| == 1 {
      forall buffer: nat | Safe(stops, buffer) ensures buffer >= Longest(stops) - 1 {
        SafeIffPrefixesFit(stops, buffer);
        assert StopFree(longest[..|longest| - 1], stops);
      }
    }
  }
}
