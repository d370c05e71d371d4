/** Masking the tokens that would complete a bad word, and what that means for a whole
    run of sampling. */
module BadWords {
  import opened Common

  datatype Result<+T> = Ok(value: T) | Err(error: Error)
  datatype Error = ValueError(invalidTokenIds: seq<int>) | IndexError | ShapeError
  // --------------------------------------------------------------------------- Logits

  datatype Logit = NegInf | Fin(value: real) | PosInf | NaN

  /** Addition of extended reals: opposite infinities give no number. */
  function Plus(a: Logit, b: Logit): Logit {
    if a.NaN? || b.NaN? || (a.PosInf? && b.NegInf?) || (a.NegInf? && b.PosInf?) then NaN
    else if a.NegInf? || b.NegInf? then NegInf
    else if a.PosInf? || b.PosInf? then PosInf
    else Fin(a.value + b.value)
  }

  function Bias(masked: bool): Logit {
    if masked then NegInf else Fin(0.0)
  }

  // ------------------------------------------------------------------------ Bad words

  type Word = seq<int>

  /** Token v after the past tokens makes them end in the word. */
  predicate Completes(word: Word, past: seq<int>, v: int) {
    word != [] && |word| <= |past| + 1 && (past + [v])[|past| + 1 - |word|..] == word
  }

  predicate Banned(words: seq<Word>, past: seq<int>, v: int) {
    exists i :: 0 <= i < |words| && Completes(words[i], past, v)
  }

  /** What a caller gets for one step. */
  function Masked(words: seq<Word>, past: seq<int>, logits: seq<Logit>): (r: seq<Logit>)
    ensures |r| == |logits|
  {
    seq(|logits|, v requires 0 <= v < |logits| => Plus(logits[v], Bias(Banned(words, past, v))))
  }

  function InvalidIn(word: Word, vocabSize: nat): seq<int> {
    if word == [] then []
    else
      var before, last := InvalidIn(word[..|word| - 1], vocabSize), word[|word| - 1];
      if 0 <= last < vocabSize then before else before + [last]
  }

  /** The offending token ids, in the order in which they are reported. */
  function InvalidTokens(words: seq<Word>, vocabSize: nat): seq<int> {
    if words == [] then []
    else InvalidTokens(words[..|words| - 1], vocabSize) + InvalidIn(words[|words| - 1], vocabSize)
  }

  predicate InBounds(words: seq<Word>, vocabSize: nat) {
    forall i, j :: 0 <= i < |words| && 0 <= j < |words[i]| ==> 0 <= words[i][j] < vocabSize
  }

  lemma {:induction false} InvalidInExact(word: Word, vocabSize: nat)
    ensures forall t :: t in InvalidIn(word, vocabSize) <==> t in word && !(0 <= t < vocabSize)
    ensures InvalidIn(word, vocabSize) == [] <==> forall j :: 0 <= j < |word| ==> 0 <= word[j] < vocabSize
  {
    if word != [] {
      InvalidInExact(word[..|word| - 1], vocabSize);
      assert word == word[..|word| - 1] + [word[|word| - 1]];
    }
  }

  /** A token is reported exactly when some word holds it and it is outside the
      vocabulary. */
  lemma {:induction false} ReportedIff(words: seq<Word>, vocabSize: nat, t: int)
    ensures t in InvalidTokens(words, vocabSize) <==>
      !(0 <= t < vocabSize) && exists i :: 0 <= i < |words| && t in words[i]
  {
    if words != [] {
      var init, last := words[..|words| - 1], words[|words| - 1];
      ReportedIff(init, vocabSize, t);
      InvalidInExact(last, vocabSize);
      hide InvalidIn;
      assert forall i :: 0 <= i < |init| ==> words[i] == init[i];
    }
  }

  /** Nothing is reported exactly when every token is in the vocabulary. */
  lemma {:induction false} NothingInvalidIff(words: seq<Word>, vocabSize: nat)
    ensures InvalidTokens(words, vocabSize) == [] <==> InBounds(words, vocabSize)
  {
    if words != [] {
      var init, last := words[..|words| - 1], words[|words| - 1];
      NothingInvalidIff(init, vocabSize);
      InvalidInExact(last, vocabSize);
      hide InvalidIn;
      assert InBounds(words, vocabSize) <==> InBounds(init, vocabSize) && InvalidIn(last, vocabSize) == [];
    }
  }

  // ------------------------------------------------------------------- The processor

  /** The bias for bad words of a single token. */
  function WordBias(words: seq<Word>, vocabSize: nat): (r: seq<Logit>)
    ensures |r| == vocabSize
  {
    seq(vocabSize, v requires 0 <= v < vocabSize => Bias([v] in words))
  }

  class NoBadWordsLogitsProcessor {
    const badWordsIds: seq<Word>
    var wordBias: Option<seq<Logit>>

    /** A cached bias is what would be computed afresh. */
    predicate Valid()
      reads this
    {
      wordBias.Some? ==>
        && InBounds(badWordsIds, |wordBias.value|)
        && wordBias.value == WordBias(badWordsIds, |wordBias.value|)
    }

    constructor (badWordsIds: seq<Word>)
      ensures Valid() && this.badWordsIds == badWordsIds && wordBias == None
    {
      this.badWordsIds := badWordsIds;
      wordBias := None;
    }

    method CheckTokenIdsBounds(vocabSize: nat) returns (r: Result<()>)
      ensures r == if InBounds(badWordsIds, vocabSize) then Ok(())
                   else Err(ValueError(InvalidTokens(badWordsIds, vocabSize)))
    {
      var invalid := [];
      for i := 0 to |badWordsIds|
        invariant invalid == InvalidTokens(badWordsIds[..i], vocabSize)
      {
        var word := badWordsIds[i];
        for j := 0 to |word|
          invariant invalid == InvalidTokens(badWordsIds[..i], vocabSize) + InvalidIn(word[..j], vocabSize)
        {
          assert word[..j + 1][..j] == word[..j];
          if word[j] < 0 || word[j] >= vocabSize {
            invalid := invalid + [word[j]];
          }
        }
        assert word[..|word|] == word;
        assert badWordsIds[..i + 1][..i] == badWordsIds[..i];
      }
      assert badWordsIds[..|badWordsIds|] == badWordsIds;
      NothingInvalidIff(badWordsIds, vocabSize);
      r := if |invalid| > 0 then Err(ValueError(invalid)) else Ok(());
    }

    method InitWordBias(vocabSize: nat) returns (r: Result<()>)
      requires Valid()
      modifies this`wordBias
      ensures Valid()
      ensures InBounds(badWordsIds, vocabSize) ==> r == Ok(()) && wordBias == Some(WordBias(badWordsIds, vocabSize))
      ensures !InBounds(badWordsIds, vocabSize) ==>
          r == Err(ValueError(InvalidTokens(badWordsIds, vocabSize))) && wordBias == old(wordBias)
    {
      r := CheckTokenIdsBounds(vocabSize);
      if r.Err? {
        return;
      }
      hide InvalidTokens;
      var bias := seq(vocabSize, _ => Fin(0.0));
      for i := 0 to |badWordsIds|
        invariant |bias| == vocabSize
        invariant forall v :: 0 <= v < vocabSize ==> bias[v] == Bias([v] in badWordsIds[..i])
      {
        var word := badWordsIds[i];
        assert badWordsIds[..i + 1] == badWordsIds[..i] + [word];
        if |word| == 1 {
          assert word == [word[0]];
          bias := bias[word[0] := NegInf];
        }
      }
      assert badWordsIds[..|badWordsIds|] == badWordsIds;
      wordBias := Some(bias);
    }

    /** The vocabulary size that the bias has, or will be given. */
    function BiasSize(logits: seq<Logit>): nat
      reads this
    {
      if wordBias.Some? then |wordBias.value| else |logits|
    }

    /** One step.  An empty bad word raises an index error, but only after the bias of the
        one-token words has been cached.  The cache keeps the size of the first logits;
        later logits of another size are checked only where they are indexed and added. */
    method Call(past: seq<int>, logits: seq<Logit>) returns (r: Result<seq<Logit>>)
      requires Valid()
      modifies this`wordBias
      ensures Valid()
      ensures !InBounds(badWordsIds, old(BiasSize(logits))) ==>
        r == Err(ValueError(InvalidTokens(badWordsIds, |logits|))) && wordBias == None == old(wordBias)
      ensures InBounds(badWordsIds, old(BiasSize(logits))) ==>
        && wordBias == Some(WordBias(badWordsIds, old(BiasSize(logits))))
        && r == Outcome(badWordsIds, past, logits, old(BiasSize(logits)))
    {
      if wordBias.None? {
        var checked := InitWordBias(|logits|);
        if checked.Err? {
          return Err(checked.error);
        }
      }
      hide InvalidTokens, Completes, WordBias, Masked, Added, IndexFails;
      ghost var n := |wordBias.value|;
      var lastTokenBias := seq(|logits|, _ => Fin(0.0));
      NoWords(past, |logits|);
      for i := 0 to |badWordsIds|
        invariant wordBias == Some(WordBias(badWordsIds, n)) && InBounds(badWordsIds, n)
        invariant |lastTokenBias| == |logits| && !IndexFails(badWordsIds[..i], past, |logits|)
        invariant forall v :: 0 <= v < |logits| ==> lastTokenBias[v] == Bias(EndsLong(badWordsIds[..i], past, v))
      {
        hide EndsLong;
        var word := badWordsIds[i];
        assert badWordsIds[..i + 1] == badWordsIds[..i] + [word];
        NextWord(badWordsIds, i, past);
        NextIndex(badWordsIds, i, past, |logits|);
        if |word| == 1 {
          continue;
        }
        if |word| > |past| + 1 {
          NotCompleted(word, past);
          continue;
        }
        if |word| == 0 {
          return Err(IndexError);
        }
        var prefixLength := |word| - 1;
        var lastTokenId := word[prefixLength];
        var actualPrefix := past[|past| - prefixLength..];
        var expectedPrefix := word[..prefixLength];
        if lastTokenId >= |logits| {
          return Err(IndexError);
        }
        CompletesIff(word, past);
        var isMatch := actualPrefix == expectedPrefix;
        lastTokenBias := lastTokenBias[lastTokenId := Plus(lastTokenBias[lastTokenId], Bias(isMatch))];
      }
      assert badWordsIds[..|badWordsIds|] == badWordsIds;
      assert lastTokenBias == LongBias(badWordsIds, past, |logits|);
      hide EndsLong, LongBias;
      if |logits| != |wordBias.value| && |logits| != 1 && |wordBias.value| != 1 {
        return Err(ShapeError);
      }
      var biased := Added(logits, wordBias.value);
      r := Ok(Added(biased, lastTokenBias));
      if |logits| == n { BothBiases(badWordsIds, past, logits); }
    }
  }

  /** A tensor of one element is added to every element of the other. */
  predicate Broadcasts(a: seq<Logit>, b: seq<Logit>) {
    |a| == |b| || |a| == 1 || |b| == 1
  }

  function Entry(a: seq<Logit>, v: nat): Logit
    requires |a| == 1 || v < |a|
  {
    if |a| == 1 then a[0] else a[v]
  }

  function Added(a: seq<Logit>, b: seq<Logit>): (r: seq<Logit>)
    requires Broadcasts(a, b)
    ensures |r| == if |a| == 1 then |b| else |a|
    ensures forall v :: 0 <= v < |r| ==> r[v] == Plus(Entry(a, v), Entry(b, v))
  {
    var size := if |a| == 1 then |b| else |a|;
    seq(size, v requires 0 <= v < size => Plus(Entry(a, v), Entry(b, v)))
  }

  /** The bias of one step for bad words of several tokens. */
  function LongBias(words: seq<Word>, past: seq<int>, size: nat): (r: seq<Logit>)
    ensures |r| == size && forall v :: 0 <= v < size ==> r[v] == Bias(EndsLong(words, past, v))
  {
    seq(size, v requires 0 <= v < size => Bias(EndsLong(words, past, v)))
  }

  /** Some word is empty, or is long enough to be compared and ends outside the logits. */
  predicate IndexFails(words: seq<Word>, past: seq<int>, size: nat) {
    exists i :: 0 <= i < |words| && FailsAt(words[i], past, size)
  }

  predicate FailsAt(word: Word, past: seq<int>, size: nat) {
    word == [] || (1 < |word| <= |past| + 1 && word[|word| - 1] >= size)
  }

  /** What a call returns once the bias has been cached for n tokens: the masked logits, if
      they are as many. */
  function Outcome(words: seq<Word>, past: seq<int>, logits: seq<Logit>, n: nat): Result<seq<Logit>> {
    if IndexFails(words, past, |logits|) then Err(IndexError)
    else if |logits| == n then Ok(Masked(words, past, logits))
    else if |logits| == 1 || n == 1 then
      Ok(Added(Added(logits, WordBias(words, n)), LongBias(words, past, |logits|)))
    else Err(ShapeError)
  }

  /** For logits of the cached size the only failure is an empty bad word. */
  lemma OutcomeOfSameSize(words: seq<Word>, past: seq<int>, logits: seq<Logit>)
    requires InBounds(words, |logits|)
    ensures Outcome(words, past, logits, |logits|)
         == if [] in words then Err(IndexError) else Ok(Masked(words, past, logits))
  {
    hide Masked;
    if [] in words {
      var i :| 0 <= i < |words| && words[i] == [];
      assert FailsAt(words[i], past, |logits|);
    }
  }

  /** When one entry meets many, a single logit is biased by every one-token word, and many
      logits by the single one. */
  lemma OutcomeOfOtherSize(words: seq<Word>, past: seq<int>, logits: seq<Logit>, n: nat)
    requires |logits| != n && !IndexFails(words, past, |logits|)
    ensures |logits| != 1 && n != 1 ==> Outcome(words, past, logits, n) == Err(ShapeError)
    ensures |logits| == 1 ==>
      && Outcome(words, past, logits, n).Ok? && |Outcome(words, past, logits, n).value| == n
      && forall v: nat :: v < n ==>
           Outcome(words, past, logits, n).value[v]
           == Plus(Plus(logits[0], Bias([v] in words)), Bias(EndsLong(words, past, 0)))
    ensures n == 1 ==>
      && Outcome(words, past, logits, n).Ok? && |Outcome(words, past, logits, n).value| == |logits|
      && forall v: nat :: v < |logits| ==>
           Outcome(words, past, logits, n).value[v]
           == Plus(Plus(logits[v], Bias([0] in words)), Bias(EndsLong(words, past, v)))
  {
    hide EndsLong, IndexFails;
  }

  lemma NextIndex(words: seq<Word>, i: nat, past: seq<int>, size: nat)
    requires i < |words|
    ensures IndexFails(words[..i + 1], past, size) <==>
      IndexFails(words[..i], past, size) || FailsAt(words[i], past, size)
    ensures FailsAt(words[i], past, size) ==> IndexFails(words, past, size)
  {
    hide FailsAt;
    var next := words[..i + 1];
    assert next == words[..i] + [words[i]];
    assert next[i] == words[i];
    assert forall k :: 0 <= k < i ==> next[k] == words[..i][k];
  }

  /** A word of several tokens is completed by v. */
  predicate EndsLong(words: seq<Word>, past: seq<int>, v: int) {
    exists i :: 0 <= i < |words| && |words[i]| > 1 && Completes(words[i], past, v)
  }

  lemma NoWords(past: seq<int>, size: nat)
    ensures (forall v :: !EndsLong([], past, v)) && !IndexFails([], past, size)
  {
  }

  lemma NotCompleted(word: Word, past: seq<int>)
    requires |word| > |past| + 1
    ensures forall v :: !Completes(word, past, v)
  {
  }

  lemma NextWord(words: seq<Word>, i: nat, past: seq<int>)
    requires i < |words|
    ensures forall v :: EndsLong(words[..i + 1], past, v) <==>
      EndsLong(words[..i], past, v) || (|words[i]| > 1 && Completes(words[i], past, v))
  {
    hide Completes;
    assert words[..i + 1] == words[..i] + [words[i]];
    forall v ensures EndsLong(words[..i + 1], past, v) <==>
        EndsLong(words[..i], past, v) || (|words[i]| > 1 && Completes(words[i], past, v))
    {
      if EndsLong(words[..i], past, v) {
        var k :| 0 <= k < i && |words[..i][k]| > 1 && Completes(words[..i][k], past, v);
        assert words[..i + 1][k] == words[..i][k];
      }
      if |words[i]| > 1 && Completes(words[i], past, v) {
        assert words[..i + 1][i] == words[i];
      }
      if EndsLong(words[..i + 1], past, v) {
        var k :| 0 <= k < i + 1 && |words[..i + 1][k]| > 1 && Completes(words[..i + 1][k], past, v);
        assert k < i ==> words[..i][k] == words[..i + 1][k];
      }
    }
  }

  /** Comparing prefixes decides whether the last token completes the word. */
  lemma CompletesIff(word: Word, past: seq<int>)
    requires 0 < |word| <= |past| + 1
    ensures forall v :: Completes(word, past, v) <==>
      v == word[|word| - 1] && past[|past| - (|word| - 1)..] == word[..|word| - 1]
  {
    var n := |word| - 1;
    assert word == word[..n] + [word[n]];
    forall v ensures Completes(word, past, v) <==> v == word[n] && past[|past| - n..] == word[..n] {
      assert (past + [v])[|past| - n..] == past[|past| - n..] + [v];
    }
  }

  lemma BannedSplits(words: seq<Word>, past: seq<int>, v: int)
    ensures Banned(words, past, v) <==> [v] in words || EndsLong(words, past, v)
  {
    if [v] in words {
      var i :| 0 <= i < |words| && words[i] == [v];
      assert Completes(words[i], past, v);
    }
    if Banned(words, past, v) {
      var i :| 0 <= i < |words| && Completes(words[i], past, v);
      if |words[i]| <= 1 {
        assert (past + [v])[|past|..] == [v];
        assert words[i] == [v];
      }
    }
  }

  lemma BothBiases(words: seq<Word>, past: seq<int>, logits: seq<Logit>)
    ensures Added(Added(logits, WordBias(words, |logits|)), LongBias(words, past, |logits|))
         == Masked(words, past, logits)
  {
    hide EndsLong, Banned;
    forall v | 0 <= v < |logits|
      ensures Plus(Plus(logits[v], WordBias(words, |logits|)[v]), LongBias(words, past, |logits|)[v])
           == Masked(words, past, logits)[v]
    {
      BannedSplits(words, past, v);
    }
  }

  // --------------------------------------------------------------------- Whole runs

  /** A token is masked exactly when it already was, or completes a bad word and its logit
      is finite: an infinite or undefined logit becomes undefined instead. */
  lemma MaskedIff(words: seq<Word>, past: seq<int>, logits: seq<Logit>, v: nat)
    requires v < |logits|
    ensures Masked(words, past, logits)[v] == NegInf <==>
      logits[v] == NegInf || (Banned(words, past, v) && logits[v].Fin?)
    ensures !Banned(words, past, v) ==> Masked(words, past, logits)[v] == logits[v]
    ensures Banned(words, past, v) && (logits[v].PosInf? || logits[v].NaN?) ==>
      Masked(words, past, logits)[v] == NaN
  {
    hide Banned;
  }

  /** No bad word is a contiguous block of the tokens. */
  ghost predicate Clean(words: seq<Word>, tokens: seq<int>) {
    forall i, p: nat :: 0 <= i < |words| && words[i] != [] ==> !OccursAt(tokens, words[i], p)
  }

  /** Each token was sampled from logits where it was finite before masking. */
  predicate Sampled(tokens: seq<int>, logits: seq<seq<Logit>>) {
    |logits| == |tokens| && forall t :: 0 <= t < |tokens| ==> 0 <= tokens[t] < |logits[t]| && logits[t][tokens[t]].Fin?
  }

  /** Every token was still possible after masking. */
  predicate Unmasked(words: seq<Word>, tokens: seq<int>, logits: seq<seq<Logit>>)
    requires Sampled(tokens, logits)
  {
    forall t :: 0 <= t < |tokens| ==> Masked(words, tokens[..t], logits[t])[tokens[t]] != NegInf
  }

  /** A block that ends with token t is a word completed by token t, and the other way
      round. */
  lemma OccursIffCompleted(word: Word, tokens: seq<int>, p: nat, t: nat)
    requires word != [] && t < |tokens| && t + 1 == p + |word|
    ensures OccursAt(tokens, word, p) <==> Completes(word, tokens[..t], tokens[t])
  {
    assert tokens[..t] + [tokens[t]] == tokens[..t + 1];
    assert tokens[..t + 1][p..] == tokens[p..t + 1];
  }

  /** A run samples only unmasked tokens exactly when no bad word ever occurs in it. */
  lemma UnmaskedRunsAreClean(words: seq<Word>, tokens: seq<int>, logits: seq<seq<Logit>>)
    requires Sampled(tokens, logits)
    ensures Unmasked(words, tokens, logits) <==> Clean(words, tokens)
  {
    hide Masked, OccursAt, Completes;
    if Unmasked(words, tokens, logits) {
      forall i, p: nat | 0 <= i < |words| && words[i] != [] ensures !OccursAt(tokens, words[i], p) {
        if OccursAt(tokens, words[i], p) { BlockIsMasked(words, tokens, logits, i, p); }
      }
    }
    if Clean(words, tokens) {
      forall t | 0 <= t < |tokens| ensures Masked(words, tokens[..t], logits[t])[tokens[t]] != NegInf {
        MaskedIff(words, tokens[..t], logits[t], tokens[t]);
        if i :| 0 <= i < |words| && Completes(words[i], tokens[..t], tokens[t]) {
          CompletedOccurs(words[i], tokens, t);
        }
      }
    }
  }

  lemma BlockIsMasked(words: seq<Word>, tokens: seq<int>, logits: seq<seq<Logit>>, i: nat, p: nat)
    requires Sampled(tokens, logits) && i < |words| && words[i] != [] && OccursAt(tokens, words[i], p)
    ensures !Unmasked(words, tokens, logits)
  {
    hide Completes, Masked;
    var t := p + |words[i]| - 1;
    OccursIffCompleted(words[i], tokens, p, t);
    MaskedIff(words, tokens[..t], logits[t], tokens[t]);
  }

  lemma CompletedOccurs(word: Word, tokens: seq<int>, t: nat)
    requires t < |tokens| && Completes(word, tokens[..t], tokens[t])
    ensures word != [] && 0 <= t + 1 - |word| && OccursAt(tokens, word, t + 1 - |word|)
  {
    OccursIffCompleted(word, tokens, t + 1 - |word|, t);
  }
}
