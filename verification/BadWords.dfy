/**
  Bad-word masking (vllm/logits_process.py, NoBadWordsLogitsProcessor): before each step the
  logits of tokens that would complete a bad word are sent to minus infinity.
 */
module BadWords {
  import opened Wrappers

  /******* Logits *******/

  /** A float. Rounding is not modelled; the special values are. */
  datatype Logit = Fin(x: real) | PosInf | NegInf | NaN

  function Add(a: Logit, b: Logit): Logit {
    match (a, b)
    case (NaN, _) => NaN
    case (_, NaN) => NaN
    case (Fin(x), Fin(y)) => Fin(x + y)
    case (PosInf, NegInf) => NaN
    case (NegInf, PosInf) => NaN
    case (Fin(_), _) => b
    case (_, _) => a
  }

  const SMALLEST_LOGIT := NegInf
  const NEUTRAL_LOGIT := Fin(0.0)

  /** Above minus infinity: a sampler may pick it. */
  predicate Above(l: Logit) {
    l.Fin? || l.PosInf?
  }

  function Sum(a: seq<Logit>, b: seq<Logit>): (r: seq<Logit>)
    requires |a| == |b|
    ensures |r| == |a| && forall i | 0 <= i < |a| :: r[i] == Add(a[i], b[i])
  {
    seq(|a|, i requires 0 <= i < |a| => Add(a[i], b[i]))
  }

  type Word = seq<int>

  /** The token list ends in this word. */
  predicate EndsWith(tokens: seq<int>, word: Word) {
    |word| <= |tokens| && tokens[|tokens| - |word|..] == word
  }

  /** Choosing token t now would complete some bad word. */
  ghost predicate Completes(badWords: seq<Word>, past: seq<int>, t: int) {
    exists w | w in badWords :: EndsWith(past + [t], w)
  }

  /** Every token of every bad word is in the vocabulary. */
  ghost predicate InVocabulary(badWords: seq<Word>, vocab: nat) {
    forall k | 0 <= k < |badWords| :: WordIn(badWords[k], vocab)
  }

  ghost predicate WordIn(word: Word, vocab: nat) {
    forall x | 0 <= x < |word| :: 0 <= word[x] < vocab
  }

  /** The logits after processing: exactly the completing tokens are sent to minus infinity. */
  ghost predicate Masked(badWords: seq<Word>, past: seq<int>, logits: seq<Logit>, r: seq<Logit>) {
    |r| == |logits| && forall t | 0 <= t < |logits| :: r[t] == if Completes(badWords, past, t) then Add(logits[t], SMALLEST_LOGIT) else logits[t]
  }

  lemma {:induction false} EndsWithSplit(past: seq<int>, t: int, word: Word)
    requires word != []
    ensures EndsWith(past + [t], word) <==>
            word[|word| - 1] == t && |word| <= |past| + 1 && past[|past| - (|word| - 1)..] == word[..|word| - 1]
  {
  }

  /******* The processor *******/

  /** Some one-token bad word among the first k is t. */
  ghost predicate OneToken(badWords: seq<Word>, k: nat, t: int) {
    exists i :: 0 <= i < k && i < |badWords| && badWords[i] == [t]
  }

  /** The word is longer than one token and completed by t. */
  ghost predicate Hit(past: seq<int>, word: Word, t: int) {
    |word| > 1 && EndsWith(past + [t], word)
  }

  /** Some longer bad word among the first k is completed by t. */
  ghost predicate Longer(badWords: seq<Word>, k: nat, past: seq<int>, t: int) {
    exists i :: 0 <= i < k && i < |badWords| && Hit(past, badWords[i], t)
  }

  /** The past tokens end in all of the word but its last token. */
  predicate Prefixed(past: seq<int>, word: Word) {
    1 < |word| <= |past| + 1 && past[|past| - (|word| - 1)..] == word[..|word| - 1]
  }

  ghost predicate BiasOk(badWords: seq<Word>, bias: seq<Logit>) {
    forall t | 0 <= t < |bias| :: bias[t] == if OneToken(badWords, |badWords|, t) then SMALLEST_LOGIT else NEUTRAL_LOGIT
  }

  class NoBadWordsLogitsProcessor {
    const badWordsIds: seq<Word>
    var wordBias: Option<seq<Logit>>

    /** The cached bias, once there, is right; words were checked against its vocabulary. */
    ghost predicate Valid()
      reads this
    {
      wordBias.Some? ==> BiasOk(badWordsIds, wordBias.value) && InVocabulary(badWordsIds, |wordBias.value|)
    }

    constructor (badWordsIds: seq<Word>)
      ensures this.badWordsIds == badWordsIds && wordBias == None && Valid()
    {
      this.badWordsIds, wordBias := badWordsIds, None;
    }

    method CheckTokenIdsBounds(vocabSize: nat) returns (ok: bool)
      ensures ok <==> InVocabulary(badWordsIds, vocabSize)
    {
      var invalid := [];
      for i := 0 to |badWordsIds|
        invariant |invalid| == 0 <==> forall k | 0 <= k < i :: WordIn(badWordsIds[k], vocabSize)
      {
        var word := badWordsIds[i];
        ghost var before := invalid;
        for j := 0 to |word|
          invariant |invalid| == 0 <==> |before| == 0 && forall x | 0 <= x < j :: 0 <= word[x] < vocabSize
        {
          if word[j] < 0 || word[j] >= vocabSize {
            invalid := invalid + [word[j]];
          }
        }
      }
      ok := |invalid| == 0;
    }

    method InitWordBias(logits: seq<Logit>) returns (ok: bool)
      requires wordBias.None?
      modifies this
      ensures ok <==> InVocabulary(badWordsIds, |logits|)
      ensures !ok ==> wordBias.None?
      ensures ok ==> wordBias.Some? && |wordBias.value| == |logits| && Valid()
    {
      ok := CheckTokenIdsBounds(|logits|);
      if !ok {
        return;
      }
      var bias := seq(|logits|, _ => NEUTRAL_LOGIT);
      for i := 0 to |badWordsIds|
        invariant |bias| == |logits|
        invariant forall t | 0 <= t < |bias| :: bias[t] == if OneToken(badWordsIds, i, t) then SMALLEST_LOGIT else NEUTRAL_LOGIT
      {
        if |badWordsIds[i]| == 1 {
          var id := badWordsIds[i][0];
          assert WordIn(badWordsIds[i], |logits|);
          assert badWordsIds[i] == [id];
          bias := bias[id := SMALLEST_LOGIT];
        }
        forall t | 0 <= t < |bias|
          ensures OneToken(badWordsIds, i + 1, t) <==> OneToken(badWordsIds, i, t) || badWordsIds[i] == [t]
        {
          if badWordsIds[i] == [t] { assert OneToken(badWordsIds, i + 1, t); }
        }
      }
      wordBias := Some(bias);
    }

    /**
      The loop over longer words. Reading the last token of an empty word raises, and so does a last
      token beyond the logits.
     */
    method LastTokenBias(past: seq<int>, size: nat) returns (r: Result<seq<Logit>>)
      requires NoNegativeIds(badWordsIds)
      ensures r.Ok? <==> [] !in badWordsIds && Indexable(badWordsIds, past, size)
      ensures r.Ok? ==> |r.value| == size && LongerBias(badWordsIds, |badWordsIds|, past, r.value)
    {
      hide Add, Indexed, NoNegativeIds, LongerBias, Prefixed;
      var bias := seq(size, _ => NEUTRAL_LOGIT);
      NoneLonger(badWordsIds, past, bias);
      for k := 0 to |badWordsIds|
        invariant forall i | 0 <= i < k :: badWordsIds[i] != [] && Indexed(badWordsIds[i], past, size)
        invariant |bias| == size && LongerBias(badWordsIds, k, past, bias)
      {
        var word := badWordsIds[k];
        if word == [] {
          assert badWordsIds[k] in badWordsIds;
          return Raise("IndexError");
        }
        if |word| == 1 || |word| > |past| + 1 {
          BiasSkip(badWordsIds, k, past, bias);
          continue;
        }
        var prefixLength := |word| - 1;
        var last := word[|word| - 1];
        IndexedIff(badWordsIds, k, past, size);
        if last >= |bias| {
          return Raise("IndexError");
        }
        var isMatch := past[|past| - prefixLength..] == word[..prefixLength];
        MatchIsPrefixed(past, word);
        BiasMatch(badWordsIds, k, past, bias, last, isMatch);
        bias := bias[last := Add(bias[last], if isMatch then SMALLEST_LOGIT else NEUTRAL_LOGIT)];
      }
      r := Ok(bias);
    }

    /**
      `__call__`. The first call fixes the vocabulary. It raises on a bad word outside it, an empty
      bad word, a completing token beyond the logits, or logits of a size that cannot be broadcast.
     */
    method Process(past: seq<int>, logits: seq<Logit>) returns (r: Result<seq<Logit>>)
      requires Valid()
      modifies this
      ensures Valid()
      ensures var vocab := if old(wordBias).Some? then |old(wordBias).value| else |logits|;
              && (r.Ok? <==>
                    && InVocabulary(badWordsIds, vocab) && [] !in badWordsIds
                    && (|logits| == vocab || |logits| == 1 || vocab == 1)
                    && Indexable(badWordsIds, past, |logits|))
              && (r.Ok? ==> wordBias.Some? && |wordBias.value| == vocab)
              && (r.Ok? ==> Broadcast(badWordsIds, past, logits, vocab, r.value))
              && (r.Ok? && |logits| == vocab ==> Masked(badWordsIds, past, logits, r.value))
      // with logits of the vocabulary's size every completing token has a place
      ensures (old(wordBias).Some? ==> |old(wordBias).value| == |logits|) ==>
                (r.Ok? <==> InVocabulary(badWordsIds, |logits|) && [] !in badWordsIds)
    {
      hide Masked, Broadcast, InVocabulary, Indexable, LongerBias, BiasOk;
      if wordBias.None? {
        var ok := InitWordBias(logits);
        if !ok {
          return Raise("ValueError");
        }
      }
      VocabularyIndexable(badWordsIds, past, |wordBias.value|);
      var last := LastTokenBias(past, |logits|);
      if last.Raise? {
        return last;
      }
      var sum := BroadcastSum(logits, wordBias.value);
      if sum.Raise? {
        return sum;
      }
      SumBroadcasts(badWordsIds, past, logits, wordBias.value, last.value);
      r := BroadcastSum(sum.value, last.value);
    }
  }

  /** Adding tensors of one dimension: a single entry stands for all. */
  function BroadcastSum(a: seq<Logit>, b: seq<Logit>): Result<seq<Logit>> {
    if |a| == |b| then Ok(Sum(a, b))
    else if |a| == 1 then Ok(Sum(Spread(a[0], |b|), b))
    else if |b| == 1 then Ok(Sum(a, Spread(b[0], |a|)))
    else Raise("RuntimeError")
  }

  function Spread(x: Logit, n: nat): (r: seq<Logit>)
    ensures |r| == n && forall i | 0 <= i < n :: r[i] == x
  {
    seq(n, _ => x)
  }

  /** No token id is negative. */
  ghost predicate NoNegativeIds(badWords: seq<Word>) {
    forall k, x | 0 <= k < |badWords| && 0 <= x < |badWords[k]| :: 0 <= badWords[k][x]
  }

  /** If the past is long enough for the word, its last token has a place among `size` logits. */
  predicate Indexed(word: Word, past: seq<int>, size: nat) {
    1 < |word| <= |past| + 1 ==> word[|word| - 1] < size
  }

  predicate Indexable(badWords: seq<Word>, past: seq<int>, size: nat) {
    forall k | 0 <= k < |badWords| :: Indexed(badWords[k], past, size)
  }

  /** The bias of a step after the first k words. */
  ghost predicate LongerBias(badWords: seq<Word>, k: nat, past: seq<int>, bias: seq<Logit>) {
    forall t | 0 <= t < |bias| :: bias[t] == if Longer(badWords, k, past, t) then SMALLEST_LOGIT else NEUTRAL_LOGIT
  }

  /** The position of a broadcast tensor of this size that position t reads. */
  function Position(t: nat, size: nat): nat {
    if size == 1 then 0 else t
  }

  /** Logits and cached bias of any sizes that broadcast: which tokens are sent to minus infinity. */
  ghost predicate Broadcast(badWords: seq<Word>, past: seq<int>, logits: seq<Logit>, vocab: nat, r: seq<Logit>) {
    && |r| == (if |logits| == 1 then vocab else |logits|)
    && forall t: nat | t < |r| ::
         var i := Position(t, |logits|);
         i < |logits| &&
         r[t] == if OneToken(badWords, |badWords|, Position(t, vocab)) || Longer(badWords, |badWords|, past, i)
                 then Add(logits[i], SMALLEST_LOGIT) else logits[i]
  }

  lemma {:induction false} VocabularyIndexable(badWords: seq<Word>, past: seq<int>, vocab: nat)
    requires InVocabulary(badWords, vocab)
    ensures Indexable(badWords, past, vocab) && NoNegativeIds(badWords)
  {
    forall k | 0 <= k < |badWords|
      ensures WordIn(badWords[k], vocab)
    {
    }
  }

  lemma {:induction false} NoneLonger(badWords: seq<Word>, past: seq<int>, bias: seq<Logit>)
    requires forall t | 0 <= t < |bias| :: bias[t] == NEUTRAL_LOGIT
    ensures LongerBias(badWords, 0, past, bias)
  {
  }

  /** A word that the loop passes over adds nothing. */
  lemma {:induction false} BiasSkip(badWords: seq<Word>, k: nat, past: seq<int>, bias: seq<Logit>)
    requires k < |badWords| && badWords[k] != [] && LongerBias(badWords, k, past, bias)
    requires |badWords[k]| == 1 || |badWords[k]| > |past| + 1
    ensures LongerBias(badWords, k + 1, past, bias) && Indexed(badWords[k], past, |bias|)
  {
    hide Hit, Longer;
    forall t | 0 <= t < |bias|
      ensures Longer(badWords, k + 1, past, t) <==> Longer(badWords, k, past, t)
    {
      LongerStep(badWords, k, past, t);
      HitIff(past, badWords[k], t);
    }
  }

  /** A word whose prefix is compared adds exactly its last token, if the prefix matches. */
  lemma {:induction false} BiasMatch(badWords: seq<Word>, k: nat, past: seq<int>, bias: seq<Logit>, last: nat, isMatch: bool)
    requires k < |badWords| && badWords[k] != [] && LongerBias(badWords, k, past, bias)
    requires last == badWords[k][|badWords[k]| - 1] && isMatch == Prefixed(past, badWords[k])
    ensures last < |bias| ==>
              LongerBias(badWords, k + 1, past, bias[last := Add(bias[last], if isMatch then SMALLEST_LOGIT else NEUTRAL_LOGIT)])
  {
    hide Hit, Longer, Prefixed, Add;
    forall t: nat | t < |bias|
      ensures Longer(badWords, k + 1, past, t) <==> Longer(badWords, k, past, t) || (isMatch && t == last)
    {
      LongerStep(badWords, k, past, t);
      HitIff(past, badWords[k], t);
    }
    if last < |bias| {
      AddBias(bias[last], isMatch);
    }
  }

  lemma {:induction false} AddBias(b: Logit, isMatch: bool)
    requires b == SMALLEST_LOGIT || b == NEUTRAL_LOGIT
    ensures Add(b, if isMatch then SMALLEST_LOGIT else NEUTRAL_LOGIT) == if isMatch then SMALLEST_LOGIT else b
  {
  }

  lemma {:induction false} MatchIsPrefixed(past: seq<int>, word: Word)
    requires 1 < |word| <= |past| + 1
    ensures Prefixed(past, word) <==> past[|past| - (|word| - 1)..] == word[..|word| - 1]
  {
  }

  lemma {:induction false} IndexedIff(badWords: seq<Word>, k: nat, past: seq<int>, size: nat)
    requires k < |badWords| && 1 < |badWords[k]| <= |past| + 1 && NoNegativeIds(badWords)
    ensures var last := badWords[k][|badWords[k]| - 1];
            0 <= last && (Indexed(badWords[k], past, size) <==> last < size)
  {
  }

  lemma {:induction false} LongerStep(badWords: seq<Word>, k: nat, past: seq<int>, t: int)
    requires k < |badWords|
    ensures Longer(badWords, k + 1, past, t) <==> Longer(badWords, k, past, t) || Hit(past, badWords[k], t)
  {
  }

  lemma {:induction false} HitIff(past: seq<int>, word: Word, t: int)
    requires word != []
    ensures Hit(past, word, t) <==> Prefixed(past, word) && t == word[|word| - 1]
  {
    EndsWithSplit(past, t, word);
  }

  /** The two additions: the broadcast mask, and with equal sizes the exact one. */
  lemma {:induction false} SumBroadcasts(badWords: seq<Word>, past: seq<int>, logits: seq<Logit>, bias: seq<Logit>, last: seq<Logit>)
    requires BroadcastSum(logits, bias).Ok? && |last| == |logits| && [] !in badWords
    requires BiasOk(badWords, bias) && LongerBias(badWords, |badWords|, past, last)
    ensures var r := BroadcastSum(BroadcastSum(logits, bias).value, last);
            && r.Ok? && Broadcast(badWords, past, logits, |bias|, r.value)
            && (|bias| == |logits| ==> Masked(badWords, past, logits, r.value))
  {
    hide OneToken, Longer, Completes, Add;
    if |bias| == |logits| {
      hide Broadcast, Masked;
      SumMasks(badWords, past, logits, bias, last);
      MaskedBroadcasts(badWords, past, logits, BroadcastSum(BroadcastSum(logits, bias).value, last).value);
    } else {
      var r := BroadcastSum(BroadcastSum(logits, bias).value, last).value;
      forall t: nat | t < |r|
        ensures var i := Position(t, |logits|);
                i < |logits| &&
                r[t] == if OneToken(badWords, |badWords|, Position(t, |bias|)) || Longer(badWords, |badWords|, past, i)
                        then Add(logits[i], SMALLEST_LOGIT) else logits[i]
      {
        var i, j := Position(t, |logits|), Position(t, |bias|);
        assert r[t] == Add(Add(logits[i], bias[j]), last[i]);
        TwoBiases(logits[i], bias[j], last[i]);
      }
    }
  }

  /** With equal sizes the exact mask is the broadcast one. */
  lemma {:induction false} MaskedBroadcasts(badWords: seq<Word>, past: seq<int>, logits: seq<Logit>, r: seq<Logit>)
    requires Masked(badWords, past, logits, r) && [] !in badWords
    ensures Broadcast(badWords, past, logits, |logits|, r)
  {
    hide OneToken, Longer, Completes, Add;
    forall t: nat | t < |r|
      ensures Completes(badWords, past, t) <==>
              OneToken(badWords, |badWords|, Position(t, |logits|)) || Longer(badWords, |badWords|, past, Position(t, |logits|))
    {
      CompletesSplit(badWords, past, t);
    }
  }

  /** Two biases amount to one. */
  lemma {:induction false} TwoBiases(l: Logit, a: Logit, b: Logit)
    requires (a == SMALLEST_LOGIT || a == NEUTRAL_LOGIT) && (b == SMALLEST_LOGIT || b == NEUTRAL_LOGIT)
    ensures Add(Add(l, a), b) == if a == SMALLEST_LOGIT || b == SMALLEST_LOGIT then Add(l, SMALLEST_LOGIT) else l
  {
  }

  lemma {:induction false} SumMasks(badWords: seq<Word>, past: seq<int>, logits: seq<Logit>, bias: seq<Logit>, last: seq<Logit>)
    requires |bias| == |logits| == |last| && BiasOk(badWords, bias) && [] !in badWords
    requires LongerBias(badWords, |badWords|, past, last)
    ensures Masked(badWords, past, logits, Sum(Sum(logits, bias), last))
  {
    hide OneToken, Longer, Completes;
    forall t | 0 <= t < |logits|
      ensures Add(Add(logits[t], bias[t]), last[t]) == if Completes(badWords, past, t) then Add(logits[t], SMALLEST_LOGIT) else logits[t]
    {
      CompletesSplit(badWords, past, t);
      TwoBiases(logits[t], bias[t], last[t]);
    }
  }

  /** The two biases together cover exactly the completing tokens. */
  lemma {:induction false} CompletesSplit(badWords: seq<Word>, past: seq<int>, t: int)
    requires [] !in badWords
    ensures Completes(badWords, past, t) <==> OneToken(badWords, |badWords|, t) || Longer(badWords, |badWords|, past, t)
  {
    if Completes(badWords, past, t) {
      var w :| w in badWords && EndsWith(past + [t], w);
      var i :| 0 <= i < |badWords| && badWords[i] == w;
      EndsWithSplit(past, t, w);
      if |w| == 1 {
        assert badWords[i] == [t];
      }
    }
    if i :| 0 <= i < |badWords| && badWords[i] == [t] {
      EndsWithSplit(past, t, [t]);
      assert badWords[i] in badWords;
    }
  }

  /** For finite logits: minus infinity exactly where a bad word would be completed, unchanged elsewhere. */
  lemma {:induction false} MaskedFinite(badWords: seq<Word>, past: seq<int>, logits: seq<Logit>, r: seq<Logit>, t: int)
    requires Masked(badWords, past, logits, r) && 0 <= t < |logits| && logits[t].Fin?
    ensures r[t] == NegInf <==> Completes(badWords, past, t)
    ensures !Completes(badWords, past, t) ==> r[t] == logits[t]
  {
  }

  /******* Whole generations *******/

  /** The bad word occurs as a contiguous run of tokens. */
  ghost predicate Occurs(tokens: seq<int>, word: Word) {
    exists i, j :: 0 <= i <= j <= |tokens| && tokens[i..j] == word
  }

  /** Step n chose tokens[n] although some processed logits, for the tokens before it, allowed it. */
  ghost predicate Chosen(badWords: seq<Word>, tokens: seq<int>, n: nat, logits: seq<Logit>)
    requires n < |tokens|
  {
    0 <= tokens[n] < |logits| &&
    forall r :: Masked(badWords, tokens[..n], logits, r) ==> Above(r[tokens[n]])
  }

  /** Every step of the generation chose a token above minus infinity, from whatever logits the model gave. */
  ghost predicate Generated(badWords: seq<Word>, tokens: seq<int>, logits: seq<seq<Logit>>) {
    |logits| == |tokens| && forall n | 0 <= n < |tokens| :: Chosen(badWords, tokens, n, logits[n])
  }

  ghost function Processed(badWords: seq<Word>, past: seq<int>, logits: seq<Logit>): (r: seq<Logit>)
    ensures Masked(badWords, past, logits, r)
  {
    seq(|logits|, t requires 0 <= t < |logits| => if Completes(badWords, past, t) then Add(logits[t], SMALLEST_LOGIT) else logits[t])
  }

  /** A chosen token completes no bad word; and any token that completes none can be chosen. */
  lemma {:induction false} ChosenIff(badWords: seq<Word>, tokens: seq<int>, n: nat, logits: seq<Logit>)
    requires n < |tokens| && 0 <= tokens[n] < |logits|
    ensures Chosen(badWords, tokens, n, logits) <==> !Completes(badWords, tokens[..n], tokens[n]) && Above(logits[tokens[n]])
  {
    var r := Processed(badWords, tokens[..n], logits);
    assert Masked(badWords, tokens[..n], logits, r);
  }

  /** The main theorem: no generation contains a bad word, at any length and for any overlapping bad words. */
  lemma {:induction false} GenerationHasNoBadWord(badWords: seq<Word>, tokens: seq<int>, logits: seq<seq<Logit>>, word: Word)
    requires Generated(badWords, tokens, logits) && word in badWords && word != []
    ensures !Occurs(tokens, word)
  {
    forall i, j | 0 <= i <= j <= |tokens|
      ensures tokens[i..j] != word
    {
      if i < j {
        var n := j - 1;
        assert Chosen(badWords, tokens, n, logits[n]);
        ChosenIff(badWords, tokens, n, logits[n]);
        assert tokens[..n] + [tokens[n]] == tokens[..j];
        if |word| == j - i {
          assert tokens[..j][j - |word|..] == tokens[i..j];
        }
      }
    }
  }

  /** And nothing else is lost: with logits above minus infinity, every sequence without bad words can be generated. */
  lemma {:induction false} GeneratedIff(badWords: seq<Word>, tokens: seq<int>, logits: seq<seq<Logit>>)
    requires [] !in badWords && |logits| == |tokens|
    requires forall n | 0 <= n < |tokens| :: 0 <= tokens[n] < |logits[n]| && Above(logits[n][tokens[n]])
    ensures Generated(badWords, tokens, logits) <==> forall w | w in badWords :: !Occurs(tokens, w)
  {
    if Generated(badWords, tokens, logits) {
      forall w | w in badWords
        ensures !Occurs(tokens, w)
      {
        GenerationHasNoBadWord(badWords, tokens, logits, w);
      }
    }
    if forall w | w in badWords :: !Occurs(tokens, w) {
      forall n | 0 <= n < |tokens|
        ensures Chosen(badWords, tokens, n, logits[n])
      {
        ChosenIff(badWords, tokens, n, logits[n]);
        forall w | w in badWords
          ensures !EndsWith(tokens[..n] + [tokens[n]], w)
        {
          assert tokens[..n] + [tokens[n]] == tokens[..n + 1];
          if |w| <= n + 1 {
            assert tokens[..n + 1][n + 1 - |w|..] == tokens[n + 1 - |w|..n + 1];
          }
        }
      }
    }
  }
}
