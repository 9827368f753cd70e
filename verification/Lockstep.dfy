/**
  Token counts per rank when data-parallel ranks run their chunks in lockstep
  (vllm/forward_context.py).
 */
module Lockstep {

  /******* Sharding over sequence-parallel ranks *******/

  function Shard(tokens: nat, spSize: nat): nat
    requires spSize > 0
  {
    (tokens + spSize - 1) / spSize
  }

  /** `n` shards suffice exactly when they cover the tokens. */
  lemma {:induction false} ShardLeast(tokens: nat, spSize: nat, n: nat)
    requires spSize > 0
    ensures Shard(tokens, spSize) <= n <==> tokens <= spSize * n
  {
    var c := Shard(tokens, spSize);
    ShardCovers(tokens, spSize);
    if c <= n {
      assert spSize * c <= spSize * n;
    } else {
      assert spSize * (n + 1) <= spSize * c;
      assert spSize * (n + 1) == spSize * n + spSize;
    }
  }

  /** A DP rank's count is covered by its `spSize` shards with less than `spSize` of padding. */
  lemma {:induction false} ShardCovers(tokens: nat, spSize: nat)
    requires spSize > 0
    ensures 0 <= spSize * Shard(tokens, spSize) - tokens < spSize
  {
  }

  function Repeat(x: nat, n: nat): (r: seq<nat>)
    ensures |r| == n && forall k | 0 <= k < n :: r[k] == x
  {
    seq(n, _ => x)
  }

  /** `_compute_sp_num_tokens`: each DP rank's shard once per SP rank (`repeat_interleave`). */
  function ComputeSpNumTokens(tokens: seq<nat>, spSize: nat): seq<nat>
    requires spSize > 0
  {
    if tokens == [] then []
    else ComputeSpNumTokens(tokens[..|tokens| - 1], spSize) + Repeat(Shard(tokens[|tokens| - 1], spSize), spSize)
  }

  /** SP rank `k` of DP rank `i` comes at `i * spSize + k`. */
  lemma {:induction false} ShardAt(tokens: seq<nat>, spSize: nat, i: nat, k: nat)
    requires spSize > 0 && i < |tokens| && k < spSize
    ensures |ComputeSpNumTokens(tokens, spSize)| == |tokens| * spSize
    ensures i * spSize + k < |tokens| * spSize
    ensures ComputeSpNumTokens(tokens, spSize)[i * spSize + k] == Shard(tokens[i], spSize)
    decreases |tokens|
  {
    hide Shard;
    var front := tokens[..|tokens| - 1];
    SpRanks(front, spSize);
    MulSucc(|front|, spSize);
    if i < |front| {
      ShardAt(front, spSize, i, k);
    }
  }

  lemma {:induction false} SpRanks(tokens: seq<nat>, spSize: nat)
    requires spSize > 0
    ensures |ComputeSpNumTokens(tokens, spSize)| == |tokens| * spSize
    decreases |tokens|
  {
    hide Shard;
    if tokens != [] {
      SpRanks(tokens[..|tokens| - 1], spSize);
      MulSucc(|tokens| - 1, spSize);
    }
  }

  lemma {:induction false} MulSucc(n: nat, k: int)
    ensures (n + 1) * k == n * k + k
  {
  }

  function Sum(xs: seq<nat>): nat {
    if xs == [] then 0 else Sum(xs[..|xs| - 1]) + xs[|xs| - 1]
  }

  lemma {:induction false} SumAppend(xs: seq<nat>, ys: seq<nat>)
    ensures Sum(xs + ys) == Sum(xs) + Sum(ys)
  {
    if ys == [] {
      assert xs + ys == xs;
    } else {
      assert (xs + ys)[..|xs + ys| - 1] == xs + ys[..|ys| - 1];
      SumAppend(xs, ys[..|ys| - 1]);
    }
  }

  lemma {:induction false} SumRepeat(x: nat, n: nat)
    ensures Sum(Repeat(x, n)) == n * x
  {
    if n > 0 {
      assert Repeat(x, n)[..n - 1] == Repeat(x, n - 1);
      SumRepeat(x, n - 1);
      MulSucc(n - 1, x);
    }
  }

  /** All shards together cover all tokens, with less than `spSize` of padding per DP rank. */
  lemma {:induction false} ShardsCoverAll(tokens: seq<nat>, spSize: nat)
    requires spSize > 0
    ensures Sum(tokens) <= Sum(ComputeSpNumTokens(tokens, spSize)) <= Sum(tokens) + |tokens| * (spSize - 1)
    decreases |tokens|
  {
    hide Shard, Repeat;
    if tokens != [] {
      var front, last := tokens[..|tokens| - 1], tokens[|tokens| - 1];
      var shard := Shard(last, spSize);
      ShardsCoverAll(front, spSize);
      ShardCovers(last, spSize);
      SumAppend(ComputeSpNumTokens(front, spSize), Repeat(shard, spSize));
      SumRepeat(shard, spSize);
      MulSucc(|front|, spSize - 1);
    }
  }

  /** `cu_tokens_across_sp`; its own rounding formula is the one of `_compute_sp_num_tokens`. */
  function CuTokensAcrossSp(tokens: seq<nat>, spSize: nat): (r: seq<nat>)
    requires spSize > 0
  {
    CumSum(ComputeSpNumTokens(tokens, spSize))
  }

  /** Entry `i * spSize + k` is the end of the tokens of that rank: the shards before it, then its own. */
  lemma {:induction false} CuTokensArePrefixSums(tokens: seq<nat>, spSize: nat, i: nat, k: nat)
    requires spSize > 0 && i < |tokens| && k < spSize
    ensures var cu, shards := CuTokensAcrossSp(tokens, spSize), ComputeSpNumTokens(tokens, spSize);
            var at := i * spSize + k;
            && |cu| == |shards| == |tokens| * spSize && at < |cu|
            && cu[at] == Sum(shards[..at]) + Shard(tokens[i], spSize)
            && (at > 0 ==> cu[at] == cu[at - 1] + Shard(tokens[i], spSize))
  {
    hide Shard, ComputeSpNumTokens;
    ShardAt(tokens, spSize, i, k);
    var shards, at := ComputeSpNumTokens(tokens, spSize), i * spSize + k;
    assert shards[..at + 1][..at] == shards[..at];
  }

  function CumSum(xs: seq<nat>): (r: seq<nat>)
    ensures |r| == |xs|
    ensures forall i | 0 <= i < |xs| :: r[i] == Sum(xs[..i + 1])
  {
    if xs == [] then []
    else
      var front, last := xs[..|xs| - 1], xs[|xs| - 1];
      var sums := CumSum(front);
      assert front[..|front|] == front && xs[..|xs|] == xs;
      assert forall i | 0 <= i < |front| :: sums[i] == Sum(xs[..i + 1]) by {
        forall i | 0 <= i < |front| ensures sums[i] == Sum(xs[..i + 1]) {
          assert front[..i + 1] == xs[..i + 1];
        }
      }
      sums + [(if sums == [] then 0 else sums[|sums| - 1]) + last]
  }

  /******* Chunks *******/

  function Min(a: int, b: int): (r: int)
    ensures r <= a && r <= b && (r == a || r == b)
  {
    if a <= b then a else b
  }

  function Max(a: int, b: int): (r: int)
    ensures r >= a && r >= b && (r == a || r == b)
  {
    if a >= b then a else b
  }

  /** The size of one chunk of a rank with the given tokens. */
  function ChunkSize(tokens: nat, limit: nat, chunk: nat): int {
    var size := Min(limit, tokens - limit * chunk);
    if size <= 0 then 1 else size
  }

  /** No rank ever runs an empty chunk or one over the limit. */
  lemma {:induction false} ChunkInBounds(tokens: nat, limit: nat, chunk: nat)
    requires limit >= 1
    ensures 1 <= ChunkSize(tokens, limit, chunk) <= limit
  {
  }

  ghost function ChunkTotal(tokens: nat, limit: nat, chunks: nat): int {
    if chunks == 0 then 0 else ChunkTotal(tokens, limit, chunks - 1) + ChunkSize(tokens, limit, chunks - 1)
  }

  /**
    The first chunks of a rank, in order, hold its tokens without gap or overlap; each chunk past
    its end is one dummy token.
   */
  lemma {:induction false} ChunksAddUp(tokens: nat, limit: nat, chunks: nat)
    requires limit >= 1
    ensures ChunkTotal(tokens, limit, chunks) == Min(tokens, limit * chunks) + Max(0, chunks - Shard(tokens, limit))
  {
    if chunks > 0 {
      var last := chunks - 1;
      assert limit * chunks == limit * last + limit;
      ChunksAddUp(tokens, limit, last);
      ShardLeast(tokens, limit, last);
      ShardLeast(tokens, limit, chunks);
    }
  }

  /** A rank is done exactly when it ran enough chunks; the rest was one dummy per chunk past its end. */
  lemma {:induction false} EnoughChunks(tokens: nat, limit: nat, chunks: nat)
    requires limit >= 1
    ensures ChunkTotal(tokens, limit, chunks) >= tokens <==> Shard(tokens, limit) <= chunks
    ensures Shard(tokens, limit) <= chunks ==>
              ChunkTotal(tokens, limit, chunks) == tokens + (chunks - Shard(tokens, limit))
  {
    ChunksAddUp(tokens, limit, chunks);
    ShardLeast(tokens, limit, chunks);
  }

  method ComputeChunkedLocalNumTokens(tokens: seq<nat>, spSize: nat, limit: nat, chunk: nat) returns (localSize: seq<int>)
    requires spSize > 0
    ensures |localSize| == |ComputeSpNumTokens(tokens, spSize)|
    ensures forall i | 0 <= i < |localSize| ::
              localSize[i] == ChunkSize(ComputeSpNumTokens(tokens, spSize)[i], limit, chunk)
  {
    var spTokens := ComputeSpNumTokens(tokens, spSize);
    localSize := seq(|spTokens|, _ => -1);
    for i := 0 to |spTokens|
      invariant |localSize| == |spTokens|
      invariant forall j | 0 <= j < i :: localSize[j] == ChunkSize(spTokens[j], limit, chunk)
    {
      localSize := localSize[i := Min(limit, spTokens[i] - limit * chunk)];
      if localSize[i] <= 0 {
        localSize := localSize[i := 1];
      }
    }
  }

  /** With chunks for the largest rank, every rank finishes, all having run the same number of chunks. */
  lemma {:induction false} AllRanksFinish(shards: seq<nat>, limit: nat, chunks: nat, largest: nat, rank: nat)
    requires limit >= 1 && rank < |shards|
    requires forall i | 0 <= i < |shards| :: shards[i] <= largest
    requires Shard(largest, limit) <= chunks
    ensures ChunkTotal(shards[rank], limit, chunks) == shards[rank] + (chunks - Shard(shards[rank], limit))
  {
    ShardLeast(largest, limit, chunks);
    ShardLeast(shards[rank], limit, chunks);
    EnoughChunks(shards[rank], limit, chunks);
  }
}
