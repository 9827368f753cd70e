/**
  The streaming merge of request outputs (vllm/outputs.py, RequestOutput.add): deltas are
  folded into one output, completion by completion.
 */
module RequestOutputs {
  import opened Wrappers
  import opened Logprobs

  datatype Completion = Completion(
    index: int,
    text: string,
    tokenIds: seq<int>,
    cumulativeLogprob: Option<real>,
    logprobs: Option<seq<Dict>>,
    finishReason: Option<string>,
    stopReason: Option<string>)

  /** `if logprobs:` -- neither None nor empty. */
  predicate Truthy(l: Option<seq<Dict>>) {
    l.Some? && l.value != []
  }

  /******* The merge, on values *******/

  /** Two completions with one index; false when the assertion on logprobs fails half-way. */
  function Merge(c: Completion, n: Completion): (Completion, bool) {
    var grown := c.(text := c.text + n.text, tokenIds := c.tokenIds + n.tokenIds);
    if Truthy(n.logprobs) && c.logprobs.None? then (grown, false)
    else
      (grown.(logprobs := if Truthy(n.logprobs) then Some(c.logprobs.value + n.logprobs.value) else c.logprobs,
              cumulativeLogprob := n.cumulativeLogprob,
              finishReason := n.finishReason,
              stopReason := n.stopReason),
       true)
  }

  /** The place of the first completion with this index, or the length. */
  function Find(cs: seq<Completion>, index: int): (i: nat)
    ensures i <= |cs| && (i < |cs| ==> cs[i].index == index)
    ensures forall j | 0 <= j < i :: cs[j].index != index
  {
    if cs == [] || cs[0].index == index then 0
    else 1 + Find(cs[1..], index)
  }

  function AddOne(cs: seq<Completion>, n: Completion, aggregate: bool): (seq<Completion>, bool) {
    var i := Find(cs, n.index);
    if i == |cs| then (cs + [n], true)
    else if aggregate then (cs[i := Merge(cs[i], n).0], Merge(cs[i], n).1)
    else (cs[i := n], true)
  }

  /** The outer loop; it stops at the first failed assertion. */
  function AddAll(cs: seq<Completion>, ns: seq<Completion>, aggregate: bool): (seq<Completion>, bool) {
    if ns == [] then (cs, true)
    else
      var (r, ok) := AddAll(cs, ns[..|ns| - 1], aggregate);
      if ok then AddOne(r, ns[|ns| - 1], aggregate) else (r, false)
  }

  /******* RequestOutput.add *******/

  class CompletionOutput {
    var value: Completion

    constructor (value: Completion)
      ensures this.value == value
    {
      this.value := value;
    }

    /** The merging branch, field by field. */
    method MergeWith(next: CompletionOutput) returns (ok: bool)
      modifies this
      ensures (value, ok) == Merge(old(value), old(next.value))
    {
      value := value.(text := value.text + next.value.text);
      value := value.(tokenIds := value.tokenIds + next.value.tokenIds);
      if Truthy(next.value.logprobs) {
        if value.logprobs.None? {
          return false;
        }
        value := value.(logprobs := Some(value.logprobs.value + next.value.logprobs.value));
      }
      value := value.(cumulativeLogprob := next.value.cumulativeLogprob);
      value := value.(finishReason := next.value.finishReason);
      value := value.(stopReason := next.value.stopReason);
      ok := true;
    }
  }

  ghost function Values(os: seq<CompletionOutput>): (r: seq<Completion>)
    reads os
    ensures |r| == |os| && forall i | 0 <= i < |os| :: r[i] == os[i].value
  {
    seq(|os|, i requires 0 <= i < |os| reads os => os[i].value)
  }

  function Objects(os: seq<CompletionOutput>): set<CompletionOutput> {
    set o | o in os
  }

  ghost predicate DistinctObjects(os: seq<CompletionOutput>) {
    forall i, j | 0 <= i < j < |os| :: os[i] != os[j]
  }

  class RequestOutput {
    var finished: bool
    var kvTransferParams: Option<string>
    var outputs: seq<CompletionOutput>

    /**
      No completion object is listed twice; if the outputs share any (they may be the same output),
      no index is listed twice in either.
     */
    ghost predicate Separate(next: RequestOutput)
      reads this, next, Objects(outputs), Objects(next.outputs)
    {
      && DistinctObjects(outputs) && DistinctObjects(next.outputs)
      && (Objects(outputs) !! Objects(next.outputs) || (Unique(Values(outputs)) && Unique(Values(next.outputs))))
    }

    /** The inner loop and its else branch, for one completion of the delta. */
    method AddCompletion(completion: CompletionOutput, aggregate: bool) returns (ok: bool)
      requires DistinctObjects(outputs) && (completion in outputs ==> Unique(Values(outputs)))
      modifies this, Objects(outputs)
      ensures finished == old(finished) && kvTransferParams == old(kvTransferParams)
      ensures (Values(outputs), ok) == AddOne(old(Values(outputs)), old(completion.value), aggregate)
      ensures DistinctObjects(outputs) && forall o | o in outputs :: o in old(outputs) || o == completion
      ensures forall o | o in old(outputs) && old(o.value.index) != old(completion.value.index) :: o.value == old(o.value)
    {
      hide Merge;
      ghost var before, added := Values(outputs), completion.value;
      var i := 0;
      while i < |outputs| && outputs[i].value.index != completion.value.index
        invariant i <= |outputs| && forall j | 0 <= j < i :: before[j].index != completion.value.index
      {
        i := i + 1;
      }
      assert i == Find(before, completion.value.index);
      if i == |outputs| {
        assert completion !in outputs;
        outputs := outputs + [completion];
        assert Values(outputs) == before + [added];
        ok := true;
      } else if aggregate {
        ok := outputs[i].MergeWith(completion);
        assert Values(outputs) == before[i := Merge(before[i], added).0];
      } else {
        OnlyPlace(outputs, completion, i);
        outputs := outputs[i := completion];
        assert Values(outputs) == before[i := added];
        ok := true;
      }
    }

    /** The outer loop, over the completions of the delta. */
    method AddCompletions(todo: seq<CompletionOutput>, aggregate: bool) returns (ok: bool)
      requires DistinctObjects(outputs) && DistinctObjects(todo)
      requires Objects(outputs) !! Objects(todo) || (Unique(Values(outputs)) && Unique(Values(todo)))
      modifies this, Objects(outputs), Objects(todo)
      ensures finished == old(finished) && kvTransferParams == old(kvTransferParams)
      ensures (Values(outputs), ok) == AddAll(old(Values(outputs)), old(Values(todo)), aggregate)
      ensures DistinctObjects(outputs)
    {
      hide AddOne, DistinctObjects, Merge, Unique;
      ghost var mine, theirs := Values(outputs), Values(todo);
      ghost var mineObjects, apart := outputs, Objects(outputs) !! Objects(todo);
      for k := 0 to |todo|
        invariant finished == old(finished) && kvTransferParams == old(kvTransferParams)
        invariant DistinctObjects(outputs) && Among(outputs, mineObjects, todo, k)
        invariant !apart ==> Unique(Values(outputs))
        invariant forall i | k <= i < |todo| :: todo[i].value == theirs[i]
        invariant AddAll(mine, theirs[..k], aggregate) == (Values(outputs), true)
      {
        assert theirs[..k + 1][..k] == theirs[..k];
        RoundObjects(outputs, mineObjects, todo, k);
        if !apart {
          LaterIndicesDiffer(theirs, k);
          AddOneUnique(Values(outputs), theirs[k], aggregate);
        }
        var added := AddCompletion(todo[k], aggregate);
        if !added {
          AddAllStops(mine, theirs, k + 1, aggregate);
          return false;
        }
      }
      assert theirs[..|theirs|] == theirs;
      ok := true;
    }

    method Add(next: RequestOutput, aggregate: bool) returns (ok: bool)
      requires Separate(next)
      modifies this, Objects(outputs), Objects(next.outputs)
      ensures finished == (old(finished) || old(next.finished))
      ensures kvTransferParams == old(next.kvTransferParams)
      ensures (Values(outputs), ok) == AddAll(old(Values(outputs)), old(Values(next.outputs)), aggregate)
      ensures DistinctObjects(outputs)
    {
      hide AddAll, DistinctObjects, Unique;
      finished := finished || next.finished;
      kvTransferParams := next.kvTransferParams;
      ok := AddCompletions(next.outputs, aggregate);
    }
  }

  /** The listed objects are of `mine`, or among the first k of `todo`. */
  ghost predicate Among(os: seq<CompletionOutput>, mine: seq<CompletionOutput>, todo: seq<CompletionOutput>, k: nat) {
    k <= |todo| && forall o | o in os :: o in mine || o in todo[..k]
  }

  lemma {:induction false} RoundObjects(os: seq<CompletionOutput>, mine: seq<CompletionOutput>, todo: seq<CompletionOutput>, k: nat)
    requires k < |todo| && Among(os, mine, todo, k) && DistinctObjects(todo)
    ensures Objects(os) <= Objects(mine) + Objects(todo)
    ensures Objects(mine) !! Objects(todo) ==> forall i | k <= i < |todo| :: todo[i] !in os
    ensures forall i | k < i < |todo| :: todo[i] != todo[k]
    ensures forall o: CompletionOutput :: o in os || o == todo[k] ==> o in mine || o in todo[..k + 1]
  {
    assert todo[..k + 1] == todo[..k] + [todo[k]];
    if Objects(mine) !! Objects(todo) {
      forall i | k <= i < |todo|
        ensures todo[i] !in os
      {
        assert todo[i] in Objects(todo) && todo[i] !in todo[..k];
      }
    }
  }

  lemma {:induction false} LaterIndicesDiffer(cs: seq<Completion>, k: nat)
    requires Unique(cs) && k < |cs|
    ensures forall i | k < i < |cs| :: cs[i].index != cs[k].index
  {
  }

  /** An object that is listed, and the only one with its index, is the one found. */
  lemma {:induction false} OnlyPlace(os: seq<CompletionOutput>, o: CompletionOutput, i: nat)
    requires i < |os| && os[i].value.index == o.value.index && (o in os ==> Unique(Values(os)))
    ensures o in os ==> os[i] == o
  {
    if j :| 0 <= j < |os| && os[j] == o {
      assert Values(os)[i].index == Values(os)[j].index;
    }
  }

  lemma {:induction false} AddOneUnique(cs: seq<Completion>, n: Completion, aggregate: bool)
    ensures Unique(cs) ==> Unique(AddOne(cs, n, aggregate).0)
  {
    hide Merge;
    var i := Find(cs, n.index);
    if i < |cs| {
      MergeKeepsIndex(cs[i], n);
    }
  }

  lemma {:induction false} MergeKeepsIndex(c: Completion, n: Completion)
    ensures Merge(c, n).0.index == c.index
  {
  }

  /** Once an assertion has failed, the rest of the delta is not looked at. */
  lemma {:induction false} AddAllStops(cs: seq<Completion>, ns: seq<Completion>, k: nat, aggregate: bool)
    requires k <= |ns| && !AddAll(cs, ns[..k], aggregate).1
    ensures AddAll(cs, ns, aggregate) == AddAll(cs, ns[..k], aggregate)
    decreases |ns|
  {
    if k < |ns| {
      var front := ns[..|ns| - 1];
      assert front[..k] == ns[..k];
      AddAllStops(cs, front, k, aggregate);
    } else {
      assert ns[..k] == ns;
    }
  }

  /******* What folding gives *******/

  /** The completions with this index, in order. */
  ghost function Of(cs: seq<Completion>, index: int): (r: seq<Completion>)
    ensures |r| <= |cs| && forall i | 0 <= i < |r| :: r[i].index == index
  {
    if cs == [] then []
    else
      var front := Of(cs[..|cs| - 1], index);
      if cs[|cs| - 1].index == index then front + [cs[|cs| - 1]] else front
  }

  /** The pieces that f takes from each completion, concatenated in order. */
  ghost function Gather<T>(cs: seq<Completion>, f: Completion -> seq<T>): seq<T> {
    if cs == [] then [] else Gather(cs[..|cs| - 1], f) + f(cs[|cs| - 1])
  }

  function TextOf(c: Completion): string {
    c.text
  }

  function TokensOf(c: Completion): seq<int> {
    c.tokenIds
  }

  function PositionsOf(c: Completion): seq<Dict> {
    if c.logprobs.Some? then c.logprobs.value else []
  }

  /** What a run of completions with one index amounts to: everything concatenated, the last reasons kept. */
  ghost function Combined(cs: seq<Completion>): Completion
    requires cs != []
  {
    var last := cs[|cs| - 1];
    Completion(cs[0].index, Gather(cs, TextOf), Gather(cs, TokensOf), last.cumulativeLogprob,
               if cs[0].logprobs.Some? then Some(Gather(cs, PositionsOf)) else None,
               last.finishReason, last.stopReason)
  }

  /** A completion that started without logprobs gets none later. */
  ghost predicate Mergeable(cs: seq<Completion>) {
    cs != [] && cs[0].logprobs.None? ==>
      forall i | 0 <= i < |cs| :: cs[i].logprobs.None? || cs[i].logprobs.value == []
  }

  ghost predicate Unique(cs: seq<Completion>) {
    forall i, j | 0 <= i < j < |cs| :: cs[i].index != cs[j].index
  }

  /** The indices in order of first appearance. */
  ghost function Indices(cs: seq<Completion>): seq<int> {
    if cs == [] then []
    else
      var front := Indices(cs[..|cs| - 1]);
      if cs[|cs| - 1].index in front then front else front + [cs[|cs| - 1].index]
  }

  lemma {:induction false} OfSnoc(cs: seq<Completion>, n: Completion, index: int)
    ensures Of(cs + [n], index) == if n.index == index then Of(cs, index) + [n] else Of(cs, index)
    ensures Indices(cs + [n]) == if n.index in Indices(cs) then Indices(cs) else Indices(cs) + [n.index]
  {
  }

  lemma {:induction false} GatherSnoc<T>(cs: seq<Completion>, n: Completion, f: Completion -> seq<T>)
    ensures Gather(cs + [n], f) == Gather(cs, f) + f(n)
  {
  }

  lemma {:induction false} GatherOne<T>(n: Completion, f: Completion -> seq<T>)
    ensures Gather([n], f) == f(n)
  {
  }

  lemma {:induction false} GatherConcat<T>(xs: seq<Completion>, ys: seq<Completion>, f: Completion -> seq<T>)
    ensures Gather(xs + ys, f) == Gather(xs, f) + Gather(ys, f)
    decreases |ys|
  {
    if ys == [] {
      assert xs + ys == xs;
    } else {
      var front, n := ys[..|ys| - 1], ys[|ys| - 1];
      assert xs + ys == (xs + front) + [n] && ys == front + [n];
      GatherSnoc(xs + front, n, f);
      GatherSnoc(front, n, f);
      GatherConcat(xs, front, f);
      assert (Gather(xs, f) + Gather(front, f)) + f(n) == Gather(xs, f) + (Gather(front, f) + f(n));
    }
  }

  lemma {:induction false} GatherEmpty<T>(cs: seq<Completion>, f: Completion -> seq<T>)
    ensures Gather(cs, f) == [] <==> forall i | 0 <= i < |cs| :: f(cs[i]) == []
  {
    if cs != [] {
      var front, n := cs[..|cs| - 1], cs[|cs| - 1];
      GatherEmpty(front, f);
      assert Gather(cs, f) == Gather(front, f) + f(n);
      assert |Gather(cs, f)| == |Gather(front, f)| + |f(n)|;
      assert forall i | 0 <= i < |front| :: front[i] == cs[i];
    }
  }

  lemma {:induction false} CombinedSnoc(cs: seq<Completion>, n: Completion)
    requires cs != [] && n.index == cs[0].index && Mergeable(cs)
    ensures Merge(Combined(cs), n).1 <==> Mergeable(cs + [n])
    ensures Merge(Combined(cs), n).1 ==> Merge(Combined(cs), n).0 == Combined(cs + [n])
  {
    hide Gather;
    var all := cs + [n];
    assert forall i | 0 <= i < |cs| :: all[i] == cs[i];
    assert all[|cs|] == n;
    GatherSnoc(cs, n, TextOf);
    GatherSnoc(cs, n, TokensOf);
    GatherSnoc(cs, n, PositionsOf);
    assert Gather(cs, PositionsOf) + [] == Gather(cs, PositionsOf);
  }

  lemma {:induction false} CombinedOne(n: Completion)
    ensures Combined([n]) == n && Mergeable([n])
  {
    hide Gather;
    GatherOne(n, TextOf);
    GatherOne(n, TokensOf);
    GatherOne(n, PositionsOf);
  }

  /** Occurrence of an index, counted either way. */
  lemma {:induction false} OfEmpty(cs: seq<Completion>, index: int)
    ensures Of(cs, index) == [] <==> forall i | 0 <= i < |cs| :: cs[i].index != index
    ensures index in Indices(cs) <==> Of(cs, index) != []
  {
    if cs != [] {
      OfEmpty(cs[..|cs| - 1], index);
    }
  }

  lemma {:induction false} OfUnique(cs: seq<Completion>, i: nat)
    requires Unique(cs) && i < |cs|
    ensures Of(cs, cs[i].index) == [cs[i]]
  {
    var n := |cs| - 1;
    if i < n {
      OfUnique(cs[..n], i);
    } else {
      OfEmpty(cs[..n], cs[i].index);
    }
  }

  lemma {:induction false} OfReplaced(cs: seq<Completion>, i: nat, c: Completion, index: int)
    requires i < |cs| && c.index == cs[i].index && Unique(cs)
    ensures Unique(cs[i := c]) && Indices(cs[i := c]) == Indices(cs)
    ensures Of(cs[i := c], index) == if index == c.index then [c] else Of(cs, index)
  {
    var n := |cs| - 1;
    if i < n {
      assert cs[i := c][..n] == cs[..n][i := c];
      OfReplaced(cs[..n], i, c, index);
    } else {
      assert cs[i := c][..n] == cs[..n];
      OfEmpty(cs[..n], c.index);
    }
  }

  /** What is kept of the completions with one index: their combination, or without aggregation the newest. */
  ghost function Kept(fs: seq<Completion>, aggregate: bool): Completion
    requires fs != []
  {
    if aggregate then Combined(fs) else fs[|fs| - 1]
  }

  /** The merged list holds, per index, what is kept of everything seen with that index. */
  ghost predicate Folded(all: seq<Completion>, r: seq<Completion>, aggregate: bool) {
    && Unique(r) && Indices(r) == Indices(all)
    && forall index :: Of(r, index) == if Of(all, index) == [] then [] else [Kept(Of(all, index), aggregate)]
  }

  ghost predicate AllMergeable(all: seq<Completion>) {
    forall index :: Mergeable(Of(all, index))
  }

  lemma {:induction false} AddOneFolds(all: seq<Completion>, r: seq<Completion>, n: Completion, aggregate: bool)
    requires Folded(all, r, aggregate) && (aggregate ==> AllMergeable(all))
    ensures AddOne(r, n, aggregate).1 <==> !aggregate || AllMergeable(all + [n])
    ensures AddOne(r, n, aggregate).1 ==> Folded(all + [n], AddOne(r, n, aggregate).0, aggregate)
  {
    var i := Find(r, n.index);
    OfEmpty(r, n.index);
    if aggregate {
      MergeableSnoc(all, n);
    }
    if i == |r| {
      AppendFolds(all, r, n, aggregate);
    } else {
      OfUnique(r, i);
      if aggregate {
        CombinedSnoc(Of(all, n.index), n);
      }
      ReplaceFolds(all, r, i, n, aggregate);
    }
  }

  lemma {:induction false} MergeableSnoc(all: seq<Completion>, n: Completion)
    requires AllMergeable(all)
    ensures AllMergeable(all + [n]) <==> Mergeable(Of(all, n.index) + [n])
  {
    OfSnoc(all, n, n.index);
    if Mergeable(Of(all, n.index) + [n]) {
      forall index
        ensures Mergeable(Of(all + [n], index))
      {
        OfSnoc(all, n, index);
        assert Mergeable(Of(all, index));
      }
    }
  }

  lemma {:induction false} AppendFolds(all: seq<Completion>, r: seq<Completion>, n: Completion, aggregate: bool)
    requires Folded(all, r, aggregate) && Of(r, n.index) == []
    ensures Folded(all + [n], r + [n], aggregate) && Mergeable(Of(all, n.index) + [n])
  {
    hide Kept, Mergeable, Indices, Of;
    assert Of(all, n.index) == [];
    assert Of(all, n.index) + [n] == [n];
    CombinedOne(n);
    OfEmpty(r, n.index);
    OfEmpty(all, n.index);
    OfSnoc(r, n, n.index);
    OfSnoc(all, n, n.index);
    forall index
      ensures Of(r + [n], index) == if Of(all + [n], index) == [] then [] else [Kept(Of(all + [n], index), aggregate)]
    {
      AppendFoldsAt(all, r, n, aggregate, index);
    }
  }

  lemma {:induction false} AppendFoldsAt(all: seq<Completion>, r: seq<Completion>, n: Completion, aggregate: bool, index: int)
    requires Of(r, index) == if Of(all, index) == [] then [] else [Kept(Of(all, index), aggregate)]
    requires n.index == index ==> Of(r, index) == []
    ensures Of(r + [n], index) == if Of(all + [n], index) == [] then [] else [Kept(Of(all + [n], index), aggregate)]
  {
    hide Of, Combined;
    OfSnoc(r, n, index);
    OfSnoc(all, n, index);
    CombinedOne(n);
    assert [] + [n] == [n];
  }

  lemma {:induction false} ReplaceFolds(all: seq<Completion>, r: seq<Completion>, i: nat, n: Completion, aggregate: bool)
    requires Folded(all, r, aggregate) && i < |r| && r[i].index == n.index && Of(all, n.index) != []
    requires Of(r, n.index) == [r[i]]
    ensures Folded(all + [n], r[i := Kept(Of(all, n.index) + [n], aggregate)], aggregate)
  {
    hide Indices, Of, Combined;
    var c := Kept(Of(all, n.index) + [n], aggregate);
    assert c.index == n.index by { KeptIndex(Of(all, n.index) + [n], aggregate); }
    OfEmpty(all, n.index);
    OfSnoc(all, n, n.index);
    OfReplaced(r, i, c, n.index);
    forall index
      ensures Of(r[i := c], index) == if Of(all + [n], index) == [] then [] else [Kept(Of(all + [n], index), aggregate)]
    {
      OfSnoc(all, n, index);
      OfReplaced(r, i, c, index);
    }
  }

  lemma {:induction false} KeptIndex(fs: seq<Completion>, aggregate: bool)
    requires fs != [] && forall i | 0 <= i < |fs| :: fs[i].index == fs[0].index
    ensures Kept(fs, aggregate).index == fs[0].index
  {
  }

  lemma {:induction false} UniqueIsFolded(cs: seq<Completion>, aggregate: bool)
    requires Unique(cs)
    ensures Folded(cs, cs, aggregate) && AllMergeable(cs)
  {
    forall index
      ensures Of(cs, index) == if Of(cs, index) == [] then [] else [Kept(Of(cs, index), aggregate)]
      ensures Mergeable(Of(cs, index))
    {
      OfEmpty(cs, index);
      if i :| 0 <= i < |cs| && cs[i].index == index {
        OfUnique(cs, i);
        CombinedOne(cs[i]);
      }
    }
  }

  /**
    Adding any completions to a list with unique indices keeps them unique, in order of first
    appearance. Aggregating succeeds exactly when no completion that started without logprobs is
    sent some, and gives per index the concatenation of texts, tokens and logprobs in order with
    the last reasons kept; replacing always succeeds and keeps the newest.
   */
  lemma {:induction false} AddAllFolds(cs: seq<Completion>, ns: seq<Completion>, aggregate: bool)
    requires Unique(cs)
    ensures AddAll(cs, ns, aggregate).1 <==> !aggregate || AllMergeable(cs + ns)
    ensures AddAll(cs, ns, aggregate).1 ==> Folded(cs + ns, AddAll(cs, ns, aggregate).0, aggregate)
    decreases |ns|
  {
    hide Folded, AllMergeable, AddOne;
    if ns == [] {
      assert cs + ns == cs;
      UniqueIsFolded(cs, aggregate);
    } else {
      var front, n := ns[..|ns| - 1], ns[|ns| - 1];
      AddAllFolds(cs, front, aggregate);
      assert cs + ns == (cs + front) + [n];
      if AddAll(cs, front, aggregate).1 {
        AddOneFolds(cs + front, AddAll(cs, front, aggregate).0, n, aggregate);
      } else {
        NotMergeableGrows(cs + front, n);
      }
    }
  }

  lemma {:induction false} NotMergeableGrows(all: seq<Completion>, n: Completion)
    requires !AllMergeable(all)
    ensures !AllMergeable(all + [n])
  {
    var index :| !Mergeable(Of(all, index));
    OfSnoc(all, n, index);
    var fs, gs := Of(all, index), Of(all + [n], index);
    var i :| 0 <= i < |fs| && fs[i].logprobs.Some? && fs[i].logprobs.value != [];
    assert gs[0] == fs[0] && gs[i] == fs[i];
  }

  /******* Whole streams *******/

  datatype Output = Output(finished: bool, kvTransferParams: Option<string>, completions: seq<Completion>)

  /** RequestOutput.add, on values. */
  function AddOutput(a: Output, b: Output, aggregate: bool): (Output, bool) {
    var (cs, ok) := AddAll(a.completions, b.completions, aggregate);
    (Output(a.finished || b.finished, b.kvTransferParams, cs), ok)
  }

  /** A stream of deltas added one after another, up to the first failure. */
  function Fold(a: Output, deltas: seq<Output>, aggregate: bool): (Output, bool) {
    if deltas == [] then (a, true)
    else
      var (r, ok) := Fold(a, deltas[..|deltas| - 1], aggregate);
      if ok then AddOutput(r, deltas[|deltas| - 1], aggregate) else (r, false)
  }

  ghost function Flatten(deltas: seq<Output>): seq<Completion> {
    if deltas == [] then [] else Flatten(deltas[..|deltas| - 1]) + deltas[|deltas| - 1].completions
  }

  lemma {:induction false} AddAllConcat(cs: seq<Completion>, ns: seq<Completion>, ms: seq<Completion>, aggregate: bool)
    ensures AddAll(cs, ns + ms, aggregate) ==
            if AddAll(cs, ns, aggregate).1 then AddAll(AddAll(cs, ns, aggregate).0, ms, aggregate) else AddAll(cs, ns, aggregate)
    decreases |ms|
  {
    hide AddOne;
    if ms == [] {
      assert ns + ms == ns;
    } else {
      assert (ns + ms)[..|ns + ms| - 1] == ns + ms[..|ms| - 1];
      AddAllConcat(cs, ns, ms[..|ms| - 1], aggregate);
    }
  }

  lemma {:induction false} FoldIsAddAll(a: Output, deltas: seq<Output>, aggregate: bool)
    ensures (Fold(a, deltas, aggregate).0.completions, Fold(a, deltas, aggregate).1) == AddAll(a.completions, Flatten(deltas), aggregate)
    decreases |deltas|
  {
    hide AddAll;
    if deltas == [] {
      AddNothing(a.completions, aggregate);
    } else {
      var front := deltas[..|deltas| - 1];
      FoldIsAddAll(a, front, aggregate);
      AddAllConcat(a.completions, Flatten(front), deltas[|deltas| - 1].completions, aggregate);
    }
  }

  lemma {:induction false} AddNothing(cs: seq<Completion>, aggregate: bool)
    ensures AddAll(cs, [], aggregate) == (cs, true)
  {
  }

  /** Folding a whole stream: per index everything ever sent with it, and `finished` never reverts. */
  lemma {:induction false} FoldGathers(a: Output, deltas: seq<Output>, aggregate: bool)
    requires Unique(a.completions)
    ensures Fold(a, deltas, aggregate).1 <==> !aggregate || AllMergeable(a.completions + Flatten(deltas))
    ensures Fold(a, deltas, aggregate).1 ==> Folded(a.completions + Flatten(deltas), Fold(a, deltas, aggregate).0.completions, aggregate)
    ensures Fold(a, deltas, aggregate).1 ==>
              (Fold(a, deltas, aggregate).0.finished <==> a.finished || exists i :: 0 <= i < |deltas| && deltas[i].finished)
    ensures Fold(a, deltas, aggregate).1 ==>
              Fold(a, deltas, aggregate).0.kvTransferParams ==
              if deltas == [] then a.kvTransferParams else deltas[|deltas| - 1].kvTransferParams
  {
    hide Folded, AllMergeable, AddAll;
    FoldIsAddAll(a, deltas, aggregate);
    AddAllFolds(a.completions, Flatten(deltas), aggregate);
    FoldFinished(a, deltas, aggregate);
  }

  lemma {:induction false} FoldFinished(a: Output, deltas: seq<Output>, aggregate: bool)
    ensures Fold(a, deltas, aggregate).1 ==>
              (Fold(a, deltas, aggregate).0.finished <==> a.finished || exists i :: 0 <= i < |deltas| && deltas[i].finished)
    decreases |deltas|
  {
    hide AddAll;
    if deltas != [] {
      var front := deltas[..|deltas| - 1];
      FoldFinished(a, front, aggregate);
      assert forall i | 0 <= i < |front| :: front[i] == deltas[i];
    }
  }

  /******* Associativity *******/

  lemma {:induction false} OfConcat(xs: seq<Completion>, ys: seq<Completion>, index: int)
    ensures Of(xs + ys, index) == Of(xs, index) + Of(ys, index)
    decreases |ys|
  {
    if ys == [] {
      assert xs + ys == xs;
    } else {
      assert (xs + ys)[..|xs + ys| - 1] == xs + ys[..|ys| - 1];
      OfConcat(xs, ys[..|ys| - 1], index);
    }
  }

  /** A combined run can stand for the run it combines. */
  lemma {:induction false} CombinedNested(xs: seq<Completion>, fs: seq<Completion>)
    requires fs != [] && Mergeable(fs) && forall i | 0 <= i < |fs| :: fs[i].index == fs[0].index
    ensures Mergeable(xs + [Combined(fs)]) <==> Mergeable(xs + fs)
    ensures Combined(xs + [Combined(fs)]) == Combined(xs + fs)
  {
    hide Gather;
    var c := Combined(fs);
    CombinedPositions(fs);
    if xs == [] {
      assert xs + [c] == [c] && xs + fs == fs;
      CombinedOne(c);
    } else {
      NestedMergeable(xs, fs, c);
      NestedGather(xs, fs, c, TextOf);
      NestedGather(xs, fs, c, TokensOf);
      NestedGather(xs, fs, c, PositionsOf);
    }
  }

  lemma {:induction false} NestedGather<T>(xs: seq<Completion>, fs: seq<Completion>, c: Completion, f: Completion -> seq<T>)
    requires f(c) == Gather(fs, f)
    ensures Gather(xs + [c], f) == Gather(xs + fs, f)
  {
    GatherSnoc(xs, c, f);
    GatherConcat(xs, fs, f);
  }

  lemma {:induction false} CombinedPositions(fs: seq<Completion>)
    requires fs != [] && Mergeable(fs)
    ensures PositionsOf(Combined(fs)) == Gather(fs, PositionsOf)
    ensures Truthy(Combined(fs).logprobs) <==> exists i :: 0 <= i < |fs| && Truthy(fs[i].logprobs)
  {
    GatherEmpty(fs, PositionsOf);
  }

  lemma {:induction false} NestedMergeable(xs: seq<Completion>, fs: seq<Completion>, c: Completion)
    requires xs != [] && Truthy(c.logprobs) == exists i :: 0 <= i < |fs| && Truthy(fs[i].logprobs)
    ensures Mergeable(xs + [c]) <==> Mergeable(xs + fs)
  {
    assert forall i | 0 <= i < |xs| :: (xs + [c])[i] == xs[i] == (xs + fs)[i];
    assert forall i | 0 <= i < |fs| :: (xs + fs)[|xs| + i] == fs[i];
    assert (xs + [c])[|xs|] == c;
  }

  /** The indices of xs, then the new ones of ys. */
  ghost function AddNew(xs: seq<int>, ys: seq<int>): (r: seq<int>)
    ensures forall x :: x in r <==> x in xs || x in ys
  {
    if ys == [] then xs
    else
      var front := AddNew(xs, ys[..|ys| - 1]);
      if ys[|ys| - 1] in front then front else front + [ys[|ys| - 1]]
  }

  lemma {:induction false} IndicesConcat(xs: seq<Completion>, ys: seq<Completion>)
    ensures Indices(xs + ys) == AddNew(Indices(xs), Indices(ys))
    decreases |ys|
  {
    if ys == [] {
      assert xs + ys == xs;
    } else {
      var front, n := ys[..|ys| - 1], ys[|ys| - 1];
      assert (xs + ys)[..|xs + ys| - 1] == xs + front;
      IndicesConcat(xs, front);
      if n.index !in Indices(front) {
        assert (Indices(front) + [n.index])[..|Indices(front)|] == Indices(front);
      }
    }
  }

  lemma {:induction false} UniqueIndices(cs: seq<Completion>)
    requires Unique(cs)
    ensures |Indices(cs)| == |cs| && forall i | 0 <= i < |cs| :: Indices(cs)[i] == cs[i].index
  {
    if cs != [] {
      UniqueIndices(cs[..|cs| - 1]);
      OfEmpty(cs[..|cs| - 1], cs[|cs| - 1].index);
    }
  }

  /** A folded list is determined by its indices and what is kept under each. */
  lemma {:induction false} FoldedEqual(r: seq<Completion>, r': seq<Completion>)
    requires Unique(r) && Unique(r') && Indices(r) == Indices(r') && forall index :: Of(r, index) == Of(r', index)
    ensures r == r'
  {
    UniqueIndices(r);
    UniqueIndices(r');
    forall i | 0 <= i < |r|
      ensures r[i] == r'[i]
    {
      OfUnique(r, i);
      OfUnique(r', i);
      assert Of(r, r[i].index) == Of(r', r[i].index);
    }
  }

  /** Merging is associative whenever the later two merge. */
  lemma {:induction false} AddAssociative(a: seq<Completion>, b: seq<Completion>, c: seq<Completion>)
    requires Unique(a) && Unique(b) && AddAll(b, c, true).1
    ensures var left := AddAll(a, b, true);
            var right := AddAll(a, AddAll(b, c, true).0, true);
            && (left.1 && AddAll(left.0, c, true).1 <==> right.1)
            && (right.1 ==> AddAll(left.0, c, true).0 == right.0)
  {
    hide AddAll;
    var bc := AddAll(b, c, true).0;
    AddAllConcat(a, b, c, true);
    AddAllFolds(b, c, true);
    AddAllFolds(a, b + c, true);
    AddAllFolds(a, bc, true);
    NestedAgree(a, b + c, bc);
    if AddAll(a, bc, true).1 {
      var r, r' := AddAll(a, b + c, true).0, AddAll(a, bc, true).0;
      forall index
        ensures Of(r, index) == Of(r', index)
      {
        NestedAgreeAt(a, b + c, bc, index);
        assert Mergeable(Of(a + bc, index));
      }
      FoldedEqual(r, r');
    }
  }

  lemma {:induction false} NestedAgreeAt(a: seq<Completion>, all: seq<Completion>, r: seq<Completion>, index: int)
    requires Folded(all, r, true) && AllMergeable(all)
    ensures Mergeable(Of(a + r, index)) <==> Mergeable(Of(a + all, index))
    ensures Of(a + r, index) == [] <==> Of(a + all, index) == []
    ensures Mergeable(Of(a + all, index)) && Of(a + all, index) != [] ==> Combined(Of(a + r, index)) == Combined(Of(a + all, index))
  {
    hide Combined, Mergeable;
    OfConcat(a, r, index);
    OfConcat(a, all, index);
    if Of(all, index) != [] {
      assert Mergeable(Of(all, index));
      CombinedNested(Of(a, index), Of(all, index));
    }
  }

  lemma {:induction false} NestedAgree(a: seq<Completion>, all: seq<Completion>, r: seq<Completion>)
    requires Folded(all, r, true) && AllMergeable(all)
    ensures AllMergeable(a + r) <==> AllMergeable(a + all)
    ensures Indices(a + r) == Indices(a + all)
  {
    IndicesConcat(a, r);
    IndicesConcat(a, all);
    forall index
      ensures Mergeable(Of(a + r, index)) <==> Mergeable(Of(a + all, index))
    {
      NestedAgreeAt(a, all, r, index);
    }
  }
}
