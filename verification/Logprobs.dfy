/**
  FlatLogprobs (vllm/logprobs.py): six parallel lists that must behave as a list of
  dictionaries, one dictionary of logprobs per token position.
 */
module Logprobs {
  import opened Wrappers

  datatype Logprob = Logprob(logprob: real, rank: Option<int>, decodedToken: Option<string>)

  type Item = (int, Logprob)

  /** A Python dict from token ids to logprobs: its items in insertion order, keys distinct. */
  type Dict = seq<Item>

  ghost predicate IsDict(d: Dict) {
    forall i, j | 0 <= i < j < |d| :: d[i].0 != d[j].0
  }

  /** `d[key] = value`: an existing key keeps its place. */
  function Set(d: Dict, item: Item): Dict {
    if d == [] then [item]
    else if d[0].0 == item.0 then [item] + d[1..]
    else [d[0]] + Set(d[1..], item)
  }

  /** A dict comprehension over these items. */
  function DictOf(items: seq<Item>): Dict {
    if items == [] then [] else Set(DictOf(items[..|items| - 1]), items[|items| - 1])
  }

  /******* Dictionaries *******/

  lemma {:induction false} SetKeys(d: Dict, item: Item)
    requires IsDict(d)
    ensures IsDict(Set(d, item))
    ensures forall x | x in Set(d, item) :: x == item || x in d
    ensures item in Set(d, item)
    ensures forall x | x in d && x.0 != item.0 :: x in Set(d, item)
  {
    if d != [] && d[0].0 != item.0 {
      SetKeys(d[1..], item);
      assert forall j | 0 < j < |d| :: d[1..][j - 1] == d[j];
      var s := Set(d[1..], item);
      assert forall i | 0 <= i < |s| :: s[i] in s;
      assert forall x | x in d :: x == d[0] || x in d[1..];
    }
  }

  lemma {:induction false} DictOfIsDict(items: seq<Item>)
    ensures IsDict(DictOf(items))
    ensures DictOf(items) == [] <==> items == []
  {
    if items != [] {
      DictOfIsDict(items[..|items| - 1]);
      SetKeys(DictOf(items[..|items| - 1]), items[|items| - 1]);
    }
  }

  /** x is the last of the items with its key. */
  ghost predicate IsLast(items: seq<Item>, x: Item) {
    exists i :: 0 <= i < |items| && items[i] == x && forall j | i < j < |items| :: items[j].0 != x.0
  }

  lemma {:induction false} IsLastStep(items: seq<Item>, x: Item)
    requires items != []
    ensures var n := |items| - 1;
            IsLast(items, x) <==> x == items[n] || (x.0 != items[n].0 && IsLast(items[..n], x))
  {
  }

  /** Under each key the dictionary holds the last item with that key, and nothing else. */
  lemma {:induction false} LastWins(items: seq<Item>, x: Item)
    ensures x in DictOf(items) <==> IsLast(items, x)
  {
    if items != [] {
      var n := |items| - 1;
      LastWins(items[..n], x);
      IsLastStep(items, x);
      DictOfIsDict(items[..n]);
      SetKeys(DictOf(items[..n]), items[n]);
      if x in DictOf(items) && x != items[n] {
        SetDropsKey(DictOf(items[..n]), items[n], x);
      }
    }
  }

  lemma {:induction false} SetDropsKey(d: Dict, item: Item, x: Item)
    requires IsDict(d) && x in Set(d, item) && x != item
    ensures x.0 != item.0
  {
    SetKeys(d, item);
    var s := Set(d, item);
    var i :| 0 <= i < |s| && s[i] == x;
    var j :| 0 <= j < |s| && s[j] == item;
  }

  lemma {:induction false} SetNewKey(d: Dict, item: Item)
    requires forall x | x in d :: x.0 != item.0
    ensures Set(d, item) == d + [item]
  {
    if d != [] {
      SetNewKey(d[1..], item);
    }
  }

  /** Rebuilding a dictionary from its own items gives it back. */
  lemma {:induction false} DictOfDict(d: Dict)
    requires IsDict(d)
    ensures DictOf(d) == d
  {
    if d != [] {
      var front := d[..|d| - 1];
      DictOfDict(front);
      SetNewKey(front, d[|d| - 1]);
      assert d == front + [d[|d| - 1]];
    }
  }

  /******* The flat representation *******/

  datatype Flat = Flat(
    startIndices: seq<int>,
    endIndices: seq<int>,
    tokenIds: seq<int>,
    logprobs: seq<real>,
    ranks: seq<Option<int>>,
    decodedTokens: seq<Option<string>>)

  ghost predicate Shaped(f: Flat) {
    |f.startIndices| == |f.endIndices| && |f.tokenIds| == |f.logprobs| == |f.ranks| == |f.decodedTokens|
  }

  /** Ranges are in bounds, in order and do not overlap; they may leave gaps. */
  ghost predicate Valid(f: Flat) {
    && Shaped(f)
    && (forall p | 0 <= p < |f.startIndices| :: 0 <= f.startIndices[p] <= f.endIndices[p] <= |f.tokenIds|)
    && (forall p, q | 0 <= p < q < |f.startIndices| :: f.endIndices[p] <= f.startIndices[q])
  }

  function ItemAt(f: Flat, i: nat): Item
    requires Shaped(f) && i < |f.tokenIds|
  {
    (f.tokenIds[i], Logprob(f.logprobs[i], f.ranks[i], f.decodedTokens[i]))
  }

  function Items(f: Flat, lo: nat, hi: nat): (r: seq<Item>)
    requires Shaped(f) && lo <= hi <= |f.tokenIds|
    ensures |r| == hi - lo
  {
    seq(hi - lo, j requires 0 <= j < hi - lo => ItemAt(f, lo + j))
  }

  /** The list of dictionaries that a flat container stands for. */
  ghost function Value(f: Flat): (v: seq<Dict>)
    requires Valid(f)
    ensures |v| == |f.startIndices|
  {
    seq(|f.startIndices|, p requires 0 <= p < |f.startIndices| => DictOf(Items(f, f.startIndices[p], f.endIndices[p])))
  }

  /** Python indexing of a list of length n; None is an IndexError. */
  function PyIndex(i: int, n: nat): Option<nat> {
    if 0 <= i < n then Some(i) else if i < 0 <= i + n then Some(i + n) else None
  }

  /** The items read for i in range(lo, hi). */
  function ReadRange(f: Flat, lo: int, hi: int): Option<seq<Item>>
    requires Shaped(f)
    decreases hi - lo
  {
    if lo >= hi then Some([])
    else
      var i :- PyIndex(lo, |f.tokenIds|);
      var rest :- ReadRange(f, lo + 1, hi);
      Some([ItemAt(f, i)] + rest)
  }

  /** `__getitem__` with an int. */
  function GetItem(f: Flat, index: int): Option<Dict>
    requires Shaped(f)
  {
    var p :- PyIndex(index, |f.startIndices|);
    var items :- ReadRange(f, f.startIndices[p], f.endIndices[p]);
    Some(DictOf(items))
  }

  lemma {:induction false} ReadRangeInBounds(f: Flat, lo: nat, hi: nat)
    requires Shaped(f) && lo <= hi <= |f.tokenIds|
    ensures ReadRange(f, lo, hi) == Some(Items(f, lo, hi))
    decreases hi - lo
  {
    if lo < hi {
      ReadRangeInBounds(f, lo + 1, hi);
      assert Items(f, lo, hi) == [ItemAt(f, lo)] + Items(f, lo + 1, hi);
    }
  }

  /** Indexing the container is indexing the list of dictionaries, errors included. */
  lemma {:induction false} GetItemIsListIndexing(f: Flat, index: int)
    requires Valid(f)
    ensures GetItem(f, index) == match PyIndex(index, |Value(f)|) case Some(p) => Some(Value(f)[p]) case None => None
  {
    var r := PyIndex(index, |f.startIndices|);
    if r.Some? {
      ReadRangeInBounds(f, f.startIndices[r.value], f.endIndices[r.value]);
    }
  }

  lemma {:induction false} PositionIsDict(f: Flat, p: nat)
    requires Valid(f) && p < |Value(f)|
    ensures IsDict(Value(f)[p])
  {
    DictOfIsDict(Items(f, f.startIndices[p], f.endIndices[p]));
  }

  /** What is stored for one more position: the arrays grow by the items, and the range closes behind them. */
  ghost predicate Grown(f: Flat, items: seq<Item>, f': Flat)
    requires Shaped(f)
  {
    && Shaped(f')
    && f'.startIndices == f.startIndices + [|f.tokenIds|]
    && f'.endIndices == f.endIndices + [|f.tokenIds| + |items|]
    && |f'.tokenIds| == |f.tokenIds| + |items|
    && (forall i | 0 <= i < |f.tokenIds| :: ItemAt(f', i) == ItemAt(f, i))
    && (forall i | 0 <= i < |items| :: ItemAt(f', |f.tokenIds| + i) == items[i])
  }

  lemma {:induction false} GrownValue(f: Flat, items: seq<Item>, f': Flat)
    requires Valid(f) && Grown(f, items, f')
    ensures Valid(f') && Value(f') == Value(f) + [DictOf(items)]
  {
    var n := |f.startIndices|;
    forall p | 0 <= p < n
      ensures Value(f')[p] == Value(f)[p]
    {
      assert Items(f', f'.startIndices[p], f'.endIndices[p]) == Items(f, f.startIndices[p], f.endIndices[p]);
    }
    assert Items(f', |f.tokenIds|, |f.tokenIds| + |items|) == items;
  }

  /******* The container *******/

  function Zip(tokenIds: seq<int>, logprobs: seq<real>, ranks: seq<Option<int>>, decoded: seq<Option<string>>): seq<Item> {
    if tokenIds == [] || logprobs == [] || ranks == [] || decoded == [] then []
    else [(tokenIds[0], Logprob(logprobs[0], ranks[0], decoded[0]))] + Zip(tokenIds[1..], logprobs[1..], ranks[1..], decoded[1..])
  }

  lemma {:induction false} ZipAt(tokenIds: seq<int>, logprobs: seq<real>, ranks: seq<Option<int>>, decoded: seq<Option<string>>, i: nat)
    ensures i < |Zip(tokenIds, logprobs, ranks, decoded)| <==> i < |tokenIds| && i < |logprobs| && i < |ranks| && i < |decoded|
    ensures i < |Zip(tokenIds, logprobs, ranks, decoded)| ==>
              Zip(tokenIds, logprobs, ranks, decoded)[i] == (tokenIds[i], Logprob(logprobs[i], ranks[i], decoded[i]))
    decreases i
  {
    if i > 0 && tokenIds != [] && logprobs != [] && ranks != [] && decoded != [] {
      ZipAt(tokenIds[1..], logprobs[1..], ranks[1..], decoded[1..], i - 1);
    }
  }

  class FlatLogprobs {
    var startIndices: seq<int>
    var endIndices: seq<int>
    var tokenIds: seq<int>
    var logprobs: seq<real>
    var ranks: seq<Option<int>>
    var decodedTokens: seq<Option<string>>

    ghost function Arrays(): Flat
      reads this
    {
      Flat(startIndices, endIndices, tokenIds, logprobs, ranks, decodedTokens)
    }

    ghost predicate Ok()
      reads this
    {
      Valid(Arrays())
    }

    ghost function Contents(): seq<Dict>
      requires Ok()
      reads this
    {
      Value(Arrays())
    }

    constructor ()
      ensures Ok() && Contents() == []
    {
      startIndices, endIndices, tokenIds, logprobs, ranks, decodedTokens := [], [], [], [], [], [];
    }

    method Push(item: Item)
      modifies this
      ensures tokenIds == old(tokenIds) + [item.0] && logprobs == old(logprobs) + [item.1.logprob]
      ensures ranks == old(ranks) + [item.1.rank] && decodedTokens == old(decodedTokens) + [item.1.decodedToken]
      ensures startIndices == old(startIndices) && endIndices == old(endIndices)
    {
      tokenIds := tokenIds + [item.0];
      logprobs := logprobs + [item.1.logprob];
      ranks := ranks + [item.1.rank];
      decodedTokens := decodedTokens + [item.1.decodedToken];
    }

    /** The loop of both append methods. */
    method PushPosition(items: seq<Item>)
      requires Ok()
      modifies this
      ensures Ok() && Contents() == old(Contents()) + [DictOf(items)]
    {
      ghost var f := Arrays();
      startIndices := startIndices + [|logprobs|];
      for i := 0 to |items|
        invariant Shaped(f) && |tokenIds| == |logprobs| == |ranks| == |decodedTokens| == |f.tokenIds| + i
        invariant startIndices == f.startIndices + [|f.tokenIds|] && endIndices == f.endIndices
        invariant forall j | 0 <= j < |f.tokenIds| ::
          (tokenIds[j], Logprob(logprobs[j], ranks[j], decodedTokens[j])) == ItemAt(f, j)
        invariant forall j | 0 <= j < i ::
          (tokenIds[|f.tokenIds| + j], Logprob(logprobs[|f.tokenIds| + j], ranks[|f.tokenIds| + j], decodedTokens[|f.tokenIds| + j])) == items[j]
      {
        Push(items[i]);
      }
      endIndices := endIndices + [|logprobs|];
      GrownValue(f, items, Arrays());
    }

    /** None is stored as an empty position. */
    method Append(position: Option<Dict>)
      requires Ok() && (position.Some? ==> IsDict(position.value))
      modifies this
      ensures Ok() && Contents() == old(Contents()) + [if position.Some? then position.value else []]
    {
      var items := if position.Some? then position.value else [];
      DictOfDict(items);
      PushPosition(items);
    }

    /** No intermediate dictionary: repeated tokens are stored twice and merged when read. */
    method AppendFast(newTokenIds: seq<int>, newLogprobs: seq<real>, newRanks: seq<Option<int>>, newDecoded: seq<Option<string>>)
      requires Ok()
      modifies this
      ensures Ok() && Contents() == old(Contents()) + [DictOf(Zip(newTokenIds, newLogprobs, newRanks, newDecoded))]
    {
      PushPosition(Zip(newTokenIds, newLogprobs, newRanks, newDecoded));
    }

    method Extend(positions: seq<Option<Dict>>)
      requires Ok() && forall i | 0 <= i < |positions| && positions[i].Some? :: IsDict(positions[i].value)
      modifies this
      ensures Ok() && |Contents()| == old(|Contents()|) + |positions| && old(Contents()) <= Contents()
      ensures forall i | 0 <= i < |positions| ::
        Contents()[old(|Contents()|) + i] == if positions[i].Some? then positions[i].value else []
    {
      ghost var before := Contents();
      for i := 0 to |positions|
        invariant Ok() && |Contents()| == |before| + i && before <= Contents()
        invariant forall j | 0 <= j < i :: Contents()[|before| + j] == if positions[j].Some? then positions[j].value else []
      {
        Append(positions[i]);
      }
    }

    /** `__getitem__` with an int. */
    method At(index: int) returns (r: Option<Dict>)
      requires Ok()
      ensures r == match PyIndex(index, |Contents()|) case Some(p) => Some(Contents()[p]) case None => None
      // a list counts from the front, or from the end with a negative index, or raises
      ensures 0 <= index < |Contents()| ==> r == Some(Contents()[index])
      ensures -|Contents()| <= index < 0 ==> r == Some(Contents()[|Contents()| + index])
      ensures index < -|Contents()| || index >= |Contents()| ==> r == None
    {
      GetItemIsListIndexing(Arrays(), index);
      r := GetItem(Flat(startIndices, endIndices, tokenIds, logprobs, ranks, decodedTokens), index);
    }

    /** `__iter__`, run to its end. */
    method Iterate() returns (r: seq<Dict>)
      requires Ok()
      ensures r == Contents()
    {
      r := [];
      for i := 0 to |startIndices|
        invariant r == Contents()[..i]
      {
        var position := At(i);
        r := r + [position.value];
      }
    }

    /**
      `extend` with another container, which may be this one. The iterator takes the length when
      it starts, so extending a container with itself doubles it.
     */
    method ExtendFlat(other: FlatLogprobs)
      requires Ok() && other.Ok()
      modifies this
      ensures Ok() && Contents() == old(Contents()) + old(other.Contents())
    {
      hide Value, Valid, IsDict;
      ghost var before, added := Contents(), other.Contents();
      var n := |other.startIndices|;
      for i := 0 to n
        invariant Ok() && other.Ok() && Contents() == before + added[..i]
        invariant other == this || other.Contents() == added
      {
        assert i < |other.Contents()| && other.Contents()[i] == added[i];
        var position := other.At(i);
        PositionIsDict(other.Arrays(), i);
        Append(position);
        assert added[..i + 1] == added[..i] + [added[i]];
      }
      assert added[..n] == added;
    }
  }

  /** The ranks of a position: the sampled token's, then 1, 2, ..., count. */
  function Ranks(rank: int, count: int): seq<Option<int>> {
    [Some(rank)] + (if count <= 0 then [] else seq(count, i => Some(i + 1)))
  }

  /** The dictionary that the list representation stores for the next position. */
  function NextPosition(tokenIds: seq<int>, logprobs: seq<real>, decoded: seq<Option<string>>, rank: int, numLogprobs: int): Dict {
    DictOf(Zip(tokenIds, logprobs, Ranks(rank, if numLogprobs == -1 then |logprobs| else numLogprobs), decoded))
  }

  /** Item i of a position is stored: every list reaches it, and so do the ranks. */
  ghost predicate StoredAt(tokenIds: seq<int>, logprobs: seq<real>, decoded: seq<Option<string>>, numLogprobs: int, i: nat) {
    && i < |tokenIds| && i < |logprobs| && i < |decoded|
    && (i == 0 || i <= if numLogprobs == -1 then |logprobs| else numLogprobs)
  }

  /** x is stored item i, and no later one has its token: the sampled token has its own rank, the i-th candidate rank i. */
  ghost predicate ShowsAs(tokenIds: seq<int>, logprobs: seq<real>, decoded: seq<Option<string>>, rank: int, numLogprobs: int, i: nat, x: Item) {
    && StoredAt(tokenIds, logprobs, decoded, numLogprobs, i)
    && x == (tokenIds[i], Logprob(logprobs[i], Some(if i == 0 then rank else i), decoded[i]))
    && forall j: nat | i < j && StoredAt(tokenIds, logprobs, decoded, numLogprobs, j) :: tokenIds[j] != tokenIds[i]
  }

  /** What a position holds, item by item. */
  lemma {:induction false} NextPositionHolds(tokenIds: seq<int>, logprobs: seq<real>, decoded: seq<Option<string>>, rank: int, numLogprobs: int, x: Item)
    ensures x in NextPosition(tokenIds, logprobs, decoded, rank, numLogprobs) <==>
            exists i: nat :: ShowsAs(tokenIds, logprobs, decoded, rank, numLogprobs, i, x)
  {
    hide DictOf, Zip;
    var count := if numLogprobs == -1 then |logprobs| else numLogprobs;
    var items := Zip(tokenIds, logprobs, Ranks(rank, count), decoded);
    LastWins(items, x);
    forall i: nat
      ensures i < |items| <==> StoredAt(tokenIds, logprobs, decoded, numLogprobs, i)
      ensures i < |items| ==> items[i] == (tokenIds[i], Logprob(logprobs[i], Some(if i == 0 then rank else i), decoded[i]))
    {
      ZipAt(tokenIds, logprobs, Ranks(rank, count), decoded, i);
    }
    if i :| 0 <= i < |items| && items[i] == x && forall j | i < j < |items| :: items[j].0 != x.0 {
      assert ShowsAs(tokenIds, logprobs, decoded, rank, numLogprobs, i, x);
    }
    if i: nat :| ShowsAs(tokenIds, logprobs, decoded, rank, numLogprobs, i, x) {
      assert items[i] == x && forall j | i < j < |items| :: items[j].0 != x.0;
    }
  }

  /** append_logprobs_for_next_position on the flat representation stores what the list representation stores. */
  method AppendLogprobsForNextPosition(flat: FlatLogprobs, tokenIds: seq<int>, logprobs: seq<real>, decoded: seq<Option<string>>, rank: int, numLogprobs: int)
    requires flat.Ok()
    modifies flat
    ensures flat.Ok() && flat.Contents() == old(flat.Contents()) + [NextPosition(tokenIds, logprobs, decoded, rank, numLogprobs)]
    ensures forall x :: x in flat.Contents()[old(|flat.Contents()|)] <==>
              exists i: nat :: ShowsAs(tokenIds, logprobs, decoded, rank, numLogprobs, i, x)
  {
    hide ShowsAs, DictOf;
    forall x
      ensures x in NextPosition(tokenIds, logprobs, decoded, rank, numLogprobs) <==>
              exists i: nat :: ShowsAs(tokenIds, logprobs, decoded, rank, numLogprobs, i, x)
    {
      NextPositionHolds(tokenIds, logprobs, decoded, rank, numLogprobs, x);
    }
    var count := if numLogprobs == -1 then |logprobs| else numLogprobs;
    flat.AppendFast(tokenIds, logprobs, Ranks(rank, count), decoded);
  }

  /******* Slices *******/

  datatype Slice = Slice(start: Option<int>, stop: Option<int>, step: int)

  function Clamp(i: int, lo: int, hi: int): int {
    if i < lo then lo else if i > hi then hi else i
  }

  function StepsUp(lo: int, hi: int, step: int): seq<int>
    requires step > 0
    decreases hi - lo
  {
    if lo >= hi then [] else [lo] + StepsUp(lo + step, hi, step)
  }

  function StepsDown(lo: int, hi: int, step: int): seq<int>
    requires step < 0
    decreases lo - hi
  {
    if lo <= hi then [] else [lo] + StepsDown(lo + step, hi, step)
  }

  /** A bound of a slice over a list of length n: negative counts from the end, and it is clamped. */
  function Bound(b: Option<int>, default: int, n: nat, lo: int, hi: int): int {
    match b
    case None => default
    case Some(i) => Clamp(if i < 0 then i + n else i, lo, hi)
  }

  /** The positions a slice selects from a list of length n. */
  function Selected(s: Slice, n: nat): seq<int>
    requires s.step != 0
  {
    if s.step > 0 then StepsUp(Bound(s.start, 0, n, 0, n), Bound(s.stop, n, n, 0, n), s.step)
    else StepsDown(Bound(s.start, n - 1, n, -1, n - 1), Bound(s.stop, -1, n, -1, n - 1), s.step)
  }

  ghost predicate Ascending(ps: seq<int>) {
    forall i, j | 0 <= i < j < |ps| :: ps[i] < ps[j]
  }

  ghost predicate Descending(ps: seq<int>) {
    forall i, j | 0 <= i < j < |ps| :: ps[i] > ps[j]
  }

  ghost predicate Between(ps: seq<int>, lo: int, hi: int) {
    forall i | 0 <= i < |ps| :: lo <= ps[i] < hi
  }

  lemma {:induction false} StepsUpOrder(lo: int, hi: int, step: int)
    requires step > 0
    ensures Between(StepsUp(lo, hi, step), lo, hi) && Ascending(StepsUp(lo, hi, step))
    decreases hi - lo
  {
    if lo < hi {
      StepsUpOrder(lo + step, hi, step);
      var rest := StepsUp(lo + step, hi, step);
      assert forall i | 0 < i < |[lo] + rest| :: ([lo] + rest)[i] == rest[i - 1];
    }
  }

  lemma {:induction false} StepsDownOrder(lo: int, hi: int, step: int)
    requires step < 0
    ensures Between(StepsDown(lo, hi, step), hi + 1, lo + 1) && Descending(StepsDown(lo, hi, step))
    decreases lo - hi
  {
    if lo > hi {
      StepsDownOrder(lo + step, hi, step);
      var rest := StepsDown(lo + step, hi, step);
      assert forall i | 0 < i < |[lo] + rest| :: ([lo] + rest)[i] == rest[i - 1];
    }
  }

  ghost predicate InRange(ps: seq<int>, n: nat) {
    Between(ps, 0, n)
  }

  lemma {:induction false} SelectedOrder(s: Slice, n: nat)
    requires s.step != 0
    ensures InRange(Selected(s, n), n)
    ensures if s.step > 0 then Ascending(Selected(s, n)) else Descending(Selected(s, n))
  {
    if s.step > 0 {
      StepsUpOrder(Bound(s.start, 0, n, 0, n), Bound(s.stop, n, n, 0, n), s.step);
    } else {
      StepsDownOrder(Bound(s.start, n - 1, n, -1, n - 1), Bound(s.stop, -1, n, -1, n - 1), s.step);
    }
  }

  /** Where a bound of a slice falls in a list of length n: negative ones count from the end. */
  ghost function ListBound(b: Option<int>, missing: int, n: int, below: int, above: int): int {
    match b
    case None => missing
    case Some(i) => if i >= n then above else if i >= 0 then i else if i >= -n then n + i else below
  }

  /** The first position of a slice and the one it stops at, by Python's rules. */
  ghost predicate SliceBounds(s: Slice, n: nat, first: int, stop: int) {
    if s.step > 0 then first == ListBound(s.start, 0, n, 0, n) && stop == ListBound(s.stop, n, n, 0, n)
    else first == ListBound(s.start, n - 1, n, -1, n - 1) && stop == ListBound(s.stop, -1, n, -1, n - 1)
  }

  /** A slice selects first, first + step, ... as long as the stop is not reached. */
  lemma {:induction false} SelectedExactly(s: Slice, n: nat, first: int, stop: int)
    requires s.step != 0 && SliceBounds(s, n, first, stop)
    ensures var ps := Selected(s, n);
            && (forall k | 0 <= k < |ps| :: ps[k] == first + k * s.step && (if s.step > 0 then ps[k] < stop else ps[k] > stop))
            && (if s.step > 0 then first + |ps| * s.step >= stop else first + |ps| * s.step <= stop)
  {
    if s.step > 0 {
      StepsUpAt(first, stop, s.step);
    } else {
      StepsDownAt(first, stop, s.step);
    }
  }

  lemma {:induction false} StepsUpAt(lo: int, hi: int, step: int)
    requires step > 0
    ensures var ps := StepsUp(lo, hi, step);
            (forall k | 0 <= k < |ps| :: ps[k] == lo + k * step && ps[k] < hi) && lo + |ps| * step >= hi
    decreases hi - lo
  {
    if lo < hi {
      StepsUpAt(lo + step, hi, step);
      var rest := StepsUp(lo + step, hi, step);
      var all := [lo] + rest;
      forall k | 0 < k < |all|
        ensures all[k] == lo + k * step
      {
        assert all[k] == rest[k - 1];
        assert lo + step + (k - 1) * step == lo + k * step;
      }
      assert lo + step + |rest| * step == lo + (|rest| + 1) * step;
    }
  }

  lemma {:induction false} StepsDownAt(lo: int, hi: int, step: int)
    requires step < 0
    ensures var ps := StepsDown(lo, hi, step);
            (forall k | 0 <= k < |ps| :: ps[k] == lo + k * step && ps[k] > hi) && lo + |ps| * step <= hi
    decreases lo - hi
  {
    if lo > hi {
      StepsDownAt(lo + step, hi, step);
      var rest := StepsDown(lo + step, hi, step);
      var all := [lo] + rest;
      forall k | 0 < k < |all|
        ensures all[k] == lo + k * step
      {
        assert all[k] == rest[k - 1];
        assert lo + step + (k - 1) * step == lo + k * step;
      }
      assert lo + step + |rest| * step == lo + (|rest| + 1) * step;
    }
  }

  function Pick<T>(xs: seq<T>, ps: seq<int>): (r: seq<T>)
    requires InRange(ps, |xs|)
    ensures |r| == |ps| && forall i | 0 <= i < |ps| :: r[i] == xs[ps[i]]
  {
    seq(|ps|, i requires 0 <= i < |ps| => xs[ps[i]])
  }

  /** `xs[a:b]` for bounds that are indices or ends of ranges. */
  function Cut<T>(xs: seq<T>, a: nat, b: nat): seq<T> {
    if a <= b <= |xs| then xs[a..b] else if a <= |xs| && |xs| < b then xs[a..] else []
  }

  function Shift(xs: seq<int>, offset: int): (r: seq<int>)
    ensures |r| == |xs| && forall i | 0 <= i < |xs| :: r[i] == xs[i] - offset
  {
    seq(|xs|, i requires 0 <= i < |xs| => xs[i] - offset)
  }

  /** `__getitem__` with a slice; None is the IndexError of an empty selection. */
  function GetSlice(f: Flat, ps: seq<int>): Option<Flat>
    requires Shaped(f) && InRange(ps, |f.startIndices|)
    requires forall p | 0 <= p < |f.startIndices| :: f.startIndices[p] >= 0 && f.endIndices[p] >= 0
  {
    if ps == [] then None
    else
      var starts, ends := Pick(f.startIndices, ps), Pick(f.endIndices, ps);
      var lo, hi := starts[0], ends[|ends| - 1];
      Some(Flat(Shift(starts, lo), Shift(ends, lo),
                Cut(f.tokenIds, lo, hi), Cut(f.logprobs, lo, hi), Cut(f.ranks, lo, hi), Cut(f.decodedTokens, lo, hi)))
  }

  /** A non-empty ascending slice stands for the same slice of the list, and is a container like any other. */
  lemma {:induction false} AscendingSlice(f: Flat, ps: seq<int>)
    requires Valid(f) && InRange(ps, |f.startIndices|) && ps != []
    requires Ascending(ps)
    ensures GetSlice(f, ps).Some? && Valid(GetSlice(f, ps).value)
    ensures Value(GetSlice(f, ps).value) == Pick(Value(f), ps)
  {
    hide DictOf, Cut, GetSlice;
    var last := |ps| - 1;
    var lo, hi := f.startIndices[ps[0]], f.endIndices[ps[last]];
    forall i | 0 <= i < |ps|
      ensures lo <= f.startIndices[ps[i]] <= f.endIndices[ps[i]] <= hi
    {
      assert ps[0] <= ps[i] <= ps[last];
    }
    CutItems(f, ps, lo, hi);
    var n := GetSlice(f, ps).value;
    assert Valid(n);
    forall i | 0 <= i < |ps|
      ensures Value(n)[i] == Value(f)[ps[i]]
    {
      assert Items(n, n.startIndices[i], n.endIndices[i]) == Items(f, f.startIndices[ps[i]], f.endIndices[ps[i]]);
    }
  }

  lemma {:induction false} CutItems(f: Flat, ps: seq<int>, lo: nat, hi: nat)
    requires Valid(f) && InRange(ps, |f.startIndices|) && ps != []
    requires lo == f.startIndices[ps[0]] && hi == f.endIndices[ps[|ps| - 1]] && lo <= hi
    ensures GetSlice(f, ps).Some?
    ensures var n := GetSlice(f, ps).value;
            && Shaped(n) && |n.tokenIds| == hi - lo && (forall k: nat | k < hi - lo :: ItemAt(n, k) == ItemAt(f, lo + k))
            && |n.startIndices| == |ps|
            && forall i | 0 <= i < |ps| ::
                 n.startIndices[i] == f.startIndices[ps[i]] - lo && n.endIndices[i] == f.endIndices[ps[i]] - lo
  {
  }

  /** Reading every position of the sliced container gives the sliced list. */
  ghost predicate SliceReads(f: Flat, ps: seq<int>, n: Flat)
    requires Valid(f) && InRange(ps, |f.startIndices|)
  {
    Shaped(n) && |n.startIndices| == |ps| && forall i | 0 <= i < |ps| :: GetItem(n, i) == Some(Value(f)[ps[i]])
  }

  /**
    A descending slice of two or more positions keeps none of the items, so it reads back
    correctly exactly when every selected position is empty.
   */
  lemma {:induction false} DescendingSlice(f: Flat, ps: seq<int>)
    requires Valid(f) && InRange(ps, |f.startIndices|) && |ps| >= 2
    requires Descending(ps)
    ensures GetSlice(f, ps).Some?
    ensures SliceReads(f, ps, GetSlice(f, ps).value) <==> forall i | 0 <= i < |ps| :: Value(f)[ps[i]] == []
  {
  }

  /** Two one-token positions, reversed, do not read back. */
  lemma {:induction false} ReversedSliceLosesItems()
    ensures var f := Flat([0, 1], [1, 2], [7, 8], [0.0, 0.0], [None, None], [None, None]);
      Valid(f) && Selected(Slice(None, None, -1), 2) == [1, 0] && GetSlice(f, [1, 0]).Some? && !SliceReads(f, [1, 0], GetSlice(f, [1, 0]).value)
  {
  }

  /** For every slice with a non-zero step: exactly when the sliced container reads back as the sliced list. */
  lemma {:induction false} SliceCorrectIff(f: Flat, s: Slice)
    requires Valid(f) && s.step != 0
    ensures InRange(Selected(s, |f.startIndices|), |f.startIndices|)
    ensures GetSlice(f, Selected(s, |f.startIndices|)).None? <==> Selected(s, |f.startIndices|) == []
    ensures var ps := Selected(s, |f.startIndices|);
      ps != [] ==>
        (SliceReads(f, ps, GetSlice(f, ps).value) <==>
           s.step > 0 || |ps| == 1 || forall i | 0 <= i < |ps| :: Value(f)[ps[i]] == [])
  {
    var ps := Selected(s, |f.startIndices|);
    SelectedOrder(s, |f.startIndices|);
    if ps != [] && (s.step > 0 || |ps| == 1) {
      AscendingSlice(f, ps);
      var n := GetSlice(f, ps).value;
      forall i | 0 <= i < |ps|
        ensures GetItem(n, i) == Some(Value(f)[ps[i]])
      {
        GetItemIsListIndexing(n, i);
      }
    } else if ps != [] {
      DescendingSlice(f, ps);
    }
  }
}
