/**
  Graph splitting (vllm/compilation/backends.py): one pass numbers the nodes of an
  FX graph so that runs of splitting ops are isolated in odd-numbered subgraphs,
  and `getitem` projections stay with the node that produced the tuple.

  An FX node is identified by its position in the graph's node list, so an edge
  is an index to the left.
 */
module SplitGraph {
  import opened Wrappers

  /******* Graphs *******/

  /** What a node calls. Only the two torch operator classes can be splitting ops. */
  datatype Target =
    | Packet(qualifiedName: string)
    | Overload(name: string, overloadName: string)
    | Opaque(what: string)  // builtins, submodules, methods, attributes

  datatype Node =
    | Placeholder
    | GetItem(input: nat, index: int)        // operator.getitem with a constant index
    | Call(target: Target, args: seq<nat>)   // any other computation; may touch the heap
    | Output(args: seq<nat>)

  type Graph = seq<Node>

  function Inputs(n: Node): seq<nat> {
    match n
    case Placeholder => []
    case GetItem(input, _) => [input]
    case Call(_, args) => args
    case Output(args) => args
  }

  /** Topologically ordered, with its one output node at the end. */
  ghost predicate WellFormed(g: Graph) {
    && |g| > 0
    && (forall i | 0 <= i < |g| :: g[i].Output? <==> i == |g| - 1)
    && (forall i | 0 <= i < |g| && g[i].GetItem? :: g[i].input < i)
    && (forall i, a | 0 <= i < |g| && a in Inputs(g[i]) :: a < i)
  }

  predicate ShouldSplit(n: Node, splittingOps: seq<string>) {
    n.Call? &&
    match n.target
    case Packet(name) => name in splittingOps
    case Overload(name, overload) => name + "." + overload in splittingOps || name in splittingOps
    case Opaque(_) => false
  }

  /**
    Which nodes split: calls of a listed packet, of any overload of a listed packet, or of a listed
    overload; nothing else.
   */
  lemma {:induction false} SplitsWhatIsListed(n: Node, ops: seq<string>)
    ensures ShouldSplit(n, ops) ==> n.Call? && !n.target.Opaque?
    ensures forall name, args :: ShouldSplit(Call(Packet(name), args), ops) <==> name in ops
    ensures forall name, overload, args | name in ops :: ShouldSplit(Call(Overload(name, overload), args), ops)
    ensures forall name, overload, args | name !in ops ::
              ShouldSplit(Call(Overload(name, overload), args), ops) <==> name + "." + overload in ops
  {
  }

  /** Listing one overload splits that overload and no other of its packet. */
  lemma {:induction false} OneOverloadSplits(name: string, overload: string, other: string, args: seq<nat>)
    ensures ShouldSplit(Call(Overload(name, other), args), [name + "." + overload]) <==> other == overload
    ensures !ShouldSplit(Call(Packet(name), args), [name + "." + overload])
  {
    var listed := name + "." + overload;
    assert |listed| == |name| + 1 + |overload|;
    if name + "." + other == listed {
      assert (name + "." + other)[|name| + 1..] == other && listed[|name| + 1..] == overload;
    }
  }

  predicate Splits(g: Graph, ops: seq<string>, i: nat) {
    i < |g| && ShouldSplit(g[i], ops)
  }

  /** Node i is the last of a run of splitting ops. */
  predicate RunEnds(g: Graph, ops: seq<string>, i: nat) {
    Splits(g, ops, i) && !Splits(g, ops, i + 1)
  }

  /** Nodes that the pass numbers; placeholders and the output stay at the top level. */
  predicate Numbered(n: Node) {
    n.GetItem? || n.Call?
  }

  /** A projection that is pulled back into its producer's subgraph. */
  predicate Pulled(g: Graph, i: nat)
    requires i < |g| && (g[i].GetItem? ==> g[i].input < i)
  {
    g[i].GetItem? && !g[g[i].input].Placeholder?
  }

  /******* The numbering, as a specification *******/

  /** The value of `subgraph_id` when the pass reaches node i. */
  ghost function Counter(g: Graph, ops: seq<string>, i: nat): nat
    requires i <= |g|
  {
    if i == 0 then 0
    else Counter(g, ops, i - 1) + if RunEnds(g, ops, i - 1) then 2 else 0
  }

  /** The subgraph of node i. */
  ghost function SubgraphId(g: Graph, ops: seq<string>, i: nat): nat
    requires WellFormed(g) && i < |g|
  {
    if Pulled(g, i) then SubgraphId(g, ops, g[i].input)
    else if Splits(g, ops, i) then Counter(g, ops, i) + 1
    else Counter(g, ops, i)
  }

  /** The node at the bottom of a chain of pulled projections. */
  ghost function Root(g: Graph, i: nat): (r: nat)
    requires WellFormed(g) && i < |g|
    ensures r <= i && !Pulled(g, r)
    ensures r == if g[i].GetItem? && !g[g[i].input].Placeholder? then Root(g, g[i].input) else i
  {
    if Pulled(g, i) then Root(g, g[i].input) else i
  }

  lemma {:induction false} CounterMonotone(g: Graph, ops: seq<string>, i: nat, j: nat)
    requires i <= j <= |g|
    ensures Counter(g, ops, i) <= Counter(g, ops, j)
    ensures Counter(g, ops, i) % 2 == 0
    decreases j
  {
    if i < j {
      CounterMonotone(g, ops, i, j - 1);
    } else if i > 0 {
      CounterMonotone(g, ops, i - 1, i - 1);
    }
  }

  /** The counter counts, twice each, the maximal runs of splitting ops that have ended. */
  lemma {:induction false} CounterStable(g: Graph, ops: seq<string>, i: nat, j: nat)
    requires i <= j < |g|
    ensures Counter(g, ops, i) == Counter(g, ops, j) <==>
            forall e | i <= e < j :: !RunEnds(g, ops, e)
    decreases j
  {
    if i < j {
      CounterStable(g, ops, i, j - 1);
      CounterMonotone(g, ops, i, j - 1);
    }
  }

  lemma {:induction false} IdOfRoot(g: Graph, ops: seq<string>, i: nat)
    requires WellFormed(g) && i < |g|
    ensures SubgraphId(g, ops, i) == SubgraphId(g, ops, Root(g, i))
  {
    if Pulled(g, i) {
      IdOfRoot(g, ops, g[i].input);
    }
  }

  /** Odd subgraphs hold exactly the splitting ops and the projection chains rooted at them. */
  lemma {:induction false} OddIffRootSplits(g: Graph, ops: seq<string>, i: nat)
    requires WellFormed(g) && i < |g|
    ensures SubgraphId(g, ops, i) % 2 == 1 <==> Splits(g, ops, Root(g, i))
  {
    IdOfRoot(g, ops, i);
    CounterMonotone(g, ops, Root(g, i), Root(g, i));
  }

  /** A call is in an odd subgraph exactly when it is a splitting op. */
  lemma {:induction false} CallOddIffSplits(g: Graph, ops: seq<string>, i: nat)
    requires WellFormed(g) && i < |g| && g[i].Call?
    ensures SubgraphId(g, ops, i) % 2 == 1 <==> ShouldSplit(g[i], ops)
  {
    OddIffRootSplits(g, ops, i);
  }

  /** A splitting op whose next node is none. */
  ghost predicate EndsRun(g: Graph, ops: seq<string>, e: nat) {
    e + 1 < |g| && ShouldSplit(g[e], ops) && !ShouldSplit(g[e + 1], ops)
  }

  /** The runs of splitting ops that end before node i, by their last nodes. */
  ghost function RunsBefore(g: Graph, ops: seq<string>, i: nat): set<nat> {
    set e: nat | e < i && EndsRun(g, ops, e)
  }

  /** The counter is twice the number of those runs, so the subgraphs are numbered without gaps beyond them. */
  lemma {:induction false} CounterCountsRuns(g: Graph, ops: seq<string>, i: nat)
    requires i < |g|
    ensures Counter(g, ops, i) == 2 * |RunsBefore(g, ops, i)|
  {
    hide ShouldSplit, EndsRun;
    if i > 0 {
      CounterCountsRuns(g, ops, i - 1);
      RunEndsIff(g, ops, i - 1);
      if EndsRun(g, ops, i - 1) {
        assert RunsBefore(g, ops, i) == RunsBefore(g, ops, i - 1) + {i - 1};
      } else {
        assert RunsBefore(g, ops, i) == RunsBefore(g, ops, i - 1);
      }
    } else {
      assert RunsBefore(g, ops, i) == {};
    }
  }

  lemma {:induction false} RunEndsIff(g: Graph, ops: seq<string>, e: nat)
    requires e + 1 < |g|
    ensures RunEnds(g, ops, e) <==> EndsRun(g, ops, e)
  {
  }

  /** Nodes that stay put are numbered in graph order. */
  lemma {:induction false} IdsMonotone(g: Graph, ops: seq<string>, i: nat, j: nat)
    requires WellFormed(g) && i <= j < |g|
    requires (g[i].GetItem? ==> g[g[i].input].Placeholder?) && (g[j].GetItem? ==> g[g[j].input].Placeholder?)
    ensures SubgraphId(g, ops, i) <= SubgraphId(g, ops, j)
  {
    CounterMonotone(g, ops, i, j);
    if Splits(g, ops, i) && !Splits(g, ops, j) {
      CounterStable(g, ops, i, j);
      CounterMonotone(g, ops, j, j);
      CounterMonotone(g, ops, i, i);
      if Counter(g, ops, i) == Counter(g, ops, j) {
        RunReaches(g, ops, i, j);
      }
    }
  }

  lemma {:induction false} RunReaches(g: Graph, ops: seq<string>, i: nat, j: nat)
    requires i <= j < |g| && Splits(g, ops, i)
    requires forall e | i <= e < j :: !RunEnds(g, ops, e)
    ensures forall e | i <= e <= j :: Splits(g, ops, e)
    decreases j
  {
    if i < j {
      RunReaches(g, ops, i, j - 1);
      assert !RunEnds(g, ops, j - 1);
    }
  }

  /** Two splitting ops share a subgraph exactly when every node between them is a splitting op. */
  lemma {:induction false} SplitsShareIffAdjacent(g: Graph, ops: seq<string>, i: nat, j: nat)
    requires WellFormed(g) && i <= j < |g|
    requires Splits(g, ops, i) && Splits(g, ops, j)
    ensures SubgraphId(g, ops, i) == SubgraphId(g, ops, j) <==> forall e | i <= e <= j :: Splits(g, ops, e)
  {
    CounterStable(g, ops, i, j);
    if SubgraphId(g, ops, i) == SubgraphId(g, ops, j) {
      RunReaches(g, ops, i, j);
    }
  }

  /** Two other unmoved nodes share a subgraph exactly when no splitting op lies between them. */
  lemma {:induction false} OthersShareIffNoSplitBetween(g: Graph, ops: seq<string>, i: nat, j: nat)
    requires WellFormed(g) && i <= j < |g|
    requires (g[i].GetItem? ==> g[g[i].input].Placeholder?) && (g[j].GetItem? ==> g[g[j].input].Placeholder?)
    requires !ShouldSplit(g[i], ops) && !ShouldSplit(g[j], ops)
    ensures SubgraphId(g, ops, i) == SubgraphId(g, ops, j) <==> forall e | i <= e <= j :: !Splits(g, ops, e)
  {
    CounterStable(g, ops, i, j);
    if SubgraphId(g, ops, i) == SubgraphId(g, ops, j) {
      forall e | i <= e <= j
        ensures !Splits(g, ops, e)
      {
        if Splits(g, ops, e) {
          RunReaches(g, ops, e, j);
          assert false;
        }
      }
    }
  }

  /** Ids never decrease along a data edge into a numbered node from a numbered node. */
  lemma {:induction false} EdgeMonotone(g: Graph, ops: seq<string>, i: nat, a: nat)
    requires WellFormed(g) && i < |g| && a in Inputs(g[i]) && Numbered(g[i]) && Numbered(g[a])
    ensures SubgraphId(g, ops, a) <= SubgraphId(g, ops, i)
  {
    if !Pulled(g, i) {
      IdOfRoot(g, ops, a);
      IdsMonotone(g, ops, Root(g, a), i);
    }
  }

  /**
    Whatever is in the lower-numbered of two subgraphs, some node of it comes before
    every node of the other: numbering order is also order of first appearance.
   */
  lemma {:induction false} AscendingIsFirstAppearance(g: Graph, ops: seq<string>, i: nat, j: nat) returns (first: nat)
    requires WellFormed(g) && i < |g| && j < |g|
    requires SubgraphId(g, ops, i) < SubgraphId(g, ops, j)
    ensures first <= i && first < j && SubgraphId(g, ops, first) == SubgraphId(g, ops, i)
  {
    first := Root(g, i);
    IdOfRoot(g, ops, i);
    IdOfRoot(g, ops, j);
    if Root(g, j) <= first {
      IdsMonotone(g, ops, Root(g, j), first);
    }
  }

  /******* The pass *******/

  /** The numbering: which subgraph each node goes to. */
  method NumberNodes(g: Graph, ops: seq<string>) returns (ids: map<nat, nat>, splitOpGraphs: seq<nat>)
    requires WellFormed(g)
    ensures ids.Keys == set i | 0 <= i < |g| && !g[i].Placeholder? && !g[i].Output?
    // a projection of anything but a graph input goes with what it projects from
    ensures forall i | i in ids && g[i].GetItem? && !g[g[i].input].Placeholder? ::
              g[i].input in ids && ids[i] == ids[g[i].input]
    // any other node goes behind the runs of splitting ops that ended, and a splitting op one further
    ensures forall i | i in ids && (g[i].GetItem? ==> g[g[i].input].Placeholder?) ::
              ids[i] == 2 * |RunsBefore(g, ops, i)| + if ShouldSplit(g[i], ops) then 1 else 0
    // the recorded subgraphs are those of the splitting ops
    ensures forall k :: k in splitOpGraphs <==> exists i :: i in ids && ids[i] == k && ShouldSplit(g[i], ops)
    ensures forall i | i in ids :: ids[i] == SubgraphId(g, ops, i)
    ensures forall k :: k in splitOpGraphs <==> exists i :: 0 <= i < |g| && Splits(g, ops, i) && SubgraphId(g, ops, i) == k
  {
    ids, splitOpGraphs := NumberLoop(g, ops);
    NumberingMeaning(g, ops, ids);
    forall k
      ensures k in splitOpGraphs <==> exists i :: i in ids && ids[i] == k && ShouldSplit(g[i], ops)
    {
      SplitIdsMeaning(g, ops, ids, k);
    }
  }

  lemma {:induction false} SplitIdsMeaning(g: Graph, ops: seq<string>, ids: map<nat, nat>, k: nat)
    requires WellFormed(g)
    requires ids.Keys == set i | 0 <= i < |g| && Numbered(g[i])
    requires forall i | i in ids :: ids[i] == SubgraphId(g, ops, i)
    ensures (exists i :: 0 <= i < |g| && Splits(g, ops, i) && SubgraphId(g, ops, i) == k) <==>
            (exists i :: i in ids && ids[i] == k && ShouldSplit(g[i], ops))
  {
    if i :| 0 <= i < |g| && Splits(g, ops, i) && SubgraphId(g, ops, i) == k {
      assert i in ids && ids[i] == k && ShouldSplit(g[i], ops);
    }
    if i :| i in ids && ids[i] == k && ShouldSplit(g[i], ops) {
      assert 0 <= i < |g| && Splits(g, ops, i) && SubgraphId(g, ops, i) == k;
    }
  }

  lemma {:induction false} NumberingMeaning(g: Graph, ops: seq<string>, ids: map<nat, nat>)
    requires WellFormed(g)
    requires ids.Keys == set i | 0 <= i < |g| && Numbered(g[i])
    requires forall i | i in ids :: ids[i] == SubgraphId(g, ops, i)
    ensures ids.Keys == set i | 0 <= i < |g| && !g[i].Placeholder? && !g[i].Output?
    ensures forall i | i in ids && g[i].GetItem? && !g[g[i].input].Placeholder? ::
              g[i].input in ids && ids[i] == ids[g[i].input]
    ensures forall i | i in ids && (g[i].GetItem? ==> g[g[i].input].Placeholder?) ::
              ids[i] == 2 * |RunsBefore(g, ops, i)| + if ShouldSplit(g[i], ops) then 1 else 0
  {
    hide ShouldSplit, RunsBefore;
    forall i | i in ids && (g[i].GetItem? ==> g[g[i].input].Placeholder?)
      ensures ids[i] == 2 * |RunsBefore(g, ops, i)| + if ShouldSplit(g[i], ops) then 1 else 0
    {
      CounterCountsRuns(g, ops, i);
    }
  }

  /** The loop of the pass. */
  method NumberLoop(g: Graph, ops: seq<string>) returns (ids: map<nat, nat>, splitOpGraphs: seq<nat>)
    requires WellFormed(g)
    ensures ids.Keys == set i | 0 <= i < |g| && Numbered(g[i])
    ensures forall i | i in ids :: ids[i] == SubgraphId(g, ops, i)
    ensures forall k :: k in splitOpGraphs <==> exists i :: 0 <= i < |g| && Splits(g, ops, i) && SubgraphId(g, ops, i) == k
  {
    var subgraphId: nat := 0;
    ids, splitOpGraphs := map[], [];
    for n := 0 to |g|
      invariant subgraphId == Counter(g, ops, n)
      invariant ids.Keys == set i | 0 <= i < n && Numbered(g[i])
      invariant forall i | i in ids :: i < |g| && ids[i] == SubgraphId(g, ops, i)
      invariant forall k :: k in splitOpGraphs <==> exists i :: 0 <= i < n && Splits(g, ops, i) && SubgraphId(g, ops, i) == k
    {
      if g[n].Output? || g[n].Placeholder? {
        continue;
      }
      if g[n].GetItem? {
        var input := g[n].input;
        assert input in Inputs(g[n]);
        if !g[input].Placeholder? {
          assert input in ids;  // the assertion on line 356 of the pass
          ids := ids[n := ids[input]];
          continue;
        }
      }
      if ShouldSplit(g[n], ops) {
        subgraphId := subgraphId + 1;
        ids := ids[n := subgraphId];
        splitOpGraphs := splitOpGraphs + [subgraphId];
        assert SubgraphId(g, ops, n) == subgraphId;
        // the output node is last, so a next node exists
        if ShouldSplit(g[n + 1], ops) {
          subgraphId := subgraphId - 1;
        } else {
          subgraphId := subgraphId + 1;
        }
      } else {
        ids := ids[n := subgraphId];
      }
    }
  }

  datatype SplitItem = SplitItem(graphId: nat, isSplittingGraph: bool)

  /** The items returned with the split module: ascending ids, flagged when the id is a splitting one. */
  method SplitItems(g: Graph, ops: seq<string>, ids: map<nat, nat>, splitOpGraphs: seq<nat>) returns (items: seq<SplitItem>)
    requires WellFormed(g)
    requires ids.Keys == set i | 0 <= i < |g| && Numbered(g[i])
    requires forall i | i in ids :: ids[i] == SubgraphId(g, ops, i)
    requires forall k :: k in splitOpGraphs <==> exists i :: 0 <= i < |g| && Splits(g, ops, i) && SubgraphId(g, ops, i) == k
    ensures forall a, b | 0 <= a < b < |items| :: items[a].graphId < items[b].graphId
    ensures (set item | item in items :: item.graphId) == ids.Values
    ensures forall item | item in items :: item.isSplittingGraph <==> item.graphId % 2 == 1
  {
    items := [];
    var rest := ids.Values;
    while rest != {}
      invariant rest <= ids.Values
      invariant forall item, y | item in items && y in rest :: item.graphId < y
      invariant (set item | item in items :: item.graphId) == ids.Values - rest
      invariant forall a, b | 0 <= a < b < |items| :: items[a].graphId < items[b].graphId
      invariant forall item | item in items :: item.isSplittingGraph <==> item.graphId % 2 == 1
      decreases rest
    {
      var k := Least(rest);
      SplitFlagIsOdd(g, ops, ids, splitOpGraphs, k);
      var next := SplitItem(k, k in splitOpGraphs);
      AppendItem(items, next);
      items, rest := items + [next], rest - {k};
    }
  }

  lemma {:induction false} AppendItem(items: seq<SplitItem>, next: SplitItem)
    ensures forall item :: item in items + [next] <==> item in items || item == next
    ensures (set item | item in items + [next] :: item.graphId) == (set item | item in items :: item.graphId) + {next.graphId}
  {
  }

  method Least(s: set<nat>) returns (k: nat)
    requires s != {}
    ensures k in s && forall x | x in s :: k <= x
  {
    k :| k in s;
    var below := set x | x in s && x < k;
    while below != {}
      invariant k in s && below == set x | x in s && x < k
      decreases k
    {
      k :| k in below;
      below := set x | x in s && x < k;
    }
    assert forall x | x in s :: x !in below;
  }

  /** `graph_id in split_op_graphs` recognises exactly the odd subgraphs. */
  lemma {:induction false} SplitFlagIsOdd(g: Graph, ops: seq<string>, ids: map<nat, nat>, splitOpGraphs: seq<nat>, k: nat)
    requires WellFormed(g)
    requires ids.Keys == set i | 0 <= i < |g| && Numbered(g[i])
    requires forall i | i in ids :: ids[i] == SubgraphId(g, ops, i)
    requires forall k :: k in splitOpGraphs <==> exists i :: 0 <= i < |g| && Splits(g, ops, i) && SubgraphId(g, ops, i) == k
    requires k in ids.Values
    ensures k in splitOpGraphs <==> k % 2 == 1
  {
    var i :| i in ids && ids[i] == k;
    OddIffRootSplits(g, ops, i);
    IdOfRoot(g, ops, i);
    forall e | 0 <= e < |g| && Splits(g, ops, e) && SubgraphId(g, ops, e) == k
      ensures k % 2 == 1
    {
      OddIffRootSplits(g, ops, e);
    }
  }

  /******* Running a graph *******/

  /**
    The meaning of the operators. `apply` may read and update the heap and may raise;
    `project` is tuple projection, which raises on a bad index and never touches the heap.
   */
  datatype Interp<!V, !H> = Interp(
    apply: (Node, seq<V>, H) -> Option<(V, H)>,
    project: (V, int) -> Option<V>,
    collect: seq<V> -> V,
    inputs: nat -> V)

  datatype State<V, H> = State(env: map<nat, V>, heap: H)

  function Lookup<V>(args: seq<nat>, env: map<nat, V>): (vs: seq<V>)
    requires forall a | a in args :: a in env
  {
    if args == [] then [] else [env[args[0]]] + Lookup(args[1..], env)
  }

  /** The value and heap that node i produces; None when an operand is not bound or the op raises. */
  function Eval<V, H>(g: Graph, it: Interp<V, H>, i: nat, env: map<nat, V>, heap: H): Option<(V, H)>
    requires i < |g|
  {
    if exists a | a in Inputs(g[i]) :: a !in env then None
    else
      match g[i]
      case Placeholder => Some((it.inputs(i), heap))
      case GetItem(input, index) =>
        assert input in Inputs(g[i]);
        var v :- it.project(env[input], index); Some((v, heap))
      case Call(_, args) => it.apply(g[i], Lookup(args, env), heap)
      case Output(args) => Some((it.collect(Lookup(args, env)), heap))
  }

  function Step<V, H>(g: Graph, it: Interp<V, H>, i: nat, st: State<V, H>): Option<State<V, H>>
    requires i < |g|
  {
    var r :- Eval(g, it, i, st.env, st.heap);
    Some(State(st.env[i := r.0], r.1))
  }

  /** The unsplit graph: nodes i, i+1, ... in graph order. */
  function RunGraph<V, H>(g: Graph, it: Interp<V, H>, i: nat, st: State<V, H>): Option<State<V, H>>
    requires i <= |g|
    decreases |g| - i
  {
    if i == |g| then Some(st)
    else
      var st' :- Step(g, it, i, st);
      RunGraph(g, it, i + 1, st')
  }

  /** The nodes of rank k, from node i on, in graph order. */
  function RunSubgraph<V, H>(g: Graph, it: Interp<V, H>, rank: seq<nat>, k: nat, i: nat, st: State<V, H>): Option<State<V, H>>
    requires |rank| == |g| && i <= |g|
    decreases |g| - i
  {
    if i == |g| then Some(st)
    else if rank[i] == k then
      var st' :- Step(g, it, i, st);
      RunSubgraph(g, it, rank, k, i + 1, st')
    else RunSubgraph(g, it, rank, k, i + 1, st)
  }

  /** The subgraphs of rank k, k+1, ..., top - 1 one after another. */
  function RunRanked<V, H>(g: Graph, it: Interp<V, H>, rank: seq<nat>, k: nat, top: nat, st: State<V, H>): Option<State<V, H>>
    requires |rank| == |g| && k <= top
    decreases top - k
  {
    if k == top then Some(st)
    else
      var st' :- RunSubgraph(g, it, rank, k, 0, st);
      RunRanked(g, it, rank, k + 1, top, st')
  }

  /** Placeholders are bound first, then subgraph k has rank k + 1, and the output comes last. */
  ghost function SplitRank(g: Graph, ops: seq<string>): (rank: seq<nat>)
    requires WellFormed(g)
    ensures |rank| == |g|
  {
    seq(|g|, i requires 0 <= i < |g| =>
      if g[i].Placeholder? then 0
      else if g[i].Output? then Counter(g, ops, |g|) + 2
      else SubgraphId(g, ops, i) + 1)
  }

  /** The split module: its subgraphs called in ascending id, each in original node order. */
  ghost function RunSplit<V, H>(g: Graph, ops: seq<string>, it: Interp<V, H>, heap: H): Option<State<V, H>>
    requires WellFormed(g)
  {
    RunRanked(g, it, SplitRank(g, ops), 0, Counter(g, ops, |g|) + 3, State(map[], heap))
  }

  /******* Any rank that respects edges and effect order preserves meaning *******/

  ghost predicate EdgesAscend(g: Graph, rank: seq<nat>, i: nat)
    requires |rank| == |g| && i < |g|
  {
    forall a | a in Inputs(g[i]) :: a < i && rank[a] <= rank[i]
  }

  ghost predicate Sound(g: Graph, rank: seq<nat>, top: nat) {
    && |rank| == |g|
    && (forall i | 0 <= i < |g| :: rank[i] < top)
    && (forall i | 0 <= i < |g| :: EdgesAscend(g, rank, i))
    && (forall i, j | 0 <= i < j < |g| && g[i].Call? && g[j].Call? :: rank[i] <= rank[j])
  }

  /** The nodes run before node i of rank k is reached. */
  ghost function Done(rank: seq<nat>, k: nat, i: nat): set<nat> {
    set x | 0 <= x < |rank| && (rank[x] < k || (rank[x] == k && x < i))
  }

  ghost function EnvOf<V>(vals: seq<V>): map<nat, V> {
    map x | 0 <= x < |vals| :: vals[x]
  }

  /** The heap in front of node i when the effects happen in graph order and node x has value vals[x]. */
  ghost function HeapAt<V, H>(g: Graph, it: Interp<V, H>, vals: seq<V>, heap: H, i: nat): H
    requires i <= |g| == |vals|
  {
    if i == 0 then heap
    else
      var h := HeapAt(g, it, vals, heap, i - 1);
      match Eval(g, it, i - 1, EnvOf(vals), h)
      case Some(r) => r.1
      case None => h
  }

  /** Node i, run on those values and that heap, yields vals[i]. */
  ghost predicate Explains<V, H>(g: Graph, it: Interp<V, H>, vals: seq<V>, heap: H, i: nat)
    requires i < |g| == |vals|
  {
    var r := Eval(g, it, i, EnvOf(vals), HeapAt(g, it, vals, heap, i));
    r.Some? && r.value.0 == vals[i]
  }

  /** Exactly the effects of the nodes before j have happened. */
  ghost predicate Frontier(g: Graph, rank: seq<nat>, k: nat, i: nat, j: nat) {
    j <= |g| && forall e | 0 <= e < |g| && g[e].Call? :: e < j <==> e in Done(rank, k, i)
  }

  ghost predicate Inv<V, H>(g: Graph, it: Interp<V, H>, rank: seq<nat>, vals: seq<V>, heap: H, k: nat, i: nat, st: State<V, H>)
    requires |rank| == |g| == |vals|
  {
    && st.env.Keys == Done(rank, k, i)
    && (forall x | x in st.env :: st.env[x] == vals[x])
    && (forall j | 0 <= j <= |g| && Frontier(g, rank, k, i, j) :: st.heap == HeapAt(g, it, vals, heap, j))
  }

  lemma {:induction false} LookupAgrees<V>(args: seq<nat>, env: map<nat, V>, env': map<nat, V>)
    requires forall a | a in args :: a in env && a in env' && env[a] == env'[a]
    ensures Lookup(args, env) == Lookup(args, env')
  {
    if args != [] {
      LookupAgrees(args[1..], env, env');
    }
  }

  lemma {:induction false} EvalAgrees<V, H>(g: Graph, it: Interp<V, H>, i: nat, env: map<nat, V>, env': map<nat, V>, heap: H)
    requires i < |g|
    requires forall a | a in Inputs(g[i]) :: a in env && a in env' && env[a] == env'[a]
    ensures Eval(g, it, i, env, heap) == Eval(g, it, i, env', heap)
  {
    LookupAgrees(Inputs(g[i]), env, env');
    if g[i].GetItem? {
      assert g[i].input in Inputs(g[i]);
    }
  }

  /** Only calls change the heap, so skipping over other nodes leaves it alone. */
  lemma {:induction false} HeapStable<V, H>(g: Graph, it: Interp<V, H>, vals: seq<V>, heap: H, i: nat, j: nat)
    requires i <= j <= |g| == |vals|
    requires forall e | i <= e < j :: !g[e].Call?
    ensures HeapAt(g, it, vals, heap, i) == HeapAt(g, it, vals, heap, j)
    decreases j
  {
    hide Eval;
    if i < j {
      HeapStable(g, it, vals, heap, i, j - 1);
      var h := HeapAt(g, it, vals, heap, j - 1);
      PureIgnoresHeap(g, it, j - 1, EnvOf(vals), h, h);
    }
  }

  lemma {:induction false} InputsDone(g: Graph, rank: seq<nat>, top: nat, i: nat)
    requires Sound(g, rank, top) && i < |g|
    ensures forall a | a in Inputs(g[i]) :: a < |g| && a in Done(rank, rank[i], i)
  {
    assert EdgesAscend(g, rank, i);
  }

  /** The node reached next sees exactly the operands and the heap it sees in graph order. */
  lemma {:induction false} NodeSeesReference<V, H>(g: Graph, it: Interp<V, H>, rank: seq<nat>, top: nat, vals: seq<V>, heap: H, k: nat, i: nat, st: State<V, H>)
    requires Sound(g, rank, top) && |vals| == |g| && i < |g| && rank[i] == k
    requires Inv(g, it, rank, vals, heap, k, i, st)
    ensures g[i].Call? ==> st.heap == HeapAt(g, it, vals, heap, i)
    ensures Eval(g, it, i, st.env, st.heap) == Eval(g, it, i, EnvOf(vals), st.heap)
  {
    if g[i].Call? {
      assert Frontier(g, rank, k, i, i);
    }
    InputsDone(g, rank, top, i);
    EvalAgrees(g, it, i, st.env, EnvOf(vals), st.heap);
  }

  /** After a call, the heap is the one behind it in graph order; after any other node, the one before. */
  lemma {:induction false} StepHeap<V, H>(g: Graph, it: Interp<V, H>, rank: seq<nat>, top: nat, vals: seq<V>, heap: H, k: nat, i: nat, st: State<V, H>, j: nat)
    requires Sound(g, rank, top) && |vals| == |g| && i < |g| && rank[i] == k
    requires Inv(g, it, rank, vals, heap, k, i, st)
    requires Step(g, it, i, st).Some?
    requires Frontier(g, rank, k, i + 1, j)
    ensures Step(g, it, i, st).value.heap == HeapAt(g, it, vals, heap, j)
  {
    if g[i].Call? {
      NodeSeesReference(g, it, rank, top, vals, heap, k, i, st);
      FrontierBehindCall(g, rank, top, i, j);
      HeapStable(g, it, vals, heap, i + 1, j);
    } else {
      PureIgnoresHeap(g, it, i, st.env, st.heap, st.heap);
      FrontierSkips(g, rank, k, i, j);
    }
  }

  /** Once the call at node i has run, no call behind it has. */
  lemma {:induction false} FrontierBehindCall(g: Graph, rank: seq<nat>, top: nat, i: nat, j: nat)
    requires Sound(g, rank, top) && i < |g| && g[i].Call?
    requires Frontier(g, rank, rank[i], i + 1, j)
    ensures i < j && forall e | i < e < j :: !g[e].Call?
  {
  }

  lemma {:induction false} FrontierSkips(g: Graph, rank: seq<nat>, k: nat, i: nat, j: nat)
    requires |rank| == |g| && i < |g| && (rank[i] == k ==> !g[i].Call?)
    requires Frontier(g, rank, k, i + 1, j)
    ensures Frontier(g, rank, k, i, j)
  {
  }

  /** Running the next node keeps the invariant, provided it produced the reference value. */
  lemma {:induction false} StepKeepsInv<V, H>(g: Graph, it: Interp<V, H>, rank: seq<nat>, top: nat, vals: seq<V>, heap: H, k: nat, i: nat, st: State<V, H>)
    requires Sound(g, rank, top) && |vals| == |g| && i < |g| && rank[i] == k
    requires Inv(g, it, rank, vals, heap, k, i, st)
    requires Step(g, it, i, st).Some? && Step(g, it, i, st).value.env[i] == vals[i]
    ensures Inv(g, it, rank, vals, heap, k, i + 1, Step(g, it, i, st).value)
  {
    assert Done(rank, k, i + 1) == Done(rank, k, i) + {i};
    forall j | 0 <= j <= |g| && Frontier(g, rank, k, i + 1, j)
      ensures Step(g, it, i, st).value.heap == HeapAt(g, it, vals, heap, j)
    {
      StepHeap(g, it, rank, top, vals, heap, k, i, st, j);
    }
  }

  lemma {:induction false} SkipKeepsInv<V, H>(g: Graph, it: Interp<V, H>, rank: seq<nat>, vals: seq<V>, heap: H, k: nat, i: nat, st: State<V, H>)
    requires |rank| == |g| == |vals| && i < |g| && rank[i] != k
    requires Inv(g, it, rank, vals, heap, k, i, st)
    ensures Inv(g, it, rank, vals, heap, k, i + 1, st)
  {
  }

  lemma {:induction false} NextRankKeepsInv<V, H>(g: Graph, it: Interp<V, H>, rank: seq<nat>, vals: seq<V>, heap: H, k: nat, st: State<V, H>)
    requires |rank| == |g| == |vals|
    requires Inv(g, it, rank, vals, heap, k, |g|, st)
    ensures Inv(g, it, rank, vals, heap, k + 1, 0, st)
  {
  }

  lemma {:induction false} InitialInv<V, H>(g: Graph, it: Interp<V, H>, rank: seq<nat>, vals: seq<V>, heap: H)
    requires |rank| == |g| == |vals|
    ensures Inv(g, it, rank, vals, heap, 0, 0, State(map[], heap))
  {
    forall j | 0 <= j <= |g| && Frontier(g, rank, 0, 0, j)
      ensures heap == HeapAt(g, it, vals, heap, j)
    {
      HeapStable(g, it, vals, heap, 0, j);
    }
  }

  lemma {:induction false} FinalInv<V, H>(g: Graph, it: Interp<V, H>, rank: seq<nat>, top: nat, vals: seq<V>, heap: H, st: State<V, H>)
    requires Sound(g, rank, top) && |vals| == |g|
    requires Inv(g, it, rank, vals, heap, top, 0, st)
    ensures st == State(EnvOf(vals), HeapAt(g, it, vals, heap, |g|))
  {
  }

  // A reference explanation makes every sound schedule succeed ...

  lemma {:induction false} ExplainedStep<V, H>(g: Graph, it: Interp<V, H>, rank: seq<nat>, top: nat, vals: seq<V>, heap: H, i: nat, st: State<V, H>)
    requires Sound(g, rank, top) && |vals| == |g| && i < |g|
    requires Explains(g, it, vals, heap, i)
    requires Inv(g, it, rank, vals, heap, rank[i], i, st)
    ensures Step(g, it, i, st).Some?
    ensures Inv(g, it, rank, vals, heap, rank[i], i + 1, Step(g, it, i, st).value)
  {
    NodeSeesReference(g, it, rank, top, vals, heap, rank[i], i, st);
    PureIgnoresHeap(g, it, i, EnvOf(vals), st.heap, HeapAt(g, it, vals, heap, i));
    assert Eval(g, it, i, st.env, st.heap).Some? && Eval(g, it, i, st.env, st.heap).value.0 == vals[i];
    StepKeepsInv(g, it, rank, top, vals, heap, rank[i], i, st);
  }

  lemma {:induction false} ExplainedSubgraph<V, H>(g: Graph, it: Interp<V, H>, rank: seq<nat>, top: nat, vals: seq<V>, heap: H, k: nat, i: nat, st: State<V, H>)
    requires Sound(g, rank, top) && |vals| == |g| && i <= |g|
    requires forall x | 0 <= x < |g| :: Explains(g, it, vals, heap, x)
    requires Inv(g, it, rank, vals, heap, k, i, st)
    ensures RunSubgraph(g, it, rank, k, i, st).Some?
    ensures Inv(g, it, rank, vals, heap, k, |g|, RunSubgraph(g, it, rank, k, i, st).value)
    decreases |g| - i
  {
    assert |rank| == |g|;
    hide Eval, Inv, Sound, Explains;
    if i < |g| && rank[i] == k {
      assert Explains(g, it, vals, heap, i);
      ExplainedStep(g, it, rank, top, vals, heap, i, st);
      ExplainedSubgraph(g, it, rank, top, vals, heap, k, i + 1, Step(g, it, i, st).value);
    } else if i < |g| {
      SkipKeepsInv(g, it, rank, vals, heap, k, i, st);
      ExplainedSubgraph(g, it, rank, top, vals, heap, k, i + 1, st);
    }
  }

  lemma {:induction false} ExplainedRun<V, H>(g: Graph, it: Interp<V, H>, rank: seq<nat>, top: nat, vals: seq<V>, heap: H, k: nat, st: State<V, H>)
    requires Sound(g, rank, top) && |vals| == |g| && k <= top
    requires forall x | 0 <= x < |g| :: Explains(g, it, vals, heap, x)
    requires Inv(g, it, rank, vals, heap, k, 0, st)
    ensures RunRanked(g, it, rank, k, top, st) == Some(State(EnvOf(vals), HeapAt(g, it, vals, heap, |g|)))
    decreases top - k
  {
    assert |rank| == |g|;
    hide Inv, Sound, Explains, RunSubgraph;
    if k == top {
      FinalInv(g, it, rank, top, vals, heap, st);
    } else {
      ExplainedSubgraph(g, it, rank, top, vals, heap, k, 0, st);
      var st' := RunSubgraph(g, it, rank, k, 0, st).value;
      NextRankKeepsInv(g, it, rank, vals, heap, k, st');
      ExplainedRun(g, it, rank, top, vals, heap, k + 1, st');
    }
  }

  // ... and every sound schedule that succeeds yields a reference explanation.

  lemma {:induction false} SubgraphExtends<V, H>(g: Graph, it: Interp<V, H>, rank: seq<nat>, k: nat, i: nat, st: State<V, H>)
    requires |rank| == |g| && i <= |g|
    requires RunSubgraph(g, it, rank, k, i, st).Some?
    ensures var env' := RunSubgraph(g, it, rank, k, i, st).value.env;
            && env'.Keys == st.env.Keys + (set x | i <= x < |g| && rank[x] == k)
            && forall x | x in st.env && !(i <= x < |g| && rank[x] == k) :: env'[x] == st.env[x]
    decreases |g| - i
  {
    if i < |g| {
      SubgraphExtends(g, it, rank, k, i + 1, if rank[i] == k then Step(g, it, i, st).value else st);
    }
  }

  lemma {:induction false} RunExtends<V, H>(g: Graph, it: Interp<V, H>, rank: seq<nat>, k: nat, top: nat, st: State<V, H>)
    requires |rank| == |g| && k <= top
    requires RunRanked(g, it, rank, k, top, st).Some?
    ensures var env' := RunRanked(g, it, rank, k, top, st).value.env;
            && env'.Keys == st.env.Keys + (set x | 0 <= x < |g| && k <= rank[x] < top)
            && forall x | x in st.env && !(x < |g| && k <= rank[x] < top) :: env'[x] == st.env[x]
    decreases top - k
  {
    if k < top {
      SubgraphExtends(g, it, rank, k, 0, st);
      RunExtends(g, it, rank, k + 1, top, RunSubgraph(g, it, rank, k, 0, st).value);
    }
  }

  lemma {:induction false} SucceededStep<V, H>(g: Graph, it: Interp<V, H>, rank: seq<nat>, top: nat, vals: seq<V>, heap: H, i: nat, st: State<V, H>)
    requires Sound(g, rank, top) && |vals| == |g| && i < |g|
    requires Inv(g, it, rank, vals, heap, rank[i], i, st)
    requires Step(g, it, i, st).Some? && Step(g, it, i, st).value.env[i] == vals[i]
    ensures Explains(g, it, vals, heap, i)
    ensures Inv(g, it, rank, vals, heap, rank[i], i + 1, Step(g, it, i, st).value)
  {
    NodeSeesReference(g, it, rank, top, vals, heap, rank[i], i, st);
    PureIgnoresHeap(g, it, i, EnvOf(vals), st.heap, HeapAt(g, it, vals, heap, i));
    StepKeepsInv(g, it, rank, top, vals, heap, rank[i], i, st);
  }

  lemma {:induction false} SucceededSubgraph<V, H>(g: Graph, it: Interp<V, H>, rank: seq<nat>, top: nat, vals: seq<V>, heap: H, k: nat, i: nat, st: State<V, H>)
    requires Sound(g, rank, top) && |vals| == |g| && i <= |g|
    requires Inv(g, it, rank, vals, heap, k, i, st)
    requires RunSubgraph(g, it, rank, k, i, st).Some?
    requires forall x | x in RunSubgraph(g, it, rank, k, i, st).value.env && x < |g| :: RunSubgraph(g, it, rank, k, i, st).value.env[x] == vals[x]
    ensures forall x | i <= x < |g| && rank[x] == k :: Explains(g, it, vals, heap, x)
    ensures Inv(g, it, rank, vals, heap, k, |g|, RunSubgraph(g, it, rank, k, i, st).value)
    decreases |g| - i
  {
    hide Eval;
    if i < |g| && rank[i] == k {
      var st' := Step(g, it, i, st).value;
      SubgraphExtends(g, it, rank, k, i + 1, st');
      assert st'.env[i] == vals[i];
      SucceededStep(g, it, rank, top, vals, heap, i, st);
      SucceededSubgraph(g, it, rank, top, vals, heap, k, i + 1, st');
    } else if i < |g| {
      SkipKeepsInv(g, it, rank, vals, heap, k, i, st);
      SucceededSubgraph(g, it, rank, top, vals, heap, k, i + 1, st);
    }
  }

  lemma {:induction false} PureIgnoresHeap<V, H>(g: Graph, it: Interp<V, H>, i: nat, env: map<nat, V>, h: H, h': H)
    requires i < |g|
    ensures !g[i].Call? ==>
      match (Eval(g, it, i, env, h), Eval(g, it, i, env, h'))
      case (Some(r), Some(r')) => r.0 == r'.0 && r.1 == h
      case (None, None) => true
      case _ => false
  {
  }

  lemma {:induction false} SucceededRun<V, H>(g: Graph, it: Interp<V, H>, rank: seq<nat>, top: nat, vals: seq<V>, heap: H, k: nat, st: State<V, H>)
    requires Sound(g, rank, top) && |vals| == |g| && k <= top
    requires Inv(g, it, rank, vals, heap, k, 0, st)
    requires RunRanked(g, it, rank, k, top, st).Some?
    requires RunRanked(g, it, rank, k, top, st).value.env == EnvOf(vals)
    ensures forall x | 0 <= x < |g| && k <= rank[x] :: Explains(g, it, vals, heap, x)
    decreases top - k
  {
    if k < top {
      var st' := RunSubgraph(g, it, rank, k, 0, st).value;
      SubgraphExtends(g, it, rank, k, 0, st);
      RunExtends(g, it, rank, k + 1, top, st');
      SucceededSubgraph(g, it, rank, top, vals, heap, k, 0, st);
      NextRankKeepsInv(g, it, rank, vals, heap, k, st');
      SucceededRun(g, it, rank, top, vals, heap, k + 1, st');
    }
  }

  /** Two sound schedules of one graph give the same values and the same heap, or both raise. */
  lemma {:induction false} SoundSchedulesAgree<V, H>(g: Graph, it: Interp<V, H>, heap: H, rank: seq<nat>, top: nat, rank': seq<nat>, top': nat)
    requires Sound(g, rank, top) && Sound(g, rank', top')
    ensures RunRanked(g, it, rank, 0, top, State(map[], heap)) == RunRanked(g, it, rank', 0, top', State(map[], heap))
  {
    SuccessCarriesOver(g, it, heap, rank, top, rank', top');
    SuccessCarriesOver(g, it, heap, rank', top', rank, top);
  }

  lemma {:induction false} SuccessCarriesOver<V, H>(g: Graph, it: Interp<V, H>, heap: H, rank: seq<nat>, top: nat, rank': seq<nat>, top': nat)
    requires Sound(g, rank, top) && Sound(g, rank', top')
    ensures var r := RunRanked(g, it, rank, 0, top, State(map[], heap));
            r.Some? ==> RunRanked(g, it, rank', 0, top', State(map[], heap)) == r
  {
    var st := State(map[], heap);
    var r := RunRanked(g, it, rank, 0, top, st);
    if r.Some? {
      RunExtends(g, it, rank, 0, top, st);
      var vals := seq(|g|, x requires 0 <= x < |g| => r.value.env[x]);
      assert r.value.env == EnvOf(vals);
      InitialInv(g, it, rank, vals, heap);
      InitialInv(g, it, rank', vals, heap);
      SucceededRun(g, it, rank, top, vals, heap, 0, st);
      ExplainedRun(g, it, rank, top, vals, heap, 0, st);
      ExplainedRun(g, it, rank', top', vals, heap, 0, st);
    }
  }

  /******* Splitting preserves meaning *******/

  lemma {:induction false} SplitRankSound(g: Graph, ops: seq<string>)
    requires WellFormed(g)
    ensures Sound(g, SplitRank(g, ops), Counter(g, ops, |g|) + 3)
  {
    var rank := SplitRank(g, ops);
    forall i | 0 <= i < |g|
      ensures rank[i] <= Counter(g, ops, |g|) + 2
    {
      IdOfRoot(g, ops, i);
      CounterMonotone(g, ops, Root(g, i), |g|);
    }
    forall i | 0 <= i < |g|
      ensures EdgesAscend(g, rank, i)
    {
      forall a | a in Inputs(g[i]) && Numbered(g[i]) && Numbered(g[a]) {
        EdgeMonotone(g, ops, i, a);
      }
    }
    forall i, j | 0 <= i < j < |g| && g[i].Call? && g[j].Call?
      ensures rank[i] <= rank[j]
    {
      IdsMonotone(g, ops, i, j);
    }
  }

  lemma {:induction false} GraphOrderIsOneSubgraph<V, H>(g: Graph, it: Interp<V, H>, rank: seq<nat>, i: nat, st: State<V, H>)
    requires |rank| == |g| && i <= |g| && forall x | 0 <= x < |g| :: rank[x] == 0
    ensures RunGraph(g, it, i, st) == RunSubgraph(g, it, rank, 0, i, st)
    decreases |g| - i
  {
    if i < |g| && Step(g, it, i, st).Some? {
      GraphOrderIsOneSubgraph(g, it, rank, i + 1, Step(g, it, i, st).value);
    }
  }

  /**
    The main theorem: for every graph, every list of splitting ops and every meaning of the
    operators, the split module binds every node to the value it has in the unsplit graph and
    leaves the same heap, so the effects happened in the same order; or both raise.
   */
  lemma {:induction false} SplitPreservesMeaning<V, H>(g: Graph, ops: seq<string>, it: Interp<V, H>, heap: H)
    requires WellFormed(g)
    ensures RunSplit(g, ops, it, heap) == RunGraph(g, it, 0, State(map[], heap))
  {
    var one := seq(|g|, _ => 0);
    SplitRankSound(g, ops);
    SoundSchedulesAgree(g, it, heap, SplitRank(g, ops), Counter(g, ops, |g|) + 3, one, 1);
    GraphOrderIsOneSubgraph(g, it, one, 0, State(map[], heap));
    var st := State(map[], heap);
    var r := RunSubgraph(g, it, one, 0, 0, st);
    assert RunRanked(g, it, one, 0, 1, st) == r by {
      if r.Some? {
        assert RunRanked(g, it, one, 1, 1, r.value) == r;
      }
    }
  }
}
