/**
  What the partition signatures are for: run each partition in a scope that holds only its
  declared inputs, hand back only its declared outputs, deallocate what it declares, and the
  graph outputs come out as if all nodes had run in one scope.
 */
module PartitionRuns {
  import opened Wrappers
  import opened PartitionSignature

  /******* Running nodes *******/

  /** Names a node uses and does not itself output. */
  function Used(n: Node): set<Name> {
    n.readNames + n.writeNames - n.outputs
  }

  /** The storages a node must find. */
  function Needs(s: Scheduler, n: Node): set<Name> {
    set x | x in Used(n) && !IsNoneLayout(s, x) :: Real(s, x)
  }

  /** The storages a node writes: the ones it allocates and the ones it mutates. */
  function Makes(s: Scheduler, n: Node): set<Name> {
    set x | x in n.outputs && !IsNoneLayout(s, x) :: Real(s, x)
  }

  function Allocates(s: Scheduler, n: Node): set<Name> {
    set x | x in n.outputs && x !in s.realNames && !IsNoneLayout(s, x)
  }

  /** The storages a node frees: names of graph buffers that own storage. */
  function Frees(s: Scheduler, n: Node): set<Name> {
    set x | x in n.lastUsage && x in s.nameToNode && !IsNoneLayout(s, x)
  }

  type Kernels<!V> = (Node, map<Name, V>, Name) -> V

  function Restrict<V>(st: map<Name, V>, names: set<Name>): map<Name, V> {
    map x | x in names && x in st :: st[x]
  }

  /** A node reads its storages, writes its own, and frees; None when one it reads or frees is missing. */
  function Exec<V>(s: Scheduler, run: Kernels<V>, n: Node, st: map<Name, V>): Option<map<Name, V>> {
    if Needs(s, n) <= st.Keys && Frees(s, n) <= st.Keys + Makes(s, n) then
      var found := Restrict(st, Needs(s, n));
      Some(st + (map r | r in Makes(s, n) :: run(n, found, r)) - Frees(s, n))
    else None
  }

  /** Nodes i, i + 1, ... of a partition in one scope. */
  function RunNodes<V>(s: Scheduler, run: Kernels<V>, p: Partition, i: nat, st: map<Name, V>): Option<map<Name, V>>
    requires i <= |p|
    decreases |p| - i
  {
    if i == |p| then Some(st)
    else
      var st' :- Exec(s, run, p[i], st);
      RunNodes(s, run, p, i + 1, st')
  }

  /** All partitions from k on, in one scope: the graph before partitioning. */
  function RunWhole<V>(s: Scheduler, run: Kernels<V>, parts: seq<Partition>, k: nat, st: map<Name, V>): Option<map<Name, V>>
    requires k <= |parts|
    decreases |parts| - k
  {
    if k == |parts| then Some(st)
    else
      var st' :- RunNodes(s, run, parts[k], 0, st);
      RunWhole(s, run, parts, k + 1, st')
  }

  /** One partition called from the scope `c` as its signature says. */
  function RunPartition<V>(s: Scheduler, run: Kernels<V>, p: Partition, sig: Signature, c: map<Name, V>): Option<map<Name, V>> {
    if !(sig.inputs + sig.constantNames <= c.Keys) then None
    else
      var l :- RunNodes(s, run, p, 0, Restrict(c, sig.inputs + sig.constantNames));
      if !(sig.outputs <= l.Keys) then None
      else Some((c - (set x | x in sig.inputDeallocation && sig.inputDeallocation[x])) + Restrict(l, sig.outputs))
  }

  function RunPartitioned<V>(s: Scheduler, run: Kernels<V>, parts: seq<Partition>, sigs: seq<Signature>, k: nat, c: map<Name, V>): Option<map<Name, V>>
    requires k <= |parts| == |sigs|
    decreases |parts| - k
  {
    if k == |parts| then Some(c)
    else
      var c' :- RunPartition(s, run, parts[k], sigs[k], c);
      RunPartitioned(s, run, parts, sigs, k + 1, c')
  }

  /******* Scheduled graphs *******/

  /** Node m comes later than node n: it does not make what n made or used, nor touch what n freed. */
  ghost predicate Follows(s: Scheduler, n: Node, m: Node) {
    && n.outputs !! m.outputs
    && Used(n) + Needs(s, n) + n.lastUsage !! m.outputs
    && Frees(s, n) !! Needs(s, m) + Makes(s, m) + Frees(s, m)
  }

  ghost predicate NodeOk(s: Scheduler, n: Node) {
    && n.outputs <= s.nameToNode
    && Needs(s, n) <= s.nameToNode + s.constants
    // a mutation uses the storage it mutates
    && (forall o | o in n.outputs && o in s.realNames && !IsNoneLayout(s, o) :: Real(s, o) in Needs(s, n) && Real(s, o) in s.nameToNode)
    // buffers are freed by their real names, and graph outputs are not
    && (forall r | r in n.lastUsage && r in s.nameToNode :: r !in s.realNames)
    && (forall g | g in s.graphOutputs :: Real(s, g) !in Frees(s, n))
  }

  ghost predicate At(parts: seq<Partition>, k: nat, i: nat) {
    k < |parts| && i < |parts[k]|
  }

  ghost predicate Before(k: nat, i: nat, j: nat, l: nat) {
    k < j || (k == j && i < l)
  }

  /** Name y was output by a node in front of node (k, i). */
  ghost predicate MadeBefore(parts: seq<Partition>, k: nat, i: nat, y: Name) {
    exists j: nat, l: nat :: At(parts, j, l) && Before(j, l, k, i) && y in parts[j][l].outputs
  }

  /** What a mutation's output is called agrees in layout with the storage it stands for. */
  ghost predicate LayoutsAgree(s: Scheduler) {
    forall n | n in s.realNames :: IsNoneLayout(s, n) == IsNoneLayout(s, s.realNames[n])
  }

  /** Schedule order, unique producers, and frees only after the last use. */
  ghost predicate Scheduled(s: Scheduler, parts: seq<Partition>) {
    && LayoutsAgree(s)
    && (forall k: nat, i: nat | At(parts, k, i) :: NodeOk(s, parts[k][i]))
    && (forall k: nat, i: nat, j: nat, l: nat | At(parts, k, i) && At(parts, j, l) && Before(k, i, j, l) :: Follows(s, parts[k][i], parts[j][l]))
    && (forall k: nat, i: nat, y | At(parts, k, i) && y in Used(parts[k][i]) && y in s.realNames :: MadeBefore(parts, k, i, y))
    && (forall g | g in s.graphOutputs && g in s.realNames :: MadeBefore(parts, |parts|, 0, g))
  }

  /******* Names *******/

  lemma {:induction false} RealLayout(s: Scheduler, x: Name)
    requires LayoutsAgree(s)
    ensures IsNoneLayout(s, Real(s, x)) == IsNoneLayout(s, x)
  {
  }

  lemma {:induction false} NeedIsStorage(s: Scheduler, n: Node, r: Name)
    requires LayoutsAgree(s) && r in Needs(s, n)
    ensures r !in s.realNames && !IsNoneLayout(s, r)
  {
  }

  lemma {:induction false} OutputAt(p: Partition, x: Name) returns (i: nat)
    requires x in OutputNames(p)
    ensures i < |p| && x in p[i].outputs
  {
    var n :| n in p && x in n.outputs;
    i :| 0 <= i < |p| && p[i] == n;
  }

  lemma {:induction false} FreedAt(p: Partition, x: Name) returns (i: nat)
    requires x in FreedNames(p)
    ensures i < |p| && x in p[i].lastUsage
  {
    var n :| n in p && x in n.lastUsage;
    i :| 0 <= i < |p| && p[i] == n;
  }

  lemma {:induction false} InputIntro(s: Scheduler, p: Partition, i: nat, y: Name)
    requires i < |p| && y in Used(p[i]) && !IsNoneLayout(s, y) && y !in OutputNames(p)
    ensures Real(s, y) in InputNames(s, p)
  {
  }

  lemma {:induction false} FreedIntro(s: Scheduler, p: Partition, i: nat, r: Name)
    requires i < |p| && r in p[i].lastUsage && r !in OutputNames(p) && r in s.nameToNode
    ensures r in InputNames(s, p)
  {
  }

  /** A partition input is needed, or else freed, by some node of the partition. */
  lemma {:induction false} InputAt(s: Scheduler, p: Partition, x: Name) returns (i: nat, y: Name)
    requires x in InputNames(s, p)
    ensures i < |p|
    ensures || (y in Used(p[i]) && !IsNoneLayout(s, y) && y !in OutputNames(p) && Real(s, y) == x && x in Needs(s, p[i]))
            || (x in p[i].lastUsage && x !in OutputNames(p) && x in s.nameToNode)
  {
    if z :| z in UsedNames(p) && !IsNoneLayout(s, z) && z !in OutputNames(p) && Real(s, z) == x {
      var n :| n in p && z in n.readNames + n.writeNames;
      i :| 0 <= i < |p| && p[i] == n;
      assert n.outputs <= OutputNames(p);
      y := z;
    } else {
      i := FreedAt(p, x);
      y := x;
    }
  }

  /** A mutation's real name is needed by the mutation itself, so it cannot be made later. */
  lemma {:induction false} RenamedNotMadeLater(s: Scheduler, parts: seq<Partition>, k: nat, i: nat, y: Name, j: nat, l: nat)
    requires Scheduled(s, parts) && At(parts, k, i) && y in parts[k][i].outputs && y in s.realNames && !IsNoneLayout(s, y)
    requires At(parts, j, l) && Before(k, i, j, l)
    ensures Real(s, y) !in parts[j][l].outputs
  {
  }

  lemma {:induction false} MadeAt(parts: seq<Partition>, k: nat, i: nat, y: Name) returns (j: nat, l: nat)
    requires MadeBefore(parts, k, i, y)
    ensures At(parts, j, l) && Before(j, l, k, i) && y in parts[j][l].outputs
  {
    j, l :| At(parts, j, l) && Before(j, l, k, i) && y in parts[j][l].outputs;
  }

  /** What a node needs, under whatever name, is not made by that node or a later one. */
  lemma {:induction false} NeedNotMadeLater(s: Scheduler, parts: seq<Partition>, k: nat, i: nat, r: Name, j: nat, l: nat)
    requires Scheduled(s, parts) && At(parts, k, i) && At(parts, j, l) && !Before(j, l, k, i)
    requires r in Needs(s, parts[k][i])
    ensures r !in parts[j][l].outputs
  {
  }

  lemma {:induction false} UsedNotMadeLater(s: Scheduler, parts: seq<Partition>, k: nat, i: nat, y: Name, l: nat)
    requires Scheduled(s, parts) && At(parts, k, i) && At(parts, k, l) && y in Used(parts[k][i])
    ensures i <= l ==> y !in parts[k][l].outputs
  {
  }

  lemma {:induction false} NotOutputAt(p: Partition, x: Name)
    ensures x !in OutputNames(p) <==> forall i | 0 <= i < |p| :: x !in p[i].outputs
  {
  }

  /** Partition inputs are by real name, and are not made in the partition. */
  lemma {:induction false} InputNotOutput(s: Scheduler, parts: seq<Partition>, k: nat, x: Name)
    requires Scheduled(s, parts) && k < |parts| && x in InputNames(s, parts[k])
    ensures x !in OutputNames(parts[k]) && x !in s.realNames
  {
    hide InputNames, OutputNames;
    var p := parts[k];
    var i, y := InputAt(s, p, x);
    if x in p[i].lastUsage && x !in OutputNames(p) {
      assert At(parts, k, i);
      assert NodeOk(s, p[i]);
    } else {
      NeedIsStorage(s, p[i], x);
      NotOutputAt(p, y);
      if y != x {
        assert At(parts, k, i);
        var j, l := MadeAt(parts, k, i, y);
        forall m | 0 <= m < |p|
          ensures x !in p[m].outputs
        {
          RenamedNotMadeLater(s, parts, j, l, y, k, m);
        }
        NotOutputAt(p, x);
      }
    }
  }

  /** A name without storage becomes an input exactly when the partition frees it and does not output it. */
  lemma {:induction false} NoneLayoutInputIff(s: Scheduler, p: Partition, x: Name)
    requires LayoutsAgree(s) && IsNoneLayout(s, x)
    ensures x in InputNames(s, p) <==> x in FreedNames(p) && x !in OutputNames(p) && x in s.nameToNode
  {
    hide OutputNames, FreedNames, UsedNames;
    if y :| y in UsedNames(p) && !IsNoneLayout(s, y) && y !in OutputNames(p) && Real(s, y) == x {
      RealLayout(s, y);
    }
  }

  /** Of the known names without storage, the partition frees only its own outputs. */
  ghost predicate OwnFrees(s: Scheduler, p: Partition) {
    forall x | x in FreedNames(p) && x in s.nameToNode && IsNoneLayout(s, x) :: x in OutputNames(p)
  }

  /** The promise that no name without storage is taken in is kept exactly under that condition. */
  lemma {:induction false} InputsOwnStorageIff(s: Scheduler, p: Partition)
    requires LayoutsAgree(s)
    ensures OwnFrees(s, p) <==> forall x | x in InputNames(s, p) :: !IsNoneLayout(s, x)
  {
    hide InputNames, OutputNames, FreedNames, IsNoneLayout;
    forall x | IsNoneLayout(s, x)
      ensures x in InputNames(s, p) <==> x in FreedNames(p) && x !in OutputNames(p) && x in s.nameToNode
    {
      NoneLayoutInputIff(s, p, x);
    }
  }

  /** What a node of the partition needs and the partition does not make is a partition input. */
  lemma {:induction false} NeedIsInput(s: Scheduler, parts: seq<Partition>, k: nat, i: nat, r: Name)
    requires Scheduled(s, parts) && At(parts, k, i)
    requires r in Needs(s, parts[k][i]) && r !in OutputNames(parts[k])
    ensures r in InputNames(s, parts[k])
    decreases i
  {
    hide InputNames, OutputNames;
    var p := parts[k];
    var y :| y in Used(p[i]) && !IsNoneLayout(s, y) && Real(s, y) == r;
    if y in OutputNames(p) {
      var m := OutputAt(p, y);
      UsedNotMadeLater(s, parts, k, i, y, m);
      assert At(parts, k, m);
      assert NodeOk(s, p[m]);
      NeedIsInput(s, parts, k, m, r);
    } else {
      InputIntro(s, p, i, y);
    }
  }

  /******* What a partition can reach *******/

  /** What the partition is given. */
  ghost function Given(s: Scheduler, p: Partition): set<Name> {
    InputNames(s, p) * (s.nameToNode + s.constants)
  }

  /** What the first i nodes allocate. */
  ghost function Allocated(s: Scheduler, p: Partition, i: nat): (a: set<Name>)
    requires i <= |p|
    ensures forall l | 0 <= l < i :: Allocates(s, p[l]) <= a
  {
    if i == 0 then {} else Allocated(s, p, i - 1) + Allocates(s, p[i - 1])
  }

  lemma {:induction false} NeedReachable(s: Scheduler, parts: seq<Partition>, k: nat, i: nat, r: Name)
    requires Scheduled(s, parts) && At(parts, k, i) && r in Needs(s, parts[k][i])
    ensures r in Given(s, parts[k]) + Allocated(s, parts[k], i)
  {
    hide InputNames, OutputNames;
    var p := parts[k];
    NeedIsStorage(s, p[i], r);
    if r in OutputNames(p) {
      var m := OutputAt(p, r);
      assert m < i by {
        if i <= m { NeedNotMadeLater(s, parts, k, i, r, k, m); }
      }
      assert r in Allocates(s, p[m]);
    } else {
      NeedIsInput(s, parts, k, i, r);
      assert NodeOk(s, p[i]);
    }
  }

  lemma {:induction false} FreedNotMadeLater(s: Scheduler, parts: seq<Partition>, k: nat, i: nat, j: nat, l: nat)
    requires Scheduled(s, parts) && At(parts, k, i) && At(parts, j, l)
    ensures Before(k, i, j, l) ==> parts[k][i].lastUsage !! parts[j][l].outputs
  {
  }

  lemma {:induction false} FreeReachable(s: Scheduler, parts: seq<Partition>, k: nat, i: nat, r: Name)
    requires Scheduled(s, parts) && At(parts, k, i) && r in Frees(s, parts[k][i])
    ensures r in Given(s, parts[k]) + Allocated(s, parts[k], i + 1)
  {
    hide InputNames, OutputNames;
    var p := parts[k];
    assert NodeOk(s, p[i]);
    if r in OutputNames(p) {
      var m := OutputAt(p, r);
      FreedNotMadeLater(s, parts, k, i, k, m);
      assert r in Allocates(s, p[m]);
    } else {
      FreedIntro(s, p, i, r);
    }
  }

  /******* The partition's scope follows the one big scope *******/

  /** Of the names in `a`, the scope l holds all that g holds, with the same values. */
  ghost predicate Agree<V>(a: set<Name>, g: map<Name, V>, l: map<Name, V>) {
    forall r | r in a && r in g :: r in l && l[r] == g[r]
  }

  lemma {:induction false} ExecFollows<V>(s: Scheduler, run: Kernels<V>, n: Node, a: set<Name>, g: map<Name, V>, l: map<Name, V>)
    requires Agree(a, g, l) && Exec(s, run, n, g).Some?
    requires Needs(s, n) <= a && Frees(s, n) <= a + Allocates(s, n)
    ensures Exec(s, run, n, l).Some?
    ensures Agree(a + Allocates(s, n), Exec(s, run, n, g).value, Exec(s, run, n, l).value)
  {
    hide Needs, Makes, Allocates, Frees;
    AllocatesMakes(s, n);
    assert Restrict(g, Needs(s, n)) == Restrict(l, Needs(s, n));
    assert Frees(s, n) <= l.Keys + Makes(s, n);
  }

  lemma {:induction false} AllocatesMakes(s: Scheduler, n: Node)
    ensures Allocates(s, n) <= Makes(s, n)
  {
    assert forall x | x in Allocates(s, n) :: Real(s, x) == x;
  }

  lemma {:induction false} RunFollows<V>(s: Scheduler, run: Kernels<V>, parts: seq<Partition>, k: nat, i: nat, g: map<Name, V>, l: map<Name, V>)
    requires Scheduled(s, parts) && k < |parts| && i <= |parts[k]|
    requires Agree(Given(s, parts[k]) + Allocated(s, parts[k], i), g, l)
    requires RunNodes(s, run, parts[k], i, g).Some?
    ensures RunNodes(s, run, parts[k], i, l).Some?
    ensures Agree(Given(s, parts[k]) + Allocated(s, parts[k], |parts[k]|), RunNodes(s, run, parts[k], i, g).value, RunNodes(s, run, parts[k], i, l).value)
    decreases |parts[k]| - i
  {
    hide Given, Exec, Needs, Makes, Allocates, Frees;
    var p := parts[k];
    if i < |p| {
      var a := Given(s, p) + Allocated(s, p, i);
      forall r | r in Needs(s, p[i])
        ensures r in a
      {
        NeedReachable(s, parts, k, i, r);
      }
      forall r | r in Frees(s, p[i])
        ensures r in a + Allocates(s, p[i])
      {
        FreeReachable(s, parts, k, i, r);
      }
      ExecFollows(s, run, p[i], a, g, l);
      assert a + Allocates(s, p[i]) == Given(s, p) + Allocated(s, p, i + 1);
      RunFollows(s, run, parts, k, i + 1, Exec(s, run, p[i], g).value, Exec(s, run, p[i], l).value);
    }
  }

  /******* What the one big scope holds *******/

  lemma {:induction false} ExecKeeps<V>(s: Scheduler, run: Kernels<V>, n: Node, g: map<Name, V>, r: Name)
    requires Exec(s, run, n, g).Some? && r !in n.lastUsage
    ensures r in g || r in Needs(s, n) || r in Makes(s, n) ==> r in Exec(s, run, n, g).value
  {
    hide Needs, Makes, IsNoneLayout;
  }

  lemma {:induction false} Stays<V>(s: Scheduler, run: Kernels<V>, p: Partition, i: nat, g: map<Name, V>, r: Name)
    requires i <= |p| && RunNodes(s, run, p, i, g).Some? && r in g && r !in FreedNames(p)
    ensures r in RunNodes(s, run, p, i, g).value
    decreases |p| - i
  {
    hide Exec, FreedNames;
    if i < |p| {
      FreedOut(p, i);
      ExecKeeps(s, run, p[i], g, r);
      Stays(s, run, p, i + 1, Exec(s, run, p[i], g).value, r);
    }
  }

  /** What some node needs or makes, and none frees, is there at the end. */
  lemma {:induction false} Reached<V>(s: Scheduler, run: Kernels<V>, p: Partition, i: nat, j: nat, g: map<Name, V>, r: Name)
    requires i <= j < |p| && RunNodes(s, run, p, i, g).Some? && r in Needs(s, p[j]) + Makes(s, p[j]) && r !in FreedNames(p)
    ensures r in RunNodes(s, run, p, i, g).value
    decreases j - i
  {
    hide Exec, FreedNames, Needs, Makes;
    var g' := Exec(s, run, p[i], g).value;
    if i == j {
      FreedOut(p, i);
      ExecKeeps(s, run, p[i], g, r);
      Stays(s, run, p, i + 1, g', r);
    } else {
      Reached(s, run, p, i + 1, j, g', r);
    }
  }

  /** A node finds already there whatever it does not output itself. */
  lemma {:induction false} ExecFinds<V>(s: Scheduler, run: Kernels<V>, n: Node, g: map<Name, V>, r: Name)
    requires NodeOk(s, n) && LayoutsAgree(s) && Exec(s, run, n, g).Some? && r !in n.outputs && !IsNoneLayout(s, r)
    requires r in Needs(s, n) || r in Frees(s, n) || r in Exec(s, run, n, g).value
    ensures r in g
  {
  }

  lemma {:induction false} FoundAtStart<V>(s: Scheduler, run: Kernels<V>, parts: seq<Partition>, k: nat, i: nat, j: nat, g: map<Name, V>, r: Name)
    requires Scheduled(s, parts) && k < |parts| && i <= j < |parts[k]| && RunNodes(s, run, parts[k], i, g).Some?
    requires r !in OutputNames(parts[k]) && !IsNoneLayout(s, r)
    requires r in Needs(s, parts[k][j]) || r in Frees(s, parts[k][j])
    ensures r in g
    decreases j - i
  {
    hide Exec, OutputNames, Needs, IsNoneLayout;
    var p := parts[k];
    assert At(parts, k, i);
    NotOutputAt(p, r);
    if i < j {
      FoundAtStart(s, run, parts, k, i + 1, j, Exec(s, run, p[i], g).value, r);
    }
    ExecFinds(s, run, p[i], g, r);
  }

  lemma {:induction false} Untouched<V>(s: Scheduler, run: Kernels<V>, p: Partition, i: nat, g: map<Name, V>, r: Name)
    requires i <= |p| && RunNodes(s, run, p, i, g).Some? && r in RunNodes(s, run, p, i, g).value
    requires forall l | i <= l < |p| :: r !in Makes(s, p[l])
    ensures r in g && RunNodes(s, run, p, i, g).value[r] == g[r]
    decreases |p| - i
  {
    if i < |p| {
      Untouched(s, run, p, i + 1, Exec(s, run, p[i], g).value, r);
    }
  }

  /******* Liveness *******/

  /** Storage r is still to be used or freed by partition k or later, or is a graph output. */
  ghost predicate Live(s: Scheduler, parts: seq<Partition>, k: nat, r: Name) {
    || (exists j: nat, l: nat :: k <= j && At(parts, j, l) && (r in Needs(s, parts[j][l]) || r in Frees(s, parts[j][l])))
    || (exists g :: g in s.graphOutputs && !IsNoneLayout(s, g) && Real(s, g) == r)
  }

  lemma {:induction false} LiveOwnsStorage(s: Scheduler, parts: seq<Partition>, k: nat, r: Name)
    requires Scheduled(s, parts) && Live(s, parts, k, r)
    ensures !IsNoneLayout(s, r)
  {
    if j: nat, l: nat :| k <= j && At(parts, j, l) && r in Needs(s, parts[j][l]) {
      NeedIsStorage(s, parts[j][l], r);
    } else if g :| g in s.graphOutputs && !IsNoneLayout(s, g) && Real(s, g) == r {
      RealLayout(s, g);
    }
  }

  lemma {:induction false} LiveNotFreed(s: Scheduler, parts: seq<Partition>, k: nat, r: Name)
    requires Scheduled(s, parts) && k < |parts| && Live(s, parts, k + 1, r)
    ensures r in s.nameToNode ==> r !in FreedNames(parts[k])
  {
    hide Needs, Makes, IsNoneLayout;
    LiveOwnsStorage(s, parts, k + 1, r);
    forall i | 0 <= i < |parts[k]|
      ensures r in s.nameToNode ==> r !in parts[k][i].lastUsage
    {
      assert At(parts, k, i);
      assert NodeOk(s, parts[k][i]);
      if j: nat, l: nat :| k + 1 <= j && At(parts, j, l) && (r in Needs(s, parts[j][l]) || r in Frees(s, parts[j][l])) {
        assert Follows(s, parts[k][i], parts[j][l]);
      }
    }
    if r in FreedNames(parts[k]) {
      var i := FreedAt(parts[k], r);
    }
  }

  /** An unmet name is a graph output or an input of a later partition. */
  lemma {:induction false} UnmetSource(s: Scheduler, parts: seq<Partition>, k: nat, x: Name)
    requires k <= |parts| && x in Unmet(s, parts, k)
    ensures x in s.graphOutputs || exists j :: k <= j < |parts| && x in InputNames(s, parts[j])
    decreases |parts| - k
  {
    hide InputNames, ReturnedNames;
    if k < |parts| && x !in InputNames(s, parts[k]) {
      UnmetSource(s, parts, k + 1, x);
    }
  }

  lemma {:induction false} InputLive(s: Scheduler, parts: seq<Partition>, k: nat, j: nat, x: Name)
    requires k <= j < |parts| && x in InputNames(s, parts[j]) && !IsNoneLayout(s, x)
    ensures Live(s, parts, k, x)
  {
  }

  lemma {:induction false} UnmetLive(s: Scheduler, parts: seq<Partition>, k: nat, x: Name)
    requires Scheduled(s, parts) && k <= |parts| && x in Unmet(s, parts, k) && !IsNoneLayout(s, x)
    ensures Live(s, parts, k, Real(s, x))
  {
    hide InputNames, Unmet, OutputNames, Needs;
    UnmetSource(s, parts, k, x);
    if x !in s.graphOutputs {
      var j :| k <= j < |parts| && x in InputNames(s, parts[j]);
      InputNotOutput(s, parts, j, x);
      InputLive(s, parts, k, j, x);
    }
  }

  /** A storage that is unmet stays unmet in front of every partition that does not make it. */
  lemma {:induction false} UnmetStep(s: Scheduler, parts: seq<Partition>, k: nat, r: Name)
    requires Scheduled(s, parts) && k < |parts| && r in Unmet(s, parts, k + 1)
    requires !IsNoneLayout(s, r) && r !in OutputNames(parts[k])
    ensures r in Unmet(s, parts, k)
  {
    hide InputNames, OutputNames, Needs;
    var p, after := parts[k], Unmet(s, parts, k + 1);
    assert Unmet(s, parts, k) == InputNames(s, p) + (after - ReturnedNames(s, p, after));
    if r in ReturnedNames(s, p, after) {
      var o :| Real(s, o) == r && (o in OutputNames(p) * after || o in InputNames(s, p));
      if o in InputNames(s, p) {
        InputNotOutput(s, parts, k, o);
        assert Real(s, o) == o;
      } else {
        var l := OutputAt(p, o);
        RealLayout(s, o);
        assert At(parts, k, l);
        assert NodeOk(s, p[l]);
        NeedIsInput(s, parts, k, l, r);
      }
    }
  }

  lemma {:induction false} UnmetPersists(s: Scheduler, parts: seq<Partition>, k: nat, j: nat, r: Name)
    requires Scheduled(s, parts) && k <= j <= |parts| && r in Unmet(s, parts, j) && !IsNoneLayout(s, r)
    requires forall m | k <= m < j :: r !in OutputNames(parts[m])
    ensures r in Unmet(s, parts, k)
    decreases j
  {
    hide Unmet, OutputNames;
    if k < j {
      UnmetStep(s, parts, j - 1, r);
      UnmetPersists(s, parts, k, j - 1, r);
    }
  }

  /** The storages that partition k makes are made by no other. */
  lemma {:induction false} UniqueProducer(s: Scheduler, parts: seq<Partition>, k: nat, j: nat, r: Name)
    requires Scheduled(s, parts) && k < |parts| && j < |parts| && k != j && r in OutputNames(parts[k])
    ensures r !in OutputNames(parts[j])
  {
  }

  /** A storage used later is unmet right behind the partition that makes it. */
  lemma {:induction false} TouchedLaterUnmet(s: Scheduler, parts: seq<Partition>, k: nat, r: Name, j: nat, l: nat)
    requires Scheduled(s, parts) && k < j && At(parts, j, l) && r in OutputNames(parts[k])
    requires r in Needs(s, parts[j][l]) || r in Frees(s, parts[j][l])
    ensures r in Unmet(s, parts, k + 1) && !IsNoneLayout(s, r)
  {
    hide InputNames, OutputNames, ReturnedNames;
    UniqueProducer(s, parts, k, j, r);
    assert NodeOk(s, parts[j][l]);
    if r in Needs(s, parts[j][l]) {
      NeedIsStorage(s, parts[j][l], r);
      NeedIsInput(s, parts, j, l, r);
    } else {
      FreedIntro(s, parts[j], l, r);
    }
    assert r in Unmet(s, parts, j);
    forall m | k + 1 <= m < j
      ensures r !in OutputNames(parts[m])
    {
      UniqueProducer(s, parts, k, m, r);
    }
    UnmetPersists(s, parts, k + 1, j, r);
  }

  /** A renamed graph output stays unmet all the way: only real names are crossed off. */
  lemma {:induction false} RenamedPersists(s: Scheduler, parts: seq<Partition>, k: nat, g: Name)
    requires k <= |parts| && g in s.graphOutputs && g in s.realNames
    ensures g in Unmet(s, parts, k)
    decreases |parts| - k
  {
    hide InputNames, OutputNames;
    if k < |parts| {
      RenamedPersists(s, parts, k + 1, g);
    }
  }

  lemma {:induction false} ReturnedIntro(s: Scheduler, p: Partition, unmet: set<Name>, o: Name)
    requires !IsNoneLayout(s, Real(s, o))
    requires (o in OutputNames(p) && o in unmet) || (o in InputNames(s, p) && o in s.nameToNode && o !in FreedNames(p))
    ensures Real(s, o) in OutputBuffers(s, p, unmet)
  {
  }

  lemma {:induction false} ReturnedElim(s: Scheduler, p: Partition, unmet: set<Name>, r: Name) returns (o: Name)
    requires r in OutputBuffers(s, p, unmet)
    ensures Real(s, o) == r && !IsNoneLayout(s, r)
    ensures (o in OutputNames(p) && o in unmet) || (o in InputNames(s, p) && o in s.nameToNode && o !in FreedNames(p))
  {
    hide InputNames, OutputNames, FreedNames, IsNoneLayout;
    var extra := set x | x in InputNames(s, p) && x in s.nameToNode && x !in FreedNames(p);
    o :| o in OutputNames(p) * unmet + extra && Real(s, o) == r;
  }

  /** A storage that a partition allocates, and that is live behind it, is handed back. */
  lemma {:induction false} LiveAllocatedReturned(s: Scheduler, parts: seq<Partition>, k: nat, r: Name)
    requires Scheduled(s, parts) && k < |parts| && Live(s, parts, k + 1, r) && r in OutputNames(parts[k]) && r !in s.realNames
    ensures r in OutputBuffers(s, parts[k], Unmet(s, parts, k + 1))
  {
    hide InputNames, OutputNames, ReturnedNames, OutputBuffers, Unmet, Needs, Makes, IsNoneLayout;
    var p := parts[k];
    if j: nat, l: nat :| k + 1 <= j && At(parts, j, l) && (r in Needs(s, parts[j][l]) || r in Frees(s, parts[j][l])) {
      TouchedLaterUnmet(s, parts, k, r, j, l);
      ReturnedIntro(s, p, Unmet(s, parts, k + 1), r);
    } else {
      var g :| g in s.graphOutputs && !IsNoneLayout(s, g) && Real(s, g) == r;
      RealLayout(s, g);
      if g == r {
        forall m | k + 1 <= m < |parts|
          ensures r !in OutputNames(parts[m])
        {
          UniqueProducer(s, parts, k, m, r);
        }
        GraphOutputUnmet(s, parts, r);
        UnmetPersists(s, parts, k + 1, |parts|, r);
        ReturnedIntro(s, p, Unmet(s, parts, k + 1), r);
      } else {
        var j, l := MadeAt(parts, |parts|, 0, g);
        assert NodeOk(s, parts[j][l]);
        if j < k {
          var m := OutputAt(p, r);
          RenamedNotMadeLater(s, parts, j, l, g, k, m);
        } else if j == k {
          RenamedPersists(s, parts, k + 1, g);
          NotOutputAt(p, g);
          ReturnedIntro(s, p, Unmet(s, parts, k + 1), g);
        } else {
          assert false;  // the mutation at (j, l) would use r later
        }
      }
    }
  }

  lemma {:induction false} GraphOutputUnmet(s: Scheduler, parts: seq<Partition>, g: Name)
    requires g in s.graphOutputs
    ensures g in Unmet(s, parts, |parts|)
  {
  }

  /** Whatever a partition writes, by allocation or mutation, and is live behind it, is handed back. */
  lemma {:induction false} LiveMadeReturned(s: Scheduler, parts: seq<Partition>, k: nat, i: nat, r: Name)
    requires Scheduled(s, parts) && At(parts, k, i) && Live(s, parts, k + 1, r) && r in Makes(s, parts[k][i])
    ensures r in OutputBuffers(s, parts[k], Unmet(s, parts, k + 1))
  {
    hide InputNames, OutputNames, ReturnedNames, OutputBuffers, Unmet, Live, Needs;
    var p := parts[k];
    var o :| o in p[i].outputs && !IsNoneLayout(s, o) && Real(s, o) == r;
    RealLayout(s, o);
    if r in OutputNames(p) {
      LiveAllocatedReturned(s, parts, k, r);
    } else {
      NotOutputAt(p, r);
      assert NodeOk(s, p[i]);
      NeedIsInput(s, parts, k, i, r);
      LiveNotFreed(s, parts, k, r);
      ReturnedIntro(s, p, Unmet(s, parts, k + 1), r);
    }
  }

  /** What a partition hands back is there when it ends, and within its reach. */
  lemma {:induction false} ReturnedReached<V>(s: Scheduler, run: Kernels<V>, parts: seq<Partition>, k: nat, g: map<Name, V>, r: Name)
    requires Scheduled(s, parts) && k < |parts| && RunNodes(s, run, parts[k], 0, g).Some?
    requires r in OutputBuffers(s, parts[k], Unmet(s, parts, k + 1))
    ensures r in RunNodes(s, run, parts[k], 0, g).value
    ensures r in Given(s, parts[k]) + Allocated(s, parts[k], |parts[k]|)
    ensures r in s.nameToNode
  {
    hide InputNames, OutputNames, FreedNames, ReturnedNames, OutputBuffers, Unmet, Live, RunNodes;
    var p := parts[k];
    var o := ReturnedElim(s, p, Unmet(s, parts, k + 1), r);
    RealLayout(s, o);
    if o in OutputNames(p) && o in Unmet(s, parts, k + 1) {
      var i := OutputAt(p, o);
      assert NodeOk(s, p[i]);
      UnmetLive(s, parts, k + 1, o);
      LiveNotFreed(s, parts, k, r);
      assert r in Makes(s, p[i]);
      Reached(s, run, p, 0, i, g, r);
      if o in s.realNames {
        NeedReachable(s, parts, k, i, r);
        AllocatedGrows(s, p, i, |p|);
      } else {
        assert r in Allocates(s, p[i]);
      }
    } else {
      InputNotOutput(s, parts, k, o);
      var i, y := InputAt(s, p, o);
      FreedOut(p, i);
      Reached(s, run, p, 0, i, g, r);
    }
  }

  lemma {:induction false} FreedOut(p: Partition, i: nat)
    requires i < |p|
    ensures p[i].lastUsage <= FreedNames(p)
  {
  }

  lemma {:induction false} AllocatedGrows(s: Scheduler, p: Partition, i: nat, j: nat)
    requires i <= j <= |p|
    ensures Allocated(s, p, i) <= Allocated(s, p, j)
    decreases j
  {
    if i < j {
      AllocatedGrows(s, p, i, j - 1);
    }
  }

  /******* The signatures suffice *******/

  /** At the boundary in front of partition k, the caller's scope holds every live storage, with its value. */
  ghost predicate Boundary<V>(s: Scheduler, parts: seq<Partition>, k: nat, g: map<Name, V>, c: map<Name, V>) {
    forall r | r in g && Live(s, parts, k, r) :: r in c && c[r] == g[r]
  }

  lemma {:induction false} GivenFound<V>(s: Scheduler, run: Kernels<V>, parts: seq<Partition>, k: nat, g: map<Name, V>, c: map<Name, V>, x: Name)
    requires Scheduled(s, parts) && k < |parts| && RunNodes(s, run, parts[k], 0, g).Some? && Boundary(s, parts, k, g, c)
    requires x in InputNames(s, parts[k]) && !IsNoneLayout(s, x)
    ensures x in g && x in c && c[x] == g[x]
  {
    hide InputNames, OutputNames, RunNodes, Live, Needs, IsNoneLayout;
    InputNotOutput(s, parts, k, x);
    var i, y := InputAt(s, parts[k], x);
    FoundAtStart(s, run, parts, k, 0, i, g, x);
    InputLive(s, parts, k, k, x);
  }

  /** Running one partition from its declared inputs keeps the boundary. */
  lemma {:induction false} PartitionKeepsBoundary<V>(s: Scheduler, run: Kernels<V>, parts: seq<Partition>, k: nat, skip: bool, g: map<Name, V>, c: map<Name, V>)
    requires Scheduled(s, parts) && k < |parts| && RunNodes(s, run, parts[k], 0, g).Some? && Boundary(s, parts, k, g, c)
    requires OwnFrees(s, parts[k])
    ensures var r := RunPartition(s, run, parts[k], SignatureOf(s, parts[k], Unmet(s, parts, k + 1), skip), c);
            r.Some? && Boundary(s, parts, k + 1, RunNodes(s, run, parts[k], 0, g).value, r.value)
  {
    hide InputNames, OutputNames, FreedNames, ReturnedNames, OutputBuffers, Unmet, RunNodes, Live, Makes;
    var p := parts[k];
    var sig := SignatureOf(s, p, Unmet(s, parts, k + 1), skip);
    var given := sig.inputs + sig.constantNames;
    assert given == Given(s, p);
    InputsOwnStorageIff(s, p);
    forall x | x in given
      ensures x in g && x in c && c[x] == g[x]
    {
      GivenFound(s, run, parts, k, g, c, x);
    }
    var l := Restrict(c, given);
    assert Agree(Given(s, p) + Allocated(s, p, 0), g, l);
    RunFollows(s, run, parts, k, 0, g, l);
    var g', l' := RunNodes(s, run, p, 0, g).value, RunNodes(s, run, p, 0, l).value;
    forall r | r in sig.outputs
      ensures r in g' && r in l' && l'[r] == g'[r]
    {
      ReturnedReached(s, run, parts, k, g, r);
    }
    var c' := RunPartition(s, run, p, sig, c).value;
    forall r | r in g' && Live(s, parts, k + 1, r)
      ensures r in c' && c'[r] == g'[r]
    {
      LiveNotFreed(s, parts, k, r);
      if r !in sig.outputs {
        UnreturnedUntouched(s, run, parts, k, g, r);
        LiveEarlier(s, parts, k, r);
      }
    }
  }

  lemma {:induction false} LiveEarlier(s: Scheduler, parts: seq<Partition>, k: nat, r: Name)
    requires Live(s, parts, k + 1, r)
    ensures Live(s, parts, k, r)
  {
  }

  lemma {:induction false} UnreturnedUntouched<V>(s: Scheduler, run: Kernels<V>, parts: seq<Partition>, k: nat, g: map<Name, V>, r: Name)
    requires Scheduled(s, parts) && k < |parts| && RunNodes(s, run, parts[k], 0, g).Some?
    requires r in RunNodes(s, run, parts[k], 0, g).value && Live(s, parts, k + 1, r)
    requires r !in OutputBuffers(s, parts[k], Unmet(s, parts, k + 1))
    ensures r in g && RunNodes(s, run, parts[k], 0, g).value[r] == g[r]
  {
    hide OutputBuffers, Unmet, RunNodes, Live, Makes;
    forall i | 0 <= i < |parts[k]|
      ensures r !in Makes(s, parts[k][i])
    {
      if r in Makes(s, parts[k][i]) {
        assert At(parts, k, i);
        LiveMadeReturned(s, parts, k, i, r);
      }
    }
    Untouched(s, run, parts[k], 0, g, r);
  }

  lemma {:induction false} RunKeepsBoundary<V>(s: Scheduler, run: Kernels<V>, parts: seq<Partition>, skip: seq<bool>, k: nat, g: map<Name, V>, c: map<Name, V>)
    requires Scheduled(s, parts) && k <= |parts| == |skip| && RunWhole(s, run, parts, k, g).Some? && Boundary(s, parts, k, g, c)
    requires forall j | k <= j < |parts| :: OwnFrees(s, parts[j])
    ensures var r := RunPartitioned(s, run, parts, Signatures(s, parts, skip, 0), k, c);
            r.Some? && Boundary(s, parts, |parts|, RunWhole(s, run, parts, k, g).value, r.value)
    decreases |parts| - k
  {
    hide SignatureOf, Unmet, RunPartition, RunNodes, Scheduled, Boundary, Signatures;
    if k < |parts| {
      SignatureAt(s, parts, skip, 0, k);
      PartitionKeepsBoundary(s, run, parts, k, skip[k], g, c);
      var c' := RunPartition(s, run, parts[k], SignatureOf(s, parts[k], Unmet(s, parts, k + 1), skip[k]), c).value;
      RunKeepsBoundary(s, run, parts, skip, k + 1, RunNodes(s, run, parts[k], 0, g).value, c');
    }
  }

  /** A caller without names that own no storage never gets one, and cannot pass one. */
  lemma {:induction false} ForeignFreeFails<V>(s: Scheduler, run: Kernels<V>, parts: seq<Partition>, skip: seq<bool>, k: nat, j: nat, c: map<Name, V>)
    requires LayoutsAgree(s) && k <= j < |parts| == |skip| && !OwnFrees(s, parts[j])
    requires forall x | x in c :: !IsNoneLayout(s, x)
    ensures RunPartitioned(s, run, parts, Signatures(s, parts, skip, 0), k, c).None?
    decreases j - k
  {
    hide Unmet, RunNodes, Signatures, OwnFrees, IsNoneLayout, InputNames;
    SignatureAt(s, parts, skip, 0, k);
    var sig := SignatureOf(s, parts[k], Unmet(s, parts, k + 1), skip[k]);
    if k == j {
      InputsOwnStorageIff(s, parts[k]);
      var x :| x in InputNames(s, parts[k]) && IsNoneLayout(s, x);
      NoneLayoutInputIff(s, parts[k], x);
      assert x in sig.inputs && x !in c;
    } else if RunPartition(s, run, parts[k], sig, c).Some? {
      ForeignFreeFails(s, run, parts, skip, k + 1, j, RunPartition(s, run, parts[k], sig, c).value);
    }
  }

  /** Every graph output that owns storage has the same value on both sides. */
  ghost predicate OutputsMatch<V>(s: Scheduler, whole: map<Name, V>, split: map<Name, V>) {
    forall g | g in s.graphOutputs && !IsNoneLayout(s, g) && Real(s, g) in whole ::
      Real(s, g) in split && split[Real(s, g)] == whole[Real(s, g)]
  }

  /**
    The main theorem: for every scheduled graph, with mutations and NoneLayout buffers, every
    meaning of its kernels and every initial scope of storages in which the unpartitioned graph
    runs, the partitions run from their declared inputs alone and every graph output that owns
    storage comes out with the value it has in the unpartitioned run -- exactly when no partition
    frees a known NoneLayout name that it does not itself output.
   */
  lemma {:induction false} SignaturesSuffice<V>(s: Scheduler, run: Kernels<V>, parts: seq<Partition>, skip: seq<bool>, init: map<Name, V>)
    requires Scheduled(s, parts) && |parts| == |skip| && RunWhole(s, run, parts, 0, init).Some?
    requires forall x | x in init :: !IsNoneLayout(s, x)
    ensures var split := RunPartitioned(s, run, parts, Signatures(s, parts, skip, 0), 0, init);
            (split.Some? && OutputsMatch(s, RunWhole(s, run, parts, 0, init).value, split.value)) <==>
            forall k | 0 <= k < |parts| :: OwnFrees(s, parts[k])
  {
    hide Signatures, RunPartitioned, RunWhole, Scheduled, Needs, OwnFrees;
    assert LayoutsAgree(s) by { ScheduledLayouts(s, parts); }
    if j :| 0 <= j < |parts| && !OwnFrees(s, parts[j]) {
      ForeignFreeFails(s, run, parts, skip, 0, j, init);
    } else {
      RunKeepsBoundary(s, run, parts, skip, 0, init, init);
    }
  }

  lemma {:induction false} ScheduledLayouts(s: Scheduler, parts: seq<Partition>)
    requires Scheduled(s, parts)
    ensures LayoutsAgree(s)
  {
  }

  /** A scheduled graph that breaks: one partition makes a name without storage, the next frees it. */
  lemma {:induction false} ForeignFreeBreaks(run: Kernels<int>)
    ensures var s: Scheduler := SchedulerData({0}, map[0 := Buffer(true, false)], map[], {}, {});
            var parts := [[Node(0, {0}, {}, {}, {})], [Node(1, {}, {}, {}, {0})]];
            && Scheduled(s, parts)
            && IsNoneLayout(s, 0) && 0 in SignatureOf(s, parts[1], {}, false).inputs
            && RunWhole(s, run, parts, 0, map[]).Some?
            && RunPartitioned(s, run, parts, Signatures(s, parts, [false, false], 0), 0, map[]).None?
  {
    var s: Scheduler := SchedulerData({0}, map[0 := Buffer(true, false)], map[], {}, {});
    var make, free := Node(0, {0}, {}, {}, {}), Node(1, {}, {}, {}, {0});
    var parts := [[make], [free]];
    hide Unmet, Signatures, RunPartitioned;
    assert Needs(s, make) == {} && Needs(s, free) == {} && Frees(s, make) == {} && Frees(s, free) == {} && Makes(s, make) == {};
    assert NodeOk(s, make) && NodeOk(s, free) && Follows(s, make, free);
    forall k: nat, i: nat | At(parts, k, i)
      ensures i == 0 && (k == 0 || k == 1) && parts[k][i] == if k == 0 then make else free
    {
      assert k < 2;
    }
    assert Scheduled(s, parts);
    assert parts[1][0] in parts[1];
    assert 0 in FreedNames(parts[1]) && 0 !in OutputNames(parts[1]);
    NoneLayoutInputIff(s, parts[1], 0);
    RunsTwo(s, run, make, free);
    ForeignFreeFails(s, run, parts, [false, false], 0, 1, map[]);
  }

  /** A node that needs and frees nothing runs anywhere. */
  lemma {:induction false} RunsAlone(s: Scheduler, run: Kernels<int>, n: Node, st: map<Name, int>)
    requires Needs(s, n) == Frees(s, n) == {}
    ensures RunNodes(s, run, [n], 0, st).Some?
  {
    assert Exec(s, run, n, st).Some?;
    var st' := Exec(s, run, n, st).value;
    assert RunNodes(s, run, [n], 1, st') == Some(st');
  }

  lemma {:induction false} RunsTwo(s: Scheduler, run: Kernels<int>, n: Node, m: Node)
    requires Needs(s, n) == Frees(s, n) == Needs(s, m) == Frees(s, m) == {}
    ensures RunWhole(s, run, [[n], [m]], 0, map[]).Some?
  {
    hide RunNodes, Needs, Frees;
    var parts := [[n], [m]];
    RunsAlone(s, run, n, map[]);
    var st := RunNodes(s, run, parts[0], 0, map[]).value;
    RunsAlone(s, run, m, st);
    var st' := RunNodes(s, run, parts[1], 0, st).value;
    assert RunWhole(s, run, parts, 2, st') == Some(st');
    assert RunWhole(s, run, parts, 1, st) == Some(st');
  }

  /** Looking up an output never raises. */
  lemma {:induction false} OutputsAlwaysKnown(s: Scheduler, parts: seq<Partition>, k: nat)
    requires Scheduled(s, parts) && k <= |parts|
    ensures OutputsKnown(s, parts, k)
    decreases |parts| - k
  {
    hide OutputBuffers, Unmet, Scheduled;
    if k < |parts| {
      forall r | r in OutputBuffers(s, parts[k], Unmet(s, parts, k + 1))
        ensures r in s.nameToNode
      {
        ReturnedKnown(s, parts, k, r);
      }
      OutputsAlwaysKnown(s, parts, k + 1);
    }
  }

  lemma {:induction false} ReturnedKnown(s: Scheduler, parts: seq<Partition>, k: nat, r: Name)
    requires Scheduled(s, parts) && k < |parts| && r in OutputBuffers(s, parts[k], Unmet(s, parts, k + 1))
    ensures r in s.nameToNode
  {
    hide InputNames, OutputNames, FreedNames, ReturnedNames, OutputBuffers, Unmet, Needs;
    var p := parts[k];
    var o := ReturnedElim(s, p, Unmet(s, parts, k + 1), r);
    RealLayout(s, o);
    if o in OutputNames(p) && o in Unmet(s, parts, k + 1) {
      var i := OutputAt(p, o);
      assert At(parts, k, i);
      assert NodeOk(s, p[i]);
    } else {
      InputNotOutput(s, parts, k, o);
    }
  }

  /** Every storage still unmet at the front is made by no partition. */
  lemma {:induction false} FrontNotProduced(s: Scheduler, parts: seq<Partition>, j: nat, k: nat, x: Name)
    requires Scheduled(s, parts) && j <= k < |parts| && x in OutputNames(parts[k]) && x !in s.realNames
    ensures x !in Unmet(s, parts, j)
    decreases k - j
  {
    hide InputNames, OutputNames, Needs, IsNoneLayout;
    assert x !in InputNames(s, parts[j]) by {
      if x in InputNames(s, parts[j]) {
        InputNotMadeHereOrLater(s, parts, j, k, x);
      }
    }
    if j < k {
      FrontNotProduced(s, parts, j + 1, k, x);
    } else {
      assert x in Unmet(s, parts, k + 1) ==> Real(s, x) in ReturnedNames(s, parts[k], Unmet(s, parts, k + 1));
    }
  }

  lemma {:induction false} InputNotMadeHereOrLater(s: Scheduler, parts: seq<Partition>, j: nat, k: nat, x: Name)
    requires Scheduled(s, parts) && j <= k < |parts| && x in InputNames(s, parts[j])
    ensures x !in OutputNames(parts[k])
  {
    hide InputNames, OutputNames, Needs, Makes, IsNoneLayout;
    InputNotOutput(s, parts, j, x);
    if j < k {
      var l, y := InputAt(s, parts[j], x);
      forall m | 0 <= m < |parts[k]|
        ensures x !in parts[k][m].outputs
      {
        assert At(parts, j, l) && At(parts, k, m);
        assert Follows(s, parts[j][l], parts[k][m]);
      }
      NotOutputAt(parts[k], x);
    }
  }

  /** Only a graph output can be unmet under a renamed name: inputs go by their real names. */
  lemma {:induction false} UnmetRenamed(s: Scheduler, parts: seq<Partition>, k: nat, x: Name)
    requires Scheduled(s, parts) && k <= |parts| && x in s.realNames && x in Unmet(s, parts, k)
    ensures x in s.graphOutputs
    decreases |parts| - k
  {
    hide InputNames, OutputNames, ReturnedNames, Needs, IsNoneLayout;
    if k < |parts| {
      if x in InputNames(s, parts[k]) {
        InputNotOutput(s, parts, k, x);
      } else {
        UnmetRenamed(s, parts, k + 1, x);
      }
    }
  }

  /**
    What is still unmet at the front and yet made by a partition: exactly the graph outputs that go
    by a renamed name, since only real names are crossed off.
   */
  lemma {:induction false} FrontProducedIff(s: Scheduler, parts: seq<Partition>, k: nat, x: Name)
    requires Scheduled(s, parts) && k < |parts| && x in OutputNames(parts[k])
    ensures x in Unmet(s, parts, 0) <==> x in s.graphOutputs && x in s.realNames
  {
    hide InputNames, OutputNames, Unmet, Scheduled;
    if x in s.realNames {
      if x in s.graphOutputs {
        RenamedPersists(s, parts, 0, x);
      } else if x in Unmet(s, parts, 0) {
        UnmetRenamed(s, parts, 0, x);
      }
    } else {
      FrontNotProduced(s, parts, 0, k, x);
    }
  }

  /** Such a graph: one partition allocates a buffer, the next mutates it, and the graph outputs the new name. */
  lemma {:induction false} RenamedOutputStaysUnmet()
    ensures var s: Scheduler := SchedulerData({0, 1}, map[], map[1 := 0], {}, {1});
            var parts := [[Node(0, {0}, {}, {}, {})], [Node(1, {1}, {0}, {1}, {})]];
            Scheduled(s, parts) && 1 in OutputNames(parts[1]) && 1 in Unmet(s, parts, 0)
  {
    hide InputNames, ReturnedNames, Unmet;
    var s: Scheduler := SchedulerData({0, 1}, map[], map[1 := 0], {}, {1});
    var make, mutate := Node(0, {0}, {}, {}, {}), Node(1, {1}, {0}, {1}, {});
    var parts := [[make], [mutate]];
    assert 0 in Used(mutate) && Needs(s, mutate) == {0} by {
      assert Used(mutate) == {0} && Real(s, 0) == 0;
    }
    assert Used(make) == {} && Needs(s, make) == {};
    assert NodeOk(s, make) && NodeOk(s, mutate) && Follows(s, make, mutate);
    forall k: nat, i: nat | At(parts, k, i)
      ensures i == 0 && (k == 0 || k == 1) && parts[k][i] == if k == 0 then make else mutate
    {
      assert k < 2;
    }
    assert MadeBefore(parts, 2, 0, 1) by {
      assert At(parts, 1, 0) && Before(1, 0, 2, 0) && 1 in parts[1][0].outputs;
    }
    assert Scheduled(s, parts);
    assert parts[1][0] in parts[1];
    assert 1 in OutputNames(parts[1]);
    RenamedPersists(s, parts, 0, 1);
  }

  /******* Nothing more than needed is returned or kept *******/

  /**
    What a partition hands back: exactly the storages it writes that are live behind it, and the
    known inputs it does not free.
   */
  lemma {:induction false} ReturnedIff(s: Scheduler, parts: seq<Partition>, k: nat, r: Name)
    requires Scheduled(s, parts) && k < |parts|
    ensures r in OutputBuffers(s, parts[k], Unmet(s, parts, k + 1)) <==>
            || ((exists i :: 0 <= i < |parts[k]| && r in Makes(s, parts[k][i])) && Live(s, parts, k + 1, r))
            || (r in InputNames(s, parts[k]) && r in s.nameToNode && r !in FreedNames(parts[k]) && !IsNoneLayout(s, r))
  {
    hide InputNames, OutputNames, FreedNames, OutputBuffers, Unmet, Live, Makes, Needs, IsNoneLayout, Scheduled;
    var p := parts[k];
    ScheduledLayouts(s, parts);
    if r in OutputBuffers(s, p, Unmet(s, parts, k + 1)) {
      var o := ReturnedElim(s, p, Unmet(s, parts, k + 1), r);
      RealLayout(s, o);
      if o in OutputNames(p) && o in Unmet(s, parts, k + 1) {
        var i := OutputAt(p, o);
        MakesIntro(s, p[i], o);
        UnmetLive(s, parts, k + 1, o);
      } else {
        InputNotOutput(s, parts, k, o);
      }
    }
    if i :| 0 <= i < |p| && r in Makes(s, p[i]) && Live(s, parts, k + 1, r) {
      LiveMadeReturned(s, parts, k, i, r);
    }
    if r in InputNames(s, p) && r in s.nameToNode && r !in FreedNames(p) && !IsNoneLayout(s, r) {
      InputNotOutput(s, parts, k, r);
      ReturnedIntro(s, p, Unmet(s, parts, k + 1), r);
    }
  }

  lemma {:induction false} MakesIntro(s: Scheduler, n: Node, o: Name)
    requires o in n.outputs && !IsNoneLayout(s, o)
    ensures Real(s, o) in Makes(s, n)
  {
  }

  /** The scope of the unpartitioned run behind the first k partitions. */
  function WholeScope<V>(s: Scheduler, run: Kernels<V>, parts: seq<Partition>, k: nat, init: map<Name, V>): Option<map<Name, V>>
    requires k <= |parts|
  {
    if k == 0 then Some(init)
    else
      var g :- WholeScope(s, run, parts, k - 1, init);
      RunNodes(s, run, parts[k - 1], 0, g)
  }

  /** The caller's scope behind the first k partitions. */
  function CallerScope<V>(s: Scheduler, run: Kernels<V>, parts: seq<Partition>, sigs: seq<Signature>, k: nat, init: map<Name, V>): Option<map<Name, V>>
    requires k <= |parts| == |sigs|
  {
    if k == 0 then Some(init)
    else
      var c :- CallerScope(s, run, parts, sigs, k - 1, init);
      RunPartition(s, run, parts[k - 1], sigs[k - 1], c)
  }

  /** These scopes are the ones that the runs go through. */
  lemma {:induction false} ScopesAreRuns<V>(s: Scheduler, run: Kernels<V>, parts: seq<Partition>, sigs: seq<Signature>, k: nat, init: map<Name, V>)
    requires k <= |parts| == |sigs|
    ensures RunWhole(s, run, parts, 0, init) ==
            match WholeScope(s, run, parts, k, init) { case Some(g) => RunWhole(s, run, parts, k, g) case None => None }
    ensures RunPartitioned(s, run, parts, sigs, 0, init) ==
            match CallerScope(s, run, parts, sigs, k, init) { case Some(c) => RunPartitioned(s, run, parts, sigs, k, c) case None => None }
  {
    hide RunNodes, RunPartition;
    if k > 0 {
      ScopesAreRuns(s, run, parts, sigs, k - 1, init);
    }
  }

  /** The scope holds nothing that partition k or a later one allocates. */
  ghost predicate NothingAhead<V>(parts: seq<Partition>, k: nat, c: map<Name, V>) {
    forall r, j: nat | r in c && k <= j < |parts| :: r !in OutputNames(parts[j])
  }

  /** The caller holds no known storage that the unpartitioned run has freed. */
  ghost predicate Released<V>(s: Scheduler, g: map<Name, V>, c: map<Name, V>) {
    forall r | r in c && r in s.nameToNode :: r in g
  }

  ghost predicate OwnsStorage<V>(s: Scheduler, c: map<Name, V>) {
    forall r | r in c :: !IsNoneLayout(s, r)
  }

  /** What is handed back is made by no later partition. */
  lemma {:induction false} ReturnedNotMadeLater(s: Scheduler, parts: seq<Partition>, k: nat, r: Name, j: nat)
    requires Scheduled(s, parts) && k < j < |parts| && r in OutputBuffers(s, parts[k], Unmet(s, parts, k + 1))
    ensures r !in OutputNames(parts[j])
  {
    hide InputNames, OutputNames, FreedNames, ReturnedNames, OutputBuffers, Unmet, Live, Makes, Needs;
    var p := parts[k];
    var o := ReturnedElim(s, p, Unmet(s, parts, k + 1), r);
    if o in OutputNames(p) && o in Unmet(s, parts, k + 1) {
      if o in s.realNames {
        var i := OutputAt(p, o);
        assert At(parts, k, i);
        assert NodeOk(s, p[i]);
        ScheduledLayouts(s, parts);
        RealLayout(s, o);
        forall l | 0 <= l < |parts[j]|
          ensures r !in parts[j][l].outputs
        {
          assert At(parts, j, l);
          NeedNotMadeLater(s, parts, k, i, r, j, l);
        }
        NotOutputAt(parts[j], r);
      } else {
        UniqueProducer(s, parts, k, j, r);
      }
    } else {
      InputNotOutput(s, parts, k, o);
      InputNotMadeHereOrLater(s, parts, k, j, o);
    }
  }

  /** An input that the partition frees is marked so, and leaves the caller's scope. */
  lemma {:induction false} FreedLeaves<V>(s: Scheduler, run: Kernels<V>, parts: seq<Partition>, k: nat, skip: bool, c: map<Name, V>, r: Name)
    requires k < |parts| && r in FreedNames(parts[k]) && r in s.nameToNode && r !in OutputNames(parts[k])
    requires RunPartition(s, run, parts[k], SignatureOf(s, parts[k], Unmet(s, parts, k + 1), skip), c).Some?
    ensures r in RunPartition(s, run, parts[k], SignatureOf(s, parts[k], Unmet(s, parts, k + 1), skip), c).value ==>
            r in OutputBuffers(s, parts[k], Unmet(s, parts, k + 1))
  {
    hide OutputNames, OutputBuffers, Unmet, RunNodes, IsNoneLayout, FreedNames, UsedNames;
    assert r in InputNames(s, parts[k]);
  }

  /** One partition: the caller gives up what the partition freed, and takes on nothing else. */
  lemma {:induction false} PartitionReleases<V>(s: Scheduler, run: Kernels<V>, parts: seq<Partition>, k: nat, skip: bool, g: map<Name, V>, c: map<Name, V>)
    requires Scheduled(s, parts) && k < |parts| && RunNodes(s, run, parts[k], 0, g).Some?
    requires Released(s, g, c) && NothingAhead(parts, k, c) && OwnsStorage(s, c)
    requires RunPartition(s, run, parts[k], SignatureOf(s, parts[k], Unmet(s, parts, k + 1), skip), c).Some?
    ensures var c' := RunPartition(s, run, parts[k], SignatureOf(s, parts[k], Unmet(s, parts, k + 1), skip), c).value;
            && Released(s, RunNodes(s, run, parts[k], 0, g).value, c')
            && NothingAhead(parts, k + 1, c') && OwnsStorage(s, c')
  {
    hide InputNames, OutputNames, FreedNames, ReturnedNames, OutputBuffers, Unmet, RunNodes, Scheduled, IsNoneLayout;
    var p := parts[k];
    var out := OutputBuffers(s, p, Unmet(s, parts, k + 1));
    var c' := RunPartition(s, run, p, SignatureOf(s, p, Unmet(s, parts, k + 1), skip), c).value;
    forall r | r in c'
      ensures r in s.nameToNode ==> r in RunNodes(s, run, p, 0, g).value
      ensures forall j: nat | k + 1 <= j < |parts| :: r !in OutputNames(parts[j])
      ensures !IsNoneLayout(s, r)
    {
      if r in out {
        ReturnedReached(s, run, parts, k, g, r);
        var o := ReturnedElim(s, p, Unmet(s, parts, k + 1), r);
        forall j: nat | k + 1 <= j < |parts|
          ensures r !in OutputNames(parts[j])
        {
          ReturnedNotMadeLater(s, parts, k, r, j);
        }
      } else {
        assert r in c && r !in OutputNames(p);
        if r in s.nameToNode {
          if r in FreedNames(p) {
            FreedLeaves(s, run, parts, k, skip, c, r);
          }
          Stays(s, run, p, 0, g, r);
        }
      }
    }
  }

  /**
    Behind every partition the caller holds every live storage with the value it has in the
    unpartitioned run, and no known storage that the unpartitioned run has freed by then.
   */
  lemma {:induction false} ScopesAgree<V>(s: Scheduler, run: Kernels<V>, parts: seq<Partition>, skip: seq<bool>, k: nat, init: map<Name, V>)
    requires Scheduled(s, parts) && k <= |parts| == |skip| && WholeScope(s, run, parts, k, init).Some?
    requires forall j | 0 <= j < k :: OwnFrees(s, parts[j])
    requires OwnsStorage(s, init) && NothingAhead(parts, 0, init)
    ensures var c := CallerScope(s, run, parts, Signatures(s, parts, skip, 0), k, init);
            var g := WholeScope(s, run, parts, k, init).value;
            c.Some? && Boundary(s, parts, k, g, c.value) && Released(s, g, c.value)
            && NothingAhead(parts, k, c.value) && OwnsStorage(s, c.value)
  {
    hide Scheduled, OwnFrees, Signatures, SignatureOf, Unmet, RunNodes, RunPartition, NothingAhead, OwnsStorage;
    if k > 0 {
      hide Boundary, Released;
      ScopesAgree(s, run, parts, skip, k - 1, init);
      SignatureAt(s, parts, skip, 0, k - 1);
      var g := WholeScope(s, run, parts, k - 1, init).value;
      var c := CallerScope(s, run, parts, Signatures(s, parts, skip, 0), k - 1, init).value;
      PartitionKeepsBoundary(s, run, parts, k - 1, skip[k - 1], g, c);
      PartitionReleases(s, run, parts, k - 1, skip[k - 1], g, c);
    }
  }
}
