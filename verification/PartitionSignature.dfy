/**
  Graph partition signatures (vllm/env_override.py): a backward pass over the partitions of a
  scheduled graph that decides what each partition takes in, hands back and deallocates.

  Buffers are names. A mutation gives its buffer a new name; `realNames` takes such a name back to
  the storage it stands for. NoneLayout buffers own no storage. The order in which OrderedSet
  keeps names is not modelled: sets stand for OrderedSets.
 */
module PartitionSignature {
  import opened Wrappers

  /** Only the identity of a buffer name matters. */
  type Name = nat

  datatype Node = Node(kernel: nat, outputs: set<Name>, readNames: set<Name>, writeNames: set<Name>, lastUsage: set<Name>)

  type Partition = seq<Node>

  datatype Buffer = Buffer(noneLayout: bool, mutationOutput: bool)

  datatype SchedulerData = SchedulerData(
    nameToNode: set<Name>,
    nameToBuf: map<Name, Buffer>,
    realNames: map<Name, Name>,     // mutation_real_name
    constants: set<Name>,
    graphOutputs: set<Name>)

  /** `mutation_real_name` is kept resolved: what it maps to is not itself renamed. */
  type Scheduler = s: SchedulerData | forall n | n in s.realNames :: s.realNames[n] !in s.realNames
    witness SchedulerData({}, map[], map[], {}, {})

  function Real(s: Scheduler, n: Name): (r: Name)
    ensures r !in s.realNames
    ensures n !in s.realNames ==> r == n
    ensures n in s.realNames ==> r == s.realNames[n]
  {
    if n in s.realNames then s.realNames[n] else n
  }

  predicate IsNoneLayout(s: Scheduler, n: Name)
    decreases if n in s.realNames then 1 else 0
  {
    n in s.nameToBuf && s.nameToBuf[n].noneLayout &&
    if s.nameToBuf[n].mutationOutput && n in s.realNames then IsNoneLayout(s, s.realNames[n]) else true
  }

  /** The buffer exists and has no storage of its own. */
  ghost predicate NoStorage(s: Scheduler, n: Name) {
    n in s.nameToBuf && s.nameToBuf[n].noneLayout
  }

  /** A name is NoneLayout when it has no storage, and, if a mutation gave it, what was mutated has none either. */
  lemma {:induction false} NoneLayoutIff(s: Scheduler, n: Name)
    ensures IsNoneLayout(s, n) <==>
            NoStorage(s, n) && (s.nameToBuf[n].mutationOutput && n in s.realNames ==> NoStorage(s, s.realNames[n]))
  {
    if n in s.realNames {
      assert IsNoneLayout(s, s.realNames[n]) <==> NoStorage(s, s.realNames[n]);
    }
  }

  /******* The pass *******/

  function OutputNames(p: Partition): set<Name> {
    set n, x | n in p && x in n.outputs :: x
  }

  function UsedNames(p: Partition): set<Name> {
    set n, x | n in p && x in n.readNames + n.writeNames :: x
  }

  function FreedNames(p: Partition): set<Name> {
    set n, x | n in p && x in n.lastUsage :: x
  }

  /** partition_input_names: what the partition uses or frees and does not make itself, by real name. */
  function InputNames(s: Scheduler, p: Partition): set<Name> {
    (set x | x in UsedNames(p) && !IsNoneLayout(s, x) && x !in OutputNames(p) :: Real(s, x))
    + (set x | x in FreedNames(p) && x !in OutputNames(p) && x in s.nameToNode)
  }

  /** returned_output_names, given the names still unmet after the partition. */
  function ReturnedNames(s: Scheduler, p: Partition, unmet: set<Name>): set<Name> {
    var extra := set x | x in InputNames(s, p) && x in s.nameToNode && x !in FreedNames(p);
    set x | x in OutputNames(p) * unmet + extra :: Real(s, x)
  }

  /** The buffers handed back: what is returned and owns storage. */
  function OutputBuffers(s: Scheduler, p: Partition, unmet: set<Name>): set<Name> {
    set x | x in ReturnedNames(s, p, unmet) && !IsNoneLayout(s, x)
  }

  datatype Signature = Signature(
    inputs: set<Name>,
    outputs: set<Name>,
    inputDeallocation: map<Name, bool>,
    skipCudagraph: bool,
    constantNames: set<Name>)

  function SignatureOf(s: Scheduler, p: Partition, unmet: set<Name>, skip: bool): Signature {
    var inputs := InputNames(s, p);
    Signature(
      inputs * s.nameToNode,
      OutputBuffers(s, p, unmet),
      map x | x in inputs && x in s.nameToNode :: x in FreedNames(p),
      skip,
      inputs * s.constants)
  }

  ghost predicate Outputs(p: Partition, x: Name) {
    exists i :: 0 <= i < |p| && x in p[i].outputs
  }

  ghost predicate LastUses(p: Partition, x: Name) {
    exists i :: 0 <= i < |p| && x in p[i].lastUsage
  }

  /** The partition reads or writes, and does not output, a name with storage that stands for x. */
  ghost predicate Touches(s: Scheduler, p: Partition, x: Name) {
    exists y :: (exists i :: 0 <= i < |p| && y in p[i].readNames + p[i].writeNames)
                && !IsNoneLayout(s, y) && !Outputs(p, y) && Real(s, y) == x
  }

  /** What a signature says of its partition, name by name. */
  lemma {:induction false} SignatureSays(s: Scheduler, p: Partition, unmet: set<Name>, skip: bool, x: Name)
    ensures var sig := SignatureOf(s, p, unmet, skip);
            var taken := Touches(s, p, x) || (LastUses(p, x) && !Outputs(p, x) && x in s.nameToNode);
            && sig.skipCudagraph == skip
            && (x in sig.inputs <==> taken && x in s.nameToNode)
            && (x in sig.constantNames <==> taken && x in s.constants)
            && (x in sig.inputDeallocation <==> x in sig.inputs)
            && (x in sig.inputs ==> (sig.inputDeallocation[x] <==> LastUses(p, x)))
  {
    NamesAt(p, x);
    TouchesIff(s, p, x);
  }

  lemma {:induction false} NamesAt(p: Partition, x: Name)
    ensures x in OutputNames(p) <==> Outputs(p, x)
    ensures x in FreedNames(p) <==> LastUses(p, x)
    ensures x in UsedNames(p) <==> exists i :: 0 <= i < |p| && x in p[i].readNames + p[i].writeNames
  {
    if n :| n in p && x in n.outputs {
      var i :| 0 <= i < |p| && p[i] == n;
    }
    if n :| n in p && x in n.lastUsage {
      var i :| 0 <= i < |p| && p[i] == n;
    }
    if n :| n in p && x in n.readNames + n.writeNames {
      var i :| 0 <= i < |p| && p[i] == n;
    }
  }

  lemma {:induction false} TouchesIff(s: Scheduler, p: Partition, x: Name)
    ensures Touches(s, p, x) <==> exists y :: y in UsedNames(p) && !IsNoneLayout(s, y) && y !in OutputNames(p) && Real(s, y) == x
  {
    hide UsedNames, OutputNames, IsNoneLayout, Outputs;
    forall y
      ensures y in OutputNames(p) <==> Outputs(p, y)
      ensures y in UsedNames(p) <==> exists i :: 0 <= i < |p| && y in p[i].readNames + p[i].writeNames
    {
      NamesAt(p, y);
    }
  }

  /** The names unmet in front of partition k. */
  function Unmet(s: Scheduler, parts: seq<Partition>, k: nat): set<Name>
    requires k <= |parts|
    decreases |parts| - k
  {
    if k == |parts| then s.graphOutputs
    else
      var after := Unmet(s, parts, k + 1);
      InputNames(s, parts[k]) + (after - ReturnedNames(s, parts[k], after))
  }

  /** The signatures of partitions k, k + 1, ... */
  function Signatures(s: Scheduler, parts: seq<Partition>, skip: seq<bool>, k: nat): (r: seq<Signature>)
    requires k <= |parts| == |skip|
    ensures |r| == |parts| - k
    decreases |parts| - k
  {
    if k == |parts| then []
    else [SignatureOf(s, parts[k], Unmet(s, parts, k + 1), skip[k])] + Signatures(s, parts, skip, k + 1)
  }

  lemma {:induction false} SignatureAt(s: Scheduler, parts: seq<Partition>, skip: seq<bool>, k: nat, j: nat)
    requires k <= j < |parts| == |skip|
    ensures Signatures(s, parts, skip, k)[j - k] == SignatureOf(s, parts[j], Unmet(s, parts, j + 1), skip[j])
    decreases j - k
  {
    hide SignatureOf, Unmet;
    if k < j {
      SignatureAt(s, parts, skip, k + 1, j);
    }
  }

  /** Every output of partitions k, k + 1, ... is a known buffer. */
  predicate OutputsKnown(s: Scheduler, parts: seq<Partition>, k: nat)
    requires k <= |parts|
    decreases |parts| - k
  {
    k == |parts| ||
    (OutputBuffers(s, parts[k], Unmet(s, parts, k + 1)) <= s.nameToNode && OutputsKnown(s, parts, k + 1))
  }

  lemma {:induction false} KnownSuffix(s: Scheduler, parts: seq<Partition>, k: nat)
    requires k <= |parts| && OutputsKnown(s, parts, 0)
    ensures OutputsKnown(s, parts, k)
  {
    hide OutputBuffers, Unmet;
    if k > 0 {
      KnownSuffix(s, parts, k - 1);
    }
  }

  method CollectNames(p: Partition) returns (outputNames: set<Name>, toFree: set<Name>)
    ensures outputNames == OutputNames(p) && toFree == FreedNames(p)
  {
    outputNames, toFree := {}, {};
    for i := 0 to |p|
      invariant outputNames == OutputNames(p[..i]) && toFree == FreedNames(p[..i])
    {
      assert p[..i + 1] == p[..i] + [p[i]];
      outputNames, toFree := outputNames + p[i].outputs, toFree + p[i].lastUsage;
    }
    assert p[..|p|] == p;
  }

  /** One round of the backward loop. */
  method SignPartition(s: Scheduler, p: Partition, unmet: set<Name>, skip: bool) returns (signature: Signature, before: set<Name>)
    ensures signature == SignatureOf(s, p, unmet, skip) && signature.outputs == OutputBuffers(s, p, unmet)
    ensures before == InputNames(s, p) + (unmet - ReturnedNames(s, p, unmet))
  {
    var outputNames, toFree := CollectNames(p);
    var returned := outputNames * unmet;
    var inputs := set x | x in UsedNames(p) && !IsNoneLayout(s, x) && x !in outputNames :: Real(s, x);
    inputs := inputs + (set x | x in toFree - outputNames && x in s.nameToNode);
    assert inputs == InputNames(s, p);
    var extra := set x | x in inputs && x in s.nameToNode && x !in toFree;
    returned := set x | x in returned + extra :: Real(s, x);
    assert returned == ReturnedNames(s, p, unmet);
    signature := Signature(
      inputs * s.nameToNode,
      set x | x in returned && !IsNoneLayout(s, x),
      map x | x in inputs && x in s.nameToNode :: x in toFree,
      skip,
      inputs * s.constants);
    before := inputs + (unmet - returned);
  }

  /** The backward loop. Looking up an output that is no known buffer raises. */
  method GetGraphPartitionSignature(s: Scheduler, parts: seq<Partition>, skip: seq<bool>) returns (r: Result<seq<Signature>>)
    requires |parts| == |skip|
    ensures r.Ok? <==> OutputsKnown(s, parts, 0)
    ensures r.Ok? ==> r.value == Signatures(s, parts, skip, 0)
    // one signature per partition, with its flag, and every input marked by whether the partition uses it last
    ensures r.Ok? ==> |r.value| == |parts| && forall k: nat | k < |parts| :: r.value[k].skipCudagraph == skip[k]
    ensures r.Ok? ==> forall k: nat, x | k < |parts| && x in r.value[k].inputs ::
                        && x in r.value[k].inputDeallocation
                        && (r.value[k].inputDeallocation[x] <==> LastUses(parts[k], x))
  {
    hide InputNames, ReturnedNames, OutputBuffers, SignatureOf;
    var signatures := [];
    var unmet := s.graphOutputs;
    var k := |parts|;
    while k > 0
      invariant 0 <= k <= |parts| && unmet == Unmet(s, parts, k)
      invariant OutputsKnown(s, parts, k)
      invariant Reversed(signatures) == Signatures(s, parts, skip, k)
    {
      k := k - 1;
      var signature, before := SignPartition(s, parts[k], unmet, skip[k]);
      if !(signature.outputs <= s.nameToNode) {
        if OutputsKnown(s, parts, 0) {
          KnownSuffix(s, parts, k);
        }
        return Raise("KeyError");
      }
      assert Reversed(signatures + [signature]) == [signature] + Reversed(signatures);
      signatures := signatures + [signature];
      unmet := before;
    }
    SignaturesSay(s, parts, skip);
    r := Ok(Reversed(signatures));
  }

  lemma {:induction false} SignaturesSay(s: Scheduler, parts: seq<Partition>, skip: seq<bool>)
    requires |parts| == |skip|
    ensures forall k: nat | k < |parts| :: Signatures(s, parts, skip, 0)[k].skipCudagraph == skip[k]
    ensures forall k: nat, x | k < |parts| && x in Signatures(s, parts, skip, 0)[k].inputs ::
              && x in Signatures(s, parts, skip, 0)[k].inputDeallocation
              && (Signatures(s, parts, skip, 0)[k].inputDeallocation[x] <==> LastUses(parts[k], x))
  {
    hide Signatures, SignatureOf, Unmet, Touches, LastUses, Outputs;
    forall k: nat, x | k < |parts|
      ensures var sig := Signatures(s, parts, skip, 0)[k];
              && sig.skipCudagraph == skip[k]
              && (x in sig.inputs ==> x in sig.inputDeallocation && (sig.inputDeallocation[x] <==> LastUses(parts[k], x)))
    {
      SignatureAt(s, parts, skip, 0, k);
      SignatureSays(s, parts[k], Unmet(s, parts, k + 1), skip[k], x);
    }
    forall k: nat | k < |parts|
      ensures Signatures(s, parts, skip, 0)[k].skipCudagraph == skip[k]
    {
      SignatureAt(s, parts, skip, 0, k);
      SignatureSays(s, parts[k], Unmet(s, parts, k + 1), skip[k], 0);
    }
  }

  function Reversed<T>(xs: seq<T>): (r: seq<T>)
    ensures |r| == |xs| && forall i | 0 <= i < |xs| :: r[i] == xs[|xs| - 1 - i]
  {
    seq(|xs|, i requires 0 <= i < |xs| => xs[|xs| - 1 - i])
  }
}
