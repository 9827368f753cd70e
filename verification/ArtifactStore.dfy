/**
  Compiled artifacts stored by content (vllm/compilation/caching.py,
  StandaloneCompiledArtifacts): names map to digests, digests to bytes, digests to loaded modules.
 */
module ArtifactStore {
  import opened Wrappers

  type Bytes = seq<int>

  /** One call of `insert`. */
  datatype Insertion = Insertion(name: string, shape: string, entry: Bytes)

  /******* Cache keys *******/

  function Key(name: string, shape: string): string {
    name + "_" + shape
  }

  /** `key.rsplit("_", 1)[0]` */
  function BeforeLastUnderscore(key: string): string {
    if '_' !in key then key
    else if key[|key| - 1] == '_' then key[..|key| - 1]
    else BeforeLastUnderscore(key[..|key| - 1])
  }

  /** The name comes back exactly when the shape has no underscore. */
  lemma {:induction false} NameOfKey(name: string, shape: string)
    ensures BeforeLastUnderscore(Key(name, shape)) == name <==> '_' !in shape
    ensures |BeforeLastUnderscore(Key(name, shape))| >= |name|
    decreases |shape|
  {
    var key := Key(name, shape);
    assert key[|name|] == '_';
    if shape == [] {
      assert key[..|key| - 1] == name;
    } else {
      var front, last := shape[..|shape| - 1], shape[|shape| - 1];
      LastUnderscoreStep(key);
      assert key[|key| - 1] == last && key[..|key| - 1] == Key(name, front);
      hide Key, BeforeLastUnderscore;
      assert '_' in shape <==> '_' in front || last == '_' by {
        assert shape == front + [last];
      }
      NameOfKey(name, front);
      assert last == '_' ==> |BeforeLastUnderscore(key)| == |name| + 1 + |front|;
    }
  }

  lemma {:induction false} LastUnderscoreStep(key: string)
    requires '_' in key
    ensures var n := |key| - 1;
            BeforeLastUnderscore(key) == if key[n] == '_' then key[..n] else BeforeLastUnderscore(key[..n])
  {
  }

  /** The longer name takes an underscore and what follows it from the front of the other's shape. */
  ghost predicate Shifted(name: string, shape: string, name': string, shape': string) {
    exists mid: string :: name' == name + "_" + mid && shape == mid + "_" + shape'
  }

  /** Two pairs share a key exactly when they are equal or one is the other with its split shifted. */
  lemma {:induction false} KeysCollideIff(name: string, shape: string, name': string, shape': string)
    ensures Key(name, shape) == Key(name', shape') <==>
            || (name == name' && shape == shape')
            || Shifted(name, shape, name', shape')
            || Shifted(name', shape', name, shape)
  {
    hide Shifted;
    if |name| < |name'| {
      LongerNameCollidesIff(name, shape, name', shape');
      NotShifted(name', shape', name, shape);
    } else if |name'| < |name| {
      LongerNameCollidesIff(name', shape', name, shape);
      NotShifted(name, shape, name', shape');
    } else {
      NotShifted(name, shape, name', shape');
      NotShifted(name', shape', name, shape);
      if Key(name, shape) == Key(name', shape') {
        assert Key(name, shape)[..|name|] == name && Key(name, shape)[|name| + 1..] == shape;
        assert Key(name', shape')[..|name|] == name' && Key(name', shape')[|name| + 1..] == shape';
      }
    }
  }

  lemma {:induction false} NotShifted(name: string, shape: string, name': string, shape': string)
    requires |name'| <= |name|
    ensures !Shifted(name, shape, name', shape')
  {
  }

  lemma {:induction false} LongerNameCollidesIff(name: string, shape: string, name': string, shape': string)
    requires |name| < |name'|
    ensures Key(name, shape) == Key(name', shape') <==> Shifted(name, shape, name', shape')
  {
    var key, key' := Key(name, shape), Key(name', shape');
    if key == key' {
      var mid := name'[|name| + 1..];
      assert name' == key[..|name'|] && key[|name|] == '_' && key[..|name|] == name;
      assert name' == name + "_" + mid;
      assert shape == key[|name| + 1..] && key == (name + "_" + mid) + "_" + shape';
      assert shape == mid + "_" + shape';
    }
    if Shifted(name, shape, name', shape') {
      var mid: string :| name' == name + "_" + mid && shape == mid + "_" + shape';
      assert key == name + "_" + (mid + "_" + shape');
      assert key' == (name + "_" + mid) + "_" + shape';
      assert key == key';
    }
  }

  /** So with underscore-free shapes a key determines its name and shape. */
  lemma {:induction false} KeyInjective(name: string, shape: string, name': string, shape': string)
    requires '_' !in shape && '_' !in shape' && Key(name, shape) == Key(name', shape')
    ensures name == name' && shape == shape'
  {
    KeysCollideIff(name, shape, name', shape');
    ShiftedHasUnderscore(name, shape, name', shape');
    ShiftedHasUnderscore(name', shape', name, shape);
  }

  lemma {:induction false} ShiftedHasUnderscore(name: string, shape: string, name': string, shape': string)
    ensures Shifted(name, shape, name', shape') ==> '_' in shape
  {
    if mid: string :| name' == name + "_" + mid && shape == mid + "_" + shape' {
      assert shape[|mid|] == '_';
    }
  }

  /** Such a pair. */
  lemma {:induction false} UnderscoredShapesCollide()
    ensures Key("a_b", "c") == Key("a", "b_c")
  {
  }

  /******* Python dicts keep first-insertion order *******/

  /** `list(dict.fromkeys(xs))` */
  function Dedup<T(==, !new)>(xs: seq<T>): (r: seq<T>)
    ensures forall x :: x in r <==> x in xs
    ensures forall i, j | 0 <= i < j < |r| :: r[i] != r[j]
  {
    if xs == [] then []
    else
      var front := Dedup(xs[..|xs| - 1]);
      var last := xs[|xs| - 1];
      assert forall x :: x in xs <==> x in xs[..|xs| - 1] || x == last;
      if last in front then front else front + [last]
  }

  function Map<S, T>(f: S -> T, xs: seq<S>): (r: seq<T>)
    ensures |r| == |xs| && forall i | 0 <= i < |xs| :: r[i] == f(xs[i])
  {
    seq(|xs|, i requires 0 <= i < |xs| => f(xs[i]))
  }

  lemma {:induction false} DedupSnoc<T(!new)>(xs: seq<T>, x: T)
    ensures Dedup(xs + [x]) == if x in xs then Dedup(xs) else Dedup(xs) + [x]
  {
  }

  lemma {:induction false} MapSnoc<S, T>(f: S -> T, xs: seq<S>, x: S)
    ensures Map(f, xs + [x]) == Map(f, xs) + [f(x)]
  {
  }

  lemma {:induction false} MapIn<S, T>(f: S -> T, xs: seq<S>, x: S)
    ensures x in xs ==> f(x) in Map(f, xs)
  {
  }

  /** Mapping and removing duplicates: removing them first makes no difference. */
  lemma {:induction false} DedupOfMap<S(!new), T(!new)>(f: S -> T, xs: seq<S>)
    ensures Dedup(Map(f, Dedup(xs))) == Dedup(Map(f, xs))
  {
    if xs != [] {
      var front, last := xs[..|xs| - 1], xs[|xs| - 1];
      assert xs == front + [last];
      hide Dedup, Map;
      DedupOfMap(f, front);
      DedupSnoc(front, last);
      MapSnoc(f, front, last);
      DedupSnoc(Map(f, front), f(last));
      MapSnoc(f, Dedup(front), last);
      DedupSnoc(Map(f, Dedup(front)), f(last));
      MapIn(f, front, last);
      assert forall y :: y in Map(f, Dedup(front)) <==> y in Dedup(Map(f, Dedup(front)));
      assert forall y :: y in Map(f, front) <==> y in Dedup(Map(f, front));
    }
  }

  /** `f` tells the elements of `xs` apart. */
  ghost predicate InjectiveOn<S, T>(f: S -> T, xs: seq<S>) {
    forall i, j | 0 <= i < |xs| && 0 <= j < |xs| && f(xs[i]) == f(xs[j]) :: xs[i] == xs[j]
  }

  /** An injective map keeps duplicates duplicates, and nothing else. */
  lemma {:induction false} DedupInjective<S(!new), T(!new)>(f: S -> T, xs: seq<S>)
    requires InjectiveOn(f, xs)
    ensures Dedup(Map(f, xs)) == Map(f, Dedup(xs))
  {
    if xs != [] {
      var front, last := xs[..|xs| - 1], xs[|xs| - 1];
      assert xs == front + [last];
      hide Dedup, Map;
      DedupInjective(f, front);
      DedupSnoc(front, last);
      MapSnoc(f, front, last);
      DedupSnoc(Map(f, front), f(last));
      MapSnoc(f, Dedup(front), last);
      MapIn(f, front, last);
      if f(last) in Map(f, front) {
        var i :| 0 <= i < |front| && Map(f, front)[i] == f(last);
        assert xs[i] == front[i] && f(xs[i]) == f(xs[|xs| - 1]);
        assert front[i] == last;
      }
    }
  }

  /******* The history of insertions *******/

  function KeyOf(i: Insertion): string {
    Key(i.name, i.shape)
  }

  function EntryOf(i: Insertion): Bytes {
    i.entry
  }

  function NameOf(i: Insertion): string {
    i.name
  }

  /** The bytes last inserted under this pair. */
  ghost function LastFor(h: seq<Insertion>, name: string, shape: string): Option<Bytes> {
    if h == [] then None
    else if h[|h| - 1].name == name && h[|h| - 1].shape == shape then Some(h[|h| - 1].entry)
    else LastFor(h[..|h| - 1], name, shape)
  }

  /** The bytes last inserted under this key. */
  ghost function LastUnder(h: seq<Insertion>, key: string): Option<Bytes> {
    if h == [] then None
    else if KeyOf(h[|h| - 1]) == key then Some(h[|h| - 1].entry)
    else LastUnder(h[..|h| - 1], key)
  }

  ghost predicate PlainShapes(h: seq<Insertion>) {
    forall i | 0 <= i < |h| :: '_' !in h[i].shape
  }

  lemma {:induction false} LastUnderIsLastFor(h: seq<Insertion>, name: string, shape: string)
    requires PlainShapes(h) && '_' !in shape
    ensures LastUnder(h, Key(name, shape)) == LastFor(h, name, shape)
  {
    if h != [] {
      var last := h[|h| - 1];
      if KeyOf(last) == Key(name, shape) {
        KeyInjective(last.name, last.shape, name, shape);
      }
      LastUnderIsLastFor(h[..|h| - 1], name, shape);
    }
  }

  lemma {:induction false} LastUnderFound(h: seq<Insertion>, key: string)
    ensures LastUnder(h, key).Some? <==> key in Map(KeyOf, h)
    ensures LastUnder(h, key).Some? ==> LastUnder(h, key).value in Map(EntryOf, h)
  {
    if h != [] {
      var front, last := h[..|h| - 1], h[|h| - 1];
      assert h == front + [last];
      LastUnderFound(front, key);
      MapSnoc(KeyOf, front, last);
      MapSnoc(EntryOf, front, last);
    }
  }

  ghost function Entries(h: seq<Insertion>): seq<Bytes> {
    Map(EntryOf, h)
  }

  function TotalLength(entries: seq<Bytes>): nat {
    if entries == [] then 0 else TotalLength(entries[..|entries| - 1]) + |entries[|entries| - 1]|
  }

  lemma {:induction false} LengthStep(entries: seq<Bytes>, i: nat)
    requires i < |entries|
    ensures TotalLength(entries[..i + 1]) == TotalLength(entries[..i]) + |entries[i]|
  {
    assert entries[..i + 1][..i] == entries[..i];
  }

  lemma {:induction false} NoLength(entries: seq<Bytes>)
    ensures TotalLength(entries[..0]) == 0
  {
  }

  /** A part as large as the whole is the whole: the early return of `load_all`. */
  lemma {:induction false} SameSizeSubset<T>(part: set<T>, whole: set<T>)
    requires part <= whole && |part| == |whole|
    ensures part == whole
  {
    if x :| x in whole && x !in part {
      SubsetSize(part, whole - {x});
    }
  }

  lemma {:induction false} SubsetSize<T>(part: set<T>, whole: set<T>)
    requires part <= whole
    ensures |part| <= |whole|
    decreases part
  {
    if x :| x in part {
      SubsetSize(part - {x}, whole - {x});
    }
  }

  /******* The store *******/

  /** What `__getstate__` hands to pickle: the loaded modules are not part of it. */
  datatype State = State(keys: seq<string>, submoduleBytes: map<string, string>,
                         digests: seq<string>, store: map<string, Bytes>)

  /** The state that a history of insertions leaves behind. */
  ghost predicate Describes(hash: Bytes -> string, s: State, h: seq<Insertion>) {
    && KeysDescribe(hash, s.keys, s.submoduleBytes, h)
    && StoreDescribes(hash, s.digests, s.store, Entries(h))
  }

  /** Each key used leads to the digest of the bytes last inserted under it. */
  ghost predicate KeysDescribe(hash: Bytes -> string, keys: seq<string>, submoduleBytes: map<string, string>, h: seq<Insertion>) {
    && keys == Dedup(Map(KeyOf, h))
    && (forall k :: k in submoduleBytes <==> k in keys)
    && (forall k | k in submoduleBytes ::
          LastUnder(h, k).Some? && submoduleBytes[k] == hash(LastUnder(h, k).value))
  }

  /** The first of these bytes with the given digest. */
  ghost function First(hash: Bytes -> string, entries: seq<Bytes>, digest: string): Option<Bytes> {
    if entries == [] then None
    else
      var front, last := entries[..|entries| - 1], entries[|entries| - 1];
      var first := First(hash, front, digest);
      if first.None? && hash(last) == digest then Some(last) else first
  }

  lemma {:induction false} FirstHasDigest(hash: Bytes -> string, entries: seq<Bytes>, digest: string)
    ensures var first := First(hash, entries, digest);
            && (first.Some? ==> hash(first.value) == digest && first.value in entries)
            && (first.None? ==> digest !in Map(hash, entries))
  {
    if entries != [] {
      var front, last := entries[..|entries| - 1], entries[|entries| - 1];
      assert entries == front + [last];
      FirstHasDigest(hash, front, digest);
      MapSnoc(hash, front, last);
    }
  }

  /** Each digest met leads to the first bytes inserted that have it. */
  ghost predicate StoreDescribes(hash: Bytes -> string, digests: seq<string>, store: map<string, Bytes>, entries: seq<Bytes>) {
    && digests == Dedup(Map(hash, entries))
    && (forall d :: d in store <==> d in digests)
    && (forall d | d in store :: First(hash, entries, d) == Some(store[d]))
  }

  function Inserted(hash: Bytes -> string, s: State, i: Insertion): State {
    var key, digest := KeyOf(i), hash(i.entry);
    State(
      if key in s.submoduleBytes then s.keys else s.keys + [key],
      s.submoduleBytes[key := digest],
      if digest in s.store then s.digests else s.digests + [digest],
      if digest in s.store then s.store else s.store[digest := i.entry])
  }

  lemma {:induction false} InsertedDescribes(hash: Bytes -> string, s: State, h: seq<Insertion>, i: Insertion)
    requires Describes(hash, s, h)
    ensures Describes(hash, Inserted(hash, s, i), h + [i])
  {
    KeyAdded(hash, s.keys, s.submoduleBytes, h, i);
    EntryAdded(hash, s.digests, s.store, Entries(h), i.entry);
    MapSnoc(EntryOf, h, i);
  }

  lemma {:induction false} KeyAdded(hash: Bytes -> string, keys: seq<string>, submoduleBytes: map<string, string>, h: seq<Insertion>, i: Insertion)
    requires KeysDescribe(hash, keys, submoduleBytes, h)
    ensures KeysDescribe(hash, if KeyOf(i) in submoduleBytes then keys else keys + [KeyOf(i)],
                         submoduleBytes[KeyOf(i) := hash(i.entry)], h + [i])
  {
    hide Dedup, Map;
    assert (h + [i])[..|h + [i]| - 1] == h;
    MapSnoc(KeyOf, h, i);
    DedupSnoc(Map(KeyOf, h), KeyOf(i));
  }

  lemma {:induction false} EntryAdded(hash: Bytes -> string, digests: seq<string>, store: map<string, Bytes>, entries: seq<Bytes>, entry: Bytes)
    requires StoreDescribes(hash, digests, store, entries)
    ensures StoreDescribes(hash, if hash(entry) in store then digests else digests + [hash(entry)],
                           if hash(entry) in store then store else store[hash(entry) := entry], entries + [entry])
  {
    hide Dedup, Map;
    MapSnoc(hash, entries, entry);
    DedupSnoc(Map(hash, entries), hash(entry));
    assert (entries + [entry])[..|entries + [entry]| - 1] == entries;
    FirstHasDigest(hash, entries, hash(entry));
  }

  lemma {:induction false} StoredDigests(hash: Bytes -> string, s: State, h: seq<Insertion>)
    requires Describes(hash, s, h)
    ensures forall d :: d in s.store <==> d in s.digests
  {
  }

  /** A recorded key leads to the first bytes that have the digest of the bytes last inserted under it. */
  lemma {:induction false} KeyLeadsToBytes(hash: Bytes -> string, s: State, h: seq<Insertion>, key: string)
    requires Describes(hash, s, h)
    ensures key in s.submoduleBytes <==> LastUnder(h, key).Some?
    ensures key in s.submoduleBytes ==>
              && s.submoduleBytes[key] in s.store
              && LastUnder(h, key).value in Entries(h)
              && First(hash, Entries(h), hash(LastUnder(h, key).value)) == Some(s.store[s.submoduleBytes[key]])
  {
    LastUnderFound(h, key);
    if key in s.submoduleBytes {
      MapIn(hash, Entries(h), LastUnder(h, key).value);
    }
  }

  lemma {:induction false} SameDigest(hash: Bytes -> string, entries: seq<Bytes>, a: Bytes, b: Bytes)
    requires InjectiveOn(hash, entries) && a in entries && b in entries && hash(a) == hash(b)
    ensures a == b
  {
  }

  /** Those bytes are the last inserted themselves when the hash tells the inserted bytes apart. */
  lemma {:induction false} StoredIsLast(hash: Bytes -> string, s: State, h: seq<Insertion>, key: string)
    requires Describes(hash, s, h) && InjectiveOn(hash, Entries(h))
    requires key in s.submoduleBytes
    ensures s.submoduleBytes[key] in s.store && LastUnder(h, key) == Some(s.store[s.submoduleBytes[key]])
  {
    KeyLeadsToBytes(hash, s, h, key);
    var stored, last := s.store[s.submoduleBytes[key]], LastUnder(h, key).value;
    FirstHasDigest(hash, Entries(h), hash(last));
    SameDigest(hash, Entries(h), stored, last);
  }

  /** The stored values, in order, are the distinct contents in the order they first came. */
  lemma {:induction false} StoredOnce(hash: Bytes -> string, s: State, h: seq<Insertion>)
    requires Describes(hash, s, h) && InjectiveOn(hash, Entries(h))
    ensures |s.digests| == |s.store| == |Dedup(Entries(h))|
    ensures forall i: nat | i < |s.digests| :: s.digests[i] in s.store && s.store[s.digests[i]] == Dedup(Entries(h))[i]
  {
    DedupInjective(hash, Entries(h));
    DistinctSize(s.digests);
    hide InjectiveOn, KeysDescribe, Dedup;
    assert s.store.Keys == (set d | d in s.digests);
    var contents := Dedup(Entries(h));
    forall i: nat | i < |s.digests| ensures s.digests[i] in s.store && s.store[s.digests[i]] == contents[i] {
      var stored := s.store[s.digests[i]];
      FirstHasDigest(hash, Entries(h), s.digests[i]);
      assert hash(stored) == hash(contents[i]);
      assert contents[i] in Entries(h);
      SameDigest(hash, Entries(h), stored, contents[i]);
    }
  }

  lemma {:induction false} DistinctSize<T>(xs: seq<T>)
    requires forall i, j | 0 <= i < j < |xs| :: xs[i] != xs[j]
    ensures |set x | x in xs| == |xs|
  {
    if xs != [] {
      var front, last := xs[..|xs| - 1], xs[|xs| - 1];
      assert xs == front + [last];
      DistinctSize(front);
      assert (set x | x in xs) == (set x | x in front) + {last};
    }
  }

  /** The names recovered from the keys are the inserted names in the order they first came. */
  lemma {:induction false} NamesRecovered(h: seq<Insertion>)
    requires PlainShapes(h)
    ensures Dedup(Map(BeforeLastUnderscore, Dedup(Map(KeyOf, h)))) == Dedup(Map(NameOf, h))
  {
    DedupOfMap(BeforeLastUnderscore, Map(KeyOf, h));
    forall i | 0 <= i < |h| ensures BeforeLastUnderscore(Map(KeyOf, h)[i]) == Map(NameOf, h)[i] {
      NameOfKey(h[i].name, h[i].shape);
    }
    assert Map(BeforeLastUnderscore, Map(KeyOf, h)) == Map(NameOf, h);
  }

  /** Every loaded module comes from its own bytes. */
  ghost predicate LoadedFrom<M>(load: Bytes -> M, store: map<string, Bytes>, loaded: map<string, M>) {
    forall d | d in loaded :: d in store && loaded[d] == load(store[d])
  }

  lemma {:induction false} LoadOne<M>(load: Bytes -> M, store: map<string, Bytes>, loaded: map<string, M>, digest: string)
    requires LoadedFrom(load, store, loaded) && digest in store
    ensures LoadedFrom(load, store, loaded[digest := load(store[digest])])
  {
  }

  lemma {:induction false} LoadedEnough<M>(load: Bytes -> M, store: map<string, Bytes>, loaded: map<string, M>)
    requires LoadedFrom(load, store, loaded)
    ensures |loaded| == |store| ==> loaded.Keys == store.Keys
  {
    if |loaded| == |store| {
      SameSizeSubset(loaded.Keys, store.Keys);
    }
  }

  lemma {:induction false} LoadedCovers<M>(load: Bytes -> M, store: map<string, Bytes>, loaded: map<string, M>, digests: seq<string>)
    requires LoadedFrom(load, store, loaded)
    requires forall d :: d in store <==> d in digests
    requires forall j: nat | j < |digests| :: digests[j] in loaded
    ensures loaded.Keys == store.Keys
  {
  }

  class StandaloneCompiledArtifacts<M> {
    const hash: Bytes -> string
    const load: Bytes -> M
    // Python dicts: the keys in insertion order, and the map
    var keys: seq<string>
    var submoduleBytes: map<string, string>
    var digests: seq<string>
    var store: map<string, Bytes>
    var loaded: map<string, M>
    ghost var history: seq<Insertion>

    ghost predicate Valid()
      reads this
    {
      && Describes(hash, GetState(), history)
      && LoadedFrom(load, store, loaded)
    }

    ghost predicate AllLoaded()
      reads this
    {
      loaded.Keys == store.Keys
    }

    ghost predicate CollisionFree()
      reads this
    {
      InjectiveOn(hash, Entries(history))
    }

    constructor (hash: Bytes -> string, load: Bytes -> M)
      ensures Valid() && history == [] && this.hash == hash && this.load == load
    {
      this.hash, this.load := hash, load;
      keys, submoduleBytes, digests, store, loaded := [], map[], [], map[], map[];
      history := [];
    }

    /** `__getstate__` */
    function GetState(): State
      reads this
    {
      State(keys, submoduleBytes, digests, store)
    }

    /** `__setstate__`, on a new object: all insertions are kept and no module is loaded. */
    constructor SetState(hash: Bytes -> string, load: Bytes -> M, state: State, ghost h: seq<Insertion>)
      requires Describes(hash, state, h)
      ensures Valid() && history == h && loaded == map[] && this.hash == hash && this.load == load
    {
      this.hash, this.load := hash, load;
      keys, submoduleBytes := state.keys, state.submoduleBytes;
      digests, store := state.digests, state.store;
      loaded, history := map[], h;
    }

    method Insert(name: string, shape: string, entry: Bytes)
      requires Valid()
      modifies this
      ensures Valid() && history == old(history) + [Insertion(name, shape, entry)]
      ensures loaded == old(loaded)
      // repeated content takes no space
      ensures hash(entry) in old(store) ==> store == old(store) && digests == old(digests)
    {
      hide Describes, LastUnder;
      InsertedDescribes(hash, GetState(), history, Insertion(name, shape, entry));
      var hexDigest := hash(entry);
      var key := name + "_" + shape;
      if key !in submoduleBytes {
        keys := keys + [key];
      }
      submoduleBytes := submoduleBytes[key := hexDigest];
      if hexDigest !in store {
        digests := digests + [hexDigest];
        store := store[hexDigest := entry];
      }
      history := history + [Insertion(name, shape, entry)];
    }

    method Get(name: string, shape: string) returns (r: Result<Bytes>)
      requires Valid()
      ensures r.Ok? <==> LastUnder(history, Key(name, shape)).Some?
      ensures r.Raise? ==> r.error == "KeyError"
      // whatever the hash and the shapes: the first bytes with the digest of the last
      ensures r.Ok? ==> Some(r.value) == First(hash, Entries(history), hash(LastUnder(history, Key(name, shape)).value))
      ensures CollisionFree() && PlainShapes(history) && '_' !in shape ==>
                r == match LastFor(history, name, shape) { case Some(b) => Ok(b) case None => Raise("KeyError") }
    {
      var key := name + "_" + shape;
      KeyLeadsToBytes(hash, GetState(), history, key);
      if PlainShapes(history) && '_' !in shape {
        LastUnderIsLastFor(history, name, shape);
      }
      if key !in submoduleBytes {
        return Raise("KeyError");
      }
      if CollisionFree() {
        StoredIsLast(hash, GetState(), history, key);
      }
      r := Ok(store[submoduleBytes[key]]);
    }

    method GetLoaded(name: string, shape: string) returns (r: Result<M>)
      requires Valid()
      ensures r.Raise? ==> r.error == "KeyError"
      // it succeeds exactly when the digest of the last bytes under the key is loaded
      ensures r.Ok? <==>
                LastUnder(history, Key(name, shape)).Some? && hash(LastUnder(history, Key(name, shape)).value) in loaded
      ensures AllLoaded() ==> (r.Ok? <==> LastUnder(history, Key(name, shape)).Some?)
      ensures r.Ok? && CollisionFree() ==>
                && LastUnder(history, Key(name, shape)).Some?
                && r.value == load(LastUnder(history, Key(name, shape)).value)
      ensures r.Ok? && CollisionFree() && PlainShapes(history) && '_' !in shape ==>
                && LastFor(history, name, shape).Some?
                && r.value == load(LastFor(history, name, shape).value)
    {
      var key := name + "_" + shape;
      KeyLeadsToBytes(hash, GetState(), history, key);
      if PlainShapes(history) && '_' !in shape {
        LastUnderIsLastFor(history, name, shape);
      }
      if key !in submoduleBytes || submoduleBytes[key] !in loaded {
        return Raise("KeyError");
      }
      if CollisionFree() {
        StoredIsLast(hash, GetState(), history, key);
      }
      r := Ok(loaded[submoduleBytes[key]]);
    }

    method LoadAll()
      requires Valid()
      modifies this`loaded
      ensures Valid() && AllLoaded()
    {
      hide Describes, LoadedFrom, KeyOf, LastUnder;
      StoredDigests(hash, GetState(), history);
      LoadedEnough(load, store, loaded);
      if |loaded| == |store| {
        return;
      }
      for i := 0 to |digests|
        invariant LoadedFrom(load, store, loaded)
        invariant forall j: nat | j < i :: digests[j] in loaded
      {
        LoadOne(load, store, loaded, digests[i]);
        loaded := loaded[digests[i] := load(store[digests[i]])];
      }
      LoadedCovers(load, store, loaded, digests);
    }

    method NumArtifacts() returns (n: nat)
      requires Valid()
      ensures n == |store|
      ensures CollisionFree() ==> n == |Dedup(Entries(history))|
    {
      if CollisionFree() {
        StoredOnce(hash, GetState(), history);
      }
      n := |store|;
    }

    method SizeBytes() returns (n: nat)
      requires Valid()
      ensures CollisionFree() ==> n == TotalLength(Dedup(Entries(history)))
    {
      hide Describes, Dedup, Map, InjectiveOn;
      hide TotalLength, LoadedFrom;
      n := 0;
      ghost var free, contents := CollisionFree(), Dedup(Entries(history));
      StoredDigests(hash, GetState(), history);
      if free {
        StoredOnce(hash, GetState(), history);
      }
      NoLength(contents);
      for i := 0 to |digests|
        invariant free ==> |contents| == |digests| && n == TotalLength(contents[..i])
      {
        if free {
          LengthStep(contents, i);
        }
        n := n + |store[digests[i]]|;
      }
      assert free ==> contents[..|digests|] == contents;
    }

    method NumEntries() returns (n: nat)
      requires Valid()
      ensures n == |Dedup(Map(KeyOf, history))|
    {
      DistinctSize(keys);
      assert submoduleBytes.Keys == (set k | k in keys);
      n := |submoduleBytes|;
    }

    method SubmoduleNames() returns (names: seq<string>)
      requires Valid()
      ensures PlainShapes(history) ==> names == Dedup(Map(NameOf, history))
    {
      if PlainShapes(history) {
        NamesRecovered(history);
      }
      names := Dedup(Map(BeforeLastUnderscore, keys));
    }
  }
}
