/**
  Static input buffers (vllm/compilation/backends.py, make_copy_and_call) in front of a
  cache of captured executions (vllm/compilation/cuda_graph.py, CUDAGraphWrapper).

  Memory is a map from addresses to storages. A runnable is a function from argument
  shapes to a program of kernel launches over argument and temporary slots; running it
  binds the slots to addresses. A captured graph is such a program with its addresses
  already bound: capturing records it without executing a launch, replaying executes it
  whatever arguments the call was given.
 */
module CudaGraph {
  import opened Wrappers

  /******* Memory *******/

  type Data = seq<int>

  /** Storages by address; everything from `next` on is unallocated. */
  datatype Mem = Mem(store: map<nat, Data>, next: nat)

  /** A tensor views the first `rows` rows of the storage at `ptr`. */
  datatype Tensor = Tensor(ptr: nat, rows: nat)

  datatype Arg = TensorArg(t: Tensor) | Scalar(n: int)

  datatype Shape = Rows(rows: nat) | Value(n: int)

  function Get(m: Mem, ptr: nat): Data {
    if ptr in m.store then m.store[ptr] else []
  }

  function Put(m: Mem, ptr: nat, d: Data): Mem {
    m.(store := m.store[ptr := d])
  }

  function Take(d: Data, n: nat): Data {
    if n <= |d| then d[..n] else d
  }

  function View(m: Mem, t: Tensor): Data {
    Take(Get(m, t.ptr), t.rows)
  }

  /** A storage after the first `rows` rows of it were overwritten with v. */
  function Overwrite(d: Data, rows: nat, v: Data): (r: Data)
    ensures |r| == |d|
  {
    var w := Take(v, if rows <= |d| then rows else |d|);
    w + d[|w|..]
  }

  function ShapeOf(a: Arg): Shape {
    match a
    case TensorArg(t) => Rows(t.rows)
    case Scalar(n) => Value(n)
  }

  function ShapesOf(args: seq<Arg>): (s: seq<Shape>)
    ensures |s| == |args| && forall i | 0 <= i < |args| :: s[i] == ShapeOf(args[i])
  {
    seq(|args|, i requires 0 <= i < |args| => ShapeOf(args[i]))
  }

  /** `x.data_ptr()` of the tensor arguments, in order. */
  function Addresses(args: seq<Arg>): seq<nat> {
    if args == [] then []
    else (if args[0].TensorArg? then [args[0].t.ptr] else []) + Addresses(args[1..])
  }

  /** The recorded addresses are the same exactly when every tensor argument lies where it lay. */
  lemma {:induction false} AddressesEqualIff(args: seq<Arg>, args': seq<Arg>)
    requires |args| == |args'| && forall i | 0 <= i < |args| :: args[i].TensorArg? <==> args'[i].TensorArg?
    ensures Addresses(args) == Addresses(args') <==>
            forall i | 0 <= i < |args| && args[i].TensorArg? :: args[i].t.ptr == args'[i].t.ptr
    decreases |args|
  {
    if args != [] {
      AddressesEqualIff(args[1..], args'[1..]);
      var a, a' := Addresses(args), Addresses(args');
      if args[0].TensorArg? {
        assert a == [args[0].t.ptr] + Addresses(args[1..]) && a' == [args'[0].t.ptr] + Addresses(args'[1..]);
        assert a[1..] == Addresses(args[1..]) && a'[1..] == Addresses(args'[1..]);
      } else {
        assert a == Addresses(args[1..]) && a' == Addresses(args'[1..]);
      }
      assert forall i | 0 < i < |args| :: args[i] == args[1..][i - 1] && args'[i] == args'[1..][i - 1];
    }
  }

  /******* Runnables *******/

  datatype Slot = ArgSlot(i: nat) | TmpSlot(j: nat)

  datatype Launch = Launch(op: nat, ins: seq<Slot>, out: Slot)

  datatype Program = Program(launches: seq<Launch>, temps: nat, results: seq<Slot>)

  datatype Runnable = Runnable(trace: seq<Shape> -> Program, kernel: (nat, seq<Data>) -> Data)

  function ReadSlot(args: seq<Arg>, base: nat, s: Slot, m: Mem): Data {
    match s
    case ArgSlot(i) => if i < |args| && args[i].TensorArg? then View(m, args[i].t) else []
    case TmpSlot(j) => Get(m, base + j)
  }

  function ReadSlots(args: seq<Arg>, base: nat, slots: seq<Slot>, m: Mem): (r: seq<Data>)
    ensures |r| == |slots| && forall x | 0 <= x < |slots| :: r[x] == ReadSlot(args, base, slots[x], m)
  {
    seq(|slots|, x requires 0 <= x < |slots| => ReadSlot(args, base, slots[x], m))
  }

  function WriteSlot(args: seq<Arg>, base: nat, s: Slot, v: Data, m: Mem): Mem {
    match s
    case ArgSlot(i) =>
      if i < |args| && args[i].TensorArg? then
        var t := args[i].t;
        Put(m, t.ptr, Overwrite(Get(m, t.ptr), t.rows, v))
      else m
    case TmpSlot(j) => Put(m, base + j, v)
  }

  function ExecLaunch(r: Runnable, l: Launch, args: seq<Arg>, base: nat, m: Mem): Mem {
    WriteSlot(args, base, l.out, r.kernel(l.op, ReadSlots(args, base, l.ins, m)), m)
  }

  /** Memory after the first k launches, with temporaries at base, base + 1, ... */
  function Exec(r: Runnable, p: Program, args: seq<Arg>, base: nat, k: nat, m: Mem): Mem
    requires k <= |p.launches|
  {
    if k == 0 then m
    else ExecLaunch(r, p.launches[k - 1], args, base, Exec(r, p, args, base, k - 1, m))
  }

  function Run(r: Runnable, p: Program, args: seq<Arg>, base: nat, m: Mem): Mem {
    Exec(r, p, args, base, |p.launches|, m)
  }

  /** An eager call: temporaries are freshly allocated. */
  function RunFresh(r: Runnable, args: seq<Arg>, m: Mem): Mem {
    var p := r.trace(ShapesOf(args));
    Run(r, p, args, m.next, m.(next := m.next + p.temps))
  }

  /** What the results of an eager call hold. */
  function FreshResults(r: Runnable, args: seq<Arg>, m: Mem): seq<Data> {
    ReadSlots(args, m.next, r.trace(ShapesOf(args)).results, RunFresh(r, args, m))
  }

  /** The temporaries written by the first k launches. */
  ghost function Written(p: Program, k: nat): set<nat>
    requires k <= |p.launches|
  {
    set x | 0 <= x < k && p.launches[x].out.TmpSlot? :: p.launches[x].out.j
  }

  ghost predicate SlotReady(s: Slot, shapes: seq<Shape>, ready: set<nat>) {
    match s
    case ArgSlot(i) => i < |shapes| && shapes[i].Rows?
    case TmpSlot(j) => j in ready
  }

  /** Launch x names existing slots and reads no temporary that has not been written. */
  ghost predicate LaunchOk(p: Program, shapes: seq<Shape>, x: nat)
    requires x < |p.launches|
  {
    && (forall s | s in p.launches[x].ins :: SlotReady(s, shapes, Written(p, x)))
    && match p.launches[x].out
       case ArgSlot(i) => i < |shapes| && shapes[i].Rows?
       case TmpSlot(j) => j < p.temps
  }

  ghost predicate ProgramOk(p: Program, shapes: seq<Shape>) {
    && (forall x | 0 <= x < |p.launches| :: LaunchOk(p, shapes, x))
    && (forall s | s in p.results :: SlotReady(s, shapes, Written(p, |p.launches|)))
  }

  ghost predicate Mutates(p: Program, i: nat) {
    exists x :: 0 <= x < |p.launches| && p.launches[x].out == ArgSlot(i)
  }

  /******* One program under two bindings *******/

  /** Two arguments share storage, one of them symbolic, and what is written to w shows in x. */
  ghost predicate Clash(sym: set<nat>, args: seq<Arg>, w: nat, x: nat) {
    && w < |args| && x < |args| && w != x && args[w].TensorArg? && args[x].TensorArg?
    && args[w].t.ptr == args[x].t.ptr
    && (w in sym || x in sym)
    && args[w].t.rows > 0 && (x in sym ==> args[x].t.rows > 0)
  }

  /** No mutated argument clashes with another. */
  ghost predicate NoAlias(p: Program, sym: set<nat>, args: seq<Arg>) {
    forall w, x | Mutates(p, w) :: !Clash(sym, args, w, x)
  }

  ghost predicate TempsApart(args: seq<Arg>, base: nat, temps: nat) {
    forall i | 0 <= i < |args| && args[i].TensorArg? :: !(base <= args[i].t.ptr < base + temps)
  }

  /** All tensor arguments lie below this address. */
  ghost predicate ArgsBelow(args: seq<Arg>, limit: nat) {
    forall i | 0 <= i < |args| && args[i].TensorArg? :: args[i].t.ptr < limit
  }

  /** The two sides hold the same data: whole storages for fixed arguments, views for symbolic ones. */
  ghost predicate SameArg(sym: set<nat>, i: nat, a: Arg, m: Mem, a': Arg, m': Mem) {
    match (a, a')
    case (TensorArg(t), TensorArg(t')) =>
      && t.rows == t'.rows
      && (i !in sym ==> t == t' && Get(m, t.ptr) == Get(m', t.ptr))
      && (i in sym ==> t.rows <= |Get(m, t.ptr)| && t.rows <= |Get(m', t'.ptr)| && View(m, t) == View(m', t'))
    case (Scalar(n), Scalar(n')) => n == n'
    case _ => false
  }

  ghost predicate SameArgs(sym: set<nat>, args: seq<Arg>, m: Mem, args': seq<Arg>, m': Mem) {
    |args| == |args'| && forall i | 0 <= i < |args| :: SameArg(sym, i, args[i], m, args'[i], m')
  }

  ghost predicate SameTemps(ready: set<nat>, base: nat, m: Mem, base': nat, m': Mem) {
    forall j | j in ready :: Get(m, base + j) == Get(m', base' + j)
  }

  lemma {:induction false} ReadyReadsSame(sym: set<nat>, ready: set<nat>, s: Slot, args: seq<Arg>, base: nat, m: Mem, args': seq<Arg>, base': nat, m': Mem)
    requires SameArgs(sym, args, m, args', m') && SameTemps(ready, base, m, base', m')
    requires SlotReady(s, ShapesOf(args), ready)
    ensures ReadSlot(args, base, s, m) == ReadSlot(args', base', s, m')
  {
  }

  lemma {:induction false} ReadySlotsSame(sym: set<nat>, ready: set<nat>, slots: seq<Slot>, args: seq<Arg>, base: nat, m: Mem, args': seq<Arg>, base': nat, m': Mem)
    requires SameArgs(sym, args, m, args', m') && SameTemps(ready, base, m, base', m')
    requires forall s | s in slots :: SlotReady(s, ShapesOf(args), ready)
    ensures ReadSlots(args, base, slots, m) == ReadSlots(args', base', slots, m')
  {
    forall x | 0 <= x < |slots|
      ensures ReadSlot(args, base, slots[x], m) == ReadSlot(args', base', slots[x], m')
    {
      ReadyReadsSame(sym, ready, slots[x], args, base, m, args', base', m');
    }
  }

  lemma {:induction false} WriteTempSame(p: Program, sym: set<nat>, ready: set<nat>, j: nat, v: Data, args: seq<Arg>, base: nat, m: Mem, args': seq<Arg>, base': nat, m': Mem)
    requires SameArgs(sym, args, m, args', m') && SameTemps(ready, base, m, base', m')
    requires TempsApart(args, base, p.temps) && TempsApart(args', base', p.temps) && j < p.temps
    ensures SameArgs(sym, args, Put(m, base + j, v), args', Put(m', base' + j, v))
    ensures SameTemps(ready + {j}, base, Put(m, base + j, v), base', Put(m', base' + j, v))
  {
  }

  lemma {:induction false} OverwriteView(d: Data, d': Data, rows: nat, v: Data)
    requires rows <= |d| && rows <= |d'| && d[..rows] == d'[..rows]
    ensures Overwrite(d, rows, v)[..rows] == Overwrite(d', rows, v)[..rows]
  {
    var w := Take(v, rows);
    assert Overwrite(d, rows, v)[..rows] == w + d[..rows][|w|..];
    assert Overwrite(d', rows, v)[..rows] == w + d'[..rows][|w|..];
  }

  /** Writing an argument overwrites its rows of its storage, and nothing else. */
  lemma {:induction false} WriteArgGet(args: seq<Arg>, base: nat, w: nat, v: Data, m: Mem, ptr: nat)
    requires w < |args| && args[w].TensorArg?
    ensures var n := WriteSlot(args, base, ArgSlot(w), v, m);
            && Get(n, ptr) == (if ptr == args[w].t.ptr then Overwrite(Get(m, ptr), args[w].t.rows, v) else Get(m, ptr))
            && (args[w].t.rows == 0 ==> Get(n, ptr) == Get(m, ptr))
  {
  }

  lemma {:induction false} WriteArgSameAt(sym: set<nat>, w: nat, v: Data, i: nat, args: seq<Arg>, base: nat, m: Mem, args': seq<Arg>, base': nat, m': Mem)
    requires w < |args| == |args'| && i < |args| && args[w].TensorArg?
    requires SameArg(sym, w, args[w], m, args'[w], m') && SameArg(sym, i, args[i], m, args'[i], m')
    requires !Clash(sym, args, w, i) && !Clash(sym, args', w, i)
    ensures SameArg(sym, i, args[i], WriteSlot(args, base, ArgSlot(w), v, m), args'[i], WriteSlot(args', base', ArgSlot(w), v, m'))
  {
    hide WriteSlot, Overwrite;
    if args[i].TensorArg? {
      WriteArgGet(args, base, w, v, m, args[i].t.ptr);
      WriteArgGet(args', base', w, v, m', args'[i].t.ptr);
      if i == w && w in sym {
        OverwriteView(Get(m, args[i].t.ptr), Get(m', args'[i].t.ptr), args[i].t.rows, v);
      }
    }
  }

  lemma {:induction false} WriteArgSame(p: Program, sym: set<nat>, ready: set<nat>, w: nat, v: Data, args: seq<Arg>, base: nat, m: Mem, args': seq<Arg>, base': nat, m': Mem)
    requires SameArgs(sym, args, m, args', m') && SameTemps(ready, base, m, base', m')
    requires TempsApart(args, base, p.temps) && TempsApart(args', base', p.temps) && forall j | j in ready :: j < p.temps
    requires NoAlias(p, sym, args) && NoAlias(p, sym, args')
    requires w < |args| && args[w].TensorArg? && Mutates(p, w)
    ensures SameArgs(sym, args, WriteSlot(args, base, ArgSlot(w), v, m), args', WriteSlot(args', base', ArgSlot(w), v, m'))
    ensures SameTemps(ready, base, WriteSlot(args, base, ArgSlot(w), v, m), base', WriteSlot(args', base', ArgSlot(w), v, m'))
  {
    hide WriteSlot, Clash, Mutates;
    assert SameArg(sym, w, args[w], m, args'[w], m');
    forall i | 0 <= i < |args|
      ensures SameArg(sym, i, args[i], WriteSlot(args, base, ArgSlot(w), v, m), args'[i], WriteSlot(args', base', ArgSlot(w), v, m'))
    {
      assert SameArg(sym, i, args[i], m, args'[i], m');
      WriteArgSameAt(sym, w, v, i, args, base, m, args', base', m');
    }
    forall j | j in ready
      ensures Get(WriteSlot(args, base, ArgSlot(w), v, m), base + j) == Get(WriteSlot(args', base', ArgSlot(w), v, m'), base' + j)
    {
      WriteArgGet(args, base, w, v, m, base + j);
      WriteArgGet(args', base', w, v, m', base' + j);
    }
  }

  lemma {:induction false} WriteSame(p: Program, sym: set<nat>, ready: set<nat>, s: Slot, v: Data, args: seq<Arg>, base: nat, m: Mem, args': seq<Arg>, base': nat, m': Mem)
    requires SameArgs(sym, args, m, args', m') && SameTemps(ready, base, m, base', m')
    requires TempsApart(args, base, p.temps) && TempsApart(args', base', p.temps) && forall j | j in ready :: j < p.temps
    requires NoAlias(p, sym, args) && NoAlias(p, sym, args')
    requires s.ArgSlot? ==> s.i < |args| && args[s.i].TensorArg? && Mutates(p, s.i)
    requires s.TmpSlot? ==> s.j < p.temps
    ensures SameArgs(sym, args, WriteSlot(args, base, s, v, m), args', WriteSlot(args', base', s, v, m'))
    ensures SameTemps(ready + (if s.TmpSlot? then {s.j} else {}), base, WriteSlot(args, base, s, v, m), base', WriteSlot(args', base', s, v, m'))
  {
    hide SameArgs, SameTemps, NoAlias, TempsApart, Mutates, Overwrite, Get, Put;
    if s.TmpSlot? {
      WriteTempSame(p, sym, ready, s.j, v, args, base, m, args', base', m');
    } else {
      WriteArgSame(p, sym, ready, s.i, v, args, base, m, args', base', m');
      assert ready + {} == ready;
    }
  }

  /** Executing one launch keeps the two sides alike. */
  lemma {:induction false} LaunchSame(r: Runnable, p: Program, sym: set<nat>, x: nat, args: seq<Arg>, base: nat, m: Mem, args': seq<Arg>, base': nat, m': Mem)
    requires x < |p.launches| && LaunchOk(p, ShapesOf(args), x) && forall j | j in Written(p, x) :: j < p.temps
    requires SameArgs(sym, args, m, args', m') && SameTemps(Written(p, x), base, m, base', m')
    requires TempsApart(args, base, p.temps) && TempsApart(args', base', p.temps)
    requires NoAlias(p, sym, args) && NoAlias(p, sym, args')
    ensures SameArgs(sym, args, ExecLaunch(r, p.launches[x], args, base, m), args', ExecLaunch(r, p.launches[x], args', base', m'))
    ensures SameTemps(Written(p, x + 1), base, ExecLaunch(r, p.launches[x], args, base, m), base', ExecLaunch(r, p.launches[x], args', base', m'))
  {
    hide SameArgs, SameTemps, NoAlias, TempsApart, WriteSlot, Written, Mutates, ReadSlots;
    var l := p.launches[x];
    ReadySlotsSame(sym, Written(p, x), l.ins, args, base, m, args', base', m');
    var v := r.kernel(l.op, ReadSlots(args, base, l.ins, m));
    WrittenNext(p, x);
    WriteSame(p, sym, Written(p, x), l.out, v, args, base, m, args', base', m');
  }

  lemma {:induction false} WrittenNext(p: Program, x: nat)
    requires x < |p.launches|
    ensures Written(p, x + 1) == Written(p, x) + (if p.launches[x].out.TmpSlot? then {p.launches[x].out.j} else {})
    ensures p.launches[x].out.ArgSlot? ==> Mutates(p, p.launches[x].out.i)
  {
  }

  lemma {:induction false} WrittenInRange(p: Program, shapes: seq<Shape>, k: nat)
    requires k <= |p.launches| && ProgramOk(p, shapes)
    ensures forall j | j in Written(p, k) :: j < p.temps
  {
    forall j | j in Written(p, k)
      ensures j < p.temps
    {
      var x :| 0 <= x < k && p.launches[x].out.TmpSlot? && p.launches[x].out.j == j;
      assert LaunchOk(p, shapes, x);
    }
  }

  lemma {:induction false} ExecSame(r: Runnable, p: Program, sym: set<nat>, args: seq<Arg>, base: nat, m: Mem, args': seq<Arg>, base': nat, m': Mem, k: nat)
    requires k <= |p.launches| && ProgramOk(p, ShapesOf(args))
    requires SameArgs(sym, args, m, args', m')
    requires TempsApart(args, base, p.temps) && TempsApart(args', base', p.temps)
    requires NoAlias(p, sym, args) && NoAlias(p, sym, args')
    ensures SameArgs(sym, args, Exec(r, p, args, base, k, m), args', Exec(r, p, args', base', k, m'))
    ensures SameTemps(Written(p, k), base, Exec(r, p, args, base, k, m), base', Exec(r, p, args', base', k, m'))
  {
    hide ExecLaunch, SameArgs, NoAlias, TempsApart, LaunchOk;
    if k > 0 {
      ExecSame(r, p, sym, args, base, m, args', base', m', k - 1);
      WrittenInRange(p, ShapesOf(args), k - 1);
      assert LaunchOk(p, ShapesOf(args), k - 1);
      LaunchSame(r, p, sym, k - 1, args, base, Exec(r, p, args, base, k - 1, m), args', base', Exec(r, p, args', base', k - 1, m'));
    }
  }

  lemma {:induction false} ExecNext(r: Runnable, p: Program, args: seq<Arg>, base: nat, k: nat, m: Mem)
    requires k <= |p.launches|
    ensures Exec(r, p, args, base, k, m).next == m.next
  {
    if k > 0 {
      ExecNext(r, p, args, base, k - 1, m);
    }
  }

  /** Outside its temporaries a program resizes no storage. */
  lemma {:induction false} ExecFrame(r: Runnable, p: Program, args: seq<Arg>, base: nat, k: nat, m: Mem, ptr: nat)
    requires k <= |p.launches| && ProgramOk(p, ShapesOf(args))
    requires !(base <= ptr < base + p.temps)
    ensures |Get(Exec(r, p, args, base, k, m), ptr)| == |Get(m, ptr)|
  {
    hide LaunchOk, WriteSlot, Get, ReadSlots;
    if k > 0 {
      ExecFrame(r, p, args, base, k - 1, m, ptr);
      assert LaunchOk(p, ShapesOf(args), k - 1);
      var l, before := p.launches[k - 1], Exec(r, p, args, base, k - 1, m);
      WriteFrame(p, args, base, k - 1, r.kernel(l.op, ReadSlots(args, base, l.ins, before)), before, ptr);
    }
  }

  lemma {:induction false} WriteFrame(p: Program, args: seq<Arg>, base: nat, x: nat, v: Data, m: Mem, ptr: nat)
    requires x < |p.launches| && LaunchOk(p, ShapesOf(args), x) && !(base <= ptr < base + p.temps)
    ensures |Get(WriteSlot(args, base, p.launches[x].out, v, m), ptr)| == |Get(m, ptr)|
  {
  }

  /**
    One program under two bindings: if the arguments hold the same data, neither binding
    makes a mutated argument overlap a symbolic one, and the temporaries are apart from the
    arguments, then the results and the fixed arguments end up with the same data.
   */
  lemma {:induction false} RunSame(r: Runnable, p: Program, sym: set<nat>, args: seq<Arg>, base: nat, m: Mem, args': seq<Arg>, base': nat, m': Mem)
    requires ProgramOk(p, ShapesOf(args))
    requires SameArgs(sym, args, m, args', m')
    requires TempsApart(args, base, p.temps) && TempsApart(args', base', p.temps)
    requires NoAlias(p, sym, args) && NoAlias(p, sym, args')
    ensures ReadSlots(args, base, p.results, Run(r, p, args, base, m)) == ReadSlots(args', base', p.results, Run(r, p, args', base', m'))
    ensures SameArgs(sym, args, Run(r, p, args, base, m), args', Run(r, p, args', base', m'))
  {
    ExecSame(r, p, sym, args, base, m, args', base', m', |p.launches|);
    ReadySlotsSame(sym, Written(p, |p.launches|), p.results, args, base, Run(r, p, args, base, m), args', base', Run(r, p, args', base', m'));
  }
}
