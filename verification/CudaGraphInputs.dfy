/**
  What calling through the static buffers does to the caller's own inputs, and when it agrees with
  the direct call: exactly for inputs that are not mutated, and for arguments that do not clash.
 */
module CudaGraphInputs {
  import opened Wrappers
  import opened CudaGraph
  import opened CudaGraphWrapper
  import opened CudaGraphReplay

  /******* What a program leaves alone *******/

  /** No mutated argument lies at this address. */
  ghost predicate Unwritten(p: Program, args: seq<Arg>, ptr: nat) {
    forall w | 0 <= w < |args| && args[w].TensorArg? && args[w].t.ptr == ptr :: !Mutates(p, w) || args[w].t.rows == 0
  }

  lemma {:induction false} LaunchLeaves(p: Program, args: seq<Arg>, base: nat, x: nat, v: Data, m: Mem, ptr: nat)
    requires x < |p.launches| && LaunchOk(p, ShapesOf(args), x)
    requires !(base <= ptr < base + p.temps) && Unwritten(p, args, ptr)
    ensures Get(WriteSlot(args, base, p.launches[x].out, v, m), ptr) == Get(m, ptr)
  {
    hide LaunchOk, Overwrite;
    var out := p.launches[x].out;
    if out.ArgSlot? {
      hide WriteSlot;
      assert Mutates(p, out.i);
      OutIsTensor(p, args, x);
      WriteArgGet(args, base, out.i, v, m, ptr);
    } else {
      OutIsTensor(p, args, x);
    }
  }

  lemma {:induction false} OutIsTensor(p: Program, args: seq<Arg>, x: nat)
    requires x < |p.launches| && LaunchOk(p, ShapesOf(args), x)
    ensures match p.launches[x].out
            case ArgSlot(i) => i < |args| && args[i].TensorArg?
            case TmpSlot(j) => j < p.temps
  {
  }

  lemma {:induction false} ExecLeaves(r: Runnable, p: Program, args: seq<Arg>, base: nat, k: nat, m: Mem, ptr: nat)
    requires k <= |p.launches| && ProgramOk(p, ShapesOf(args))
    requires !(base <= ptr < base + p.temps) && Unwritten(p, args, ptr)
    ensures Get(Exec(r, p, args, base, k, m), ptr) == Get(m, ptr)
  {
    hide LaunchOk, WriteSlot, Get, ReadSlots, Unwritten;
    if k > 0 {
      ExecLeaves(r, p, args, base, k - 1, m, ptr);
      assert LaunchOk(p, ShapesOf(args), k - 1);
      var l, before := p.launches[k - 1], Exec(r, p, args, base, k - 1, m);
      LaunchLeaves(p, args, base, k - 1, r.kernel(l.op, ReadSlots(args, base, l.ins, before)), before, ptr);
    }
  }

  /** An eager call leaves alone every allocated storage that it does not mutate. */
  lemma {:induction false} FreshLeaves(r: Runnable, args: seq<Arg>, m: Mem, ptr: nat)
    requires var p := r.trace(ShapesOf(args)); ProgramOk(p, ShapesOf(args)) && Unwritten(p, args, ptr)
    requires ptr < m.next
    ensures Get(RunFresh(r, args, m), ptr) == Get(m, ptr)
  {
    var p := r.trace(ShapesOf(args));
    ExecLeaves(r, p, args, m.next, |p.launches|, m.(next := m.next + p.temps), ptr);
  }

  /******* The caller's storage *******/

  /** Allocated storage that is no buffer, no fixed argument and no graph's temporary. */
  ghost predicate CallerOwned(r: Regime, b: Buffered, ptr: nat) {
    && ptr < b.cache.mem.next
    && NotBuffer(b.buffers, ptr)
    && (forall x | 0 <= x < |r.fixed| && x !in r.sym && r.fixed[x].TensorArg? :: r.fixed[x].t.ptr != ptr)
    && forall d | d in b.cache.entries && b.cache.entries[d].graph.Some? ::
         var g := b.cache.entries[d].graph.value;
         !(g.base <= ptr < g.base + g.program.temps)
  }

  /** Arguments bound to buffers and fixed tensors do not lie in the caller's storage. */
  lemma {:induction false} BoundElsewhere(r: Regime, buffers: seq<Option<Tensor>>, args: seq<Arg>, p: Program, ptr: nat)
    requires Bound(r.sym, buffers, args) && MatchesFixed(r.sym, r.fixed, args) && NotBuffer(buffers, ptr)
    requires forall x | 0 <= x < |r.fixed| && x !in r.sym && r.fixed[x].TensorArg? :: r.fixed[x].t.ptr != ptr
    ensures Unwritten(p, args, ptr)
  {
    forall w | 0 <= w < |args| && args[w].TensorArg?
      ensures args[w].t.ptr != ptr
    {
      if w in r.sym {
        var k :| 0 <= k < |r.sym| && r.sym[k] == w;
      }
    }
  }

  lemma {:induction false} WrappedCallLeaves(r: Regime, buffers: seq<Option<Tensor>>, ctx: Context, args: seq<Arg>, s: Cache, ptr: nat)
    requires Settled(r, buffers, s) && MatchesFixed(r.sym, r.fixed, args) && Bound(r.sym, buffers, args)
    requires ProgramOk(r.cfg.runnable.trace(ShapesOf(args)), ShapesOf(args))
    requires CallerOwned(r, Buffered(buffers, s), ptr)
    ensures Get(Call(r.cfg, ctx, args, s).0.mem, ptr) == Get(s.mem, ptr)
  {
    hide ProgramOk, Bound, MatchesFixed, NotBuffer;
    if ctx.mode == NONE || ctx.mode != r.cfg.mode {
      hide Settled, RunFresh;
      BoundElsewhere(r, buffers, args, r.cfg.runnable.trace(ShapesOf(args)), ptr);
      FreshLeaves(r.cfg.runnable, args, s.mem, ptr);
    } else if ctx.descriptor.Some? {
      hide Run;
      var d := ctx.descriptor.value;
      if d in s.entries && s.entries[d].graph.Some? {
        assert EntryOk(r, buffers, s.mem.next, d, s.entries[d]);
        var g := s.entries[d].graph.value;
        BoundElsewhere(r, buffers, g.args, g.program, ptr);
        ReplayLeaves(r.cfg.runnable, g, s.mem, ptr);
      }
    }
  }

  lemma {:induction false} ReplayLeaves(r: Runnable, g: Graph, m: Mem, ptr: nat)
    requires ProgramOk(g.program, ShapesOf(g.args)) && Unwritten(g.program, g.args, ptr)
    requires !(g.base <= ptr < g.base + g.program.temps)
    ensures Get(Run(r, g.program, g.args, g.base, m), ptr) == Get(m, ptr)
  {
    ExecLeaves(r, g.program, g.args, g.base, |g.program.launches|, m, ptr);
  }

  /** Whatever an admissible call does, the caller's own storage keeps its contents. */
  lemma {:induction false} CallLeavesCaller(r: Regime, b: Buffered, ctx: Context, args: seq<Arg>, ptr: nat)
    requires Valid(r, b) && Admissible(r, b, ctx, args) && CallerOwned(r, b, ptr)
    ensures CopyFrom(r.sym, 0, Copied(b.cache.mem, b.buffers, args)).Ok?
    ensures Get(CopyAndCall(r.cfg, r.sym, b, ctx, args).0.cache.mem, ptr) == Get(b.cache.mem, ptr)
  {
    hide Call, CopyFrom, EntriesOk, FixedOk, BuffersBelow, Bound, MatchesFixed, ProgramOk;
    var c := Load(r, b, ctx, args);
    LoadedOwned(r, b, args, c, ptr);
    WrappedCallLeaves(r, c.buffers, ctx, c.args, b.cache.(mem := c.mem), ptr);
  }

  lemma {:induction false} LoadedOwned(r: Regime, b: Buffered, args: seq<Arg>, c: Copied, ptr: nat)
    requires Valid(r, b) && Loaded(r, b, args, c) && CallerOwned(r, b, ptr)
    ensures CallerOwned(r, Buffered(c.buffers, b.cache.(mem := c.mem)), ptr)
    ensures Get(c.mem, ptr) == Get(b.cache.mem, ptr)
    ensures Settled(r, c.buffers, b.cache.(mem := c.mem))
  {
    hide CopyFrom, EntriesOk, Bound, MatchesFixed, EntryOk;
  }

  /******* Agreement on the caller's inputs *******/

  /** After the wrapped and the direct call, the caller finds the same in its input i. */
  ghost predicate InputAgrees(r: Regime, b: Buffered, ctx: Context, args: seq<Arg>, md: Mem, argsd: seq<Arg>, i: nat) {
    && |b.buffers| == |r.sym| && CopyFrom(r.sym, 0, Copied(b.cache.mem, b.buffers, args)).Ok?
    && i < |args| && i < |argsd| && args[i].TensorArg? && argsd[i].TensorArg?
    && View(CopyAndCall(r.cfg, r.sym, b, ctx, args).0.cache.mem, args[i].t) == View(RunFresh(r.cfg.runnable, argsd, md), argsd[i].t)
  }

  type Kernel = (nat, seq<Data>) -> Data

  function WithKernel(r: Regime, kernel: Kernel): Regime {
    r.(cfg := r.cfg.(runnable := r.cfg.runnable.(kernel := kernel)))
  }

  /** What is promised of the calls does not depend on the kernels. */
  lemma {:induction false} KernelsFree(r: Regime, kernel: Kernel, b: Buffered, ctx: Context, args: seq<Arg>)
    requires Valid(r, b) && Admissible(r, b, ctx, args)
    ensures Valid(WithKernel(r, kernel), b) && Admissible(WithKernel(r, kernel), b, ctx, args)
  {
    forall d | d in b.cache.entries
      ensures EntryOk(WithKernel(r, kernel), b.buffers, b.cache.mem.next, d, b.cache.entries[d])
    {
      assert EntryOk(r, b.buffers, b.cache.mem.next, d, b.cache.entries[d]);
    }
  }

  /** The wrapped side keeps the input; so agreement is the direct side keeping it. */
  lemma {:induction false} AgreesIffKept(r: Regime, b: Buffered, ctx: Context, args: seq<Arg>, md: Mem, argsd: seq<Arg>, k: nat)
    requires Valid(r, b) && Admissible(r, b, ctx, args) && SameCall(r, b.cache.mem, args, md, argsd) && k < |r.sym|
    requires CallerOwned(r, b, args[r.sym[k]].t.ptr)
    ensures InputAgrees(r, b, ctx, args, md, argsd, r.sym[k]) <==>
            View(RunFresh(r.cfg.runnable, argsd, md), argsd[r.sym[k]].t) == View(md, argsd[r.sym[k]].t)
  {
    hide CopyAndCall, CopyFrom, RunFresh, Valid;
    CallLeavesCaller(r, b, ctx, args, args[r.sym[k]].t.ptr);
    assert |b.buffers| == |r.sym|;
    assert SameInput(md, argsd[r.sym[k]], b.cache.mem, args[r.sym[k]]);
  }

  /** A direct call leaves an unmutated symbolic input alone, unless a mutated argument clashes with it. */
  lemma {:induction false} UnmutatedKept(r: Runnable, sym: set<nat>, args: seq<Arg>, m: Mem, i: nat)
    requires var p := r.trace(ShapesOf(args)); ProgramOk(p, ShapesOf(args)) && NoAlias(p, sym, args) && !Mutates(p, i)
    requires i in sym && i < |args| && args[i].TensorArg? && args[i].t.ptr < m.next && args[i].t.rows > 0
    ensures View(RunFresh(r, args, m), args[i].t) == View(m, args[i].t)
  {
    hide ProgramOk, Mutates, RunFresh, NoAlias;
    var p := r.trace(ShapesOf(args));
    forall w | 0 <= w < |args| && args[w].TensorArg? && args[w].t.ptr == args[i].t.ptr
      ensures !Mutates(p, w) || args[w].t.rows == 0
    {
      if Mutates(p, w) {
        AliasElim(p, sym, args, w, i);
      }
    }
    FreshLeaves(r, args, m, args[i].t.ptr);
  }

  lemma {:induction false} AliasElim(p: Program, sym: set<nat>, args: seq<Arg>, w: nat, x: nat)
    requires NoAlias(p, sym, args) && Mutates(p, w)
    ensures !Clash(sym, args, w, x)
  {
  }

  // With a kernel that always writes c, c shows wherever anything was written.

  ghost predicate Marked(m: Mem, ptr: nat, c: int) {
    |Get(m, ptr)| > 0 && Get(m, ptr)[0] == c
  }

  lemma {:induction false} OverwriteMarks(d: Data, rows: nat, c: int)
    requires |d| > 0 && rows > 0
    ensures |Overwrite(d, rows, [c])| > 0 && Overwrite(d, rows, [c])[0] == c
  {
  }

  lemma {:induction false} LaunchMarks(p: Program, args: seq<Arg>, base: nat, x: nat, c: int, m: Mem, ptr: nat)
    requires x < |p.launches| && LaunchOk(p, ShapesOf(args), x)
    requires !(base <= ptr < base + p.temps) && |Get(m, ptr)| > 0
    ensures var n := WriteSlot(args, base, p.launches[x].out, [c], m);
            && |Get(n, ptr)| > 0
            && (Marked(m, ptr, c) ==> Marked(n, ptr, c))
            && match p.launches[x].out
               case ArgSlot(i) => i < |args| && args[i].TensorArg? && args[i].t.ptr == ptr && args[i].t.rows > 0 ==> Marked(n, ptr, c)
               case TmpSlot(_) => true
  {
    hide LaunchOk, Overwrite;
    OutIsTensor(p, args, x);
    var out := p.launches[x].out;
    if out.ArgSlot? {
      hide WriteSlot;
      WriteArgGet(args, base, out.i, [c], m, ptr);
      if args[out.i].t.rows > 0 {
        OverwriteMarks(Get(m, ptr), args[out.i].t.rows, c);
      }
    }
  }

  lemma {:induction false} ExecMarks(r: Runnable, p: Program, args: seq<Arg>, base: nat, k: nat, m: Mem, i: nat, c: int)
    requires k <= |p.launches| && ProgramOk(p, ShapesOf(args))
    requires forall op, ins :: r.kernel(op, ins) == [c]
    requires i < |args| && args[i].TensorArg? && args[i].t.rows > 0
    requires !(base <= args[i].t.ptr < base + p.temps) && |Get(m, args[i].t.ptr)| > 0
    ensures |Get(Exec(r, p, args, base, k, m), args[i].t.ptr)| > 0
    ensures (exists x :: 0 <= x < k && p.launches[x].out == ArgSlot(i)) ==> Marked(Exec(r, p, args, base, k, m), args[i].t.ptr, c)
  {
    hide LaunchOk, WriteSlot, Get, ReadSlots, Marked;
    if k > 0 {
      ExecMarks(r, p, args, base, k - 1, m, i, c);
      assert LaunchOk(p, ShapesOf(args), k - 1);
      LaunchMarks(p, args, base, k - 1, c, Exec(r, p, args, base, k - 1, m), args[i].t.ptr);
    }
  }

  /** A mutated input is changed by some kernel. */
  lemma {:induction false} MutatedChanged(r: Runnable, args: seq<Arg>, m: Mem, i: nat, c: int)
    requires var p := r.trace(ShapesOf(args)); ProgramOk(p, ShapesOf(args)) && Mutates(p, i)
    requires i < |args| && args[i].TensorArg? && args[i].t.ptr < m.next && 0 < args[i].t.rows <= |Get(m, args[i].t.ptr)|
    requires forall op, ins :: r.kernel(op, ins) == [c]
    requires c != View(m, args[i].t)[0]
    ensures View(RunFresh(r, args, m), args[i].t) != View(m, args[i].t)
  {
    hide ProgramOk, Exec;
    var p := r.trace(ShapesOf(args));
    ExecMarks(r, p, args, m.next, |p.launches|, m.(next := m.next + p.temps), i, c);
    assert Marked(RunFresh(r, args, m), args[i].t.ptr, c);
    assert View(RunFresh(r, args, m), args[i].t)[0] == c;
  }

  /**
    Calling through the buffers leaves the caller's input as the direct call does, whatever the
    kernels compute, exactly when the input is not mutated (or empty).
   */
  lemma {:induction false} InputsAgreeIff(r: Regime, b: Buffered, ctx: Context, args: seq<Arg>, md: Mem, argsd: seq<Arg>, k: nat)
    requires Valid(r, b) && Admissible(r, b, ctx, args) && SameCall(r, b.cache.mem, args, md, argsd)
    requires NoAlias(r.cfg.runnable.trace(ShapesOf(argsd)), SymSet(r.sym), argsd)
    requires k < |r.sym| && CallerOwned(r, b, args[r.sym[k]].t.ptr)
    ensures (forall kernel: Kernel :: InputAgrees(WithKernel(r, kernel), b, ctx, args, md, argsd, r.sym[k])) <==>
            !Mutates(r.cfg.runnable.trace(ShapesOf(args)), r.sym[k]) || args[r.sym[k]].t.rows == 0
  {
    hide Valid, CallerOwned, InputAgrees, NoAlias, Mutates, ProgramOk, RunFresh;
    var p, i := r.cfg.runnable.trace(ShapesOf(args)), r.sym[k];
    SameCallInput(r, b.cache.mem, args, md, argsd, k);
    if Mutates(p, i) && args[i].t.rows > 0 {
      var c := View(md, argsd[i].t)[0] + 1;
      var kernel := (op: nat, ins: seq<Data>) => [c];
      KernelInput(r, kernel, b, ctx, args, md, argsd, k);
      MutatedChanged(WithKernel(r, kernel).cfg.runnable, argsd, md, i, c);
      assert !InputAgrees(WithKernel(r, kernel), b, ctx, args, md, argsd, i);
    } else {
      forall kernel: Kernel
        ensures InputAgrees(WithKernel(r, kernel), b, ctx, args, md, argsd, i)
      {
        KernelInput(r, kernel, b, ctx, args, md, argsd, k);
        if args[i].t.rows > 0 {
          UnmutatedKept(WithKernel(r, kernel).cfg.runnable, SymSet(r.sym), argsd, md, i);
        }
      }
    }
  }

  lemma {:induction false} SameCallInput(r: Regime, m: Mem, args: seq<Arg>, md: Mem, argsd: seq<Arg>, k: nat)
    requires SameCall(r, m, args, md, argsd) && k < |r.sym|
    ensures r.sym[k] < |args| == |argsd| && args[r.sym[k]].TensorArg? && argsd[r.sym[k]].TensorArg?
    ensures args[r.sym[k]].t.rows == argsd[r.sym[k]].t.rows <= |Get(md, argsd[r.sym[k]].t.ptr)|
    ensures argsd[r.sym[k]].t.ptr < md.next && ShapesOf(args) == ShapesOf(argsd) && r.sym[k] in SymSet(r.sym)
  {
    assert SameInput(md, argsd[r.sym[k]], m, args[r.sym[k]]);
    assert ShapesOf(args)[r.sym[k]] == ShapesOf(argsd)[r.sym[k]];
  }

  lemma {:induction false} KernelInput(r: Regime, kernel: Kernel, b: Buffered, ctx: Context, args: seq<Arg>, md: Mem, argsd: seq<Arg>, k: nat)
    requires Valid(r, b) && Admissible(r, b, ctx, args) && SameCall(r, b.cache.mem, args, md, argsd)
    requires k < |r.sym| && CallerOwned(r, b, args[r.sym[k]].t.ptr)
    ensures var r' := WithKernel(r, kernel);
            InputAgrees(r', b, ctx, args, md, argsd, r.sym[k]) <==>
            View(RunFresh(r'.cfg.runnable, argsd, md), argsd[r.sym[k]].t) == View(md, argsd[r.sym[k]].t)
  {
    hide Valid, Admissible, InputAgrees, RunFresh;
    KernelsFree(r, kernel, b, ctx, args);
    assert CallerOwned(WithKernel(r, kernel), b, args[r.sym[k]].t.ptr);
    assert SameCall(WithKernel(r, kernel), b.cache.mem, args, md, argsd);
    AgreesIffKept(WithKernel(r, kernel), b, ctx, args, md, argsd, k);
  }

  /******* Arguments that share storage *******/

  ghost predicate MutatesOnly(p: Program, mutable: set<nat>) {
    forall w | Mutates(p, w) :: w in mutable
  }

  /** The fixed arguments hold the same on both sides. */
  ghost predicate SameFixed(sym: set<nat>, args: seq<Arg>, m: Mem, m': Mem) {
    forall x | 0 <= x < |args| && x !in sym && args[x].TensorArg? :: Get(m, args[x].t.ptr) == Get(m', args[x].t.ptr)
  }

  /** One program under two bindings gives the same results and leaves the same in the fixed arguments. */
  ghost predicate RunAgrees(r: Runnable, p: Program, sym: set<nat>, args: seq<Arg>, base: nat, m: Mem, args': seq<Arg>, base': nat, m': Mem) {
    && ReadSlots(args, base, p.results, Run(r, p, args, base, m)) == ReadSlots(args', base', p.results, Run(r, p, args', base', m'))
    && SameFixed(sym, args, Run(r, p, args, base, m), Run(r, p, args', base', m'))
  }

  lemma {:induction false} NoClashAgrees(r: Runnable, p: Program, mutable: set<nat>, sym: set<nat>, args: seq<Arg>, base: nat, m: Mem, args': seq<Arg>, base': nat, m': Mem)
    requires SameArgs(sym, args, m, args', m') && ArgsBelow(args, base) && ArgsBelow(args', base')
    requires ProgramOk(p, ShapesOf(args)) && MutatesOnly(p, mutable)
    requires forall w, x | w in mutable :: !Clash(sym, args, w, x) && !Clash(sym, args', w, x)
    ensures RunAgrees(r, p, sym, args, base, m, args', base', m')
  {
    hide Clash, Mutates, ProgramOk, Run, ReadSlots;
    RunSame(r, p, sym, args, base, m, args', base', m');
    var n, n' := Run(r, p, args, base, m), Run(r, p, args', base', m');
    forall x | 0 <= x < |args| && x !in sym && args[x].TensorArg?
      ensures Get(n, args[x].t.ptr) == Get(n', args[x].t.ptr)
    {
      assert SameArg(sym, x, args[x], n, args'[x], n');
    }
  }

  /** Write w, then look at x. */
  function Probe(w: nat, x: nat): Program {
    Program([Launch(0, [], ArgSlot(w))], 0, [ArgSlot(x)])
  }

  lemma {:induction false} ProbeOk(w: nat, x: nat, args: seq<Arg>)
    requires w < |args| && x < |args| && args[w].TensorArg? && args[x].TensorArg?
    ensures ProgramOk(Probe(w, x), ShapesOf(args))
    ensures forall y :: Mutates(Probe(w, x), y) <==> y == w
  {
    var p := Probe(w, x);
    assert ShapesOf(args)[w].Rows? && ShapesOf(args)[x].Rows?;
    assert forall y :: Mutates(p, y) ==> y == w;
    assert p.launches[0].out == ArgSlot(w);
    assert Mutates(p, w);
  }

  /** The probe's run is its one write. */
  lemma {:induction false} ProbeRuns(r: Runnable, w: nat, x: nat, args: seq<Arg>, base: nat, m: Mem)
    ensures Run(r, Probe(w, x), args, base, m) == WriteSlot(args, base, ArgSlot(w), r.kernel(0, []), m)
  {
    var p := Probe(w, x);
    assert ReadSlots(args, base, p.launches[0].ins, m) == [];
    assert Exec(r, p, args, base, 0, m) == m;
  }

  /** Where two arguments clash on one side only, some kernel shows the probe the difference. */
  lemma {:induction false} ClashShows(sym: set<nat>, args: seq<Arg>, base: nat, m: Mem, args': seq<Arg>, base': nat, m': Mem, w: nat, x: nat)
    requires SameArgs(sym, args, m, args', m') && Clash(sym, args, w, x) && !Clash(sym, args', w, x)
    ensures exists r: Runnable :: !RunAgrees(r, Probe(w, x), sym, args, base, m, args', base', m')
  {
    hide WriteSlot, Overwrite, ReadSlots, Run;
    assert SameArg(sym, w, args[w], m, args'[w], m') && SameArg(sym, x, args[x], m, args'[x], m');
    var ptr, ptr' := args[x].t.ptr, args'[x].t.ptr;
    var c := Get(m, ptr)[0] + 1;
    var p := Probe(w, x);
    var r := Runnable((shapes: seq<Shape>) => p, (op: nat, ins: seq<Data>) => [c]);
    var n, n' := Run(r, p, args, base, m), Run(r, p, args', base', m');
    ProbeRuns(r, w, x, args, base, m);
    ProbeRuns(r, w, x, args', base', m');
    WriteArgGet(args, base, w, [c], m, ptr);
    WriteArgGet(args', base', w, [c], m', ptr');
    OverwriteMarks(Get(m, ptr), args[w].t.rows, c);
    assert Get(n, ptr)[0] == c && Get(n', ptr') == Get(m', ptr');
    if x in sym {
      assert ReadSlots(args, base, p.results, n)[0] == View(n, args[x].t);
      assert ReadSlots(args', base', p.results, n')[0] == View(n', args'[x].t);
      assert View(n, args[x].t)[0] == c && View(m, args[x].t)[0] == c - 1;
      assert !RunAgrees(r, p, sym, args, base, m, args', base', m');
    } else {
      assert !SameFixed(sym, args, n, n');
      assert !RunAgrees(r, p, sym, args, base, m, args', base', m');
    }
  }

  /**
    Against a side without clashes, as the static buffers are: all programs that mutate only
    `mutable` agree, whatever their kernels, exactly when no mutable argument clashes.
   */
  lemma {:induction false} AgreeIffNoClash(mutable: set<nat>, sym: set<nat>, args: seq<Arg>, base: nat, m: Mem, args': seq<Arg>, base': nat, m': Mem)
    requires SameArgs(sym, args, m, args', m') && ArgsBelow(args, base) && ArgsBelow(args', base')
    requires forall w, x | w in mutable :: !Clash(sym, args', w, x)
    ensures (forall r: Runnable, p: Program | ProgramOk(p, ShapesOf(args)) && MutatesOnly(p, mutable) ::
               RunAgrees(r, p, sym, args, base, m, args', base', m')) <==>
            (forall w, x | w in mutable :: !Clash(sym, args, w, x))
  {
    hide SameArgs, ArgsBelow, Clash, ProgramOk, MutatesOnly, RunAgrees;
    if w, x :| w in mutable && Clash(sym, args, w, x) {
      ClashTensors(sym, args, w, x);
      ProbeOk(w, x, args);
      ProbeMutates(w, x, args, mutable);
      ClashShows(sym, args, base, m, args', base', m', w, x);
    } else {
      forall r: Runnable, p: Program | ProgramOk(p, ShapesOf(args)) && MutatesOnly(p, mutable)
        ensures RunAgrees(r, p, sym, args, base, m, args', base', m')
      {
        NoClashAgrees(r, p, mutable, sym, args, base, m, args', base', m');
      }
    }
  }

  lemma {:induction false} ClashTensors(sym: set<nat>, args: seq<Arg>, w: nat, x: nat)
    requires Clash(sym, args, w, x)
    ensures w < |args| && x < |args| && args[w].TensorArg? && args[x].TensorArg?
  {
  }

  lemma {:induction false} ProbeMutates(w: nat, x: nat, args: seq<Arg>, mutable: set<nat>)
    requires w < |args| && x < |args| && args[w].TensorArg? && args[x].TensorArg? && w in mutable
    ensures MutatesOnly(Probe(w, x), mutable)
  {
    ProbeOk(w, x, args);
  }

  /******* Such inputs *******/

  /** The first copy of an input creates its buffer. */
  lemma {:induction false} LazyCopy(i: nat, index: nat, c: Copied)
    requires i < |c.buffers| && c.buffers[i].None? && index < |c.args| && c.args[index].TensorArg?
    requires c.args[index].t.ptr < c.mem.next && c.args[index].t.rows <= |Get(c.mem, c.args[index].t.ptr)|
    ensures var t, ptr := c.args[index].t, c.mem.next;
            CopyOne(i, index, c) == Ok(Copied(Put(c.mem, ptr, View(c.mem, t)).(next := ptr + 1),
                                              c.buffers[i := Some(Tensor(ptr, t.rows))],
                                              c.args[index := TensorArg(Tensor(ptr, t.rows))]))
  {
    var v := View(c.mem, c.args[index].t);
    assert Overwrite(v, |v|, v) == v;
    var store := c.mem.store[c.mem.next := v];
    assert store[c.mem.next := v] == store;
  }

  function Nines(op: nat, ins: seq<Data>): Data {
    [9]
  }

  /** A runnable that overwrites its input: the caller's tensor stays as it was through the buffers, and changes directly. */
  lemma {:induction false} MutatedInputDiffers()
    ensures var m := Mem(map[0 := [1]], 1);
            var args := [TensorArg(Tensor(0, 1))];
            var r := Runnable((shapes: seq<Shape>) => Probe(0, 0), Nines);
            var b := Buffered([None], Cache(m, map[], 0));
            var copied := CopyFrom([0], 0, Copied(m, [None], args));
            && copied.Ok?
            && Get(CopyAndCall(Config(r, FULL, false), [0], b, Context(NONE, None, Allowed), args).0.cache.mem, 0) == [1]
            && Get(RunFresh(r, args, m), 0) == [9]
  {
    var m := Mem(map[0 := [1]], 1);
    var args := [TensorArg(Tensor(0, 1))];
    var r := Runnable((shapes: seq<Shape>) => Probe(0, 0), Nines);
    var c0 := Copied(m, [None], args);
    LazyCopy(0, 0, c0);
    var c1 := Copied(Put(m, 1, [1]).(next := 2), c0.buffers[0 := Some(Tensor(1, 1))], args[0 := TensorArg(Tensor(1, 1))]);
    assert View(m, args[0].t) == [1];
    assert CopyOne(0, 0, c0) == Ok(c1);
    assert CopyFrom([0], 1, c1) == Ok(c1);
    ProbeRuns(r, 0, 0, args, 1, m);
    ProbeRuns(r, 0, 0, c1.args, 2, c1.mem);
    assert Overwrite([1], 1, [9]) == [9];
  }

  const Shared := [TensorArg(Tensor(0, 1)), TensorArg(Tensor(0, 1))]

  const OneInput := Mem(map[0 := [1]], 1)

  /** Two inputs in one storage get a buffer each. */
  lemma {:induction false} SharedCopies() returns (c: Copied)
    ensures CopyFrom([0, 1], 0, Copied(OneInput, [None, None], Shared)) == Ok(c)
    ensures c.args == [TensorArg(Tensor(1, 1)), TensorArg(Tensor(2, 1))] && c.mem == Mem(map[0 := [1], 1 := [1], 2 := [1]], 3)
  {
    var c0 := Copied(OneInput, [None, None], Shared);
    var c1 := Copied(Put(OneInput, 1, [1]).(next := 2), c0.buffers[0 := Some(Tensor(1, 1))], Shared[0 := TensorArg(Tensor(1, 1))]);
    c := Copied(Put(c1.mem, 2, [1]).(next := 3), c1.buffers[1 := Some(Tensor(2, 1))], c1.args[1 := TensorArg(Tensor(2, 1))]);
    LazyCopy(0, 0, c0);
    LazyCopy(1, 1, c1);
    hide CopyOne;
    assert View(OneInput, Shared[0].t) == [1] && View(c1.mem, Shared[1].t) == [1];
    assert CopyOne(0, 0, c0) == Ok(c1) && CopyOne(1, 1, c1) == Ok(c);
    assert CopyFrom([0, 1], 2, c) == Ok(c);
    assert CopyFrom([0, 1], 1, c1) == Ok(c);
  }

  /** Two symbolic inputs in one storage: directly the second shows what was written to the first, in the buffers it does not. */
  lemma {:induction false} AliasedInputsDiffer()
    ensures var r := Runnable((shapes: seq<Shape>) => Probe(0, 1), Nines);
            var b := Buffered([None, None], Cache(OneInput, map[], 0));
            && Clash({0, 1}, Shared, 0, 1)
            && CopyFrom([0, 1], 0, Copied(OneInput, [None, None], Shared)).Ok?
            && var (b', reply) := CopyAndCall(Config(r, FULL, false), [0, 1], b, Context(NONE, None, Allowed), Shared);
               && reply.Ok? && Contents(reply.value, b'.cache.mem) == [[1]]
               && FreshResults(r, Shared, OneInput) == [[9]]
  {
    hide CopyFrom, CopyOne, Run;
    var r := Runnable((shapes: seq<Shape>) => Probe(0, 1), Nines);
    var c := SharedCopies();
    ProbeReads(r, Shared, 1, OneInput);
    ProbeReads(r, c.args, 3, c.mem);
    assert r.trace(ShapesOf(Shared)) == Probe(0, 1) && r.trace(ShapesOf(c.args)) == Probe(0, 1);
    assert OneInput.(next := OneInput.next + 0) == OneInput && c.mem.(next := c.mem.next + 0) == c.mem;
  }

  /** Two one-row inputs holding 1: the probe shows the 9 written to the first exactly if they share storage. */
  lemma {:induction false} ProbeReads(r: Runnable, args: seq<Arg>, base: nat, m: Mem)
    requires |args| == 2 && args[0].TensorArg? && args[1].TensorArg? && args[0].t.rows == args[1].t.rows == 1
    requires Get(m, args[0].t.ptr) == Get(m, args[1].t.ptr) == [1] && r.kernel == Nines
    ensures ReadSlots(args, base, Probe(0, 1).results, Run(r, Probe(0, 1), args, base, m)) ==
            [if args[0].t.ptr == args[1].t.ptr then [9] else [1]]
  {
    var n := Run(r, Probe(0, 1), args, base, m);
    ProbeRuns(r, 0, 1, args, base, m);
    WriteArgGet(args, base, 0, [9], m, args[1].t.ptr);
    assert r.kernel(0, []) == [9] && Overwrite([1], 1, [9]) == [9];
    var seen := if args[0].t.ptr == args[1].t.ptr then [9] else [1];
    assert Get(n, args[1].t.ptr) == seen && seen[..1] == seen;
    assert ReadSlots(args, base, Probe(0, 1).results, n)[0] == seen;
  }
}
