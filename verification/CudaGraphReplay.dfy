/**
  Calling through the static buffers and the graph cache agrees with calling the runnable:
  per call, for any two memories that hold the same inputs, and over whole runs.
 */
module CudaGraphReplay {
  import opened Wrappers
  import opened CudaGraph
  import opened CudaGraphWrapper

  /******* Copying into the static buffers *******/

  ghost predicate Distinct(sym: seq<nat>) {
    forall k, l | 0 <= k < l < |sym| :: sym[k] != sym[l]
  }

  ghost function SymSet(sym: seq<nat>): set<nat> {
    set x | x in sym
  }

  ghost predicate NotBuffer(buffers: seq<Option<Tensor>>, ptr: nat) {
    forall k | 0 <= k < |buffers| && buffers[k].Some? :: buffers[k].value.ptr != ptr
  }

  ghost predicate BuffersOk(buffers: seq<Option<Tensor>>, m: Mem) {
    && (forall k | 0 <= k < |buffers| && buffers[k].Some? ::
          buffers[k].value.ptr < m.next && buffers[k].value.rows == |Get(m, buffers[k].value.ptr)|)
    && (forall k, l | 0 <= k < |buffers| && 0 <= l < |buffers| && k != l && buffers[k].Some? && buffers[l].Some? ::
          buffers[k].value.ptr != buffers[l].value.ptr)
  }

  /** An allocated input of the caller's that is not itself a static buffer. */
  ghost predicate InputOk(buffers: seq<Option<Tensor>>, m: Mem, a: Arg) {
    && a.TensorArg?
    && a.t.ptr < m.next
    && a.t.rows <= |Get(m, a.t.ptr)|
    && NotBuffer(buffers, a.t.ptr)
  }

  /** Symbolic inputs fit the static buffers and are disjoint from them. */
  ghost predicate InputsFit(sym: seq<nat>, buffers: seq<Option<Tensor>>, m: Mem, args: seq<Arg>) {
    && |buffers| == |sym|
    && forall k | 0 <= k < |sym| ::
         && sym[k] < |args|
         && InputOk(buffers, m, args[sym[k]])
         && (buffers[k].Some? ==> args[sym[k]].t.rows <= buffers[k].value.rows)
  }

  /** Slot k has been copied: its argument is now the buffer's view, holding the caller's data. */
  ghost predicate SlotCopied(sym: seq<nat>, k: nat, c0: Copied, c: Copied) {
    && k < |sym| && k < |c.buffers| && sym[k] < |c0.args| && sym[k] < |c.args| && c0.args[sym[k]].TensorArg?
    && c.buffers[k].Some?
    && c0.args[sym[k]].t.rows <= c.buffers[k].value.rows
    && c.args[sym[k]] == TensorArg(Tensor(c.buffers[k].value.ptr, c0.args[sym[k]].t.rows))
    && View(c.mem, c.args[sym[k]].t) == View(c0.mem, c0.args[sym[k]].t)
  }

  ghost predicate CopyInv(sym: seq<nat>, i: nat, c0: Copied, c: Copied) {
    && i <= |sym| && |c.args| == |c0.args| && |c.buffers| == |c0.buffers| == |sym| && c.mem.next >= c0.mem.next
    && BuffersOk(c.buffers, c.mem)
    && (forall x | 0 <= x < |c0.args| && x !in sym[..i] :: c.args[x] == c0.args[x])
    && (forall k | 0 <= k < i :: SlotCopied(sym, k, c0, c))
    && (forall k | 0 <= k < |sym| && (i <= k || c0.buffers[k].Some?) :: c.buffers[k] == c0.buffers[k])
    && (forall k | 0 <= k < |sym| && c0.buffers[k].None? && c.buffers[k].Some? :: c.buffers[k].value.ptr >= c0.mem.next)
    && (forall ptr: nat | ptr < c0.mem.next && NotBuffer(c0.buffers, ptr) :: Get(c.mem, ptr) == Get(c0.mem, ptr))
  }

  /** The memory of one round: the buffer gets the data, nothing else changes. */
  lemma {:induction false} CopyOneMemory(i: nat, index: nat, c: Copied)
    requires i < |c.buffers| && index < |c.args| && BuffersOk(c.buffers, c.mem) && InputOk(c.buffers, c.mem, c.args[index])
    requires c.buffers[i].Some? ==> c.args[index].t.rows <= c.buffers[i].value.rows
    ensures CopyOne(i, index, c).Ok?
    ensures var t, n := c.args[index].t, CopyOne(i, index, c).value;
      && n.buffers[i].Some? && n.buffers == c.buffers[i := n.buffers[i]]
      && n.args == c.args[index := TensorArg(Tensor(n.buffers[i].value.ptr, t.rows))]
      && (if c.buffers[i].Some? then n.buffers[i] == c.buffers[i] && n.mem.next == c.mem.next
          else n.buffers[i].value == Tensor(c.mem.next, t.rows) && n.mem.next == c.mem.next + 1)
      && View(n.mem, n.args[index].t) == View(c.mem, t)
      && |Get(n.mem, n.buffers[i].value.ptr)| == n.buffers[i].value.rows
      && forall ptr | ptr != n.buffers[i].value.ptr :: Get(n.mem, ptr) == Get(c.mem, ptr)
  {
  }

  lemma {:induction false} CopyOneKeepsBuffers(i: nat, index: nat, c: Copied)
    requires i < |c.buffers| && index < |c.args| && BuffersOk(c.buffers, c.mem) && InputOk(c.buffers, c.mem, c.args[index])
    requires c.buffers[i].Some? ==> c.args[index].t.rows <= c.buffers[i].value.rows
    ensures CopyOne(i, index, c).Ok? && BuffersOk(CopyOne(i, index, c).value.buffers, CopyOne(i, index, c).value.mem)
  {
  }

  /** A round disturbs no slot copied before it. */
  lemma {:induction false} CopyOneKeepsSlot(sym: seq<nat>, i: nat, k: nat, c0: Copied, c: Copied)
    requires k < i < |sym| == |c.buffers| && sym[i] < |c.args| && sym[k] != sym[i]
    requires BuffersOk(c.buffers, c.mem) && InputOk(c.buffers, c.mem, c.args[sym[i]])
    requires c.buffers[i].Some? ==> c.args[sym[i]].t.rows <= c.buffers[i].value.rows
    requires SlotCopied(sym, k, c0, c)
    ensures CopyOne(i, sym[i], c).Ok? && SlotCopied(sym, k, c0, CopyOne(i, sym[i], c).value)
  {
  }

  /** In the middle of the loop, the next input is still the caller's, untouched and no buffer. */
  lemma {:induction false} NextInputOk(sym: seq<nat>, i: nat, c0: Copied, c: Copied)
    requires i < |sym| && Distinct(sym) && InputsFit(sym, c0.buffers, c0.mem, c0.args) && CopyInv(sym, i, c0, c)
    ensures sym[i] < |c.args| && c.args[sym[i]] == c0.args[sym[i]] && InputOk(c.buffers, c.mem, c.args[sym[i]])
    ensures View(c.mem, c.args[sym[i]].t) == View(c0.mem, c0.args[sym[i]].t)
    ensures c.buffers[i].Some? ==> c.args[sym[i]].t.rows <= c.buffers[i].value.rows
  {
  }

  lemma {:induction false} CopyStep(sym: seq<nat>, i: nat, c0: Copied, c: Copied) returns (n: Copied)
    requires i < |sym| && Distinct(sym) && InputsFit(sym, c0.buffers, c0.mem, c0.args) && CopyInv(sym, i, c0, c)
    ensures CopyOne(i, sym[i], c) == Ok(n) && CopyInv(sym, i + 1, c0, n)
  {
    hide CopyOne, InputsFit, BuffersOk;
    CopyInvSizes(sym, i, c0, c);
    NextInputOk(sym, i, c0, c);
    CopyOneMemory(i, sym[i], c);
    CopyOneKeepsBuffers(i, sym[i], c);
    n := CopyOne(i, sym[i], c).value;
    assert sym[..i + 1] == sym[..i] + [sym[i]];
    forall k | 0 <= k < i + 1
      ensures SlotCopied(sym, k, c0, n)
    {
      if k < i {
        assert SlotCopied(sym, k, c0, c);
        CopyOneKeepsSlot(sym, i, k, c0, c);
      }
    }
    forall ptr: nat | ptr < c0.mem.next && NotBuffer(c0.buffers, ptr)
      ensures Get(n.mem, ptr) == Get(c0.mem, ptr)
    {
      assert n.buffers[i].value.ptr != ptr;
    }
  }

  lemma {:induction false} CopyRest(sym: seq<nat>, i: nat, c0: Copied, c: Copied) returns (n: Copied)
    requires i <= |sym| && Distinct(sym) && InputsFit(sym, c0.buffers, c0.mem, c0.args) && CopyInv(sym, i, c0, c)
    ensures CopyFrom(sym, i, c) == Ok(n) && CopyInv(sym, |sym|, c0, n)
    decreases |sym| - i
  {
    hide CopyOne, CopyFrom, InputsFit, CopyInv;
    CopyInvSizes(sym, i, c0, c);
    if i == |sym| {
      n := c;
      CopyFromEnd(sym, c);
    } else {
      CopyFromStep(sym, i, c);
      var c' := CopyStep(sym, i, c0, c);
      n := CopyRest(sym, i + 1, c0, c');
    }
  }

  lemma {:induction false} CopyInvSizes(sym: seq<nat>, i: nat, c0: Copied, c: Copied)
    requires CopyInv(sym, i, c0, c)
    ensures |c.buffers| == |sym|
  {
  }

  /** Copying succeeds, fills every buffer with its input and changes no other storage. */
  lemma {:induction false} CopyInputs(sym: seq<nat>, c0: Copied) returns (c: Copied)
    requires Distinct(sym) && BuffersOk(c0.buffers, c0.mem) && InputsFit(sym, c0.buffers, c0.mem, c0.args)
    ensures CopyFrom(sym, 0, c0) == Ok(c) && CopyInv(sym, |sym|, c0, c)
  {
    c := CopyRest(sym, 0, c0, c0);
  }

  /** Input k is a tensor of the call, and fits its buffer if there is one; a single row always broadcasts. */
  ghost predicate Copyable(sym: seq<nat>, k: nat, buffers: seq<Option<Tensor>>, args: seq<Arg>)
    requires k < |sym| == |buffers|
  {
    && sym[k] < |args| && args[sym[k]].TensorArg?
    && (buffers[k].Some? ==> args[sym[k]].t.rows <= buffers[k].value.rows || args[sym[k]].t.rows == 1)
  }

  /** Copying succeeds exactly when every input is a tensor that fits; a larger one raises. */
  lemma {:induction false} CopyFromSucceedsIff(sym: seq<nat>, i: nat, c: Copied)
    requires i <= |sym| == |c.buffers| && Distinct(sym)
    ensures CopyFrom(sym, i, c).Ok? <==> forall k: nat | i <= k < |sym| :: Copyable(sym, k, c.buffers, c.args)
    decreases |sym| - i
  {
    hide CopyOne, CopyFrom;
    if i == |sym| {
      CopyFromEnd(sym, c);
    } else {
      CopyFromStep(sym, i, c);
      CopyOneSucceedsIff(sym, i, c);
      if CopyOne(i, sym[i], c).Ok? {
        CopyFromSucceedsIff(sym, i + 1, CopyOne(i, sym[i], c).value);
      }
    }
  }

  lemma {:induction false} CopyOneSucceedsIff(sym: seq<nat>, i: nat, c: Copied)
    requires i < |sym| == |c.buffers| && Distinct(sym)
    ensures CopyOne(i, sym[i], c).Ok? <==> Copyable(sym, i, c.buffers, c.args)
    ensures CopyOne(i, sym[i], c).Ok? ==>
              var n := CopyOne(i, sym[i], c).value;
              && |n.buffers| == |sym|
              && forall k: nat | i < k < |sym| :: Copyable(sym, k, n.buffers, n.args) <==> Copyable(sym, k, c.buffers, c.args)
  {
    hide Overwrite, View;
  }

  /******* What every admissible call keeps *******/

  /** The runnable's arguments, other than the symbolic ones, are always the same tensors and scalars. */
  ghost predicate MatchesFixed(sym: seq<nat>, fixed: seq<Arg>, args: seq<Arg>) {
    |args| == |fixed| && forall x | 0 <= x < |fixed| && x !in sym :: args[x] == fixed[x]
  }

  /** Fixed tensors lie below `limit` and are not static buffers. */
  ghost predicate FixedOk(sym: seq<nat>, fixed: seq<Arg>, buffers: seq<Option<Tensor>>, limit: nat) {
    forall x | 0 <= x < |fixed| && x !in sym && fixed[x].TensorArg? :: fixed[x].t.ptr < limit && NotBuffer(buffers, fixed[x].t.ptr)
  }

  ghost predicate BuffersBelow(buffers: seq<Option<Tensor>>, limit: nat) {
    forall k | 0 <= k < |buffers| :: buffers[k].Some? && buffers[k].value.ptr < limit
  }

  /** Symbolic arguments are the static buffers' views. */
  ghost predicate Bound(sym: seq<nat>, buffers: seq<Option<Tensor>>, args: seq<Arg>) {
    && |buffers| == |sym|
    && forall k | 0 <= k < |sym| ::
         sym[k] < |args| && args[sym[k]].TensorArg? && buffers[k].Some? && args[sym[k]].t.ptr == buffers[k].value.ptr
  }

  /** What is promised of the calls: fixed arguments, and shapes that the batch descriptor determines. */
  datatype Regime = Regime(cfg: Config, sym: seq<nat>, fixed: seq<Arg>, shapes: BatchDescriptor -> seq<Shape>)

  ghost predicate EntryOk(r: Regime, buffers: seq<Option<Tensor>>, next: nat, d: BatchDescriptor, e: Entry) {
    e.graph.Some? ==>
      var g := e.graph.value;
      && g.program == r.cfg.runnable.trace(r.shapes(d))
      && ShapesOf(g.args) == r.shapes(d) && ProgramOk(g.program, r.shapes(d))
      && MatchesFixed(r.sym, r.fixed, g.args) && Bound(r.sym, buffers, g.args)
      && g.base + g.program.temps <= next
      && BuffersBelow(buffers, g.base) && FixedOk(r.sym, r.fixed, buffers, g.base)
      && e.inputAddresses == Some(Addresses(g.args))
  }

  ghost predicate Valid(r: Regime, b: Buffered) {
    && Distinct(r.sym) && |b.buffers| == |r.sym|
    && BuffersOk(b.buffers, b.cache.mem)
    && FixedOk(r.sym, r.fixed, b.buffers, b.cache.mem.next)
    && EntriesOk(r, b.buffers, b.cache.mem.next, b.cache.entries)
  }

  ghost predicate Admissible(r: Regime, b: Buffered, ctx: Context, args: seq<Arg>) {
    && InputsFit(r.sym, b.buffers, b.cache.mem, args)
    && MatchesFixed(r.sym, r.fixed, args)
    && ProgramOk(r.cfg.runnable.trace(ShapesOf(args)), ShapesOf(args))
    && (ctx.mode == r.cfg.mode && ctx.mode != NONE ==> ctx.descriptor.Some? && ShapesOf(args) == r.shapes(ctx.descriptor.value))
  }

  /** The state between the copying and the wrapped call. */
  ghost predicate Loaded(r: Regime, b: Buffered, args: seq<Arg>, c: Copied) {
    && |b.buffers| == |r.sym|
    && CopyFrom(r.sym, 0, Copied(b.cache.mem, b.buffers, args)) == Ok(c)
    && CopyInv(r.sym, |r.sym|, Copied(b.cache.mem, b.buffers, args), c)
    && ShapesOf(c.args) == ShapesOf(args)
    && MatchesFixed(r.sym, r.fixed, c.args) && Bound(r.sym, c.buffers, c.args)
    && FixedOk(r.sym, r.fixed, c.buffers, c.mem.next) && BuffersBelow(c.buffers, c.mem.next)
    && EntriesOk(r, c.buffers, c.mem.next, b.cache.entries)
  }

  lemma {:induction false} Load(r: Regime, b: Buffered, ctx: Context, args: seq<Arg>) returns (c: Copied)
    requires Valid(r, b) && Admissible(r, b, ctx, args)
    ensures Loaded(r, b, args, c)
  {
    var c0 := Copied(b.cache.mem, b.buffers, args);
    c := CopyInputs(r.sym, c0);
    assert r.sym[..|r.sym|] == r.sym;
    forall x | 0 <= x < |args|
      ensures ShapeOf(c.args[x]) == ShapeOf(args[x])
    {
      if x in r.sym {
        var k :| 0 <= k < |r.sym| && r.sym[k] == x;
        assert SlotCopied(r.sym, k, c0, c);
      }
    }
    forall k | 0 <= k < |r.sym|
      ensures c.buffers[k].Some? && c.args[r.sym[k]] == TensorArg(Tensor(c.buffers[k].value.ptr, args[r.sym[k]].t.rows))
    {
      assert SlotCopied(r.sym, k, c0, c);
    }
    forall d | d in b.cache.entries
      ensures EntryOk(r, c.buffers, c.mem.next, d, b.cache.entries[d])
    {
      EntrySurvivesCopy(r, c0, c, d, b.cache.entries[d]);
    }
  }

  /** A recorded graph has all its buffers already, so copying creates none under it. */
  lemma {:induction false} EntrySurvivesCopy(r: Regime, c0: Copied, c: Copied, d: BatchDescriptor, e: Entry)
    requires CopyInv(r.sym, |r.sym|, c0, c) && EntryOk(r, c0.buffers, c0.mem.next, d, e)
    ensures EntryOk(r, c.buffers, c.mem.next, d, e)
  {
  }

  /** Two bindings of the buffers with the same shapes are the same arguments: replay sees the addresses it recorded. */
  lemma {:induction false} BoundArgsAgree(r: Regime, buffers: seq<Option<Tensor>>, args: seq<Arg>, args': seq<Arg>)
    requires MatchesFixed(r.sym, r.fixed, args) && MatchesFixed(r.sym, r.fixed, args')
    requires Bound(r.sym, buffers, args) && Bound(r.sym, buffers, args')
    requires ShapesOf(args) == ShapesOf(args')
    ensures args == args'
  {
  }

  /** Running a program over temporaries that lie above the buffers resizes no buffer. */
  lemma {:induction false} RunKeepsBuffers(runnable: Runnable, p: Program, args: seq<Arg>, base: nat, m: Mem, buffers: seq<Option<Tensor>>)
    requires ProgramOk(p, ShapesOf(args)) && BuffersOk(buffers, m) && BuffersBelow(buffers, base)
    ensures BuffersOk(buffers, Run(runnable, p, args, base, m)) && Run(runnable, p, args, base, m).next == m.next
  {
    ExecNext(runnable, p, args, base, |p.launches|, m);
    forall k | 0 <= k < |buffers|
      ensures |Get(Run(runnable, p, args, base, m), buffers[k].value.ptr)| == |Get(m, buffers[k].value.ptr)|
    {
      ExecFrame(runnable, p, args, base, |p.launches|, m, buffers[k].value.ptr);
    }
  }

  /** Every admissible call, captures and failed captures included, keeps the invariant. */
  lemma {:induction false} CallKeepsValid(r: Regime, b: Buffered, ctx: Context, args: seq<Arg>)
    requires Valid(r, b) && Admissible(r, b, ctx, args)
    ensures CopyFrom(r.sym, 0, Copied(b.cache.mem, b.buffers, args)).Ok?
    ensures Valid(r, CopyAndCall(r.cfg, r.sym, b, ctx, args).0)
    ensures forall k | 0 <= k < |r.sym| :: CopyAndCall(r.cfg, r.sym, b, ctx, args).0.buffers[k].Some?
    ensures forall k | 0 <= k < |r.sym| :: CopyAndCall(r.cfg, r.sym, b, ctx, args).0.buffers[k].value.rows >= args[r.sym[k]].t.rows
    ensures forall k | 0 <= k < |r.sym| && b.buffers[k].Some? :: CopyAndCall(r.cfg, r.sym, b, ctx, args).0.buffers[k] == b.buffers[k]
  {
    var c := Load(r, b, ctx, args);
    forall k | 0 <= k < |r.sym|
      ensures c.buffers[k].Some? && c.buffers[k].value.rows >= args[r.sym[k]].t.rows
    {
      assert SlotCopied(r.sym, k, Copied(b.cache.mem, b.buffers, args), c);
    }
    WrappedCallSettles(r, c.buffers, ctx, c.args, b.cache.(mem := c.mem));
  }

  ghost predicate EntriesOk(r: Regime, buffers: seq<Option<Tensor>>, next: nat, entries: map<BatchDescriptor, Entry>) {
    forall d | d in entries :: EntryOk(r, buffers, next, d, entries[d])
  }

  lemma {:induction false} EntriesMonotone(r: Regime, buffers: seq<Option<Tensor>>, next: nat, next': nat, entries: map<BatchDescriptor, Entry>)
    requires EntriesOk(r, buffers, next, entries) && next <= next'
    ensures EntriesOk(r, buffers, next', entries)
  {
  }

  /** What the wrapped call needs of the loaded state, and gives back. */
  ghost predicate Settled(r: Regime, buffers: seq<Option<Tensor>>, s: Cache) {
    && BuffersOk(buffers, s.mem)
    && FixedOk(r.sym, r.fixed, buffers, s.mem.next) && BuffersBelow(buffers, s.mem.next)
    && EntriesOk(r, buffers, s.mem.next, s.entries)
  }

  lemma {:induction false} PassThroughSettles(r: Regime, buffers: seq<Option<Tensor>>, args: seq<Arg>, s: Cache)
    requires Settled(r, buffers, s) && ProgramOk(r.cfg.runnable.trace(ShapesOf(args)), ShapesOf(args))
    ensures Settled(r, buffers, s.(mem := RunFresh(r.cfg.runnable, args, s.mem)))
  {
    hide ProgramOk, Run, EntriesOk;
    var p := r.cfg.runnable.trace(ShapesOf(args));
    var m := s.mem.(next := s.mem.next + p.temps);
    assert BuffersOk(buffers, m);
    RunKeepsBuffers(r.cfg.runnable, p, args, s.mem.next, m, buffers);
    EntriesMonotone(r, buffers, s.mem.next, m.next, s.entries);
  }

  lemma {:induction false} ReplaySettles(r: Regime, buffers: seq<Option<Tensor>>, s: Cache, d: BatchDescriptor)
    requires Settled(r, buffers, s) && d in s.entries && s.entries[d].graph.Some?
    ensures var g := s.entries[d].graph.value;
            Settled(r, buffers, s.(mem := Run(r.cfg.runnable, g.program, g.args, g.base, s.mem)))
  {
    var g := s.entries[d].graph.value;
    assert EntryOk(r, buffers, s.mem.next, d, s.entries[d]);
    RunKeepsBuffers(r.cfg.runnable, g.program, g.args, g.base, s.mem, buffers);
  }

  lemma {:induction false} NewEntrySettles(r: Regime, buffers: seq<Option<Tensor>>, s: Cache, d: BatchDescriptor, e: Entry, next: nat)
    requires Settled(r, buffers, s) && s.mem.next <= next && EntryOk(r, buffers, next, d, e)
    ensures Settled(r, buffers, s.(mem := s.mem.(next := next), entries := s.entries[d := e]))
  {
  }

  lemma {:induction false} WrappedCallSettles(r: Regime, buffers: seq<Option<Tensor>>, ctx: Context, args: seq<Arg>, s: Cache)
    requires Settled(r, buffers, s) && MatchesFixed(r.sym, r.fixed, args) && Bound(r.sym, buffers, args)
    requires ProgramOk(r.cfg.runnable.trace(ShapesOf(args)), ShapesOf(args))
    requires ctx.mode == r.cfg.mode && ctx.mode != NONE ==> ctx.descriptor.Some? && ShapesOf(args) == r.shapes(ctx.descriptor.value)
    ensures Settled(r, buffers, Call(r.cfg, ctx, args, s).0)
  {
    hide ProgramOk, RunFresh, Run;
    if ctx.mode == NONE || ctx.mode != r.cfg.mode {
      hide Settled;
      PassThroughSettles(r, buffers, args, s);
    } else {
      var d := ctx.descriptor.value;
      if d in s.entries && s.entries[d].graph.Some? {
        hide Settled;
        ReplaySettles(r, buffers, s, d);
      } else {
        var s' := Call(r.cfg, ctx, args, s).0;
        NewEntrySettles(r, buffers, s, d, s'.entries[d], s'.mem.next);
      }
    }
  }

  /** The wrapped call, unless it captures or raises, runs the runnable's own program on the loaded arguments. */
  lemma {:induction false} CallRunsProgram(r: Regime, buffers: seq<Option<Tensor>>, ctx: Context, args: seq<Arg>, s: Cache) returns (m: Mem)
    requires Settled(r, buffers, s) && MatchesFixed(r.sym, r.fixed, args) && Bound(r.sym, buffers, args)
    requires ctx.mode == r.cfg.mode && ctx.mode != NONE ==> ctx.descriptor.Some? && ShapesOf(args) == r.shapes(ctx.descriptor.value)
    ensures Call(r.cfg, ctx, args, s).1 != Raise(ADDRESSES_DIFFER)
    ensures var (s', reply) := Call(r.cfg, ctx, args, s);
      reply.Ok? && reply.value.kind != Captured ==>
        var p := r.cfg.runnable.trace(ShapesOf(args));
        var base := reply.value.base;
        && reply.value == Reply(reply.value.kind, p.results, args, base)
        && BuffersBelow(buffers, base) && FixedOk(r.sym, r.fixed, buffers, base)
        && m.store == s.mem.store && s'.mem == Run(r.cfg.runnable, p, args, base, m)
  {
    m := s.mem;
    if ctx.mode == NONE || ctx.mode != r.cfg.mode {
      m := s.mem.(next := s.mem.next + r.cfg.runnable.trace(ShapesOf(args)).temps);
    } else {
      var d := ctx.descriptor.value;
      if d in s.entries && s.entries[d].graph.Some? {
        assert EntryOk(r, buffers, s.mem.next, d, s.entries[d]);
        BoundArgsAgree(r, buffers, args, s.entries[d].graph.value.args);
      }
    }
  }

  /******* One call against the runnable *******/

  ghost predicate FixedSame(sym: seq<nat>, fixed: seq<Arg>, m: Mem, m': Mem) {
    forall x | 0 <= x < |fixed| && x !in sym && fixed[x].TensorArg? :: Get(m, fixed[x].t.ptr) == Get(m', fixed[x].t.ptr)
  }

  ghost predicate SameInput(md: Mem, ad: Arg, m: Mem, a: Arg) {
    a.TensorArg? && ad.TensorArg? && ad.t.rows <= |Get(md, ad.t.ptr)| && View(md, ad.t) == View(m, a.t)
  }

  /** Direct arguments in another memory, anywhere, that hold what the wrapped call's inputs hold. */
  ghost predicate SameInputs(r: Regime, m: Mem, args: seq<Arg>, md: Mem, argsd: seq<Arg>) {
    && MatchesFixed(r.sym, r.fixed, argsd) && ShapesOf(argsd) == ShapesOf(args)
    && (forall x | 0 <= x < |argsd| && argsd[x].TensorArg? :: argsd[x].t.ptr < md.next)
    && (forall k | 0 <= k < |r.sym| ::
          r.sym[k] < |args| == |argsd| && SameInput(md, argsd[r.sym[k]], m, args[r.sym[k]]))
  }

  /** A direct call on such arguments, and on fixed arguments that hold the same. */
  ghost predicate SameCall(r: Regime, m: Mem, args: seq<Arg>, md: Mem, argsd: seq<Arg>) {
    SameInputs(r, m, args, md, argsd) && FixedSame(r.sym, r.fixed, md, m)
  }

  /** Static buffers are apart from each other and from the fixed arguments, so nothing clashes. */
  lemma {:induction false} BoundNoAlias(r: Regime, p: Program, buffers: seq<Option<Tensor>>, m: Mem, args: seq<Arg>, limit: nat)
    requires BuffersOk(buffers, m) && Bound(r.sym, buffers, args) && MatchesFixed(r.sym, r.fixed, args)
    requires FixedOk(r.sym, r.fixed, buffers, limit) && BuffersBelow(buffers, limit)
    ensures forall w, x :: !Clash(SymSet(r.sym), args, w, x)
    ensures NoAlias(p, SymSet(r.sym), args)
    ensures TempsApart(args, limit, p.temps)
  {
    forall x | 0 <= x < |args| && x in r.sym
      ensures exists k :: 0 <= k < |r.sym| && r.sym[k] == x && args[x].t.ptr == buffers[k].value.ptr
    {
      var k :| 0 <= k < |r.sym| && r.sym[k] == x;
    }
  }

  lemma {:induction false} LoadedSameArgs(r: Regime, b: Buffered, args: seq<Arg>, c: Copied, md: Mem, argsd: seq<Arg>)
    requires Valid(r, b) && Loaded(r, b, args, c) && SameCall(r, b.cache.mem, args, md, argsd)
    ensures SameArgs(SymSet(r.sym), argsd, md, c.args, c.mem)
  {
    var c0 := Copied(b.cache.mem, b.buffers, args);
    forall x | 0 <= x < |argsd|
      ensures SameArg(SymSet(r.sym), x, argsd[x], md, c.args[x], c.mem)
    {
      assert ShapesOf(argsd)[x] == ShapesOf(args)[x] == ShapesOf(c.args)[x];
      if x in r.sym {
        var k :| 0 <= k < |r.sym| && r.sym[k] == x;
        assert SlotCopied(r.sym, k, c0, c);
        assert SameInput(md, argsd[x], b.cache.mem, args[x]);
        assert c.buffers[k].value.rows == |Get(c.mem, c.buffers[k].value.ptr)|;
      }
    }
  }

  /**
    Each pass-through or replay call through the static buffers yields the contents that the
    runnable, called directly in any memory holding the same data, yields; it leaves the fixed
    arguments (weights, caches) with the same contents; and the recorded addresses never differ.
   */
  lemma {:induction false} CallMatchesDirect(r: Regime, b: Buffered, ctx: Context, args: seq<Arg>, md: Mem, argsd: seq<Arg>)
    requires Valid(r, b) && Admissible(r, b, ctx, args) && SameCall(r, b.cache.mem, args, md, argsd)
    requires NoAlias(r.cfg.runnable.trace(ShapesOf(argsd)), SymSet(r.sym), argsd)
    ensures CopyFrom(r.sym, 0, Copied(b.cache.mem, b.buffers, args)).Ok?
    ensures var (b', reply) := CopyAndCall(r.cfg, r.sym, b, ctx, args);
      && reply != Raise(ADDRESSES_DIFFER)
      && (reply.Ok? && reply.value.kind != Captured ==>
            && Contents(reply.value, b'.cache.mem) == FreshResults(r.cfg.runnable, argsd, md)
            && FixedSame(r.sym, r.fixed, RunFresh(r.cfg.runnable, argsd, md), b'.cache.mem))
  {
    var c := Load(r, b, ctx, args);
    LoadedSameArgs(r, b, args, c, md, argsd);
    LoadedCallMatchesDirect(r, c.buffers, ctx, c.args, b.cache.(mem := c.mem), md, argsd);
  }

  lemma {:induction false} LoadedCallMatchesDirect(r: Regime, buffers: seq<Option<Tensor>>, ctx: Context, args: seq<Arg>, s: Cache, md: Mem, argsd: seq<Arg>)
    requires Settled(r, buffers, s) && MatchesFixed(r.sym, r.fixed, args) && Bound(r.sym, buffers, args)
    requires ProgramOk(r.cfg.runnable.trace(ShapesOf(args)), ShapesOf(args))
    requires ctx.mode == r.cfg.mode && ctx.mode != NONE ==> ctx.descriptor.Some? && ShapesOf(args) == r.shapes(ctx.descriptor.value)
    requires ShapesOf(argsd) == ShapesOf(args) && MatchesFixed(r.sym, r.fixed, argsd)
    requires forall x | 0 <= x < |argsd| && argsd[x].TensorArg? :: argsd[x].t.ptr < md.next
    requires SameArgs(SymSet(r.sym), argsd, md, args, s.mem)
    requires NoAlias(r.cfg.runnable.trace(ShapesOf(argsd)), SymSet(r.sym), argsd)
    ensures var (s', reply) := Call(r.cfg, ctx, args, s);
      && reply != Raise(ADDRESSES_DIFFER)
      && (reply.Ok? && reply.value.kind != Captured ==>
            && Contents(reply.value, s'.mem) == FreshResults(r.cfg.runnable, argsd, md)
            && FixedSame(r.sym, r.fixed, RunFresh(r.cfg.runnable, argsd, md), s'.mem))
  {
    var m := CallRunsProgram(r, buffers, ctx, args, s);
    var reply := Call(r.cfg, ctx, args, s).1;
    if reply.Ok? && reply.value.kind != Captured {
      var p := r.cfg.runnable.trace(ShapesOf(args));
      BoundNoAlias(r, p, buffers, s.mem, args, reply.value.base);
      SameArgsNextRight(SymSet(r.sym), argsd, md, args, s.mem, m);
      ProgramMatchesDirect(r, md, argsd, args, reply.value.base, m);
    }
  }

  /** A call that captures or raises executes nothing: the fixed arguments keep their contents. */
  lemma {:induction false} RecordingKeepsFixed(r: Regime, b: Buffered, ctx: Context, args: seq<Arg>)
    requires Valid(r, b) && Admissible(r, b, ctx, args)
    ensures CopyFrom(r.sym, 0, Copied(b.cache.mem, b.buffers, args)).Ok?
    ensures var (b', reply) := CopyAndCall(r.cfg, r.sym, b, ctx, args);
            !(reply.Ok? && reply.value.kind != Captured) ==> FixedSame(r.sym, r.fixed, b.cache.mem, b'.cache.mem)
  {
    var c := Load(r, b, ctx, args);
    RecordingKeepsStore(r.cfg, ctx, c.args, b.cache.(mem := c.mem));
  }

  lemma {:induction false} RecordingKeepsStore(cfg: Config, ctx: Context, args: seq<Arg>, s: Cache)
    ensures var (s', reply) := Call(cfg, ctx, args, s);
            !(reply.Ok? && reply.value.kind != Captured) ==> s'.mem.store == s.mem.store
  {
  }

  lemma {:induction false} ProgramMatchesDirect(r: Regime, md: Mem, argsd: seq<Arg>, args: seq<Arg>, base: nat, m: Mem)
    requires ShapesOf(argsd) == ShapesOf(args) && MatchesFixed(r.sym, r.fixed, argsd)
    requires forall x | 0 <= x < |argsd| && argsd[x].TensorArg? :: argsd[x].t.ptr < md.next
    requires SameArgs(SymSet(r.sym), argsd, md, args, m)
    requires var p := r.cfg.runnable.trace(ShapesOf(args));
      && ProgramOk(p, ShapesOf(args)) && TempsApart(args, base, p.temps)
      && NoAlias(p, SymSet(r.sym), argsd) && NoAlias(p, SymSet(r.sym), args)
    ensures var p := r.cfg.runnable.trace(ShapesOf(args));
      && ReadSlots(args, base, p.results, Run(r.cfg.runnable, p, args, base, m)) == FreshResults(r.cfg.runnable, argsd, md)
      && FixedSame(r.sym, r.fixed, RunFresh(r.cfg.runnable, argsd, md), Run(r.cfg.runnable, p, args, base, m))
  {
    hide ProgramOk, NoAlias, Run, ReadSlots, SameArgs, MatchesFixed;
    var p := r.cfg.runnable.trace(ShapesOf(args));
    var md' := md.(next := md.next + p.temps);
    SameArgsNext(SymSet(r.sym), argsd, md, md', args, m);
    RunSame(r.cfg.runnable, p, SymSet(r.sym), argsd, md.next, md', args, base, m);
    FixedOfSameArgs(r, argsd, Run(r.cfg.runnable, p, argsd, md.next, md'), args, Run(r.cfg.runnable, p, args, base, m));
  }

  lemma {:induction false} SameArgsNext(sym: set<nat>, args: seq<Arg>, m: Mem, n: Mem, args': seq<Arg>, m': Mem)
    requires SameArgs(sym, args, m, args', m') && m.store == n.store
    ensures SameArgs(sym, args, n, args', m')
  {
  }

  lemma {:induction false} SameArgsNextRight(sym: set<nat>, args: seq<Arg>, m: Mem, args': seq<Arg>, m': Mem, n': Mem)
    requires SameArgs(sym, args, m, args', m') && m'.store == n'.store
    ensures SameArgs(sym, args, m, args', n')
  {
  }

  lemma {:induction false} FixedOfSameArgs(r: Regime, args: seq<Arg>, m: Mem, args': seq<Arg>, m': Mem)
    requires SameArgs(SymSet(r.sym), args, m, args', m') && MatchesFixed(r.sym, r.fixed, args)
    ensures FixedSame(r.sym, r.fixed, m, m')
  {
  }
}
