/** The capture/replay state machine and the static buffers in front of it. */
module CudaGraphWrapper {
  import opened Wrappers
  import opened CudaGraph

  datatype Mode = NONE | PIECEWISE | FULL

  datatype BatchDescriptor = BatchDescriptor(numTokens: nat, numReqs: Option<nat>, uniform: bool, hasLora: bool)

  /** A recorded execution: every address it uses is fixed. */
  datatype Graph = Graph(program: Program, args: seq<Arg>, base: nat)

  datatype Entry = Entry(graph: Option<Graph>, inputAddresses: Option<seq<nat>>)

  /** How an attempt to capture ends, should one be made. */
  datatype Attempt = Allowed | CapturingDisabled | RunnableRaises

  /** The forward context of a call. */
  datatype Context = Context(mode: Mode, descriptor: Option<BatchDescriptor>, attempt: Attempt)

  datatype Kind = PassThrough | Captured | Replayed

  /** The tensors a call hands back: result slots, and the addresses they are bound to. */
  datatype Reply = Reply(kind: Kind, results: seq<Slot>, args: seq<Arg>, base: nat)

  datatype Config = Config(runnable: Runnable, mode: Mode, debugging: bool)

  datatype Cache = Cache(mem: Mem, entries: map<BatchDescriptor, Entry>, captured: nat)

  function Contents(r: Reply, m: Mem): seq<Data> {
    ReadSlots(r.args, r.base, r.results, m)
  }

  const ADDRESSES_DIFFER := "Input addresses for cudagraphs are different during replay"

  /******* CUDAGraphWrapper.__call__ *******/

  /** The specification of one call. */
  function Call(cfg: Config, ctx: Context, args: seq<Arg>, s: Cache): (Cache, Result<Reply>) {
    if ctx.mode == NONE || ctx.mode != cfg.mode then
      var p := cfg.runnable.trace(ShapesOf(args));
      (s.(mem := RunFresh(cfg.runnable, args, s.mem)), Ok(Reply(PassThrough, p.results, args, s.mem.next)))
    else if ctx.descriptor.None? then
      (s, Raise("batch_descriptor is None"))
    else
      var d := ctx.descriptor.value;
      var entry := if d in s.entries then s.entries[d] else Entry(None, None);
      if entry.graph.None? then
        match ctx.attempt
        case CapturingDisabled =>
          (s.(entries := s.entries[d := entry]), Raise("capturing is currently disabled"))
        case RunnableRaises =>
          (s.(entries := s.entries[d := Entry(None, Some(Addresses(args)))]), Raise("runnable"))
        case Allowed =>
          var g := Graph(cfg.runnable.trace(ShapesOf(args)), args, s.mem.next);
          (Cache(s.mem.(next := s.mem.next + g.program.temps),
                 s.entries[d := Entry(Some(g), Some(Addresses(args)))],
                 s.captured + 1),
           Ok(Reply(Captured, g.program.results, args, g.base)))
      else
        var g := entry.graph.value;
        if cfg.debugging && entry.inputAddresses != Some(Addresses(args)) then
          (s, Raise(ADDRESSES_DIFFER))
        else
          (s.(mem := Run(cfg.runnable, g.program, g.args, g.base, s.mem)),
           Ok(Reply(Replayed, g.program.results, g.args, g.base)))
  }

  /** Device memory and the process-wide capture counter. */
  class Device {
    var mem: Mem
    var numCudagraphCaptured: nat
    constructor (mem: Mem)
      ensures this.mem == mem && numCudagraphCaptured == 0
    {
      this.mem, numCudagraphCaptured := mem, 0;
    }
  }

  class CUDAGraphWrapper {
    const config: Config
    var entries: map<BatchDescriptor, Entry>

    constructor (runnable: Runnable, mode: Mode, debugging: bool)
      requires mode != NONE
      ensures config == Config(runnable, mode, debugging) && entries == map[]
    {
      config, entries := Config(runnable, mode, debugging), map[];
    }

    ghost function State(dev: Device): Cache
      reads this, dev
    {
      Cache(dev.mem, entries, dev.numCudagraphCaptured)
    }

    method Invoke(dev: Device, ctx: Context, args: seq<Arg>) returns (r: Result<Reply>)
      modifies this`entries, dev
      ensures (State(dev), r) == Call(config, ctx, args, old(State(dev)))
    {
      if ctx.mode == NONE || ctx.mode != config.mode {
        var program := config.runnable.trace(ShapesOf(args));
        r := Ok(Reply(PassThrough, program.results, args, dev.mem.next));
        dev.mem := RunFresh(config.runnable, args, dev.mem);
        return;
      }
      if ctx.descriptor.None? {
        return Raise("batch_descriptor is None");
      }
      var d := ctx.descriptor.value;
      if d !in entries {
        entries := entries[d := Entry(None, None)];
      }
      if entries[d].graph.None? {
        if ctx.attempt.CapturingDisabled? {
          assert old(entries)[d := entries[d]] == entries;
          return Raise("capturing is currently disabled");
        }
        entries := entries[d := entries[d].(inputAddresses := Some(Addresses(args)))];
        if ctx.attempt.RunnableRaises? {
          assert old(entries)[d := entries[d]] == entries;
          return Raise("runnable");
        }
        var g := Graph(config.runnable.trace(ShapesOf(args)), args, dev.mem.next);
        dev.mem := dev.mem.(next := dev.mem.next + g.program.temps);
        entries := entries[d := entries[d].(graph := Some(g))];
        dev.numCudagraphCaptured := dev.numCudagraphCaptured + 1;
        assert old(entries)[d := entries[d]] == entries;
        return Ok(Reply(Captured, g.program.results, args, g.base));
      }
      if config.debugging {
        if entries[d].inputAddresses != Some(Addresses(args)) {
          return Raise(ADDRESSES_DIFFER);
        }
      }
      var g := entries[d].graph.value;
      dev.mem := Run(config.runnable, g.program, g.args, g.base, dev.mem);
      r := Ok(Reply(Replayed, g.program.results, g.args, g.base));
    }
  }

  /******* copy_and_call *******/

  datatype Copied = Copied(mem: Mem, buffers: seq<Option<Tensor>>, args: seq<Arg>)

  /** One round of the copy loop: argument `index` goes into buffer i. */
  function CopyOne(i: nat, index: nat, c: Copied): Result<Copied>
    requires i < |c.buffers|
  {
    if index >= |c.args| || c.args[index].Scalar? then Raise("no such tensor")
    else
      var t := c.args[index].t;
      var lazy := c.buffers[i].None?;
      var buffer := if lazy then Tensor(c.mem.next, t.rows) else c.buffers[i].value;
      var mem := if lazy then Put(c.mem, c.mem.next, View(c.mem, t)).(next := c.mem.next + 1) else c.mem;
      var staticTensor := Tensor(buffer.ptr, if t.rows <= buffer.rows then t.rows else buffer.rows);
      if staticTensor.rows != t.rows && t.rows != 1 then Raise("sizes do not match")
      else Ok(Copied(
        Put(mem, staticTensor.ptr, Overwrite(Get(mem, staticTensor.ptr), staticTensor.rows, View(mem, t))),
        c.buffers[i := Some(buffer)],
        c.args[index := TensorArg(staticTensor)]))
  }

  function CopyFrom(sym: seq<nat>, i: nat, c: Copied): Result<Copied>
    requires i <= |sym| == |c.buffers|
    decreases |sym| - i
  {
    if i == |sym| then Ok(c)
    else
      var r := CopyOne(i, sym[i], c);
      if r.Raise? then r else CopyFrom(sym, i + 1, r.value)
  }

  /** One round, then the rest; a failed round ends the loop. */
  lemma {:induction false} CopyFromStep(sym: seq<nat>, i: nat, c: Copied)
    requires i < |sym| == |c.buffers|
    ensures var r := CopyOne(i, sym[i], c);
            if r.Raise? then CopyFrom(sym, i, c) == r
            else |r.value.buffers| == |sym| && CopyFrom(sym, i, c) == CopyFrom(sym, i + 1, r.value)
  {
  }

  lemma {:induction false} CopyFromEnd(sym: seq<nat>, c: Copied)
    requires |sym| == |c.buffers|
    ensures CopyFrom(sym, |sym|, c) == Ok(c)
  {
  }

  datatype Buffered = Buffered(buffers: seq<Option<Tensor>>, cache: Cache)

  /** copy_and_call over the wrapper. The buffers written before a failed copy stay written. */
  function CopyAndCall(cfg: Config, sym: seq<nat>, b: Buffered, ctx: Context, args: seq<Arg>): (Buffered, Result<Reply>)
    requires |b.buffers| == |sym|
    requires CopyFrom(sym, 0, Copied(b.cache.mem, b.buffers, args)).Ok?
  {
    var c := CopyFrom(sym, 0, Copied(b.cache.mem, b.buffers, args)).value;
    var r := Call(cfg, ctx, c.args, b.cache.(mem := c.mem));
    (Buffered(c.buffers, r.0), r.1)
  }

  class CopyAndCaller {
    const symTensorIndices: seq<nat>
    const callable: CUDAGraphWrapper
    var inputBuffers: seq<Option<Tensor>>

    constructor (sym: seq<nat>, buffers: seq<Option<Tensor>>, callable: CUDAGraphWrapper)
      requires |buffers| == |sym|
      ensures symTensorIndices == sym && inputBuffers == buffers && this.callable == callable
    {
      symTensorIndices, inputBuffers, this.callable := sym, buffers, callable;
    }

    ghost function State(dev: Device): Buffered
      reads this, callable, dev
    {
      Buffered(inputBuffers, callable.State(dev))
    }

    /** One round of the loop. A lazily created buffer always fits, so a failed round changes nothing. */
    method CopyRound(dev: Device, i: nat, listArgs: seq<Arg>) returns (r: Result<seq<Arg>>)
      requires i < |inputBuffers| == |symTensorIndices|
      modifies this, dev`mem
      ensures |inputBuffers| == old(|inputBuffers|)
      ensures var spec := CopyOne(i, symTensorIndices[i], Copied(old(dev.mem), old(inputBuffers), listArgs));
              if r.Ok? then spec == Ok(Copied(dev.mem, inputBuffers, r.value))
              else spec == Raise(r.error) && dev.mem == old(dev.mem) && inputBuffers == old(inputBuffers)
    {
      var index := symTensorIndices[i];
      if index >= |listArgs| || listArgs[index].Scalar? {
        return Raise("no such tensor");
      }
      var runtimeTensor := listArgs[index].t;
      if inputBuffers[i].None? {
        inputBuffers := inputBuffers[i := Some(Tensor(dev.mem.next, runtimeTensor.rows))];
        dev.mem := Put(dev.mem, dev.mem.next, View(dev.mem, runtimeTensor)).(next := dev.mem.next + 1);
      }
      var buffer := inputBuffers[i].value;
      var staticTensor := Tensor(buffer.ptr, if runtimeTensor.rows <= buffer.rows then runtimeTensor.rows else buffer.rows);
      if staticTensor.rows != runtimeTensor.rows && runtimeTensor.rows != 1 {
        return Raise("sizes do not match");
      }
      dev.mem := Put(dev.mem, staticTensor.ptr, Overwrite(Get(dev.mem, staticTensor.ptr), staticTensor.rows, View(dev.mem, runtimeTensor)));
      assert inputBuffers == old(inputBuffers)[i := Some(buffer)];
      r := Ok(listArgs[index := TensorArg(staticTensor)]);
    }

    method CopyInputs(dev: Device, args: seq<Arg>) returns (r: Result<seq<Arg>>)
      requires |inputBuffers| == |symTensorIndices|
      modifies this, dev`mem
      ensures |inputBuffers| == |symTensorIndices|
      ensures var spec := CopyFrom(symTensorIndices, 0, Copied(old(dev.mem), old(inputBuffers), args));
              if r.Ok? then spec == Ok(Copied(dev.mem, inputBuffers, r.value)) else spec == Raise(r.error)
    {
      hide CopyOne, CopyFrom;
      var listArgs := args;
      for i := 0 to |symTensorIndices|
        invariant |inputBuffers| == |symTensorIndices|
        invariant CopyFrom(symTensorIndices, 0, Copied(old(dev.mem), old(inputBuffers), args)) ==
                  CopyFrom(symTensorIndices, i, Copied(dev.mem, inputBuffers, listArgs))
      {
        CopyFromStep(symTensorIndices, i, Copied(dev.mem, inputBuffers, listArgs));
        r := CopyRound(dev, i, listArgs);
        if r.Raise? {
          return;
        }
        listArgs := r.value;
      }
      CopyFromEnd(symTensorIndices, Copied(dev.mem, inputBuffers, listArgs));
      r := Ok(listArgs);
    }

    method Invoke(dev: Device, ctx: Context, args: seq<Arg>) returns (r: Result<Reply>)
      requires |inputBuffers| == |symTensorIndices|
      modifies this, callable`entries, dev
      ensures |inputBuffers| == |symTensorIndices|
      ensures var copied := CopyFrom(symTensorIndices, 0, Copied(old(dev.mem), old(inputBuffers), args));
              if copied.Ok? then (State(dev), r) == CopyAndCall(callable.config, symTensorIndices, old(State(dev)), ctx, args)
              else r == Raise(copied.error) && callable.entries == old(callable.entries) && dev.numCudagraphCaptured == old(dev.numCudagraphCaptured)
    {
      var copied := CopyInputs(dev, args);
      if copied.Raise? {
        return Raise(copied.error);
      }
      r := callable.Invoke(dev, ctx, copied.value);
    }
  }

  /******* What every call keeps, whatever it is given *******/

  ghost function Held(entries: map<BatchDescriptor, Entry>): set<BatchDescriptor> {
    set d | d in entries && entries[d].graph.Some?
  }

  /** A graph, once recorded, stays; a capture adds exactly one; nothing else adds any. */
  lemma {:induction false} CallKeepsGraphs(cfg: Config, ctx: Context, args: seq<Arg>, s: Cache)
    ensures var (s', r) := Call(cfg, ctx, args, s);
      && (forall d | d in Held(s.entries) :: d in s'.entries && s'.entries[d] == s.entries[d])
      && (r.Ok? && r.value.kind == Captured ==>
            ctx.descriptor.Some? && ctx.descriptor.value !in Held(s.entries)
            && Held(s'.entries) == Held(s.entries) + {ctx.descriptor.value} && s'.captured == s.captured + 1)
      && (!(r.Ok? && r.value.kind == Captured) ==> Held(s'.entries) == Held(s.entries) && s'.captured == s.captured)
      && (r.Ok? && r.value.kind != PassThrough ==> ctx.mode == cfg.mode)
  {
  }

  /** The descriptor's graph, if the cache holds one. */
  ghost function GraphFor(s: Cache, d: Option<BatchDescriptor>): Option<Graph> {
    if d.Some? && d.value in s.entries then s.entries[d.value].graph else None
  }

  /**
    Which call does what. With another mode it passes through. In the wrapper's mode it captures
    exactly when it has a descriptor without a graph and is allowed to, and replays exactly when
    there is a graph and, when debugging, the addresses are the recorded ones.
   */
  lemma {:induction false} CallKinds(cfg: Config, ctx: Context, args: seq<Arg>, s: Cache)
    ensures var reply := Call(cfg, ctx, args, s).1;
            var own := ctx.mode == cfg.mode && ctx.mode != NONE;
            var g := GraphFor(s, ctx.descriptor);
            && (reply.Ok? && reply.value.kind == PassThrough <==> !own)
            && (reply.Ok? && reply.value.kind == Captured <==>
                  own && ctx.descriptor.Some? && g.None? && ctx.attempt == Allowed)
            && (reply.Ok? && reply.value.kind == Replayed <==>
                  own && g.Some? && (cfg.debugging ==> s.entries[ctx.descriptor.value].inputAddresses == Some(Addresses(args))))
            && (own && g.Some? && reply.Raise? ==> reply == Raise(ADDRESSES_DIFFER))
  {
  }

  /** A capturing call executes nothing; it records, and returns, the program's results on the call's arguments. */
  lemma {:induction false} CaptureReturnsGraph(cfg: Config, ctx: Context, args: seq<Arg>, s: Cache)
    ensures var (s', reply) := Call(cfg, ctx, args, s);
            reply.Ok? && reply.value.kind == Captured ==>
              var g := GraphFor(s', ctx.descriptor);
              && g == Some(Graph(cfg.runnable.trace(ShapesOf(args)), args, s.mem.next))
              && s'.entries[ctx.descriptor.value].inputAddresses == Some(Addresses(args))
              && s'.mem == s.mem.(next := s.mem.next + g.value.program.temps)
              && Returns(reply.value, g.value)
  {
  }

  /** The reply hands back the tensors of this graph. */
  ghost predicate Returns(reply: Reply, g: Graph) {
    reply.results == g.program.results && reply.args == g.args && reply.base == g.base
  }

  /** A replay executes the graph it holds, whatever the arguments, and returns its tensors. */
  lemma {:induction false} ReplayReturnsGraph(cfg: Config, ctx: Context, args: seq<Arg>, s: Cache)
    ensures var (s', reply) := Call(cfg, ctx, args, s);
            reply.Ok? && reply.value.kind == Replayed ==>
              var g := GraphFor(s, ctx.descriptor);
              && g.Some?
              && s' == s.(mem := Run(cfg.runnable, g.value.program, g.value.args, g.value.base, s.mem))
              && Returns(reply.value, g.value)
  {
  }

  /** A call that raises changes neither memory nor counter; a failed attempt leaves an entry without a graph. */
  lemma {:induction false} RaisingLeaves(cfg: Config, ctx: Context, args: seq<Arg>, s: Cache)
    ensures var (s', reply) := Call(cfg, ctx, args, s);
            reply.Raise? ==>
              && s'.mem == s.mem && s'.captured == s.captured
              && s'.entries.Keys == s.entries.Keys + (if ctx.descriptor.Some? then {ctx.descriptor.value} else {})
              && forall d | d in s.entries && s.entries[d].graph.Some? :: s'.entries[d] == s.entries[d]
  {
  }

  datatype Request = Request(ctx: Context, args: seq<Arg>)

  /** The cache after the first k of a run of calls with changing modes, descriptors and outcomes. */
  function CacheAt(cfg: Config, reqs: seq<Request>, k: nat, s: Cache): Cache
    requires k <= |reqs|
  {
    if k == 0 then s
    else Call(cfg, reqs[k - 1].ctx, reqs[k - 1].args, CacheAt(cfg, reqs, k - 1, s)).0
  }

  function ReplyAt(cfg: Config, reqs: seq<Request>, k: nat, s: Cache): Result<Reply>
    requires k < |reqs|
  {
    Call(cfg, reqs[k].ctx, reqs[k].args, CacheAt(cfg, reqs, k, s)).1
  }

  ghost predicate CapturedAt(cfg: Config, reqs: seq<Request>, k: nat, s: Cache)
    requires k < |reqs|
  {
    ReplyAt(cfg, reqs, k, s).Ok? && ReplyAt(cfg, reqs, k, s).value.kind == Captured
  }

  /** The global counter grows by exactly the number of graphs the wrapper comes to hold. */
  lemma {:induction false} CounterCountsGraphs(cfg: Config, reqs: seq<Request>, k: nat, s: Cache)
    requires k <= |reqs|
    ensures var s' := CacheAt(cfg, reqs, k, s);
            && Held(s.entries) <= Held(s'.entries)
            && s'.captured - s.captured == |Held(s'.entries)| - |Held(s.entries)|
  {
    hide Call;
    if k > 0 {
      CounterCountsGraphs(cfg, reqs, k - 1, s);
      CallKeepsGraphs(cfg, reqs[k - 1].ctx, reqs[k - 1].args, CacheAt(cfg, reqs, k - 1, s));
    }
  }

  lemma {:induction false} GraphsStay(cfg: Config, reqs: seq<Request>, i: nat, j: nat, s: Cache, d: BatchDescriptor)
    requires i <= j <= |reqs| && d in Held(CacheAt(cfg, reqs, i, s).entries)
    ensures d in Held(CacheAt(cfg, reqs, j, s).entries)
    ensures CacheAt(cfg, reqs, j, s).entries[d] == CacheAt(cfg, reqs, i, s).entries[d]
    decreases j
  {
    hide Call;
    if i < j {
      GraphsStay(cfg, reqs, i, j - 1, s, d);
      CallKeepsGraphs(cfg, reqs[j - 1].ctx, reqs[j - 1].args, CacheAt(cfg, reqs, j - 1, s));
    }
  }

  /** Over every run, the tensors a capture returned are the ones that every later replay returns. */
  lemma {:induction false} ReplaysReturnCaptured(cfg: Config, reqs: seq<Request>, i: nat, j: nat, s: Cache)
    requires i < j < |reqs| && CapturedAt(cfg, reqs, i, s) && reqs[i].ctx.descriptor == reqs[j].ctx.descriptor
    requires ReplyAt(cfg, reqs, j, s).Ok? && ReplyAt(cfg, reqs, j, s).value.kind == Replayed
    ensures var captured, replayed := ReplyAt(cfg, reqs, i, s).value, ReplyAt(cfg, reqs, j, s).value;
            captured.results == replayed.results && captured.args == replayed.args && captured.base == replayed.base
  {
    hide Call;
    CaptureReturnsGraph(cfg, reqs[i].ctx, reqs[i].args, CacheAt(cfg, reqs, i, s));
    ReplayReturnsGraph(cfg, reqs[j].ctx, reqs[j].args, CacheAt(cfg, reqs, j, s));
    CallKinds(cfg, reqs[i].ctx, reqs[i].args, CacheAt(cfg, reqs, i, s));
    GraphsStay(cfg, reqs, i + 1, j, s, reqs[i].ctx.descriptor.value);
  }

  /** Over every run, failed attempts included, no descriptor is captured twice. */
  lemma {:induction false} CapturedAtMostOnce(cfg: Config, reqs: seq<Request>, i: nat, j: nat, s: Cache)
    requires i < j < |reqs| && CapturedAt(cfg, reqs, i, s) && CapturedAt(cfg, reqs, j, s)
    ensures reqs[i].ctx.descriptor != reqs[j].ctx.descriptor
  {
    hide Call, Held;
    CallKeepsGraphs(cfg, reqs[i].ctx, reqs[i].args, CacheAt(cfg, reqs, i, s));
    CallKeepsGraphs(cfg, reqs[j].ctx, reqs[j].args, CacheAt(cfg, reqs, j, s));
    GraphsStay(cfg, reqs, i + 1, j, s, reqs[i].ctx.descriptor.value);
  }
}
