/**
  Whole runs: a sequence of calls with changing modes, descriptors, inputs and capture
  outcomes, made once through the static buffers and the graph cache and once directly.
 */
module CudaGraphRuns {
  import opened Wrappers
  import opened CudaGraph
  import opened CudaGraphWrapper
  import opened CudaGraphReplay

  /******* Runs with inputs wherever the caller puts them *******/

  /** One call: its context, and on each side the memory as the caller left it and the arguments. */
  datatype Move = Move(ctx: Context, mem: Mem, args: seq<Arg>, direct: Mem, directArgs: seq<Arg>)

  /** Between calls the caller may allocate and write, but leaves fixed arguments and buffer sizes alone. */
  ghost predicate Handed(r: Regime, b: Buffered, md: Mem, mv: Move) {
    && mv.mem.next >= b.cache.mem.next && mv.direct.next >= md.next
    && FixedSame(r.sym, r.fixed, b.cache.mem, mv.mem) && FixedSame(r.sym, r.fixed, md, mv.direct)
    && forall k | 0 <= k < |b.buffers| && b.buffers[k].Some? ::
         |Get(mv.mem, b.buffers[k].value.ptr)| == |Get(b.cache.mem, b.buffers[k].value.ptr)|
  }

  ghost function At(b: Buffered, mv: Move): Buffered {
    b.(cache := b.cache.(mem := mv.mem))
  }

  ghost predicate MoveOk(r: Regime, b: Buffered, md: Mem, mv: Move) {
    && Handed(r, b, md, mv)
    && Admissible(r, At(b, mv), mv.ctx, mv.args)
    && SameInputs(r, mv.mem, mv.args, mv.direct, mv.directArgs)
    && NoAlias(r.cfg.runnable.trace(ShapesOf(mv.directArgs)), SymSet(r.sym), mv.directArgs)
  }

  ghost predicate CopyOk(r: Regime, b: Buffered, mv: Move) {
    |b.buffers| == |r.sym| && CopyFrom(r.sym, 0, Copied(mv.mem, b.buffers, mv.args)).Ok?
  }

  /** The call made through the buffers and the cache. */
  ghost function Through(r: Regime, b: Buffered, mv: Move): (Buffered, Result<Reply>) {
    if CopyOk(r, b, mv) then CopyAndCall(r.cfg, r.sym, At(b, mv), mv.ctx, mv.args)
    else (At(b, mv), Raise("copy"))
  }

  ghost predicate Executed(reply: Result<Reply>) {
    reply.Ok? && reply.value.kind != Captured
  }

  /** The memory of the direct side behind a call; a call that captured or failed has no counterpart. */
  ghost function NextDirect(r: Regime, b: Buffered, mv: Move): Mem {
    if Executed(Through(r, b, mv).1) then RunFresh(r.cfg.runnable, mv.directArgs, mv.direct) else mv.direct
  }

  /** Every call is admissible where it is made. */
  ghost predicate MovesOk(r: Regime, b: Buffered, md: Mem, moves: seq<Move>)
    decreases |moves|
  {
    moves == [] ||
    (&& MoveOk(r, b, md, moves[0])
     && MovesOk(r, Through(r, b, moves[0]).0, NextDirect(r, b, moves[0]), moves[1..]))
  }

  /**
    Each call of the run that passes through or replays yields the same contents as the direct
    call. Every copy succeeds, and recorded addresses never differ.
   */
  ghost predicate Agrees(r: Regime, b: Buffered, moves: seq<Move>)
    decreases |moves|
  {
    moves == [] ||
    var mv := moves[0];
    var (b', reply) := Through(r, b, mv);
    && CopyOk(r, b, mv)
    && reply != Raise(ADDRESSES_DIFFER)
    && (Executed(reply) ==> Contents(reply.value, b'.cache.mem) == FreshResults(r.cfg.runnable, mv.directArgs, mv.direct))
    && Agrees(r, b', moves[1..])
  }

  /** What the caller does between calls keeps the invariant. */
  lemma {:induction false} HandedValid(r: Regime, b: Buffered, md: Mem, mv: Move)
    requires Valid(r, b) && Handed(r, b, md, mv)
    ensures Valid(r, At(b, mv))
  {
    hide EntriesOk;
    EntriesMonotone(r, b.buffers, b.cache.mem.next, mv.mem.next, b.cache.entries);
    assert BuffersOk(b.buffers, mv.mem);
  }

  lemma {:induction false} FixedSameChain(r: Regime, a: Mem, b: Mem, c: Mem)
    requires FixedSame(r.sym, r.fixed, a, b) && FixedSame(r.sym, r.fixed, b, c)
    ensures FixedSame(r.sym, r.fixed, a, c) && FixedSame(r.sym, r.fixed, b, a)
  {
  }

  /** One call of a run: it agrees, and the two sides are alike again behind it. */
  lemma {:induction false} MoveAgrees(r: Regime, b: Buffered, md: Mem, mv: Move)
    requires Valid(r, b) && FixedSame(r.sym, r.fixed, md, b.cache.mem) && MoveOk(r, b, md, mv)
    ensures CopyOk(r, b, mv)
    ensures var (b', reply) := Through(r, b, mv);
      && reply != Raise(ADDRESSES_DIFFER)
      && (Executed(reply) ==> Contents(reply.value, b'.cache.mem) == FreshResults(r.cfg.runnable, mv.directArgs, mv.direct))
      && Valid(r, b')
      && FixedSame(r.sym, r.fixed, NextDirect(r, b, mv), b'.cache.mem)
  {
    hide Valid, Admissible, NoAlias, FixedSame, SameInputs, CopyAndCall, CopyFrom, FreshResults, RunFresh;
    HandedValid(r, b, md, mv);
    assert |b.buffers| == |r.sym| by { ValidBuffers(r, b); }
    FixedSameChain(r, md, b.cache.mem, mv.mem);
    FixedSameChain(r, mv.mem, mv.mem, mv.mem);
    DirectFixed(r, md, mv.direct, mv.mem);
    CallMatchesDirect(r, At(b, mv), mv.ctx, mv.args, mv.direct, mv.directArgs);
    CallKeepsValid(r, At(b, mv), mv.ctx, mv.args);
    RecordingKeepsFixed(r, At(b, mv), mv.ctx, mv.args);
    if !Executed(Through(r, b, mv).1) {
      FixedSameChain(r, mv.direct, mv.mem, Through(r, b, mv).0.cache.mem);
    }
  }

  lemma {:induction false} ValidBuffers(r: Regime, b: Buffered)
    requires Valid(r, b)
    ensures |b.buffers| == |r.sym|
  {
  }

  lemma {:induction false} DirectFixed(r: Regime, md: Mem, direct: Mem, m: Mem)
    requires FixedSame(r.sym, r.fixed, md, direct) && FixedSame(r.sym, r.fixed, md, m)
    ensures FixedSame(r.sym, r.fixed, direct, m)
  {
  }

  /**
    For every run of calls, with inputs at whatever admissible addresses the caller chooses on
    either side, two memories that start with the same fixed arguments see the same results call
    by call.
   */
  lemma {:induction false} RunsAgree(r: Regime, b: Buffered, md: Mem, moves: seq<Move>)
    requires Valid(r, b) && FixedSame(r.sym, r.fixed, md, b.cache.mem) && MovesOk(r, b, md, moves)
    ensures Agrees(r, b, moves)
    decreases |moves|
  {
    hide Valid, FixedSame, MoveOk, Through, NextDirect, CopyOk, Executed, FreshResults;
    if moves != [] {
      MoveAgrees(r, b, md, moves[0]);
      RunsAgree(r, Through(r, b, moves[0]).0, NextDirect(r, b, moves[0]), moves[1..]);
    }
  }

  /******* What a capture returned *******/

  /** The state in front of call k of a run, and the reply to it. */
  ghost function StateAt(r: Regime, b: Buffered, moves: seq<Move>, k: nat): Buffered
    requires k <= |moves|
  {
    if k == 0 then b else Through(r, StateAt(r, b, moves, k - 1), moves[k - 1]).0
  }

  ghost function ReplyTo(r: Regime, b: Buffered, moves: seq<Move>, k: nat): Result<Reply>
    requires k < |moves|
  {
    Through(r, StateAt(r, b, moves, k), moves[k]).1
  }

  lemma {:induction false} StateShift(r: Regime, b: Buffered, moves: seq<Move>, k: nat)
    requires 0 < k <= |moves|
    ensures StateAt(r, b, moves, k) == StateAt(r, Through(r, b, moves[0]).0, moves[1..], k - 1)
  {
    hide Through;
    if k > 1 {
      StateShift(r, b, moves, k - 1);
      assert moves[1..][k - 2] == moves[k - 1];
    }
  }

  /** Agreement over a run, read at one of its calls. */
  lemma {:induction false} AgreesAt(r: Regime, b: Buffered, moves: seq<Move>, k: nat)
    requires Agrees(r, b, moves) && k < |moves|
    ensures Executed(ReplyTo(r, b, moves, k)) ==>
              Contents(ReplyTo(r, b, moves, k).value, StateAt(r, b, moves, k + 1).cache.mem)
                == FreshResults(r.cfg.runnable, moves[k].directArgs, moves[k].direct)
    decreases k
  {
    hide Through, Executed, FreshResults, Contents, StateAt, Agrees;
    AgreesStep(r, b, moves);
    StateNext(r, b, moves, k);
    if k > 0 {
      AgreesAt(r, Through(r, b, moves[0]).0, moves[1..], k - 1);
      StateNext(r, Through(r, b, moves[0]).0, moves[1..], k - 1);
      StateShift(r, b, moves, k);
      assert moves[1..][k - 1] == moves[k];
    }
  }

  lemma {:induction false} AgreesStep(r: Regime, b: Buffered, moves: seq<Move>)
    requires Agrees(r, b, moves) && moves != []
    ensures var (b', reply) := Through(r, b, moves[0]);
            && (Executed(reply) ==>
                  Contents(reply.value, b'.cache.mem) == FreshResults(r.cfg.runnable, moves[0].directArgs, moves[0].direct))
            && Agrees(r, b', moves[1..])
  {
    hide Through, Executed, FreshResults, Contents;
  }

  lemma {:induction false} StateNext(r: Regime, b: Buffered, moves: seq<Move>, k: nat)
    requires k < |moves|
    ensures StateAt(r, b, moves, k + 1) == Through(r, StateAt(r, b, moves, k), moves[k]).0
    ensures k == 0 ==> StateAt(r, b, moves, k) == b
  {
    hide Through;
  }

  lemma {:induction false} ThroughKeepsGraph(r: Regime, b: Buffered, mv: Move, d: BatchDescriptor)
    requires GraphFor(b.cache, Some(d)).Some?
    ensures GraphFor(Through(r, b, mv).0.cache, Some(d)) == GraphFor(b.cache, Some(d))
  {
    if CopyOk(r, b, mv) {
      hide Call, CopyFrom;
      var c := CopyFrom(r.sym, 0, Copied(mv.mem, b.buffers, mv.args)).value;
      CallKeepsGraphs(r.cfg, mv.ctx, c.args, b.cache.(mem := c.mem));
      assert d in Held(b.cache.entries);
    }
  }

  lemma {:induction false} GraphKept(r: Regime, b: Buffered, moves: seq<Move>, i: nat, j: nat, d: BatchDescriptor)
    requires i <= j <= |moves| && GraphFor(StateAt(r, b, moves, i).cache, Some(d)).Some?
    ensures GraphFor(StateAt(r, b, moves, j).cache, Some(d)) == GraphFor(StateAt(r, b, moves, i).cache, Some(d))
    decreases j
  {
    hide Through, GraphFor;
    if i < j {
      GraphKept(r, b, moves, i, j - 1, d);
      ThroughKeepsGraph(r, StateAt(r, b, moves, j - 1), moves[j - 1], d);
    }
  }

  /** The reply of a capture, and of a replay, hands back the tensors of the descriptor's graph. */
  lemma {:induction false} ThroughReturns(r: Regime, b: Buffered, mv: Move)
    ensures var (b', reply) := Through(r, b, mv);
            && (reply.Ok? && reply.value.kind == Captured ==>
                  mv.ctx.descriptor.Some? && GraphFor(b'.cache, mv.ctx.descriptor).Some?
                  && Returns(reply.value, GraphFor(b'.cache, mv.ctx.descriptor).value))
            && (reply.Ok? && reply.value.kind == Replayed ==>
                  GraphFor(b.cache, mv.ctx.descriptor).Some? && Returns(reply.value, GraphFor(b.cache, mv.ctx.descriptor).value))
  {
    if CopyOk(r, b, mv) {
      hide Call, CopyFrom;
      var c := CopyFrom(r.sym, 0, Copied(mv.mem, b.buffers, mv.args)).value;
      CallKinds(r.cfg, mv.ctx, c.args, b.cache.(mem := c.mem));
      CaptureReturnsGraph(r.cfg, mv.ctx, c.args, b.cache.(mem := c.mem));
      ReplayReturnsGraph(r.cfg, mv.ctx, c.args, b.cache.(mem := c.mem));
    }
  }

  /**
    Over every run, the tensors that a capturing call returned hold, after each later replay of its
    descriptor, what the direct call gives.
   */
  lemma {:induction false} CapturedTensorsFollow(r: Regime, b: Buffered, md: Mem, moves: seq<Move>, i: nat, j: nat)
    requires Valid(r, b) && FixedSame(r.sym, r.fixed, md, b.cache.mem) && MovesOk(r, b, md, moves)
    requires i < j < |moves| && moves[i].ctx.descriptor == moves[j].ctx.descriptor
    requires ReplyTo(r, b, moves, i).Ok? && ReplyTo(r, b, moves, i).value.kind == Captured
    requires ReplyTo(r, b, moves, j).Ok? && ReplyTo(r, b, moves, j).value.kind == Replayed
    ensures var captured, replayed := ReplyTo(r, b, moves, i).value, ReplyTo(r, b, moves, j).value;
            && captured.results == replayed.results && captured.args == replayed.args && captured.base == replayed.base
            && Contents(captured, StateAt(r, b, moves, j + 1).cache.mem)
                 == FreshResults(r.cfg.runnable, moves[j].directArgs, moves[j].direct)
  {
    hide Through, Valid, MovesOk, Agrees, FixedSame, FreshResults, GraphFor;
    RunsAgree(r, b, md, moves);
    AgreesAt(r, b, moves, j);
    ThroughReturns(r, StateAt(r, b, moves, i), moves[i]);
    ThroughReturns(r, StateAt(r, b, moves, j), moves[j]);
    GraphKept(r, b, moves, i + 1, j, moves[i].ctx.descriptor.value);
  }

  /******* Runs with inputs allocated anew for each call *******/

  /** One call: the forward context and the contents of the symbolic inputs. */
  datatype Step = Step(ctx: Context, inputs: seq<Data>)

  function IndexOf(sym: seq<nat>, x: nat): (k: nat)
    requires x in sym
    ensures k < |sym| && sym[k] == x
  {
    if sym[0] == x then 0 else 1 + IndexOf(sym[1..], x)
  }

  /** The caller allocates its inputs, one after another ... */
  function Place(m: Mem, inputs: seq<Data>): (r: Mem)
    ensures r.next == m.next + |inputs|
  {
    if inputs == [] then m
    else
      var last := |inputs| - 1;
      var r := Place(m, inputs[..last]);
      Put(r, r.next, inputs[last]).(next := r.next + 1)
  }

  /** ... and passes them in the symbolic positions. */
  function PlacedArgs(sym: seq<nat>, fixed: seq<Arg>, inputs: seq<Data>, base: nat): (args: seq<Arg>)
    requires |inputs| == |sym|
    ensures |args| == |fixed|
  {
    seq(|fixed|, x requires 0 <= x < |fixed| =>
      if x in sym then TensorArg(Tensor(base + IndexOf(sym, x), |inputs[IndexOf(sym, x)]|)) else fixed[x])
  }

  /** Inputs within the capacity, and shapes that the descriptor determines. */
  ghost predicate StepOk(r: Regime, cap: seq<nat>, st: Step) {
    && |st.inputs| == |r.sym| == |cap|
    && (forall k | 0 <= k < |cap| :: |st.inputs[k]| <= cap[k])
    && var shapes := ShapesOf(PlacedArgs(r.sym, r.fixed, st.inputs, 0));
       && ProgramOk(r.cfg.runnable.trace(shapes), shapes)
       && (st.ctx.mode == r.cfg.mode && st.ctx.mode != NONE ==>
             st.ctx.descriptor.Some? && shapes == r.shapes(st.ctx.descriptor.value))
  }

  /** Buffers exist with at least the capacity, or the next call creates them so. */
  ghost predicate RunOk(r: Regime, cap: seq<nat>, b: Buffered, steps: seq<Step>) {
    && |cap| == |r.sym| == |b.buffers|
    && (forall k | 0 <= k < |r.sym| :: r.sym[k] < |r.fixed|)
    && (forall st | st in steps :: StepOk(r, cap, st))
    && (forall k | 0 <= k < |cap| :: b.buffers[k].Some? ==> b.buffers[k].value.rows >= cap[k])
    && (steps != [] ==>
          && |steps[0].inputs| == |cap|
          && forall k | 0 <= k < |cap| :: b.buffers[k].None? ==> |steps[0].inputs[k]| >= cap[k])
  }

  lemma {:induction false} PlaceFrame(m: Mem, inputs: seq<Data>)
    ensures forall ptr: nat | ptr < m.next :: Get(Place(m, inputs), ptr) == Get(m, ptr)
  {
    if inputs != [] {
      PlaceFrame(m, inputs[..|inputs| - 1]);
    }
  }

  lemma {:induction false} PlaceHolds(m: Mem, inputs: seq<Data>, k: nat)
    requires k < |inputs|
    ensures Get(Place(m, inputs), m.next + k) == inputs[k]
  {
    if k < |inputs| - 1 {
      PlaceHolds(m, inputs[..|inputs| - 1], k);
    }
  }

  lemma {:induction false} PlacedShapes(r: Regime, inputs: seq<Data>, base: nat)
    requires |inputs| == |r.sym|
    ensures ShapesOf(PlacedArgs(r.sym, r.fixed, inputs, base)) == ShapesOf(PlacedArgs(r.sym, r.fixed, inputs, 0))
  {
  }

  /** Placing inputs leaves every allocated storage, buffer and graph alone. */
  lemma {:induction false} PlaceKeepsValid(r: Regime, b: Buffered, inputs: seq<Data>)
    requires Valid(r, b)
    ensures Valid(r, b.(cache := b.cache.(mem := Place(b.cache.mem, inputs))))
  {
    var m := Place(b.cache.mem, inputs);
    PlaceFrame(b.cache.mem, inputs);
    assert BuffersOk(b.buffers, m);
    EntriesMonotone(r, b.buffers, b.cache.mem.next, m.next, b.cache.entries);
  }

  lemma {:induction false} PlacedInput(r: Regime, m: Mem, inputs: seq<Data>, k: nat)
    requires Distinct(r.sym) && |inputs| == |r.sym| && k < |r.sym| && r.sym[k] < |r.fixed|
    ensures PlacedArgs(r.sym, r.fixed, inputs, m.next)[r.sym[k]] == TensorArg(Tensor(m.next + k, |inputs[k]|))
    ensures View(Place(m, inputs), Tensor(m.next + k, |inputs[k]|)) == inputs[k]
    ensures Get(Place(m, inputs), m.next + k) == inputs[k]
  {
    assert IndexOf(r.sym, r.sym[k]) == k;
    PlaceHolds(m, inputs, k);
  }

  lemma {:induction false} StepAdmissible(r: Regime, cap: seq<nat>, b: Buffered, steps: seq<Step>)
    requires Valid(r, b) && RunOk(r, cap, b, steps) && steps != [] && |steps[0].inputs| == |r.sym|
    ensures var placed := b.(cache := b.cache.(mem := Place(b.cache.mem, steps[0].inputs)));
            Admissible(r, placed, steps[0].ctx, PlacedArgs(r.sym, r.fixed, steps[0].inputs, b.cache.mem.next))
  {
    var inputs := steps[0].inputs;
    assert steps[0] in steps;
    PlacedShapes(r, inputs, b.cache.mem.next);
    forall k | 0 <= k < |r.sym|
      ensures InputOk(b.buffers, Place(b.cache.mem, inputs), PlacedArgs(r.sym, r.fixed, inputs, b.cache.mem.next)[r.sym[k]])
    {
      PlacedInput(r, b.cache.mem, inputs, k);
    }
    forall k | 0 <= k < |r.sym| && b.buffers[k].Some?
      ensures PlacedArgs(r.sym, r.fixed, inputs, b.cache.mem.next)[r.sym[k]].t.rows <= b.buffers[k].value.rows
    {
      PlacedInput(r, b.cache.mem, inputs, k);
    }
  }

  ghost predicate FixedBelow(r: Regime, next: nat) {
    forall x | 0 <= x < |r.fixed| && x !in r.sym && r.fixed[x].TensorArg? :: r.fixed[x].t.ptr < next
  }

  /** Freshly placed inputs are apart from each other and from everything else. */
  lemma {:induction false} PlacedNoAlias(r: Regime, p: Program, m: Mem, inputs: seq<Data>)
    requires Distinct(r.sym) && |inputs| == |r.sym| && FixedBelow(r, m.next)
    ensures NoAlias(p, SymSet(r.sym), PlacedArgs(r.sym, r.fixed, inputs, m.next))
  {
  }

  lemma {:induction false} PlaceKeepsFixed(r: Regime, m: Mem, inputs: seq<Data>)
    requires FixedBelow(r, m.next)
    ensures FixedSame(r.sym, r.fixed, m, Place(m, inputs))
  {
    PlaceFrame(m, inputs);
  }

  lemma {:induction false} PlacedSameCall(r: Regime, m: Mem, md: Mem, inputs: seq<Data>)
    requires Distinct(r.sym) && |inputs| == |r.sym| && forall k | 0 <= k < |r.sym| :: r.sym[k] < |r.fixed|
    requires FixedBelow(r, m.next) && FixedBelow(r, md.next) && FixedSame(r.sym, r.fixed, md, m)
    ensures SameCall(r, Place(m, inputs), PlacedArgs(r.sym, r.fixed, inputs, m.next), Place(md, inputs), PlacedArgs(r.sym, r.fixed, inputs, md.next))
  {
    PlacedShapes(r, inputs, m.next);
    PlacedShapes(r, inputs, md.next);
    var args, argsd := PlacedArgs(r.sym, r.fixed, inputs, m.next), PlacedArgs(r.sym, r.fixed, inputs, md.next);
    PlaceKeepsFixed(r, m, inputs);
    PlaceKeepsFixed(r, md, inputs);
    PlacedBelow(r, md, inputs);
    forall k | 0 <= k < |r.sym|
      ensures SameInput(Place(md, inputs), argsd[r.sym[k]], Place(m, inputs), args[r.sym[k]])
    {
      PlacedSameInput(r, m, md, inputs, k);
    }
  }

  lemma {:induction false} PlacedSameInput(r: Regime, m: Mem, md: Mem, inputs: seq<Data>, k: nat)
    requires Distinct(r.sym) && |inputs| == |r.sym| && k < |r.sym| && r.sym[k] < |r.fixed|
    ensures SameInput(Place(md, inputs), PlacedArgs(r.sym, r.fixed, inputs, md.next)[r.sym[k]],
                      Place(m, inputs), PlacedArgs(r.sym, r.fixed, inputs, m.next)[r.sym[k]])
  {
    PlacedInput(r, m, inputs, k);
    PlacedInput(r, md, inputs, k);
  }

  lemma {:induction false} PlacedBelow(r: Regime, m: Mem, inputs: seq<Data>)
    requires |inputs| == |r.sym| && FixedBelow(r, m.next)
    ensures var args := PlacedArgs(r.sym, r.fixed, inputs, m.next);
            forall x | 0 <= x < |args| && args[x].TensorArg? :: args[x].t.ptr < Place(m, inputs).next
  {
  }

  /** After a call every buffer exists, with the capacity. */
  lemma {:induction false} NextRunOk(r: Regime, cap: seq<nat>, b: Buffered, steps: seq<Step>, b': Buffered)
    requires RunOk(r, cap, b, steps) && steps != [] && |b'.buffers| == |r.sym| == |steps[0].inputs|
    requires forall k | 0 <= k < |r.sym| :: b'.buffers[k].Some? && b'.buffers[k].value.rows >= |steps[0].inputs[k]|
    requires forall k | 0 <= k < |r.sym| && b.buffers[k].Some? :: b'.buffers[k] == b.buffers[k]
    ensures RunOk(r, cap, b', steps[1..])
  {
    assert forall st | st in steps[1..] :: st in steps;
    if |steps| > 1 {
      assert StepOk(r, cap, steps[1]);
    }
  }

  lemma {:induction false} FreshAllocates(r: Regime, args: seq<Arg>, m: Mem)
    ensures RunFresh(r.cfg.runnable, args, m).next >= m.next
  {
    var p := r.cfg.runnable.trace(ShapesOf(args));
    ExecNext(r.cfg.runnable, p, args, m.next, |p.launches|, m.(next := m.next + p.temps));
  }

  /** A step as a call on both sides. */
  ghost function PlacedMove(r: Regime, b: Buffered, md: Mem, st: Step): Move
    requires |r.sym| == |st.inputs|
  {
    Move(st.ctx,
         Place(b.cache.mem, st.inputs), PlacedArgs(r.sym, r.fixed, st.inputs, b.cache.mem.next),
         Place(md, st.inputs), PlacedArgs(r.sym, r.fixed, st.inputs, md.next))
  }

  ghost function PlacedMoves(r: Regime, b: Buffered, md: Mem, steps: seq<Step>): seq<Move>
    requires forall st | st in steps :: |r.sym| == |st.inputs|
    decreases |steps|
  {
    if steps == [] then []
    else
      var mv := PlacedMove(r, b, md, steps[0]);
      [mv] + PlacedMoves(r, Through(r, b, mv).0, NextDirect(r, b, mv), steps[1..])
  }

  lemma {:induction false} PlacedMoveOk(r: Regime, cap: seq<nat>, b: Buffered, md: Mem, steps: seq<Step>)
    requires Valid(r, b) && RunOk(r, cap, b, steps) && steps != [] && |steps[0].inputs| == |r.sym|
    requires FixedBelow(r, md.next) && FixedSame(r.sym, r.fixed, md, b.cache.mem)
    ensures MoveOk(r, b, md, PlacedMove(r, b, md, steps[0]))
  {
    hide Valid, RunOk, SameInputs, FixedSame, Admissible, NoAlias, PlacedArgs, Place;
    var st := steps[0];
    var mv := PlacedMove(r, b, md, st);
    ValidFixedBelow(r, b);
    RunOkSym(r, cap, b, steps);
    StepAdmissible(r, cap, b, steps);
    PlacedSameCall(r, b.cache.mem, md, st.inputs);
    PlacedNoAlias(r, r.cfg.runnable.trace(ShapesOf(mv.directArgs)), md, st.inputs);
    PlaceKeepsFixed(r, b.cache.mem, st.inputs);
    PlaceKeepsFixed(r, md, st.inputs);
    PlaceFrame(b.cache.mem, st.inputs);
    assert At(b, mv) == b.(cache := b.cache.(mem := Place(b.cache.mem, st.inputs)));
  }

  lemma {:induction false} ValidFixedBelow(r: Regime, b: Buffered)
    requires Valid(r, b)
    ensures FixedBelow(r, b.cache.mem.next) && Distinct(r.sym)
    ensures forall k | 0 <= k < |b.buffers| && b.buffers[k].Some? :: b.buffers[k].value.ptr < b.cache.mem.next
  {
  }

  lemma {:induction false} RunOkSym(r: Regime, cap: seq<nat>, b: Buffered, steps: seq<Step>)
    requires RunOk(r, cap, b, steps)
    ensures forall k | 0 <= k < |r.sym| :: r.sym[k] < |r.fixed|
    ensures forall st | st in steps :: |r.sym| == |st.inputs|
  {
  }

  lemma {:induction false} PlacedMoveKeepsRun(r: Regime, cap: seq<nat>, b: Buffered, md: Mem, steps: seq<Step>)
    requires Valid(r, b) && RunOk(r, cap, b, steps) && steps != [] && |steps[0].inputs| == |r.sym|
    ensures RunOk(r, cap, Through(r, b, PlacedMove(r, b, md, steps[0])).0, steps[1..])
  {
    hide Valid, RunOk, Admissible, CopyAndCall, CopyFrom;
    var st := steps[0];
    var mv := PlacedMove(r, b, md, st);
    ValidBuffers(r, b);
    ValidFixedBelow(r, b);
    RunOkSym(r, cap, b, steps);
    PlaceKeepsValid(r, b, st.inputs);
    StepAdmissible(r, cap, b, steps);
    CallKeepsValid(r, At(b, mv), st.ctx, mv.args);
    var b' := Through(r, b, mv).0;
    ValidBuffers(r, b');
    forall k | 0 <= k < |r.sym|
      ensures mv.args[r.sym[k]] == TensorArg(Tensor(b.cache.mem.next + k, |st.inputs[k]|))
    {
      PlacedInput(r, b.cache.mem, st.inputs, k);
    }
    NextRunOk(r, cap, b, steps, b');
  }

  lemma {:induction false} DirectAllocates(r: Regime, b: Buffered, mv: Move)
    ensures NextDirect(r, b, mv).next >= mv.direct.next
  {
    FreshAllocates(r, mv.directArgs, mv.direct);
  }

  lemma {:induction false} PlacedMovesOk(r: Regime, cap: seq<nat>, b: Buffered, md: Mem, steps: seq<Step>)
    requires Valid(r, b) && RunOk(r, cap, b, steps)
    requires FixedBelow(r, md.next) && FixedSame(r.sym, r.fixed, md, b.cache.mem)
    ensures forall st | st in steps :: |r.sym| == |st.inputs|
    ensures MovesOk(r, b, md, PlacedMoves(r, b, md, steps))
    decreases |steps|
  {
    hide Valid, RunOk, FixedSame, MoveOk, Through, NextDirect, PlacedArgs, Place;
    RunOkSym(r, cap, b, steps);
    if steps != [] {
      assert steps[0] in steps;
      var mv := PlacedMove(r, b, md, steps[0]);
      PlacedMoveOk(r, cap, b, md, steps);
      MoveAgrees(r, b, md, mv);
      PlacedMoveKeepsRun(r, cap, b, md, steps);
      DirectAllocates(r, b, mv);
      var rest := PlacedMoves(r, Through(r, b, mv).0, NextDirect(r, b, mv), steps[1..]);
      PlacedMovesOk(r, cap, Through(r, b, mv).0, NextDirect(r, b, mv), steps[1..]);
      assert ([mv] + rest)[1..] == rest;
    }
  }

  /**
    In particular for every run whose inputs are allocated anew for each call, within the capacity
    of the buffers and with shapes that the descriptor determines.
   */
  lemma {:induction false} PlacedRunsAgree(r: Regime, cap: seq<nat>, b: Buffered, md: Mem, steps: seq<Step>)
    requires Valid(r, b) && RunOk(r, cap, b, steps)
    requires FixedBelow(r, md.next) && FixedSame(r.sym, r.fixed, md, b.cache.mem)
    ensures forall st | st in steps :: |r.sym| == |st.inputs|
    ensures Agrees(r, b, PlacedMoves(r, b, md, steps))
  {
    hide Valid, RunOk, FixedSame, MovesOk, PlacedMoves, Agrees;
    PlacedMovesOk(r, cap, b, md, steps);
    RunsAgree(r, b, md, PlacedMoves(r, b, md, steps));
  }
}
