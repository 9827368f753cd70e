/**
  Wrappers nested in wrappers, such as a FULL wrapper around a model whose pieces are wrapped
  PIECEWISE: who captures and who replays over every run of calls, and what the calls compute.

  The pieces of a model work on one list of arguments and hand each other their results through
  them. Inside a capture a piece is recorded and not executed.
 */
module CudaGraphNesting {
  import opened Wrappers
  import opened CudaGraph
  import opened CudaGraphWrapper

  datatype Callable =
    | Piece(name: nat, runnable: Runnable)
    | Wrapped(id: nat, mode: Mode, body: seq<Callable>)

  datatype Event =
    | Ran(name: nat)
    | CapturedGraph(id: nat, mode: Mode, descriptor: BatchDescriptor)
    | ReplayedGraph(id: nat, mode: Mode, descriptor: BatchDescriptor)

  /** One piece in a captured graph. */
  datatype Recorded = Recorded(runnable: Runnable, graph: Graph)

  /** What a wrapper holds for a descriptor. */
  datatype Tape = Tape(pieces: seq<Recorded>, inputAddresses: seq<nat>)

  /** Memory, the graphs held by all wrappers, the global counter, and what happened so far. */
  datatype System = System(mem: Mem, held: map<(nat, BatchDescriptor), Tape>, captured: nat, log: seq<Event>)

  /**
    One forward pass: its context and arguments, and what goes wrong in it. Whether a wrapper may
    capture and whether a piece raises can be different at every point of the pass.
   */
  datatype Pass = Pass(mode: Mode, descriptor: Option<BatchDescriptor>, args: seq<Arg>, debugging: bool,
                       disabled: (nat, seq<Event>) -> bool, raises: (nat, seq<Event>) -> bool)

  /** The system afterwards, whether the call returned, and what a surrounding capture records of it. */
  datatype Outcome = Outcome(s: System, ok: bool, tape: seq<Recorded>)

  function Replay(pieces: seq<Recorded>, m: Mem): Mem {
    if pieces == [] then m
    else
      var g := pieces[0].graph;
      Replay(pieces[1..], Run(pieces[0].runnable, g.program, g.args, g.base, m))
  }

  function InvokePiece(name: nat, runnable: Runnable, f: Pass, recording: bool, s: System): Outcome {
    if f.raises(name, s.log) then Outcome(s, false, [])
    else
      var p, log := runnable.trace(ShapesOf(f.args)), s.log + [Ran(name)];
      if recording then
        Outcome(s.(mem := s.mem.(next := s.mem.next + p.temps), log := log), true,
                [Recorded(runnable, Graph(p, f.args, s.mem.next))])
      else Outcome(s.(mem := RunFresh(runnable, f.args, s.mem), log := log), true, [])
  }

  /** A wrapper that holds a graph for the descriptor. */
  function InvokeHeld(id: nat, mode: Mode, d: BatchDescriptor, f: Pass, recording: bool, s: System): Outcome
    requires (id, d) in s.held
  {
    var tape, log := s.held[(id, d)], s.log + [ReplayedGraph(id, mode, d)];
    if f.debugging && tape.inputAddresses != Addresses(f.args) then Outcome(s, false, [])
    else if recording then Outcome(s.(log := log), true, tape.pieces)
    else Outcome(s.(mem := Replay(tape.pieces, s.mem), log := log), true, [])
  }

  /** A wrapper's body was recorded: the graph is held. */
  function Hold(id: nat, mode: Mode, d: BatchDescriptor, f: Pass, recording: bool, o: Outcome): Outcome {
    if !o.ok then Outcome(o.s, false, [])
    else
      Outcome(System(o.s.mem, o.s.held[(id, d) := Tape(o.tape, Addresses(f.args))], o.s.captured + 1,
                     o.s.log + [CapturedGraph(id, mode, d)]),
              true, if recording then o.tape else [])
  }

  /** One call of `c`. */
  function Invoke(c: Callable, f: Pass, recording: bool, s: System): Outcome
    decreases c, 0
  {
    match c
    case Piece(name, runnable) => InvokePiece(name, runnable, f, recording, s)
    case Wrapped(id, mode, body) =>
      if f.mode == NONE || f.mode != mode then InvokeAll(body, f, recording, s)
      else if f.descriptor.None? then Outcome(s, false, [])
      else
        var d := f.descriptor.value;
        if (id, d) in s.held then InvokeHeld(id, mode, d, f, recording, s)
        else if f.disabled(id, s.log) then Outcome(s, false, [])
        else Hold(id, mode, d, f, recording, InvokeAll(body, f, true, s))
  }

  function InvokeAll(cs: seq<Callable>, f: Pass, recording: bool, s: System): Outcome
    decreases cs
  {
    if cs == [] then Outcome(s, true, [])
    else
      var o := Invoke(cs[0], f, recording, s);
      if !o.ok then Outcome(o.s, false, [])
      else
        var rest := InvokeAll(cs[1..], f, recording, o.s);
        Outcome(rest.s, rest.ok, if rest.ok then o.tape + rest.tape else [])
  }

  /******* Who acts *******/

  function Ids(c: Callable): set<nat>
    decreases c, 0
  {
    match c
    case Piece(_, _) => {}
    case Wrapped(id, _, body) => {id} + AllIds(body)
  }

  function AllIds(cs: seq<Callable>): set<nat>
    decreases cs
  {
    if cs == [] then {} else Ids(cs[0]) + AllIds(cs[1..])
  }

  /** No wrapper is nested in itself. */
  ghost predicate Nested(c: Callable)
    decreases c, 0
  {
    match c
    case Piece(_, _) => true
    case Wrapped(id, _, body) => id !in AllIds(body) && AllNested(body)
  }

  ghost predicate AllNested(cs: seq<Callable>)
    decreases cs
  {
    cs == [] || (Nested(cs[0]) && AllNested(cs[1..]))
  }

  /** Every capture or replay logged from position n on was made by a wrapper of mode m. */
  ghost predicate OnlyMode(log: seq<Event>, n: nat, m: Mode) {
    forall i | n <= i < |log| :: !log[i].Ran? ==> log[i].mode == m
  }

  /** Only wrappers of the context's mode capture or replay, at any depth of nesting. */
  lemma {:induction false} OnlyContextModeActs(c: Callable, f: Pass, recording: bool, s: System)
    ensures s.log <= Invoke(c, f, recording, s).s.log && OnlyMode(Invoke(c, f, recording, s).s.log, |s.log|, f.mode)
    decreases c, 0
  {
    if c.Wrapped? {
      OnlyContextModeActsAll(c.body, f, recording, s);
      OnlyContextModeActsAll(c.body, f, true, s);
    }
  }

  lemma {:induction false} OnlyContextModeActsAll(cs: seq<Callable>, f: Pass, recording: bool, s: System)
    ensures s.log <= InvokeAll(cs, f, recording, s).s.log && OnlyMode(InvokeAll(cs, f, recording, s).s.log, |s.log|, f.mode)
    decreases cs
  {
    if cs != [] {
      OnlyContextModeActs(cs[0], f, recording, s);
      OnlyContextModeActsAll(cs[1..], f, recording, Invoke(cs[0], f, recording, s).s);
    }
  }

  /** The log, the held graphs and the counter tell one story, in which no graph is captured twice. */
  ghost predicate Consistent(s: System) {
    && (forall i | 0 <= i < |s.log| && s.log[i].CapturedGraph? :: (s.log[i].id, s.log[i].descriptor) in s.held)
    && (forall i, j | 0 <= i < j < |s.log| && s.log[i].CapturedGraph? && s.log[j].CapturedGraph? ::
          (s.log[i].id, s.log[i].descriptor) != (s.log[j].id, s.log[j].descriptor))
    && s.captured == |s.held|
  }

  /** Held graphs stay as they are; new ones are held only inside `ids`, and for the pass's descriptor. */
  ghost predicate GrowsWithin(s: System, s': System, ids: set<nat>, d: Option<BatchDescriptor>) {
    && (forall h | h in s.held :: h in s'.held && s'.held[h] == s.held[h])
    && (forall h | h in s'.held && h !in s.held :: h.0 in ids && d == Some(h.1))
  }

  lemma {:induction false} HoldConsistent(id: nat, mode: Mode, d: BatchDescriptor, f: Pass, recording: bool, s: System, o: Outcome, ids: set<nat>)
    requires Consistent(o.s) && GrowsWithin(s, o.s, ids, Some(d)) && id !in ids && (id, d) !in s.held
    ensures Consistent(Hold(id, mode, d, f, recording, o).s)
    ensures GrowsWithin(s, Hold(id, mode, d, f, recording, o).s, {id} + ids, Some(d))
  {
  }

  lemma {:induction false} GrowsTrans(s: System, s': System, s'': System, ids: set<nat>, ids': set<nat>, d: Option<BatchDescriptor>)
    requires GrowsWithin(s, s', ids, d) && GrowsWithin(s', s'', ids', d)
    ensures GrowsWithin(s, s'', ids + ids', d)
  {
  }

  /** A pass through `c`, wherever it fails, keeps captures unique and the counter right. */
  lemma {:induction false} InvokeConsistent(c: Callable, f: Pass, recording: bool, s: System)
    requires Nested(c) && Consistent(s)
    ensures Consistent(Invoke(c, f, recording, s).s) && GrowsWithin(s, Invoke(c, f, recording, s).s, Ids(c), f.descriptor)
    decreases c, 0
  {
    hide Consistent, GrowsWithin, Hold, InvokePiece, InvokeHeld;
    SilentGrows(s, Ids(c), f.descriptor);
    match c
    case Piece(name, runnable) =>
      PieceConsistent(name, runnable, f, recording, s);
    case Wrapped(id, mode, body) =>
      InvokeAllConsistent(body, f, recording, s);
      InvokeAllConsistent(body, f, true, s);
      Widen(s, InvokeAll(body, f, recording, s).s, AllIds(body), Ids(c), f.descriptor);
      if f.descriptor.Some? {
        if (id, f.descriptor.value) in s.held {
          HeldConsistent(id, mode, f.descriptor.value, f, recording, s, Ids(c));
        } else {
          HoldConsistent(id, mode, f.descriptor.value, f, recording, s, InvokeAll(body, f, true, s), AllIds(body));
        }
      }
  }

  lemma {:induction false} PieceConsistent(name: nat, runnable: Runnable, f: Pass, recording: bool, s: System)
    requires Consistent(s)
    ensures Consistent(InvokePiece(name, runnable, f, recording, s).s)
    ensures GrowsWithin(s, InvokePiece(name, runnable, f, recording, s).s, {}, f.descriptor)
  {
    hide RunFresh;
  }

  lemma {:induction false} Widen(s: System, s': System, ids: set<nat>, ids': set<nat>, d: Option<BatchDescriptor>)
    requires GrowsWithin(s, s', ids, d) && ids <= ids'
    ensures GrowsWithin(s, s', ids', d) && GrowsWithin(s, s, ids', d)
  {
  }

  lemma {:induction false} HeldConsistent(id: nat, mode: Mode, d: BatchDescriptor, f: Pass, recording: bool, s: System, ids: set<nat>)
    requires Consistent(s) && (id, d) in s.held
    ensures Consistent(InvokeHeld(id, mode, d, f, recording, s).s)
    ensures GrowsWithin(s, InvokeHeld(id, mode, d, f, recording, s).s, ids, Some(d))
  {
    hide Replay;
  }

  lemma {:induction false} InvokeAllConsistent(cs: seq<Callable>, f: Pass, recording: bool, s: System)
    requires AllNested(cs) && Consistent(s)
    ensures Consistent(InvokeAll(cs, f, recording, s).s) && GrowsWithin(s, InvokeAll(cs, f, recording, s).s, AllIds(cs), f.descriptor)
    decreases cs
  {
    hide Consistent, GrowsWithin;
    if cs == [] {
      SilentGrows(s, {}, f.descriptor);
    } else {
      InvokeConsistent(cs[0], f, recording, s);
      var s' := Invoke(cs[0], f, recording, s).s;
      Widen(s, s', Ids(cs[0]), AllIds(cs), f.descriptor);
      InvokeAllConsistent(cs[1..], f, recording, s');
      GrowsTrans(s, s', InvokeAll(cs[1..], f, recording, s').s, Ids(cs[0]), AllIds(cs[1..]), f.descriptor);
    }
  }

  lemma {:induction false} SilentGrows(s: System, ids: set<nat>, d: Option<BatchDescriptor>)
    ensures GrowsWithin(s, s, ids, d)
  {
  }

  datatype Forward = Forward(callable: Callable, f: Pass)

  function RunAll(reqs: seq<Forward>, k: nat, s: System): System
    requires k <= |reqs|
  {
    if k == 0 then s else Invoke(reqs[k - 1].callable, reqs[k - 1].f, false, RunAll(reqs, k - 1, s)).s
  }

  /**
    Over every run, from a fresh process, with failures anywhere: each wrapper captures each
    descriptor at most once, and the counter is the number of graphs held.
   */
  lemma {:induction false} RunsConsistent(reqs: seq<Forward>, k: nat, m: Mem)
    requires k <= |reqs| && forall i | 0 <= i < |reqs| :: Nested(reqs[i].callable)
    ensures Consistent(RunAll(reqs, k, System(m, map[], 0, [])))
  {
    if k > 0 {
      RunsConsistent(reqs, k - 1, m);
      InvokeConsistent(reqs[k - 1].callable, reqs[k - 1].f, false, RunAll(reqs, k - 1, System(m, map[], 0, [])));
    }
  }

  /******* One wrapper over one piece is the wrapper of CudaGraphWrapper *******/

  /** The two hold the same graphs, with the same addresses, and agree on memory and counter. */
  ghost predicate Simulates(id: nat, runnable: Runnable, s: System, c: Cache) {
    && s.mem == c.mem && s.captured == c.captured
    && forall d: BatchDescriptor ::
         && ((id, d) in s.held <==> d in c.entries && c.entries[d].graph.Some?)
         && ((id, d) in s.held ==>
               && s.held[(id, d)].pieces == [Recorded(runnable, c.entries[d].graph.value)]
               && c.entries[d].inputAddresses == Some(s.held[(id, d)].inputAddresses))
  }

  /** The pass goes wrong where the attempt of the context says. */
  ghost predicate SameFailures(id: nat, name: nat, f: Pass, ctx: Context, s: System) {
    && (f.disabled(id, s.log) <==> ctx.attempt.CapturingDisabled?)
    && (f.raises(name, s.log) <==>
          && ctx.attempt.RunnableRaises?
          && f.mode == ctx.mode
          && f.descriptor.Some? && (id, f.descriptor.value) !in s.held)
  }

  lemma {:induction false} OnePiece(name: nat, runnable: Runnable, f: Pass, recording: bool, s: System)
    ensures InvokeAll([Piece(name, runnable)], f, recording, s) == InvokePiece(name, runnable, f, recording, s)
  {
    var cs, o := [Piece(name, runnable)], InvokePiece(name, runnable, f, recording, s);
    assert InvokeAll(cs[1..], f, recording, o.s) == Outcome(o.s, true, []);
    assert o.tape + [] == o.tape;
  }

  /** Replaying one recorded piece. */
  lemma {:induction false} ReplayOne(piece: Recorded, m: Mem)
    ensures Replay([piece], m) == Run(piece.runnable, piece.graph.program, piece.graph.args, piece.graph.base, m)
  {
    var g := piece.graph;
    var n := Run(piece.runnable, g.program, g.args, g.base, m);
    assert Replay([piece][1..], n) == n;
  }

  lemma {:induction false} InvokeIsCall(cfg: Config, id: nat, name: nat, f: Pass, ctx: Context, s: System, c: Cache)
    requires Simulates(id, cfg.runnable, s, c) && f.mode == ctx.mode && f.descriptor == ctx.descriptor && f.debugging == cfg.debugging
    requires ctx.mode == cfg.mode && ctx.mode != NONE ==> SameFailures(id, name, f, ctx, s)
    requires !(ctx.mode == cfg.mode && ctx.mode != NONE) ==> !f.raises(name, s.log)
    ensures var o := Invoke(Wrapped(id, cfg.mode, [Piece(name, cfg.runnable)]), f, false, s);
            var (c', reply) := Call(cfg, ctx, f.args, c);
            Simulates(id, cfg.runnable, o.s, c') && (o.ok <==> reply.Ok?)
  {
    hide Run, Exec, Replay, RunFresh, Simulates;
    OnePiece(name, cfg.runnable, f, false, s);
    OnePiece(name, cfg.runnable, f, true, s);
    if ctx.mode == NONE || ctx.mode != cfg.mode {
      PassSimulates(cfg, id, name, f, ctx, s, c);
    } else if ctx.descriptor.Some? {
      var d := ctx.descriptor.value;
      HeldIff(id, cfg.runnable, s, c, d);
      if (id, d) in s.held {
        HeldSimulates(cfg, id, f, ctx, s, c, d);
      } else {
        CaptureSimulates(cfg, id, name, f, ctx, s, c, d);
      }
    }
  }

  lemma {:induction false} HeldIff(id: nat, runnable: Runnable, s: System, c: Cache, d: BatchDescriptor)
    requires Simulates(id, runnable, s, c)
    ensures (id, d) in s.held <==> d in c.entries && c.entries[d].graph.Some?
  {
  }

  lemma {:induction false} PassSimulates(cfg: Config, id: nat, name: nat, f: Pass, ctx: Context, s: System, c: Cache)
    requires Simulates(id, cfg.runnable, s, c) && (ctx.mode == NONE || ctx.mode != cfg.mode) && !f.raises(name, s.log)
    ensures var o := InvokePiece(name, cfg.runnable, f, false, s);
            var (c', reply) := Call(cfg, ctx, f.args, c);
            Simulates(id, cfg.runnable, o.s, c') && o.ok && reply.Ok?
  {
    hide RunFresh;
  }

  lemma {:induction false} HeldSimulates(cfg: Config, id: nat, f: Pass, ctx: Context, s: System, c: Cache, d: BatchDescriptor)
    requires Simulates(id, cfg.runnable, s, c) && (id, d) in s.held && f.debugging == cfg.debugging
    requires ctx.mode == cfg.mode && ctx.mode != NONE && ctx.descriptor == Some(d)
    ensures var o := InvokeHeld(id, cfg.mode, d, f, false, s);
            var (c', reply) := Call(cfg, ctx, f.args, c);
            Simulates(id, cfg.runnable, o.s, c') && (o.ok <==> reply.Ok?)
  {
    hide Replay, Run;
    ReplayOne(s.held[(id, d)].pieces[0], s.mem);
  }

  lemma {:induction false} CaptureSimulates(cfg: Config, id: nat, name: nat, f: Pass, ctx: Context, s: System, c: Cache, d: BatchDescriptor)
    requires Simulates(id, cfg.runnable, s, c) && (id, d) !in s.held
    requires ctx.mode == cfg.mode == f.mode && ctx.mode != NONE && ctx.descriptor == f.descriptor == Some(d)
    requires SameFailures(id, name, f, ctx, s)
    ensures var o := if f.disabled(id, s.log) then Outcome(s, false, [])
                     else Hold(id, cfg.mode, d, f, false, InvokePiece(name, cfg.runnable, f, true, s));
            var (c', reply) := Call(cfg, ctx, f.args, c);
            Simulates(id, cfg.runnable, o.s, c') && (o.ok <==> reply.Ok?)
  {
    hide Run, RunFresh;
  }
}
