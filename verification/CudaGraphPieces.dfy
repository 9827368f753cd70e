/**
  What nested wrappers compute: in every reachable state, a forward pass that captures nothing
  leaves in its arguments exactly what running all the pieces eagerly leaves, whichever of the
  nested wrappers replayed.
 */
module CudaGraphPieces {
  import opened Wrappers
  import opened CudaGraph
  import opened CudaGraphWrapper
  import opened CudaGraphNesting

  /** The pieces of a callable, in order. */
  function Flatten(c: Callable): seq<Runnable>
    decreases c, 0
  {
    match c
    case Piece(_, runnable) => [runnable]
    case Wrapped(_, _, body) => FlattenAll(body)
  }

  function FlattenAll(cs: seq<Callable>): seq<Runnable>
    decreases cs
  {
    if cs == [] then [] else Flatten(cs[0]) + FlattenAll(cs[1..])
  }

  /** All pieces run eagerly, one after another. */
  function RunEagerly(rs: seq<Runnable>, args: seq<Arg>, m: Mem): Mem {
    if rs == [] then m else RunEagerly(rs[1..], args, RunFresh(rs[0], args, m))
  }

  /******* What is promised of the passes *******/

  /** A descriptor determines the arguments, all below `limit`; an id determines the wrapped body. */
  datatype Setting = Setting(args: BatchDescriptor -> seq<Arg>, bodies: nat -> seq<Callable>, limit: nat)

  ghost predicate PassOk(w: Setting, f: Pass) {
    ArgsBelow(f.args, w.limit) && (f.mode != NONE && f.descriptor.Some? ==> f.args == w.args(f.descriptor.value))
  }

  ghost predicate Registered(w: Setting, c: Callable)
    decreases c, 0
  {
    match c
    case Piece(_, _) => true
    case Wrapped(id, _, body) => body == w.bodies(id) && AllRegistered(w, body)
  }

  ghost predicate AllRegistered(w: Setting, cs: seq<Callable>)
    decreases cs
  {
    cs == [] || (Registered(w, cs[0]) && AllRegistered(w, cs[1..]))
  }

  ghost predicate PiecesOk(rs: seq<Runnable>, args: seq<Arg>) {
    forall i | 0 <= i < |rs| :: ProgramOk(rs[i].trace(ShapesOf(args)), ShapesOf(args))
  }

  /******* What every pass keeps *******/

  ghost predicate RecordedOk(r: Runnable, args: seq<Arg>, limit: nat, next: nat, p: Recorded) {
    && p.runnable == r && p.graph.program == r.trace(ShapesOf(args)) && p.graph.args == args
    && limit <= p.graph.base && p.graph.base + p.graph.program.temps <= next
  }

  /** The tape records these pieces on these arguments, with temporaries of its own. */
  ghost predicate TapeOk(rs: seq<Runnable>, args: seq<Arg>, limit: nat, next: nat, tape: seq<Recorded>) {
    |tape| == |rs| && forall i | 0 <= i < |rs| :: RecordedOk(rs[i], args, limit, next, tape[i])
  }

  ghost predicate Inv(w: Setting, s: System) {
    && w.limit <= s.mem.next
    && forall h | h in s.held ::
         && TapeOk(FlattenAll(w.bodies(h.0)), w.args(h.1), w.limit, s.mem.next, s.held[h].pieces)
         && s.held[h].inputAddresses == Addresses(w.args(h.1))
  }

  lemma {:induction false} TapeGrows(rs: seq<Runnable>, args: seq<Arg>, limit: nat, next: nat, next': nat, tape: seq<Recorded>)
    requires TapeOk(rs, args, limit, next, tape) && next <= next'
    ensures TapeOk(rs, args, limit, next', tape)
  {
    forall i | 0 <= i < |rs|
      ensures RecordedOk(rs[i], args, limit, next', tape[i])
    {
      assert RecordedOk(rs[i], args, limit, next, tape[i]);
    }
  }

  lemma {:induction false} TapeConcat(rs: seq<Runnable>, rs': seq<Runnable>, args: seq<Arg>, limit: nat, next: nat, tape: seq<Recorded>, tape': seq<Recorded>)
    requires TapeOk(rs, args, limit, next, tape) && TapeOk(rs', args, limit, next, tape')
    ensures TapeOk(rs + rs', args, limit, next, tape + tape')
  {
  }

  lemma {:induction false} InvGrows(w: Setting, s: System, mem: Mem, captured: nat, log: seq<Event>)
    requires Inv(w, s) && s.mem.next <= mem.next
    ensures Inv(w, System(mem, s.held, captured, log))
  {
    hide TapeOk;
    forall h | h in s.held
      ensures TapeOk(FlattenAll(w.bodies(h.0)), w.args(h.1), w.limit, mem.next, s.held[h].pieces)
    {
      TapeGrows(FlattenAll(w.bodies(h.0)), w.args(h.1), w.limit, s.mem.next, mem.next, s.held[h].pieces);
    }
  }

  lemma {:induction false} FreshNext(r: Runnable, args: seq<Arg>, m: Mem)
    ensures RunFresh(r, args, m).next >= m.next
  {
    var p := r.trace(ShapesOf(args));
    ExecNext(r, p, args, m.next, |p.launches|, m.(next := m.next + p.temps));
  }

  lemma {:induction false} ReplayNext(pieces: seq<Recorded>, m: Mem)
    ensures Replay(pieces, m).next == m.next
  {
    hide Exec;
    if pieces != [] {
      var g := pieces[0].graph;
      ExecNext(pieces[0].runnable, g.program, g.args, g.base, |g.program.launches|, m);
      ReplayNext(pieces[1..], Run(pieces[0].runnable, g.program, g.args, g.base, m));
    }
  }

  /** The call keeps the invariant, and a surrounding capture records exactly its pieces. */
  ghost predicate Kept(w: Setting, rs: seq<Runnable>, f: Pass, recording: bool, s: System, o: Outcome) {
    && Inv(w, o.s) && s.mem.next <= o.s.mem.next && s.captured <= o.s.captured
    && (recording ==> o.s.mem.store == s.mem.store)
    && (recording && o.ok ==> TapeOk(rs, f.args, w.limit, o.s.mem.next, o.tape))
  }

  lemma {:induction false} PieceKept(w: Setting, name: nat, runnable: Runnable, f: Pass, recording: bool, s: System)
    requires Inv(w, s) && PassOk(w, f)
    ensures Kept(w, [runnable], f, recording, s, InvokePiece(name, runnable, f, recording, s))
  {
    hide RunFresh, Inv;
    assert w.limit <= s.mem.next by { InvLimit(w, s); }
    var p := runnable.trace(ShapesOf(f.args));
    FreshNext(runnable, f.args, s.mem);
    InvGrows(w, s, RunFresh(runnable, f.args, s.mem), s.captured, s.log + [Ran(name)]);
    InvGrows(w, s, s.mem.(next := s.mem.next + p.temps), s.captured, s.log + [Ran(name)]);
  }

  lemma {:induction false} InvLimit(w: Setting, s: System)
    requires Inv(w, s)
    ensures w.limit <= s.mem.next
  {
  }

  lemma {:induction false} HeldTape(w: Setting, s: System, id: nat, d: BatchDescriptor)
    requires Inv(w, s) && (id, d) in s.held
    ensures TapeOk(FlattenAll(w.bodies(id)), w.args(d), w.limit, s.mem.next, s.held[(id, d)].pieces)
    ensures s.held[(id, d)].inputAddresses == Addresses(w.args(d))
  {
  }

  lemma {:induction false} HeldKept(w: Setting, id: nat, mode: Mode, d: BatchDescriptor, f: Pass, recording: bool, s: System)
    requires Inv(w, s) && (id, d) in s.held && f.args == w.args(d)
    ensures Kept(w, FlattenAll(w.bodies(id)), f, recording, s, InvokeHeld(id, mode, d, f, recording, s))
    // the recorded addresses never differ
    ensures InvokeHeld(id, mode, d, f, recording, s).ok
  {
    hide Inv, TapeOk, Replay;
    HeldTape(w, s, id, d);
    ReplayNext(s.held[(id, d)].pieces, s.mem);
    InvGrows(w, s, Replay(s.held[(id, d)].pieces, s.mem), s.captured, s.log + [ReplayedGraph(id, mode, d)]);
    InvGrows(w, s, s.mem, s.captured, s.log + [ReplayedGraph(id, mode, d)]);
  }

  lemma {:induction false} HoldKept(w: Setting, id: nat, mode: Mode, d: BatchDescriptor, f: Pass, recording: bool, s: System, o: Outcome)
    requires Kept(w, FlattenAll(w.bodies(id)), f, true, s, o) && f.args == w.args(d)
    ensures Kept(w, FlattenAll(w.bodies(id)), f, recording, s, Hold(id, mode, d, f, recording, o))
    ensures Hold(id, mode, d, f, recording, o).ok ==> Hold(id, mode, d, f, recording, o).s.captured > s.captured
  {
    hide TapeOk;
  }

  lemma {:induction false} InvokeKept(w: Setting, c: Callable, f: Pass, recording: bool, s: System)
    requires Inv(w, s) && PassOk(w, f) && Registered(w, c)
    ensures Kept(w, Flatten(c), f, recording, s, Invoke(c, f, recording, s))
    decreases c, 0
  {
    hide Kept, Inv, Hold, InvokePiece, InvokeHeld;
    FailKept(w, Flatten(c), f, recording, s);
    match c
    case Piece(name, runnable) =>
      PieceKept(w, name, runnable, f, recording, s);
    case Wrapped(id, mode, body) =>
      InvokeAllKept(w, body, f, recording, s);
      InvokeAllKept(w, body, f, true, s);
      if f.mode == mode && f.mode != NONE && f.descriptor.Some? {
        var d := f.descriptor.value;
        if (id, d) in s.held {
          HeldKept(w, id, mode, d, f, recording, s);
        } else {
          HoldKept(w, id, mode, d, f, recording, s, InvokeAll(body, f, true, s));
        }
      }
  }

  lemma {:induction false} FailKept(w: Setting, rs: seq<Runnable>, f: Pass, recording: bool, s: System)
    requires Inv(w, s)
    ensures Kept(w, rs, f, recording, s, Outcome(s, false, []))
  {
  }

  lemma {:induction false} InvokeAllKept(w: Setting, cs: seq<Callable>, f: Pass, recording: bool, s: System)
    requires Inv(w, s) && PassOk(w, f) && AllRegistered(w, cs)
    ensures Kept(w, FlattenAll(cs), f, recording, s, InvokeAll(cs, f, recording, s))
    decreases cs
  {
    hide Inv, PassOk, TapeOk;
    if cs == [] {
      EmptyTape(f.args, w.limit, s.mem.next);
    } else {
      InvokeKept(w, cs[0], f, recording, s);
      var o := Invoke(cs[0], f, recording, s);
      if o.ok {
        InvokeAllKept(w, cs[1..], f, recording, o.s);
        var rest := InvokeAll(cs[1..], f, recording, o.s);
        if recording && rest.ok {
          TapeGrows(Flatten(cs[0]), f.args, w.limit, o.s.mem.next, rest.s.mem.next, o.tape);
          TapeConcat(Flatten(cs[0]), FlattenAll(cs[1..]), f.args, w.limit, rest.s.mem.next, o.tape, rest.tape);
        }
      }
    }
  }

  lemma {:induction false} EmptyTape(args: seq<Arg>, limit: nat, next: nat)
    ensures TapeOk([], args, limit, next, [])
  {
  }

  /******* What a pass computes *******/

  /** Every argument's storage holds the same in both memories. */
  ghost predicate SameContents(args: seq<Arg>, m: Mem, m': Mem) {
    SameArgs({}, args, m, args, m')
  }

  /** One piece under two choices of temporaries. */
  lemma {:induction false} PieceMatches(r: Runnable, args: seq<Arg>, base: nat, m: Mem, base': nat, m': Mem, limit: nat)
    requires var p := r.trace(ShapesOf(args)); ProgramOk(p, ShapesOf(args))
    requires ArgsBelow(args, limit) && limit <= base && limit <= base' && SameContents(args, m, m')
    ensures var p := r.trace(ShapesOf(args));
            SameContents(args, Run(r, p, args, base, m), Run(r, p, args, base', m'))
  {
    hide ProgramOk, Run, SameArgs;
    var p := r.trace(ShapesOf(args));
    NoSymbolicClash(p, args);
    RunSame(r, p, {}, args, base, m, args, base', m');
  }

  lemma {:induction false} NoSymbolicClash(p: Program, args: seq<Arg>)
    ensures NoAlias(p, {}, args)
  {
  }

  lemma {:induction false} SameContentsNext(args: seq<Arg>, m: Mem, m': Mem, n: Mem, n': Mem)
    requires SameContents(args, m, m') && m.store == n.store && m'.store == n'.store
    ensures SameContents(args, n, n')
  {
    forall i | 0 <= i < |args|
      ensures SameArg({}, i, args[i], n, args[i], n')
    {
      assert SameArg({}, i, args[i], m, args[i], m');
    }
  }

  lemma {:induction false} FreshMatches(r: Runnable, args: seq<Arg>, m: Mem, m': Mem, limit: nat)
    requires ProgramOk(r.trace(ShapesOf(args)), ShapesOf(args)) && ArgsBelow(args, limit) && limit <= m.next && limit <= m'.next
    requires SameContents(args, m, m')
    ensures SameContents(args, RunFresh(r, args, m), RunFresh(r, args, m'))
  {
    hide ProgramOk, SameContents, Run;
    var temps := r.trace(ShapesOf(args)).temps;
    var n, n' := m.(next := m.next + temps), m'.(next := m'.next + temps);
    SameContentsNext(args, m, m', n, n');
    PieceMatches(r, args, m.next, n, m'.next, n', limit);
  }

  /** A replayed tape leaves what running its pieces eagerly leaves. */
  lemma {:induction false} ReplayMatches(rs: seq<Runnable>, args: seq<Arg>, limit: nat, next: nat, tape: seq<Recorded>, md: Mem, m: Mem)
    requires TapeOk(rs, args, limit, next, tape) && PiecesOk(rs, args) && ArgsBelow(args, limit) && limit <= md.next
    requires SameContents(args, md, m)
    ensures SameContents(args, RunEagerly(rs, args, md), Replay(tape, m))
    decreases |rs|
  {
    hide ProgramOk, SameContents, Run;
    if rs != [] {
      assert RecordedOk(rs[0], args, limit, next, tape[0]);
      assert ProgramOk(rs[0].trace(ShapesOf(args)), ShapesOf(args));
      var p := rs[0].trace(ShapesOf(args));
      var n := md.(next := md.next + p.temps);
      SameContentsNext(args, md, m, n, m);
      PieceMatches(rs[0], args, md.next, n, tape[0].graph.base, m, limit);
      FreshNext(rs[0], args, md);
      TapeTail(rs, args, limit, next, tape);
      ReplayMatches(rs[1..], args, limit, next, tape[1..], RunFresh(rs[0], args, md),
                    Run(rs[0], p, args, tape[0].graph.base, m));
    }
  }

  lemma {:induction false} TapeTail(rs: seq<Runnable>, args: seq<Arg>, limit: nat, next: nat, tape: seq<Recorded>)
    requires TapeOk(rs, args, limit, next, tape) && PiecesOk(rs, args) && rs != []
    ensures TapeOk(rs[1..], args, limit, next, tape[1..]) && PiecesOk(rs[1..], args)
  {
    forall i | 0 <= i < |rs[1..]|
      ensures RecordedOk(rs[1..][i], args, limit, next, tape[1..][i])
    {
      assert RecordedOk(rs[i + 1], args, limit, next, tape[i + 1]);
    }
  }

  lemma {:induction false} EagerConcat(rs: seq<Runnable>, rs': seq<Runnable>, args: seq<Arg>, m: Mem)
    ensures RunEagerly(rs + rs', args, m) == RunEagerly(rs', args, RunEagerly(rs, args, m))
    decreases |rs|
  {
    hide RunFresh;
    if rs == [] {
      assert rs + rs' == rs';
    } else {
      assert (rs + rs')[1..] == rs[1..] + rs';
      EagerConcat(rs[1..], rs', args, RunFresh(rs[0], args, m));
    }
  }

  lemma {:induction false} EagerNext(rs: seq<Runnable>, args: seq<Arg>, m: Mem)
    ensures RunEagerly(rs, args, m).next >= m.next
    decreases |rs|
  {
    hide RunFresh;
    if rs != [] {
      FreshNext(rs[0], args, m);
      EagerNext(rs[1..], args, RunFresh(rs[0], args, m));
    }
  }

  /** The outcome captured nothing and returned. */
  ghost predicate Executed(s: System, o: Outcome) {
    o.ok && o.s.captured == s.captured
  }

  lemma {:induction false} PieceInvokeMatches(w: Setting, name: nat, runnable: Runnable, f: Pass, s: System, md: Mem)
    requires Inv(w, s) && PassOk(w, f) && PiecesOk([runnable], f.args) && w.limit <= md.next && SameContents(f.args, md, s.mem)
    ensures var o := InvokePiece(name, runnable, f, false, s);
            o.ok ==> SameContents(f.args, RunEagerly([runnable], f.args, md), o.s.mem)
  {
    hide SameContents, RunFresh;
    assert ProgramOk([runnable][0].trace(ShapesOf(f.args)), ShapesOf(f.args));
    FreshMatches(runnable, f.args, md, s.mem, w.limit);
    var n := RunFresh(runnable, f.args, md);
    assert RunEagerly([runnable][1..], f.args, n) == n;
  }

  /**
    In a state that keeps the invariant, a pass through `c` that returns and captures nothing
    leaves in the arguments what the pieces, run eagerly from the same contents, leave.
   */
  lemma {:induction false} InvokeMatches(w: Setting, c: Callable, f: Pass, s: System, md: Mem)
    requires Inv(w, s) && PassOk(w, f) && Registered(w, c) && PiecesOk(Flatten(c), f.args)
    requires w.limit <= md.next && SameContents(f.args, md, s.mem)
    ensures Executed(s, Invoke(c, f, false, s)) ==>
              SameContents(f.args, RunEagerly(Flatten(c), f.args, md), Invoke(c, f, false, s).s.mem)
    decreases c, 0
  {
    hide Inv, SameContents, RunEagerly, Replay, InvokePiece, Hold, PiecesOk;
    match c
    case Piece(name, runnable) =>
      PieceInvokeMatches(w, name, runnable, f, s, md);
    case Wrapped(id, mode, body) =>
      InvokeAllMatches(w, body, f, s, md);
      if f.mode == mode && f.mode != NONE && f.descriptor.Some? {
        var d := f.descriptor.value;
        if (id, d) in s.held {
          HeldTape(w, s, id, d);
          ReplayMatches(FlattenAll(body), f.args, w.limit, s.mem.next, s.held[(id, d)].pieces, md, s.mem);
        } else {
          InvokeAllKept(w, body, f, true, s);
          HoldKept(w, id, mode, d, f, false, s, InvokeAll(body, f, true, s));
        }
      }
  }

  lemma {:induction false} InvokeAllMatches(w: Setting, cs: seq<Callable>, f: Pass, s: System, md: Mem)
    requires Inv(w, s) && PassOk(w, f) && AllRegistered(w, cs) && PiecesOk(FlattenAll(cs), f.args)
    requires w.limit <= md.next && SameContents(f.args, md, s.mem)
    ensures Executed(s, InvokeAll(cs, f, false, s)) ==>
              SameContents(f.args, RunEagerly(FlattenAll(cs), f.args, md), InvokeAll(cs, f, false, s).s.mem)
    decreases cs
  {
    hide Inv, SameContents, PassOk, TapeOk, PiecesOk;
    if cs != [] {
      var o := Invoke(cs[0], f, false, s);
      var md' := RunEagerly(Flatten(cs[0]), f.args, md);
      PiecesSplit(Flatten(cs[0]), FlattenAll(cs[1..]), f.args);
      InvokeKept(w, cs[0], f, false, s);
      InvokeMatches(w, cs[0], f, s, md);
      if o.ok && Executed(s, InvokeAll(cs, f, false, s)) {
        InvokeAllKept(w, cs[1..], f, false, o.s);
        EagerNext(Flatten(cs[0]), f.args, md);
        InvokeAllMatches(w, cs[1..], f, o.s, md');
        EagerConcat(Flatten(cs[0]), FlattenAll(cs[1..]), f.args, md);
      }
    }
  }

  lemma {:induction false} PiecesSplit(rs: seq<Runnable>, rs': seq<Runnable>, args: seq<Arg>)
    requires PiecesOk(rs + rs', args)
    ensures PiecesOk(rs, args) && PiecesOk(rs', args)
  {
    forall i | 0 <= i < |rs|
      ensures ProgramOk(rs[i].trace(ShapesOf(args)), ShapesOf(args))
    {
      assert (rs + rs')[i] == rs[i];
    }
    forall i | 0 <= i < |rs'|
      ensures ProgramOk(rs'[i].trace(ShapesOf(args)), ShapesOf(args))
    {
      assert (rs + rs')[|rs| + i] == rs'[i];
    }
  }

  /******* Whole runs *******/

  ghost predicate RequestsOk(w: Setting, reqs: seq<Forward>) {
    forall i | 0 <= i < |reqs| ::
      Registered(w, reqs[i].callable) && PassOk(w, reqs[i].f) && PiecesOk(Flatten(reqs[i].callable), reqs[i].f.args)
  }

  lemma {:induction false} RunsKeepInv(w: Setting, reqs: seq<Forward>, k: nat, s: System)
    requires k <= |reqs| && RequestsOk(w, reqs) && Inv(w, s)
    ensures Inv(w, RunAll(reqs, k, s))
  {
    if k > 0 {
      RunsKeepInv(w, reqs, k - 1, s);
      InvokeKept(w, reqs[k - 1].callable, reqs[k - 1].f, false, RunAll(reqs, k - 1, s));
    }
  }

  /**
    Over every run of passes with changing modes, descriptors and failures, through wrappers
    nested to any depth: each pass that returns and captures nothing leaves in its arguments what
    running all its pieces eagerly, from any memory with the same contents, leaves.
   */
  lemma {:induction false} NestedRunsMatch(w: Setting, reqs: seq<Forward>, k: nat, m: Mem, md: Mem)
    requires k < |reqs| && RequestsOk(w, reqs) && w.limit <= m.next && w.limit <= md.next
    requires SameContents(reqs[k].f.args, md, RunAll(reqs, k, System(m, map[], 0, [])).mem)
    ensures var before, after := RunAll(reqs, k, System(m, map[], 0, [])), RunAll(reqs, k + 1, System(m, map[], 0, []));
            Invoke(reqs[k].callable, reqs[k].f, false, before).ok && after.captured == before.captured ==>
              SameContents(reqs[k].f.args, RunEagerly(Flatten(reqs[k].callable), reqs[k].f.args, md), after.mem)
  {
    hide SameContents, RunEagerly, PiecesOk, Registered, PassOk;
    RunsKeepInv(w, reqs, k, System(m, map[], 0, []));
    InvokeMatches(w, reqs[k].callable, reqs[k].f, RunAll(reqs, k, System(m, map[], 0, [])), md);
  }
}
