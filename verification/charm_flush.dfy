// The particle exchange: every PE flushes its particles, leaf by leaf, to the home
// PEs of the new TreePieces, and starts on the step's tree once the counts of the
// range broadcast say that all of its own have arrived.
module ParticleExchange {
  import opened TreeKeys
  import opened Decomposition
  import opened TreeBuild
  import opened Histogram

  datatype Message = Ranges(dest: nat) | Parts(dest: nat, payload: seq<Particle>)

  function Min(a: nat, b: nat): nat {
    if a < b then a else b
  }

  // ---------------- messages of at most cap particles ----------------

  function Chunks(s: seq<Particle>, cap: nat): seq<seq<Particle>>
    requires cap > 0
  {
    if s == [] then [] else [s[..Min(cap, |s|)]] + Chunks(s[Min(cap, |s|)..], cap)
  }

  lemma {:induction false} ChunksWhole(s: seq<Particle>, cap: nat)
    requires cap > 0
    ensures Joined(Chunks(s, cap)) == s
    ensures forall m :: m in Chunks(s, cap) ==> 0 < |m| <= cap
  {
    if s != [] {
      var k := Min(cap, |s|);
      ChunksWhole(s[k..], cap);
      JoinedConcat([s[..k]], Chunks(s[k..], cap));
      JoinOne(s[..k]);
      assert s == s[..k] + s[k..];
    }
  }

  lemma {:induction false} JoinedConcat(a: seq<seq<Particle>>, b: seq<seq<Particle>>)
    ensures Joined(a + b) == Joined(a) + Joined(b)
  {
    if b == [] {
      assert a + b == a;
    } else {
      assert (a + b)[..|a + b| - 1] == a + b[..|b| - 1];
      JoinedConcat(a, b[..|b| - 1]);
    }
  }

  // What is left of the runs from `done` particles into run `run` on.
  function Rest(runs: seq<seq<Particle>>, run: nat, done: nat): seq<Particle>
    requires run <= |runs| && (if run < |runs| then done <= |runs[run]| else done == 0)
  {
    if run == |runs| then [] else runs[run][done..] + Joined(runs[run + 1..])
  }

  lemma RestNext(runs: seq<seq<Particle>>, run: nat)
    requires run < |runs|
    ensures Rest(runs, run, |runs[run]|) == Rest(runs, run + 1, 0)
    ensures Joined(runs[run..]) == Rest(runs, run, 0)
  {
    JoinedConcat([runs[run]], runs[run + 1..]);
    JoinOne(runs[run]);
    assert runs[run..] == [runs[run]] + runs[run + 1..];
    if run + 1 < |runs| {
      JoinedConcat([runs[run + 1]], runs[run + 2..]);
      JoinOne(runs[run + 1]);
      assert runs[run + 1..] == [runs[run + 1]] + runs[run + 2..];
    }
  }

  function LeftFrom(runs: seq<seq<Particle>>, i: nat): nat
    requires i <= |runs|
  {
    |Joined(runs[i..])|
  }

  lemma LeftSteps(runs: seq<seq<Particle>>, i: nat)
    requires i < |runs|
    ensures LeftFrom(runs, i) == |runs[i]| + LeftFrom(runs, i + 1)
  {
    RestNext(runs, i);
  }

  lemma LeftEnds(runs: seq<seq<Particle>>)
    ensures LeftFrom(runs, |runs|) == 0
  {
  }

  lemma RestSize(runs: seq<seq<Particle>>, run: nat, done: nat)
    requires run < |runs| && done <= |runs[run]|
    ensures |Rest(runs, run, done)| == LeftFrom(runs, run) - done
  {
    LeftSteps(runs, run);
  }

  // The size of the next message: the runs' total, or the cap if they exceed it.
  method NextTotal(runs: seq<seq<Particle>>, run: nat, done: nat, cap: nat) returns (total: nat)
    requires run < |runs| && done <= |runs[run]| && cap > 0
    ensures total == Min(cap, |Rest(runs, run, done)|)
  {
    hide LeftFrom, Rest;
    total := 0;
    var i := run;
    RestSize(runs, run, done);
    LeftEnds(runs);
    while i < |runs| && total < cap
      invariant run <= i <= |runs|
      invariant total + LeftFrom(runs, i) == |Rest(runs, run, done)| + if i == run then done else 0
    {
      LeftSteps(runs, i);
      total := total + |runs[i]| - (if i == run then done else 0);
      i := i + 1;
    }
    total := Min(total, cap);
  }

  // A place in the runs: particle `done` of run `run`, or past the last run.
  predicate At(runs: seq<seq<Particle>>, run: nat, done: nat) {
    run <= |runs| && if run < |runs| then done < |runs[run]| else done == 0
  }

  ghost predicate RunsNonempty(runs: seq<seq<Particle>>) {
    forall i :: 0 <= i < |runs| ==> runs[i] != []
  }

  lemma RestTake(runs: seq<seq<Particle>>, run: nat, done: nat, n: nat)
    requires run < |runs| && done + n <= |runs[run]|
    ensures Rest(runs, run, done) == runs[run][done..done + n] + Rest(runs, run, done + n)
    ensures done + n == |runs[run]| ==> Rest(runs, run, done + n) == Rest(runs, run + 1, 0)
  {
    hide Joined;
    RestNext(runs, run);
    assert runs[run][done..] == runs[run][done..done + n] + runs[run][done + n..];
  }

  // Copy the next total particles out of the runs.
  method FillMessage(runs: seq<seq<Particle>>, run0: nat, done0: nat, total: nat)
    returns (part: seq<Particle>, run: nat, done: nat)
    requires RunsNonempty(runs) && At(runs, run0, done0) && total <= |Rest(runs, run0, done0)|
    ensures At(runs, run, done) && |part| == total && part + Rest(runs, run, done) == Rest(runs, run0, done0)
  {
    hide Joined, Rest;
    part, run, done := [], run0, done0;
    var left := total;
    while left > 0
      invariant At(runs, run, done) && 0 <= left <= total && |part| == total - left
      invariant part + Rest(runs, run, done) == Rest(runs, run0, done0)
    {
      assert left <= |Rest(runs, run, done)|;
      RestLeft(runs, run, done);
      var n := Min(left, |runs[run]| - done);
      RestTake(runs, run, done, n);
      part := part + runs[run][done..done + n];
      left, done := left - n, done + n;
      if done == |runs[run]| {
        run, done := run + 1, 0;
      }
    }
  }

  // emitFlushRun.  The runs are never empty.
  method EmitFlushRun(runs: seq<seq<Particle>>, cap: nat) returns (msgs: seq<seq<Particle>>)
    requires cap > 0 && RunsNonempty(runs)
    ensures msgs == Chunks(Joined(runs), cap)
  {
    hide Joined, Rest, Chunks, RunsNonempty;
    msgs := [];
    var run: nat, done: nat := 0, 0;
    WholeRest(runs);
    while run < |runs|
      invariant At(runs, run, done)
      invariant Chunks(Joined(runs), cap) == msgs + Chunks(Rest(runs, run, done), cap)
      decreases |Rest(runs, run, done)|
    {
      ghost var rest := Rest(runs, run, done);
      var total := NextTotal(runs, run, done, cap);
      var part, run', done' := FillMessage(runs, run, done, total);
      RestLeft(runs, run, done);
      ChunksStep(rest, cap, part, Rest(runs, run', done'));
      msgs := msgs + [part];
      run, done := run', done';
    }
    AllSent(runs, cap);
  }

  lemma AllSent(runs: seq<seq<Particle>>, cap: nat)
    requires cap > 0
    ensures Chunks(Rest(runs, |runs|, 0), cap) == []
  {
  }

  lemma RestLeft(runs: seq<seq<Particle>>, run: nat, done: nat)
    requires At(runs, run, done)
    ensures Rest(runs, run, done) != [] <==> run < |runs|
  {
  }

  lemma ChunksStep(rest: seq<Particle>, cap: nat, part: seq<Particle>, rest': seq<Particle>)
    requires cap > 0 && rest != [] && rest == part + rest' && |part| == Min(cap, |rest|)
    ensures part != [] && Chunks(rest, cap) == [part] + Chunks(rest', cap)
  {
    assert part == rest[..|part|] && rest' == rest[|part|..];
  }

  lemma WholeRest(runs: seq<seq<Particle>>)
    requires RunsNonempty(runs)
    ensures At(runs, 0, 0) && Rest(runs, 0, 0) == Joined(runs)
  {
    assert runs[0..] == runs;
    if runs != [] { RestNext(runs, 0); }
  }

  // ---------------- flushing a PE ----------------

  ghost predicate Shallow(qs: seq<Piece>) {
    forall i :: 0 <= i < |qs| ==> ValidCell(qs[i].cell)
  }

  function Addressed(dest: nat, msgs: seq<seq<Particle>>): seq<Message> {
    seq(|msgs|, i requires 0 <= i < |msgs| => Parts(dest, msgs[i]))
  }

  function Send(dest: int, run: seq<Particle>, cap: nat): seq<Message>
    requires cap > 0 && (run != [] ==> dest >= 0)
  {
    if run == [] then [] else Addressed(dest, Chunks(run, cap))
  }

  // The messages for the leaves qs, after a run for dest has been started.
  function Flushed(ps: seq<Particle>, qs: seq<Piece>, cap: nat, dest: int, run: seq<Particle>): seq<Message>
    requires Shallow(qs) && cap > 0 && (run != [] ==> dest >= 0)
    decreases |qs|
  {
    if qs == [] then Send(dest, run, cap)
    else
      var here := Between(ps, Lo(qs[0].cell), Hi(qs[0].cell));
      if here == [] then Flushed(ps, qs[1..], cap, dest, run)
      else if qs[0].home != dest then Send(dest, run, cap) + Flushed(ps, qs[1..], cap, qs[0].home, here)
      else Flushed(ps, qs[1..], cap, dest, run + here)
  }

  // The particles of ps in the leaves whose TreePieces live on PE d.
  function OwnedFrom(ps: seq<Particle>, qs: seq<Piece>, d: nat): seq<Particle>
    requires Shallow(qs)
    decreases |qs|
  {
    if qs == [] then []
    else (if qs[0].home == d then Between(ps, Lo(qs[0].cell), Hi(qs[0].cell)) else []) + OwnedFrom(ps, qs[1..], d)
  }

  function PayloadTo(net: seq<Message>, d: nat): seq<Particle> {
    if net == [] then []
    else PayloadTo(net[..|net| - 1], d) + PayloadOf(net[|net| - 1], d)
  }

  function PayloadOf(m: Message, d: nat): seq<Particle> {
    match m
    case Parts(e, ps) => if e == d then ps else []
    case Ranges(_) => []
  }

  lemma {:induction false} PayloadConcat(a: seq<Message>, b: seq<Message>, d: nat)
    ensures PayloadTo(a + b, d) == PayloadTo(a, d) + PayloadTo(b, d)
  {
    hide PayloadOf;
    if b == [] {
      assert a + b == a;
    } else {
      assert (a + b)[..|a + b| - 1] == a + b[..|b| - 1];
      PayloadConcat(a, b[..|b| - 1], d);
    }
  }

  lemma {:induction false} AddressedPayload(dest: nat, msgs: seq<seq<Particle>>, d: nat)
    ensures PayloadTo(Addressed(dest, msgs), d) == if d == dest then Joined(msgs) else []
  {
    if msgs != [] {
      var n := |msgs| - 1;
      assert Addressed(dest, msgs)[..n] == Addressed(dest, msgs[..n]);
      AddressedPayload(dest, msgs[..n], d);
    }
  }

  lemma SendPayload(dest: int, run: seq<Particle>, cap: nat, d: nat)
    requires cap > 0 && (run != [] ==> dest >= 0)
    ensures PayloadTo(Send(dest, run, cap), d) == if d == dest then run else []
  {
    if run != [] {
      ChunksWhole(run, cap);
      AddressedPayload(dest, Chunks(run, cap), d);
    }
  }

  // Whatever the homes, each PE is sent exactly its own leaves' particles, in leaf
  // order.
  lemma {:induction false} FlushDelivers(ps: seq<Particle>, qs: seq<Piece>, cap: nat, dest: int, run: seq<Particle>,
                                         d: nat)
    requires Shallow(qs) && cap > 0 && (run != [] ==> dest >= 0)
    ensures PayloadTo(Flushed(ps, qs, cap, dest, run), d) == (if d == dest then run else []) + OwnedFrom(ps, qs, d)
    decreases |qs|
  {
    hide Lo, Hi, Send, Between;
    SendPayload(dest, run, cap, d);
    if qs != [] {
      var here := Between(ps, Lo(qs[0].cell), Hi(qs[0].cell));
      if here == [] {
        FlushDelivers(ps, qs[1..], cap, dest, run, d);
      } else if qs[0].home != dest {
        FlushDelivers(ps, qs[1..], cap, qs[0].home, here, d);
        PayloadConcat(Send(dest, run, cap), Flushed(ps, qs[1..], cap, qs[0].home, here), d);
      } else {
        FlushDelivers(ps, qs[1..], cap, dest, run + here, d);
      }
    }
  }

  ghost predicate Sendable(net: seq<Message>, cap: nat, n: nat) {
    forall m :: m in net ==> m.dest < n && (m.Parts? ==> 0 < |m.payload| <= cap)
  }

  lemma {:induction false} FlushSendable(ps: seq<Particle>, qs: seq<Piece>, cap: nat, dest: int, run: seq<Particle>,
                                         n: nat)
    requires Shallow(qs) && cap > 0 && (run != [] ==> 0 <= dest < n)
    requires forall i :: 0 <= i < |qs| ==> qs[i].home < n
    ensures Sendable(Flushed(ps, qs, cap, dest, run), cap, n)
    ensures forall m :: m in Flushed(ps, qs, cap, dest, run) ==> m.Parts?
    decreases |qs|
  {
    hide Lo, Hi, Between;
    ChunksWhole(run, cap);
    forall m | m in Send(dest, run, cap) ensures m.Parts? && m.dest < n && 0 < |m.payload| <= cap {
      var k :| 0 <= k < |Chunks(run, cap)| && m == Parts(dest, Chunks(run, cap)[k]);
      assert Chunks(run, cap)[k] in Chunks(run, cap);
    }
    if qs != [] {
      var here := Between(ps, Lo(qs[0].cell), Hi(qs[0].cell));
      if here == [] {
        FlushSendable(ps, qs[1..], cap, dest, run, n);
      } else if qs[0].home != dest {
        FlushSendable(ps, qs[1..], cap, qs[0].home, here, n);
      } else {
        FlushSendable(ps, qs[1..], cap, dest, run + here, n);
      }
    }
  }

  // ---------------- a PE during the exchange ----------------

  // processed counts calls of processSubmittedParticles, aborted says that an
  // assertion failed.
  datatype Host = Host(mine: seq<Particle>, haveRanges: bool, arrived: seq<seq<Particle>>, numArrived: nat,
                       expected: nat,
                       processed: nat, aborted: bool)

  // tryProcessParticles
  function Try(h: Host): Host {
    if !h.haveRanges then h
    else if h.numArrived > h.expected then h.(aborted := true)
    else if h.numArrived < h.expected then h
    else h.(mine := Joined(h.arrived), arrived := [], numArrived := 0, processed := h.processed + 1,
            aborted := h.aborted || |Joined(h.arrived)| != h.expected)
  }

  function OnParts(h: Host, ps: seq<Particle>): Host {
    Try(h.(arrived := h.arrived + [ps], numArrived := h.numArrived + |ps|))
  }

  // expectParticles, from the counts of the broadcast.
  function Expected(qs: seq<Piece>, d: nat): nat {
    if qs == [] then 0 else (if qs[0].home == d then |qs[0].parts| else 0) + Expected(qs[1..], d)
  }

  // sendParticles on PE d, and the end of receiveHistogram on PE 0.
  function OnRanges(qs: seq<Piece>, d: nat, cap: nat, h: Host): (Host, seq<Message>)
    requires Shallow(qs) && cap > 0
  {
    (Try(h.(haveRanges := true, expected := Expected(qs, d))), Flushed(h.mine, qs, cap, -1, []))
  }

  class ParticleExchanger {
    var mine: seq<Particle>
    var haveRanges: bool
    var arrivedParticleMsgs: seq<seq<Particle>>
    var numParticlesArrived: nat
    var numParticlesExpected: nat
    var processed: nat
    var aborted: bool
    var flushDest: int
    var flushRuns: seq<seq<Particle>>
    var sent: seq<Message>

    ghost function State(): Host
      reads this
    {
      Host(mine, haveRanges, arrivedParticleMsgs, numParticlesArrived, numParticlesExpected, processed, aborted)
    }

    ghost predicate RunsRight()
      reads this
    {
      RunsNonempty(flushRuns) && (flushRuns != [] ==> flushDest >= 0)
    }

    constructor (ps: seq<Particle>)
      ensures State() == Host(ps, false, [], 0, 0, 0, false) && sent == []
    {
      mine, haveRanges, arrivedParticleMsgs, numParticlesArrived, numParticlesExpected := ps, false, [], 0, 0;
      processed, aborted, flushDest, flushRuns, sent := 0, false, -1, [], [];
    }

    method EmitRuns(cap: nat)
      requires cap > 0 && RunsRight()
      modifies this`flushRuns, this`sent
      ensures flushRuns == []
      ensures (Joined(old(flushRuns)) != [] ==> flushDest >= 0)
      ensures sent == old(sent) + Send(flushDest, Joined(old(flushRuns)), cap)
    {
      JoinedNonempty(flushRuns);
      var msgs := EmitFlushRun(flushRuns, cap);
      if flushRuns != [] {
        sent := sent + Addressed(flushDest, msgs);
      }
      flushRuns := [];
    }

    // ParticleFlushWorker's visit of one leaf, and sendParticlesToTreePiece.
    method SendParticlesToTreePiece(q: Piece, cap: nat, ghost rest: seq<Piece>)
      requires cap > 0 && RunsRight() && SortedParts(mine) && Shallow([q] + rest) && Shallow(rest)
      modifies this`flushDest, this`flushRuns, this`sent
      ensures RunsRight()
      ensures (Joined(old(flushRuns)) != [] ==> old(flushDest) >= 0) && (Joined(flushRuns) != [] ==> flushDest >= 0)
      ensures old(sent) + Flushed(mine, [q] + rest, cap, old(flushDest), Joined(old(flushRuns)))
           == sent + Flushed(mine, rest, cap, flushDest, Joined(flushRuns))
    {
      hide Lo, Hi, ValidCell, SortedParts, RunOf, Send, Between;
      ghost var qs := [q] + rest;
      assert qs[0] == q && qs[1..] == rest;
      assert ValidCell(q.cell);
      JoinedNonempty(flushRuns);
      var first, count := RunIn(mine, q.cell);
      RunInRange(mine, q.cell, first, count);
      var here := mine[first..first + count];
      if count > 0 {
        if q.home != flushDest {
          EmitRuns(cap);
          flushDest := q.home;
        }
        JoinedConcat(flushRuns, [here]);
        JoinOne(here);
        flushRuns := flushRuns + [here];
      }
      assert count > 0 <==> here != [];
    }

    method FlushParticles(qs: seq<Piece>, cap: nat)
      requires Shallow(qs) && cap > 0 && SortedParts(mine)
      modifies this`flushDest, this`flushRuns, this`sent
      ensures sent == old(sent) + Flushed(mine, qs, cap, -1, [])
    {
      hide Lo, Hi, ValidCell, SortedParts, Flushed;
      flushDest, flushRuns := -1, [];
      var i := 0;
      assert qs[0..] == qs;
      while i < |qs|
        invariant i <= |qs| && RunsRight() && (Joined(flushRuns) != [] ==> flushDest >= 0) && Shallow(qs[i..])
        invariant old(sent) + Flushed(mine, qs, cap, -1, [])
            == sent + Flushed(mine, qs[i..], cap, flushDest, Joined(flushRuns))
      {
        assert qs[i..] == [qs[i]] + qs[i + 1..];
        SendParticlesToTreePiece(qs[i], cap, qs[i + 1..]);
        i := i + 1;
      }
      assert qs[i..] == [];
      FlushedEnd(mine, cap, flushDest, Joined(flushRuns));
      EmitRuns(cap);
    }

    method TryProcessParticles()
      modifies this
      ensures State() == Try(old(State())) && sent == old(sent)
    {
      if !haveRanges {
        return;
      }
      if numParticlesArrived > numParticlesExpected {
        aborted := true;
      } else if numParticlesArrived == numParticlesExpected {
        var all: seq<Particle> := [];
        var i := 0;
        while i < |arrivedParticleMsgs|
          invariant i <= |arrivedParticleMsgs| && all == Joined(arrivedParticleMsgs[..i])
        {
          assert arrivedParticleMsgs[..i + 1][..i] == arrivedParticleMsgs[..i];
          all := all + arrivedParticleMsgs[i];
          i := i + 1;
        }
        assert arrivedParticleMsgs[..i] == arrivedParticleMsgs;
        aborted := aborted || |all| != numParticlesExpected;
        mine, arrivedParticleMsgs, numParticlesArrived, processed := all, [], 0, processed + 1;
      }
    }

    method ReceiveParticles(part: seq<Particle>)
      modifies this
      ensures State() == OnParts(old(State()), part) && sent == old(sent)
    {
      arrivedParticleMsgs := arrivedParticleMsgs + [part];
      numParticlesArrived := numParticlesArrived + |part|;
      TryProcessParticles();
    }

    method ExpectParticles(qs: seq<Piece>, d: nat)
      modifies this`numParticlesExpected
      ensures numParticlesExpected == Expected(qs, d)
    {
      numParticlesExpected := 0;
      var tp := 0;
      while tp < |qs|
        invariant tp <= |qs| && numParticlesExpected + Expected(qs[tp..], d) == Expected(qs, d)
      {
        assert qs[tp..][0] == qs[tp] && qs[tp..][1..] == qs[tp + 1..];
        if qs[tp].home == d { numParticlesExpected := numParticlesExpected + |qs[tp].parts|; }
        tp := tp + 1;
      }
    }

    method SendParticles(qs: seq<Piece>, d: nat, cap: nat)
      requires Shallow(qs) && cap > 0 && SortedParts(mine)
      modifies this
      ensures State() == OnRanges(qs, d, cap, old(State())).0
      ensures sent == old(sent) + OnRanges(qs, d, cap, old(State())).1
    {
      hide Shallow, Flushed, SortedParts, Try;
      FlushParticles(qs, cap);
      haveRanges := true;
      ExpectParticles(qs, d);
      TryProcessParticles();
    }
  }

  lemma {:induction false} JoinedNonempty(runs: seq<seq<Particle>>)
    requires RunsNonempty(runs)
    ensures Joined(runs) == [] <==> runs == []
  {
  }

  lemma FlushedEnd(ps: seq<Particle>, cap: nat, dest: int, run: seq<Particle>)
    requires cap > 0 && (run != [] ==> dest >= 0)
    ensures Flushed(ps, [], cap, dest, run) == Send(dest, run, cap)
  {
  }

  lemma RunInRange(ps: seq<Particle>, c: Cell, first: nat, count: nat)
    requires ValidCell(c) && RunOf(ps, c, first, count)
    ensures first + count <= |ps| && Between(ps, Lo(c), Hi(c)) == ps[first..first + count]
  {
    CellFitsWord(c);
    RunIsBetween(ps, c, first, count);
  }

  // ---------------- the exchange ----------------

  datatype Sys = Sys(hosts: seq<Host>, net: seq<Message>)
  datatype Event = Start | Deliver(i: nat)

  // What is to be exchanged: PE q's sorted particles parts[q], and the TreePieces
  // of the frontier with all particles of their cells.
  ghost predicate Exchange(w: World, parts: seq<seq<Particle>>, cap: nat) {
    && cap > 0 && Frontier(Cells(w.pieces)) && PiecesOf(w, Cells(w.pieces), Joined(parts))
    && parts != [] && (forall q :: 0 <= q < |parts| ==> SortedParts(parts[q]))
    && forall i :: 0 <= i < |w.pieces| ==> w.pieces[i].home < |parts|
  }

  function Cells(qs: seq<Piece>): seq<Cell> {
    seq(|qs|, i requires 0 <= i < |qs| => qs[i].cell)
  }

  function Broadcast(n: nat): seq<Message> {
    if n == 0 then [] else Broadcast(n - 1) + [Ranges(n - 1)]
  }

  ghost predicate Initial(parts: seq<seq<Particle>>, s: Sys) {
    && s.net == [] && |s.hosts| == |parts|
    && forall q :: 0 <= q < |parts| ==> s.hosts[q] == Host(parts[q], false, [], 0, 0, 0, false)
  }

  ghost predicate Enabled(s: Sys, e: Event) {
    match e
    case Start => |s.hosts| > 0 && !s.hosts[0].haveRanges
    case Deliver(i) => i < |s.net| && s.net[i].dest < |s.hosts|
  }

  // PE 0 flushes and broadcasts, or one message is delivered: any one, in any order.
  ghost function Next(w: World, cap: nat, s: Sys, e: Event): Sys
    requires Shallow(w.pieces) && cap > 0 && Enabled(s, e)
  {
    match e
    case Start =>
      var r := OnRanges(w.pieces, 0, cap, s.hosts[0]);
      Sys(s.hosts[0 := r.0], s.net + r.1 + Broadcast(|s.hosts|))
    case Deliver(i) =>
      var m, rest := s.net[i], s.net[..i] + s.net[i + 1..];
      match m
      case Parts(d, ps) => Sys(s.hosts[d := OnParts(s.hosts[d], ps)], rest)
      case Ranges(d) =>
        var h := s.hosts[d];
        if d == 0 then Sys(s.hosts[0 := h.(aborted := h.aborted || !h.haveRanges)], rest)
        else
          var r := OnRanges(w.pieces, d, cap, h);
          Sys(s.hosts[d := r.0], rest + r.1)
  }

  // ---------------- the invariant ----------------

  // Everything PE d is to end up with.
  ghost function Due(w: World, d: nat): multiset<Particle> {
    multiset(LocalFrom(w.pieces, d))
  }

  // The particles for PE d that the first k PEs have not flushed yet.
  ghost function Unsent(w: World, parts: seq<seq<Particle>>, hosts: seq<Host>, d: nat, k: nat): multiset<Particle>
    requires Shallow(w.pieces) && k <= |hosts| == |parts|
  {
    if k == 0 then multiset{}
    else Unsent(w, parts, hosts, d, k - 1)
         + if hosts[k - 1].haveRanges then multiset{} else multiset(OwnedFrom(parts[k - 1], w.pieces, d))
  }

  ghost function Outside(w: World, parts: seq<seq<Particle>>, s: Sys, d: nat): multiset<Particle>
    requires Shallow(w.pieces) && |s.hosts| == |parts|
  {
    multiset(PayloadTo(s.net, d)) + Unsent(w, parts, s.hosts, d, |parts|)
  }

  ghost function RangesTo(net: seq<Message>, d: nat): nat {
    if net == [] then 0 else RangesTo(net[..|net| - 1], d) + if net[|net| - 1] == Ranges(d) then 1 else 0
  }

  // One PE, of whose particles `out` are still on their way.
  ghost predicate HostBefore(w: World, parts: seq<seq<Particle>>, d: nat, h: Host, out: multiset<Particle>)
    requires d < |parts|
  {
    && !h.aborted && h.processed == 0 && h.numArrived == |Joined(h.arrived)|
    && (if h.haveRanges then h.expected == |LocalFrom(w.pieces, d)| else h.mine == parts[d])
    && multiset(Joined(h.arrived)) + out == Due(w, d)
  }

  ghost predicate HostAfter(w: World, d: nat, h: Host, out: multiset<Particle>) {
    && !h.aborted && h.processed == 1 && h.haveRanges && h.arrived == [] && h.numArrived == 0
    && h.expected == |LocalFrom(w.pieces, d)|
    && multiset(h.mine) == Due(w, d) && out == multiset{}
  }

  ghost predicate HostOk(w: World, parts: seq<seq<Particle>>, d: nat, h: Host, out: multiset<Particle>)
    requires d < |parts|
  {
    || (HostBefore(w, parts, d, h, out) && (h.haveRanges ==> h.numArrived < h.expected))
    || HostAfter(w, d, h, out)
  }

  ghost predicate BroadcastOk(s: Sys, d: nat)
    requires d < |s.hosts|
  {
    if !s.hosts[0].haveRanges then !s.hosts[d].haveRanges && RangesTo(s.net, d) == 0
    else d != 0 ==> RangesTo(s.net, d) == if s.hosts[d].haveRanges then 0 else 1
  }

  // A PE starts processing at most once, with exactly its own particles; until
  // then what has arrived and what is outside make up exactly that.
  ghost predicate Inv(w: World, parts: seq<seq<Particle>>, cap: nat, s: Sys)
    requires Shallow(w.pieces)
  {
    && |s.hosts| == |parts| > 0 && Sendable(s.net, cap, |parts|)
    && forall d :: 0 <= d < |parts| ==> HostOk(w, parts, d, s.hosts[d], Outside(w, parts, s, d)) && BroadcastOk(s, d)
  }

  // ---------------- one PE ----------------

  lemma {:induction false} ExpectedIs(qs: seq<Piece>, d: nat)
    ensures Expected(qs, d) == |LocalFrom(qs, d)|
  {
    if qs != [] { ExpectedIs(qs[1..], d); }
  }

  // Arrived is a part of what is due, so it never exceeds what is expected, and
  // equals it only when nothing is outside.
  lemma TryOk(w: World, parts: seq<seq<Particle>>, d: nat, h: Host, out: multiset<Particle>)
    requires d < |parts| && HostBefore(w, parts, d, h, out)
    ensures HostOk(w, parts, d, Try(h), out)
  {
    hide LocalFrom;
    if h.haveRanges {
      assert |multiset(Joined(h.arrived))| == |Joined(h.arrived)| && |Due(w, d)| == |LocalFrom(w.pieces, d)|;
      assert |multiset(Joined(h.arrived)) + out| == |multiset(Joined(h.arrived))| + |out|;
      if h.numArrived == h.expected { assert out == multiset{}; }
    }
  }

  lemma PartsOk(w: World, parts: seq<seq<Particle>>, d: nat, h: Host, ps: seq<Particle>, out: multiset<Particle>,
                out': multiset<Particle>)
    requires d < |parts| && HostOk(w, parts, d, h, out) && out == out' + multiset(ps) && ps != []
    ensures HostOk(w, parts, d, OnParts(h, ps), out')
  {
    hide LocalFrom, Try, Joined;
    assert ps[0] in out;
    JoinedConcat(h.arrived, [ps]);
    JoinOne(ps);
    TryOk(w, parts, d, h.(arrived := h.arrived + [ps], numArrived := h.numArrived + |ps|), out');
  }

  lemma RangesOk(w: World, parts: seq<seq<Particle>>, cap: nat, d: nat, h: Host, out: multiset<Particle>)
    requires Shallow(w.pieces) && cap > 0 && d < |parts| && HostOk(w, parts, d, h, out) && !h.haveRanges
    ensures HostOk(w, parts, d, OnRanges(w.pieces, d, cap, h).0, out) && h.mine == parts[d]
    ensures OnRanges(w.pieces, d, cap, h).0.haveRanges
  {
    hide LocalFrom;
    ExpectedIs(w.pieces, d);
    TryOk(w, parts, d, h.(haveRanges := true, expected := Expected(w.pieces, d)), out);
  }

  // ---------------- the network ----------------

  lemma {:induction false} RangesConcat(a: seq<Message>, b: seq<Message>, d: nat)
    ensures RangesTo(a + b, d) == RangesTo(a, d) + RangesTo(b, d)
  {
    if b == [] {
      assert a + b == a;
    } else {
      assert (a + b)[..|a + b| - 1] == a + b[..|b| - 1];
      RangesConcat(a, b[..|b| - 1], d);
    }
  }

  lemma TakeOut(net: seq<Message>, i: nat, d: nat)
    requires i < |net|
    ensures var rest := net[..i] + net[i + 1..];
            && multiset(PayloadTo(net, d)) == multiset(PayloadTo(rest, d)) + multiset(PayloadTo([net[i]], d))
            && RangesTo(net, d) == RangesTo(rest, d) + RangesTo([net[i]], d)
  {
    var m := [net[i]];
    assert net == net[..i] + m + net[i + 1..];
    PayloadConcat(net[..i] + m, net[i + 1..], d);
    PayloadConcat(net[..i], m, d);
    PayloadConcat(net[..i], net[i + 1..], d);
    RangesConcat(net[..i] + m, net[i + 1..], d);
    RangesConcat(net[..i], m, d);
    RangesConcat(net[..i], net[i + 1..], d);
  }

  lemma OneMessage(m: Message, d: nat)
    ensures PayloadTo([m], d) == (if m.Parts? && m.dest == d then m.payload else [])
    ensures RangesTo([m], d) == if m == Ranges(d) then 1 else 0
  {
    assert [m][..0] == [];
  }

  lemma {:induction false} OnlyParts(net: seq<Message>, d: nat)
    requires forall m :: m in net ==> m.Parts?
    ensures RangesTo(net, d) == 0
  {
    if net != [] {
      assert net[|net| - 1] in net;
      OnlyParts(net[..|net| - 1], d);
    }
  }

  lemma {:induction false} BroadcastHas(n: nat, d: nat)
    ensures PayloadTo(Broadcast(n), d) == [] && RangesTo(Broadcast(n), d) == if d < n then 1 else 0
  {
    if n > 0 {
      BroadcastHas(n - 1, d);
      assert Broadcast(n)[..n - 1] == Broadcast(n - 1) by { BroadcastIs(n - 1); }
    }
  }

  lemma {:induction false} BroadcastIs(n: nat)
    ensures |Broadcast(n)| == n && forall i :: 0 <= i < n ==> Broadcast(n)[i] == Ranges(i)
  {
    if n > 0 { BroadcastIs(n - 1); }
  }

  // ---------------- what is not flushed yet ----------------

  lemma {:induction false} UnsentSame(w: World, parts: seq<seq<Particle>>, a: seq<Host>, b: seq<Host>, d: nat, k: nat)
    requires Shallow(w.pieces) && k <= |a| == |b| == |parts|
    requires forall q :: 0 <= q < |a| ==> a[q].haveRanges == b[q].haveRanges
    ensures Unsent(w, parts, a, d, k) == Unsent(w, parts, b, d, k)
  {
    hide OwnedFrom, Shallow;
    if k > 0 { UnsentSame(w, parts, a, b, d, k - 1); }
  }

  lemma {:induction false} UnsentFlip(w: World, parts: seq<seq<Particle>>, hosts: seq<Host>, q: nat, h: Host, d: nat,
                                      k: nat)
    requires Shallow(w.pieces) && k <= |hosts| == |parts| && q < |hosts| && !hosts[q].haveRanges && h.haveRanges
    ensures Unsent(w, parts, hosts, d, k)
         == Unsent(w, parts, hosts[q := h], d, k)
             + if q < k then multiset(OwnedFrom(parts[q], w.pieces, d)) else multiset{}
  {
    hide OwnedFrom, Shallow;
    if k > 0 { UnsentFlip(w, parts, hosts, q, h, d, k - 1); }
  }

  lemma {:induction false} UnsentNone(w: World, parts: seq<seq<Particle>>, hosts: seq<Host>, d: nat, k: nat)
    requires Shallow(w.pieces) && k <= |hosts| == |parts| && forall q :: 0 <= q < |hosts| ==> hosts[q].haveRanges
    ensures Unsent(w, parts, hosts, d, k) == multiset{}
  {
    hide OwnedFrom, Shallow;
    if k > 0 { UnsentNone(w, parts, hosts, d, k - 1); }
  }

  lemma {:induction false} OwnedConcat(a: seq<Particle>, b: seq<Particle>, qs: seq<Piece>, d: nat)
    requires Shallow(qs)
    ensures multiset(OwnedFrom(a + b, qs, d)) == multiset(OwnedFrom(a, qs, d)) + multiset(OwnedFrom(b, qs, d))
    decreases |qs|
  {
    hide Lo, Hi, Between;
    if qs != [] {
      BetweenConcat(a, b, Lo(qs[0].cell), Hi(qs[0].cell));
      OwnedConcat(a, b, qs[1..], d);
    }
  }

  lemma {:induction false} OwnedNone(qs: seq<Piece>, d: nat)
    requires Shallow(qs)
    ensures OwnedFrom([], qs, d) == []
    decreases |qs|
  {
    hide Lo, Hi;
    if qs != [] { OwnedNone(qs[1..], d); }
  }

  lemma {:induction false} UnsentAll(w: World, parts: seq<seq<Particle>>, hosts: seq<Host>, d: nat, k: nat)
    requires Shallow(w.pieces) && k <= |hosts| == |parts| && forall q :: 0 <= q < |hosts| ==> !hosts[q].haveRanges
    ensures Unsent(w, parts, hosts, d, k) == multiset(OwnedFrom(Joined(parts[..k]), w.pieces, d))
  {
    hide OwnedFrom, Shallow;
    if k > 0 {
      UnsentAll(w, parts, hosts, d, k - 1);
      assert parts[..k][..k - 1] == parts[..k - 1];
      OwnedConcat(Joined(parts[..k - 1]), parts[k - 1], w.pieces, d);
    } else {
      OwnedNone(w.pieces, d);
    }
  }

  // The particles all PEs hold in d's leaves are those of d's TreePieces.
  lemma {:induction false} OwnedIsDue(all: seq<Particle>, qs: seq<Piece>, d: nat)
    requires Shallow(qs)
    requires forall i :: 0 <= i < |qs| ==>
          multiset(qs[i].parts) == multiset(Between(all, Lo(qs[i].cell), Hi(qs[i].cell)))
    ensures multiset(OwnedFrom(all, qs, d)) == multiset(LocalFrom(qs, d))
    decreases |qs|
  {
    hide Lo, Hi, Between;
    if qs != [] { OwnedIsDue(all, qs[1..], d); }
  }

  // ---------------- every run ----------------

  lemma ExchangeFacts(w: World, parts: seq<seq<Particle>>, cap: nat)
    requires Exchange(w, parts, cap)
    ensures Shallow(w.pieces) && ValidWorld(w)
    ensures forall i :: 0 <= i < |w.pieces| ==>
              multiset(w.pieces[i].parts) == multiset(Between(Joined(parts), Lo(w.pieces[i].cell),
                    Hi(w.pieces[i].cell)))
  {
    hide Lo, Hi, Between, ValidWorld;
    var fr := Cells(w.pieces);
    FrontierMakesWorld(w, fr, Joined(parts));
    forall i | 0 <= i < |w.pieces| ensures ValidCell(w.pieces[i].cell) { assert ValidCell(fr[i]); }
  }

  lemma InitialOk(w: World, parts: seq<seq<Particle>>, cap: nat, s: Sys)
    requires Exchange(w, parts, cap) && Shallow(w.pieces) && Initial(parts, s)
    ensures Inv(w, parts, cap, s)
  {
    hide Shallow, LocalFrom, OwnedFrom, Frontier, PiecesOf, Unsent;
    forall d | 0 <= d < |parts| ensures HostOk(w, parts, d, s.hosts[d], Outside(w, parts, s, d)) && BroadcastOk(s, d) {
      ExchangeFacts(w, parts, cap);
      UnsentAll(w, parts, s.hosts, d, |parts|);
      assert parts[..|parts|] == parts;
      OwnedIsDue(Joined(parts), w.pieces, d);
    }
  }

  // Everything but PE q is as it was, and PE q has flushed: what was unsent is now
  // in the network.
  lemma FlushMoves(w: World, parts: seq<seq<Particle>>, cap: nat, s: Sys, q: nat, h: Host, rest: seq<Message>,
                   more: seq<Message>, d: nat)
    requires Shallow(w.pieces) && cap > 0 && q < |parts| == |s.hosts| && !s.hosts[q].haveRanges && h.haveRanges
    requires multiset(PayloadTo(s.net, d)) == multiset(PayloadTo(rest, d)) && PayloadTo(more, d) == []
    ensures Outside(w, parts, Sys(s.hosts[q := h], rest + Flushed(parts[q], w.pieces, cap, -1, []) + more), d)
        == Outside(w, parts, s, d)
  {
    hide Shallow, Flushed, OwnedFrom, Unsent, PayloadTo;
    var out := Flushed(parts[q], w.pieces, cap, -1, []);
    FlushDelivers(parts[q], w.pieces, cap, -1, [], d);
    PayloadConcat(rest, out, d);
    PayloadConcat(rest + out, more, d);
    UnsentFlip(w, parts, s.hosts, q, h, d, |parts|);
  }

  lemma FlushRanges(w: World, parts: seq<seq<Particle>>, cap: nat, q: nat, rest: seq<Message>, more: seq<Message>,
                    d: nat)
    requires Shallow(w.pieces) && cap > 0 && q < |parts|
    requires forall i :: 0 <= i < |w.pieces| ==> w.pieces[i].home < |parts|
    requires Sendable(rest, cap, |parts|) && Sendable(more, cap, |parts|)
    ensures var net := rest + Flushed(parts[q], w.pieces, cap, -1, []) + more;
            Sendable(net, cap, |parts|) && RangesTo(net, d) == RangesTo(rest, d) + RangesTo(more, d)
  {
    hide Shallow, Flushed, RangesTo;
    var out := Flushed(parts[q], w.pieces, cap, -1, []);
    FlushSendable(parts[q], w.pieces, cap, -1, [], |parts|);
    OnlyParts(out, d);
    RangesConcat(rest, out, d);
    RangesConcat(rest + out, more, d);
  }

  ghost predicate Homes(w: World, n: nat) {
    forall i :: 0 <= i < |w.pieces| ==> w.pieces[i].home < n
  }

  lemma StartKeeps(w: World, parts: seq<seq<Particle>>, cap: nat, s: Sys)
    requires Shallow(w.pieces) && cap > 0 && Homes(w, |parts|) && Inv(w, parts, cap, s) && Enabled(s, Start)
    ensures Inv(w, parts, cap, Next(w, cap, s, Start))
  {
    hide Shallow, Flushed, Unsent, PayloadTo, RangesTo, HostOk, OnRanges, Outside;
    var h := s.hosts[0];
    var n := |parts|;
    var h' := OnRanges(w.pieces, 0, cap, h).0;
    var s' := Next(w, cap, s, Start);
    RangesOk(w, parts, cap, 0, h, Outside(w, parts, s, 0));
    BroadcastIs(n);
    OnRangesSends(w, cap, 0, h);
    forall d | 0 <= d < n ensures HostOk(w, parts, d, s'.hosts[d], Outside(w, parts, s', d)) && BroadcastOk(s', d) {
      BroadcastHas(n, d);
      FlushMoves(w, parts, cap, s, 0, h', s.net, Broadcast(n), d);
      FlushRanges(w, parts, cap, 0, s.net, Broadcast(n), d);
      assert BroadcastOk(s, d);
    }
    FlushRanges(w, parts, cap, 0, s.net, Broadcast(n), 0);
  }

  lemma OnRangesSends(w: World, cap: nat, d: nat, h: Host)
    requires Shallow(w.pieces) && cap > 0
    ensures OnRanges(w.pieces, d, cap, h).1 == Flushed(h.mine, w.pieces, cap, -1, [])
  {
  }

  lemma RangesKeeps(w: World, parts: seq<seq<Particle>>, cap: nat, s: Sys, i: nat)
    requires Shallow(w.pieces) && cap > 0 && Homes(w, |parts|) && Inv(w, parts, cap, s)
    requires Enabled(s, Deliver(i)) && s.net[i].Ranges?
    ensures Inv(w, parts, cap, Next(w, cap, s, Deliver(i)))
  {
    hide Shallow, Flushed, Unsent, PayloadTo, RangesTo, HostOk, OnRanges, Outside;
    var q := s.net[i].dest;
    var h, rest := s.hosts[q], s.net[..i] + s.net[i + 1..];
    var s' := Next(w, cap, s, Deliver(i));
    TakeOut(s.net, i, q);
    OneMessage(s.net[i], q);
    assert BroadcastOk(s, q);
    if q == 0 {
      EchoKeeps(w, parts, cap, s, i);
    } else {
      RangesOk(w, parts, cap, q, h, Outside(w, parts, s, q));
      OnRangesSends(w, cap, q, h);
      var h' := OnRanges(w.pieces, q, cap, h).0;
      assert rest + Flushed(parts[q], w.pieces, cap, -1, []) + [] == rest + Flushed(parts[q], w.pieces, cap, -1, []);
      forall d | 0 <= d < |parts|
        ensures HostOk(w, parts, d, s'.hosts[d], Outside(w, parts, s', d)) && BroadcastOk(s', d)
      {
        TakeOut(s.net, i, d);
        OneMessage(s.net[i], d);
        NothingTo(d);
        FlushMoves(w, parts, cap, s, q, h', rest, [], d);
        FlushRanges(w, parts, cap, q, rest, [], d);
        assert BroadcastOk(s, d);
      }
      FlushRanges(w, parts, cap, q, rest, [], 0);
    }
  }

  lemma NothingTo(d: nat)
    ensures PayloadTo([], d) == [] && RangesTo([], d) == 0
  {
  }

  // PE 0's own copy of the broadcast.
  lemma EchoKeeps(w: World, parts: seq<seq<Particle>>, cap: nat, s: Sys, i: nat)
    requires Shallow(w.pieces) && cap > 0 && Inv(w, parts, cap, s) && Enabled(s, Deliver(i)) && s.net[i] == Ranges(0)
    requires s.hosts[0].haveRanges
    ensures Inv(w, parts, cap, Next(w, cap, s, Deliver(i)))
  {
    hide Shallow, Unsent, PayloadTo, RangesTo, Outside, HostOk;
    var s' := Next(w, cap, s, Deliver(i));
    assert s'.hosts == s.hosts;
    forall d | 0 <= d < |parts|
      ensures HostOk(w, parts, d, s'.hosts[d], Outside(w, parts, s', d)) && BroadcastOk(s', d)
    {
      TakeOut(s.net, i, d);
      OneMessage(s.net[i], d);
      SameOutside(w, parts, s, s', d, multiset{});
      assert Outside(w, parts, s', d) == Outside(w, parts, s, d);
      assert HostOk(w, parts, d, s.hosts[d], Outside(w, parts, s, d));
      assert BroadcastOk(s, d);
    }
  }

  lemma SameOutside(w: World, parts: seq<seq<Particle>>, s: Sys, s': Sys, d: nat, taken: multiset<Particle>)
    requires Shallow(w.pieces) && |s.hosts| == |s'.hosts| == |parts|
    requires forall q :: 0 <= q < |parts| ==> s.hosts[q].haveRanges == s'.hosts[q].haveRanges
    requires multiset(PayloadTo(s.net, d)) == multiset(PayloadTo(s'.net, d)) + taken
    ensures Outside(w, parts, s, d) == Outside(w, parts, s', d) + taken
  {
    hide Shallow, Unsent, PayloadTo;
    UnsentSame(w, parts, s.hosts, s'.hosts, d, |parts|);
  }

  lemma PartsKeeps(w: World, parts: seq<seq<Particle>>, cap: nat, s: Sys, i: nat)
    requires Shallow(w.pieces) && cap > 0 && Inv(w, parts, cap, s) && Enabled(s, Deliver(i)) && s.net[i].Parts?
    ensures Inv(w, parts, cap, Next(w, cap, s, Deliver(i)))
  {
    hide Shallow, Unsent, PayloadTo, RangesTo, HostOk, Outside, Try;
    var q, ps := s.net[i].dest, s.net[i].payload;
    var s' := Next(w, cap, s, Deliver(i));
    assert s.net[i] in s.net;
    PartsFlag(s.hosts[q], ps);
    forall d | 0 <= d < |parts|
      ensures HostOk(w, parts, d, s'.hosts[d], Outside(w, parts, s', d)) && BroadcastOk(s', d)
    {
      TakeOut(s.net, i, d);
      OneMessage(s.net[i], d);
      SameOutside(w, parts, s, s', d, multiset(PayloadTo([s.net[i]], d)));
      assert BroadcastOk(s, d);
      assert HostOk(w, parts, d, s.hosts[d], Outside(w, parts, s, d));
      if d == q {
        PartsOk(w, parts, q, s.hosts[q], ps, Outside(w, parts, s, q),
                Outside(w, parts, s', q)); } else { assert Outside(w, parts, s', d) == Outside(w, parts, s, d);
      }
    }
  }

  lemma PartsFlag(h: Host, ps: seq<Particle>)
    ensures OnParts(h, ps).haveRanges == h.haveRanges
  {
  }

  lemma NextKeeps(w: World, parts: seq<seq<Particle>>, cap: nat, s: Sys, e: Event)
    requires Shallow(w.pieces) && cap > 0 && Homes(w, |parts|) && Inv(w, parts, cap, s) && Enabled(s, e)
    ensures Inv(w, parts, cap, Next(w, cap, s, e))
  {
    hide Shallow, Inv, Next;
    match e
    case Start => StartKeeps(w, parts, cap, s);
    case Deliver(i) =>
      if s.net[i].Parts? { PartsKeeps(w, parts, cap, s, i); } else { RangesKeeps(w, parts, cap, s, i); }
  }

  // A run: each state from the one before by one event.
  ghost predicate Runs(w: World, parts: seq<seq<Particle>>, cap: nat, run: seq<Sys>)
    requires Shallow(w.pieces) && cap > 0
  {
    && run != [] && Initial(parts, run[0])
    && forall i :: 0 < i < |run| ==> Steps(w, cap, run[i - 1], run[i])
  }

  ghost predicate Steps(w: World, cap: nat, s: Sys, s': Sys)
    requires Shallow(w.pieces) && cap > 0
  {
    exists e :: Enabled(s, e) && s' == Next(w, cap, s, e)
  }

  lemma {:induction false} RunKeeps(w: World, parts: seq<seq<Particle>>, cap: nat, run: seq<Sys>)
    requires Exchange(w, parts, cap) && Shallow(w.pieces) && Runs(w, parts, cap, run)
    ensures Inv(w, parts, cap, run[|run| - 1])
    decreases |run|
  {
    hide Shallow, Inv, Next, Frontier, PiecesOf, Initial, Enabled;
    var n := |run| - 1;
    if n == 0 {
      InitialOk(w, parts, cap, run[0]);
    } else {
      RunKeeps(w, parts, cap, run[..n]);
      assert Steps(w, cap, run[n - 1], run[n]);
      var e :| Enabled(run[n - 1], e) && run[n] == Next(w, cap, run[n - 1], e);
      NextKeeps(w, parts, cap, run[n - 1], e);
    }
  }

  // ---------------- the end ----------------

  ghost function Unflushed(w: World, parts: seq<seq<Particle>>, cap: nat, hosts: seq<Host>, k: nat): nat
    requires Shallow(w.pieces) && cap > 0 && k <= |hosts| == |parts|
  {
    if k == 0 then 0
    else Unflushed(w, parts, cap, hosts, k - 1)
         + if hosts[k - 1].haveRanges then 0 else |Flushed(parts[k - 1], w.pieces, cap, -1, [])|
  }

  // Events still to come.
  ghost function Left(w: World, parts: seq<seq<Particle>>, cap: nat, s: Sys): nat
    requires Shallow(w.pieces) && cap > 0 && |s.hosts| == |parts| > 0
  {
    |s.net| + Unflushed(w, parts, cap, s.hosts, |parts|) + if s.hosts[0].haveRanges then 0 else 1 + |parts|
  }

  lemma {:induction false} UnflushedFlip(w: World, parts: seq<seq<Particle>>, cap: nat, hosts: seq<Host>, q: nat,
                                         h: Host, k: nat)
    requires Shallow(w.pieces) && cap > 0 && k <= |hosts| == |parts| && q < |hosts|
    requires hosts[q].haveRanges ==> h.haveRanges
    ensures Unflushed(w, parts, cap, hosts, k)
         == Unflushed(w, parts, cap, hosts[q := h], k)
            + if q < k && !hosts[q].haveRanges && h.haveRanges then |Flushed(parts[q], w.pieces, cap, -1, [])| else 0
  {
    hide Shallow, Flushed;
    if k > 0 { UnflushedFlip(w, parts, cap, hosts, q, h, k - 1); }
  }

  // Every event is one fewer to come, so every run ends.
  lemma NextLeft(w: World, parts: seq<seq<Particle>>, cap: nat, s: Sys, e: Event)
    requires Shallow(w.pieces) && cap > 0 && Inv(w, parts, cap, s) && Enabled(s, e)
    ensures |Next(w, cap, s, e).hosts| == |parts|
    ensures Left(w, parts, cap, Next(w, cap, s, e)) == Left(w, parts, cap, s) - 1
  {
    hide Shallow, Flushed, Unflushed, OnRanges, Outside, RangesTo, Try, HostOk;
    match e
    case Start =>
      var h := s.hosts[0];
      RangesOk(w, parts, cap, 0, h, Outside(w, parts, s, 0));
      OnRangesSends(w, cap, 0, h);
      BroadcastIs(|parts|);
      UnflushedFlip(w, parts, cap, s.hosts, 0, OnRanges(w.pieces, 0, cap, h).0, |parts|);
    case Deliver(i) =>
      var q := s.net[i].dest;
      var h := s.hosts[q];
      TakeOut(s.net, i, q);
      OneMessage(s.net[i], q);
      assert BroadcastOk(s, q);
      if s.net[i].Parts? {
        PartsFlag(h, s.net[i].payload);
        UnflushedFlip(w, parts, cap, s.hosts, q, OnParts(h, s.net[i].payload), |parts|);
      } else if q == 0 {
        UnflushedFlip(w, parts, cap, s.hosts, 0, h.(aborted := h.aborted || !h.haveRanges), |parts|);
      } else {
        RangesOk(w, parts, cap, q, h, Outside(w, parts, s, q));
        OnRangesSends(w, cap, q, h);
        UnflushedFlip(w, parts, cap, s.hosts, q, OnRanges(w.pieces, q, cap, h).0, |parts|);
      }
  }

  // No event is left exactly when every PE has all its particles and has started
  // processing them, once; no assertion has failed on the way.
  ghost predicate Exchanged(w: World, s: Sys) {
    && s.net == []
    && forall d :: 0 <= d < |s.hosts| ==>
         var h := s.hosts[d];
         !h.aborted && h.processed == 1 && multiset(h.mine) == Due(w, d) && |h.mine| == h.expected
  }

  lemma Quiet(s: Sys, cap: nat)
    requires |s.hosts| > 0 && Sendable(s.net, cap, |s.hosts|)
    ensures (forall e :: !Enabled(s, e)) <==> s.hosts[0].haveRanges && s.net == []
  {
    if s.net != [] {
      assert s.net[0] in s.net;
      assert Enabled(s, Deliver(0));
    }
    if !s.hosts[0].haveRanges { assert Enabled(s, Start); }
  }

  lemma EndIsExchanged(w: World, parts: seq<seq<Particle>>, cap: nat, s: Sys)
    requires Shallow(w.pieces) && cap > 0 && Inv(w, parts, cap, s)
    ensures (forall e :: !Enabled(s, e)) <==> Exchanged(w, s)
  {
    hide Shallow, Unsent, LocalFrom, Enabled;
    Quiet(s, cap);
    assert HostOk(w, parts, 0, s.hosts[0], Outside(w, parts, s, 0));
    if s.net == [] && s.hosts[0].haveRanges {
      forall d | 0 <= d < |s.hosts| ensures s.hosts[d].haveRanges {
        assert BroadcastOk(s, d);
        NothingTo(d);
      }
      forall d | 0 <= d < |s.hosts|
        ensures var h := s.hosts[d];
              !h.aborted && h.processed == 1 && multiset(h.mine) == Due(w, d) && |h.mine| == h.expected
      {
        NothingTo(d);
        UnsentNone(w, parts, s.hosts, d, |parts|);
        ArrivedAll(w, parts, d, s.hosts[d], Outside(w, parts, s, d));
      }
    }
  }

  lemma ArrivedAll(w: World, parts: seq<seq<Particle>>, d: nat, h: Host, out: multiset<Particle>)
    requires d < |parts| && HostOk(w, parts, d, h, out) && out == multiset{} && h.haveRanges
    ensures HostAfter(w, d, h, out) && |h.mine| == h.expected
  {
    hide LocalFrom;
    assert |multiset(Joined(h.arrived))| == |Joined(h.arrived)| && |Due(w, d)|
        == |LocalFrom(w.pieces, d)| && |multiset(h.mine)| == |h.mine|;
  }

  // Every run: whatever the order of messages, no assertion fails and no PE
  // processes twice; the run can be continued until every PE has processed exactly
  // its own particles, and its length is the same for every order.
  lemma {:induction false} EveryExchangeEnds(w: World, parts: seq<seq<Particle>>, cap: nat, run: seq<Sys>)
    requires Exchange(w, parts, cap) && Shallow(w.pieces) && Runs(w, parts, cap, run)
    ensures var s := run[|run| - 1];
            && |s.hosts| == |parts| > 0
            && (forall d :: 0 <= d < |parts| ==> !s.hosts[d].aborted && s.hosts[d].processed <= 1)
            && Left(w, parts, cap, s) + |run| - 1 == Left(w, parts, cap, run[0])
            && ((forall e :: !Enabled(s, e)) <==> Exchanged(w, s))
    decreases |run|
  {
    hide Shallow, Inv, Next, Frontier, PiecesOf, Initial, Enabled, Left, Exchanged;
    var n := |run| - 1;
    RunKeeps(w, parts, cap, run);
    InvMeans(w, parts, cap, run[n]);
    EndIsExchanged(w, parts, cap, run[n]);
    if n > 0 {
      EveryExchangeEnds(w, parts, cap, run[..n]);
      RunKeeps(w, parts, cap, run[..n]);
      assert Steps(w, cap, run[n - 1], run[n]);
      var e :| Enabled(run[n - 1], e) && run[n] == Next(w, cap, run[n - 1], e);
      NextLeft(w, parts, cap, run[n - 1], e);
    }
  }

  lemma InvMeans(w: World, parts: seq<seq<Particle>>, cap: nat, s: Sys)
    requires Shallow(w.pieces) && Inv(w, parts, cap, s)
    ensures |s.hosts| == |parts| > 0
    ensures forall d :: 0 <= d < |parts| ==> !s.hosts[d].aborted && s.hosts[d].processed <= 1
  {
    hide Shallow, Outside, LocalFrom;
    forall d | 0 <= d < |parts| ensures !s.hosts[d].aborted && s.hosts[d].processed <= 1 {
      assert HostOk(w, parts, d, s.hosts[d], Outside(w, parts, s, d));
    }
  }
}
