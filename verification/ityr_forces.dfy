// The forces of all bodies: par_for cuts the bodies into chunks, whichever node
// runs a chunk's task computes it there and marks it, and the combine completes
// every node's array from the owners.
module Forces {
  import opened Octree
  import opened ForceWalk

  // A body's force, as the interactions that went into it.
  type Force = seq<Source>

  // ---------------- chunks ----------------

  function Lo(c: nat, chunk: nat): nat {
    c * chunk
  }

  function Hi(c: nat, chunk: nat, n: nat): nat {
    if (c + 1) * chunk < n then (c + 1) * chunk else n
  }

  lemma ChunkBounds(c: nat, d: nat, chunk: nat)
    ensures c <= d ==> Lo(c, chunk) <= Lo(d, chunk)
    ensures Lo(c + 1, chunk) == Lo(c, chunk) + chunk
  {
    if c <= d { MulUp(c, d, chunk); }
  }

  lemma MulUp(a: nat, b: nat, c: nat)
    requires a <= b
    ensures a * c <= b * c
  {
  }

  // Position i is in chunks c..e exactly when its chunk is.
  lemma InChunks(i: nat, c: nat, e: nat, chunk: nat)
    requires chunk > 0
    ensures Lo(c, chunk) <= i < Lo(e, chunk) <==> c <= i / chunk < e
  {
    var q := i / chunk;
    assert i == q * chunk + i % chunk;
    if q < c { MulUp(q + 1, c, chunk); } else { MulUp(c, q, chunk); }
    if q < e { MulUp(q + 1, e, chunk); } else { MulUp(e, q, chunk); }
  }

  // ---------------- par_for ----------------

  // The tasks of a range, one a chunk.
  function Chunks(c: nat, chunk: nat, hi: nat): (s: seq<(nat, nat)>)
    requires chunk > 0
    decreases hi - Lo(c, chunk)
  {
    ChunkBounds(c, c, chunk);
    if Lo(c, chunk) >= hi then [] else [(Lo(c, chunk), Hi(c, chunk, hi))] + Chunks(c + 1, chunk, hi)
  }

  lemma {:induction false} ChunksJoin(c: nat, d: nat, chunk: nat, hi: nat)
    requires chunk > 0 && c <= d && Lo(d, chunk) <= hi
    ensures Chunks(c, chunk, Lo(d, chunk)) + Chunks(d, chunk, hi) == Chunks(c, chunk, hi)
    decreases d - c
  {
    hide Lo;
    ChunkBounds(c, d, chunk);
    if c < d {
      ChunkBounds(c + 1, d, chunk);
      ChunkBounds(c, c, chunk);
      ChunksJoin(c + 1, d, chunk, hi);
      SameChunk(c, d, chunk, hi);
    }
  }

  lemma SameChunk(c: nat, d: nat, chunk: nat, hi: nat)
    requires chunk > 0 && c < d && Lo(d, chunk) <= hi
    ensures Lo(c, chunk) < Lo(d, chunk) && Hi(c, chunk, Lo(d, chunk)) == Hi(c, chunk, hi) == Lo(c + 1, chunk)
  {
    MulUp(c + 1, d, chunk);
  }

  // par_for: the recursion's leaves are exactly the chunks, in order -- every
  // midpoint is chunk-aligned and strictly inside.
  method ParFor(lo: nat, hi: nat, cutoff: nat, ghost c: nat) returns (leaves: seq<(nat, nat)>)
    requires cutoff > 0 && lo == Lo(c, cutoff) && lo < hi
    ensures leaves == Chunks(c, cutoff, hi)
    decreases hi - lo
  {
    hide Chunks, Lo, Hi;
    var n := hi - lo;
    if n <= cutoff {
      OneChunk(c, cutoff, hi);
      return [(lo, hi)];
    }
    var half := n / 2 / cutoff * cutoff;
    var mid := lo + if cutoff > half then cutoff else half;
    ghost var m := MidChunk(c, n, cutoff, mid);
    var left := ParFor(lo, mid, cutoff, c);
    var right := ParFor(mid, hi, cutoff, m);
    ChunksJoin(c, m, cutoff, hi);
    leaves := left + right;
  }

  lemma OneChunk(c: nat, chunk: nat, hi: nat)
    requires chunk > 0 && Lo(c, chunk) < hi <= Lo(c, chunk) + chunk
    ensures Chunks(c, chunk, hi) == [(Lo(c, chunk), hi)]
  {
    ChunkBounds(c, c, chunk);
  }

  lemma MidChunk(c: nat, n: nat, cutoff: nat, mid: nat) returns (m: nat)
    requires cutoff > 0 && n > cutoff
    requires var half := n / 2 / cutoff * cutoff; mid == Lo(c, cutoff) + if cutoff > half then cutoff else half
    ensures mid == Lo(m, cutoff) && c < m && Lo(c, cutoff) < mid < Lo(c, cutoff) + n
  {
    var k := n / 2 / cutoff;
    var half := k * cutoff;
    assert n / 2 == k * cutoff + n / 2 % cutoff;
    if cutoff > half {
      m := c + 1;
      ChunkBounds(c, c, cutoff);
    } else {
      m := c + k;
      Distribute(c, k, cutoff);
    }
  }

  lemma Distribute(a: nat, b: nat, c: nat)
    ensures (a + b) * c == a * c + b * c
  {
  }

  // ---------------- one task ----------------

  function Lanes(k: nat): (s: set<nat>)
    ensures forall x: nat :: x in s <==> x < k
  {
    if k == 0 then {} else Lanes(k - 1) + {k - 1}
  }

  // A node's array after the task of bodies l to r: their own walks, and the rest
  // as it was.
  function AfterTask(accept: Accept, t: Tree, a: seq<Force>, l: nat, r: nat): (b: seq<Force>)
    ensures |b| == |a|
  {
    seq(|a|, i requires 0 <= i < |a| => if l <= i < r then Sources(accept, t, 0, i) else a[i])
  }

  function Span(a: nat, b: nat): (s: set<nat>)
    ensures forall c: nat :: c in s <==> a <= c < b
    decreases b
  {
    if b <= a then {} else Span(a, b - 1) + {b - 1}
  }

  // The chunks of bodies l to r.
  function ChunksIn(l: nat, r: nat, chunk: nat): set<nat>
    requires chunk > 0 && l < r
  {
    Span(l / chunk, (r - 1) / chunk + 1)
  }

  method MarkChunks(cmask: set<nat>, l: nat, r: nat, chunk: nat) returns (cmask': set<nat>)
    requires chunk > 0 && l < r
    ensures cmask' == cmask + ChunksIn(l, r, chunk)
  {
    cmask' := cmask;
    var c, last := l / chunk, (r - 1) / chunk;
    assert c <= last by { InChunks(r - 1, c, last + 1, chunk); ChunkBounds(c, c, chunk); FirstChunk(l, r, chunk); }
    while c <= last
      invariant l / chunk <= c <= last + 1 && cmask' == cmask + Span(l / chunk, c)
      decreases last + 1 - c
    {
      cmask' := cmask' + {c};
      c := c + 1;
    }
  }

  lemma FirstChunk(l: nat, r: nat, chunk: nat)
    requires chunk > 0 && l < r
    ensures l / chunk <= (r - 1) / chunk
  {
    var c, q := l / chunk, (r - 1) / chunk;
    assert l == c * chunk + l % chunk && r - 1 == q * chunk + (r - 1) % chunk;
    ChunkBounds(q, q, chunk);
    InChunks(r - 1, c, q + 1, chunk);
  }

  // One batch: the lanes are bodies i to i + K.
  method Batch(accept: Accept, tree: seq<Node>, ghost t: Tree, K: nat, i: nat, out: array<Force>)
    requires Represents(tree, 0, t) && Shallow(t, 0) && i + K <= out.Length
    modifies out
    ensures forall j :: 0 <= j < out.Length ==>
          out[j] == if i <= j < i + K then Sources(accept, t, 0, j) else old(out[j])
  {
    hide Represents, Shallow, Sources;
    var w := new LaneWalker(accept, i, K);
    w.WalkCompactN(tree, 0, t, Lanes(K));
    var k := 0;
    while k < K
      invariant k <= K && w.base == i
      invariant forall q :: w.Of(q) == if q in Lanes(K) then Sources(accept, t, 0, i + q) else []
      invariant forall j :: 0 <= j < out.Length ==>
            out[j] == if i <= j < i + k then Sources(accept, t, 0, j) else old(out[j])
    {
      out[i + k] := w.Of(k);
      k := k + 1;
    }
  }

  // One task: its chunks marked on the node that runs it, then batches of K lanes
  // and a scalar tail.
  method ForceTask(accept: Accept, tree: seq<Node>, ghost t: Tree, K: nat, chunk: nat, l: nat, r: nat,
                   out: array<Force>,
                   cmask: set<nat>)
    returns (cmask': set<nat>)
    requires Represents(tree, 0, t) && Shallow(t, 0) && K > 0 && chunk > 0 && l < r <= out.Length
    modifies out
    ensures cmask' == cmask + ChunksIn(l, r, chunk) && out[..] == AfterTask(accept, t, old(out[..]), l, r)
  {
    hide Represents, Shallow, Sources, AfterTask, ChunksIn;
    ghost var start := out[..];
    cmask' := MarkChunks(cmask, l, r, chunk);
    var i := l;
    while i + K <= r
      invariant l <= i <= r
      invariant forall j :: 0 <= j < out.Length ==> out[j] == if l <= j < i then Sources(accept, t, 0, j) else start[j]
    {
      Batch(accept, tree, t, K, i, out);
      i := i + K;
    }
    while i < r
      invariant l <= i <= r
      invariant forall j :: 0 <= j < out.Length ==> out[j] == if l <= j < i then Sources(accept, t, 0, j) else start[j]
    {
      var f := WalkCompact(accept, tree, 0, 0, i, t);
      out[i] := f;
      i := i + 1;
    }
    TaskDone(accept, t, start, out[..], l, r);
  }

  lemma TaskDone(accept: Accept, t: Tree, a: seq<Force>, b: seq<Force>, l: nat, r: nat)
    requires |b| == |a| && forall j :: 0 <= j < |a| ==> b[j] == if l <= j < r then Sources(accept, t, 0, j) else a[j]
    ensures b == AfterTask(accept, t, a, l, r)
  {
    hide Sources;
  }

  // ---------------- combine_accel ----------------

  ghost predicate Marked(masks: seq<set<nat>>, c: nat) {
    exists j: nat :: j < |masks| && c in masks[j]
  }

  // All chunks are marked, each on one node.
  ghost predicate OneOwner(masks: seq<set<nat>>, nchunks: nat) {
    && (forall c: nat :: c < nchunks ==> Marked(masks, c))
    && forall c: nat, j: nat, q: nat ::
         c < nchunks && j < |masks| && q < |masks| && c in masks[j] && c in masks[q] ==> j == q
  }

  datatype Run = Run(owner: nat, off: nat, len: nat)

  // Elements c0*chunk .. c1*chunk are where they should come from: own chunks
  // are in no run, and the others in a run of the node that has them.
  ghost predicate PlannedTo(masks: seq<set<nat>>, inter: nat, n: nat, chunk: nat, runs: seq<Run>, end: nat)
    requires chunk > 0
  {
    && (forall k :: 0 <= k < |runs| ==> RunOk(masks, inter, n, chunk, runs[k]))
    && forall i: nat :: i < n && i < end ==> Sourced(masks, inter, chunk, runs, i)
  }

  ghost predicate RunOk(masks: seq<set<nat>>, inter: nat, n: nat, chunk: nat, r: Run)
    requires chunk > 0
  {
    && r.owner < |masks| && r.owner != inter && r.off + r.len <= n
    && forall i: nat :: r.off <= i < r.off + r.len ==> i / chunk in masks[r.owner]
  }

  ghost predicate Sourced(masks: seq<set<nat>>, inter: nat, chunk: nat, runs: seq<Run>, i: nat)
    requires chunk > 0
  {
    (inter < |masks| && i / chunk in masks[inter]) || exists k ::
          0 <= k < |runs| && runs[k].off <= i < runs[k].off + runs[k].len
  }

  method FindOwner(masks: seq<set<nat>>, inter: nat, c: nat, ghost nchunks: nat) returns (owner: nat)
    requires OneOwner(masks, nchunks) && c < nchunks && inter < |masks|
    ensures owner < |masks| && c in masks[owner]
  {
    owner := inter;
    assert Marked(masks, c);
    var j := 0;
    while j < |masks|
      invariant j <= |masks| && owner == inter && forall q :: 0 <= q < j ==> c !in masks[q]
    {
      if c in masks[j] {
        return j;
      }
      j := j + 1;
    }
  }

  method PlanPulls(masks: seq<set<nat>>, inter: nat, n: nat, chunk: nat, nchunks: nat) returns (runs: seq<Run>)
    requires chunk > 0 && OneOwner(masks, nchunks) && inter < |masks| && n <= Lo(nchunks, chunk)
    requires forall c: nat :: c < nchunks ==> Lo(c, chunk) < n
    ensures PlannedTo(masks, inter, n, chunk, runs, n)
  {
    hide Lo, OneOwner, RunOk, Sourced;
    runs := [];
    var c := 0;
    NothingPlanned(masks, inter, n, chunk);
    while c < nchunks
      invariant c <= nchunks && PlannedTo(masks, inter, n, chunk, runs, Lo(c, chunk))
    {
      var owner := FindOwner(masks, inter, c, nchunks);
      var end := c + 1;
      while end < nchunks && end in masks[owner]
        invariant c < end <= nchunks && forall e :: c <= e < end ==> e in masks[owner]
      {
        end := end + 1;
      }
      var first := Lo(c, chunk);
      ChunkBounds(c, end, chunk);
      var last := if Lo(end, chunk) < n then Lo(end, chunk) else n;
      PlanMore(masks, inter, n, chunk, runs, c, end, owner, first, last);
      if owner != inter {
        runs := runs + [Run(owner, first, last - first)];
      }
      c := end;
    }
    PlanWhole(masks, inter, n, chunk, runs, Lo(c, chunk));
  }

  lemma NothingPlanned(masks: seq<set<nat>>, inter: nat, n: nat, chunk: nat)
    requires chunk > 0
    ensures Lo(0, chunk) == 0 && PlannedTo(masks, inter, n, chunk, [], 0)
  {
  }

  lemma PlanWhole(masks: seq<set<nat>>, inter: nat, n: nat, chunk: nat, runs: seq<Run>, end: nat)
    requires chunk > 0 && PlannedTo(masks, inter, n, chunk, runs, end) && n <= end
    ensures PlannedTo(masks, inter, n, chunk, runs, n)
  {
    hide RunOk, Sourced;
  }

  lemma PlanMore(masks: seq<set<nat>>, inter: nat, n: nat, chunk: nat, runs: seq<Run>, c: nat, end: nat, owner: nat,
                 first: nat, last: nat)
    requires chunk > 0 && PlannedTo(masks, inter, n, chunk, runs, Lo(c, chunk)) && owner < |masks| && inter < |masks|
    requires c < end && first == Lo(c, chunk) <= last && last == (if Lo(end, chunk) < n then Lo(end, chunk) else n)
    requires forall e :: c <= e < end ==> e in masks[owner]
    ensures PlannedTo(masks, inter, n, chunk, if owner
        == inter then runs else runs + [Run(owner, first, last - first)], Lo(end, chunk))
  {
    hide Lo;
    var more := if owner == inter then runs else runs + [Run(owner, first, last - first)];
    forall i: nat | first <= i < last ensures i / chunk in masks[owner] { InChunks(i, c, end, chunk); }
    forall k | 0 <= k < |more| ensures RunOk(masks, inter, n, chunk, more[k]) {
      if k < |runs| { assert RunOk(masks, inter, n, chunk, runs[k]); }
    }
    forall i: nat | i < n && i < Lo(end, chunk) ensures Sourced(masks, inter, chunk, more, i) {
      if i < first {
        assert Sourced(masks, inter, chunk, runs, i);
        if !(i / chunk in masks[inter]) {
          var k :| 0 <= k < |runs| && runs[k].off <= i < runs[k].off + runs[k].len;
          assert more[k] == runs[k];
        }
      } else if owner != inter {
        assert more[|runs|].off <= i < more[|runs|].off + more[|runs|].len;
      }
    }
  }

  // Every element whose chunk a node has marked is right on that node.
  ghost predicate RightWhereMarked(want: nat -> Force, chunk: nat, masks: seq<set<nat>>, acc: seq<Force>, j: nat)
    requires chunk > 0 && j < |masks|
  {
    forall i: nat :: i < |acc| && i / chunk in masks[j] ==> acc[i] == want(i)
  }

  // One run copied from its owner.
  method PullRun(ghost want: nat -> Force, ghost masks: seq<set<nat>>, ghost inter: nat, chunk: nat, r: Run,
                 from: array<Force>, mine: array<Force>)
    requires chunk > 0 && RunOk(masks, inter, mine.Length, chunk, r) && from.Length == mine.Length && from != mine
    requires RightWhereMarked(want, chunk, masks, from[..], r.owner)
    modifies mine
    ensures forall i: nat :: i < mine.Length ==> mine[i] == if r.off <= i < r.off + r.len then want(i) else old(mine[i])
  {
    var i := r.off;
    while i < r.off + r.len
      invariant r.off <= i <= r.off + r.len
      invariant forall k: nat :: k < mine.Length ==> mine[k] == if r.off <= k < i then want(k) else old(mine[k])
    {
      assert from[..][i] == want(i);
      mine[i] := from[i];
      i := i + 1;
    }
  }

  // combine_accel on one node, from the other nodes' arrays: afterwards its whole
  // array is right, and the others are as they were.
  method CombineAccel(ghost want: nat -> Force, masks: seq<set<nat>>, inter: nat, n: nat, chunk: nat, nchunks: nat,
                      accs: seq<array<Force>>)
    requires chunk > 0 && OneOwner(masks, nchunks) && inter < |masks| == |accs| && n <= Lo(nchunks, chunk)
    requires forall c: nat :: c < nchunks ==> Lo(c, chunk) < n
    requires forall j :: 0 <= j < |accs| ==> accs[j].Length == n && RightWhereMarked(want, chunk, masks, accs[j][..], j)
    requires forall j :: 0 <= j < |accs| && j != inter ==> accs[j] != accs[inter]
    modifies accs[inter]
    ensures forall i: nat :: i < n ==> accs[inter][i] == want(i)
  {
    hide RightWhereMarked, OneOwner, RunOk, Lo;
    var runs := PlanPulls(masks, inter, n, chunk, nchunks);
    var mine := accs[inter];
    OwnRight(want, chunk, masks, mine[..], inter);
    var j := 0;
    while j < |accs|
      invariant j <= |accs|
      invariant forall i: nat :: i < n && (i / chunk in masks[inter] || PulledFrom(runs, j, 0, i)) ==>
            mine[i] == want(i)
      invariant forall q :: 0 <= q < |accs| && q != inter ==> RightWhereMarked(want, chunk, masks, accs[q][..], q)
    {
      var k := 0;
      while k < |runs|
        invariant k <= |runs|
        invariant forall i: nat :: i < n && (i / chunk in masks[inter] || PulledFrom(runs, j, k, i)) ==>
              mine[i] == want(i)
        invariant forall q :: 0 <= q < |accs| && q != inter ==> RightWhereMarked(want, chunk, masks, accs[q][..], q)
      {
        if runs[k].owner == j {
          OwnerInRange(masks, inter, n, chunk, runs, n, k);
          PullRun(want, masks, inter, chunk, runs[k], accs[j], mine);
        }
        k := k + 1;
      }
      j := j + 1;
    }
    forall i: nat | i < n ensures mine[i] == want(i) {
      assert Sourced(masks, inter, chunk, runs, i);
      if !(i / chunk in masks[inter]) {
        var k :| 0 <= k < |runs| && runs[k].off <= i < runs[k].off + runs[k].len;
        OwnerInRange(masks, inter, n, chunk, runs, n, k);
        assert PulledFrom(runs, j, 0, i);
      }
    }
  }

  // Covered by a run of an owner before j, or of owner j among the first k.
  ghost predicate PulledFrom(runs: seq<Run>, j: nat, k: nat, i: nat)
  {
    exists m :: 0 <= m < |runs| && runs[m].off <= i < runs[m].off + runs[m].len
             && (runs[m].owner < j || (runs[m].owner == j && m < k))
  }

  lemma OwnRight(want: nat -> Force, chunk: nat, masks: seq<set<nat>>, acc: seq<Force>, j: nat)
    requires chunk > 0 && j < |masks| && RightWhereMarked(want, chunk, masks, acc, j)
    ensures forall i: nat :: i < |acc| && i / chunk in masks[j] ==> acc[i] == want(i)
  {
  }

  lemma OwnerInRange(masks: seq<set<nat>>, inter: nat, n: nat, chunk: nat, runs: seq<Run>, end: nat, k: nat)
    requires chunk > 0 && PlannedTo(masks, inter, n, chunk, runs, end) && k < |runs|
    ensures runs[k].owner < |masks| && runs[k].owner != inter && RunOk(masks, inter, n, chunk, runs[k])
  {
  }

  // ---------------- every schedule and every interleaving ----------------

  // The chunks par_for makes, by number.
  lemma {:induction false} ChunkAt(c: nat, chunk: nat, hi: nat, k: nat)
    requires chunk > 0 && Lo(c, chunk) <= hi
    ensures k < |Chunks(c, chunk, hi)| <==> Lo(c + k, chunk) < hi
    ensures k < |Chunks(c, chunk, hi)| ==> Chunks(c, chunk, hi)[k] == (Lo(c + k, chunk), Hi(c + k, chunk, hi))
    decreases k
  {
    hide Lo;
    ChunkBounds(c, c + k, chunk);
    ChunkBounds(c, c, chunk);
    if Lo(c + 1, chunk) > hi {
      ChunkBounds(c + 1, c + 1 + k, chunk);
      ChunkBounds(c + 1, c + k, chunk);
      assert Chunks(c + 1, chunk, hi) == [];
    } else if k > 0 {
      ChunkAt(c + 1, chunk, hi, k - 1);
      assert c + 1 + (k - 1) == c + k;
    }
  }

  // Chunk c's bodies are those whose chunk is c.
  lemma ChunkBodies(c: nat, chunk: nat, n: nat, i: nat)
    requires chunk > 0 && Lo(c, chunk) < n && i < n
    ensures Lo(c, chunk) <= i < Hi(c, chunk, n) <==> i / chunk == c
  {
    InChunks(i, c, c + 1, chunk);
  }

  lemma OneChunkMarked(c: nat, chunk: nat, n: nat)
    requires chunk > 0 && Lo(c, chunk) < n
    ensures Lo(c, chunk) < Hi(c, chunk, n) <= n && ChunksIn(Lo(c, chunk), Hi(c, chunk, n), chunk) == {c}
  {
    var l, r := Lo(c, chunk), Hi(c, chunk, n);
    ChunkBounds(c, c, chunk);
    ChunkBodies(c, chunk, n, l);
    ChunkBodies(c, chunk, n, r - 1);
  }

  // What the phase is about, fixed for all of it.
  datatype Job = Job(accept: Accept, t: Tree, n: nat, chunk: nat)

  // Every node's array and chunk mask; the tasks finished; once the masks have been
  // exchanged, each node's planned pulls; and the single elements pulled.
  datatype Sys = Sys(acc: seq<seq<Force>>, mask: seq<set<nat>>, done: set<nat>, combining: bool, plans: seq<seq<Run>>,
                     got: set<(nat, nat)>)

  ghost predicate Start(w: Job, s: Sys) {
    && w.chunk > 0 && |s.acc| == |s.mask| > 0 && (forall j :: 0 <= j < |s.acc| ==> |s.acc[j]| == w.n && s.mask[j] == {})
    && s.done == {} && !s.combining && s.plans == [] && s.got == {}
  }

  function Leaves(w: Job): seq<(nat, nat)>
    requires w.chunk > 0
  {
    Chunks(0, w.chunk, w.n)
  }

  // Node j, to which task c was stolen, runs it.
  ghost predicate TaskStep(w: Job, s: Sys, c: nat, j: nat, s': Sys)
    requires w.chunk > 0
  {
    && !s.combining && c < |Leaves(w)| && c !in s.done && j < |s.acc| == |s.mask|
    && var l, r := Leaves(w)[c].0, Leaves(w)[c].1;
    && l < r
    && s' == s.(acc := s.acc[j := AfterTask(w.accept, w.t, s.acc[j], l, r)],
                mask := s.mask[j := s.mask[j] + ChunksIn(l, r, w.chunk)], done := s.done + {c})
  }

  // After the last task: the masks are exchanged and every node plans its pulls.
  ghost predicate PlanStep(w: Job, s: Sys, s': Sys)
    requires w.chunk > 0
  {
    && !s.combining && (forall c: nat :: c < |Leaves(w)| ==> c in s.done)
    && |s'.plans| == |s.mask| && s' == s.(combining := true, plans := s'.plans)
    && forall j: nat :: j < |s.mask| ==> PlannedTo(s.mask, j, w.n, w.chunk, s'.plans[j], w.n)
  }

  // Node j pulls element i of its k-th run from that run's owner, which may be
  // pulling into its own array meanwhile.
  ghost predicate PullStep(s: Sys, j: nat, k: nat, i: nat, s': Sys) {
    && s.combining && j < |s.plans| && j < |s.acc| && k < |s.plans[j]| && (j, i) !in s.got
    && var r := s.plans[j][k];
    && r.off <= i < r.off + r.len && r.owner < |s.acc| && i < |s.acc[r.owner]| && i < |s.acc[j]|
    && s' == s.(acc := s.acc[j := s.acc[j][i := s.acc[r.owner][i]]], got := s.got + {(j, i)})
  }

  ghost predicate Next(w: Job, s: Sys, s': Sys)
    requires w.chunk > 0
  {
    || (exists c, j :: TaskStep(w, s, c, j, s'))
    || PlanStep(w, s, s')
    || (exists j, k, i :: PullStep(s, j, k, i, s'))
  }

  ghost predicate Finished(s: Sys) {
    s.combining && forall j: nat, k: nat, i: nat ::
      j < |s.plans| && k < |s.plans[j]| && s.plans[j][k].off <= i < s.plans[j][k].off + s.plans[j][k].len ==>
            (j, i) in s.got
  }

  // Marked or pulled is right.
  ghost predicate RightSlots(w: Job, s: Sys)
    requires w.chunk > 0 && |s.acc| == |s.mask|
  {
    forall j: nat, i: nat :: j < |s.acc| && i < |s.acc[j]| && (i / w.chunk in s.mask[j] || (j, i) in s.got) ==>
      s.acc[j][i] == Sources(w.accept, w.t, 0, i)
  }

  // Each finished task is marked, on one node.
  ghost predicate Owned(s: Sys) {
    && (forall j, c :: 0 <= j < |s.mask| && c in s.mask[j] ==> c in s.done)
    && (forall c :: c in s.done ==> Marked(s.mask, c))
    && forall c: nat, j: nat, q: nat :: j < |s.mask| && q < |s.mask| && c in s.mask[j] && c in s.mask[q] ==> j == q
  }

  ghost predicate Inv(w: Job, s: Sys) {
    && w.chunk > 0 && |s.acc| == |s.mask| > 0 && (forall j :: 0 <= j < |s.acc| ==> |s.acc[j]| == w.n)
    && Owned(s) && RightSlots(w, s)
    && (s.combining ==> |s.plans| == |s.mask| && (forall c: nat :: c < |Leaves(w)| ==> c in s.done)
                        && forall j: nat :: j < |s.mask| ==> PlannedTo(s.mask, j, w.n, w.chunk, s.plans[j], w.n))
  }

  lemma StartOk(w: Job, s: Sys)
    requires Start(w, s)
    ensures Inv(w, s)
  {
    hide Sources;
  }

  lemma TaskKeeps(w: Job, s: Sys, c: nat, j: nat, s': Sys)
    requires Inv(w, s) && TaskStep(w, s, c, j, s')
    ensures Inv(w, s')
  {
    hide Sources, Chunks, Lo, Hi, PlannedTo;
    var l, r := Leaves(w)[c].0, Leaves(w)[c].1;
    ChunkAt(0, w.chunk, w.n, c) by { ZeroLo(w.chunk); }
    OneChunkMarked(c, w.chunk, w.n);
    forall q: nat, i: nat | q < |s'.acc| && i < |s'.acc[q]| && (i / w.chunk in s'.mask[q] || (q, i) in s'.got)
      ensures s'.acc[q][i] == Sources(w.accept, w.t, 0, i)
    {
      if q == j {
        ChunkBodies(c, w.chunk, w.n, i);
        assert i / w.chunk != c ==> i / w.chunk in s.mask[j] || (j, i) in s.got;
      }
    }
    TaskOwns(s, c, j, s');
  }

  lemma ZeroLo(chunk: nat)
    ensures Lo(0, chunk) == 0
  {
  }

  lemma TaskOwns(s: Sys, c: nat, j: nat, s': Sys)
    requires Owned(s) && c !in s.done && j < |s.mask| && s'.mask == s.mask[j := s.mask[j] + {c}]
    requires s'.done == s.done + {c}
    ensures Owned(s')
  {
    forall d | d in s'.done ensures Marked(s'.mask, d) {
      if d == c {
        assert c in s'.mask[j];
      } else {
        assert Marked(s.mask, d);
        var q: nat :| q < |s.mask| && d in s.mask[q];
        assert d in s'.mask[q];
      }
    }
  }

  lemma PullKeeps(w: Job, s: Sys, j: nat, k: nat, i: nat, s': Sys)
    requires Inv(w, s) && PullStep(s, j, k, i, s')
    ensures Inv(w, s')
  {
    hide Sources, Leaves;
    var r := s.plans[j][k];
    assert PlannedTo(s.mask, j, w.n, w.chunk, s.plans[j], w.n);
    assert RunOk(s.mask, j, w.n, w.chunk, r);
    assert s.acc[r.owner][i] == Sources(w.accept, w.t, 0, i);
    forall q: nat, m: nat | q < |s'.acc| && m < |s'.acc[q]| && (m / w.chunk in s'.mask[q] || (q, m) in s'.got)
      ensures s'.acc[q][m] == Sources(w.accept, w.t, 0, m)
    {
      if q != j || m != i { assert s'.acc[q][m] == s.acc[q][m]; }
    }
  }

  lemma NextKeeps(w: Job, s: Sys, s': Sys)
    requires w.chunk > 0 && Inv(w, s) && Next(w, s, s')
    ensures Inv(w, s')
  {
    hide Sources, Leaves, Inv, TaskStep, PullStep, PlanStep;
    if c, j :| TaskStep(w, s, c, j, s') {
      TaskKeeps(w, s, c, j, s');
    } else if j, k, i :| PullStep(s, j, k, i, s') {
      PullKeeps(w, s, j, k, i, s');
    } else {
      PlanKeeps(w, s, s');
    }
  }

  lemma PlanKeeps(w: Job, s: Sys, s': Sys)
    requires Inv(w, s) && PlanStep(w, s, s')
    ensures Inv(w, s')
  {
    hide Sources, Leaves, PlannedTo, Marked;
    assert RightSlots(w, s') && Owned(s');
  }

  ghost predicate Steps(w: Job, s: Sys, s': Sys) {
    w.chunk > 0 && Next(w, s, s')
  }

  ghost predicate Runs(w: Job, run: seq<Sys>) {
    && run != [] && Start(w, run[0])
    && forall k :: 0 < k < |run| ==> Steps(w, run[k - 1], run[k])
  }

  lemma {:induction false} RunKeeps(w: Job, run: seq<Sys>)
    requires Runs(w, run)
    ensures Inv(w, run[|run| - 1])
    decreases |run|
  {
    hide Inv, Next, Start;
    var n := |run| - 1;
    if n == 0 {
      StartOk(w, run[0]);
    } else {
      RunKeeps(w, run[..n]);
      assert Steps(w, run[n - 1], run[n]);
      NextKeeps(w, run[n - 1], run[n]);
    }
  }

  // From zeroed arrays and empty masks, whichever node runs each chunk, in whatever
  // order, and however the nodes' pulls interleave: at the end the masks partition
  // the chunks and every node has every body's force, computed as its own walk.
  lemma EveryRunCompletes(w: Job, run: seq<Sys>)
    requires Runs(w, run) && Finished(run[|run| - 1])
    ensures var s := run[|run| - 1];
            && w.chunk > 0 && OneOwner(s.mask, |Leaves(w)|)
            && forall j: nat, i: nat :: j < |s.acc| && i < w.n ==>
                  i < |s.acc[j]| && s.acc[j][i] == Sources(w.accept, w.t, 0, i)
  {
    hide Sources, Leaves, Start, Next;
    RunKeeps(w, run);
    var s := run[|run| - 1];
    forall j: nat, i: nat | j < |s.acc| && i < w.n
      ensures i < |s.acc[j]| && s.acc[j][i] == Sources(w.accept, w.t, 0, i)
    {
      assert PlannedTo(s.mask, j, w.n, w.chunk, s.plans[j], w.n);
      assert Sourced(s.mask, j, w.chunk, s.plans[j], i);
    }
  }

  // In every state before the end some step is possible.
  lemma SomeStep(w: Job, s: Sys)
    requires Inv(w, s) && !Finished(s)
    ensures exists s' :: Next(w, s, s')
  {
    hide Sources;
    if s.combining {
      var j: nat, k: nat, i: nat :| j < |s.plans| && k < |s.plans[j]|
        && s.plans[j][k].off <= i < s.plans[j][k].off + s.plans[j][k].len && (j, i) !in s.got;
      PullPossible(w, s, j, k, i);
    } else if c: nat :| c < |Leaves(w)| && c !in s.done {
      TaskPossible(w, s, c);
    } else {
      PlanPossible(w, s);
    }
  }

  lemma PullPossible(w: Job, s: Sys, j: nat, k: nat, i: nat)
    requires Inv(w, s) && s.combining && j < |s.plans| && k < |s.plans[j]| && (j, i) !in s.got
    requires s.plans[j][k].off <= i < s.plans[j][k].off + s.plans[j][k].len
    ensures exists s' :: Next(w, s, s')
  {
    hide Sources, Leaves;
    assert PlannedTo(s.mask, j, w.n, w.chunk, s.plans[j], w.n);
    var r := s.plans[j][k];
    assert RunOk(s.mask, j, w.n, w.chunk, r);
    var s' := s.(acc := s.acc[j := s.acc[j][i := s.acc[r.owner][i]]], got := s.got + {(j, i)});
    assert PullStep(s, j, k, i, s');
    assert Next(w, s, s');
  }

  lemma TaskPossible(w: Job, s: Sys, c: nat)
    requires Inv(w, s) && !s.combining && c < |Leaves(w)| && c !in s.done
    ensures exists s' :: Next(w, s, s')
  {
    hide Sources, Chunks, Lo, Hi;
    ChunkAt(0, w.chunk, w.n, c) by { ZeroLo(w.chunk); }
    OneChunkMarked(c, w.chunk, w.n);
    var l, r := Leaves(w)[c].0, Leaves(w)[c].1;
    var s' := s.(acc := s.acc[0 := AfterTask(w.accept, w.t, s.acc[0], l, r)],
                 mask := s.mask[0 := s.mask[0] + ChunksIn(l, r, w.chunk)], done := s.done + {c});
    assert TaskStep(w, s, c, 0, s');
    assert Next(w, s, s');
  }

  lemma {:induction false} PlanExists(masks: seq<set<nat>>, inter: nat, n: nat, chunk: nat, nchunks: nat, c: nat)
    returns (runs: seq<Run>)
    requires chunk > 0 && OneOwner(masks, nchunks) && inter < |masks| && c <= nchunks
    requires forall d: nat :: d < nchunks ==> Lo(d, chunk) < n
    ensures PlannedTo(masks, inter, n, chunk, runs, Lo(c, chunk))
    decreases c
  {
    hide Lo, RunOk, Sourced, PlannedTo;
    if c == 0 {
      runs := [];
      NothingPlanned(masks, inter, n, chunk);
    } else {
      var before := PlanExists(masks, inter, n, chunk, nchunks, c - 1);
      assert Marked(masks, c - 1);
      var owner: nat :| owner < |masks| && c - 1 in masks[owner];
      ChunkBounds(c - 1, c, chunk);
      var first := Lo(c - 1, chunk);
      var last := if Lo(c, chunk) < n then Lo(c, chunk) else n;
      PlanMore(masks, inter, n, chunk, before, c - 1, c, owner, first, last);
      runs := if owner == inter then before else before + [Run(owner, first, last - first)];
    }
  }

  lemma PlanPossible(w: Job, s: Sys)
    requires Inv(w, s) && !s.combining && forall c: nat :: c < |Leaves(w)| ==> c in s.done
    ensures exists s' :: Next(w, s, s')
  {
    hide Sources, Chunks, Lo, PlannedTo;
    var nchunks := |Leaves(w)|;
    ZeroLo(w.chunk);
    forall c: nat ensures c < nchunks <==> Lo(c, w.chunk) < w.n { ChunkAt(0, w.chunk, w.n, c); }
    var plans: seq<seq<Run>> := [];
    while |plans| < |s.mask|
      invariant |plans| <= |s.mask|
      invariant forall j: nat :: j < |plans| ==> PlannedTo(s.mask, j, w.n, w.chunk, plans[j], w.n)
      decreases |s.mask| - |plans|
    {
      var runs := PlanExists(s.mask, |plans|, w.n, w.chunk, nchunks, nchunks);
      PlanWhole(s.mask, |plans|, w.n, w.chunk, runs, Lo(nchunks, w.chunk));
      plans := plans + [runs];
    }
    var s' := s.(combining := true, plans := plans);
    assert PlanStep(w, s, s');
    assert Next(w, s, s');
  }

  function Wanted(w: Job): nat -> Force {
    (i: nat) => Sources(w.accept, w.t, 0, i)
  }

  lemma WantedIs(w: Job, i: nat)
    ensures Wanted(w)(i) == Sources(w.accept, w.t, 0, i)
  {
  }

  // After the last task every node's combine may run: the masks partition the chunks
  // and each array is right where its node marked it.
  lemma CombineReady(w: Job, s: Sys)
    requires Inv(w, s) && forall c: nat :: c < |Leaves(w)| ==> c in s.done
    ensures OneOwner(s.mask, |Leaves(w)|)
    ensures forall j: nat :: j < |s.acc| ==> RightWhereMarked(Wanted(w), w.chunk, s.mask, s.acc[j], j)
  {
    hide Sources, Leaves;
  }

  // ---------------- the phase ----------------

  function Zeroed(n: nat): (z: seq<Force>)
    ensures |z| == n && forall i :: 0 <= i < n ==> z[i] == []
  {
    seq(n, _ => [])
  }

  // Zeroed arrays, one a node.
  method NewArrays(nodes: nat, n: nat) returns (accs: seq<array<Force>>)
    ensures |accs| == nodes && (forall j :: 0 <= j < nodes ==> fresh(accs[j]) && accs[j][..] == Zeroed(n))
    ensures forall i, j :: 0 <= i < j < nodes ==> accs[i] != accs[j]
  {
    accs := [];
    while |accs| < nodes
      invariant |accs| <= nodes && (forall j :: 0 <= j < |accs| ==> fresh(accs[j]) && accs[j][..] == Zeroed(n))
      invariant forall i, j :: 0 <= i < j < |accs| ==> accs[i] != accs[j]
      decreases nodes - |accs|
    {
      var a := new Force[n](_ => []);
      assert a[..] == Zeroed(n);
      accs := accs + [a];
    }
  }

  ghost predicate Mirrors(s: Sys, accs: seq<array<Force>>, masks: seq<set<nat>>)
    reads accs
  {
    |s.acc| == |accs| && s.mask == masks && forall j :: 0 <= j < |accs| ==> s.acc[j] == accs[j][..]
  }

  // forces_phase and combine_accel, for any assignment of the tasks to nodes, each
  // walking the tree of the node it runs on: every node ends with every body's force.
  method ForcesPhase(accept: Accept, trees: seq<seq<Node>>, ghost t: Tree, K: nat, n: nat, chunk: nat,
                     schedule: nat -> nat)
    returns (accs: seq<array<Force>>)
    requires trees != [] && (forall j :: 0 <= j < |trees| ==> Represents(trees[j], 0, t)) && Shallow(t, 0)
    requires K > 0 && chunk > 0 && n > 0 && forall c :: schedule(c) < |trees|
    ensures |accs| == |trees| && forall j :: 0 <= j < |accs| ==> accs[j].Length == n
    ensures forall j, i :: 0 <= j < |accs| && 0 <= i < n ==> accs[j][i] == Sources(accept, t, 0, i)
  {
    hide Represents, Shallow, Sources, Chunks, Lo, AfterTask, ChunksIn, Inv, RightWhereMarked, OneOwner, Zeroed;
    var nodes := |trees|;
    accs := NewArrays(nodes, n);
    var masks := seq(nodes, _ => {});
    ZeroLo(chunk);
    var leaves := ParFor(0, n, chunk, 0);
    ghost var w := Job(accept, t, n, chunk);
    ghost var s := Sys(seq(nodes, _ => Zeroed(n)), masks, {}, false, [], {});
    StartOk(w, s);
    var c := 0;
    while c < |leaves|
      invariant c <= |leaves| && |accs| == nodes == |masks| && Mirrors(s, accs, masks)
      invariant Inv(w, s) && !s.combining && forall d: nat :: d in s.done <==> d < c
      invariant forall j :: 0 <= j < nodes ==> accs[j].Length == n
    {
      ChunkAt(0, chunk, n, c);
      OneChunkMarked(c, chunk, n);
      var j := schedule(c);
      var l, r := leaves[c].0, leaves[c].1;
      ghost var s' := s.(acc := s.acc[j := AfterTask(accept, t, s.acc[j], l, r)],
                         mask := s.mask[j := s.mask[j] + ChunksIn(l, r, chunk)], done := s.done + {c});
      assert TaskStep(w, s, c, j, s');
      TaskKeeps(w, s, c, j, s');
      var cmask := ForceTask(accept, trees[j], t, K, chunk, l, r, accs[j], masks[j]);
      masks := masks[j := cmask];
      s := s';
      c := c + 1;
    }
    CombineReady(w, s);
    forall d: nat ensures d < |leaves| <==> Lo(d, chunk) < n { ChunkAt(0, chunk, n, d); }
    CombineAll(Wanted(w), masks, n, chunk, |leaves|, accs);
    forall j, i | 0 <= j < nodes && 0 <= i < n ensures accs[j][i] == Sources(accept, t, 0, i) { WantedIs(w, i); }
  }

  // The combines of all nodes; each changes its own array only.
  method CombineAll(
                    ghost want: nat -> Force, masks: seq<set<nat>>, n: nat, chunk: nat, nchunks: nat,
                          accs: seq<array<Force>>)
    requires chunk > 0 && OneOwner(masks, nchunks) && |masks| == |accs| && n <= Lo(nchunks, chunk)
    requires forall c: nat :: c < nchunks ==> Lo(c, chunk) < n
    requires forall j :: 0 <= j < |accs| ==> accs[j].Length == n && RightWhereMarked(want, chunk, masks, accs[j][..], j)
    requires forall i, j :: 0 <= i < j < |accs| ==> accs[i] != accs[j]
    modifies set j | 0 <= j < |accs| :: accs[j]
    ensures forall j, i :: 0 <= j < |accs| && 0 <= i < n ==> accs[j][i] == want(i)
  {
    hide OneOwner, Lo, RightWhereMarked;
    var q := 0;
    while q < |accs|
      invariant q <= |accs| && forall j, i :: 0 <= j < q && 0 <= i < n ==> accs[j][i] == want(i)
      invariant forall j :: 0 <= j < |accs| ==> RightWhereMarked(want, chunk, masks, accs[j][..], j)
    {
      CombineAccel(want, masks, q, n, chunk, nchunks, accs);
      forall j | 0 <= j < |accs| ensures RightWhereMarked(want, chunk, masks, accs[j][..], j) {
        if j == q { AllRight(want, chunk, masks, accs[q][..], q); }
      }
      q := q + 1;
    }
  }

  lemma AllRight(want: nat -> Force, chunk: nat, masks: seq<set<nat>>, acc: seq<Force>, j: nat)
    requires chunk > 0 && j < |masks| && forall i :: 0 <= i < |acc| ==> acc[i] == want(i)
    ensures RightWhereMarked(want, chunk, masks, acc, j)
  {
  }
}
