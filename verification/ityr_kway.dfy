// Merging sorted runs through the heap.  Runs lie in index order, so the lowest
// run winning ties is the order by key and index.
module KwayMerge {
  import opened SortOrder
  import opened MergeHeap

  ghost predicate RunsOk(runs: seq<seq<KP>>) {
    && (forall r :: 0 <= r < |runs| ==> Sorted(runs[r]))
    && forall r, q, x, y :: 0 <= r < q < |runs| && x in runs[r] && y in runs[q] ==> x.idx < y.idx
  }

  // pos[r]..to[r] is what is left of run r.
  ghost predicate Cursors(runs: seq<seq<KP>>, pos: seq<nat>, to: seq<nat>) {
    |pos| == |runs| == |to| && forall r :: 0 <= r < |runs| ==> pos[r] <= to[r] <= |runs[r]|
  }

  ghost function Rest(runs: seq<seq<KP>>, pos: seq<nat>, to: seq<nat>, n: nat): multiset<KP>
    requires Cursors(runs, pos, to) && n <= |runs|
  {
    if n == 0 then multiset{} else Rest(runs, pos, to, n - 1) + multiset(runs[n - 1][pos[n - 1]..to[n - 1]])
  }

  ghost function Heads(runs: seq<seq<KP>>, pos: seq<nat>, to: seq<nat>, n: nat): multiset<Head>
    requires Cursors(runs, pos, to) && n <= |runs|
  {
    if n == 0 then multiset{}
    else Heads(runs, pos, to, n - 1) + HeadOf(runs, pos, to, n - 1)
  }

  ghost function HeadOf(runs: seq<seq<KP>>, pos: seq<nat>, to: seq<nat>, r: nat): multiset<Head>
    requires Cursors(runs, pos, to) && r < |runs|
  {
    if pos[r] < to[r] then multiset{Head(runs[r][pos[r]].key, r)} else multiset{}
  }

  lemma {:induction false} HeadsHave(runs: seq<seq<KP>>, pos: seq<nat>, to: seq<nat>, n: nat)
    requires Cursors(runs, pos, to) && n <= |runs|
    ensures forall x ::
          x in Heads(runs, pos, to, n) <==> x.run < n && pos[x.run] < to[x.run] && x.key == runs[x.run][pos[x.run]].key
  {
    hide Cursors;
    CursorFacts(runs, pos, to);
    if n > 0 { HeadsHave(runs, pos, to, n - 1); }
  }

  lemma CursorFacts(runs: seq<seq<KP>>, pos: seq<nat>, to: seq<nat>)
    requires Cursors(runs, pos, to)
    ensures |pos| == |runs| == |to| && forall r :: 0 <= r < |runs| ==> pos[r] <= to[r] <= |runs[r]|
  {
  }

  lemma {:induction false} RestHas(runs: seq<seq<KP>>, pos: seq<nat>, to: seq<nat>, n: nat, x: KP)
    requires Cursors(runs, pos, to) && n <= |runs|
    ensures x in Rest(runs, pos, to, n) <==> exists r :: 0 <= r < n && x in runs[r][pos[r]..to[r]]
  {
    hide Cursors;
    CursorFacts(runs, pos, to);
    if n > 0 { RestHas(runs, pos, to, n - 1, x); }
  }

  // Taking the head of run r.
  lemma {:induction false} HeadsStep(runs: seq<seq<KP>>, pos: seq<nat>, to: seq<nat>, n: nat, r: nat)
    requires Cursors(runs, pos, to) && n <= |runs| && r < |runs| && pos[r] < to[r]
    ensures var pos' := pos[r := pos[r] + 1];
            && Cursors(runs, pos', to)
            && (r < n ==>
                  Heads(runs, pos', to, n)
                  == Heads(runs, pos, to, n) - HeadOf(runs, pos, to, r) + HeadOf(runs, pos', to, r))
            && (r < n ==> Heads(runs, pos, to, n) >= HeadOf(runs, pos, to, r))
            && (n <= r ==> Heads(runs, pos', to, n) == Heads(runs, pos, to, n))
  {
    hide HeadOf;
    if n > 0 {
      HeadsStep(runs, pos, to, n - 1, r);
      if n - 1 != r { SameHead(runs, pos, to, n - 1, r); }
    }
  }

  lemma SameHead(runs: seq<seq<KP>>, pos: seq<nat>, to: seq<nat>, k: nat, r: nat)
    requires Cursors(runs, pos, to) && k < |runs| && r < |runs| && pos[r] < to[r] && k != r
    ensures HeadOf(runs, pos[r := pos[r] + 1], to, k) == HeadOf(runs, pos, to, k)
  {
  }

  lemma {:induction false} RestStep(runs: seq<seq<KP>>, pos: seq<nat>, to: seq<nat>, n: nat, r: nat)
    requires Cursors(runs, pos, to) && n <= |runs| && r < |runs| && pos[r] < to[r]
    ensures var pos' := pos[r := pos[r] + 1];
            && Cursors(runs, pos', to)
            && (r < n ==> Rest(runs, pos, to, n) == Rest(runs, pos', to, n) + multiset{runs[r][pos[r]]})
            && (n <= r ==> Rest(runs, pos', to, n) == Rest(runs, pos, to, n))
  {
    if n > 0 {
      RestStep(runs, pos, to, n - 1, r);
      if n - 1 == r {
        assert runs[r][pos[r]..to[r]] == [runs[r][pos[r]]] + runs[r][pos[r] + 1..to[r]];
      }
    }
  }

  // The top of the heap is the least of everything left.
  lemma TopIsNext(runs: seq<seq<KP>>, pos: seq<nat>, to: seq<nat>, top: Head)
    requires RunsOk(runs) && Cursors(runs, pos, to) && top in Heads(runs, pos, to, |runs|)
    requires forall x :: x in Heads(runs, pos, to, |runs|) ==> Le(top, x)
    ensures top.run < |runs| && pos[top.run] < to[top.run]
    ensures var e := runs[top.run][pos[top.run]];
            e in Rest(runs, pos, to, |runs|) && forall x :: x in Rest(runs, pos, to, |runs|) ==> x == e || Lt(e, x)
  {
    hide Heads, Rest, RunsOk, Sorted;
    HeadsHave(runs, pos, to, |runs|);
    var r := top.run;
    var e := runs[r][pos[r]];
    assert e in runs[r][pos[r]..to[r]];
    RestHas(runs, pos, to, |runs|, e);
    forall x | x in Rest(runs, pos, to, |runs|) ensures x == e || Lt(e, x) {
      RestHas(runs, pos, to, |runs|, x);
      var q :| 0 <= q < |runs| && x in runs[q][pos[q]..to[q]];
      var i :| pos[q] <= i < to[q] && runs[q][i] == x;
      assert Head(runs[q][pos[q]].key, q) in Heads(runs, pos, to, |runs|);
      HeadBefore(runs, q, pos[q], i);
      TieByRun(runs, r, pos[r], q, pos[q]);
      LtTransitive(e, runs[q][pos[q]], x);
    }
  }

  lemma LtTransitive(a: KP, b: KP, c: KP)
    ensures Lt(a, b) && Lt(b, c) ==> Lt(a, c)
  {
  }

  lemma HeadBefore(runs: seq<seq<KP>>, q: nat, p: nat, i: nat)
    requires RunsOk(runs) && q < |runs| && p <= i < |runs[q]|
    ensures runs[q][p] == runs[q][i] || Lt(runs[q][p], runs[q][i])
  {
    hide Lt;
    assert Sorted(runs[q]);
  }

  lemma TieByRun(runs: seq<seq<KP>>, r: nat, i: nat, q: nat, j: nat)
    requires RunsOk(runs) && r < |runs| && q < |runs| && i < |runs[r]| && j < |runs[q]|
    requires Le(Head(runs[r][i].key, r), Head(runs[q][j].key, q)) && (r == q ==> i == j)
    ensures runs[r][i] == runs[q][j] || Lt(runs[r][i], runs[q][j])
  {
    hide Sorted;
    assert runs[r][i] in runs[r] && runs[q][j] in runs[q];
  }

  ghost function Total(pos: seq<nat>, to: seq<nat>, n: nat): int
    requires n <= |pos| == |to|
  {
    if n == 0 then 0 else Total(pos, to, n - 1) + to[n - 1] - pos[n - 1]
  }

  lemma {:induction false} RestSize(runs: seq<seq<KP>>, pos: seq<nat>, to: seq<nat>, n: nat)
    requires Cursors(runs, pos, to) && n <= |runs|
    ensures |Rest(runs, pos, to, n)| == Total(pos, to, n)
  {
    if n > 0 {
      RestSize(runs, pos, to, n - 1);
      assert |multiset(runs[n - 1][pos[n - 1]..to[n - 1]])| == |runs[n - 1][pos[n - 1]..to[n - 1]]|;
    }
  }

  // A head for every run that has anything left.
  method FillHeap(runs: seq<seq<KP>>, pos: seq<nat>, to: seq<nat>) returns (heap: MinHeap)
    requires Cursors(runs, pos, to)
    ensures fresh(heap) && fresh(heap.h) && heap.Valid() && heap.h.Length == |runs|
    ensures heap.Contents() == Heads(runs, pos, to, |runs|)
    ensures heap.hn <= |runs|
  {
    hide Heap, Le, Heads, HeadOf, Cursors;
    CursorFacts(runs, pos, to);
    heap := new MinHeap(|runs|);
    var r := 0;
    NoHeads(runs, pos, to);
    while r < |runs|
      invariant r <= |runs| && fresh(heap) && fresh(heap.h) && heap.Valid() && heap.h.Length == |runs| && heap.hn <= r
      invariant heap.Contents() == Heads(runs, pos, to, r)
    {
      HeadsNext(runs, pos, to, r);
      NewHead(runs, pos, to, r);
      if pos[r] < to[r] { heap.Push(runs[r][pos[r]].key, r); }
      r := r + 1;
    }
  }

  lemma NoHeads(runs: seq<seq<KP>>, pos: seq<nat>, to: seq<nat>)
    requires Cursors(runs, pos, to)
    ensures Heads(runs, pos, to, 0) == multiset{}
  {
  }

  lemma HeadsNext(runs: seq<seq<KP>>, pos: seq<nat>, to: seq<nat>, r: nat)
    requires Cursors(runs, pos, to) && r < |runs|
    ensures Heads(runs, pos, to, r + 1) == Heads(runs, pos, to, r) + HeadOf(runs, pos, to, r)
  {
    hide HeadOf;
  }

  // One element out of the heap, and its run's next head in.
  method EmitOne(runs: seq<seq<KP>>, pos: seq<nat>, to: seq<nat>, ghost s: seq<KP>, ghost o: nat, heap: MinHeap)
    returns (e: KP, pos': seq<nat>)
    requires RunsOk(runs) && Cursors(runs, pos, to) && Sorted(s) && o < |s|
    requires multiset(s[o..]) == Rest(runs, pos, to, |runs|)
    requires heap.Valid() && heap.h.Length == |runs| && heap.hn <= |runs|
    requires heap.Contents() == Heads(runs, pos, to, |runs|)
    modifies heap, heap.h
    ensures Cursors(runs, pos', to) && e == s[o] && multiset(s[o + 1..]) == Rest(runs, pos', to, |runs|)
    ensures heap.Valid() && heap.hn <= |runs| && heap.Contents() == Heads(runs, pos', to, |runs|)
  {
    hide RunsOk, Cursors, Sorted, Heads, Rest, Lt, HeadOf, Heap, Le;
    NotEmpty(runs, pos, to, s, o, heap.Contents());
    HeapHolds(heap.h[..heap.hn]);
    var r, top := heap.Pop();
    TopIsNext(runs, pos, to, top);
    CursorFacts(runs, pos, to);
    e := runs[r][pos[r]];
    NextIs(s, o, Rest(runs, pos, to, |runs|), e);
    TopIs(runs, pos, to, top);
    HeadsStep(runs, pos, to, |runs|, r);
    RestStep(runs, pos, to, |runs|, r);
    pos' := pos[r := pos[r] + 1];
    CursorFacts(runs, pos', to);
    NewHead(runs, pos', to, r);
    if pos'[r] < to[r] { heap.Push(runs[r][pos'[r]].key, r); }
  }

  // The emission loop: out[at..at + count] becomes s, the sorted arrangement of
  // what lies between the cursors.
  method EmitRuns(runs: seq<seq<KP>>, from: seq<nat>, to: seq<nat>, ghost s: seq<KP>, out: array<KP>, at: nat,
                  count: nat)
    requires RunsOk(runs) && Cursors(runs, from, to) && Sorted(s) && multiset(s) == Rest(runs, from, to, |runs|)
    requires count == |s| && at + count <= out.Length
    modifies out
    ensures forall i :: 0 <= i < out.Length ==> out[i] == if at <= i < at + count then s[i - at] else old(out[i])
  {
    hide RunsOk, Cursors, Sorted, Heads, Rest, Lt, HeadOf, Heap, Le;
    var pos := from;
    var heap := FillHeap(runs, pos, to);
    var o := 0;
    assert s[0..] == s;
    while o < count
      invariant o <= count && Cursors(runs, pos, to)
      invariant fresh(heap) && fresh(heap.h) && heap.Valid() && heap.h.Length == |runs| && heap.hn <= |runs|
      invariant heap.Contents() == Heads(runs, pos, to, |runs|)
      invariant multiset(s[o..]) == Rest(runs, pos, to, |runs|)
      invariant forall i :: 0 <= i < out.Length ==> out[i] == if at <= i < at + o then s[i - at] else old(out[i])
    {
      var e;
      e, pos := EmitOne(runs, pos, to, s, o, heap);
      out[at + o] := e;
      o := o + 1;
    }
  }

  lemma HeapHolds(h: seq<Head>)
    ensures multiset(h) != multiset{} ==> |h| > 0
  {
  }

  lemma TopIs(runs: seq<seq<KP>>, pos: seq<nat>, to: seq<nat>, top: Head)
    requires Cursors(runs, pos, to) && top in Heads(runs, pos, to, |runs|)
    ensures top.run < |runs| && HeadOf(runs, pos, to, top.run) == multiset{top}
  {
    hide Heads;
    HeadsHave(runs, pos, to, |runs|);
  }

  lemma NewHead(runs: seq<seq<KP>>, pos: seq<nat>, to: seq<nat>, r: nat)
    requires Cursors(runs, pos, to) && r < |runs|
    ensures HeadOf(runs, pos, to, r) == if pos[r] < to[r] then multiset{Head(runs[r][pos[r]].key, r)} else multiset{}
  {
  }

  // As long as something is left, some run has a head.
  lemma NotEmpty(runs: seq<seq<KP>>, pos: seq<nat>, to: seq<nat>, s: seq<KP>, o: nat, heads: multiset<Head>)
    requires Cursors(runs, pos, to) && o < |s| && multiset(s[o..]) == Rest(runs, pos, to, |runs|)
    requires heads == Heads(runs, pos, to, |runs|)
    ensures heads != multiset{}
  {
    hide Heads, Rest;
    assert s[o] in s[o..];
    RestHas(runs, pos, to, |runs|, s[o]);
    var r :| 0 <= r < |runs| && s[o] in runs[r][pos[r]..to[r]];
    HeadsHave(runs, pos, to, |runs|);
    assert Head(runs[r][pos[r]].key, r) in heads;
  }
}
