// Merging the nodes' sorted key runs into the global order: every rank finds by
// binary search where its chunk of a pair's output starts and merges from there;
// pairs of runs are merged in rounds until one is left.
module KeyMerge {
  import opened SortOrder
  import opened SliceSort

  // The left run's elements come first among equal keys.
  ghost predicate LeftFirst(a: seq<KP>, b: seq<KP>) {
    forall x, y :: x in a && y in b ==> x.idx < y.idx
  }

  ghost predicate Pair(a: seq<KP>, b: seq<KP>, s: seq<KP>) {
    Sorted(a) && Sorted(b) && LeftFirst(a, b) && Sorted(s) && multiset(s) == multiset(a) + multiset(b)
  }

  // Comparing keys alone is comparing elements across the two runs.
  lemma KeysDecide(a: seq<KP>, b: seq<KP>, i: nat, j: nat)
    requires LeftFirst(a, b) && i < |a| && j < |b|
    ensures b[j].key < a[i].key <==> Lt(b[j], a[i])
    ensures !(b[j].key < a[i].key) <==> Lt(a[i], b[j])
  {
    assert a[i] in a && b[j] in b;
  }

  // i elements of a and j of b come before everything else.
  ghost predicate SplitOk(a: seq<KP>, b: seq<KP>, i: nat, j: nat) {
    && i <= |a| && j <= |b|
    && (0 < i && j < |b| ==> !(b[j].key < a[i - 1].key))
    && (0 < j && i < |a| ==> b[j - 1].key < a[i].key)
  }

  lemma SplitAll(a: seq<KP>, b: seq<KP>, s: seq<KP>, i: nat, j: nat)
    requires Pair(a, b, s) && SplitOk(a, b, i, j)
    ensures AllBefore(multiset(a[..i]) + multiset(b[..j]), multiset(a[i..]) + multiset(b[j..]))
  {
    hide Lt, LeftFirst, Sorted;
    forall x, y | x in multiset(a[..i]) + multiset(b[..j]) && y in multiset(a[i..]) + multiset(b[j..])
      ensures Lt(x, y)
    {
      if x in a[..i] {
        var m :| 0 <= m < i && a[m] == x;
        if y in a[i..] {
          var k :| i <= k < |a| && a[k] == y;
          InOrder(a, m, k);
        } else {
          var k :| j <= k < |b| && b[k] == y;
          KeysDecide(a, b, i - 1, j);
          AtMost(a, m, i - 1);
          AtMost(b, j, k);
          Chain(a[m], a[i - 1], b[j], b[k]);
        }
      } else {
        var m :| 0 <= m < j && b[m] == x;
        if y in a[i..] {
          var k :| i <= k < |a| && a[k] == y;
          KeysDecide(a, b, i, j - 1);
          AtMost(b, m, j - 1);
          AtMost(a, i, k);
          Chain(b[m], b[j - 1], a[i], a[k]);
        } else {
          var k :| j <= k < |b| && b[k] == y;
          InOrder(b, m, k);
        }
      }
    }
  }

  lemma InOrder(a: seq<KP>, m: nat, k: nat)
    requires Sorted(a) && m < k < |a|
    ensures Lt(a[m], a[k])
  {
    hide Lt;
  }

  lemma AtMost(a: seq<KP>, m: nat, k: nat)
    requires Sorted(a) && m <= k < |a|
    ensures a[m] == a[k] || Lt(a[m], a[k])
  {
    hide Lt;
  }

  lemma Chain(x: KP, a: KP, b: KP, y: KP)
    requires (x == a || Lt(x, a)) && Lt(a, b) && (b == y || Lt(b, y))
    ensures Lt(x, y)
  {
  }

  // A valid split is the split of the sorted order at that position.
  lemma SplitIsPrefix(a: seq<KP>, b: seq<KP>, s: seq<KP>, i: nat, j: nat)
    requires Pair(a, b, s) && SplitOk(a, b, i, j)
    ensures |s| == |a| + |b| && i + j <= |s| && multiset(s[i + j..]) == multiset(a[i..]) + multiset(b[j..])
  {
    hide Sorted, LeftFirst, Lt, AllBefore;
    SplitAll(a, b, s, i, j);
    assert a == a[..i] + a[i..] && b == b[..j] + b[j..];
    var x, y := multiset(a[..i]) + multiset(b[..j]), multiset(a[i..]) + multiset(b[j..]);
    PrefixIs(s, x, y);
    assert |multiset(s)| == |s| && |multiset(a)| == |a| && |multiset(b)| == |b|;
    assert |multiset(a[..i])| == i && |multiset(b[..j])| == j;
  }

  // The binary search for the split at output position o.
  method FindSplit(a: seq<KP>, b: seq<KP>, o: nat) returns (i: nat)
    requires Sorted(a) && Sorted(b) && o <= |a| + |b|
    ensures i <= o && SplitOk(a, b, i, o - i)
  {
    hide Lt;
    var lo, hi := if o > |b| then o - |b| else 0, if o < |a| then o else |a|;
    while lo < hi
      invariant 0 <= lo <= hi <= |a| && o <= lo + |b| && hi <= o
      invariant lo > 0 && o - lo < |b| ==> !(b[o - lo].key < a[lo - 1].key)
      invariant hi < |a| && o > hi ==> b[o - hi - 1].key < a[hi].key
    {
      var mid := lo + (hi - lo) / 2;
      var jm := o - mid;
      var ok := jm == 0 || b[jm - 1].key < a[mid].key;
      if ok { hi := mid; } else { lo := mid + 1; }
    }
    i := lo;
  }

  // Which of the two heads comes next, and the split after it.
  lemma NextOfPair(a: seq<KP>, b: seq<KP>, s: seq<KP>, i: nat, j: nat)
    requires Pair(a, b, s) && SplitOk(a, b, i, j) && i + j < |a| + |b|
    ensures var right := j < |b| && (i >= |a| || b[j].key < a[i].key);
            && |s| == |a| + |b| && (right || i < |a|)
            && s[i + j] == (if right then b[j] else a[i])
            && SplitOk(a, b, if right then i else i + 1, if right then j + 1 else j)
  {
    hide Lt, LeftFirst, Sorted, SplitOk, Pair;
    SplitBounds(a, b, i, j);
    SplitIsPrefix(a, b, s, i, j);
    PairParts(a, b, s);
    NextSplit(a, b, i, j);
    var right := j < |b| && (i >= |a| || b[j].key < a[i].key);
    var m := if right then b[j] else a[i];
    var left := multiset(a[i..]) + multiset(b[j..]);
    assert m in (if right then b[j..] else a[i..]);
    forall x | x in left ensures x == m || Lt(m, x) {
      LeastHead(a, b, s, i, j, x);
    }
    NextIs(s, i + j, left, m);
  }

  lemma SplitBounds(a: seq<KP>, b: seq<KP>, i: nat, j: nat)
    requires SplitOk(a, b, i, j)
    ensures i <= |a| && j <= |b|
  {
  }

  lemma PairParts(a: seq<KP>, b: seq<KP>, s: seq<KP>)
    requires Pair(a, b, s)
    ensures Sorted(a) && Sorted(b) && Sorted(s)
  {
    hide Sorted;
  }

  lemma NextSplit(a: seq<KP>, b: seq<KP>, i: nat, j: nat)
    requires Sorted(a) && Sorted(b) && SplitOk(a, b, i, j) && i + j < |a| + |b|
    ensures var right := j < |b| && (i >= |a| || b[j].key < a[i].key);
            SplitOk(a, b, if right then i else i + 1, if right then j + 1 else j)
  {
  }

  lemma LeastHead(a: seq<KP>, b: seq<KP>, s: seq<KP>, i: nat, j: nat, x: KP)
    requires Pair(a, b, s) && SplitOk(a, b, i, j) && i + j < |a| + |b| && x in multiset(a[i..]) + multiset(b[j..])
    ensures var right := j < |b| && (i >= |a| || b[j].key < a[i].key);
            var m := if right then b[j] else a[i];
            x == m || Lt(m, x)
  {
    hide Lt, LeftFirst, Sorted;
    if i < |a| && j < |b| { KeysDecide(a, b, i, j); }
    if x in a[i..] {
      var k :| i <= k < |a| && a[k] == x;
      AtMost(a, i, k);
      if j < |b| { Onward(b[j], a[i], a[k]); }
    } else {
      var k :| j <= k < |b| && b[k] == x;
      AtMost(b, j, k);
      if i < |a| { Onward(a[i], b[j], b[k]); }
    }
  }

  lemma Onward(x: KP, y: KP, z: KP)
    requires y == z || Lt(y, z)
    ensures Lt(x, y) ==> Lt(x, z)
  {
  }

  // One rank's chunk of a pair's output, written at `at` on.
  method MergeChunk(a: seq<KP>, b: seq<KP>, ghost s: seq<KP>, o0: nat, o1: nat, out: array<KP>, at: nat)
    requires Pair(a, b, s) && o0 <= o1 <= |a| + |b| && at + |a| + |b| <= out.Length
    modifies out
    ensures |s| == |a| + |b|
    ensures forall m :: 0 <= m < out.Length ==> out[m] == if at + o0 <= m < at + o1 then s[m - at] else old(out[m])
  {
    hide Lt, LeftFirst, Sorted;
    var i: nat := FindSplit(a, b, o0);
    var j: nat, o: nat := o0 - i, o0;
    SplitIsPrefix(a, b, s, i, j);
    while o < o1
      invariant o0 <= o <= o1 && i + j == o && SplitOk(a, b, i, j)
      invariant forall m :: 0 <= m < out.Length ==> out[m] == if at + o0 <= m < at + o then s[m - at] else old(out[m])
    {
      NextOfPair(a, b, s, i, j);
      if j < |b| && (i >= |a| || b[j].key < a[i].key) {
        out[at + o] := b[j];
        j := j + 1;
      } else {
        out[at + o] := a[i];
        i := i + 1;
      }
      o := o + 1;
    }
  }

  // All ranks' chunks of one pair.
  method MergePair(a: seq<KP>, b: seq<KP>, ghost s: seq<KP>, out: array<KP>, at: nat, P: nat)
    requires Pair(a, b, s) && at + |a| + |b| <= out.Length && P > 0
    modifies out
    ensures |s| == |a| + |b|
    ensures forall m :: 0 <= m < out.Length ==> out[m] == if at <= m < at + |s| then s[m - at] else old(out[m])
  {
    hide Pair, Share;
    PairLength(a, b, s);
    var tot := |a| + |b|;
    SharesTile(0, tot, P);
    var q := 0;
    while q < P
      invariant q <= P && Share(q, tot, P) <= tot
      invariant forall m :: 0 <= m < out.Length ==>
            out[m] == if at <= m < at + Share(q, tot, P) then s[m - at] else old(out[m])
    {
      SharesTile(q, tot, P);
      MergeChunk(a, b, s, Share(q, tot, P), Share(q + 1, tot, P), out, at);
      q := q + 1;
    }
  }

  lemma PairLength(a: seq<KP>, b: seq<KP>, s: seq<KP>)
    requires Pair(a, b, s)
    ensures |s| == |a| + |b|
  {
    hide Sorted, LeftFirst;
    assert |multiset(s)| == |s| && |multiset(a)| == |a| && |multiset(b)| == |b|;
  }

  // ---------------- rounds ----------------

  // The gathered keys: node s's sorted keys at los[s]..los[s + 1].  An element is
  // its key and its place here, which stands for (node, position in its run).
  ghost predicate GatheredRuns(gathered: seq<nat>, los: seq<nat>) {
    && |los| > 1 && los[0] == 0 && los[|los| - 1] == |gathered|
    && forall g: nat :: g < |los| - 1 ==> SortedRun(gathered, los, g)
  }

  ghost predicate SortedRun(gathered: seq<nat>, los: seq<nat>, g: nat)
    requires g < |los| - 1
  {
    los[g] <= los[g + 1] <= |gathered| && forall i, j :: los[g] <= i < j < los[g + 1] ==> gathered[i] <= gathered[j]
  }

  // The groups of a round: group g is the sorted order of everything gathered
  // between its bounds.
  ghost predicate Groups(gathered: seq<nat>, goff: seq<nat>, cur: seq<KP>) {
    && |goff| > 1 && goff[0] == 0 && goff[|goff| - 1] == |gathered| == |cur|
    && forall g: nat :: g < |goff| - 1 ==> Group(gathered, goff, cur, g)
  }

  ghost predicate Group(gathered: seq<nat>, goff: seq<nat>, cur: seq<KP>, g: nat)
    requires g < |goff| - 1 && |cur| == |gathered|
  {
    goff[g] <= goff[g + 1] <= |gathered| && cur[goff[g]..goff[g + 1]] == Target(gathered, 0, goff[g], goff[g + 1])
  }

  lemma RunIsTarget(gathered: seq<nat>, los: seq<nat>, g: nat)
    requires GatheredRuns(gathered, los) && g < |los| - 1
    ensures SortedRun(gathered, los, g)
    ensures Elems(gathered, 0, los[g], los[g + 1]) == Target(gathered, 0, los[g], los[g + 1])
  {
    assert SortedRun(gathered, los, g);
    var e := Elems(gathered, 0, los[g], los[g + 1]);
    assert Sorted(e);
    TargetIs(gathered, 0, los[g], los[g + 1]);
    SortedOnce(e, Target(gathered, 0, los[g], los[g + 1]));
  }

  lemma TargetsPair(gathered: seq<nat>, i: nat, j: nat, k: nat)
    requires i <= j <= k <= |gathered|
    ensures Pair(Target(gathered, 0, i, j), Target(gathered, 0, j, k), Target(gathered, 0, i, k))
  {
    hide Target, Sorted;
    TargetIs(gathered, 0, i, j);
    TargetIs(gathered, 0, j, k);
    TargetIs(gathered, 0, i, k);
    ElemsJoin(gathered, 0, i, j, k);
  }

  // Groups done so far in a round, in the other buffer.
  ghost predicate DoneGroups(gathered: seq<nat>, ngoff: seq<nat>, out: seq<KP>, end: nat) {
    && |ngoff| > 0 && ngoff[0] == 0 && ngoff[|ngoff| - 1] == end <= |gathered| == |out|
    && forall g: nat :: g < |ngoff| - 1 ==> Group(gathered, ngoff, out, g)
  }

  lemma {:induction false} DoneGrow(gathered: seq<nat>, ngoff: seq<nat>, out: seq<KP>, end: nat, g: nat)
    requires DoneGroups(gathered, ngoff, out, end) && g < |ngoff|
    ensures ngoff[g] <= end
    decreases |ngoff| - g
  {
    hide Target;
    if g < |ngoff| - 1 {
      assert Group(gathered, ngoff, out, g);
      DoneGrow(gathered, ngoff, out, end, g + 1);
    }
  }

  lemma OneMoreGroup(gathered: seq<nat>, ngoff: seq<nat>, a: seq<KP>, b: seq<KP>, end: nat, end': nat)
    requires DoneGroups(gathered, ngoff, a, end) && end <= end' <= |gathered| == |b|
    requires forall m :: 0 <= m < end ==> b[m] == a[m]
    requires b[end..end'] == Target(gathered, 0, end, end')
    ensures DoneGroups(gathered, ngoff + [end'], b, end')
  {
    hide Target;
    var longer := ngoff + [end'];
    forall g: nat | g < |longer| - 1 ensures Group(gathered, longer, b, g) {
      if g < |ngoff| - 1 {
        assert Group(gathered, ngoff, a, g);
        DoneGrow(gathered, ngoff, a, end, g + 1);
        assert b[longer[g]..longer[g + 1]] == a[ngoff[g]..ngoff[g + 1]];
      }
    }
  }

  // One round: neighbouring groups merged in pairs, an odd one copied.
  method MergeRound(gathered: seq<nat>, goff: seq<nat>, cur: array<KP>, P: nat, out: array<KP>)
    returns (ngoff: seq<nat>)
    requires Groups(gathered, goff, cur[..]) && cur != out && out.Length == |gathered| && P > 0
    modifies out
    ensures Groups(gathered, ngoff, out[..]) && |ngoff| - 1 == |goff| / 2
  {
    hide Target, Pair;
    ghost var start := cur[..];
    var g := |goff| - 1;
    ngoff := [0];
    var p, doff := 0, 0;
    while 2 * p < g
      invariant 0 <= 2 * p <= g + 1 && |ngoff| == p + 1
      invariant doff == goff[if 2 * p < g then 2 * p else g] && DoneGroups(gathered, ngoff, out[..], doff)
      invariant cur[..] == start
    {
      var a, b := 2 * p, 2 * p + 1;
      assert Group(gathered, goff, start, a);
      assert b < g ==> Group(gathered, goff, start, b);
      var end := if b < g then goff[b + 1] else goff[b];
      ghost var before := out[..];
      var left := cur[goff[a]..goff[b]];
      var right := cur[goff[b]..end];
      assert right == Target(gathered, 0, goff[b], end) by { if b >= g { NoElems(gathered, end); } }
      TargetsPair(gathered, goff[a], goff[b], end);
      ghost var s := Target(gathered, 0, goff[a], end);
      MergePair(left, right, s, out, doff, P);
      assert out[..][doff..end] == s;
      OneMoreGroup(gathered, ngoff, before, out[..], doff, end);
      ngoff := ngoff + [end];
      doff := end;
      p := p + 1;
    }
  }

  lemma NoElems(gathered: seq<nat>, i: nat)
    requires i <= |gathered|
    ensures Target(gathered, 0, i, i) == []
  {
    assert Elems(gathered, 0, i, i) == [];
  }

  // All rounds: the stable merge of all nodes' runs.
  method MergeRounds(gathered: seq<nat>, los: seq<nat>, P: nat) returns (merged: seq<KP>)
    requires GatheredRuns(gathered, los) && P > 0
    ensures merged == Target(gathered, 0, 0, |gathered|)
  {
    hide Target, Group;
    var bufA := new KP[|gathered|](_ => KP(0, 0));
    var bufB := new KP[|gathered|](_ => KP(0, 0));
    ghost var all := Elems(gathered, 0, 0, |gathered|);
    var cur := new KP[|gathered|](i requires 0 <= i < |gathered| => KP(gathered[i], i));
    assert cur[..] == all;
    var goff, rounds := los, 0;
    FirstGroups(gathered, los, all);
    while |goff| - 1 > 1
      invariant Groups(gathered, goff, cur[..]) && fresh(cur) && cur.Length == |gathered|
      invariant (rounds == 0 ==> cur != bufA)
      decreases |goff|
    {
      var out3 := if rounds == 0 then bufA else if cur == bufA then bufB else bufA;
      goff := MergeRound(gathered, goff, cur, P, out3);
      cur := out3;
      rounds := rounds + 1;
    }
    OneGroup(gathered, goff, cur[..]);
    merged := cur[..];
  }

  lemma FirstGroups(gathered: seq<nat>, los: seq<nat>, cur: seq<KP>)
    requires GatheredRuns(gathered, los) && cur == Elems(gathered, 0, 0, |gathered|)
    ensures Groups(gathered, los, cur)
  {
    hide Target;
    forall g: nat | g < |los| - 1 ensures Group(gathered, los, cur, g) {
      RunIsTarget(gathered, los, g);
      assert cur[los[g]..los[g + 1]] == Elems(gathered, 0, los[g], los[g + 1]);
    }
  }

  lemma OneGroup(gathered: seq<nat>, goff: seq<nat>, cur: seq<KP>)
    requires Groups(gathered, goff, cur) && |goff| == 2
    ensures cur == Target(gathered, 0, 0, |gathered|)
  {
    hide Target;
    assert Group(gathered, goff, cur, 0);
    assert cur[0..|cur|] == cur;
  }

  // ---------------- own positions ----------------

  // mypos for one node: where each of its elements is in the global order.
  ghost predicate Positions(s: seq<KP>, lo: nat, hi: nat, mypos: seq<nat>) {
    && lo <= hi && |mypos| == hi - lo
    && forall p :: 0 <= p < hi - lo ==> mypos[p] < |s| && s[mypos[p]].idx == lo + p
  }

  // Elements from..to of the order that are this node's have their places noted.
  ghost predicate Noted(s: seq<KP>, lo: nat, hi: nat, mypos: seq<nat>, from: nat, to: nat)
    requires lo <= hi && |mypos| == hi - lo && to <= |s|
  {
    forall o: nat :: from <= o < to && lo <= s[o].idx < hi ==> mypos[s[o].idx - lo] == o
  }

  // Element p of the node is none of those.
  ghost predicate NotNoted(s: seq<KP>, lo: nat, from: nat, to: nat, p: nat)
    requires to <= |s|
  {
    forall o: nat :: from <= o < to ==> s[o].idx != lo + p
  }

  // One rank's share of recording them: the places of its own stretch's elements,
  // and no other slot.
  method RecordShare(s: seq<KP>, lo: nat, hi: nat, o0: nat, o1: nat, mypos: array<nat>)
    requires o0 <= o1 <= |s| && lo <= hi && mypos.Length == hi - lo && DistinctIdx(s)
    modifies mypos
    ensures Noted(s, lo, hi, mypos[..], o0, o1)
    ensures forall p: nat :: p < hi - lo && NotNoted(s, lo, o0, o1, p) ==> mypos[p] == old(mypos[p])
  {
    hide Noted, NotNoted, DistinctIdx;
    ghost var start := mypos[..];
    NothingNoted(s, lo, hi, mypos[..], o0);
    var o: nat := o0;
    while o < o1
      invariant o0 <= o <= o1 && Noted(s, lo, hi, mypos[..], o0, o)
      invariant forall p: nat :: p < hi - lo && NotNoted(s, lo, o0, o, p) ==> mypos[p] == start[p]
    {
      ghost var before, next := mypos[..], o + 1;
      if lo <= s[o].idx < hi {
        mypos[s[o].idx - lo] := o;
        assert mypos[..] == before[s[o].idx - lo := o];
      }
      NotedMore(s, lo, hi, before, o0, o);
      forall p: nat | p < hi - lo && NotNoted(s, lo, o0, next, p) ensures mypos[p] == start[p] {
        NotNotedBefore(s, lo, o0, o, p);
      }
      o := o + 1;
    }
  }

  lemma NothingNoted(s: seq<KP>, lo: nat, hi: nat, mypos: seq<nat>, o: nat)
    requires lo <= hi && |mypos| == hi - lo && o <= |s|
    ensures Noted(s, lo, hi, mypos, o, o)
  {
  }

  lemma NotedMore(s: seq<KP>, lo: nat, hi: nat, mypos: seq<nat>, from: nat, o: nat)
    requires lo <= hi && |mypos| == hi - lo && from <= o < |s| && DistinctIdx(s) && Noted(s, lo, hi, mypos, from, o)
    ensures Noted(s, lo, hi, if lo <= s[o].idx < hi then mypos[s[o].idx - lo := o] else mypos, from, o + 1)
  {
  }

  lemma NotNotedBefore(s: seq<KP>, lo: nat, from: nat, o: nat, p: nat)
    requires from <= o < |s| && NotNoted(s, lo, from, o + 1, p)
    ensures NotNoted(s, lo, from, o, p) && s[o].idx != lo + p
  {
  }

  // Another rank's share leaves what is noted.
  lemma NotedKept(s: seq<KP>, lo: nat, hi: nat, a: seq<nat>, b: seq<nat>, o0: nat, o1: nat)
    requires lo <= hi && |a| == |b| == hi - lo && o0 <= o1 <= |s| && DistinctIdx(s)
    requires Noted(s, lo, hi, a, 0, o0) && Noted(s, lo, hi, b, o0, o1)
    requires forall p: nat :: p < hi - lo && NotNoted(s, lo, o0, o1, p) ==> b[p] == a[p]
    ensures Noted(s, lo, hi, b, 0, o1)
  {
    forall o: nat | o < o0 && lo <= s[o].idx < hi ensures b[s[o].idx - lo] == o {
      assert NotNoted(s, lo, o0, o1, s[o].idx - lo);
    }
  }

  function KeysOf(s: seq<KP>, i: nat, j: nat): (k: seq<nat>)
    requires i <= j <= |s|
    ensures |k| == j - i && forall m :: 0 <= m < j - i ==> k[m] == s[i + m].key
  {
    seq<nat>(j - i, m requires 0 <= m < j - i => s[i + m].key)
  }

  // merge_keys_parallel on one node: the full keys replica, and the node's own
  // elements' positions in the order by key, node and position.
  method MergeKeysParallel(gathered: seq<nat>, los: seq<nat>, inter: nat, P: nat)
    returns (keys: seq<nat>, mypos: array<nat>)
    requires GatheredRuns(gathered, los) && inter < |los| - 1 && P > 0
    ensures var s := Target(gathered, 0, 0, |gathered|);
            && |keys| == |s| && (forall o :: 0 <= o < |s| ==> keys[o] == s[o].key)
            && los[inter] <= los[inter + 1] && Positions(s, los[inter], los[inter + 1], mypos[..])
  {
    hide Target, GatheredRuns, Noted, Positions, DistinctIdx;
    var s := MergeRounds(gathered, los, P);
    TargetDistinct(gathered);
    RunBounds(gathered, los, inter);
    mypos := new nat[los[inter + 1] - los[inter]](_ => 0);
    keys := RecordAll(s, los[inter], los[inter + 1], P, mypos);
    AllNoted(gathered, los[inter], los[inter + 1], s, mypos[..]);
  }

  lemma RunBounds(gathered: seq<nat>, los: seq<nat>, g: nat)
    requires GatheredRuns(gathered, los) && g < |los| - 1
    ensures los[g] <= los[g + 1] <= |gathered|
  {
    assert SortedRun(gathered, los, g);
  }

  lemma TargetDistinct(keys: seq<nat>)
    ensures DistinctIdx(Target(keys, 0, 0, |keys|)) && |Target(keys, 0, 0, |keys|)| == |keys|
    ensures forall x :: x in Target(keys, 0, 0, |keys|) ==> x.idx < |keys|
  {
    hide Target, Lt;
    TargetIs(keys, 0, 0, |keys|);
    var s, e := Target(keys, 0, 0, |keys|), Elems(keys, 0, 0, |keys|);
    forall i, j | 0 <= i < j < |s| ensures s[i].idx != s[j].idx {
      assert s[i] in multiset(e) && s[j] in multiset(e);
      Irreflexive(s[i], s[j]);
    }
  }

  lemma Irreflexive(a: KP, b: KP)
    ensures Lt(a, b) ==> a != b
  {
  }

  // Every rank's share of the last loop, in any order: the shares are apart.
  method RecordAll(s: seq<KP>, lo: nat, hi: nat, P: nat, mypos: array<nat>) returns (keys: seq<nat>)
    requires lo <= hi && mypos.Length == hi - lo && P > 0 && DistinctIdx(s)
    modifies mypos
    ensures |keys| == |s| && forall o :: 0 <= o < |s| ==> keys[o] == s[o].key
    ensures Noted(s, lo, hi, mypos[..], 0, |s|)
  {
    hide Share, Noted, NotNoted, DistinctIdx;
    keys := [];
    SharesTile(0, |s|, P);
    NothingNoted(s, lo, hi, mypos[..], 0);
    var q := 0;
    while q < P
      invariant q <= P && |keys| == Share(q, |s|, P) <= |s| && forall o :: 0 <= o < |keys| ==> keys[o] == s[o].key
      invariant Noted(s, lo, hi, mypos[..], 0, Share(q, |s|, P))
    {
      SharesTile(q, |s|, P);
      keys := keys + KeysOf(s, Share(q, |s|, P), Share(q + 1, |s|, P));
      ghost var before := mypos[..];
      RecordShare(s, lo, hi, Share(q, |s|, P), Share(q + 1, |s|, P), mypos);
      NotedKept(s, lo, hi, before, mypos[..], Share(q, |s|, P), Share(q + 1, |s|, P));
      q := q + 1;
    }
  }

  // Every element of the node occurs in the global order.
  lemma AllNoted(gathered: seq<nat>, lo: nat, hi: nat, s: seq<KP>, mypos: seq<nat>)
    requires lo <= hi <= |gathered| && s == Target(gathered, 0, 0, |gathered|) && |mypos| == hi - lo
    requires Noted(s, lo, hi, mypos, 0, |s|)
    ensures Positions(s, lo, hi, mypos)
  {
    hide Target;
    forall p: nat | p < hi - lo ensures mypos[p] < |s| && s[mypos[p]].idx == lo + p {
      var o := PlaceOf(gathered, s, lo + p);
      assert s[o].idx - lo == p;
    }
  }

  // Where element i of the gathered keys is in the global order.
  lemma PlaceOf(gathered: seq<nat>, s: seq<KP>, i: nat) returns (o: nat)
    requires i < |gathered| && s == Target(gathered, 0, 0, |gathered|)
    ensures o < |s| && s[o] == KP(gathered[i], i)
  {
    hide Target, Sorted;
    TargetIs(gathered, 0, 0, |gathered|);
    var e := Elems(gathered, 0, 0, |gathered|);
    assert e[i] in multiset(e);
    assert e[i] in multiset(s);
    o :| o < |s| && s[o] == e[i];
  }

  lemma IndexOrder(s: seq<KP>, i: nat, j: nat)
    requires Sorted(s) && i < |s| && j < |s| && Lt(s[i], s[j])
    ensures i < j
  {
    hide Sorted, Lt;
    Asymmetric(s[i], s[j]);
    if j < i { InOrder(s, j, i); }
  }

  // Positions increase along the node's run.
  lemma PositionsClimb(gathered: seq<nat>, los: seq<nat>, inter: nat, s: seq<KP>, mypos: seq<nat>, p: nat, q: nat)
    requires GatheredRuns(gathered, los) && inter < |los| - 1 && s == Target(gathered, 0, 0, |gathered|)
    requires los[inter] <= los[inter + 1] && Positions(s, los[inter], los[inter + 1], mypos) && p < q < |mypos|
    ensures mypos[p] < mypos[q]
  {
    hide Target;
    TargetIs(gathered, 0, 0, |gathered|);
    assert SortedRun(gathered, los, inter);
    var e := Elems(gathered, 0, 0, |gathered|);
    var x, y := s[mypos[p]], s[mypos[q]];
    assert x in multiset(e) && y in multiset(e);
    assert x == e[x.idx] && y == e[y.idx];
    assert Lt(x, y);
    IndexOrder(s, mypos[p], mypos[q]);
  }
}
