// The decomposition: a histogram of the leaf frontier, reduced over all PEs, is
// refined until no bin wants splitting and the TreePiece budget is spent; each
// leaf of the last frontier becomes one TreePiece.
module Histogram {
  import opened TreeKeys
  import opened Decomposition
  import opened TreeBuild

  // ---------------- descriptors ----------------

  datatype Descriptor = Descriptor(num: nat, smallest: int, largest: int)

  // The particles of one PE inside a bin, in key order (its array is sorted).
  ghost predicate Describes(d: Descriptor, ps: seq<Particle>, c: Cell)
    requires c.depth <= MAX_DEPTH
  {
    var here := Between(ps, Lo(c), Hi(c));
    && d.num == |here|
    && (here == [] ==> d.smallest == d.largest)
    && (forall q :: q in here ==> d.smallest <= q.key <= d.largest)
    && (here != [] ==> (exists q :: q in here && q.key == d.smallest) && exists q :: q in here && q.key == d.largest)
  }

  // ActiveBinInfo::addNewNode
  method AddNewNode(ps: seq<Particle>, c: Cell, first: nat, count: nat) returns (d: Descriptor)
    requires SortedParts(ps) && ValidCell(c) && RunOf(ps, c, first, count)
    ensures Describes(d, ps, c)
  {
    hide Lo, Hi;
    CellFitsWord(c);
    RunIsBetween(ps, c, first, count);
    if count > 0 {
      d := Descriptor(count, ps[first].key, ps[first + count - 1].key);
      var here := Between(ps, Lo(c), Hi(c));
      assert here[0] in here && here[count - 1] in here;
    } else {
      d := Descriptor(0, Lo(c), Lo(c));
    }
  }

  // NodeDescriptor::grow
  function Grow(a: Descriptor, b: Descriptor): Descriptor {
    if b.num == 0 then a
    else if a.num == 0 then b
    else Descriptor(a.num + b.num, if a.smallest > b.smallest then b.smallest else a.smallest,
                    if a.largest < b.largest then b.largest else a.largest)
  }

  // Growing describes both PEs' particles together, so every shape of reduction
  // tree gives the descriptor of all particles in the bin.
  lemma GrowDescribes(a: Descriptor, b: Descriptor, ps: seq<Particle>, qs: seq<Particle>, c: Cell)
    requires c.depth <= MAX_DEPTH && Describes(a, ps, c) && Describes(b, qs, c)
    ensures Describes(Grow(a, b), ps + qs, c)
  {
    hide Lo, Hi, Between;
    BetweenConcat(ps, qs, Lo(c), Hi(c));
    var x, y := Between(ps, Lo(c), Hi(c)), Between(qs, Lo(c), Hi(c));
    if x != [] && y != [] {
      var s := Grow(a, b).smallest;
      var q: Particle :| q in (if a.smallest > b.smallest then y else x) && q.key == s;
      assert q in x + y;
      var l := Grow(a, b).largest;
      var r: Particle :| r in (if a.largest < b.largest then y else x) && r.key == l;
      assert r in x + y;
    } else if x == [] {
      assert x + y == y;
    } else {
      assert x + y == x;
    }
  }

  // NodeDescriptorReduction, for one bin: message after message into the first.
  method ReduceBin(ds: seq<Descriptor>, ghost parts: seq<seq<Particle>>, c: Cell) returns (d: Descriptor)
    requires c.depth <= MAX_DEPTH && |ds| == |parts| > 0 && forall i :: 0 <= i < |ds| ==> Describes(ds[i], parts[i], c)
    ensures Describes(d, Joined(parts), c)
  {
    hide Describes;
    d := ds[0];
    var i := 1;
    assert parts[..1] == [parts[0]] && Joined(parts[..1]) == parts[0] by { JoinOne(parts[0]); }
    while i < |ds|
      invariant 1 <= i <= |ds| && Describes(d, Joined(parts[..i]), c)
    {
      GrowDescribes(d, ds[i], Joined(parts[..i]), parts[i], c);
      assert parts[..i + 1][..i] == parts[..i];
      d := Grow(d, ds[i]);
      i := i + 1;
    }
    assert parts[..i] == parts;
  }

  function Joined(parts: seq<seq<Particle>>): seq<Particle> {
    if parts == [] then [] else Joined(parts[..|parts| - 1]) + parts[|parts| - 1]
  }

  lemma JoinOne(ps: seq<Particle>)
    ensures Joined([ps]) == ps
  {
    assert [ps][..0] == [];
  }

  // ---------------- the frontier ----------------

  // Leaves of one octree, in key order, tiling the key space.
  ghost predicate Frontier(fr: seq<Cell>) {
    && fr != [] && (forall i :: 0 <= i < |fr| ==> ValidCell(fr[i]))
    && Lo(fr[0]) == Lo(ROOT) && Hi(fr[|fr| - 1]) == Hi(ROOT)
    && forall i :: 0 < i < |fr| ==> Hi(fr[i - 1]) == Lo(fr[i])
  }

  // A piece of it: cells that tile [a, b).
  ghost predicate Tile(fr: seq<Cell>, a: int, b: int) {
    && (forall i :: 0 <= i < |fr| ==> ValidCell(fr[i]))
    && (if fr == [] then a == b else Lo(fr[0]) == a && Hi(fr[|fr| - 1]) == b)
    && forall i :: 0 < i < |fr| ==> Hi(fr[i - 1]) == Lo(fr[i])
  }

  lemma TileJoin(x: seq<Cell>, y: seq<Cell>, a: int, b: int, c: int)
    requires Tile(x, a, b) && Tile(y, b, c)
    ensures Tile(x + y, a, c)
  {
    hide Lo, Hi;
    var s := x + y;
    forall i | 0 < i < |s| ensures Hi(s[i - 1]) == Lo(s[i]) {
      if i == |x| { assert s[i - 1] == x[i - 1] && s[i] == y[0]; }
    }
  }

  lemma {:induction false} KidsTile(c: Cell, n: nat)
    requires ValidCell(c) && c.depth < MAX_DEPTH && n <= BRANCH
    ensures n < BRANCH ==> Tile(Kids(c)[..n], Lo(c), Lo(Child(c, n)))
    ensures n == BRANCH ==> Tile(Kids(c)[..n], Lo(c), Hi(c))
  {
    hide Lo, Hi, Child;
    if n > 0 {
      KidsTile(c, n - 1);
      ChildSpan(c, n - 1);
      assert Kids(c)[..n] == Kids(c)[..n - 1] + [Child(c, n - 1)];
      TileJoin(Kids(c)[..n - 1], [Child(c, n - 1)], Lo(c), Lo(Child(c, n - 1)), Hi(Child(c, n - 1)));
    } else {
      ChildSpan(c, 0);
    }
  }

  // processRefine with keepUnrefined on: marked bins replaced by their children,
  // the others carried over.
  function Refine(fr: seq<Cell>, marks: seq<bool>): seq<Cell>
    requires |marks| == |fr|
  {
    if fr == [] then []
    else
      var n := |fr| - 1;
      Refine(fr[..n], marks[..n]) + if marks[n] then Kids(fr[n]) else [fr[n]]
  }

  function CountMarks(marks: seq<bool>): nat {
    if marks == [] then 0 else CountMarks(marks[..|marks| - 1]) + if marks[|marks| - 1] then 1 else 0
  }

  method ProcessRefine(oldvec: seq<Cell>, splitBins: seq<nat>) returns (newvec: seq<Cell>, ghost marks: seq<bool>)
    requires forall k :: 0 <= k < |splitBins| ==> splitBins[k] < |oldvec|
    ensures |marks| == |oldvec| && (forall i: nat :: i < |oldvec| ==> (marks[i] <==> i in splitBins))
    ensures newvec == Refine(oldvec, marks)
  {
    var flags := MarkPicked(|oldvec|, splitBins);
    marks := flags;
    newvec := [];
    var i := 0;
    while i < |oldvec|
      invariant i <= |oldvec| && newvec == Refine(oldvec[..i], flags[..i])
    {
      assert oldvec[..i + 1][..i] == oldvec[..i] && flags[..i + 1][..i] == flags[..i];
      if !flags[i] {
        newvec := newvec + [oldvec[i]];
      } else {
        newvec := newvec + Kids(oldvec[i]);
      }
      i := i + 1;
    }
    assert oldvec[..i] == oldvec && flags[..i] == flags;
  }

  // Branch factor minus one, times n.
  function Extra(n: int): int {
    if LOG == 1 then n else 7 * n
  }

  lemma {:induction false} RefineTiles(fr: seq<Cell>, marks: seq<bool>, a: int, b: int)
    requires |marks| == |fr| && Tile(fr, a, b)
    requires forall i :: 0 <= i < |fr| && marks[i] ==> fr[i].depth < MAX_DEPTH
    ensures Tile(Refine(fr, marks), a, b) && |Refine(fr, marks)| == |fr| + Extra(CountMarks(marks))
  {
    hide Lo, Hi;
    if fr != [] {
      var n := |fr| - 1;
      var c := fr[n];
      assert ValidCell(c);
      TileInit(fr, a, b);
      RefineTiles(fr[..n], marks[..n], a, Lo(c));
      if marks[n] {
        KidsTile(c, BRANCH);
        assert Kids(c)[..BRANCH] == Kids(c);
        TileJoin(Refine(fr[..n], marks[..n]), Kids(c), a, Lo(c), b);
      } else {
        TileJoin(Refine(fr[..n], marks[..n]), [c], a, Lo(c), b);
      }
    }
  }

  lemma TileInit(fr: seq<Cell>, a: int, b: int)
    requires Tile(fr, a, b) && fr != []
    ensures var n := |fr| - 1; ValidCell(fr[n]) && Tile(fr[..n], a, Lo(fr[n])) && Hi(fr[n]) == b
  {
    hide Lo, Hi;
  }

  lemma FrontierTiles(fr: seq<Cell>)
    ensures Frontier(fr) <==> fr != [] && Tile(fr, Lo(ROOT), Hi(ROOT))
  {
    hide Lo, Hi;
  }

  lemma RefineFrontier(fr: seq<Cell>, marks: seq<bool>)
    requires Frontier(fr) && |marks| == |fr| && forall i :: 0 <= i < |fr| && marks[i] ==> fr[i].depth < MAX_DEPTH
    ensures Frontier(Refine(fr, marks)) && |Refine(fr, marks)| == |fr| + Extra(CountMarks(marks))
  {
    hide Frontier, Tile, Lo, Hi;
    FrontierTiles(fr);
    RefineTiles(fr, marks, Lo(ROOT), Hi(ROOT));
    FrontierTiles(Refine(fr, marks));
  }

  // ---------------- what a bin's descriptor allows ----------------

  predicate Splittable(d: Descriptor) {
    d.smallest != d.largest
  }

  // Splittable means what it should: the bin holds particles of two keys.
  lemma SplittableIs(d: Descriptor, ps: seq<Particle>, c: Cell)
    requires c.depth <= MAX_DEPTH && Describes(d, ps, c)
    ensures Splittable(d) <==> exists q, r ::
        q in ps && r in ps && Lo(c) <= q.key < Hi(c) && Lo(c) <= r.key < Hi(c) && q.key != r.key
  {
    hide Lo, Hi, Between;
    var here := Between(ps, Lo(c), Hi(c));
    forall q ensures q in here <==> q in ps && Lo(c) <= q.key < Hi(c) { BetweenHas(ps, Lo(c), Hi(c), q); }
  }

  // A bin with two keys has another key level to split at.
  lemma SplittableHasRoom(d: Descriptor, ps: seq<Particle>, c: Cell)
    requires ValidCell(c) && Describes(d, ps, c) && Splittable(d)
    ensures c.depth < MAX_DEPTH && d.num > 1
  {
    hide Lo, Hi;
    CellFitsWord(c);
    var here := Between(ps, Lo(c), Hi(c));
    var q :| q in here && q.key == d.smallest;
    var r :| r in here && r.key == d.largest;
    BetweenHas(ps, Lo(c), Hi(c), q);
    BetweenHas(ps, Lo(c), Hi(c), r);
    var i: nat :| i < |here| && here[i] == q;
    var j: nat :| j < |here| && here[j] == r;
    assert i != j;
  }

  // ---------------- receiveHistogram ----------------

  // The heaviest `take` candidates, ties to the lowest bin: what partial_sort
  // leaves in front.
  predicate Heavier(weight: seq<real>, i: nat, j: nat)
    requires i < |weight| && j < |weight|
  {
    weight[i] > weight[j] || (weight[i] == weight[j] && i <= j)
  }

  method Heaviest(weight: seq<real>, candidates: set<nat>, take: nat) returns (chosen: set<nat>)
    requires (forall i :: i in candidates ==> i < |weight|) && take <= |candidates|
    ensures chosen <= candidates && |chosen| == take
    ensures forall i, j :: i in chosen && j in candidates - chosen ==> Heavier(weight, i, j)
  {
    chosen := {};
    var left := candidates;
    while |chosen| < take
      invariant chosen !! left && chosen + left == candidates && |chosen| <= take
      invariant forall i, j :: i in chosen && j in left ==> Heavier(weight, i, j)
      decreases take - |chosen|
    {
      assert |chosen + left| == |chosen| + |left|;
      var best := MostOf(weight, left);
      chosen, left := chosen + {best}, left - {best};
    }
  }

  method MostOf(weight: seq<real>, s: set<nat>) returns (best: nat)
    requires s != {} && forall i :: i in s ==> i < |weight|
    ensures best in s && forall j :: j in s ==> Heavier(weight, best, j)
  {
    best :| best in s;
    var left := s - {best};
    while left != {}
      invariant best in s && left <= s && forall j :: j in s - left ==> Heavier(weight, best, j)
      decreases |left|
    {
      var i :| i in left;
      ghost var was := best;
      if Heavier(weight, i, best) { best := i; }
      assert Heavier(weight, best, i) && Heavier(weight, best, was);
      forall j | j in s - left ensures Heavier(weight, best, j) {
        HeavierTransitive(weight, best, was, j);
      }
      left := left - {i};
    }
  }

  lemma HeavierTransitive(weight: seq<real>, i: nat, j: nat, k: nat)
    requires i < |weight| && j < |weight| && k < |weight| && Heavier(weight, i, j) && Heavier(weight, j, k)
    ensures Heavier(weight, i, k)
  {
  }

  // Back into bin order.
  method InBinOrder(chosen: set<nat>, n: nat) returns (bins: seq<nat>)
    requires forall i :: i in chosen ==> i < n
    ensures (forall i :: i in bins <==> i in chosen) && |bins| == |chosen|
    ensures Ascending(bins, n)
  {
    bins := [];
    var i := 0;
    ghost var seen: set<nat> := {};
    while i < n
      invariant i <= n && (forall k :: k in bins <==> k in chosen && k < i)
      invariant seen == set k | k in chosen && k < i
      invariant |bins| == |seen| && Ascending(bins, i)
    {
      if i in chosen {
        assert (set k | k in chosen && k < i + 1) == seen + {i};
        bins := bins + [i];
        seen := seen + {i};
      } else {
        assert (set k | k in chosen && k < i + 1) == seen;
      }
      i := i + 1;
    }
    assert seen == chosen;
  }

  ghost predicate Ascending(bins: seq<nat>, n: nat) {
    (forall i, j :: 0 <= i < j < |bins| ==> bins[i] < bins[j]) && forall i :: 0 <= i < |bins| ==> bins[i] < n
  }

  // Exactly the first bins that want splitting: a refused one has no taken one
  // after it.
  ghost predicate FirstWanting(ds: seq<Descriptor>, weight: seq<real>, target: real, bins: seq<nat>)
    requires |ds| == |weight|
  {
    && (forall i :: i in bins ==> i < |ds| && weight[i] > target && Splittable(ds[i]))
    && forall i, j :: 0 <= i < j < |ds| && i !in bins && j in bins ==> !(weight[i] > target && Splittable(ds[i]))
  }

  function CountWants(ds: seq<Descriptor>, weight: seq<real>, target: real, n: nat): nat
    requires n <= |ds| == |weight|
  {
    if n == 0 then 0
    else
      var k := n - 1;
      CountWants(ds, weight, target, k) + if weight[k] > target && Splittable(ds[k]) then 1 else 0
  }

  // The bins that want splitting on their own account, as far as the budget goes;
  // overBudget counts the others that want it.
  method WantedBins(ds: seq<Descriptor>, weight: seq<real>, target: real, num0: int, budget: int)
    returns (bins: seq<nat>, num: int, overBudget: nat)
    requires |weight| == |ds| && num0 <= budget
    ensures Ascending(bins, |ds|) && FirstWanting(ds, weight, target, bins)
    ensures |bins| + overBudget == CountWants(ds, weight, target, |ds|)
    ensures overBudget == 0 <==> forall i: nat :: i < |ds| && weight[i] > target && Splittable(ds[i]) ==> i in bins
    ensures num == num0 + Extra(|bins|) <= budget
    ensures overBudget > 0 ==> num + Extra(1) > budget
  {
    hide Splittable;
    bins, num, overBudget := [], num0, 0;
    var i := 0;
    while i < |ds|
      invariant i <= |ds| && Ascending(bins, i)
      invariant forall k :: k in bins ==> k < i && weight[k] > target && Splittable(ds[k])
      invariant forall k, j :: 0 <= k < j < i && k !in bins && j in bins ==> !(weight[k] > target && Splittable(ds[k]))
      invariant |bins| + overBudget == CountWants(ds, weight, target, i)
      invariant overBudget == 0 <==> forall k: nat :: k < i && weight[k] > target && Splittable(ds[k]) ==> k in bins
      invariant num == num0 + Extra(|bins|) <= budget
      invariant overBudget > 0 ==> num + Extra(1) > budget
    {
      var wants := weight[i] > target && Splittable(ds[i]);
      var can := num + Extra(1) <= budget;
      if wants && can {
        bins := bins + [i];
        num := num + Extra(1);
      } else if wants {
        overBudget := overBudget + 1;
      }
      i := i + 1;
    }
  }

  // Candidates for the rest of the budget.
  method Candidates(ds: seq<Descriptor>) returns (s: set<nat>)
    ensures forall i: nat :: i in s <==> i < |ds| && Splittable(ds[i])
  {
    s := {};
    var i := 0;
    while i < |ds|
      invariant i <= |ds| && forall k: nat :: k in s <==> k < i && Splittable(ds[k])
    {
      if Splittable(ds[i]) { s := s + {i}; }
      i := i + 1;
    }
  }

  // How many splits the rest of the budget has room for.
  function Room(left: nat): (r: nat)
    ensures Extra(r) <= left < Extra(r + 1)
  {
    if LOG == 1 then left else left / 7
  }

  ghost function SplittableBins(ds: seq<Descriptor>): set<nat> {
    set i | 0 <= i < |ds| && Splittable(ds[i])
  }

  // Some bin wants splitting and there is room to split one.
  ghost predicate SplitsWanted(ds: seq<Descriptor>, weight: seq<real>, target: real, num0: int, budget: int)
    requires |ds| == |weight|
  {
    num0 + Extra(1) <= budget && exists i: nat :: i < |ds| && weight[i] > target && Splittable(ds[i])
  }

  // Then the bins chosen are the first that want it, and a refused one means that
  // the budget has no room for one more.
  ghost predicate WantedFirst(ds: seq<Descriptor>, weight: seq<real>, target: real, bins: seq<nat>, num0: int,
                              budget: int)
    requires |ds| == |weight|
  {
    SplitsWanted(ds, weight, target, num0, budget) ==>
      && bins != [] && FirstWanting(ds, weight, target, bins)
      && ((exists i: nat :: i < |ds| && weight[i] > target && Splittable(ds[i]) && i !in bins) ==>
           num0 + Extra(|bins|) + Extra(1) > budget)
  }

  // Otherwise as many bins as there is room for are chosen, none lighter than any
  // splittable bin left out.
  ghost predicate ThenHeaviest(ds: seq<Descriptor>, weight: seq<real>, target: real, bins: seq<nat>, num0: int,
                               budget: int)
    requires |ds| == |weight| && num0 <= budget
  {
    var all, room := SplittableBins(ds), Room(budget - num0);
    !SplitsWanted(ds, weight, target, num0, budget) ==>
      && |bins| == (if |all| < room then |all| else room)
      && forall i, j :: i in bins && j in all && j !in bins ==> i < |ds| && Heavier(weight, i, j)
  }

  // The second phase is reached exactly when no wanted split fits.
  lemma NoneTaken(ds: seq<Descriptor>, weight: seq<real>, target: real, bins: seq<nat>, num0: int, budget: int)
    requires |ds| == |weight| && num0 <= budget && FirstWanting(ds, weight, target, bins)
    requires num0 + Extra(|bins|) <= budget
    requires (exists i: nat :: i < |ds| && weight[i] > target && Splittable(ds[i]) && i !in bins) ==>
               num0 + Extra(|bins|) + Extra(1) > budget
    ensures bins == [] <==> !SplitsWanted(ds, weight, target, num0, budget)
    ensures WantedFirst(ds, weight, target, bins, num0, budget)
  {
    hide Splittable;
    if bins != [] { assert bins[0] in bins; }
  }

  // receiveHistogram's decision for one round.  Within the budget always; and
  // when it splits nothing, there is no room for one more split or no bin left
  // with two keys.
  method ReceiveHistogram(ds: seq<Descriptor>, weight: seq<real>, target: real, num0: int, budget: int)
    returns (bins: seq<nat>, num: int)
    requires |weight| == |ds| && num0 <= budget
    ensures Ascending(bins, |ds|) && forall i :: i in bins ==> Splittable(ds[i])
    ensures num == num0 + Extra(|bins|) <= budget
    ensures WantedFirst(ds, weight, target, bins, num0, budget)
    ensures ThenHeaviest(ds, weight, target, bins, num0, budget)
    ensures bins == [] ==> num0 + Extra(1) > budget || forall i :: 0 <= i < |ds| ==> !Splittable(ds[i])
  {
    var overBudget;
    bins, num, overBudget := WantedBins(ds, weight, target, num0, budget);
    NoneTaken(ds, weight, target, bins, num0, budget);
    if |bins| == 0 && num < budget {
      var candidates := Candidates(ds);
      var room := Room(budget - num);
      var take := if |candidates| < room then |candidates| else room;
      var chosen := Heaviest(weight, candidates, take);
      assert candidates == SplittableBins(ds);
      bins := InBinOrder(chosen, |ds|);
      num := num + Extra(take);
      if take == 0 && room > 0 {
        forall i | 0 <= i < |ds| ensures !Splittable(ds[i]) { assert i !in candidates; }
      }
    }
  }

  // ---------------- the whole refinement ----------------

  // Every PE's descriptors of its own particles, reduced bin by bin.
  method ReduceAll(parts: seq<seq<Particle>>, fr: seq<Cell>) returns (ds: seq<Descriptor>)
    requires Frontier(fr) && parts != [] && forall q :: 0 <= q < |parts| ==> SortedParts(parts[q])
    ensures |ds| == |fr|
    ensures forall i :: 0 <= i < |fr| ==> fr[i].depth <= MAX_DEPTH && Describes(ds[i], Joined(parts), fr[i])
  {
    hide Describes, Lo, Hi, SortedParts;
    ds := [];
    var i := 0;
    while i < |fr|
      invariant i == |ds| <= |fr|
      invariant forall k :: 0 <= k < i ==> fr[k].depth <= MAX_DEPTH && Describes(ds[k], Joined(parts), fr[k])
    {
      assert ValidCell(fr[i]);
      var local: seq<Descriptor> := [];
      var q := 0;
      while q < |parts|
        invariant q == |local| <= |parts| && forall k :: 0 <= k < q ==> Describes(local[k], parts[k], fr[i])
      {
        var first, count := RunIn(parts[q], fr[i]);
        var d := AddNewNode(parts[q], fr[i], first, count);
        local := local + [d];
        q := q + 1;
      }
      var d := ReduceBin(local, parts, fr[i]);
      ds := ds + [d];
      i := i + 1;
    }
  }

  // A bin's run of a PE's sorted particles, which Node::refine keeps on the node.
  method RunIn(ps: seq<Particle>, c: Cell) returns (first: nat, count: nat)
    requires SortedParts(ps) && ValidCell(c)
    ensures RunOf(ps, c, first, count)
  {
    hide Shl;
    CellFitsWord(c);
    var keys := KeysOf(ps);
    assert SortedKeys(keys);
    var lo := BinarySearchGE(Lo(c), keys, 0, |ps|);
    var hi := BinarySearchGE(Hi(c), keys, lo, |ps|);
    forall j | 0 <= j < lo ensures ps[j].key < Lo(c) { assert keys[j] == ps[j].key; }
    forall j | lo <= j < hi ensures Lo(c) <= ps[j].key < Hi(c) { assert keys[j] == ps[j].key; }
    forall j | hi <= j < |ps| ensures ps[j].key >= Hi(c) { assert keys[j] == ps[j].key; }
    first, count := lo, hi - lo;
  }

  lemma {:induction false} MarksCount(bins: seq<nat>, marks: seq<bool>, n: nat)
    requires n <= |marks| && Ascending(bins, n) && forall i: nat :: i < n ==> (marks[i] <==> i in bins)
    ensures CountMarks(marks[..n]) == |bins|
    decreases n
  {
    if n > 0 {
      assert marks[..n][..n - 1] == marks[..n - 1];
      if marks[n - 1] {
        var k :| 0 <= k < |bins| && bins[k] == n - 1;
        var last := |bins| - 1;
        assert bins[k] <= bins[last] < n;
        assert bins[last] == n - 1;
        var rest := bins[..last];
        assert bins == rest + [n - 1];
        MarksCount(rest, marks, n - 1);
      } else {
        MarksCount(bins, marks, n - 1);
      }
    }
  }

  // The decomposition's loop.  It ends with one leaf per TreePiece, within the
  // budget, each leaf's count exact over all PEs; and either there is no room for
  // one more split, or no leaf holds two keys.  weights is whatever each round
  // weighs its bins by.
  method Decompose(parts: seq<seq<Particle>>, weights: (nat, seq<Descriptor>) -> seq<real>, target: real, budget: int)
    returns (fr: seq<Cell>, ds: seq<Descriptor>)
    requires parts != [] && (forall q :: 0 <= q < |parts| ==> SortedParts(parts[q])) && 1 <= budget
    requires forall k, s :: |weights(k, s)| == |s|
    ensures Frontier(fr) && |fr| == |ds| <= budget
    ensures forall i :: 0 <= i < |fr| ==> fr[i].depth <= MAX_DEPTH && Describes(ds[i], Joined(parts), fr[i])
    ensures |fr| + Extra(1) > budget || forall i :: 0 <= i < |fr| ==> !Splittable(ds[i])
  {
    hide Describes, Lo, Hi, SortedParts, Splittable;
    fr := [ROOT];
    RootFrontier();
    var num: int := 1;
    var round: nat := 0;
    while true
      invariant Frontier(fr) && num == |fr| <= budget
      decreases budget - num
    {
      ds := ReduceAll(parts, fr);
      var bins, num' := ReceiveHistogram(ds, weights(round, ds), target, num, budget);
      if |bins| == 0 {
        return;
      }
      var newvec; ghost var marks;
      newvec, marks := ProcessRefine(fr, bins);
      forall i | 0 <= i < |fr| && marks[i] ensures fr[i].depth < MAX_DEPTH {
        SplittableHasRoom(ds[i], Joined(parts), fr[i]);
      }
      RefineFrontier(fr, marks);
      MarksCount(bins, marks, |fr|);
      assert marks[..|fr|] == marks;
      fr, num, round := newvec, num', round + 1;
    }
  }

  lemma RootFrontier()
    ensures Frontier([ROOT])
  {
  }

  // What the leader adds up before it sends the TreePieces their particles.
  function SumCounts(ds: seq<Descriptor>): nat {
    if ds == [] then 0 else SumCounts(ds[..|ds| - 1]) + ds[|ds| - 1].num
  }

  lemma {:induction false} TilesCount(fr: seq<Cell>, ds: seq<Descriptor>, all: seq<Particle>, a: int, b: int)
    requires Tile(fr, a, b) && |ds| == |fr|
    requires forall i :: 0 <= i < |fr| ==> fr[i].depth <= MAX_DEPTH && Describes(ds[i], all, fr[i])
    ensures a <= b && SumCounts(ds) == |Between(all, a, b)|
  {
    hide Lo, Hi, Between;
    if fr == [] {
      NoneBetween(all, a);
    } else {
      var n := |fr| - 1;
      TileInit(fr, a, b);
      TilesCount(fr[..n], ds[..n], all, a, Lo(fr[n]));
      CellFitsWord(fr[n]);
      BetweenSplit(all, a, Lo(fr[n]), b);
    }
  }

  lemma NoneBetween(all: seq<Particle>, a: int)
    ensures Between(all, a, a) == []
  {
    BetweenNone(all, a, a);
  }

  // The counts add up to all particles: the leader's abort is unreachable.
  lemma NothingLost(fr: seq<Cell>, ds: seq<Descriptor>, all: seq<Particle>)
    requires Frontier(fr) && |ds| == |fr|
    requires forall i :: 0 <= i < |fr| ==> fr[i].depth <= MAX_DEPTH && Describes(ds[i], all, fr[i])
    requires forall i :: 0 <= i < |all| ==> Lo(ROOT) <= all[i].key < Hi(ROOT)
    ensures SumCounts(ds) == |all|
  {
    hide Lo, Hi, Describes, Tile;
    FrontierTiles(fr);
    TilesCount(fr, ds, all, Lo(ROOT), Hi(ROOT));
    BetweenAll(all, Lo(ROOT), Hi(ROOT));
  }

  // ---------------- TreePieces ----------------

  // TreePieces made of a frontier's leaves and all particles in them, sorted.
  ghost predicate PiecesOf(w: World, fr: seq<Cell>, all: seq<Particle>) {
    && |w.pieces| == |fr|
    && forall i :: 0 <= i < |fr| ==>
         fr[i].depth <= MAX_DEPTH && w.pieces[i].cell == fr[i] && SortedParts(w.pieces[i].parts)
         && multiset(w.pieces[i].parts) == multiset(Between(all, Lo(fr[i]), Hi(fr[i])))
  }

  // They are a world that the tree build and everything after it can stand on.
  lemma FrontierMakesWorld(w: World, fr: seq<Cell>, all: seq<Particle>)
    requires Frontier(fr) && PiecesOf(w, fr, all)
    ensures ValidWorld(w)
  {
    hide Shl, Between;
    forall i | 0 <= i < |w.pieces| ensures ValidPiece(w.pieces[i]) {
      var c, ps := fr[i], w.pieces[i].parts;
      assert ValidCell(c);
      forall k | 0 <= k < |ps| ensures Lo(c) <= ps[k].key < Hi(c) {
        assert ps[k] in multiset(Between(all, Lo(c), Hi(c)));
        BetweenHas(all, Lo(c), Hi(c), ps[k]);
      }
    }
  }

  // The counts of the histogram are the TreePieces' counts.
  lemma CountsExact(w: World, fr: seq<Cell>, all: seq<Particle>, ds: seq<Descriptor>, i: nat)
    requires PiecesOf(w, fr, all) && |ds| == |fr| && i < |fr| && fr[i].depth <= MAX_DEPTH
    requires Describes(ds[i], all, fr[i])
    ensures ds[i].num == |w.pieces[i].parts|
  {
    hide Lo, Hi, Between;
    var ps, here := w.pieces[i].parts, Between(all, Lo(fr[i]), Hi(fr[i]));
    assert |multiset(ps)| == |ps| && |multiset(here)| == |here|;
  }
}
