// The locally essential tree of the HPX engine: which cells of the local octree
// one locality sends to another.  Distances and masses are exact reals here.
module EssentialTree {

  // ---------------- geometry ----------------

  datatype Point = Point(x: real, y: real, z: real)
  datatype Box = Box(min: Point, max: Point)

  predicate In(p: Point, b: Box) {
    b.min.x <= p.x <= b.max.x && b.min.y <= p.y <= b.max.y && b.min.z <= p.z <= b.max.z
  }

  predicate ValidBox(b: Box) {
    b.min.x <= b.max.x && b.min.y <= b.max.y && b.min.z <= b.max.z
  }

  function Max(a: real, b: real): real {
    if a < b then b else a
  }

  function Sq(a: real): real {
    a * a
  }

  function Gap(lo1: real, hi1: real, lo2: real, hi2: real): real {
    Max(0.0, Max(lo1 - hi2, lo2 - hi1))
  }

  // min_distance_sq
  function MinDistanceSq(a: Box, b: Box): real {
    var dx := Gap(a.min.x, a.max.x, b.min.x, b.max.x);
    var dy := Gap(a.min.y, a.max.y, b.min.y, b.max.y);
    var dz := Gap(a.min.z, a.max.z, b.min.z, b.max.z);
    Sq(dx) + Sq(dy) + Sq(dz)
  }

  function DistanceSq(p: Point, q: Point): real {
    Sq(p.x - q.x) + Sq(p.y - q.y) + Sq(p.z - q.z)
  }

  lemma SquareGrows(a: real, d: real)
    requires 0.0 <= a && (a <= d || a <= -d)
    ensures Sq(a) <= Sq(d)
  {
    var e := if a <= d then d else -d;
    assert e * e == d * d;
    assert a * a <= a * e <= e * e;
  }

  // The gap is what any two points differ by at least, and two points have it.
  lemma GapIsLeast(lo1: real, hi1: real, lo2: real, hi2: real, p: real, q: real)
    requires lo1 <= p <= hi1 && lo2 <= q <= hi2
    ensures Sq(Gap(lo1, hi1, lo2, hi2)) <= Sq(p - q)
  {
    hide Sq;
    SquareGrows(Gap(lo1, hi1, lo2, hi2), p - q);
  }

  lemma GapAttained(lo1: real, hi1: real, lo2: real, hi2: real) returns (p: real, q: real)
    requires lo1 <= hi1 && lo2 <= hi2
    ensures lo1 <= p <= hi1 && lo2 <= q <= hi2
    ensures Sq(p - q) == Sq(Gap(lo1, hi1, lo2, hi2))
  {
    if hi2 < lo1 {
      p, q := lo1, hi2;
    } else if hi1 < lo2 {
      p, q := hi1, lo2;
      assert Sq(p - q) == Sq(q - p);
    } else {
      p := Max(lo1, lo2);
      q := p;
    }
  }

  // min_distance_sq is the least squared distance between points of the boxes.
  lemma MinDistanceIsLeast(a: Box, b: Box, p: Point, q: Point)
    requires In(p, a) && In(q, b)
    ensures MinDistanceSq(a, b) <= DistanceSq(p, q)
  {
    hide Sq, Gap;
    GapIsLeast(a.min.x, a.max.x, b.min.x, b.max.x, p.x, q.x);
    GapIsLeast(a.min.y, a.max.y, b.min.y, b.max.y, p.y, q.y);
    GapIsLeast(a.min.z, a.max.z, b.min.z, b.max.z, p.z, q.z);
  }

  lemma MinDistanceAttained(a: Box, b: Box) returns (p: Point, q: Point)
    requires ValidBox(a) && ValidBox(b)
    ensures In(p, a) && In(q, b) && DistanceSq(p, q) == MinDistanceSq(a, b)
  {
    hide Sq, Gap;
    var px, qx := GapAttained(a.min.x, a.max.x, b.min.x, b.max.x);
    var py, qy := GapAttained(a.min.y, a.max.y, b.min.y, b.max.y);
    var pz, qz := GapAttained(a.min.z, a.max.z, b.min.z, b.max.z);
    p, q := Point(px, py, pz), Point(qx, qy, qz);
  }

  // ---------------- keys and the tree ----------------

  const MAX_DEPTH: nat := 21

  datatype Key = Key(prefix: nat, depth: nat)

  // mask holds the octants of the children that exist.
  datatype Node = Node(mass: real, isLeaf: bool, mask: set<nat>)

  type Octree = map<Key, Node>

  const ROOT := Key(0, 0)

  // 1 << (63 - 3 * depth)
  function Stride(depth: nat): (s: nat)
    ensures s > 0
    decreases MAX_DEPTH - depth
  {
    if depth >= MAX_DEPTH then 1 else 8 * Stride(depth + 1)
  }

  // prefix | (oc << stride), on a prefix whose low bits are zero.
  function ChildKey(k: Key, oc: nat): Key {
    Key(k.prefix + oc * Stride(k.depth + 1), k.depth + 1)
  }

  function MassOf(t: Octree, k: Key, octants: set<nat>, n: nat): real
    requires forall oc :: oc in octants ==> ChildKey(k, oc) in t
  {
    if n == 0 then 0.0 else MassOf(t, k, octants, n - 1) + if n - 1 in octants then t[ChildKey(k, n - 1)].mass else 0.0
  }

  // What linear_octree.h documents: the mask names exactly existing children, and
  // a node that is not a leaf has the mass of its children.
  ghost predicate ValidNode(t: Octree, k: Key)
    requires k in t
  {
    && k.depth <= MAX_DEPTH
    && (forall oc :: oc in t[k].mask ==> oc < 8 && k.depth < MAX_DEPTH && ChildKey(k, oc) in t)
    && (!t[k].isLeaf && k.depth < MAX_DEPTH ==> t[k].mass == MassOf(t, k, t[k].mask, 8))
  }

  ghost predicate ValidTree(t: Octree) {
    ROOT in t && forall k :: k in t ==> ValidNode(t, k)
  }

  // ---------------- cells as intervals of keys ----------------

  function Lo(k: Key): nat {
    k.prefix
  }

  function Hi(k: Key): nat {
    k.prefix + Stride(k.depth)
  }

  predicate Apart(a: Key, b: Key) {
    Hi(a) <= Lo(b) || Hi(b) <= Lo(a)
  }

  lemma ChildInside(k: Key, oc: nat)
    requires k.depth < MAX_DEPTH && oc < 8
    ensures Lo(k) <= Lo(ChildKey(k, oc)) < Hi(ChildKey(k, oc)) <= Hi(k)
  {
    StrideStep(k.depth);
    hide Stride;
    var s := Stride(k.depth + 1);
    Steps(oc, 8, s);
    Steps(0, oc, s);
  }

  lemma StrideStep(depth: nat)
    requires depth < MAX_DEPTH
    ensures Stride(depth) == 8 * Stride(depth + 1)
  {
  }

  lemma ChildrenApart(k: Key, i: nat, j: nat)
    requires k.depth < MAX_DEPTH && i < 8 && j < 8 && i != j
    ensures Apart(ChildKey(k, i), ChildKey(k, j))
  {
    hide Stride;
    Steps(i, j, Stride(k.depth + 1));
    Steps(j, i, Stride(k.depth + 1));
  }

  lemma Steps(i: nat, j: nat, s: nat)
    ensures i < j ==> i * s + s <= j * s
  {
    if i < j { assert (i + 1) * s <= j * s; }
  }

  // ---------------- what the list stands for ----------------

  ghost predicate NonNested(s: seq<Key>) {
    forall i, j :: 0 <= i < j < |s| ==> Apart(s[i], s[j])
  }

  function Total(t: Octree, s: seq<Key>): real
    requires forall k :: k in s ==> k in t
  {
    if s == [] then 0.0 else Total(t, s[..|s| - 1]) + t[s[|s| - 1]].mass
  }

  // Some cell of s covers the key position x.
  ghost predicate Covers(s: seq<Key>, x: nat) {
    exists i :: 0 <= i < |s| && InCell(s[i], x)
  }

  predicate InCell(k: Key, x: nat) {
    Lo(k) <= x < Hi(k)
  }

  // x lies in a cell of the tree at and below k at which no walk goes further.
  ghost predicate Occupied(t: Octree, k: Key, x: nat)
    requires ValidTree(t) && k in t
    decreases MAX_DEPTH - k.depth
  {
    assert ValidNode(t, k);
    if t[k].isLeaf || k.depth >= MAX_DEPTH then Lo(k) <= x < Hi(k)
    else exists oc :: oc in t[k].mask && Occupied(t, ChildKey(k, oc), x)
  }

  lemma {:induction false} OccupiedInside(t: Octree, k: Key, x: nat)
    requires ValidTree(t) && k in t && Occupied(t, k, x)
    ensures Lo(k) <= x < Hi(k)
    decreases MAX_DEPTH - k.depth
  {
    assert ValidNode(t, k);
    if !(t[k].isLeaf || k.depth >= MAX_DEPTH) {
      var oc :| oc in t[k].mask && Occupied(t, ChildKey(k, oc), x);
      OccupiedInside(t, ChildKey(k, oc), x);
      ChildInside(k, oc);
    }
  }

  // ---------------- the opening test ----------------

  // Cells are cubes of side L / 2^depth.
  function Side(L: real, depth: nat): real {
    if depth == 0 then L else Side(L, depth - 1) / 2.0
  }

  // The octant a key position takes at level d, and its bit for an axis.
  function Digit(x: nat, d: nat): nat {
    x / Stride(d) % 8
  }

  predicate Upper(oc: nat, axis: nat) {
    if axis == 0 then oc % 2 == 1 else if axis == 1 then oc / 2 % 2 == 1 else oc / 4 % 2 == 1
  }

  // decodePrefix and the scaling of its result: the coordinate of the corner of
  // x's cell at depth d, in a cube of side L.
  function Coordinate(x: nat, L: real, d: nat, axis: nat): real {
    if d == 0 then 0.0 else Coordinate(x, L, d - 1, axis) + if Upper(Digit(x, d), axis) then Side(L, d) else 0.0
  }

  // The normalized coordinate, scaled back.
  function Scaled(x: nat, L: real, d: nat, axis: nat): real {
    Coordinate(x, 1.0, d, axis) * L
  }

  datatype Space = Space(min: Point, side: real)

  // getBoundingBoxForCell: at the cell's normalized corner.
  function CellBox(k: Key, sp: Space): Box {
    var s := Side(sp.side, k.depth);
    var lo := Point(sp.min.x + Scaled(k.prefix, sp.side, k.depth, 0),
                    sp.min.y + Scaled(k.prefix, sp.side, k.depth, 1),
                    sp.min.z + Scaled(k.prefix, sp.side, k.depth, 2));
    Box(lo, Point(lo.x + s, lo.y + s, lo.z + s))
  }

  lemma {:induction false} SideScales(L: real, d: nat)
    ensures Side(L, d) == Side(1.0, d) * L
  {
    if d > 0 { SideScales(L, d - 1); }
  }

  lemma {:induction false} CoordinateScales(x: nat, L: real, d: nat, axis: nat)
    ensures Scaled(x, L, d, axis) == Coordinate(x, L, d, axis)
  {
    hide Digit, Upper;
    if d > 0 {
      CoordinateScales(x, L, d - 1, axis);
      SideScales(L, d);
    }
  }

  lemma {:induction false} SidePositive(L: real, d: nat)
    requires L >= 0.0
    ensures Side(L, d) >= 0.0
  {
    if d > 0 { SidePositive(L, d - 1); }
  }

  // Positions with the same leading digits have the same corner.
  lemma {:induction false} SameCorner(x: nat, y: nat, L: real, d: nat, axis: nat)
    requires d <= MAX_DEPTH && x / Stride(d) == y / Stride(d)
    ensures Coordinate(x, L, d, axis) == Coordinate(y, L, d, axis)
  {
    hide Upper, Side, Stride;
    if d > 0 {
      StrideStep(d - 1);
      DivTwice(x, Stride(d));
      DivTwice(y, Stride(d));
      SameCorner(x, y, L, d - 1, axis);
    }
  }

  lemma DivTwice(x: nat, s: nat)
    requires s > 0
    ensures x / (8 * s) == x / s / 8
  {
    var q := x / s;
    assert x == q * s + x % s;
    assert q == q / 8 * 8 + q % 8;
    var r := q % 8 * s + x % s;
    Steps(q % 8, 8, s);
    assert q * s == q / 8 * (8 * s) + q % 8 * s by { Spread(q / 8, q % 8, s); }
    Quotient(x, 8 * s, q / 8, r);
  }

  lemma Spread(a: nat, b: nat, s: nat)
    ensures (a * 8 + b) * s == a * (8 * s) + b * s
  {
  }

  lemma Quotient(x: nat, m: nat, q: nat, r: nat)
    requires m > 0 && x == q * m + r && r < m
    ensures x / m == q
  {
    var p := x / m;
    assert x == p * m + x % m;
    if p < q { Steps(p, q, m); }
    if q < p { Steps(q, p, m); }
  }

  // A deeper corner of the same position lies in the shallower cell, its own cell
  // with it.
  lemma {:induction false} DeeperInside(x: nat, L: real, d: nat, e: nat, axis: nat)
    requires d <= e && L >= 0.0
    ensures Coordinate(x, L, d, axis) <= Coordinate(x, L, e, axis)
    ensures Coordinate(x, L, e, axis) + Side(L, e) <= Coordinate(x, L, d, axis) + Side(L, d)
    decreases e
  {
    hide Digit, Upper;
    if d < e {
      DeeperInside(x, L, d, e - 1, axis);
      SidePositive(L, e);
    }
  }

  // The position lies in the cell: they share the cell's leading digits.
  lemma InCellDigits(k: Key, x: nat)
    requires k.depth <= MAX_DEPTH && k.prefix % Stride(k.depth) == 0 && InCell(k, x)
    ensures x / Stride(k.depth) == k.prefix / Stride(k.depth)
  {
    hide Stride;
    var s := Stride(k.depth);
    var q := k.prefix / s;
    assert k.prefix == q * s;
    Quotient(x, s, q, x - k.prefix);
  }

  predicate Within(a: Box, b: Box) {
    && b.min.x <= a.min.x && a.max.x <= b.max.x && b.min.y <= a.min.y && a.max.y <= b.max.y
    && b.min.z <= a.min.z && a.max.z <= b.max.z
  }

  // A body's own cell, at the last level of its key x, lies inside every cell that
  // covers x: the boxes of the tree hold the bodies below them.
  lemma BodyInCell(k: Key, x: nat, sp: Space)
    requires k.depth <= MAX_DEPTH && k.prefix % Stride(k.depth) == 0 && InCell(k, x) && sp.side >= 0.0
    ensures Within(CellBox(Key(x, MAX_DEPTH), sp), CellBox(k, sp))
  {
    hide Coordinate, Side, Stride, Scaled;
    InCellDigits(k, x);
    BodyAlong(k, x, sp.side, 0);
    BodyAlong(k, x, sp.side, 1);
    BodyAlong(k, x, sp.side, 2);
  }

  lemma BodyAlong(k: Key, x: nat, L: real, axis: nat)
    requires k.depth <= MAX_DEPTH && x / Stride(k.depth) == k.prefix / Stride(k.depth) && L >= 0.0
    ensures Scaled(k.prefix, L, k.depth, axis) <= Scaled(x, L, MAX_DEPTH, axis)
    ensures Scaled(x, L, MAX_DEPTH, axis) + Side(L, MAX_DEPTH) <= Scaled(k.prefix, L, k.depth, axis) + Side(L, k.depth)
  {
    hide Coordinate, Side, Stride, Scaled;
    SameCorner(x, k.prefix, L, k.depth, axis);
    DeeperInside(x, L, k.depth, MAX_DEPTH, axis);
    CoordinateScales(x, L, MAX_DEPTH, axis);
    CoordinateScales(k.prefix, L, k.depth, axis);
  }

  // ---------------- keys of points ----------------

  function Power2(n: nat): (p: nat)
    ensures p > 0
  {
    if n == 0 then 1 else 2 * Power2(n - 1)
  }

  // morton63 of n-bit coordinates.
  function Interleave(x: nat, y: nat, z: nat, n: nat): nat {
    if n == 0 then 0 else 8 * Interleave(x / 2, y / 2, z / 2, n - 1) + x % 2 + 2 * (y % 2) + 4 * (z % 2)
  }

  // One coordinate, normalized, clamped to the cube and cut to MAX_DEPTH bits.
  function Quantized(v: real, lo: real, side: real): nat
    requires side > 0.0
  {
    var t := (v - lo) / side;
    if t <= 0.0 then 0
    else if t >= 1.0 then Power2(MAX_DEPTH) - 1
    else
      Positive(t, Power2(MAX_DEPTH));
      (t * Power2(MAX_DEPTH) as real).Floor
  }

  lemma Positive(t: real, n: nat)
    requires t >= 0.0
    ensures t * n as real >= 0.0
  {
  }

  function Span(side: real): (s: real)
    ensures s > 0.0
  {
    if side <= 0.0 then 1.0 else side
  }

  // generateMortonCodes, for one point.
  function KeyOf(p: Point, sp: Space): nat {
    var s := Span(sp.side);
    Interleave(Quantized(p.x, sp.min.x, s), Quantized(p.y, sp.min.y, s), Quantized(p.z, sp.min.z, s), MAX_DEPTH)
  }

  function Axis(x: nat, y: nat, z: nat, axis: nat): nat {
    if axis == 0 then x else if axis == 1 then y else z
  }

  // Decoding undoes the interleaving, at every level and along every axis.
  lemma {:induction false} Decoded(code: nat, x: nat, y: nat, z: nat, L: real, d: nat, axis: nat)
    requires d <= MAX_DEPTH && code / Stride(d) == Interleave(x, y, z, d) && axis < 3
    requires x < Power2(d) && y < Power2(d) && z < Power2(d)
    ensures Coordinate(code, L, d, axis) == Axis(x, y, z, axis) as real * Side(L, d)
  {
    hide Stride, Upper, Interleave, Power2, Side, Digit, Coordinate, Axis;
    NoLevels(code, x, y, z, L, axis);
    if d > 0 {
      StrideStep(d - 1);
      DivTwice(code, Stride(d));
      OneLevel(x, y, z, d);
      Halved(x, d);
      Halved(y, d);
      Halved(z, d);
      Decoded(code, x / 2, y / 2, z / 2, L, d - 1, axis);
      DecodedStep(code, x, y, z, L, d, axis);
    }
  }

  lemma Halved(x: nat, d: nat)
    requires d > 0 && x < Power2(d)
    ensures x / 2 < Power2(d - 1)
  {
  }

  lemma DecodedStep(code: nat, x: nat, y: nat, z: nat, L: real, d: nat, axis: nat)
    requires 0 < d <= MAX_DEPTH && code / Stride(d) % 8 == x % 2 + 2 * (y % 2) + 4 * (z % 2) && axis < 3
    requires Coordinate(code, L, d - 1, axis) == Axis(x / 2, y / 2, z / 2, axis) as real * Side(L, d - 1)
    ensures Coordinate(code, L, d, axis) == Axis(x, y, z, axis) as real * Side(L, d)
  {
    hide Upper, Stride, Axis, Digit, Coordinate, Side;
    DigitBits(x, y, z);
    AxisHalved(x, y, z, axis);
    OneDigit(code, L, d, axis);
    Halves(Axis(x, y, z, axis), Side(L, d));
  }

  lemma AxisHalved(x: nat, y: nat, z: nat, axis: nat)
    ensures Axis(x / 2, y / 2, z / 2, axis) == Axis(x, y, z, axis) / 2
  {
  }

  lemma OneDigit(code: nat, L: real, d: nat, axis: nat)
    requires d > 0
    ensures Digit(code, d) == code / Stride(d) % 8 && Side(L, d - 1) == Side(L, d) * 2.0
    ensures Coordinate(code, L, d, axis)
         == Coordinate(code, L, d - 1, axis) + if Upper(Digit(code, d), axis) then Side(L, d) else 0.0
  {
    hide Upper, Stride;
  }

  lemma NoLevels(code: nat, x: nat, y: nat, z: nat, L: real, axis: nat)
    ensures x < Power2(0) && y < Power2(0) && z < Power2(0) ==>
              Coordinate(code, L, 0, axis) == Axis(x, y, z, axis) as real * Side(L, 0)
  {
    assert Power2(0) == 1;
    if x == 0 && y == 0 && z == 0 {
      var n := Axis(x, y, z, axis);
      assert n as real == 0.0;
      ZeroTimes(n as real, Side(L, 0));
    }
  }

  lemma ZeroTimes(n: real, s: real)
    requires n == 0.0
    ensures n * s == 0.0
  {
  }

  lemma OneLevel(x: nat, y: nat, z: nat, d: nat)
    requires d > 0
    ensures Interleave(x, y, z, d) / 8 == Interleave(x / 2, y / 2, z / 2, d - 1)
    ensures Interleave(x, y, z, d) % 8 == x % 2 + 2 * (y % 2) + 4 * (z % 2)
  {
  }

  lemma DigitBits(x: nat, y: nat, z: nat)
    ensures var oc := x % 2 + 2 * (y % 2) + 4 * (z % 2);
            forall axis: nat :: axis < 3 ==> (Upper(oc, axis) <==> Axis(x, y, z, axis) % 2 == 1)
  {
  }

  lemma Halves(n: nat, s: real)
    ensures n as real * s == (n / 2) as real * (s * 2.0) + if n % 2 == 1 then s else 0.0
  {
    assert n == n / 2 * 2 + n % 2;
    assert n as real == (n / 2) as real * 2.0 + (n % 2) as real;
  }

  lemma {:induction false} SideTimes(L: real, d: nat)
    ensures Side(L, d) * Power2(d) as real == L
  {
    if d > 0 { SideTimes(L, d - 1); }
  }

  // A coordinate inside the cube lies in the interval its quantized form names.
  lemma QuantizedHolds(v: real, lo: real, side: real)
    requires side > 0.0 && lo <= v <= lo + side
    ensures Quantized(v, lo, side) < Power2(MAX_DEPTH)
    ensures var c := lo + Quantized(v, lo, side) as real * Side(side, MAX_DEPTH);
            c <= v <= c + Side(side, MAX_DEPTH)
  {
    hide Power2, Side;
    var t, q, s, n := (v - lo) / side, Quantized(v, lo, side), Side(side, MAX_DEPTH), Power2(MAX_DEPTH);
    SideTimes(side, MAX_DEPTH);
    SidePositive(side, MAX_DEPTH);
    Divided(v - lo, side);
    if t <= 0.0 {
      AtStart(v - lo, t, side, s);
    } else if t >= 1.0 {
      AtEnd(v - lo, t, side, s, n as real);
    } else {
      var y := t * n as real;
      assert q == y.Floor && q as real <= y < q as real + 1.0;
      Between(v - lo, t, side, s, n as real, q as real);
    }
  }

  lemma Divided(w: real, side: real)
    requires side > 0.0
    ensures w / side * side == w
  {
  }

  lemma AtStart(w: real, t: real, side: real, s: real)
    requires t * side == w && t <= 0.0 && 0.0 <= w && side > 0.0 && s >= 0.0
    ensures w == 0.0 && 0.0 * s == 0.0
  {
  }

  lemma AtEnd(w: real, t: real, side: real, s: real, n: real)
    requires t * side == w && t >= 1.0 && w <= side && side > 0.0 && s >= 0.0 && s * n == side
    ensures (n - 1.0) * s <= w <= (n - 1.0) * s + s
  {
    assert (n - 1.0) * s == s * n - s;
    ScaleGrows(side, 1.0, t);
  }

  lemma Between(w: real, t: real, side: real, s: real, n: real, q: real)
    requires t * side == w && s >= 0.0 && s * n == side && 0.0 < t < 1.0 && n > 0.0 && q <= t * n < q + 1.0
    ensures q * s <= w <= q * s + s && q < n
  {
    ScaleGrows(s, q, t * n);
    ScaleGrows(s, t * n, q + 1.0);
    assert s * (t * n) == t * (s * n);
    assert s * (q + 1.0) == s * q + s;
    assert t * n < 1.0 * n;
  }

  predicate InCube(p: Point, sp: Space) {
    && sp.min.x <= p.x <= sp.min.x + sp.side && sp.min.y <= p.y <= sp.min.y + sp.side
    && sp.min.z <= p.z <= sp.min.z + sp.side
  }

  function Along(p: Point, axis: nat): real {
    if axis == 0 then p.x else if axis == 1 then p.y else p.z
  }

  lemma KeyAlong(p: Point, sp: Space, axis: nat)
    requires sp.side >= 0.0 && InCube(p, sp) && axis < 3
    ensures var c := Along(sp.min, axis) + Scaled(KeyOf(p, sp), sp.side, MAX_DEPTH, axis);
            c <= Along(p, axis) <= c + Side(sp.side, MAX_DEPTH)
  {
    hide Quantized, Power2, Side, Coordinate, Scaled, Interleave, Stride;
    if sp.side == 0.0 {
      NoExtent(p, sp, KeyOf(p, sp), axis);
      return;
    }
    var x, y := Quantized(p.x, sp.min.x, sp.side), Quantized(p.y, sp.min.y, sp.side);
    var z := Quantized(p.z, sp.min.z, sp.side);
    QuantizedHolds(p.x, sp.min.x, sp.side);
    QuantizedHolds(p.y, sp.min.y, sp.side);
    QuantizedHolds(p.z, sp.min.z, sp.side);
    LastStride(KeyOf(p, sp));
    Decoded(KeyOf(p, sp), x, y, z, sp.side, MAX_DEPTH, axis);
    CoordinateScales(KeyOf(p, sp), sp.side, MAX_DEPTH, axis);
  }

  // All bodies at one point.
  lemma NoExtent(p: Point, sp: Space, code: nat, axis: nat)
    requires sp.side == 0.0
    ensures Scaled(code, sp.side, MAX_DEPTH, axis) == 0.0 && Side(sp.side, MAX_DEPTH) == 0.0
  {
    hide Coordinate, Side;
    SideScales(0.0, MAX_DEPTH);
    ZeroTimes(0.0, Side(1.0, MAX_DEPTH));
  }

  lemma LastStride(code: nat)
    ensures code / Stride(MAX_DEPTH) == code
  {
  }

  // A point's key decodes to a last-level cell that holds the point ...
  lemma PointInOwnCell(p: Point, sp: Space)
    requires sp.side >= 0.0 && InCube(p, sp)
    ensures In(p, CellBox(Key(KeyOf(p, sp), MAX_DEPTH), sp))
  {
    hide KeyOf, Side, Scaled;
    KeyAlong(p, sp, 0);
    KeyAlong(p, sp, 1);
    KeyAlong(p, sp, 2);
  }

  // ... and so does every cell of the tree that covers the key.
  lemma PointInCells(p: Point, sp: Space, k: Key)
    requires sp.side >= 0.0 && InCube(p, sp)
    requires k.depth <= MAX_DEPTH && k.prefix % Stride(k.depth) == 0 && InCell(k, KeyOf(p, sp))
    ensures In(p, CellBox(k, sp))
  {
    hide CellBox, KeyOf, Stride, InCell;
    PointInOwnCell(p, sp);
    BodyInCell(k, KeyOf(p, sp), sp);
  }

  // The largest side, squared.
  function SizeSq(b: Box): real {
    var s := Max(b.max.x - b.min.x, Max(b.max.y - b.min.y, b.max.z - b.min.z));
    s * s
  }

  // The Barnes-Hut criterion holds for box b seen from some bucket of the other
  // locality iff no bucket fails it.
  predicate Fails(b: Box, bucket: Box, theta2: real) {
    SizeSq(b) >= theta2 * MinDistanceSq(b, bucket)
  }

  method OpeningFails(b: Box, buckets: seq<Box>, theta2: real) returns (fails: bool)
    ensures fails <==> exists i :: 0 <= i < |buckets| && Fails(b, buckets[i], theta2)
  {
    hide Fails;
    fails := false;
    var i := 0;
    while i < |buckets|
      invariant i <= |buckets| && !fails && forall j :: 0 <= j < i ==> !Fails(b, buckets[j], theta2)
    {
      if Fails(b, buckets[i], theta2) {
        return true;
      }
      i := i + 1;
    }
  }

  // A cell that passes is small enough for every one of its points, seen from
  // every point of every bucket.
  lemma PassesEverywhere(b: Box, buckets: seq<Box>, theta2: real, i: nat, p: Point, q: Point)
    requires theta2 >= 0.0 && i < |buckets| && !Fails(b, buckets[i], theta2) && In(p, b) && In(q, buckets[i])
    ensures SizeSq(b) < theta2 * DistanceSq(p, q)
  {
    hide MinDistanceSq, DistanceSq, SizeSq;
    MinDistanceIsLeast(b, buckets[i], p, q);
    ScaleGrows(theta2, MinDistanceSq(b, buckets[i]), DistanceSq(p, q));
  }

  // A test fails exactly when some point of the cell and some point of the bucket
  // are too close for the cell's size.
  lemma FailsExactly(b: Box, bucket: Box, theta2: real)
    requires ValidBox(b) && ValidBox(bucket) && theta2 >= 0.0
    ensures Fails(b, bucket, theta2)
       <==> exists p, q :: In(p, b) && In(q, bucket) && SizeSq(b) >= theta2 * DistanceSq(p, q)
  {
    hide MinDistanceSq, DistanceSq, SizeSq, In, ValidBox;
    var x, y := MinDistanceAttained(b, bucket);
    forall p, q | In(p, b) && In(q, bucket) ensures theta2 * MinDistanceSq(b, bucket) <= theta2 * DistanceSq(p, q) {
      MinDistanceIsLeast(b, bucket, p, q);
      ScaleGrows(theta2, MinDistanceSq(b, bucket), DistanceSq(p, q));
    }
  }

  // A cell's size is its side.
  lemma CellSize(k: Key, sp: Space)
    requires sp.side >= 0.0
    ensures ValidBox(CellBox(k, sp)) && SizeSq(CellBox(k, sp)) == Sq(Side(sp.side, k.depth))
  {
    hide Scaled, Side;
    SidePositive(sp.side, k.depth);
    var b, s := CellBox(k, sp), Side(sp.side, k.depth);
    assert b.max.x - b.min.x == s && b.max.y - b.min.y == s && b.max.z - b.min.z == s;
  }

  lemma ScaleGrows(c: real, a: real, b: real)
    requires c >= 0.0 && a <= b
    ensures c * a <= c * b
  {
  }

  // ---------------- createInteractionListForRank ----------------

  const STACK: nat := 256

  // Kept and still to do: apart, in the tree, of the root's mass, and over
  // everything occupied.
  ghost predicate Progress(t: Octree, keep: seq<Key>, stk: seq<Key>)
    requires ValidTree(t)
  {
    var s := keep + stk;
    && NonNested(s) && (forall k :: k in s ==> k in t)
    && Total(t, s) == t[ROOT].mass
    && forall x :: Occupied(t, ROOT, x) ==> Reached(t, s, x)
  }

  // x is occupied at or below some cell of s.
  ghost predicate Reached(t: Octree, s: seq<Key>, x: nat)
    requires ValidTree(t)
  {
    exists i :: 0 <= i < |s| && s[i] in t && Occupied(t, s[i], x)
  }

  // The i-th entry of the stack leaves room for seven siblings a level.
  ghost predicate Stacked(t: Octree, stk: seq<Key>) {
    forall i :: 0 <= i < |stk| ==> stk[i] in t && i <= 7 * stk[i].depth
  }

  ghost predicate Accepted(t: Octree, k: Key, sp: Space, buckets: seq<Box>, theta2: real, maxDepth: nat)
    requires k in t
  {
    t[k].isLeaf || k.depth >= maxDepth || forall i :: 0 <= i < |buckets| ==> !Fails(CellBox(k, sp), buckets[i], theta2)
  }

  lemma {:induction false} TotalConcat(t: Octree, a: seq<Key>, b: seq<Key>)
    requires forall k :: k in a + b ==> k in t
    ensures (forall k :: k in a ==> k in t) && (forall k :: k in b ==> k in t)
    ensures Total(t, a + b) == Total(t, a) + Total(t, b)
  {
    assert forall k :: k in a ==> k in a + b;
    assert forall k :: k in b ==> k in a + b;
    if b == [] {
      assert a + b == a;
    } else {
      assert (a + b)[..|a + b| - 1] == a + b[..|b| - 1];
      TotalConcat(t, a, b[..|b| - 1]);
    }
  }

  // The children of the octants left in the mask, in the order they are pushed.
  ghost predicate ChildrenOf(t: Octree, k: Key, octants: set<nat>, kids: seq<Key>)
    requires k in t && ValidNode(t, k)
  {
    && octants <= t[k].mask && |kids| == |octants|
    && (forall c :: c in kids ==> exists oc :: oc in octants && c == ChildKey(k, oc))
    && (forall oc :: oc in octants ==> ChildKey(k, oc) in kids)
    && NonNested(kids)
    && (forall c :: c in kids ==> c in t)
    && Total(t, kids) == MassOf(t, k, octants, 8)
  }

  lemma {:induction false} MassOfMore(t: Octree, k: Key, octants: set<nat>, oc: nat, n: nat)
    requires k in t && ValidNode(t, k) && octants <= t[k].mask && oc in t[k].mask && oc !in octants
    ensures MassOf(t, k, octants + {oc}, n) == MassOf(t, k, octants, n)
        + if oc < n then t[ChildKey(k, oc)].mass else 0.0
  {
    if n > 0 { MassOfMore(t, k, octants, oc, n - 1); }
  }

  lemma {:induction false} NoMass(t: Octree, k: Key, n: nat)
    ensures MassOf(t, k, {}, n) == 0.0
  {
    if n > 0 { NoMass(t, k, n - 1); }
  }

  lemma OneMoreChild(t: Octree, k: Key, octants: set<nat>, kids: seq<Key>, oc: nat)
    requires k in t && ValidNode(t, k) && ChildrenOf(t, k, octants, kids) && oc in t[k].mask && oc !in octants
    ensures ChildrenOf(t, k, octants + {oc}, kids + [ChildKey(k, oc)])
  {
    hide Apart, MassOf, ChildKey;
    var more := kids + [ChildKey(k, oc)];
    MassOfMore(t, k, octants, oc, 8);
    TotalConcat(t, kids, [ChildKey(k, oc)]);
    assert [ChildKey(k, oc)][..0] == [];
    forall i, j | 0 <= i < j < |more| ensures Apart(more[i], more[j]) {
      if j == |kids| {
        assert kids[i] in kids;
        var x :| x in octants && kids[i] == ChildKey(k, x);
        ChildrenApart(k, x, oc);
      }
    }
  }

  // The mask loop: every existing child is pushed; the bound on the stack is never
  // met.
  method PushChildren(t: Octree, k: Key, stk: array<Key>, top0: nat) returns (top: nat, ghost kids: seq<Key>)
    requires ValidTree(t) && k in t && stk.Length == STACK && top0 <= 7 * k.depth && k.depth < MAX_DEPTH
    modifies stk
    ensures top == top0 + |kids| <= STACK && stk[..top] == old(stk[..top0]) + kids
    ensures ValidNode(t, k) && ChildrenOf(t, k, t[k].mask, kids)
    ensures |kids| <= 8 && forall i :: 0 <= i < |kids| ==> kids[i].depth == k.depth + 1
  {
    hide ChildKey, MassOf, NonNested, Total, ValidTree, ValidNode, ChildrenOf;
    OfTree(t, k);
    top, kids := top0, [];
    var m := t[k].mask;
    ghost var done: set<nat> := {};
    NoChildren(t, k);
    while m != {}
      invariant done + m == t[k].mask && done !! m && top == top0 + |kids| && top <= STACK
      invariant stk[..top] == old(stk[..top0]) + kids
      invariant ChildrenOf(t, k, done, kids)
      decreases |m|
    {
      var oc :| oc in m;
      m := m - {oc};
      ChildCount(t, k, done, kids);
      FewOctants(done, oc, t[k].mask);
      OneMoreChild(t, k, done, kids, oc);
      ghost var before := stk[..top];
      if top < STACK {
        stk[top] := ChildKey(k, oc);
        top := top + 1;
        assert stk[..top] == before + [ChildKey(k, oc)];
      }
      kids := kids + [ChildKey(k, oc)];
      done := done + {oc};
    }
    ChildCount(t, k, done, kids);
    FewAll(t[k].mask);
    assert done == t[k].mask;
    forall i | 0 <= i < |kids| ensures kids[i].depth == k.depth + 1 {
      assert kids[i] in kids;
      var oc := OctantOf(t, k, done, kids, kids[i]);
      ChildDepth(k, oc);
    }
  }

  lemma OfTree(t: Octree, k: Key)
    requires ValidTree(t) && k in t
    ensures ValidNode(t, k) && forall oc :: oc in t[k].mask ==> oc < 8
  {
    hide MassOf, ChildKey;
    assert ValidNode(t, k);
  }

  lemma OctantOf(t: Octree, k: Key, octants: set<nat>, kids: seq<Key>, c: Key) returns (oc: nat)
    requires k in t && ValidNode(t, k) && ChildrenOf(t, k, octants, kids) && c in kids
    ensures oc in octants && c == ChildKey(k, oc)
  {
    hide ValidNode, NonNested, MassOf, Total, ChildKey;
    oc :| oc in octants && c == ChildKey(k, oc);
  }

  lemma ChildCount(t: Octree, k: Key, octants: set<nat>, kids: seq<Key>)
    requires k in t && ValidNode(t, k) && ChildrenOf(t, k, octants, kids)
    ensures |kids| == |octants|
  {
    hide ValidNode, NonNested, MassOf, Total, ChildKey;
  }

  lemma ChildDepth(k: Key, oc: nat)
    ensures ChildKey(k, oc).depth == k.depth + 1
  {
  }

  lemma NoChildren(t: Octree, k: Key)
    requires k in t && ValidNode(t, k)
    ensures ChildrenOf(t, k, {}, [])
  {
    NoMass(t, k, 8);
  }

  lemma FewAll(s: set<nat>)
    requires forall oc :: oc in s ==> oc < 8
    ensures |s| <= 8
  {
    var all := {0, 1, 2, 3, 4, 5, 6, 7};
    assert s <= all;
    Subset(s, all);
    assert |all| == 8;
  }

  lemma {:induction false} Subset(a: set<nat>, b: set<nat>)
    requires a <= b
    ensures |a| <= |b|
    decreases a
  {
    if a != {} {
      var x :| x in a;
      Subset(a - {x}, b - {x});
    }
  }

  lemma FewOctants(done: set<nat>, oc: nat, mask: set<nat>)
    requires oc !in done && done + {oc} <= mask && forall o :: o in mask ==> o < 8
    ensures |done| <= 7
  {
    FewAll(done + {oc});
    assert |done + {oc}| == |done| + 1;
  }

  // ---------------- the loop ----------------

  function Weight(depth: nat): (w: nat)
    ensures w > 0
    decreases MAX_DEPTH - depth
  {
    if depth >= MAX_DEPTH then 1 else 8 * Weight(depth + 1) + 1
  }

  ghost function Weights(stk: seq<Key>): nat {
    if stk == [] then 0 else Weights(stk[..|stk| - 1]) + Weight(stk[|stk| - 1].depth)
  }

  lemma {:induction false} WeightsOfKids(below: seq<Key>, kids: seq<Key>, d: nat)
    requires forall i :: 0 <= i < |kids| ==> kids[i].depth == d
    ensures Weights(below + kids) == Weights(below) + |kids| * Weight(d)
  {
    hide Weight;
    if kids == [] {
      assert below + kids == below;
    } else {
      assert (below + kids)[..|below + kids| - 1] == below + kids[..|kids| - 1];
      WeightsOfKids(below, kids[..|kids| - 1], d);
      assert |kids| * Weight(d) == (|kids| - 1) * Weight(d) + Weight(d);
    }
  }

  lemma OpenedShrinks(below: seq<Key>, k: Key, kids: seq<Key>)
    requires k.depth < MAX_DEPTH && |kids| <= 8 && forall i :: 0 <= i < |kids| ==> kids[i].depth == k.depth + 1
    ensures Weights(below + kids) < Weights(below + [k])
  {
    hide Weights;
    WeightsOfKids(below, kids, k.depth + 1);
    WeightsOfKids(below, [k], k.depth);
    AtMost8(|kids|, Weight(k.depth + 1));
  }

  lemma AtMost8(n: nat, w: nat)
    requires n <= 8
    ensures n * w <= 8 * w
  {
  }

  lemma HasRoot(t: Octree)
    requires ValidTree(t)
    ensures ROOT in t
  {
    hide ValidNode;
  }

  // Taking the top off, either way, keeps the account.
  lemma KeptOne(t: Octree, keep: seq<Key>, below: seq<Key>, k: Key)
    requires ValidTree(t) && Progress(t, keep, below + [k])
    ensures Progress(t, keep + [k], below)
  {
    hide Apart, Occupied, ValidTree;
    var a, b := keep + (below + [k]), keep + [k] + below;
    assert forall x :: x in b ==> x in a;
    forall i, j | 0 <= i < j < |b| ensures Apart(b[i], b[j]) { MovedApart(keep, below, k, i, j); }
    TotalConcat(t, keep, below + [k]);
    TotalConcat(t, below, [k]);
    TotalConcat(t, keep + [k], below);
    TotalConcat(t, keep, [k]);
    HasRoot(t);
    forall x | Occupied(t, ROOT, x) ensures Reached(t, b, x) {
      assert Reached(t, a, x);
      var i :| 0 <= i < |a| && a[i] in t && Occupied(t, a[i], x);
      var j := if i < |keep| then i else if i == |a| - 1 then |keep| else i + 1;
      assert b[j] == a[i];
    }
  }

  lemma MovedApart(keep: seq<Key>, below: seq<Key>, k: Key, i: nat, j: nat)
    requires NonNested(keep + (below + [k])) && i < j < |keep + [k] + below|
    ensures Apart((keep + [k] + below)[i], (keep + [k] + below)[j])
  {
    hide Apart;
    var a, b := keep + (below + [k]), keep + [k] + below;
    var x := if i < |keep| then i else if i == |keep| then |a| - 1 else i - 1;
    var y := if j < |keep| then j else if j == |keep| then |a| - 1 else j - 1;
    assert a[x] == b[i] && a[y] == b[j];
    ApartBoth(b[i], b[j]);
    if x < y { assert Apart(a[x], a[y]); } else { assert Apart(a[y], a[x]); }
  }

  lemma ApartBoth(a: Key, b: Key)
    ensures Apart(a, b) <==> Apart(b, a)
  {
  }

  lemma KidApart(t: Octree, k: Key, kids: seq<Key>, c: Key, x: Key)
    requires k in t && ValidNode(t, k) && ChildrenOf(t, k, t[k].mask, kids) && c in kids && k.depth < MAX_DEPTH
    ensures Apart(x, k) ==> Apart(x, c)
  {
    hide ChildKey, Stride, MassOf, Total;
    var oc :| oc in t[k].mask && c == ChildKey(k, oc);
    ChildInside(k, oc);
  }

  lemma OpenedOne(t: Octree, keep: seq<Key>, below: seq<Key>, k: Key, kids: seq<Key>)
    requires ValidTree(t) && Progress(t, keep, below + [k]) && k in t && ValidNode(t, k)
    requires !t[k].isLeaf && k.depth < MAX_DEPTH && ChildrenOf(t, k, t[k].mask, kids)
    ensures Progress(t, keep, below + kids)
  {
    hide Apart, Occupied, ValidTree, ChildKey, MassOf;
    var a, b := keep + (below + [k]), keep + (below + kids);
    assert a == keep + below + [k] && b == keep + below + kids;
    OpenedApart(t, keep + below, k, kids);
    assert forall x :: x in b ==> x in a || x in kids;
    TotalConcat(t, keep + below, [k]);
    TotalConcat(t, keep + below, kids);
    TotalOne(t, k);
    HasRoot(t);
    forall x | Occupied(t, ROOT, x) ensures Reached(t, b, x) {
      assert Reached(t, a, x);
      var i :| 0 <= i < |a| && a[i] in t && Occupied(t, a[i], x);
      if i < |keep + below| {
        assert b[i] == a[i];
      } else {
        OpenedReached(t, k, kids, x, keep + below);
      }
    }
  }

  lemma TotalOne(t: Octree, k: Key)
    requires k in t
    ensures Total(t, [k]) == t[k].mass
  {
    assert [k][..0] == [];
  }

  lemma OpenedReached(t: Octree, k: Key, kids: seq<Key>, x: nat, before: seq<Key>)
    requires ValidTree(t) && k in t && ValidNode(t, k) && Occupied(t, k, x)
    requires !t[k].isLeaf && k.depth < MAX_DEPTH && ChildrenOf(t, k, t[k].mask, kids)
    ensures Reached(t, before + kids, x)
  {
    hide Apart, ChildKey, MassOf, ValidTree, Total, NonNested;
    var oc :| oc in t[k].mask && Occupied(t, ChildKey(k, oc), x);
    var i :| 0 <= i < |kids| && kids[i] == ChildKey(k, oc);
    assert (before + kids)[|before| + i] == ChildKey(k, oc);
  }

  lemma OpenedApart(t: Octree, before: seq<Key>, k: Key, kids: seq<Key>)
    requires k in t && ValidNode(t, k) && ChildrenOf(t, k, t[k].mask, kids) && k.depth < MAX_DEPTH
    requires NonNested(before + [k])
    ensures NonNested(before + kids)
  {
    hide Apart, ChildKey, MassOf, Total;
    var s := before + kids;
    forall i, j | 0 <= i < j < |s| ensures Apart(s[i], s[j]) {
      if i < |before| <= j {
        assert Apart((before + [k])[i], (before + [k])[|before|]);
        assert kids[j - |before|] in kids;
        KidApart(t, k, kids, s[j], s[i]);
      } else if j < |before| {
        assert Apart((before + [k])[i], (before + [k])[j]);
      } else {
        assert Apart(kids[i - |before|], kids[j - |before|]);
      }
    }
  }

  lemma StackedKids(t: Octree, below: seq<Key>, kids: seq<Key>, k: Key)
    requires Stacked(t, below) && |below| <= 7 * k.depth && |kids| <= 8
    requires forall i :: 0 <= i < |kids| ==> kids[i] in t && kids[i].depth == k.depth + 1
    ensures Stacked(t, below + kids)
  {
  }

  // ---------------- why a cell is opened ----------------

  // Keys are prefixes: their bits below the cell's level are zero.
  predicate Aligned(k: Key) {
    k.prefix % Stride(k.depth) == 0
  }

  predicate Inside(k: Key, a: Key) {
    Lo(a) <= Lo(k) && Hi(k) <= Hi(a)
  }

  // a can be opened and some bucket fails its opening test.
  ghost predicate Opened(t: Octree, a: Key, sp: Space, buckets: seq<Box>, theta2: real, maxDepth: nat)
    requires a in t
  {
    && !t[a].isLeaf && a.depth < maxDepth
    && exists i :: 0 <= i < |buckets| && Fails(CellBox(a, sp), buckets[i], theta2)
  }

  // Every cell of the tree around k was opened.
  ghost predicate AroundOpened(t: Octree, k: Key, sp: Space, buckets: seq<Box>, theta2: real, maxDepth: nat) {
    && Aligned(k) && Inside(k, ROOT)
    && forall a :: a in t && Aligned(a) && a.depth < k.depth && Inside(k, a) ==>
          Opened(t, a, sp, buckets, theta2, maxDepth)
  }

  // The cells kept or still to do are there because all cells around them were
  // opened; nothing is left only below an opened root.
  ghost predicate AllNeeded(t: Octree, s: seq<Key>, sp: Space, buckets: seq<Box>, theta2: real, maxDepth: nat) {
    && ROOT in t && (forall k :: k in s ==> AroundOpened(t, k, sp, buckets, theta2, maxDepth))
    && (s == [] ==> Opened(t, ROOT, sp, buckets, theta2, maxDepth))
  }

  function Power8(n: nat): (p: nat)
    ensures p > 0
  {
    if n == 0 then 1 else 8 * Power8(n - 1)
  }

  lemma {:induction false} StrideSteps(d: nat, e: nat)
    requires d <= e <= MAX_DEPTH
    ensures Stride(d) == Power8(e - d) * Stride(e)
    decreases e - d
  {
    if d < e {
      StrideSteps(d + 1, e);
      Eightfold(Power8(e - d - 1), Stride(e));
    }
  }

  lemma Eightfold(p: nat, s: nat)
    ensures 8 * (p * s) == (8 * p) * s
  {
  }

  // Aligned cells that meet are nested.
  lemma AlignedNested(a: Key, k: Key)
    requires Aligned(a) && Aligned(k) && a.depth <= k.depth <= MAX_DEPTH && !Apart(a, k)
    ensures Inside(k, a)
  {
    hide Stride, Power8;
    StrideSteps(a.depth, k.depth);
    var s, p := Stride(k.depth), Power8(k.depth - a.depth);
    var x, y := a.prefix / Stride(a.depth), k.prefix / s;
    WholeCells(a.prefix, Stride(a.depth));
    WholeCells(k.prefix, s);
    Regroup(x, p, s);
    GridNested(x * p, p, y, s);
  }

  lemma WholeCells(n: nat, s: nat)
    requires s > 0 && n % s == 0
    ensures n == n / s * s
  {
  }

  // On a grid of step s: p steps from m on and one step from y on.
  lemma GridNested(m: nat, p: nat, y: nat, s: nat)
    requires m * s < y * s + s && y * s < m * s + p * s
    ensures m * s <= y * s && y * s + s <= m * s + p * s
  {
    var e := m + p;
    assert e * s == m * s + p * s;
    Steps(y, m, s);
    Steps(y, e, s);
    if y >= e { StepsBack(e, y, s); } else { StepsBack(m, y, s); }
  }

  lemma StepsBack(i: nat, j: nat, s: nat)
    requires i <= j
    ensures i * s <= j * s
  {
  }

  lemma Regroup(x: nat, p: nat, s: nat)
    ensures x * (p * s) == x * p * s
  {
  }

  lemma SameDepth(a: Key, k: Key)
    requires Inside(k, a) && a.depth == k.depth
    ensures a == k
  {
  }

  lemma ChildAligned(k: Key, oc: nat)
    requires Aligned(k) && k.depth < MAX_DEPTH
    ensures Aligned(ChildKey(k, oc))
  {
    hide Stride;
    StrideStep(k.depth);
    var s := Stride(k.depth + 1);
    var q := k.prefix / Stride(k.depth);
    assert k.prefix == q * (8 * s);
    Regroup(q, 8, s);
    assert k.prefix + oc * s == (q * 8 + oc) * s;
    Multiple(q * 8 + oc, s);
  }

  lemma Multiple(q: nat, s: nat)
    requires s > 0
    ensures q * s % s == 0
  {
    Quotient(q * s, s, q, 0);
  }

  // A child of an opened cell is where it should be.
  lemma KidAround(t: Octree, k: Key, oc: nat, sp: Space, buckets: seq<Box>, theta2: real, maxDepth: nat)
    requires AroundOpened(t, k, sp, buckets, theta2, maxDepth) && k in t && k.depth < MAX_DEPTH && oc < 8
    requires Opened(t, k, sp, buckets, theta2, maxDepth)
    ensures AroundOpened(t, ChildKey(k, oc), sp, buckets, theta2, maxDepth)
  {
    hide Stride, Opened, Aligned;
    var c := ChildKey(k, oc);
    ChildInside(k, oc);
    ChildAligned(k, oc);
    forall a | a in t && Aligned(a) && a.depth < c.depth && Inside(c, a)
      ensures Opened(t, a, sp, buckets, theta2, maxDepth)
    {
      AlignedNested(a, k);
      if a.depth == k.depth { SameDepth(a, k); }
    }
  }

  lemma KidsAround(t: Octree, k: Key, kids: seq<Key>, sp: Space, buckets: seq<Box>, theta2: real, maxDepth: nat)
    requires AroundOpened(t, k, sp, buckets, theta2, maxDepth) && k in t && k.depth < MAX_DEPTH
    requires ValidNode(t, k) && ChildrenOf(t, k, t[k].mask, kids) && Opened(t, k, sp, buckets, theta2, maxDepth)
    ensures forall c :: c in kids ==> AroundOpened(t, c, sp, buckets, theta2, maxDepth)
  {
    hide AroundOpened, Opened, ChildKey, MassOf, Total;
    forall c | c in kids ensures AroundOpened(t, c, sp, buckets, theta2, maxDepth) {
      var oc :| oc in t[k].mask && c == ChildKey(k, oc);
      KidAround(t, k, oc, sp, buckets, theta2, maxDepth);
    }
  }

  lemma OpenedNeeded(t: Octree, keep: seq<Key>, below: seq<Key>, k: Key, kids: seq<Key>, sp: Space,
                     buckets: seq<Box>, theta2: real, maxDepth: nat)
    requires AllNeeded(t, keep + (below + [k]), sp, buckets, theta2, maxDepth) && k in t && k.depth < MAX_DEPTH
    requires ValidNode(t, k) && ChildrenOf(t, k, t[k].mask, kids) && Opened(t, k, sp, buckets, theta2, maxDepth)
    ensures AllNeeded(t, keep + (below + kids), sp, buckets, theta2, maxDepth)
  {
    hide AroundOpened, Opened, ChildrenOf, ValidNode;
    var a, b := keep + (below + [k]), keep + (below + kids);
    assert k == a[|a| - 1] && k in a;
    KidsAround(t, k, kids, sp, buckets, theta2, maxDepth);
    forall c | c in b ensures AroundOpened(t, c, sp, buckets, theta2, maxDepth) {
      if c !in kids { assert c in a; }
    }
    RootOpened(t, k, sp, buckets, theta2, maxDepth);
  }

  lemma RootOpened(t: Octree, k: Key, sp: Space, buckets: seq<Box>, theta2: real, maxDepth: nat)
    requires AroundOpened(t, k, sp, buckets, theta2, maxDepth) && ROOT in t && k in t
    requires Opened(t, k, sp, buckets, theta2, maxDepth)
    ensures Opened(t, ROOT, sp, buckets, theta2, maxDepth)
  {
    hide Opened, Stride;
    if k.depth == 0 { SameDepth(ROOT, k); }
  }

  lemma KeptNeeded(t: Octree, keep: seq<Key>, below: seq<Key>, k: Key, sp: Space, buckets: seq<Box>, theta2: real,
                   maxDepth: nat)
    requires AllNeeded(t, keep + (below + [k]), sp, buckets, theta2, maxDepth)
    ensures AllNeeded(t, keep + [k] + below, sp, buckets, theta2, maxDepth)
  {
    hide AroundOpened, Opened;
    assert forall c :: c in keep + [k] + below ==> c in keep + (below + [k]);
  }

  lemma RootNeeded(t: Octree, sp: Space, buckets: seq<Box>, theta2: real, maxDepth: nat)
    requires ROOT in t
    ensures AllNeeded(t, [] + [ROOT], sp, buckets, theta2, maxDepth)
  {
    hide Stride, Opened;
    assert forall k :: k in [] + [ROOT] ==> k == ROOT;
  }

  // A root that is not opened is all that is kept.
  lemma RootAlone(t: Octree, keep: seq<Key>, sp: Space, buckets: seq<Box>, theta2: real, maxDepth: nat)
    requires AllNeeded(t, keep, sp, buckets, theta2, maxDepth) && NonNested(keep)
    requires !Opened(t, ROOT, sp, buckets, theta2, maxDepth)
    ensures keep == [ROOT]
  {
    hide Opened, Stride;
    forall i: nat | i < |keep| ensures keep[i] == ROOT {
      assert AroundOpened(t, keep[i], sp, buckets, theta2, maxDepth);
      if keep[i].depth == 0 { SameDepth(ROOT, keep[i]); }
    }
    if |keep| > 1 { NoRepeat(keep, 0, 1); }
  }

  lemma NoRepeat(s: seq<Key>, i: nat, j: nat)
    requires NonNested(s) && i < j < |s|
    ensures s[i] != s[j]
  {
    hide Stride;
    assert Apart(s[i], s[j]);
  }

  // What was kept: every cell for a reason.
  ghost predicate AllAccepted(t: Octree, keep: seq<Key>, sp: Space, buckets: seq<Box>, theta2: real, maxDepth: nat) {
    forall i :: 0 <= i < |keep| ==> keep[i] in t && Accepted(t, keep[i], sp, buckets, theta2, maxDepth)
  }

  // A record sent: the key, the leaf mark and the cell's mass.
  datatype NodeRecord = NodeRecord(prefix: nat, depth: nat, isLeaf: nat, mass: real)

  function RecordOf(t: Octree, k: Key, mark: bool): NodeRecord
    requires k in t
  {
    NodeRecord(k.prefix, k.depth, if mark then 1 else 0, t[k].mass)
  }

  function RecordMass(out: seq<NodeRecord>): real {
    if out == [] then 0.0 else RecordMass(out[..|out| - 1]) + out[|out| - 1].mass
  }

  lemma {:induction false} RecordsTotal(t: Octree, keep: seq<Key>, mark: bool, out: seq<NodeRecord>)
    requires |out| == |keep| && (forall k :: k in keep ==> k in t)
    requires forall i :: 0 <= i < |keep| ==> out[i] == RecordOf(t, keep[i], mark)
    ensures RecordMass(out) == Total(t, keep)
  {
    if keep != [] {
      var n := |keep| - 1;
      RecordsTotal(t, keep[..n], mark, out[..n]);
    }
  }

  // createInteractionListForRank: the cells kept are apart from one another, over
  // everything the tree holds, and their records have the root's mass; each is a
  // leaf, at the depth cap, or passes the opening test for every bucket.
  method CreateInteractionListForRank(t: Octree, buckets: seq<Box>, sp: Space, theta2: real, maxDepth: nat, mark: bool)
    returns (out: seq<NodeRecord>, ghost keep: seq<Key>)
    requires t != map[] ==> ValidTree(t)
    requires maxDepth <= MAX_DEPTH
    ensures t == map[] || buckets == [] ==> out == []
    ensures |out| == |keep| && forall i :: 0 <= i < |out| ==> keep[i] in t && out[i] == RecordOf(t, keep[i], mark)
    ensures forall i :: 0 <= i < |out| ==> out[i].prefix == keep[i].prefix && out[i].depth == keep[i].depth
    ensures forall i :: 0 <= i < |out| ==> out[i].mass == t[keep[i]].mass && (out[i].isLeaf == 1 <==> mark)
    ensures t != map[] && buckets != [] ==> NonNested(keep) && AllAccepted(t, keep, sp, buckets, theta2, maxDepth)
    ensures t != map[] && buckets != [] ==> AllNeeded(t, keep, sp, buckets, theta2, maxDepth)
    ensures t != map[] && buckets != [] && !Opened(t, ROOT, sp, buckets, theta2, maxDepth) ==> keep == [ROOT]
    ensures t != map[] && buckets != [] ==> RecordMass(out) == t[ROOT].mass
    ensures t != map[] && buckets != [] ==> forall x :: Occupied(t, ROOT, x) ==> Covers(keep, x)
  {
    hide Apart, Occupied, ValidTree, ChildKey, MassOf, ChildrenOf, Progress, CellBox, Fails, RecordMass, Total, Opened,
      AroundOpened;
    out, keep := [], [];
    if t == map[] || buckets == [] {
      return;
    }
    var stk := new Key[STACK](_ => ROOT);
    RootFirst(t);
    stk[0] := ROOT;
    var top := 1;
    var kept: seq<Key> := [];
    assert stk[..top] == [ROOT];
    RootNeeded(t, sp, buckets, theta2, maxDepth);
    while top > 0
      invariant 0 <= top <= STACK && fresh(stk) && stk.Length == STACK && Stacked(t, stk[..top])
      invariant Progress(t, kept, stk[..top]) && AllAccepted(t, kept, sp, buckets, theta2, maxDepth)
      invariant AllNeeded(t, kept + stk[..top], sp, buckets, theta2, maxDepth)
      decreases Weights(stk[..top])
    {
      kept, top := Step(t, buckets, sp, theta2, maxDepth, kept, stk, top);
    }
    Done(t, kept, stk[..top]);
    assert kept + stk[..top] == kept;
    if !Opened(t, ROOT, sp, buckets, theta2, maxDepth) { RootAlone(t, kept, sp, buckets, theta2, maxDepth); }
    var i := 0;
    while i < |kept|
      invariant i == |out| <= |kept| && forall j :: 0 <= j < i ==> kept[j] in t && out[j] == RecordOf(t, kept[j], mark)
    {
      assert kept[i] in kept;
      out := out + [RecordOf(t, kept[i], mark)];
      i := i + 1;
    }
    RecordsTotal(t, kept, mark, out);
    keep := kept;
  }

  method Step(t: Octree, buckets: seq<Box>, sp: Space, theta2: real, maxDepth: nat, keep0: seq<Key>, stk: array<Key>,
              top0: nat)
    returns (keep: seq<Key>, top: nat)
    requires ValidTree(t) && maxDepth <= MAX_DEPTH && 0 < top0 <= STACK == stk.Length && Stacked(t, stk[..top0])
    requires Progress(t, keep0, stk[..top0]) && AllAccepted(t, keep0, sp, buckets, theta2, maxDepth)
    requires AllNeeded(t, keep0 + stk[..top0], sp, buckets, theta2, maxDepth)
    modifies stk
    ensures top <= STACK && Stacked(t, stk[..top]) && Progress(t, keep, stk[..top])
    ensures AllAccepted(t, keep, sp, buckets, theta2, maxDepth)
    ensures AllNeeded(t, keep + stk[..top], sp, buckets, theta2, maxDepth)
    ensures Weights(stk[..top]) < Weights(old(stk[..top0]))
  {
    hide Apart, Occupied, ChildKey, MassOf, ChildrenOf, Progress, CellBox, Fails, Weights, ValidTree, AllNeeded;
    keep, top := keep0, top0 - 1;
    var k := stk[top];
    ghost var below := stk[..top];
    assert stk[..top0] == below + [k];
    TopIn(t, stk[..top0]);
    var fails := OpeningFails(CellBox(k, sp), buckets, theta2);
    if fails && k.depth < maxDepth && !t[k].isLeaf {
      ghost var kids;
      top, kids := PushChildren(t, k, stk, top);
      OpenedOne(t, keep, below, k, kids);
      OpenedNeeded(t, keep, below, k, kids, sp, buckets, theta2, maxDepth);
      KidsIn(t, k, kids);
      StackedKids(t, below, kids, k);
      OpenedShrinks(below, k, kids);
    } else {
      keep := keep + [k];
      KeptOne(t, keep0, below, k);
      KeptNeeded(t, keep0, below, k, sp, buckets, theta2, maxDepth);
      LessOne(below, k);
    }
  }

  lemma KidsIn(t: Octree, k: Key, kids: seq<Key>)
    requires k in t && ValidNode(t, k) && ChildrenOf(t, k, t[k].mask, kids)
    ensures forall i :: 0 <= i < |kids| ==> kids[i] in t
  {
  }

  lemma TopIn(t: Octree, stk: seq<Key>)
    requires Stacked(t, stk) && stk != []
    ensures stk[|stk| - 1] in t && |stk| - 1 <= 7 * stk[|stk| - 1].depth && Stacked(t, stk[..|stk| - 1])
  {
  }

  lemma LessOne(below: seq<Key>, k: Key)
    ensures Weights(below) < Weights(below + [k])
  {
    assert (below + [k])[..|below|] == below;
  }

  lemma RootFirst(t: Octree)
    requires ValidTree(t)
    ensures ROOT in t && Progress(t, [], [ROOT]) && Stacked(t, [ROOT])
  {
    hide Occupied, ValidTree, Total;
    HasRoot(t);
    assert [] + [ROOT] == [ROOT];
    TotalOne(t, ROOT);
    forall x | Occupied(t, ROOT, x) ensures Reached(t, [ROOT], x) { assert [ROOT][0] == ROOT; }
  }

  lemma Done(t: Octree, keep: seq<Key>, stk: seq<Key>)
    requires ValidTree(t) && Progress(t, keep, stk) && stk == []
    ensures NonNested(keep) && (forall k :: k in keep ==> k in t) && Total(t, keep) == t[ROOT].mass
    ensures forall x :: Occupied(t, ROOT, x) ==> Covers(keep, x)
  {
    hide Occupied, ValidTree;
    assert keep + [] == keep;
    HasRoot(t);
    forall x | Occupied(t, ROOT, x) ensures Covers(keep, x) {
      assert Reached(t, keep, x);
      var i :| 0 <= i < |keep| && keep[i] in t && Occupied(t, keep[i], x);
      OccupiedInside(t, keep[i], x);
      assert InCell(keep[i], x);
    }
  }

  // So for every body whose key the cell covers.
  lemma KeptBodiesSmall(t: Octree, keep: seq<Key>, sp: Space, buckets: seq<Box>, theta2: real, maxDepth: nat,
                        n: nat, i: nat, p: Point, q: Point)
    requires AllAccepted(t, keep, sp, buckets, theta2, maxDepth) && AllNeeded(t, keep, sp, buckets, theta2, maxDepth)
    requires theta2 >= 0.0 && n < |keep| && i < |buckets| && maxDepth <= MAX_DEPTH
    requires keep[n] in t && !t[keep[n]].isLeaf && keep[n].depth < maxDepth && sp.side >= 0.0 && InCube(p, sp)
    requires InCell(keep[n], KeyOf(p, sp)) && In(q, buckets[i])
    ensures SizeSq(CellBox(keep[n], sp)) < theta2 * DistanceSq(p, q)
  {
    hide CellBox, SizeSq, DistanceSq, AllAccepted, Stride, Opened, InCube, KeyOf, InCell, Inside;
    assert AroundOpened(t, keep[n], sp, buckets, theta2, maxDepth);
    PointInCells(p, sp, keep[n]);
    KeptCellsSmall(t, keep, sp, buckets, theta2, maxDepth, n, i, p, q);
  }

  // A kept cell that is neither a leaf nor at the cap meets the criterion for
  // every point of it, seen from every point of every box of the other locality.
  lemma KeptCellsSmall(t: Octree, keep: seq<Key>, sp: Space, buckets: seq<Box>, theta2: real, maxDepth: nat, n: nat,
                       i: nat, p: Point, q: Point)
    requires AllAccepted(t, keep, sp, buckets, theta2, maxDepth) && theta2 >= 0.0 && n < |keep| && i < |buckets|
    requires keep[n] in t && !t[keep[n]].isLeaf && keep[n].depth < maxDepth
    requires In(p, CellBox(keep[n], sp)) && In(q, buckets[i])
    ensures SizeSq(CellBox(keep[n], sp)) < theta2 * DistanceSq(p, q)
  {
    hide Fails, CellBox, In, DistanceSq, SizeSq;
    PassesEverywhere(CellBox(keep[n], sp), buckets, theta2, i, p, q);
  }

  // No point is covered twice.
  lemma CoveredOnce(keep: seq<Key>, x: nat, i: nat, j: nat)
    requires NonNested(keep) && i < |keep| && j < |keep| && i != j
    ensures !(InCell(keep[i], x) && InCell(keep[j], x))
  {
    hide Stride;
    if i < j { assert Apart(keep[i], keep[j]); } else { assert Apart(keep[j], keep[i]); }
  }
}
