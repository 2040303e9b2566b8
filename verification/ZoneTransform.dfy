/** Index and mirror transforms of a lighting zone. */
module ZoneTransform {
  import opened Grid
  import opened Order

  /** The largest finite value of the source's 32-bit float; coordinates themselves are reals. */
  const F32_MAX := 340282346638528859811704183484516925440.0

  datatype Transform = Transform(flipH: bool, flipV: bool, reverse: bool, ledOffset: int, swapRings: bool)

  datatype Topology = Linear | Grid | Keyboard | Ring | Rings(count: nat)

  datatype Led = Led(x: real, y: real)

  datatype Zone = Zone(topology: Topology, leds: seq<Led>)

  datatype Color = Color(r: nat, g: nat, b: nat)

  const BLACK := Color(0, 0, 0)

  predicate IsIdentity(t: Transform) {
    !t.flipH && !t.flipV && !t.reverse && t.ledOffset == 0 && !t.swapRings
  }

  function Upto(n: nat): seq<nat> {
    seq(n, i requires 0 <= i < n => i)
  }

  // ------------------------------ rings ------------------------------

  /** `%` is Euclidean here, as `rem_euclid` is. */
  function RingSource(t: Transform, j: nat, ringLen: nat): (s: nat)
    ensures ringLen > 0 ==> s < ringLen
  {
    if ringLen == 0 then 0
    else
      var last := ringLen - 1;
      var base := if !t.reverse then j else if j <= last then last - j else 0;
      (base + t.ledOffset) % ringLen
  }

  function RingSlice(total: nat, rings: nat, ring: nat): (nat, nat) {
    var per := total / (if rings == 0 then 1 else rings);
    (ring * per, ring * per + per)
  }

  function SourceRing(t: Transform, count: nat, r: nat): nat
    requires r < count
  {
    if t.swapRings then count - 1 - r else r
  }

  /** Where LED `i` of `count` rings of `per` LEDs takes its colour from. */
  function RingsSource(t: Transform, count: nat, per: nat, i: nat): (s: nat)
    requires i < count * per
    ensures s < count * per
  {
    CellExists(i, count, per);
    var ring := SourceRing(t, count, i / per);
    CellOf(ring, RingSource(t, i % per, per), count, per);
    ring * per + RingSource(t, i % per, per)
  }

  // ------------------------------ mirrors ------------------------------

  function Min(a: real, b: real): real {
    if a < b then a else b
  }

  function Max(a: real, b: real): real {
    if a > b then a else b
  }

  datatype Box = Box(minX: real, maxX: real, minY: real, maxY: real)

  const EMPTY := Box(F32_MAX, -F32_MAX, F32_MAX, -F32_MAX)

  /** The bounding box of the first `n` LEDs. */
  function Bounds(leds: seq<Led>, n: nat): Box
    requires n <= |leds|
  {
    if n == 0 then EMPTY
    else
      var b, l := Bounds(leds, n - 1), leds[n - 1];
      Box(Min(b.minX, l.x), Max(b.maxX, l.x), Min(b.minY, l.y), Max(b.maxY, l.y))
  }

  /** The mirror image of `l` in the centre of the box. */
  function Mirror(t: Transform, b: Box, l: Led): Led {
    var cx, cy := (b.minX + b.maxX) / 2.0, (b.minY + b.maxY) / 2.0;
    Led(if t.flipH then 2.0 * cx - l.x else l.x, if t.flipV then 2.0 * cy - l.y else l.y)
  }

  function Square(a: real): (s: real)
    ensures s >= 0.0 && (s == 0.0 <==> a == 0.0)
  {
    SquareSign(a);
    a * a
  }

  lemma SquareSign(a: real)
    ensures a * a >= 0.0 && (a * a == 0.0 <==> a == 0.0)
  {
    if a != 0.0 {
      assert a * a * (1.0 / a) == a * (a * (1.0 / a)) == a;
    }
  }

  function Distance(a: Led, b: Led): (d: real)
    ensures d >= 0.0 && (d == 0.0 <==> a == b)
  {
    Square(a.x - b.x) + Square(a.y - b.y)
  }

  /** The first LED of the first `n` that is nearest to `target`, and how near. */
  function Nearest(leds: seq<Led>, target: Led, n: nat, distance: (Led, Led) -> real): (nat, real)
    requires n <= |leds|
  {
    if n == 0 then (0, F32_MAX)
    else
      var best := Nearest(leds, target, n - 1, distance);
      var d := distance(leds[n - 1], target);
      if d < best.1 then (n - 1, d) else best
  }

  /** A permutation of `0..n`, as a list of `n` indices: in range and no two the same. */
  ghost predicate IsPermutation(perm: seq<nat>) {
    && (forall i :: 0 <= i < |perm| ==> perm[i] < |perm|)
    && (forall i, j :: 0 <= i < j < |perm| ==> perm[i] != perm[j])
  }

  /** For each LED the nearest to its image. */
  function Reflection(leds: seq<Led>, image: Led -> Led, distance: (Led, Led) -> real): seq<nat> {
    seq(|leds|, i requires 0 <= i < |leds| => Nearest(leds, image(leds[i]), |leds|, distance).0)
  }

  ghost function Reflected(leds: seq<Led>, image: Led -> Led, distance: (Led, Led) -> real): seq<nat> {
    var perm := Reflection(leds, image, distance);
    if IsPermutation(perm) then perm else Upto(|leds|)
  }

  function MirrorIn(t: Transform, b: Box): Led -> Led {
    (l: Led) => Mirror(t, b, l)
  }

  ghost function Flipped(leds: seq<Led>, t: Transform): seq<nat> {
    if (!t.flipH && !t.flipV) || leds == [] then Upto(|leds|)
    else Reflected(leds, MirrorIn(t, Bounds(leds, |leds|)), Distance)
  }

  // ------------------------------ the permutation of a zone ------------------------------

  ghost function Permutation(zone: Zone, t: Transform): (perm: seq<nat>)
    ensures |perm| == |zone.leds|
  {
    var n := |zone.leds|;
    if IsIdentity(t) || n == 0 then Upto(n)
    else
      match zone.topology
      case Ring => seq(n, j requires 0 <= j < n => RingSource(t, j, n))
      case Rings(count) =>
        if count == 0 || n % count != 0 then Upto(n)
        else RingsPermutation(t, n, count)
      case _ => Flipped(zone.leds, t)
  }

  function RingsPermutation(t: Transform, n: nat, count: nat): (perm: seq<nat>)
    requires count > 0 && n % count == 0
    ensures |perm| == n
  {
    EvenRings(n, count);
    seq(n, i requires 0 <= i < n => RingsSource(t, count, n / count, i))
  }

  lemma EvenRings(n: nat, count: nat)
    requires count > 0 && n % count == 0
    ensures n == count * (n / count)
  {
  }

  method IsBijection(perm: seq<nat>) returns (r: bool)
    ensures r <==> IsPermutation(perm)
  {
    var seen := new bool[|perm|](_ => false);
    for i := 0 to |perm|
      invariant forall k :: 0 <= k < i ==> perm[k] < |perm| && seen[perm[k]]
      invariant forall k, l :: 0 <= k < l < i ==> perm[k] != perm[l]
      invariant forall v :: 0 <= v < |perm| && seen[v] ==> exists k :: 0 <= k < i && perm[k] == v
    {
      if perm[i] >= |perm| || seen[perm[i]] {
        return false;
      }
      seen[perm[i]] := true;
    }
    return true;
  }

  method FlipPermutation(leds: seq<Led>, t: Transform) returns (perm: seq<nat>)
    ensures perm == Flipped(leds, t)
  {
    if (!t.flipH && !t.flipV) || leds == [] {
      return Upto(|leds|);
    }
    var box := EMPTY;
    for i := 0 to |leds|
      invariant box == Bounds(leds, i)
    {
      var l := leds[i];
      box := Box(Min(box.minX, l.x), Max(box.maxX, l.x), Min(box.minY, l.y), Max(box.maxY, l.y));
    }
    perm := [];
    for i := 0 to |leds|
      invariant |perm| == i
      invariant forall k :: 0 <= k < i ==> perm[k] == Nearest(leds, Mirror(t, box, leds[k]), |leds|, Distance).0
    {
      var target := Mirror(t, box, leds[i]);
      var best, bestD := 0, F32_MAX;
      for k := 0 to |leds|
        invariant (best, bestD) == Nearest(leds, target, k, Distance)
      {
        var d := Distance(leds[k], target);
        if d < bestD {
          best, bestD := k, d;
        }
      }
      perm := perm + [best];
    }
    assert perm == Reflection(leds, MirrorIn(t, box), Distance);
    var ok := IsBijection(perm);
    if !ok {
      perm := Upto(|leds|);
    }
  }

  method BuildPermutation(zone: Zone, t: Transform) returns (perm: seq<nat>)
    ensures perm == Permutation(zone, t)
  {
    var n := |zone.leds|;
    if IsIdentity(t) || n == 0 {
      return Upto(n);
    }
    match zone.topology
    case Ring =>
      perm := seq(n, j requires 0 <= j < n => RingSource(t, j, n));
    case Rings(count) =>
      if count == 0 || n % count != 0 {
        return Upto(n);
      }
      perm := BuildRings(t, n, count);
    case _ =>
      perm := FlipPermutation(zone.leds, t);
  }

  method BuildRings(t: Transform, n: nat, count: nat) returns (perm: seq<nat>)
    requires count > 0 && n % count == 0
    ensures perm == RingsPermutation(t, n, count)
  {
    EvenRings(n, count);
    var per := n / count;
    perm := [];
    for r := 0 to count
      invariant |perm| == r * per <= n
      invariant forall i :: 0 <= i < |perm| ==> perm[i] == RingsSource(t, count, per, i)
    {
      Grows(r + 1, count, per);
      var source := if t.swapRings then count - 1 - r else r;
      var (start, end) := RingSlice(n, count, source);
      for j := 0 to end - start
        invariant |perm| == r * per + j <= n
        invariant forall i :: 0 <= i < |perm| ==> perm[i] == RingsSource(t, count, per, i)
      {
        CellOf(r, j, count, per);
        perm := perm + [start + RingSource(t, j, end - start)];
      }
    }
  }

  method TransformColors(colors: seq<Color>, zone: Zone, t: Transform) returns (out: seq<Color>)
    ensures out == Transformed(colors, zone, t)
  {
    if IsIdentity(t) {
      return colors;
    }
    var perm := BuildPermutation(zone, t);
    out := Picked(colors, perm);
  }

  /** The colours at these indices, black where there is none. */
  function Picked(colors: seq<Color>, indices: seq<nat>): seq<Color> {
    Each(indices, ColorAt(colors))
  }

  function ColorAt(colors: seq<Color>): nat -> Color {
    (i: nat) => if i < |colors| then colors[i] else BLACK
  }

  ghost function Transformed(colors: seq<Color>, zone: Zone, t: Transform): seq<Color> {
    if IsIdentity(t) then colors else Picked(colors, Permutation(zone, t))
  }

  // ------------------------------ every permutation is one ------------------------------

  lemma RingIsInjective(t: Transform, i: nat, j: nat, ringLen: nat)
    requires i < ringLen && j < ringLen && RingSource(t, i, ringLen) == RingSource(t, j, ringLen)
    ensures i == j
  {
    var last := ringLen - 1;
    var a := (if t.reverse then last - i else i) + t.ledOffset;
    var b := (if t.reverse then last - j else j) + t.ledOffset;
    SameResidue(a, b, ringLen);
  }

  lemma SameResidue(a: int, b: int, m: nat)
    requires m > 0 && a % m == b % m && -(m as int) < a - b < m
    ensures a == b
  {
    var p, q := a / m, b / m;
    assert a == m * p + a % m && b == m * q + b % m;
    assert a - b == m * (p - q);
    Multiple(m, p - q);
  }

  lemma Multiple(m: nat, k: int)
    ensures k >= 1 ==> m * k >= m
    ensures k <= -1 ==> m * k <= -(m as int)
  {
    if k >= 1 {
      Grows(1, k, m);
    } else if k <= -1 {
      Grows(1, -k, m);
    }
  }

  lemma RingsSourceParts(t: Transform, count: nat, per: nat, i: nat)
    requires i < count * per
    ensures per > 0 && i / per < count && i == (i / per) * per + i % per
    ensures var s := RingsSource(t, count, per, i);
            s / per == SourceRing(t, count, i / per) && s % per == RingSource(t, i % per, per)
  {
    CellExists(i, count, per);
    CellOf(SourceRing(t, count, i / per), RingSource(t, i % per, per), count, per);
  }

  lemma RingsAreInjective(t: Transform, count: nat, per: nat, i: nat, j: nat)
    requires i < count * per && j < count * per && RingsSource(t, count, per, i) == RingsSource(t, count, per, j)
    ensures i == j
  {
    RingsSourceParts(t, count, per, i);
    RingsSourceParts(t, count, per, j);
    RingIsInjective(t, i % per, j % per, per);
  }

  /** For every topology, transform and LED count the result is a permutation of `0..n`. */
  lemma PermutationIsOne(zone: Zone, t: Transform)
    ensures IsPermutation(Permutation(zone, t)) && |Permutation(zone, t)| == |zone.leds|
  {
    var n, perm := |zone.leds|, Permutation(zone, t);
    if !IsIdentity(t) && n > 0 {
      match zone.topology
      case Ring =>
        forall i, j | 0 <= i < j < n ensures perm[i] != perm[j] {
          if perm[i] == perm[j] { RingIsInjective(t, i, j, n); }
        }
      case Rings(count) =>
        if count > 0 && n % count == 0 {
          EvenRings(n, count);
          forall i, j | 0 <= i < j < n ensures perm[i] != perm[j] {
            if perm[i] == perm[j] { RingsAreInjective(t, count, n / count, i, j); }
          }
        }
      case _ =>
    }
  }

  // ------------------------------ colours are conserved ------------------------------

  lemma {:induction false} DistinctCount(s: seq<nat>, v: nat)
    requires forall i, j :: 0 <= i < j < |s| ==> s[i] != s[j]
    ensures multiset(s)[v] == if v in s then 1 else 0
  {
    if s != [] {
      var n := |s| - 1;
      DistinctCount(s[..n], v);
      assert s == s[..n] + [s[n]];
    }
  }

  /** Pigeonhole: `n` distinct indices below `n` leave none out. */
  lemma PermutationCovers(perm: seq<nat>)
    requires IsPermutation(perm)
    ensures forall v :: 0 <= v < |perm| ==> v in perm
    ensures multiset(perm) == multiset(Upto(|perm|))
  {
    var all := Upto(|perm|);
    var values, below := Values(perm), Values(all);
    forall v | v in values ensures v in below {
      assert all[v] == v;
    }
    Cardinality(perm);
    Cardinality(all);
    SubsetIsAll(values, below);
    forall v: nat ensures multiset(perm)[v] == multiset(all)[v] {
      DistinctCount(perm, v);
      DistinctCount(all, v);
      assert v in values <==> v in below;
    }
    forall v | 0 <= v < |perm| ensures v in perm {
      assert all[v] == v;
      assert v in below;
    }
  }

  ghost function Values(s: seq<nat>): set<nat> {
    set v | v in s
  }

  lemma {:induction false} Cardinality(s: seq<nat>)
    requires forall i, j :: 0 <= i < j < |s| ==> s[i] != s[j]
    ensures |Values(s)| == |s|
  {
    if s != [] {
      var n := |s| - 1;
      Cardinality(s[..n]);
      assert s == s[..n] + [s[n]];
      assert Values(s) == Values(s[..n]) + {s[n]};
    }
  }

  lemma SubsetIsAll(a: set<nat>, b: set<nat>)
    requires a <= b && |a| == |b|
    ensures a == b
  {
    assert b == a + (b - a);
    assert |b| == |a| + |b - a|;
  }

  /** A transform moves colours about: it neither drops, adds nor changes any. */
  lemma ColorsAreConserved(colors: seq<Color>, zone: Zone, t: Transform)
    requires |colors| == |zone.leds|
    ensures multiset(Transformed(colors, zone, t)) == multiset(colors)
  {
    var perm := Permutation(zone, t);
    PermutationIsOne(zone, t);
    PermutationCovers(perm);
    EachFollows(perm, Upto(|perm|), ColorAt(colors));
    assert Picked(colors, Upto(|colors|)) == colors;
  }

  // ------------------------------ turning twice ------------------------------

  /** Applied twice, the permutation gives every LED its own colour back. */
  ghost predicate Involutive(perm: seq<nat>) {
    forall i :: 0 <= i < |perm| && perm[i] < |perm| ==> perm[perm[i]] == i
  }

  /** The offset counts forward from the source side: with offset `k`, in range, the first LED
      shows the colour of LED `k`, and reversed, of the LED before it; then the colours go up,
      reversed down, round the ring. */
  lemma RingFollowsOffset(t: Transform, j: nat, ringLen: nat)
    requires j < ringLen && 0 <= t.ledOffset < ringLen
    ensures RingSource(t, 0, ringLen) ==
      if !t.reverse then t.ledOffset else if t.ledOffset == 0 then ringLen - 1 else t.ledOffset - 1
    ensures j + 1 < ringLen ==>
      var (here, next) := (RingSource(t, j, ringLen), RingSource(t, j + 1, ringLen));
      if !t.reverse then next == (if here + 1 == ringLen then 0 else here + 1)
      else next == (if here == 0 then ringLen - 1 else here - 1)
  {
    var last := ringLen - 1;
    RingWraps(if t.reverse then last + t.ledOffset else t.ledOffset, ringLen);
    RingWraps((if t.reverse then last - j else j) + t.ledOffset, ringLen);
    if j + 1 < ringLen {
      RingWraps((if t.reverse then last - j - 1 else j + 1) + t.ledOffset, ringLen);
    }
  }

  lemma RingWraps(x: nat, m: nat)
    requires x < 2 * m
    ensures x % m == if x < m then x else x - m
  {
    Turns(if x < m then x else x - m, if x < m then 0 else 1, m);
  }

  /** Turning a ring twice: mirrored, the offsets cancel; otherwise they add up. */
  lemma RingTwice(t: Transform, j: nat, ringLen: nat)
    requires j < ringLen
    ensures var s := RingSource(t, RingSource(t, j, ringLen), ringLen);
            s == if t.reverse then j else (j + 2 * t.ledOffset) % ringLen
  {
    var last := ringLen - 1;
    var a := (if t.reverse then last - j else j) + t.ledOffset;
    var s := RingSource(t, j, ringLen);
    assert a == ringLen * (a / ringLen) + s;
    if t.reverse {
      assert last - s + t.ledOffset == j + ringLen * (a / ringLen);
      Turns(j, a / ringLen, ringLen);
    } else {
      assert s + t.ledOffset == j + 2 * t.ledOffset + ringLen * (-(a / ringLen));
      Turns(j + 2 * t.ledOffset, -(a / ringLen), ringLen);
    }
  }

  /** Whole turns do not show. */
  lemma Turns(x: int, k: int, m: nat)
    requires m > 0
    ensures (x + m * k) % m == x % m
    ensures 0 <= x < m ==> x % m == x
  {
    var y := x + m * k;
    assert x == m * (x / m) + x % m && y == m * (y / m) + y % m;
    assert y % m - x % m == m * (k + x / m - y / m) by {
      Distributes(m, k, x / m, y / m);
    }
    Multiple(m, k + x / m - y / m);
  }

  lemma Distributes(m: int, a: int, b: int, c: int)
    ensures m * (a + b - c) == m * a + m * b - m * c
  {
  }

  lemma RingReturns(offset: int, j: nat, ringLen: nat)
    requires j < ringLen
    ensures (j + 2 * offset) % ringLen == j <==> (2 * offset) % ringLen == 0
  {
    var x := 2 * offset;
    assert x == ringLen * (x / ringLen) + x % ringLen;
    Turns(j + x % ringLen, x / ringLen, ringLen);
    var y := j + x % ringLen;
    if y < ringLen {
      Turns(y, 0, ringLen);
    } else {
      Turns(y - ringLen, 1, ringLen);
    }
  }

  /** The rings a zone is turned in: one, `count` equal ones, or none when they come out uneven. */
  function RingLength(zone: Zone): nat {
    var n := |zone.leds|;
    match zone.topology
    case Ring => n
    case Rings(count) => if count == 0 || n % count != 0 then 0 else n / count
    case _ => 0
  }

  lemma RingsTwice(t: Transform, count: nat, per: nat, i: nat)
    requires i < count * per
    ensures per > 0
    ensures RingsSource(t, count, per, RingsSource(t, count, per, i)) == i
        <==> t.reverse || (2 * t.ledOffset) % per == 0
  {
    RingsSourceParts(t, count, per, i);
    RingsSourceParts(t, count, per, RingsSource(t, count, per, i));
    RingTwice(t, i % per, per);
    RingReturns(t.ledOffset, i % per, per);
    var back := RingsSource(t, count, per, RingsSource(t, count, per, i));
    assert back == (i / per) * per + back % per;
  }

  /** A ring zone turned twice is back where it was exactly when it is mirrored, or twice the
      offset is whole turns of a ring, or it cannot be cut into equal rings at all. */
  lemma TwiceIsIdentityIff(zone: Zone, t: Transform)
    requires zone.topology.Ring? || zone.topology.Rings?
    ensures Involutive(Permutation(zone, t))
        <==> t.reverse || RingLength(zone) == 0 || (2 * t.ledOffset) % RingLength(zone) == 0
  {
    var n, per, perm := |zone.leds|, RingLength(zone), Permutation(zone, t);
    if IsIdentity(t) {
      if per > 0 { Turns(0, 0, per); }
    } else if n > 0 && per > 0 {
      var count := if zone.topology.Ring? then 1 else zone.topology.count;
      EvenRings(n, count);
      forall i | 0 <= i < n
        ensures perm[i] < n && (perm[perm[i]] == i <==> t.reverse || (2 * t.ledOffset) % per == 0)
      {
        if zone.topology.Ring? {
          RingTwice(t, i, n);
          RingReturns(t.ledOffset, i, n);
        } else {
          RingsTwice(t, count, per, i);
        }
      }
      assert Involutive(perm) ==> perm[perm[0]] == 0;
    }
  }

  /** Applying a transform twice gives every colour back, whatever the colours, exactly when its
      permutation is its own inverse. */
  lemma ColorsComeBackIff(zone: Zone, t: Transform)
    ensures (forall colors: seq<Color> :: |colors| == |zone.leds| ==>
               Transformed(Transformed(colors, zone, t), zone, t) == colors)
            <==> Involutive(Permutation(zone, t))
  {
    PermutationIsOne(zone, t);
    var n, perm := |zone.leds|, Permutation(zone, t);
    if !Involutive(perm) {
      var i :| 0 <= i < |perm| && perm[perm[i]] != i;
      var colors := seq(n, k => if k == i then Color(255, 255, 255) else BLACK);
      assert Transformed(Transformed(colors, zone, t), zone, t)[i] == colors[perm[perm[i]]] == BLACK;
    }
  }

  // ------------------------------ mirroring ------------------------------

  /** No two LEDs in the same place, and every mirror image a LED too. */
  ghost predicate Apart(leds: seq<Led>) {
    forall i, j :: 0 <= i < j < |leds| ==> leds[i] != leds[j]
  }

  ghost predicate HasImage(leds: seq<Led>, image: Led -> Led, i: nat)
    requires i < |leds|
  {
    exists k :: 0 <= k < |leds| && leds[k] == image(leds[i])
  }

  ghost predicate Symmetric(leds: seq<Led>, image: Led -> Led) {
    forall i :: 0 <= i < |leds| ==> HasImage(leds, image, i)
  }

  ghost predicate Separates(distance: (Led, Led) -> real) {
    forall a, b :: distance(a, b) >= 0.0 && (distance(a, b) == 0.0 <==> a == b)
  }

  /** The nearest LED to a place where there is one is that one. */
  lemma {:induction false} NearestIsThere(leds: seq<Led>, target: Led, n: nat, k: nat, distance: (Led, Led) -> real)
    requires n <= |leds| && k < |leds| && leds[k] == target && Apart(leds) && Separates(distance)
    ensures var (best, d) := Nearest(leds, target, n, distance);
            if k < n then best == k && d == 0.0 else d > 0.0
  {
    if n > 0 {
      NearestIsThere(leds, target, n - 1, k, distance);
      assert n - 1 != k ==> leds[n - 1] != leds[k];
    }
  }

  /** The index of every LED is sent to the index of its image. */
  ghost predicate Images(leds: seq<Led>, perm: seq<nat>, image: Led -> Led) {
    |perm| == |leds| && forall i :: 0 <= i < |leds| ==> perm[i] < |leds| && leds[perm[i]] == image(leds[i])
  }

  lemma ImagesPermute(leds: seq<Led>, perm: seq<nat>, image: Led -> Led)
    requires Apart(leds) && Images(leds, perm, image) && forall l :: image(image(l)) == l
    ensures IsPermutation(perm) && Involutive(perm)
  {
    forall i | 0 <= i < |leds| ensures perm[perm[i]] == i {
      assert leds[perm[perm[i]]] == image(image(leds[i]));
    }
    forall i, j | 0 <= i < j < |leds| ensures perm[i] != perm[j] {
      assert perm[perm[i]] == i && perm[perm[j]] == j;
    }
  }

  lemma SymmetricImages(leds: seq<Led>, image: Led -> Led, distance: (Led, Led) -> real)
    requires Apart(leds) && Symmetric(leds, image) && Separates(distance)
    ensures Images(leds, Reflection(leds, image, distance), image)
  {
    forall i | 0 <= i < |leds|
      ensures var k := Nearest(leds, image(leds[i]), |leds|, distance).0; k < |leds| && leds[k] == image(leds[i])
    {
      assert HasImage(leds, image, i);
      var k :| 0 <= k < |leds| && leds[k] == image(leds[i]);
      NearestIsThere(leds, image(leds[i]), |leds|, k, distance);
    }
  }

  lemma ReflectedIsImageIff(leds: seq<Led>, image: Led -> Led, distance: (Led, Led) -> real)
    requires Apart(leds) && Separates(distance) && forall l :: image(image(l)) == l
    ensures Images(leds, Reflected(leds, image, distance), image) <==> Symmetric(leds, image)
    ensures Symmetric(leds, image) ==> Involutive(Reflected(leds, image, distance))
  {
    if Symmetric(leds, image) {
      SymmetricImages(leds, image, distance);
      ImagesPermute(leds, Reflection(leds, image, distance), image);
    }
    var perm := Reflected(leds, image, distance);
    if Images(leds, perm, image) {
      forall i | 0 <= i < |leds| ensures HasImage(leds, image, i) {
        assert leds[perm[i]] == image(leds[i]);
      }
    }
  }

  /** On LEDs that are apart, a flip sends each to the one at its mirror image exactly when every
      mirror image is an LED; and then flipping twice changes nothing. */
  lemma FlipIsMirrorIff(leds: seq<Led>, t: Transform)
    requires Apart(leds) && (t.flipH || t.flipV)
    ensures var image := MirrorIn(t, Bounds(leds, |leds|));
            && (Images(leds, Flipped(leds, t), image) <==> Symmetric(leds, image))
            && (Symmetric(leds, image) ==> Involutive(Flipped(leds, t)))
  {
    var image := MirrorIn(t, Bounds(leds, |leds|));
    forall l: Led ensures image(image(l)) == l {
      MirrorReturns(t, Bounds(leds, |leds|), l);
    }
    ReflectedIsImageIff(leds, image, Distance);
  }

  lemma MirrorReturns(t: Transform, b: Box, l: Led)
    ensures Mirror(t, b, Mirror(t, b, l)) == l
  {
  }

  /** The box the mirror is centred in is tight: it holds every LED, and each side touches one. */
  lemma {:induction false} BoundsAreTight(leds: seq<Led>, n: nat)
    requires 0 < n <= |leds|
    requires forall i :: 0 <= i < n ==> -F32_MAX <= leds[i].x <= F32_MAX && -F32_MAX <= leds[i].y <= F32_MAX
    ensures var b := Bounds(leds, n);
            && (forall i :: 0 <= i < n ==> b.minX <= leds[i].x <= b.maxX && b.minY <= leds[i].y <= b.maxY)
            && (exists i :: 0 <= i < n && leds[i].x == b.minX) && (exists i :: 0 <= i < n && leds[i].x == b.maxX)
            && (exists i :: 0 <= i < n && leds[i].y == b.minY) && (exists i :: 0 <= i < n && leds[i].y == b.maxY)
  {
    assert leds[n - 1].x == leds[n - 1].x;
    if n > 1 { BoundsAreTight(leds, n - 1); }
  }

  // ------------------------------ what is shown where ------------------------------

  /** Coordinates a 32-bit float can hold. */
  ghost predicate Finite(leds: seq<Led>) {
    forall i :: 0 <= i < |leds| ==> -F32_MAX <= leds[i].x <= F32_MAX && -F32_MAX <= leds[i].y <= F32_MAX
  }

  /** The least and greatest coordinates of the LEDs. */
  ghost predicate Spans(leds: seq<Led>, b: Box) {
    && (forall i :: 0 <= i < |leds| ==> b.minX <= leds[i].x <= b.maxX && b.minY <= leds[i].y <= b.maxY)
    && (exists i :: 0 <= i < |leds| && leds[i].x == b.minX) && (exists i :: 0 <= i < |leds| && leds[i].x == b.maxX)
    && (exists i :: 0 <= i < |leds| && leds[i].y == b.minY) && (exists i :: 0 <= i < |leds| && leds[i].y == b.maxY)
  }

  /** Flipped horizontally, `m` is as far from the right as `l` is from the left, and at its height;
      flipped vertically, as far from the bottom as `l` is from the top. */
  ghost predicate AreOpposite(t: Transform, b: Box, l: Led, m: Led) {
    && (if t.flipH then b.maxX - m.x == l.x - b.minX else m.x == l.x)
    && (if t.flipV then b.maxY - m.y == l.y - b.minY else m.y == l.y)
  }

  ghost predicate HasOpposite(leds: seq<Led>, t: Transform, b: Box, i: nat)
    requires i < |leds|
  {
    exists k :: 0 <= k < |leds| && AreOpposite(t, b, leds[i], leds[k])
  }

  lemma SpanIsOne(leds: seq<Led>, b: Box)
    requires leds != [] && Finite(leds) && Spans(leds, b)
    ensures b == Bounds(leds, |leds|)
  {
    BoundsAreTight(leds, |leds|);
  }

  lemma OppositeIsMirrored(t: Transform, b: Box, l: Led, m: Led)
    ensures AreOpposite(t, b, l, m) <==> m == Mirror(t, b, l)
  {
  }

  lemma FlippedIsOpposite(leds: seq<Led>, t: Transform, b: Box)
    requires leds != [] && Finite(leds) && Apart(leds) && Spans(leds, b) && (t.flipH || t.flipV)
    ensures (forall i :: 0 <= i < |leds| ==> HasOpposite(leds, t, b, i)) <==>
            var perm := Flipped(leds, t);
            forall i :: 0 <= i < |leds| ==> perm[i] < |leds| && AreOpposite(t, b, leds[i], leds[perm[i]])
  {
    SpanIsOne(leds, b);
    FlipIsMirrorIff(leds, t);
    var image := MirrorIn(t, b);
    forall l, m ensures AreOpposite(t, b, l, m) <==> m == image(l) {
      OppositeIsMirrored(t, b, l, m);
    }
    OppositesAreImages(leds, Flipped(leds, t), t, b, image);
  }

  lemma OppositesAreImages(leds: seq<Led>, perm: seq<nat>, t: Transform, b: Box, image: Led -> Led)
    requires |perm| == |leds| && forall l, m :: AreOpposite(t, b, l, m) <==> m == image(l)
    ensures Symmetric(leds, image) <==> forall i :: 0 <= i < |leds| ==> HasOpposite(leds, t, b, i)
    ensures Images(leds, perm, image) <==>
            forall i :: 0 <= i < |leds| ==> perm[i] < |leds| && AreOpposite(t, b, leds[i], leds[perm[i]])
  {
    forall i | 0 <= i < |leds| ensures HasImage(leds, image, i) <==> HasOpposite(leds, t, b, i) {
      if HasOpposite(leds, t, b, i) {
        var k :| 0 <= k < |leds| && AreOpposite(t, b, leds[i], leds[k]);
        assert leds[k] == image(leds[i]);
      }
      if HasImage(leds, image, i) {
        var k :| 0 <= k < |leds| && leds[k] == image(leds[i]);
        assert AreOpposite(t, b, leds[i], leds[k]);
      }
    }
  }

  /** On distinct positions, the permutation of any zone but a ring sends every LED to the one opposite it
      in the flipped directions, if and only if each LED has one. */
  lemma FlipShowsTheOtherSide(zone: Zone, t: Transform, b: Box)
    requires !zone.topology.Ring? && !zone.topology.Rings?
    requires zone.leds != [] && Finite(zone.leds) && Apart(zone.leds) && Spans(zone.leds, b)
    ensures var (leds, perm) := (zone.leds, Permutation(zone, t));
            (forall i :: 0 <= i < |leds| ==> HasOpposite(leds, t, b, i)) <==>
            forall i :: 0 <= i < |leds| ==> perm[i] < |leds| && AreOpposite(t, b, leds[i], leds[perm[i]])
  {
    var leds, perm := zone.leds, Permutation(zone, t);
    if t.flipH || t.flipV {
      FlippedIsOpposite(leds, t, b);
    } else {
      forall i | 0 <= i < |leds| ensures perm[i] == i && HasOpposite(leds, t, b, i) {
        assert AreOpposite(t, b, leds[i], leds[i]);
      }
    }
  }

  /** The square of the distance, by Pythagoras. */
  function Away(l: Led, m: Led): real {
    (l.x - m.x) * (l.x - m.x) + (l.y - m.y) * (l.y - m.y)
  }

  /** `k` is the first of the LEDs that are nearest to the place, or 0 if none is in reach. */
  ghost predicate IsFirstNearest(leds: seq<Led>, place: Led, k: nat, away: (Led, Led) -> real) {
    if forall i :: 0 <= i < |leds| ==> away(leds[i], place) >= F32_MAX then k == 0
    else
      && k < |leds|
      && (forall i :: 0 <= i < |leds| ==> away(leds[k], place) <= away(leds[i], place))
      && (forall i :: 0 <= i < k ==> away(leds[k], place) < away(leds[i], place))
  }

  lemma {:induction false} NearestIsFirst(leds: seq<Led>, place: Led, n: nat, distance: (Led, Led) -> real)
    requires n <= |leds|
    ensures var (best, d) := Nearest(leds, place, n, distance);
            && d <= F32_MAX && (forall i :: 0 <= i < n ==> d <= distance(leds[i], place))
            && if d == F32_MAX then best == 0
               else best < n && d == distance(leds[best], place)
                    && forall i :: 0 <= i < best ==> d < distance(leds[i], place)
  {
    if n > 0 { NearestIsFirst(leds, place, n - 1, distance); }
  }

  /** The place opposite `l` in the flipped directions. */
  ghost function Opposite(t: Transform, b: Box, l: Led): Led {
    Led(if t.flipH then b.minX + b.maxX - l.x else l.x, if t.flipV then b.minY + b.maxY - l.y else l.y)
  }

  /** Each LED is sent to the first nearest to the place opposite it. */
  ghost predicate SendsToNearest(
      leds: seq<Led>, t: Transform, b: Box, perm: seq<nat>, away: (Led, Led) -> real) {
    |perm| == |leds| && forall i :: 0 <= i < |leds| ==> IsFirstNearest(leds, Opposite(t, b, leds[i]), perm[i], away)
  }

  lemma ReflectionSendsToNearest(leds: seq<Led>, t: Transform, b: Box, distance: (Led, Led) -> real)
    ensures SendsToNearest(leds, t, b, Reflection(leds, MirrorIn(t, b), distance), distance)
  {
    forall i | 0 <= i < |leds|
      ensures IsFirstNearest(leds, Opposite(t, b, leds[i]),
                             Nearest(leds, Mirror(t, b, leds[i]), |leds|, distance).0, distance)
    {
      NearestIsFirst(leds, Mirror(t, b, leds[i]), |leds|, distance);
    }
  }

  lemma AwayIsDistance(l: Led, m: Led)
    ensures Away(l, m) == Distance(l, m)
  {
  }

  lemma SameNearest(leds: seq<Led>, t: Transform, b: Box, perm: seq<nat>, distance: (Led, Led) -> real,
                    away: (Led, Led) -> real)
    requires SendsToNearest(leds, t, b, perm, distance) && forall l, m :: away(l, m) == distance(l, m)
    ensures SendsToNearest(leds, t, b, perm, away)
  {
    forall i | 0 <= i < |leds| ensures IsFirstNearest(leds, Opposite(t, b, leds[i]), perm[i], away) {
      assert IsFirstNearest(leds, Opposite(t, b, leds[i]), perm[i], distance);
    }
  }

  lemma ReflectionIsNearest(leds: seq<Led>, t: Transform, b: Box)
    ensures SendsToNearest(leds, t, b, Reflection(leds, MirrorIn(t, b), Distance), Away)
  {
    ReflectionSendsToNearest(leds, t, b, Distance);
    forall l, m ensures Away(l, m) == Distance(l, m) {
      AwayIsDistance(l, m);
    }
    SameNearest(leds, t, b, Reflection(leds, MirrorIn(t, b), Distance), Distance, Away);
  }

  lemma FlipIsReflection(zone: Zone, t: Transform)
    requires !zone.topology.Ring? && !zone.topology.Rings? && (t.flipH || t.flipV) && zone.leds != []
    ensures var image := MirrorIn(t, Bounds(zone.leds, |zone.leds|));
            Permutation(zone, t) == Reflected(zone.leds, image, Distance)
  {
  }

  lemma ReflectedOrNot(leds: seq<Led>, image: Led -> Led, distance: (Led, Led) -> real)
    ensures var (nearest, perm) := (Reflection(leds, image, distance), Reflected(leds, image, distance));
            if IsPermutation(nearest) then perm == nearest
            else |perm| == |leds| && forall i :: 0 <= i < |perm| ==> perm[i] == i
  {
  }

  /** On any positions a flip sends each LED to the first nearest to the place opposite it, if that is a
      permutation at all, and else leaves every LED where it is. */
  lemma FlipTakesTheNearest(zone: Zone, t: Transform, b: Box) returns (nearest: seq<nat>)
    requires !zone.topology.Ring? && !zone.topology.Rings? && (t.flipH || t.flipV)
    requires zone.leds != [] && Finite(zone.leds) && Spans(zone.leds, b)
    ensures SendsToNearest(zone.leds, t, b, nearest, Away)
    ensures var perm := Permutation(zone, t);
            if IsPermutation(nearest) then perm == nearest else forall i :: 0 <= i < |perm| ==> perm[i] == i
  {
    SpanIsOne(zone.leds, b);
    var image := MirrorIn(t, b);
    ReflectionIsNearest(zone.leds, t, b);
    FlipIsReflection(zone, t);
    ReflectedOrNot(zone.leds, image, Distance);
    nearest := Reflection(zone.leds, image, Distance);
  }

  /** An LED of a ring takes its colour from its own place in the ring, counted backwards if it is reversed,
      moved on by the offset round the ring. */
  lemma RingSourceIs(t: Transform, j: nat, ringLen: nat)
    requires j < ringLen
    ensures var s := RingSource(t, j, ringLen);
            s < ringLen && exists turns: int ::
              s == (if t.reverse then ringLen - 1 - j else j) + t.ledOffset + turns * ringLen
  {
    var a := (if t.reverse then ringLen - 1 - j else j) + t.ledOffset;
    assert a == ringLen * (a / ringLen) + RingSource(t, j, ringLen);
    assert RingSource(t, j, ringLen) == a + -(a / ringLen) * ringLen;
  }

  /** A ring without LEDs has only the source 0; an LED beyond a reversed ring is taken for its last. */
  lemma RingSourceOutside(t: Transform, j: nat, ringLen: nat)
    ensures RingSource(t, j, 0) == 0
    ensures t.reverse && j >= ringLen > 0 ==> RingSource(t, j, ringLen) == RingSource(t, ringLen - 1, ringLen)
  {
  }

  /** A ring zone is turned as a whole. */
  lemma RingTurnsWhole(zone: Zone, t: Transform, j: nat)
    requires zone.topology.Ring? && j < |zone.leds|
    ensures Permutation(zone, t)[j] == RingSource(t, j, |zone.leds|)
  {
    if IsIdentity(t) { Turns(j, 0, |zone.leds|); }
  }

  /** Equal rings are each turned on their own, from the ring of their own number or, swapped, of that
      number from the end; rings that come out uneven stay as they are. */
  lemma RingsTurnEach(zone: Zone, t: Transform, r: nat, j: nat)
    requires zone.topology.Rings? && zone.topology.count > 0 && |zone.leds| % zone.topology.count == 0
    requires r < zone.topology.count && j < |zone.leds| / zone.topology.count
    ensures var (count, per) := (zone.topology.count, |zone.leds| / zone.topology.count);
            && r * per + j < |zone.leds|
            && Permutation(zone, t)[r * per + j] ==
                 (if t.swapRings then count - 1 - r else r) * per + RingSource(t, j, per)
  {
    var n, count := |zone.leds|, zone.topology.count;
    var per := n / count;
    EvenRings(n, count);
    CellOf(r, j, count, per);
    if IsIdentity(t) { Turns(j, 0, per); }
  }

  lemma UnevenRingsStay(zone: Zone, t: Transform, i: nat)
    requires zone.topology.Rings? && (zone.topology.count == 0 || |zone.leds| % zone.topology.count != 0)
    requires i < |zone.leds|
    ensures Permutation(zone, t)[i] == i
  {
  }

  /** Every LED shows the colour that belongs to where its index is sent, black if none does; with nothing
      to transform the colours stay as they are. */
  lemma ColorsFollow(colors: seq<Color>, zone: Zone, t: Transform)
    ensures var (perm, out) := (Permutation(zone, t), Transformed(colors, zone, t));
            if !t.flipH && !t.flipV && !t.reverse && t.ledOffset == 0 && !t.swapRings then out == colors
            else |out| == |zone.leds| && forall i :: 0 <= i < |out| ==>
                   out[i] == if perm[i] < |colors| then colors[perm[i]] else Color(0, 0, 0)
  {
  }
}
