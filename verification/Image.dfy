/** Quarter turns of a square RGBA picture. */
module Image {
  import opened Bytes
  import opened Grid

  /** Where the pixel in row `y`, column `x` goes: its new row and column. */
  function Turned(step: nat, n: nat, y: nat, x: nat): (c: (nat, nat))
    requires y < n && x < n
    ensures c.0 < n && c.1 < n
  {
    if step == 90 then (x, n - 1 - y)
    else if step == 180 then (n - 1 - y, n - 1 - x)
    else if step == 270 then (n - 1 - x, y)
    else (y, x)
  }

  /** The same for the index of a pixel; indices past the picture stay. */
  function Destination(step: nat, n: nat, i: nat): (d: nat)
    ensures d < n * n <==> i < n * n
  {
    if i >= n * n then i
    else
      CellExists(i, n, n);
      var (cy, cx) := Turned(step, n, i / n, i % n);
      CellOf(cy, cx, n, n);
      cy * n + cx
  }

  function Moving(step: nat, n: nat): nat -> nat {
    i => Destination(step, n, i)
  }

  function Back(step: nat): nat {
    if step == 90 then 270 else if step == 270 then 90 else step
  }

  /** The picture whose pixel `p` is pixel `from(p)` of this one. */
  ghost function Drawn(rgba: seq<Byte>, from: nat -> nat): (r: seq<Byte>)
    ensures |r| == |rgba|
  {
    seq(|rgba|, k requires 0 <= k < |rgba| => ByteAt(rgba, from(k / 4) * 4 + k % 4))
  }

  function ByteAt(rgba: seq<Byte>, k: nat): Byte {
    if k < |rgba| then rgba[k] else '\0'
  }

  ghost function Redrawn(rgba: seq<Byte>, pixels: nat, step: nat, from: nat -> nat): seq<Byte> {
    if step == 0 || |rgba| != pixels * 4 then rgba else Drawn(rgba, from)
  }

  /** What turning gives: every pixel is taken from where the opposite turn puts it. */
  ghost function Rotated(rgba: seq<Byte>, n: nat, degrees: nat): seq<Byte> {
    var step := degrees % 360;
    Redrawn(rgba, n * n, step, Moving(Back(step), n))
  }

  ghost predicate SamePixel(out: array<Byte>, d: nat, rgba: seq<Byte>, s: nat)
    requires d * 4 + 4 <= out.Length && s * 4 + 4 <= |rgba|
    reads out
  {
    && out[d * 4] == rgba[s * 4] && out[d * 4 + 1] == rgba[s * 4 + 1]
    && out[d * 4 + 2] == rgba[s * 4 + 2] && out[d * 4 + 3] == rgba[s * 4 + 3]
  }

  method RotateRgbaSquare(rgba: seq<Byte>, size: nat, degrees: nat) returns (r: seq<Byte>)
    ensures r == Rotated(rgba, size, degrees)
  {
    var step := degrees % 360;
    if step == 0 || |rgba| != size * size * 4 {
      return rgba;
    }
    TurnsBack(step, size);
    TurningSends(step, size);
    r := Redraw(rgba, size, step, size * size, Turning(step, size), Moving(step, size), Moving(Back(step), size));
  }

  /** Two maps of the pixels that undo each other. */
  ghost predicate Undo(to: nat -> nat, from: nat -> nat, pixels: nat) {
    && (forall p: nat :: p < pixels ==> to(p) < pixels && from(to(p)) == p)
    && (forall p: nat :: p < pixels ==> from(p) < pixels && to(from(p)) == p)
  }

  type Turn = (nat, nat) -> (nat, nat)

  function Turning(step: nat, n: nat): Turn {
    (y: nat, x: nat) => if y < n && x < n then Turned(step, n, y, x) else (y, x)
  }

  /** `turn` turns as `Turned` does; the loop proof sees only `turn`, so `Turned` need not be unfolded. */
  ghost predicate Follows(turn: Turn, step: nat, n: nat) {
    forall y: nat, x: nat {:trigger Turned(step, n, y, x)} ::
      y < n && x < n ==> turn(y, x) == Turned(step, n, y, x)
  }

  /** The map of cells and the map of indices say the same. */
  ghost predicate SendsOne(turn: Turn, to: nat -> nat, n: nat, pixels: nat, y: nat, x: nat) {
    y * n + x < pixels && to(y * n + x) == turn(y, x).0 * n + turn(y, x).1
  }

  ghost predicate Sends(turn: Turn, to: nat -> nat, n: nat, pixels: nat) {
    forall y: nat, x: nat :: y < n && x < n ==> SendsOne(turn, to, n, pixels, y, x)
  }

  /** The pixel loop: each pixel goes to where `to` says, which `from` undoes. */
  method Redraw(
      rgba: seq<Byte>, n: nat, step: nat,
      ghost pixels: nat, ghost turn: Turn, ghost to: nat -> nat, ghost from: nat -> nat)
    returns (r: seq<Byte>)
    requires pixels == n * n && |rgba| == pixels * 4
    requires Undo(to, from, pixels) && Sends(turn, to, n, pixels) && Follows(turn, step, n)
    ensures r == Drawn(rgba, from)
  {
    var out := new Byte[|rgba|](_ => '\0');
    ghost var done: nat := 0;
    for y := 0 to n
      invariant done == y * n <= pixels
      invariant forall i: nat :: i < done ==> SamePixel(out, to(i), rgba, i)
    {
      Grows(y + 1, n, n);
      for x := 0 to n
        invariant done == y * n + x <= pixels
        invariant forall i: nat :: i < done ==> SamePixel(out, to(i), rgba, i)
      {
        MovePixel(out, rgba, n, step, y, x, done, pixels, turn, to, from);
        done := done + 1;
      }
    }
    DrawnFrom(out, rgba, pixels, to, from);
    return out[..];
  }

  /** One round of the loop: one more pixel is where it belongs, and the earlier ones still are. */
  method MovePixel(
      out: array<Byte>, rgba: seq<Byte>, n: nat, step: nat, y: nat, x: nat,
      ghost done: nat, ghost pixels: nat, ghost turn: Turn, ghost to: nat -> nat, ghost from: nat -> nat)
    requires y < n && x < n && done == y * n + x < pixels && |rgba| == out.Length == pixels * 4
    requires Undo(to, from, pixels) && Sends(turn, to, n, pixels) && Follows(turn, step, n)
    requires forall i: nat :: i < done ==> SamePixel(out, to(i), rgba, i)
    modifies out
    ensures forall i: nat :: i <= done ==> SamePixel(out, to(i), rgba, i)
  {
    var s, d := Place(n, step, y, x, turn);
    assert SendsOne(turn, to, n, pixels, y, x);
    assert d == to(done);
    assert forall i: nat :: i < done ==> from(to(i)) == i != from(d);
    CopyPixel(out, d, rgba, s);
  }

  /** The pixel in row `y`, column `x`: its index, and the index it goes to. */
  method Place(n: nat, step: nat, y: nat, x: nat, ghost turn: Turn) returns (s: nat, d: nat)
    requires y < n && x < n && Follows(turn, step, n)
    ensures s == y * n + x && d == turn(y, x).0 * n + turn(y, x).1
  {
    var (cx, cy) := match step {
      case 90 => (n - 1 - y, x)
      case 180 => (n - 1 - x, n - 1 - y)
      case 270 => (y, n - 1 - x)
      case _ => (x, y)
    };
    assert Turned(step, n, y, x) == (cy, cx);
    assert turn(y, x) == (cy, cx);
    s, d := y * n + x, cy * n + cx;
  }

  lemma DrawnFrom(out: array<Byte>, rgba: seq<Byte>, pixels: nat, to: nat -> nat, from: nat -> nat)
    requires |rgba| == out.Length == pixels * 4 && Undo(to, from, pixels)
    requires forall i: nat :: i < pixels ==> SamePixel(out, to(i), rgba, i)
    ensures out[..] == Drawn(rgba, from)
  {
    forall k | 0 <= k < |rgba| ensures out[k] == Drawn(rgba, from)[k] {
      assert SamePixel(out, to(from(k / 4)), rgba, from(k / 4));
    }
  }

  /** `out[d..d + 4].copy_from_slice(&rgba[s..s + 4])`, counted in pixels. */
  method CopyPixel(out: array<Byte>, d: nat, rgba: seq<Byte>, s: nat)
    requires d * 4 + 4 <= out.Length && s * 4 + 4 <= |rgba|
    modifies out
    ensures SamePixel(out, d, rgba, s)
    ensures forall k :: 0 <= k < out.Length && !(d * 4 <= k < d * 4 + 4) ==> out[k] == old(out[k])
  {
    for c := 0 to 4
      invariant forall k :: d * 4 <= k < d * 4 + c ==> out[k] == rgba[s * 4 + (k - d * 4)]
      invariant forall k :: 0 <= k < out.Length && !(d * 4 <= k < d * 4 + 4) ==> out[k] == old(out[k])
    {
      out[d * 4 + c] := rgba[s * 4 + c];
    }
    assert out[d * 4 + 3] == rgba[s * 4 + 3];
  }

  lemma TurningSends(step: nat, n: nat)
    ensures Sends(Turning(step, n), Moving(step, n), n, n * n) && Follows(Turning(step, n), step, n)
  {
    forall y: nat, x: nat | y < n && x < n ensures SendsOne(Turning(step, n), Moving(step, n), n, n * n, y, x) {
      TurningSendsOne(step, n, y, x);
    }
  }

  lemma TurningSendsOne(step: nat, n: nat, y: nat, x: nat)
    requires y < n && x < n
    ensures SendsOne(Turning(step, n), Moving(step, n), n, n * n, y, x)
  {
    DestinationAt(step, n, y, x);
  }

  lemma DestinationAt(step: nat, n: nat, y: nat, x: nat)
    requires y < n && x < n
    ensures y * n + x < n * n
    ensures var (cy, cx) := Turned(step, n, y, x);
            Destination(step, n, y * n + x) == cy * n + cx < n * n
            && (cy * n + cx) / n == cy && (cy * n + cx) % n == cx
  {
    CellOf(y, x, n, n);
    var (cy, cx) := Turned(step, n, y, x);
    CellOf(cy, cx, n, n);
  }

  // ------------------------------ turns ------------------------------

  predicate Quarter(step: nat) {
    step == 0 || step == 90 || step == 180 || step == 270
  }

  lemma DestinationCell(step: nat, n: nat, i: nat)
    requires i < n * n
    ensures n > 0 && i / n < n
    ensures var d := Destination(step, n, i); (d / n, d % n) == Turned(step, n, i / n, i % n) && d / n < n
  {
    CellExists(i, n, n);
    DestinationAt(step, n, i / n, i % n);
  }

  lemma TurnedAddUp(a: nat, b: nat, n: nat, y: nat, x: nat)
    requires Quarter(a) && Quarter(b) && y < n && x < n
    ensures var (cy, cx) := Turned(a, n, y, x); Turned(b, n, cy, cx) == Turned((a + b) % 360, n, y, x)
  {
  }

  /** One turn after another is one turn. */
  lemma TurnsAddUp(a: nat, b: nat, n: nat, i: nat)
    requires Quarter(a) && Quarter(b)
    ensures Destination(b, n, Destination(a, n, i)) == Destination((a + b) % 360, n, i)
  {
    if i < n * n {
      var once, both := Destination(a, n, i), (a + b) % 360;
      var twice, straight := Destination(b, n, once), Destination(both, n, i);
      DestinationCell(a, n, i);
      DestinationCell(b, n, once);
      DestinationCell(both, n, i);
      TurnedAddUp(a, b, n, i / n, i % n);
      CellExists(twice, n, n);
      CellExists(straight, n, n);
    }
  }

  lemma NoTurn(step: nat, n: nat, i: nat)
    requires step != 90 && step != 180 && step != 270
    ensures Destination(step, n, i) == i
  {
    if i < n * n { CellExists(i, n, n); }
  }

  lemma TurnBack(step: nat, n: nat, i: nat)
    ensures Destination(Back(step), n, Destination(step, n, i)) == i
  {
    NoTurn(0, n, i);
    if Quarter(step) {
      TurnsAddUp(step, Back(step), n, i);
    } else {
      NoTurn(step, n, i);
    }
  }

  /** Turning there and back is staying, so a turn loses no pixel and doubles none. */
  lemma TurnsBack(step: nat, n: nat)
    ensures Undo(Moving(step, n), Moving(Back(step), n), n * n)
  {
    var to, from := Moving(step, n), Moving(Back(step), n);
    forall p: nat | p < n * n
      ensures to(p) < n * n && from(to(p)) == p && from(p) < n * n && to(from(p)) == p
    {
      TurnBack(step, n, p);
      TurnBack(Back(step), n, p);
    }
  }

  // ------------------------------ whole pictures ------------------------------

  lemma DrawnTwice(rgba: seq<Byte>, pixels: nat, f: nat -> nat, g: nat -> nat, h: nat -> nat)
    requires |rgba| == pixels * 4 && AddUp(f, g, h, pixels)
    ensures Drawn(Drawn(rgba, f), g) == Drawn(rgba, h)
  {
    var once := Drawn(rgba, f);
    forall k | 0 <= k < |rgba| ensures Drawn(once, g)[k] == Drawn(rgba, h)[k] {
      var m := g(k / 4) * 4 + k % 4;
      assert m / 4 == g(k / 4) && m % 4 == k % 4;
    }
  }

  lemma DrawnInPlace(rgba: seq<Byte>, f: nat -> nat)
    requires Still(f)
    ensures Drawn(rgba, f) == rgba
  {
  }

  /** A square picture is drawn from the opposite turn, even when it is turned by none. */
  lemma RotatedIsDrawn(rgba: seq<Byte>, n: nat, degrees: nat)
    requires |rgba| == n * n * 4
    ensures Rotated(rgba, n, degrees) == Drawn(rgba, Moving(Back(degrees % 360), n))
  {
    if degrees % 360 == 0 {
      NothingMoves(n);
      DrawnInPlace(rgba, Moving(0, n));
    }
  }

  ghost predicate AddUp(f: nat -> nat, g: nat -> nat, h: nat -> nat, pixels: nat) {
    forall i: nat :: i < pixels ==> f(i) < pixels && g(i) < pixels && h(i) == f(g(i))
  }

  ghost predicate Still(f: nat -> nat) {
    forall i: nat :: f(i) == i
  }

  lemma NothingMoves(n: nat)
    ensures Still(Moving(0, n))
  {
    forall i: nat ensures Moving(0, n)(i) == i {
      NoTurn(0, n, i);
    }
  }

  lemma MovesAddUp(p: nat, q: nat, n: nat)
    requires Quarter(p) && Quarter(q)
    ensures AddUp(Moving(Back(p), n), Moving(Back(q), n), Moving(Back((p + q) % 360), n), n * n)
  {
    forall i: nat | i < n * n
      ensures Destination(Back((p + q) % 360), n, i) == Destination(Back(p), n, Destination(Back(q), n, i))
    {
      BackAddsUp(p, q);
      TurnsAddUp(Back(q), Back(p), n, i);
    }
  }

  lemma BackAddsUp(p: nat, q: nat)
    requires Quarter(p) && Quarter(q)
    ensures (Back(q) + Back(p)) % 360 == Back((p + q) % 360) && Quarter(Back(p)) && Quarter(Back(q))
  {
  }

  lemma QuarterOf(a: nat, b: nat)
    requires a % 90 == 0 && b % 90 == 0
    ensures Quarter(a % 360) && Quarter(b % 360) && (a + b) % 360 == (a % 360 + b % 360) % 360
  {
  }

  lemma RedrawnTwice(
      rgba: seq<Byte>, pixels: nat, p: nat, q: nat, r: nat, f: nat -> nat, g: nat -> nat, h: nat -> nat)
    requires AddUp(f, g, h, pixels)
    requires (p == 0 ==> Still(f)) && (q == 0 ==> Still(g)) && (r == 0 ==> Still(h))
    ensures Redrawn(Redrawn(rgba, pixels, p, f), pixels, q, g) == Redrawn(rgba, pixels, r, h)
  {
    if |rgba| == pixels * 4 {
      DrawnTwice(rgba, pixels, f, g, h);
      if p == 0 { DrawnInPlace(rgba, f); }
      if q == 0 { DrawnInPlace(Drawn(rgba, f), g); }
      if r == 0 { DrawnInPlace(rgba, h); }
    }
  }

  /** Quarter turns add up: turning by `a` and then by `b` is turning by `a + b`. In particular two
      quarter turns are a half turn, 270 undoes 90, and four quarter turns change nothing. */
  lemma RotationsAddUp(rgba: seq<Byte>, n: nat, a: nat, b: nat)
    requires a % 90 == 0 && b % 90 == 0
    ensures Rotated(Rotated(rgba, n, a), n, b) == Rotated(rgba, n, a + b)
  {
    var p, q := a % 360, b % 360;
    QuarterOf(a, b);
    MovesAddUp(p, q, n);
    NothingMoves(n);
    RedrawnTwice(rgba, n * n, p, q, (p + q) % 360,
                 Moving(Back(p), n), Moving(Back(q), n), Moving(Back((p + q) % 360), n));
  }

  /** A quarter turn is clockwise: the top row becomes the right column, the right column the
      bottom row. */
  lemma TurnsClockwise(n: nat, k: nat)
    requires k < n
    ensures k < n * n && k * n + n - 1 < n * n
    ensures Destination(90, n, k) == k * n + n - 1
    ensures Destination(90, n, k * n + n - 1) == (n - 1) * n + (n - 1 - k)
  {
    DestinationAt(90, n, 0, k);
    DestinationAt(90, n, k, n - 1);
  }

  /** Where every turn takes row `y`, column `x`: a quarter turn makes the row the column as far from the right
      as it was from the top, a half turn reverses rows and columns, three quarters undo one. */
  lemma TurnsCells(n: nat, y: nat, x: nat)
    requires y < n && x < n
    ensures Destination(90, n, y * n + x) == x * n + (n - 1 - y)
    ensures Destination(180, n, y * n + x) == (n - 1 - y) * n + (n - 1 - x)
    ensures Destination(270, n, y * n + x) == (n - 1 - x) * n + y
  {
    DestinationAt(90, n, y, x);
    DestinationAt(180, n, y, x);
    DestinationAt(270, n, y, x);
  }

  /** An angle that is no multiple of 90, and a picture that is not a square, change nothing. */
  lemma OthersStay(rgba: seq<Byte>, n: nat, degrees: nat)
    requires degrees % 90 != 0 || |rgba| != n * n * 4
    ensures Rotated(rgba, n, degrees) == rgba
  {
    if |rgba| == n * n * 4 {
      var step := degrees % 360;
      RotatedIsDrawn(rgba, n, degrees);
      forall i: nat ensures Moving(Back(step), n)(i) == i {
        NoTurn(step, n, i);
      }
      DrawnInPlace(rgba, Moving(Back(step), n));
    }
  }

  /** Each pixel arrives whole at its destination, and the pixel there is no other's. */
  lemma PixelsMoveWhole(rgba: seq<Byte>, n: nat, degrees: nat, i: nat)
    requires |rgba| == n * n * 4 && i < n * n
    ensures |Rotated(rgba, n, degrees)| == |rgba| && Destination(degrees % 360, n, i) < n * n
    ensures var d := Destination(degrees % 360, n, i);
            && Rotated(rgba, n, degrees)[d * 4..d * 4 + 4] == rgba[i * 4..i * 4 + 4]
            && (forall j: nat :: j < n * n && Destination(degrees % 360, n, j) == d ==> j == i)
  {
    var step := degrees % 360;
    RotatedIsDrawn(rgba, n, degrees);
    forall j: nat ensures Destination(Back(step), n, Destination(step, n, j)) == j {
      TurnBack(step, n, j);
    }
    PixelDrawn(rgba, n * n, Moving(Back(step), n), Destination(step, n, i), i);
  }

  lemma PixelDrawn(rgba: seq<Byte>, pixels: nat, from: nat -> nat, d: nat, s: nat)
    requires |rgba| == pixels * 4 && d < pixels && s < pixels && from(d) == s
    ensures Drawn(rgba, from)[d * 4..d * 4 + 4] == rgba[s * 4..s * 4 + 4]
  {
    var drawn := Drawn(rgba, from);
    forall k | d * 4 <= k < d * 4 + 4 ensures drawn[k] == rgba[s * 4 + (k - d * 4)] {
      assert k / 4 == d && k % 4 == k - d * 4;
    }
  }
}
