/**
 * Rasterisation into the decoder's RGBA output frame, one 32-bit pixel per
 * element, row-major: Bresenham lines (draw_line) and the outline of an
 * axis-aligned box (the box part of BoundingBox::draw).
 */
module BoxDraw {

  /** Position of pixel (x, y) in a row-major frame `w` pixels wide. */
  function PixelIndex(x: int, y: int, w: int): int {
    y * w + x
  }

  lemma {:induction false} MulMonotone(k: int, a: int, b: int)
    requires 0 <= k && a <= b
    ensures k * a <= k * b
  {
    assert k * b - k * a == k * (b - a);
  }

  /** Every in-bounds pixel lies inside the frame. */
  lemma {:induction false} PixelIndexInRange(x: int, y: int, w: int, h: int)
    requires 0 <= x < w && 0 <= y < h
    ensures 0 <= PixelIndex(x, y, w) < w * h
  {
    MulMonotone(w, y, h - 1);
    assert w * (h - 1) == w * h - w;
    assert 0 <= y * w;
  }

  /** Distinct in-bounds pixels have distinct positions. */
  lemma {:induction false} PixelIndexInjective(x1: int, y1: int, x2: int, y2: int, w: int)
    requires 0 <= x1 < w && 0 <= x2 < w
    requires PixelIndex(x1, y1, w) == PixelIndex(x2, y2, w)
    ensures x1 == x2 && y1 == y2
  {
    if y1 < y2 {
      MulMonotone(w, y1 + 1, y2);
      assert false;
    } else if y2 < y1 {
      MulMonotone(w, y2 + 1, y1);
      assert false;
    }
  }

  function Abs(v: int): nat { if v < 0 then -v else v }

  function Max(u: int, v: int): int { if u < v then v else u }

  /**
   * Point p lies within half a pixel, measured along the line's major axis,
   * of the ideal segment from (x0, y0) to (x1, y1): scaled by the larger of
   * the two extents, its offset from the segment is at most one half.
   */
  predicate NearLine(x0: int, y0: int, x1: int, y1: int, p: (int, int)) {
    2 * Abs(Abs(x1 - x0) * Abs(p.1 - y0) - Abs(y1 - y0) * Abs(p.0 - x0)) <= Max(Abs(x1 - x0), Abs(y1 - y0))
  }

  /** One step of a line walk: x, y or both move by one toward the end point. */
  predicate Step(p: (int, int), q: (int, int), sx: int, sy: int) {
    p != q && (q.0 == p.0 || q.0 == p.0 + sx) && (q.1 == p.1 || q.1 == p.1 + sy)
  }

  /**
   * With a steps taken along x out of dx and b along y out of dy, and the
   * error term of the walk, a coordinate that has reached its end is not
   * stepped past it.
   */
  lemma {:induction false} NoOvershoot(dx: nat, dy: nat, a: nat, b: nat, err: int)
    requires a <= dx && b <= dy && !(a == dx && b == dy)
    requires err == dx * (1 + b) - dy * (1 + a)
    ensures a == dx ==> 2 * err + dy < 0
    ensures b == dy ==> 2 * err > dx
  {
    if a == dx {
      MulMonotone(dx, b, dy - 1);
      assert dx * (1 + b) == dx + dx * b;
      assert dy * (1 + a) == dy + dy * dx;
      assert dx * (dy - 1) == dx * dy - dx;
    }
    if b == dy {
      MulMonotone(dy, a, dx - 1);
      assert dy * (1 + a) == dy + dy * a;
      assert dx * (1 + b) == dx + dx * dy;
      assert dy * (dx - 1) == dy * dx - dy;
    }
  }

  predicate InFrame(p: (int, int), width: int, height: int) {
    0 <= p.0 < width && 0 <= p.1 < height
  }

  /** The frame positions of those of `points` that lie inside the frame. */
  ghost function Painted(points: seq<(int, int)>, width: int, height: int): set<int> {
    set p | p in points && InFrame(p, width, height) :: PixelIndex(p.0, p.1, width)
  }

  /** A pixel inside the frame is painted exactly when it is one of the points. */
  lemma {:induction false} PaintedExactly(points: seq<(int, int)>, width: int, height: int, px: int, py: int)
    requires InFrame((px, py), width, height)
    ensures PixelIndex(px, py, width) in Painted(points, width, height) <==> (px, py) in points
  {
    if PixelIndex(px, py, width) in Painted(points, width, height) {
      var p :| p in points && InFrame(p, width, height) && PixelIndex(p.0, p.1, width) == PixelIndex(px, py, width);
      PixelIndexInjective(p.0, p.1, px, py, width);
    }
  }

  /** Paints pixel (x, y) when it lies inside the frame. */
  method Plot(frame: array<nat>, width: int, height: int, x: int, y: int, color: nat)
    requires 0 <= width && 0 <= height && frame.Length == width * height
    modifies frame
    ensures forall k :: 0 <= k < frame.Length ==>
      frame[k] == if InFrame((x, y), width, height) && k == PixelIndex(x, y, width) then color else old(frame[k])
  {
    if 0 <= x < width && 0 <= y < height {
      PixelIndexInRange(x, y, width, height);
      frame[PixelIndex(x, y, width)] := color;
    }
  }

  /** The sign of the walk's steps along one axis, from `v0` toward `v1`. */
  function Dir(v0: int, v1: int): int { if v0 < v1 then 1 else -1 }

  /**
   * The state of the line walk from (x0, y0) to (x1, y1) after `a` steps
   * along x and `b` along y: the position and Bresenham's error term.
   */
  predicate Walk(x0: int, y0: int, x1: int, y1: int, x: int, y: int, err: int, a: nat, b: nat) {
    a <= Abs(x1 - x0) && b <= Abs(y1 - y0)
    && x == (if x0 < x1 then x0 + a else x0 - a)
    && y == (if y0 < y1 then y0 + b else y0 - b)
    && err == Abs(x1 - x0) * (1 + b) - Abs(y1 - y0) * (1 + a)
  }

  lemma {:induction false} ErrorAfterSteps(dx: nat, dy: nat, a: nat, b: nat, stepX: bool, stepY: bool)
    ensures dx * (1 + b) - dy * (1 + a) - (if stepX then dy else 0) + (if stepY then dx else 0)
      == dx * (1 + (if stepY then b + 1 else b)) - dy * (1 + (if stepX then a + 1 else a))
  {
    assert dx * (1 + (b + 1)) == dx * (1 + b) + dx;
    assert dy * (1 + (a + 1)) == dy * (1 + a) + dy;
  }

  /**
   * Bresenham's step decisions keep the walk within half a pixel of the
   * ideal segment: with d = dx·b - dy·a, the error term is dx - dy + d, a
   * step along x subtracts dy from d and a step along y adds dx.
   */
  lemma {:induction false} CloseAfterStep(dx: nat, dy: nat, a: nat, b: nat, err: int, stepX: bool, stepY: bool)
    requires err == dx * (1 + b) - dy * (1 + a)
    requires 2 * Abs(dx * b - dy * a) <= Max(dx, dy)
    requires stepX == (2 * err >= -(dy as int)) && stepY == (2 * err <= dx)
    ensures 2 * Abs(dx * (if stepY then b + 1 else b) - dy * (if stepX then a + 1 else a)) <= Max(dx, dy)
  {
    var d := dx * b - dy * a;
    assert dx * (1 + b) == dx + dx * b;
    assert dy * (1 + a) == dy + dy * a;
    assert err == dx - dy + d;
    assert dx * (b + 1) == dx * b + dx;
    assert dy * (a + 1) == dy * a + dy;
  }

  /** A step of the walk taken by Bresenham's decisions keeps it near the line. */
  lemma {:induction false} NearLineAfterStep(x0: int, y0: int, x1: int, y1: int,
                                              x: int, y: int, err: int, a: nat, b: nat,
                                              x': int, y': int, err': int, a': nat, b': nat)
    requires Walk(x0, y0, x1, y1, x, y, err, a, b) && NearLine(x0, y0, x1, y1, (x, y))
    requires Walk(x0, y0, x1, y1, x', y', err', a', b')
    requires a' == (if 2 * err >= -(Abs(y1 - y0) as int) then a + 1 else a)
    requires b' == (if 2 * err <= Abs(x1 - x0) then b + 1 else b)
    ensures NearLine(x0, y0, x1, y1, (x', y'))
  {
    var dx, dy := Abs(x1 - x0), Abs(y1 - y0);
    assert Abs(x - x0) == a && Abs(y - y0) == b;
    assert Abs(x' - x0) == a' && Abs(y' - y0) == b';
    CloseAfterStep(dx, dy, a, b, err, 2 * err >= -(dy as int), 2 * err <= dx);
  }

  /** One iteration of draw_line's step, away from the end point. */
  method Advance(x0: int, y0: int, x1: int, y1: int, x: int, y: int, err: int, ghost a: nat, ghost b: nat)
    returns (x': int, y': int, err': int, ghost a': nat, ghost b': nat)
    requires Walk(x0, y0, x1, y1, x, y, err, a, b) && (x, y) != (x1, y1)
    requires NearLine(x0, y0, x1, y1, (x, y))
    ensures Walk(x0, y0, x1, y1, x', y', err', a', b')
    ensures NearLine(x0, y0, x1, y1, (x', y'))
    ensures Step((x, y), (x', y'), Dir(x0, x1), Dir(y0, y1))
    ensures a' + b' > a + b
  {
    var dx := Abs(x1 - x0);
    var dy := -(Abs(y1 - y0) as int);
    NoOvershoot(dx, Abs(y1 - y0), a, b, err);
    var e2 := 2 * err;
    ErrorAfterSteps(dx, Abs(y1 - y0), a, b, e2 >= dy, e2 <= dx);
    x', y', err', a', b' := x, y, err, a, b;
    if e2 >= dy {
      err' := err' + dy;
      x' := x' + Dir(x0, x1);
      a' := a' + 1;
    }
    if e2 <= dx {
      err' := err' + dx;
      y' := y' + Dir(y0, y1);
      b' := b' + 1;
    }
    NearLineAfterStep(x0, y0, x1, y1, x, y, err, a, b, x', y', err', a', b');
  }

  /**
   * draw_line: Bresenham's walk from (x0, y0) to (x1, y1). The ghost
   * `points` are the positions visited, in order; every in-bounds one is
   * painted `color` and nothing else changes (PaintedExactly reads this
   * pixel by pixel), and every one lies within half a pixel of the ideal
   * segment along the major axis.
   */
  method DrawLine(frame: array<nat>, width: int, height: int,
                  x0: int, y0: int, x1: int, y1: int, color: nat)
    returns (ghost points: seq<(int, int)>)
    requires 0 <= width && 0 <= height && frame.Length == width * height
    modifies frame
    ensures |points| >= 1 && points[0] == (x0, y0) && points[|points| - 1] == (x1, y1)
    ensures forall t :: 0 <= t < |points| - 1 ==> Step(points[t], points[t + 1], Dir(x0, x1), Dir(y0, y1))
    ensures forall t :: 0 <= t < |points| ==> NearLine(x0, y0, x1, y1, points[t])
    ensures forall k :: 0 <= k < frame.Length ==>
      frame[k] == if k in Painted(points, width, height) then color else old(frame[k])
  {
    var err := Abs(x1 - x0) - Abs(y1 - y0);
    var x, y := x0, y0;
    ghost var a: nat, b: nat := 0, 0;
    points := [];
    while true
      invariant Walk(x0, y0, x1, y1, x, y, err, a, b)
      invariant |points| == 0 ==> (x, y) == (x0, y0)
      invariant |points| > 0 ==> points[0] == (x0, y0) && Step(points[|points| - 1], (x, y), Dir(x0, x1), Dir(y0, y1))
      invariant forall t :: 0 <= t < |points| - 1 ==> Step(points[t], points[t + 1], Dir(x0, x1), Dir(y0, y1))
      invariant NearLine(x0, y0, x1, y1, (x, y))
      invariant forall t :: 0 <= t < |points| ==> NearLine(x0, y0, x1, y1, points[t])
      invariant forall k :: 0 <= k < frame.Length ==>
        frame[k] == if k in Painted(points, width, height) then color else old(frame[k])
      decreases Abs(x1 - x0) + Abs(y1 - y0) - a - b
    {
      Plot(frame, width, height, x, y, color);
      assert Painted(points + [(x, y)], width, height) ==
        Painted(points, width, height) + if InFrame((x, y), width, height) then {PixelIndex(x, y, width)} else {};
      points := points + [(x, y)];
      if x == x1 && y == y1 {
        break;
      }
      x, y, err, a, b := Advance(x0, y0, x1, y1, x, y, err, a, b);
    }
  }

  /** Pixels of the two horizontal edges, columns x1 .. j - 1, left to right. */
  function HorizontalEdges(x1: int, j: int, y1: int, y2: int): seq<(int, int)>
    decreases j - x1
  {
    if j <= x1 then [] else HorizontalEdges(x1, j - 1, y1, y2) + [(j - 1, y1), (j - 1, y2)]
  }

  /** Pixels of the two vertical edges, rows y1 + 1 .. i - 1, top to bottom. */
  function VerticalEdges(x1: int, x2: int, y1: int, i: int): seq<(int, int)>
    decreases i - y1
  {
    if i <= y1 + 1 then [] else VerticalEdges(x1, x2, y1, i - 1) + [(x1, i - 1), (x2, i - 1)]
  }

  /** The pixels the box part of draw paints for the box (x1, y1) .. (x2, y2). */
  function BoxOutline(x1: int, x2: int, y1: int, y2: int): seq<(int, int)> {
    HorizontalEdges(x1, x2 + 1, y1, y2) + VerticalEdges(x1, x2, y1, y2)
  }

  lemma {:induction false} HorizontalEdgesMembers(x1: int, j: int, y1: int, y2: int, p: (int, int))
    ensures p in HorizontalEdges(x1, j, y1, y2) <==> x1 <= p.0 < j && (p.1 == y1 || p.1 == y2)
    decreases j - x1
  {
    if j > x1 {
      HorizontalEdgesMembers(x1, j - 1, y1, y2, p);
    }
  }

  lemma {:induction false} VerticalEdgesMembers(x1: int, x2: int, y1: int, i: int, p: (int, int))
    ensures p in VerticalEdges(x1, x2, y1, i) <==> y1 < p.1 < i && (p.0 == x1 || p.0 == x2)
    decreases i - y1
  {
    if i > y1 + 1 {
      VerticalEdgesMembers(x1, x2, y1, i - 1, p);
    }
  }

  /**
   * The outline is exactly the box's border: both horizontal edges from x1
   * to x2 and both vertical edges strictly between them.
   */
  lemma {:induction false} BoxOutlineMembers(x1: int, x2: int, y1: int, y2: int, p: (int, int))
    ensures p in BoxOutline(x1, x2, y1, y2) <==>
      ((p.1 == y1 || p.1 == y2) && x1 <= p.0 <= x2) || ((p.0 == x1 || p.0 == x2) && y1 < p.1 < y2)
  {
    HorizontalEdgesMembers(x1, x2 + 1, y1, y2, p);
    VerticalEdgesMembers(x1, x2, y1, y2, p);
  }

  lemma {:induction false} PaintedAppend(p: seq<(int, int)>, q: seq<(int, int)>, width: int, height: int)
    ensures Painted(p + q, width, height) == Painted(p, width, height) + Painted(q, width, height)
  {
    var l, r := Painted(p + q, width, height), Painted(p, width, height) + Painted(q, width, height);
    forall k | k in l ensures k in r {
      var pt :| pt in p + q && InFrame(pt, width, height) && PixelIndex(pt.0, pt.1, width) == k;
      if pt in p {
        assert k in Painted(p, width, height);
      } else {
        assert k in Painted(q, width, height);
      }
    }
  }

  lemma {:induction false} PaintedPair(u: (int, int), v: (int, int), width: int, height: int)
    requires InFrame(u, width, height) && InFrame(v, width, height)
    ensures Painted([u, v], width, height) == {PixelIndex(u.0, u.1, width), PixelIndex(v.0, v.1, width)}
  {
  }

  /** One iteration of either loop of draw: two pixels, both inside the frame. */
  method PaintPair(frame: array<nat>, width: int, height: int, u: (int, int), v: (int, int), color: nat)
    requires 0 <= width && 0 <= height && frame.Length == width * height
    requires InFrame(u, width, height) && InFrame(v, width, height)
    modifies frame
    ensures forall k :: 0 <= k < frame.Length ==>
      frame[k] == if k in Painted([u, v], width, height) then color else old(frame[k])
  {
    PixelIndexInRange(u.0, u.1, width, height);
    PixelIndexInRange(v.0, v.1, width, height);
    frame[PixelIndex(u.0, u.1, width)] := color;
    frame[PixelIndex(v.0, v.1, width)] := color;
    PaintedPair(u, v, width, height);
  }

  /** The pixels `orig` with the indices in `painted` set to `color`. */
  function Overlay(orig: seq<nat>, painted: set<int>, color: nat): (r: seq<nat>)
    ensures |r| == |orig|
  {
    seq(|orig|, k requires 0 <= k < |orig| => if k in painted then color else orig[k])
  }

  /** Painting two more points onto a frame that shows `points` painted over `orig`. */
  method PaintMore(frame: array<nat>, width: int, height: int, ghost orig: seq<nat>, ghost points: seq<(int, int)>,
                   u: (int, int), v: (int, int), color: nat)
    requires 0 <= width && 0 <= height && frame.Length == width * height
    requires InFrame(u, width, height) && InFrame(v, width, height)
    requires frame[..] == Overlay(orig, Painted(points, width, height), color)
    modifies frame
    ensures frame[..] == Overlay(orig, Painted(points + [u, v], width, height), color)
  {
    ghost var before := frame[..];
    PaintPair(frame, width, height, u, v, color);
    PaintedAppend(points, [u, v], width, height);
    forall k | 0 <= k < frame.Length
      ensures frame[k] == Overlay(orig, Painted(points + [u, v], width, height), color)[k]
    {
      assert old(frame[k]) == before[k];
    }
  }

  /** One round of draw's horizontal loop: column j of rows y1 and y2. */
  method PaintColumn(frame: array<nat>, width: int, height: int, ghost orig: seq<nat>,
                     x1: int, j: int, y1: int, y2: int, color: nat)
    requires 0 <= width && 0 <= height && frame.Length == width * height
    requires x1 <= j && 0 <= j < width && 0 <= y1 < height && 0 <= y2 < height
    requires frame[..] == Overlay(orig, Painted(HorizontalEdges(x1, j, y1, y2), width, height), color)
    modifies frame
    ensures frame[..] == Overlay(orig, Painted(HorizontalEdges(x1, j + 1, y1, y2), width, height), color)
  {
    PaintMore(frame, width, height, orig, HorizontalEdges(x1, j, y1, y2), (j, y1), (j, y2), color);
    assert HorizontalEdges(x1, j + 1, y1, y2) == HorizontalEdges(x1, j, y1, y2) + [(j, y1), (j, y2)];
  }

  /** The horizontal loop of draw: rows y1 and y2, columns x1 .. x2. */
  method DrawHorizontalEdges(frame: array<nat>, width: int, height: int,
                             x1: int, x2: int, y1: int, y2: int, color: nat)
    requires 0 <= width && 0 <= height && frame.Length == width * height
    requires 0 <= x1 < width && 0 <= x2 < width && 0 <= y1 < height && 0 <= y2 < height
    modifies frame
    ensures frame[..] == Overlay(old(frame[..]), Painted(HorizontalEdges(x1, x2 + 1, y1, y2), width, height), color)
  {
    ghost var orig := frame[..];
    assert orig == Overlay(orig, Painted([], width, height), color);
    var j := x1;
    while j <= x2
      invariant j == x1 || x1 < j <= x2 + 1
      invariant frame[..] == Overlay(orig, Painted(HorizontalEdges(x1, j, y1, y2), width, height), color)
    {
      PaintColumn(frame, width, height, orig, x1, j, y1, y2, color);
      j := j + 1;
    }
    assert HorizontalEdges(x1, j, y1, y2) == HorizontalEdges(x1, x2 + 1, y1, y2);
  }

  /** One round of draw's vertical loop: row i of columns x1 and x2. */
  method PaintRow(frame: array<nat>, width: int, height: int, ghost orig: seq<nat>,
                  x1: int, x2: int, y1: int, i: int, color: nat)
    requires 0 <= width && 0 <= height && frame.Length == width * height
    requires y1 + 1 <= i && 0 <= i < height && 0 <= x1 < width && 0 <= x2 < width
    requires frame[..] == Overlay(orig, Painted(VerticalEdges(x1, x2, y1, i), width, height), color)
    modifies frame
    ensures frame[..] == Overlay(orig, Painted(VerticalEdges(x1, x2, y1, i + 1), width, height), color)
  {
    PaintMore(frame, width, height, orig, VerticalEdges(x1, x2, y1, i), (x1, i), (x2, i), color);
    assert VerticalEdges(x1, x2, y1, i + 1) == VerticalEdges(x1, x2, y1, i) + [(x1, i), (x2, i)];
  }

  /** The vertical loop of draw: columns x1 and x2, rows strictly between y1 and y2. */
  method DrawVerticalEdges(frame: array<nat>, width: int, height: int,
                           x1: int, x2: int, y1: int, y2: int, color: nat)
    requires 0 <= width && 0 <= height && frame.Length == width * height
    requires 0 <= x1 < width && 0 <= x2 < width && 0 <= y1 < height && 0 <= y2 < height
    modifies frame
    ensures frame[..] == Overlay(old(frame[..]), Painted(VerticalEdges(x1, x2, y1, y2), width, height), color)
  {
    ghost var orig := frame[..];
    assert orig == Overlay(orig, Painted([], width, height), color);
    var i := y1 + 1;
    while i < y2
      invariant i == y1 + 1 || y1 + 1 < i <= y2
      invariant frame[..] == Overlay(orig, Painted(VerticalEdges(x1, x2, y1, i), width, height), color)
    {
      PaintRow(frame, width, height, orig, x1, x2, y1, i, color);
      i := i + 1;
    }
    assert VerticalEdges(x1, x2, y1, i) == VerticalEdges(x1, x2, y1, y2);
  }

  lemma {:induction false} OverlayTwice(orig: seq<nat>, mid: seq<nat>, now: seq<nat>, a: set<int>, b: set<int>, color: nat)
    requires mid == Overlay(orig, a, color) && now == Overlay(mid, b, color)
    ensures now == Overlay(orig, a + b, color)
  {
  }

  lemma {:induction false} OverlayPixels(now: seq<nat>, orig: seq<nat>, painted: set<int>, color: nat)
    requires now == Overlay(orig, painted, color)
    ensures forall k :: 0 <= k < |now| ==> now[k] == if k in painted then color else orig[k]
  {
  }



  /**
   * The box part of BoundingBox::draw: both horizontal edges, then both
   * vertical edges, painted `color` with no other pixel changed.
   */
  method DrawBox(frame: array<nat>, width: int, height: int,
                 x1: int, x2: int, y1: int, y2: int, color: nat)
    requires 0 <= width && 0 <= height && frame.Length == width * height
    requires 0 <= x1 < width && 0 <= x2 < width && 0 <= y1 < height && 0 <= y2 < height
    modifies frame
    ensures forall k :: 0 <= k < frame.Length ==>
      frame[k] == if k in Painted(BoxOutline(x1, x2, y1, y2), width, height) then color else old(frame[k])
  {
    ghost var orig := frame[..];
    DrawHorizontalEdges(frame, width, height, x1, x2, y1, y2, color);
    ghost var mid := frame[..];
    DrawVerticalEdges(frame, width, height, x1, x2, y1, y2, color);
    var h, v := HorizontalEdges(x1, x2 + 1, y1, y2), VerticalEdges(x1, x2, y1, y2);
    PaintedAppend(h, v, width, height);
    OverlayTwice(orig, mid, frame[..], Painted(h, width, height), Painted(v, width, height), color);
    OverlayPixels(frame[..], orig, Painted(BoxOutline(x1, x2, y1, y2), width, height), color);
  }
}
