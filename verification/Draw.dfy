/** The integer line and circle of draw.c, over unbounded integers. */
module Draw {

  type Color = bv16

  datatype Point = Point(x: int, y: int)

  /** The frame buffer by position, and the order in which pixels were written. */
  class Screen {
    var shown: map<Point, Color>
    ghost var drawn: seq<Point>

    constructor ()
      ensures shown == map[] && drawn == []
    {
      shown := map[];
      drawn := [];
    }

    method Pixel(x: int, y: int, color: Color)
      modifies this
      ensures shown == old(shown)[Point(x, y) := color] && drawn == old(drawn) + [Point(x, y)]
    {
      shown := shown[Point(x, y) := color];
      drawn := drawn + [Point(x, y)];
    }

    /** circle: for a radius of at least one the pixels are exactly the points
        nearest to the circle, octant column by octant column, each once. */
    method Circle(h: int, k: int, r: int, color: Color) returns (ghost heights: seq<int>)
      modifies this
      ensures drawn == old(drawn) + Ring(h, k, heights)
      ensures shown == Painted(old(shown), Ring(h, k, heights), color)
      ensures r >= 1 ==> IsOctant(heights, r)
      ensures r >= 1 ==> forall p :: p in Ring(h, k, heights) <==> OnCircle(p.x - h, p.y - k, r)
      ensures r <= 0 ==> heights == [r]
    {
      hide Ring, Near, Painted, IsOctant, Decision, OnCircle;
      var x, y, p := 0, r, 1 - r;
      heights := [];
      CircleStarts(h, k, r, old(shown), color);
      while true
        invariant |heights| == x && InColumn(heights, x, y, r)
        invariant r <= 0 ==> heights == [] && y == r
        invariant p == Decision(x, y, r)
        invariant drawn == old(drawn) + Ring(h, k, heights)
        invariant shown == Painted(old(shown), Ring(h, k, heights), color)
        decreases y - x
      {
        Pixels(h, k, x, y, color);
        PaintedTwice(old(shown), Ring(h, k, heights), Eight(h, k, x, y), color);
        NextColumn(heights, x, y, r);
        RingGrows(h, k, heights, y);
        heights := heights + [y];
        x := x + 1;
        if p < 0 {
          p := p + 2 * x + 1;
        } else {
          y := y - 1;
          p := p + 2 * (x - y) + 1;
        }
        if !(x <= y) {
          break;
        }
      }
      if r >= 1 {
        forall q ensures q in Ring(h, k, heights) <==> OnCircle(q.x - h, q.y - k, r) {
          RingIsCircle(h, k, heights, r, q);
        }
      }
    }

    /** line: the pixels of the longer direction, without the end point. */
    method Line(x0: int, y0: int, xx: int, yy: int, color: Color)
      modifies this
      ensures
        var ps := Segment(x0, y0, xx, yy);
        drawn == old(drawn) + ps && shown == Painted(old(shown), ps, color)
    {
      hide Painted, Segment, RowState, ColumnState, Row, Column;
      var x, y := x0, y0;
      var dx, dy := xx - x, yy - y;
      var stepX, stepY := 0, 0;
      if dx >= 0 {
        stepX := 1;
      } else {
        stepX := -1;
        dx := -dx;
      }
      if dy >= 0 {
        stepY := 1;
      } else {
        stepY := -1;
        dy := -dy;
      }
      var dXY := dy - dx;
      NothingDrawn(x0, y0, xx, yy, old(shown), color);
      SegmentLength(x0, y0, xx, yy);
      var i := 0;
      ghost var k := 0;
      if dx >= dy {
        while i < dx
          invariant 0 <= i <= dx && RowState(i, k, dx, dy, dXY)
          invariant x == x0 + stepX * i && y == y0 + stepY * k
          invariant drawn == old(drawn) + Segment(x0, y0, xx, yy)[..i]
          invariant shown == Painted(old(shown), Segment(x0, y0, xx, yy)[..i], color)
        {
          NextRow(i, k, dx, dy, dXY);
          NextPixel(x0, y0, xx, yy, i, k, old(shown), color);
          Steps(stepX, stepY, i, k);
          Pixel(x, y, color);
          if dXY > 0 {
            dXY := dXY - dx;
            y := y + stepY;
            k := k + 1;
          }
          dXY := dXY + dy;
          x := x + stepX;
          i := i + 1;
        }
      } else {
        while i < dy
          invariant 0 <= i <= dy && ColumnState(i, k, dx, dy, dXY)
          invariant y == y0 + stepY * i && x == x0 + stepX * k
          invariant drawn == old(drawn) + Segment(x0, y0, xx, yy)[..i]
          invariant shown == Painted(old(shown), Segment(x0, y0, xx, yy)[..i], color)
        {
          NextColumnOfLine(i, k, dx, dy, dXY);
          NextPixel(x0, y0, xx, yy, i, k, old(shown), color);
          Steps(stepX, stepY, i, k);
          Pixel(x, y, color);
          if dXY > 0 {
            dXY := dXY - dy;
            x := x + stepX;
            k := k + 1;
          }
          dXY := dXY + dx;
          y := y + stepY;
          i := i + 1;
        }
      }
    }

    /** The eight pixels of one offset. */
    method Pixels(h: int, k: int, x: int, y: int, color: Color)
      modifies this
      ensures drawn == old(drawn) + Eight(h, k, x, y)
      ensures shown == Painted(old(shown), Eight(h, k, x, y), color)
    {
      Pixel(h + x, k + y, color);
      Pixel(h + y, k + x, color);
      Pixel(h + y, k - x, color);
      Pixel(h + x, k - y, color);
      Pixel(h - x, k - y, color);
      Pixel(h - y, k - x, color);
      Pixel(h - y, k + x, color);
      Pixel(h - x, k + y, color);
      hide Painted;
      PaintedInOrder(old(shown), Eight(h, k, x, y), color);
    }
  }

  /** was with the points of ps in the color. */
  function Painted(was: map<Point, Color>, ps: seq<Point>, color: Color): map<Point, Color> {
    if ps == [] then was else Painted(was, ps[..|ps|-1], color)[ps[|ps|-1] := color]
  }

  /** Exactly the points of ps have got the color. */
  lemma {:induction false} PaintedMeans(was: map<Point, Color>, ps: seq<Point>, color: Color, q: Point)
    ensures q in Painted(was, ps, color) <==> q in was || q in ps
    ensures q in ps ==> Painted(was, ps, color)[q] == color
    ensures q in was && q !in ps ==> Painted(was, ps, color)[q] == was[q]
  {
    if ps != [] {
      PaintedMeans(was, ps[..|ps|-1], color, q);
      assert ps == ps[..|ps|-1] + [ps[|ps|-1]];
    }
  }

  lemma {:induction false} PaintedTwice(was: map<Point, Color>, ps: seq<Point>, qs: seq<Point>, color: Color)
    ensures Painted(was, ps + qs, color) == Painted(Painted(was, ps, color), qs, color)
  {
    if qs == [] {
      assert ps + qs == ps;
    } else {
      PaintedTwice(was, ps, qs[..|qs|-1], color);
      assert (ps + qs)[..|ps + qs|-1] == ps + qs[..|qs|-1];
    }
  }

  lemma PaintedOne(was: map<Point, Color>, ps: seq<Point>, p: Point, color: Color)
    ensures Painted(was, ps + [p], color) == Painted(was, ps, color)[p := color]
  {
    assert (ps + [p])[..|ps|] == ps;
  }

  lemma PaintedInOrder(was: map<Point, Color>, ps: seq<Point>, color: Color)
    requires |ps| == 8
    ensures Painted(was, ps, color) == was[ps[0] := color][ps[1] := color][ps[2] := color][ps[3] := color]
                                          [ps[4] := color][ps[5] := color][ps[6] := color][ps[7] := color]
  {
    assert ps[..0] == [] && ps[..8] == ps;
    forall i | 0 <= i < 8 ensures Painted(was, ps[..i+1], color) == Painted(was, ps[..i], color)[ps[i] := color] {
      PaintedOne(was, ps[..i], ps[i], color);
      assert ps[..i+1] == ps[..i] + [ps[i]];
    }
    hide Painted;
    assert ps[..0+1] == ps[..1] && ps[..1+1] == ps[..2];
  }

  /** The pixels for one offset in the octant. */
  function Eight(h: int, k: int, x: int, y: int): seq<Point> {
    [Point(h + x, k + y), Point(h + y, k + x), Point(h + y, k - x), Point(h + x, k - y),
     Point(h - x, k - y), Point(h - y, k - x), Point(h - y, k + x), Point(h - x, k + y)]
  }

  // --- the circle ---

  /** The pixels of the columns 0, 1, ... of the octant with these heights. */
  function Ring(h: int, k: int, heights: seq<int>): seq<Point> {
    if heights == [] then []
    else Ring(h, k, heights[..|heights|-1]) + Eight(h, k, |heights| - 1, heights[|heights|-1])
  }

  function Sq(a: int): int { a * a }

  /** y is the integer nearest to the circle's height at x. */
  predicate Near(x: int, y: int, r: int) {
    Sq(x) + Sq(y) - y < Sq(r) <= Sq(x) + Sq(y) + y
  }

  function Abs(a: int): nat { if a < 0 then -a else a }

  /** The offset lies on the drawn circle: its octant image is nearest to the true one. */
  predicate OnCircle(u: int, v: int, r: int) {
    if Abs(u) <= Abs(v) then Near(Abs(u), Abs(v), r) else Near(Abs(v), Abs(u), r)
  }

  /** Nearest means less than half a pixel away. */
  lemma NearIsHalfAPixel(x: int, y: int, r: int)
    requires y >= 1
    ensures Near(x, y, r) <==>
      var height := Sq(r) as real - Sq(x) as real;
      (y as real - 0.5) * (y as real - 0.5) < height < (y as real + 0.5) * (y as real + 0.5)
  {
    var z := y as real;
    assert (z - 0.5) * (z - 0.5) == z * z - z + 0.25;
    assert (z + 0.5) * (z + 0.5) == z * z + z + 0.25;
    assert z * z == Sq(y) as real;
  }

  lemma NearIsUnique(x: int, y: int, z: int, r: int)
    requires Near(x, y, r) && Near(x, z, r) && 0 <= y && 0 <= z
    ensures y == z
  {
    if y < z { Products(y, z); }
    if z < y { Products(z, y); }
  }

  /** y² + y <= z² - z */
  lemma Products(y: int, z: int)
    requires 0 <= y < z
    ensures Sq(y) + y <= Sq(z) - z
  {
    assert Sq(z) - z == z * (z - 1);
    assert Sq(y) + y == y * (y + 1);
    assert y * (y + 1) <= (z - 1) * (y + 1) <= (z - 1) * z by {
      Monotone(y + 1, y, z - 1);
      Monotone(z - 1, y + 1, z);
    }
  }

  lemma Monotone(a: int, b: int, c: int)
    requires a >= 0 && b <= c
    ensures a * b <= a * c
  {
  }

  predicate Columns(heights: seq<int>, r: int) {
    forall x :: 0 <= x < |heights| ==> x <= heights[x] && heights[x] >= 1 && Near(x, heights[x], r)
  }

  /** The heights are those of all nearest points of the octant, and no others. */
  ghost predicate IsOctant(heights: seq<int>, r: int) {
    && Columns(heights, r)
    && forall x, y :: 0 <= x <= y && Near(x, y, r) ==> x < |heights| && heights[x] == y
  }

  /** What the variable p is: its sign tells whether (x+1, y) is too far out. */
  function Decision(x: int, y: int, r: int): int {
    Sq(x + 1) + Sq(y) - y - Sq(r)
  }

  /** Before column x is drawn: all columns so far are right and so is its height. */
  ghost predicate InColumn(heights: seq<int>, x: int, y: int, r: int) {
    0 <= x && (r >= 1 ==> 1 <= y && x <= y && Near(x, y, r) && Columns(heights, r))
  }

  lemma CircleStarts(h: int, k: int, r: int, was: map<Point, Color>, color: Color)
    ensures InColumn([], 0, r, r) && Decision(0, r, r) == 1 - r
    ensures Ring(h, k, []) == [] && Painted(was, [], color) == was
  {
    if r >= 1 { Products(0, r); }
  }

  /** One round of the loop: the decision variable stays exact; either the next
      column gets its nearest height or the octant is complete. */
  lemma NextColumn(heights: seq<int>, x: int, y: int, r: int)
    requires |heights| == x && InColumn(heights, x, y, r)
    ensures Decision(x + 1, y, r) == Decision(x, y, r) + 2 * (x + 1) + 1
    ensures Decision(x + 1, y - 1, r) == Decision(x, y, r) + 2 * (x + 1 - (y - 1)) + 1
    ensures
      var next := if Decision(x, y, r) < 0 then y else y - 1;
      r >= 1 ==> if x + 1 <= next then InColumn(heights + [y], x + 1, next, r) else IsOctant(heights + [y], r)
  {
    Square(x);
    Square(x + 1);
    Square(y - 1);
    var next := if Decision(x, y, r) < 0 then y else y - 1;
    if r >= 1 && x + 1 > next {
      Complete(heights + [y], next, r);
    }
  }

  lemma Complete(heights: seq<int>, y: int, r: int)
    requires Columns(heights, r) && 0 <= y < |heights| && Sq(r) <= Sq(|heights|) + Sq(y) + y
    ensures IsOctant(heights, r)
  {
    forall u, v | 0 <= u <= v && Near(u, v, r) ensures u < |heights| && heights[u] == v {
      if u < |heights| {
        NearIsUnique(u, v, heights[u], r);
      } else {
        NothingBeyond(|heights|, y, r, u, v);
        assert false;
      }
    }
  }

  lemma RingGrows(h: int, k: int, heights: seq<int>, y: int)
    ensures Ring(h, k, heights + [y]) == Ring(h, k, heights) + Eight(h, k, |heights|, y)
  {
    assert (heights + [y])[..|heights|] == heights;
  }

  /** A point is drawn exactly when it lies on the circle. */
  lemma RingIsCircle(h: int, k: int, heights: seq<int>, r: int, p: Point)
    requires IsOctant(heights, r)
    ensures p in Ring(h, k, heights) <==> OnCircle(p.x - h, p.y - k, r)
  {
    hide Near;
    RingHolds(h, k, heights, p);
    var u, v := Abs(p.x - h), Abs(p.y - k);
    if p in Ring(h, k, heights) {
      var x :| 0 <= x < |heights| && p in Eight(h, k, x, heights[x]);
      EightIsSymmetric(h, k, x, heights[x], p);
    }
    if OnCircle(p.x - h, p.y - k, r) {
      var x, y := if u <= v then u else v, if u <= v then v else u;
      assert Near(x, y, r) && heights[x] == y;
      EightIsSymmetric(h, k, x, y, p);
    }
  }

  /** (a + 1)² */
  lemma Square(a: int)
    ensures Sq(a + 1) == Sq(a) + 2 * a + 1
  {
  }

  /** Beyond the last column there is no nearest point in the octant. */
  lemma NothingBeyond(x: int, y: int, r: int, u: int, v: int)
    requires 0 <= y < x <= u <= v && Sq(r) <= Sq(x) + Sq(y) + y
    ensures !Near(u, v, r)
  {
    Products(y, v);
    Monotone(x, x, u);
    Monotone(u, x, u);
  }

  lemma {:induction false} RingHolds(h: int, k: int, heights: seq<int>, p: Point)
    ensures p in Ring(h, k, heights) <==> exists x :: 0 <= x < |heights| && p in Eight(h, k, x, heights[x])
  {
    if heights != [] {
      var n := |heights| - 1;
      var shorter := heights[..n];
      RingHolds(h, k, shorter, p);
      assert Ring(h, k, heights) == Ring(h, k, shorter) + Eight(h, k, n, heights[n]);
      hide Ring, Eight;
      if p in Ring(h, k, shorter) {
        var x :| 0 <= x < n && p in Eight(h, k, x, shorter[x]);
        assert p in Eight(h, k, x, heights[x]);
      }
      if x :| 0 <= x < n && p in Eight(h, k, x, heights[x]) {
        assert p in Eight(h, k, x, shorter[x]);
      }
    }
  }

  lemma EightIsSymmetric(h: int, k: int, x: int, y: int, p: Point)
    requires 0 <= x <= y
    ensures p in Eight(h, k, x, y) <==>
      (Abs(p.x - h) == x && Abs(p.y - k) == y) || (Abs(p.x - h) == y && Abs(p.y - k) == x)
  {
  }

  // --- the line ---

  function Sign(a: int): int { if a >= 0 then 1 else -1 }

  /** Minor steps before the i-th pixel when x is the longer direction. */
  function Row(i: nat, dx: nat, dy: nat): (k: int)
    requires i > 0 ==> dx > 0
  {
    if i * dy == 0 then 0 else (i * dy - 1) / dx
  }

  /** The same when y is: the error term starts as for the other case, so the
      first step is always taken. */
  function Column(i: nat, dx: nat, dy: nat): (k: int)
    requires dy > 0
  {
    if i <= 1 then i else 1 + ((i - 2) * dx + dy - 1) / dy
  }

  /** The pixels of a line, in order. */
  function Segment(x0: int, y0: int, xx: int, yy: int): seq<Point> {
    var dx, dy := Abs(xx - x0), Abs(yy - y0);
    var sx, sy := Sign(xx - x0), Sign(yy - y0);
    if dx >= dy then
      seq(dx, i requires 0 <= i < dx => Point(x0 + sx * i, y0 + sy * Row(i, dx, dy)))
    else
      seq(dy, i requires 0 <= i < dy => Point(x0 + sx * Column(i, dx, dy), y0 + sy * i))
  }

  /** The error term and the count of minor steps, x the longer direction. */
  ghost predicate RowState(i: nat, k: int, dx: nat, dy: nat, dXY: int) {
    && dy <= dx && (i > 0 ==> dx > 0)
    && dXY == (i + 1) * dy - (k + 1) * dx
    && 0 <= i * dy - k * dx <= dx && (i * dy > 0 ==> i * dy - k * dx > 0) && (i * dy == 0 ==> k == 0)
  }

  lemma NextRow(i: nat, k: int, dx: nat, dy: nat, dXY: int)
    requires RowState(i, k, dx, dy, dXY) && dx > 0
    ensures k == Row(i, dx, dy)
    ensures RowState(i + 1, if dXY > 0 then k + 1 else k, dx, dy, (if dXY > 0 then dXY - dx else dXY) + dy)
  {
    assert (i + 1) * dy == i * dy + dy && (i + 1 + 1) * dy == i * dy + dy + dy;
    assert (k + 1) * dx == k * dx + dx && (k + 1 + 1) * dx == k * dx + dx + dx;
    if i * dy > 0 {
      QuotientIs(i * dy - 1, dx, k);
    }
  }

  /** k * d <= a < (k + 1) * d */
  lemma QuotientIs(a: int, d: int, k: int)
    requires d > 0 && 0 <= a - k * d < d
    ensures a / d == k
  {
    var r := a - k * d;
    var q := a / d;
    assert a == d * q + a % d;
    assert (k - q) * d == a % d - r;
    if k > q { Monotone(d, 1, k - q); }
    if k < q { Monotone(d, 1, q - k); }
  }

  ghost predicate ColumnState(i: nat, k: int, dx: nat, dy: nat, dXY: int) {
    && dx < dy
    && dXY == (i - 1) * dx - (k - 1) * dy
    && if i <= 1 then k == i else dx - dy < dXY <= dx
  }

  lemma NextColumnOfLine(i: nat, k: int, dx: nat, dy: nat, dXY: int)
    requires ColumnState(i, k, dx, dy, dXY)
    ensures k == Column(i, dx, dy)
    ensures ColumnState(i + 1, if dXY > 0 then k + 1 else k, dx, dy, (if dXY > 0 then dXY - dy else dXY) + dx)
  {
    assert i * dx == (i - 1) * dx + dx && (i - 2) * dx == (i - 1) * dx - dx;
    assert k * dy == (k - 1) * dy + dy;
    if i > 1 {
      QuotientIs((i - 2) * dx + dy - 1, dy, k - 1);
    }
  }

  lemma Steps(sx: int, sy: int, i: int, k: int)
    ensures sx * (i + 1) == sx * i + sx && sy * (i + 1) == sy * i + sy
    ensures sx * (k + 1) == sx * k + sx && sy * (k + 1) == sy * k + sy
  {
  }

  lemma SegmentLength(x0: int, y0: int, xx: int, yy: int)
    ensures var dx, dy := Abs(xx - x0), Abs(yy - y0); |Segment(x0, y0, xx, yy)| == if dx >= dy then dx else dy
    ensures Segment(x0, y0, xx, yy)[..|Segment(x0, y0, xx, yy)|] == Segment(x0, y0, xx, yy)
  {
  }

  lemma NothingDrawn(x0: int, y0: int, xx: int, yy: int, was: map<Point, Color>, color: Color)
    ensures Segment(x0, y0, xx, yy)[..0] == [] && Painted(was, [], color) == was
    ensures var dx, dy := Abs(xx - x0), Abs(yy - y0);
      if dx >= dy then RowState(0, 0, dx, dy, dy - dx) else ColumnState(0, 0, dx, dy, dy - dx)
  {
  }

  lemma NextPixel(x0: int, y0: int, xx: int, yy: int, i: nat, k: int, was: map<Point, Color>, color: Color)
    requires var dx, dy := Abs(xx - x0), Abs(yy - y0);
      if dx >= dy then i < dx && k == Row(i, dx, dy) else i < dy && k == Column(i, dx, dy)
    ensures
      var dx, dy := Abs(xx - x0), Abs(yy - y0);
      var sx, sy := Sign(xx - x0), Sign(yy - y0);
      var ps := Segment(x0, y0, xx, yy);
      var p := if dx >= dy then Point(x0 + sx * i, y0 + sy * k) else Point(x0 + sx * k, y0 + sy * i);
      && i < |ps| && ps[..i+1] == ps[..i] + [p]
      && Painted(was, ps[..i+1], color) == Painted(was, ps[..i], color)[p := color]
  {
    var ps := Segment(x0, y0, xx, yy);
    assert ps[..i+1] == ps[..i] + [ps[i]];
    PaintedOne(was, ps[..i], ps[i], color);
  }

  // --- what the pixels of a line are ---

  lemma RowBounds(i: nat, dx: nat, dy: nat)
    requires dy <= dx && (i > 0 ==> dx > 0)
    ensures var e := i * dy - Row(i, dx, dy) * dx;
      0 <= e <= dx && (i * dy > 0 ==> e > 0) && (i * dy == 0 ==> Row(i, dx, dy) == 0)
  {
    if i * dy > 0 {
      assert i * dy - 1 == dx * Row(i, dx, dy) + (i * dy - 1) % dx;
    }
  }

  lemma ColumnBounds(i: nat, dx: nat, dy: nat)
    requires dx < dy && i >= 2
    ensures var e := (Column(i, dx, dy) - 1) * dy - (i - 2) * dx; 0 <= e < dy
  {
    var a := (i - 2) * dx + dy - 1;
    Monotone(dx, 0, i - 2);
    assert a == dy * (a / dy) + a % dy;
  }

  /** One more major step is no minor step or one. */
  lemma OneMinorStep(a: int, b: int, d: nat, m: nat, k: int, l: int)
    requires 0 < d && m <= d && 0 <= a - k * d <= d && 0 <= b - l * d <= d && b == a + m
    requires (a - k * d > 0 && b - l * d > 0) || (a - k * d < d && b - l * d < d)
    ensures 0 <= l - k <= 1
  {
    assert (l - k) * d == l * d - k * d;
    if l - k < 0 { Monotone(d, l - k, -1); }
    if l - k > 1 { Monotone(d, 2, l - k); }
  }

  /** Consecutive pixels of any line touch. */
  lemma LineIsConnected(x0: int, y0: int, xx: int, yy: int, i: nat)
    requires i + 1 < |Segment(x0, y0, xx, yy)|
    ensures var p, q := Segment(x0, y0, xx, yy)[i], Segment(x0, y0, xx, yy)[i+1];
      Abs(q.x - p.x) <= 1 && Abs(q.y - p.y) <= 1 && p != q
  {
    var dx, dy := Abs(xx - x0), Abs(yy - y0);
    if dx >= dy {
      RowSteps(i, dx, dy);
    } else {
      ColumnSteps(i, dx, dy);
    }
  }

  lemma RowSteps(i: nat, dx: nat, dy: nat)
    requires dy <= dx && dx > 0
    ensures 0 <= Row(i + 1, dx, dy) - Row(i, dx, dy) <= 1
  {
    RowBounds(i, dx, dy);
    RowBounds(i + 1, dx, dy);
    assert (i + 1) * dy == i * dy + dy;
    Monotone(i, 0, dy);
    if i * dy > 0 {
      OneMinorStep(i * dy, (i + 1) * dy, dx, dy, Row(i, dx, dy), Row(i + 1, dx, dy));
    } else if dy > 0 {
      QuotientIs(dy - 1, dx, 0);
    }
  }

  lemma ClosePair(c: int, d: int, n: nat, a: int, m: nat)
    requires m < n && 0 <= c * n - a < n && 0 <= d * n - (a + m) < n
    ensures 0 <= d - c <= 1
  {
    assert (d - c) * n == d * n - c * n;
    if d - c < 0 { Monotone(n, d - c, -1); }
    if d - c > 1 { Monotone(n, 2, d - c); }
  }

  lemma ColumnSteps(i: nat, dx: nat, dy: nat)
    requires dx < dy
    ensures 0 <= Column(i + 1, dx, dy) - Column(i, dx, dy) <= 1
  {
    if i >= 2 {
      ColumnBounds(i, dx, dy);
      ColumnBounds(i + 1, dx, dy);
      var c, d := Column(i, dx, dy) - 1, Column(i + 1, dx, dy) - 1;
      hide Column;
      assert (i + 1 - 2) * dx == (i - 2) * dx + dx;
      ClosePair(c, d, dy, (i - 2) * dx, dx);
    } else if i == 1 {
      QuotientIs(dy - 1, dy, 0);
    }
  }

  lemma Cross(sx: int, sy: int, i: int, k: int, dx: int, dy: int)
    requires sx in {1, -1} && sy in {1, -1}
    ensures Abs(sx * i * (sy * dy) - sy * k * (sx * dx)) == Abs(i * dy - k * dx)
  {
    if sx == sy {
      assert sx * i * (sy * dy) == i * dy && sy * k * (sx * dx) == k * dx;
    } else {
      assert sx * i * (sy * dy) == -(i * dy) && sy * k * (sx * dx) == -(k * dx);
    }
  }

  /** With x the longer direction every pixel is at most one pixel off the ideal line. */
  lemma FlatLineIsClose(x0: int, y0: int, xx: int, yy: int, i: nat)
    requires Abs(xx - x0) >= Abs(yy - y0) && i < |Segment(x0, y0, xx, yy)|
    ensures var p := Segment(x0, y0, xx, yy)[i];
      Abs((p.x - x0) * (yy - y0) - (p.y - y0) * (xx - x0)) <= Abs(xx - x0)
  {
    var dx, dy := Abs(xx - x0), Abs(yy - y0);
    var sx, sy := Sign(xx - x0), Sign(yy - y0);
    RowBounds(i, dx, dy);
    var k := Row(i, dx, dy);
    hide Row;
    assert xx - x0 == sx * dx && yy - y0 == sy * dy;
    Cross(sx, sy, i, k, dx, dy);
  }

  predicate InBox(p: Point, x0: int, y0: int, xx: int, yy: int) {
    && (x0 <= p.x <= xx || xx <= p.x <= x0)
    && (y0 <= p.y <= yy || yy <= p.y <= y0)
  }

  /** All pixels lie in the box of the end points exactly when the line is not
      too steep: the first minor step of a steep line is always taken. */
  lemma LineStaysInBox(x0: int, y0: int, xx: int, yy: int)
    ensures
      var dx, dy := Abs(xx - x0), Abs(yy - y0);
      (forall p :: p in Segment(x0, y0, xx, yy) ==> InBox(p, x0, y0, xx, yy)) <==>
      dx >= dy || dy <= 1 || 3 * dx >= dy
  {
    var dx, dy := Abs(xx - x0), Abs(yy - y0);
    var ps := Segment(x0, y0, xx, yy);
    if dx >= dy || dy <= 1 || 3 * dx >= dy {
      forall p | p in ps ensures InBox(p, x0, y0, xx, yy) {
        var i :| 0 <= i < |ps| && ps[i] == p;
        if dx >= dy {
          RowInBox(i, dx, dy);
        } else {
          ColumnInBox(i, dx, dy);
        }
      }
    } else {
      ColumnLeavesBox(dx, dy);
      var p := ps[dy-1];
      assert p in ps && !InBox(p, x0, y0, xx, yy);
    }
  }

  lemma RowInBox(i: nat, dx: nat, dy: nat)
    requires dy <= dx && i < dx
    ensures 0 <= Row(i, dx, dy) <= dy
  {
    RowBounds(i, dx, dy);
    var k := Row(i, dx, dy);
    Monotone(dy, i, dx);
    assert i * dy == dy * i && dy * dx == dx * dy && k * dx == dx * k;
    if k > dy { Monotone(dx, dy + 1, k); }
    if k < 0 { Monotone(dx, k, -1); Monotone(i, 0, dy); }
  }

  lemma ColumnInBox(i: nat, dx: nat, dy: nat)
    requires dx < dy && i < dy && (dy <= 1 || 3 * dx >= dy)
    ensures 0 <= Column(i, dx, dy) <= dx
  {
    if i >= 2 {
      ColumnBounds(i, dx, dy);
      var c := Column(i, dx, dy) - 1;
      Monotone(dx, 0, i - 2);
      Monotone(dx, i - 2, dy - 3);
      assert c * dy == dy * c && (i - 2) * dx == dx * (i - 2) && dx * (dy - 3) == dy * dx - 3 * dx;
      if c < 0 { Monotone(dy, c, -1); }
      if c >= dx { Monotone(dy, dx, c); }
    }
  }

  lemma FarBeyond(c: int, dx: nat, dy: nat)
    requires 3 * dx < dy && c * dy >= (dy - 3) * dx
    ensures c >= dx
  {
    assert dy * (dx - 1) == dy * dx - dy && (dy - 3) * dx == dy * dx - 3 * dx;
    assert c * dy == dy * c;
    if c < dx {
      Monotone(dy, c, dx - 1);
    }
  }

  lemma ColumnLeavesBox(dx: nat, dy: nat)
    requires 3 * dx < dy && dy >= 2
    ensures Column(dy - 1, dx, dy) > dx
  {
    if dy >= 3 {
      ColumnBounds(dy - 1, dx, dy);
      hide Column;
      FarBeyond(Column(dy - 1, dx, dy) - 1, dx, dy);
    }
  }

  /** With y the longer direction the pixels are up to two pixels off: from the
      second row on the offset to the ideal line lies between these bounds. */
  lemma SteepLineDrifts(x0: int, y0: int, xx: int, yy: int, i: nat)
    requires Abs(xx - x0) < Abs(yy - y0) && 2 <= i < |Segment(x0, y0, xx, yy)|
    ensures
      var dx, dy := Abs(xx - x0), Abs(yy - y0);
      var p := Segment(x0, y0, xx, yy)[i];
      dy - 2 * dx <= Abs(p.x - x0) * dy - i * dx < 2 * (dy - dx)
  {
    var dx, dy := Abs(xx - x0), Abs(yy - y0);
    ColumnBounds(i, dx, dy);
    var c := Column(i, dx, dy);
    assert (c - 1) * dy == c * dy - dy && (i - 2) * dx == i * dx - 2 * dx;
    Monotone(dx, 0, i - 2);
    if c < 0 { Monotone(dy, c - 1, -1); }
    assert Abs(Sign(xx - x0) * c) == c;
  }
}
