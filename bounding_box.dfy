/** `findBoundingBox` of geoTagToPNG.py: four running accumulators fold a list
    of (x, y) points into `[(minX, minY), (maxX, maxY)]`. The minima start at
    `sys.float_info.max`, the maxima at `sys.float_info.min`, which is the
    smallest positive normal float (2^-1022), not the most negative one. */
module BoundingBox {
  import opened GeoTypes

  /** `if x < acc: acc = x` */
  function Min(acc: real, v: real): real {
    if v < acc then v else acc
  }

  /** `if x > acc: acc = x` */
  function Max(acc: real, v: real): real {
    if v > acc then v else acc
  }

  function Xs(pts: seq<Point>): seq<real> {
    seq(|pts|, i requires 0 <= i < |pts| => pts[i].x)
  }

  function Ys(pts: seq<Point>): seq<real> {
    seq(|pts|, i requires 0 <= i < |pts| => pts[i].y)
  }

  /** The running minimum after visiting `vs` from `init`: no larger than the
      start or any value, and equal to one of them. */
  function Lowest(init: real, vs: seq<real>): (m: real)
    ensures m <= init
    ensures forall i :: 0 <= i < |vs| ==> m <= vs[i]
    ensures m == init || m in vs
  {
    if |vs| == 0 then init else Min(Lowest(init, vs[..|vs| - 1]), vs[|vs| - 1])
  }

  /** The running maximum after visiting `vs` from `init`: no smaller than the
      start or any value, and equal to one of them. */
  function Highest(init: real, vs: seq<real>): (m: real)
    ensures m >= init
    ensures forall i :: 0 <= i < |vs| ==> m >= vs[i]
    ensures m == init || m in vs
  {
    if |vs| == 0 then init else Max(Highest(init, vs[..|vs| - 1]), vs[|vs| - 1])
  }

  /** The box the loop returns, as written: maxima start at `sys.float_info.min`. */
  function BoxOf(pts: seq<Point>): Box {
    Box(Point(Lowest(FLOAT_INFO_MAX, Xs(pts)), Lowest(FLOAT_INFO_MAX, Ys(pts))),
        Point(Highest(FLOAT_INFO_MIN, Xs(pts)), Highest(FLOAT_INFO_MIN, Ys(pts))))
  }

  /** The loop of `findBoundingBox`. */
  method FindBoundingBox(coordinates: seq<Point>) returns (boundingBox: Box)
    ensures boundingBox == BoxOf(coordinates)
  {
    var minX := FLOAT_INFO_MAX;
    var minY := FLOAT_INFO_MAX;
    var maxX := FLOAT_INFO_MIN;
    var maxY := FLOAT_INFO_MIN;
    ghost var xs, ys := Xs(coordinates), Ys(coordinates);
    for i := 0 to |coordinates|
      invariant minX == Lowest(FLOAT_INFO_MAX, xs[..i])
      invariant minY == Lowest(FLOAT_INFO_MAX, ys[..i])
      invariant maxX == Highest(FLOAT_INFO_MIN, xs[..i])
      invariant maxY == Highest(FLOAT_INFO_MIN, ys[..i])
    {
      var x := coordinates[i].x;
      var y := coordinates[i].y;
      if x < minX {
        minX := x;
      }
      if x > maxX {
        maxX := x;
      }
      if y < minY {
        minY := y;
      }
      if y > maxY {
        maxY := y;
      }
      assert xs[..i + 1][..i] == xs[..i] && ys[..i + 1][..i] == ys[..i];
    }
    assert xs[..|coordinates|] == xs && ys[..|coordinates|] == ys;
    boundingBox := Box(Point(minX, minY), Point(maxX, maxY));
  }

  /** Every input point lies inside the box, on both axes. */
  lemma BoxEnclosesEveryPoint(pts: seq<Point>, p: Point)
    requires p in pts
    ensures BoxOf(pts).lo.x <= p.x <= BoxOf(pts).hi.x
    ensures BoxOf(pts).lo.y <= p.y <= BoxOf(pts).hi.y
  {
    var i :| 0 <= i < |pts| && pts[i] == p;
    assert Xs(pts)[i] == p.x && Ys(pts)[i] == p.y;
  }

  /** The smallest of a non-empty sequence: an independent reference definition. */
  function Smallest(vs: seq<real>): (m: real)
    requires |vs| > 0
    ensures m in vs
    ensures forall i :: 0 <= i < |vs| ==> m <= vs[i]
  {
    if |vs| == 1 then vs[0] else if vs[0] <= Smallest(vs[1..]) then vs[0] else Smallest(vs[1..])
  }

  /** The largest of a non-empty sequence: an independent reference definition. */
  function Largest(vs: seq<real>): (m: real)
    requires |vs| > 0
    ensures m in vs
    ensures forall i :: 0 <= i < |vs| ==> m >= vs[i]
  {
    if |vs| == 1 then vs[0] else if vs[0] >= Largest(vs[1..]) then vs[0] else Largest(vs[1..])
  }

  /** On non-empty input the running minimum is min(start, smallest value). */
  lemma LowestIsMinOfStartAndSmallest(init: real, vs: seq<real>)
    requires |vs| > 0
    ensures Lowest(init, vs) == Min(init, Smallest(vs))
  {
  }

  /** On non-empty input the running maximum is max(start, largest value). */
  lemma HighestIsMaxOfStartAndLargest(init: real, vs: seq<real>)
    requires |vs| > 0
    ensures Highest(init, vs) == Max(init, Largest(vs))
  {
  }

  /** For non-empty finite input the minima are the smallest x and smallest y present. */
  lemma BoxMinimaAreSmallest(pts: seq<Point>)
    requires |pts| > 0
    requires forall i :: 0 <= i < |pts| ==> IsFinitePoint(pts[i])
    ensures BoxOf(pts).lo == Point(Smallest(Xs(pts)), Smallest(Ys(pts)))
  {
  }

  /** The maxima as written: max(sys.float_info.min, largest value) on each axis. */
  lemma BoxMaximaIncludeSentinel(pts: seq<Point>)
    requires |pts| > 0
    ensures BoxOf(pts).hi == Point(Max(FLOAT_INFO_MIN, Largest(Xs(pts))), Max(FLOAT_INFO_MIN, Largest(Ys(pts))))
  {
  }

  /** When every x lies below `sys.float_info.min` (all western longitudes, for
      one) the returned maxX is the sentinel and not any input value. For the y
      axis, and for both axes at once, see `BoxMaximaIncludeSentinel`. */
  lemma BoxMaximumIsSentinelWhenAllBelow(pts: seq<Point>)
    requires forall i :: 0 <= i < |pts| ==> pts[i].x < FLOAT_INFO_MIN
    ensures BoxOf(pts).hi.x == FLOAT_INFO_MIN
    ensures forall i :: 0 <= i < |pts| ==> BoxOf(pts).hi.x != pts[i].x
  {
  }

  /** Empty input returns the two sentinels, a box whose minimum corner lies
      beyond its maximum corner on both axes. */
  lemma EmptyBoxIsInverted()
    ensures BoxOf([]) == Box(Point(FLOAT_INFO_MAX, FLOAT_INFO_MAX), Point(FLOAT_INFO_MIN, FLOAT_INFO_MIN))
    ensures BoxOf([]).lo.x > BoxOf([]).hi.x && BoxOf([]).lo.y > BoxOf([]).hi.y
  {
  }

  /** The running extremes see only which values occur, not where or how often. */
  lemma ExtremesIgnoreOrder(init: real, vs: seq<real>, ws: seq<real>)
    requires forall v :: v in vs ==> v in ws
    requires forall v :: v in ws ==> v in vs
    ensures Lowest(init, vs) == Lowest(init, ws)
    ensures Highest(init, vs) == Highest(init, ws)
  {
  }

  lemma SamePointsSameCoordinates(pts: seq<Point>, qs: seq<Point>)
    requires forall p :: p in pts <==> p in qs
    ensures forall v :: v in Xs(pts) <==> v in Xs(qs)
    ensures forall v :: v in Ys(pts) <==> v in Ys(qs)
  {
    forall v | v in Xs(pts) ensures v in Xs(qs) {
      var i :| 0 <= i < |pts| && pts[i].x == v;
      assert pts[i] in qs;
      var j :| 0 <= j < |qs| && qs[j] == pts[i];
      assert Xs(qs)[j] == v;
    }
    forall v | v in Xs(qs) ensures v in Xs(pts) {
      var j :| 0 <= j < |qs| && qs[j].x == v;
      assert qs[j] in pts;
      var i :| 0 <= i < |pts| && pts[i] == qs[j];
      assert Xs(pts)[i] == v;
    }
    forall v | v in Ys(pts) ensures v in Ys(qs) {
      var i :| 0 <= i < |pts| && pts[i].y == v;
      assert pts[i] in qs;
      var j :| 0 <= j < |qs| && qs[j] == pts[i];
      assert Ys(qs)[j] == v;
    }
    forall v | v in Ys(qs) ensures v in Ys(pts) {
      var j :| 0 <= j < |qs| && qs[j].y == v;
      assert qs[j] in pts;
      var i :| 0 <= i < |pts| && pts[i] == qs[j];
      assert Ys(pts)[i] == v;
    }
  }

  /** The box depends only on which points occur: reordering the input (or
      repeating a point) gives the same box. */
  lemma BoxIgnoresOrder(pts: seq<Point>, qs: seq<Point>)
    requires forall p :: p in pts <==> p in qs
    ensures BoxOf(pts) == BoxOf(qs)
  {
    SamePointsSameCoordinates(pts, qs);
    ExtremesIgnoreOrder(FLOAT_INFO_MAX, Xs(pts), Xs(qs));
    ExtremesIgnoreOrder(FLOAT_INFO_MAX, Ys(pts), Ys(qs));
    ExtremesIgnoreOrder(FLOAT_INFO_MIN, Xs(pts), Xs(qs));
    ExtremesIgnoreOrder(FLOAT_INFO_MIN, Ys(pts), Ys(qs));
  }

  /** The box with the maxima started at the most negative finite float,
      `-sys.float_info.max`, as the reducer evidently intends. */
  function CorrectedBoxOf(pts: seq<Point>): Box {
    Box(Point(Lowest(FLOAT_INFO_MAX, Xs(pts)), Lowest(FLOAT_INFO_MAX, Ys(pts))),
        Point(Highest(-FLOAT_INFO_MAX, Xs(pts)), Highest(-FLOAT_INFO_MAX, Ys(pts))))
  }

  /** With the corrected start, a non-empty finite input yields exactly the
      smallest and largest coordinates present, whatever their sign. */
  lemma CorrectedBoxIsTight(pts: seq<Point>)
    requires |pts| > 0
    requires forall i :: 0 <= i < |pts| ==> IsFinitePoint(pts[i])
    ensures CorrectedBoxOf(pts).lo == Point(Smallest(Xs(pts)), Smallest(Ys(pts)))
    ensures CorrectedBoxOf(pts).hi == Point(Largest(Xs(pts)), Largest(Ys(pts)))
  {
  }

  /** The two boxes agree whenever each axis has a value at or above
      `sys.float_info.min`. */
  lemma CorrectedAgreesWhenMaximaPositive(pts: seq<Point>)
    requires |pts| > 0
    requires Largest(Xs(pts)) >= FLOAT_INFO_MIN && Largest(Ys(pts)) >= FLOAT_INFO_MIN
    ensures BoxOf(pts) == CorrectedBoxOf(pts)
  {
  }

  /** A single photo taken west of Greenwich, at longitude -3.7 and latitude
      40.4: as written the box's maxX is the sentinel, while the corrected box
      ends at the photo's longitude. */
  lemma WesternPhotoLosesItsLongitude()
    ensures BoxOf([Point(-3.7, 40.4)]).hi.x == FLOAT_INFO_MIN
    ensures CorrectedBoxOf([Point(-3.7, 40.4)]).hi == Point(-3.7, 40.4)
  {
  }
}
