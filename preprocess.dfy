/** `preprocessCoordinates` of geoTagToPNG.py: drop every pair that is not made
    of two floats, swap the survivors from (latitude, longitude) into
    (longitude, latitude) order and round both components. */
module Preprocess {
  import opened GeoTypes

  /** Python's `round(value, ndigits)`. The program does not define it; the
      model takes it as a parameter and assumes nothing about it unless a
      lemma says so. */
  type Rounding = (real, int) -> real

  /** The test of line 64: both components are floats. */
  predicate IsKept(c: RawPair) {
    c.lat.Float? && c.lon.Float?
  }

  /** A kept pair becomes (round(longitude), round(latitude)). */
  function Swapped(c: RawPair, round: Rounding, precision: int): Point
    requires IsKept(c)
  {
    Point(round(c.lon.r, precision), round(c.lat.r, precision))
  }

  /** The list the loop has built after visiting every element of `coords`. */
  function Preprocessed(coords: seq<RawPair>, round: Rounding, precision: int): (r: seq<Point>)
    ensures |r| <= |coords|
  {
    if |coords| == 0 then []
    else
      var rest := Preprocessed(coords[..|coords| - 1], round, precision);
      var c := coords[|coords| - 1];
      if IsKept(c) then rest + [Swapped(c, round, precision)] else rest
  }

  /** The loop of `preprocessCoordinates`, appending to `newCoordinates`. */
  method PreprocessCoordinates(coordinates: seq<RawPair>, round: Rounding, precision: int := 2)
    returns (newCoordinates: seq<Point>)
    ensures newCoordinates == Preprocessed(coordinates, round, precision)
  {
    newCoordinates := [];
    for i := 0 to |coordinates|
      invariant newCoordinates == Preprocessed(coordinates[..i], round, precision)
    {
      var coordinate := coordinates[i];
      var x := coordinate.lon;
      var y := coordinate.lat;
      if x.Float? && y.Float? {
        newCoordinates := newCoordinates + [Point(round(x.r, precision), round(y.r, precision))];
      }
      assert coordinates[..i + 1][..i] == coordinates[..i];
    }
    assert coordinates[..|coordinates|] == coordinates;
  }

  /** Preprocessing a concatenation preprocesses each part in turn: survivors
      keep their relative order. */
  lemma {:induction false} PreprocessedAppend(xs: seq<RawPair>, ys: seq<RawPair>, round: Rounding, precision: int)
    ensures Preprocessed(xs + ys, round, precision)
         == Preprocessed(xs, round, precision) + Preprocessed(ys, round, precision)
  {
    if |ys| == 0 {
      assert xs + ys == xs;
    } else {
      var init := ys[..|ys| - 1];
      assert (xs + ys)[..|xs + ys| - 1] == xs + init;
      PreprocessedAppend(xs, init, round, precision);
    }
  }

  /** The output is exactly the kept pairs, swapped and rounded, in input order:
      `idx` lists the positions of the input that survive, strictly increasing,
      and every position whose pair is kept is among them. */
  lemma {:induction false} PreprocessedIsOrderedFilter(coords: seq<RawPair>, round: Rounding, precision: int)
    returns (idx: seq<nat>)
    ensures |idx| == |Preprocessed(coords, round, precision)|
    ensures forall k :: 0 <= k < |idx| ==> idx[k] < |coords| && IsKept(coords[idx[k]])
    ensures forall k :: 0 <= k < |idx| ==>
      Preprocessed(coords, round, precision)[k] == Swapped(coords[idx[k]], round, precision)
    ensures forall k, l :: 0 <= k < l < |idx| ==> idx[k] < idx[l]
    ensures forall i :: 0 <= i < |coords| && IsKept(coords[i]) ==> i in idx
  {
    if |coords| == 0 {
      idx := [];
    } else {
      var n := |coords| - 1;
      var init := coords[..n];
      var prev := PreprocessedIsOrderedFilter(init, round, precision);
      var before := Preprocessed(init, round, precision);
      var out := Preprocessed(coords, round, precision);
      if IsKept(coords[n]) {
        idx := prev + [n];
        assert out == before + [Swapped(coords[n], round, precision)];
      } else {
        idx := prev;
        assert out == before;
      }
      forall k | 0 <= k < |idx|
        ensures idx[k] < |coords| && IsKept(coords[idx[k]])
        ensures out[k] == Swapped(coords[idx[k]], round, precision)
      {
        if k < |prev| {
          assert idx[k] == prev[k] && out[k] == before[k] && init[prev[k]] == coords[prev[k]];
        }
      }
      forall i | 0 <= i < |coords| && IsKept(coords[i])
        ensures i in idx
      {
        if i < n {
          assert init[i] == coords[i];
          assert i in prev;
        }
      }
    }
  }

  /** Nothing is lost unless it had to be: the output is as long as the input
      exactly when every pair is made of two floats. */
  lemma {:induction false} PreprocessedKeepsAllIffAllFloats(coords: seq<RawPair>, round: Rounding, precision: int)
    ensures |Preprocessed(coords, round, precision)| == |coords|
        <==> forall i :: 0 <= i < |coords| ==> IsKept(coords[i])
  {
    if |coords| > 0 {
      var n := |coords| - 1;
      var init := coords[..n];
      PreprocessedKeepsAllIffAllFloats(init, round, precision);
      assert forall i :: 0 <= i < n ==> init[i] == coords[i];
    }
  }

  /** Feeding points back in as if they were (latitude, longitude) pairs, which
      Python's tuples of floats would be. */
  function AsRaw(pts: seq<Point>): (r: seq<RawPair>)
    ensures |r| == |pts|
    ensures forall i :: 0 <= i < |pts| ==> r[i] == RawPair(Float(pts[i].x), Float(pts[i].y))
  {
    if |pts| == 0 then [] else AsRaw(pts[..|pts| - 1]) + [RawPair(Float(pts[|pts| - 1].x), Float(pts[|pts| - 1].y))]
  }

  /** Each point with its two components exchanged. */
  function Mirrored(pts: seq<Point>): (r: seq<Point>)
    ensures |r| == |pts|
    ensures forall i :: 0 <= i < |pts| ==> r[i] == Point(pts[i].y, pts[i].x)
  {
    if |pts| == 0 then [] else Mirrored(pts[..|pts| - 1]) + [Point(pts[|pts| - 1].y, pts[|pts| - 1].x)]
  }

  /** Every component of the output is a value of `round` at `precision`. */
  predicate AllRounded(pts: seq<Point>, round: Rounding, precision: int) {
    forall i :: 0 <= i < |pts| ==> round(pts[i].x, precision) == pts[i].x && round(pts[i].y, precision) == pts[i].y
  }

  lemma {:induction false} PreprocessedIsRounded(coords: seq<RawPair>, round: Rounding, precision: int)
    requires forall v :: round(round(v, precision), precision) == round(v, precision)
    ensures AllRounded(Preprocessed(coords, round, precision), round, precision)
  {
    if |coords| > 0 {
      PreprocessedIsRounded(coords[..|coords| - 1], round, precision);
    }
  }

  /** Preprocessing is not idempotent: even when rounding is, a second pass over
      the output swaps every point back into (latitude, longitude) order. */
  lemma {:induction false} PreprocessTwiceMirrors(coords: seq<RawPair>, round: Rounding, precision: int)
    requires forall v :: round(round(v, precision), precision) == round(v, precision)
    ensures Preprocessed(AsRaw(Preprocessed(coords, round, precision)), round, precision)
         == Mirrored(Preprocessed(coords, round, precision))
  {
    var once := Preprocessed(coords, round, precision);
    PreprocessedIsRounded(coords, round, precision);
    MirroredRounded(once, round, precision);
  }

  lemma {:induction false} MirroredRounded(pts: seq<Point>, round: Rounding, precision: int)
    requires AllRounded(pts, round, precision)
    ensures Preprocessed(AsRaw(pts), round, precision) == Mirrored(pts)
  {
    if |pts| > 0 {
      var n := |pts| - 1;
      assert AsRaw(pts)[..n] == AsRaw(pts[..n]);
      assert Mirrored(pts)[..n] == Mirrored(pts[..n]);
      MirroredRounded(pts[..n], round, precision);
    }
  }
}
