/** Values shared by the coordinate normaliser and the bounding-box reducer of
    geoTagToPNG.py: the raw (latitude, longitude) pairs read from photos, the
    normalised (x, y) points, the two-corner box, and the two float limits the
    reducer starts from. Coordinates are reals; IEEE rounding is not modelled. */
module GeoTypes {

  /** One component of a pair as read from a photo's GPS tags. Only a Python
      `float` passes the `isinstance(_, float)` test; `None` (no GPS data) and
      every other kind of value are `NotFloat`. */
  datatype Component = Float(r: real) | NotFloat

  /** A pair as the EXIF reader returns it: latitude first, longitude second. */
  datatype RawPair = RawPair(lat: Component, lon: Component)

  /** A normalised point in map axis order: x is the longitude, y the latitude. */
  datatype Point = Point(x: real, y: real)

  /** The list `[(minX, minY), (maxX, maxY)]` that `findBoundingBox` returns. */
  datatype Box = Box(lo: Point, hi: Point)

  /** `sys.float_info.max`, the largest finite binary64 value, (2 - 2^-52) * 2^1023, written out exactly. */
  const FLOAT_INFO_MAX: real := 179769313486231570814527423731704356798070567525844996598917476803157260780028538760589558632766878171540458953514382464234321326889464182768467546703537516986049910576551282076245490090389328944075868508455133942304583236903222948165808559332123348274797826204144723168738177180919299881250404026184124858368.0

  /** `sys.float_info.min`, the smallest POSITIVE normal binary64 value, 2^-1022, written out exactly. */
  const FLOAT_INFO_MIN: real := 1.0 / 44942328371557897693232629769725618340449424473557664318357520289433168951375240783177119330601884005280028469967848339414697442203604155623211857659868531094441973356216371319075554900311523529863270738021251442209537670585615720368478277635206809290837627671146574559986811484619929076208839082406056034304.0

  /** A value a finite Python float can hold. */
  predicate IsFiniteFloat(v: real) {
    -FLOAT_INFO_MAX <= v <= FLOAT_INFO_MAX
  }

  predicate IsFinitePoint(p: Point) {
    IsFiniteFloat(p.x) && IsFiniteFloat(p.y)
  }

  /** The initial maximum is a tiny positive number, far below the initial minimum. */
  lemma SentinelOrder()
    ensures 0.0 < FLOAT_INFO_MIN < 1.0 < FLOAT_INFO_MAX
  {
  }
}
