# overview-map: coordinate normaliser and bounding-box reducer

`geoTagToPNG.py` reads the GPS position of every file matching `*.jpg` in a directory, keeps the
usable ones, and asks a map service for an image covering them. Its own logic is
two steps that run after the positions are read (`processImages`, lines 30-31,
composes them in this order):

- `preprocessCoordinates` drops every (latitude, longitude) pair in which either
  component is not a float. It swaps each survivor into (longitude, latitude)
  order and rounds both components to `precision` decimals, which defaults to 2.
- `findBoundingBox` folds the points into `[(minX, minY), (maxX, maxY)]` with
  four running accumulators. The minima start at `sys.float_info.max`. The
  maxima start at `sys.float_info.min`, the smallest positive *normal* float (2^-1022).

The model is three Dafny modules:

- `GeoTypes` (`geo_types.dfy`) holds the values. A pair component is `Float(r)`
  or `NotFloat`, which mirrors the `isinstance(_, float)` test. A raw pair is
  latitude first. A point is (x, y) = (longitude, latitude). A box is two corners.
  The two float limits are written out exactly: (2 - 2^-52) * 2^1023 and 2^-1022.
- `Preprocess` (`preprocess.dfy`) has the loop as a method, proved equal to the
  function `Preprocessed`. Lemmas state the filter, the swap, order preservation
  and the lengths. Python's `round` is a parameter of type `(real, int) -> real`.
- `BoundingBox` (`bounding_box.dfy`) has the loop as a method, proved equal to
  the function `BoxOf`. Lemmas state enclosure, the attained minima, the
  sentinel maxima, the empty input and order independence. A corrected box with
  the maxima started at `-sys.float_info.max` sits beside it for comparison.

Behaviour of the code a reader may not expect:

- An empty input yields the sentinel box `[(max, max), (min, min)]`. It does
  not yield a distinct "empty" result.
- Preprocessing is not idempotent. A second pass swaps every point back into
  (latitude, longitude) order (`PreprocessTwiceMirrors`).
- Every value of Python type `float` is kept, whether or not it is finite.
- The maximum starts at the smallest positive normal float (2^-1022), as written (see Findings).

## Model

| member | source | states |
|---|---|---|
| `GeoTypes.SentinelOrder` | geoTagToPNG.py:38-41 | the initial maximum `sys.float_info.min` is positive but below 1, far below the initial minimum `sys.float_info.max` |
| `Preprocess.Preprocessed` | geoTagToPNG.py:57-67 | the preprocessed list is never longer than the input |
| `Preprocess.PreprocessCoordinates` | geoTagToPNG.py:57-67 | the loop with its `append`s returns exactly `Preprocessed` of the input, for any rounding and any precision (2 by default) |
| `Preprocess.PreprocessedIsOrderedFilter` | geoTagToPNG.py:58-66 | the output is the kept pairs and nothing else: a strictly increasing list of input positions whose pairs have two float components, each mapped to (round(lon), round(lat)), and every position with two floats is among them |
| `Preprocess.PreprocessedAppend` | geoTagToPNG.py:58-66 | preprocessing a concatenation is the concatenation of the preprocessed parts, so survivors keep their relative order |
| `Preprocess.PreprocessedKeepsAllIffAllFloats` | geoTagToPNG.py:64-66 | the output is as long as the input exactly when every pair has two float components; otherwise pairs are dropped silently |
| `Preprocess.PreprocessedIsRounded` | geoTagToPNG.py:65 | when rounding is idempotent, every output component is already rounded at `precision` |
| `Preprocess.PreprocessTwiceMirrors` | geoTagToPNG.py:61-65 | even with idempotent rounding, preprocessing the output again gives every point with its components exchanged, not the same list |
| `BoundingBox.Lowest` | geoTagToPNG.py:45-50 | the running minimum is at most the start and every value, and equals the start or one of the values |
| `BoundingBox.Highest` | geoTagToPNG.py:47-52 | the running maximum is at least the start and every value, and equals the start or one of the values |
| `BoundingBox.FindBoundingBox` | geoTagToPNG.py:37-55 | the four-accumulator loop returns exactly `BoxOf` of the input |
| `BoundingBox.BoxEnclosesEveryPoint` | geoTagToPNG.py:42-52 | every input point satisfies minX <= x <= maxX and minY <= y <= maxY |
| `BoundingBox.LowestIsMinOfStartAndSmallest` | geoTagToPNG.py:38-50 | on non-empty input the running minimum is min(start, smallest value) |
| `BoundingBox.HighestIsMaxOfStartAndLargest` | geoTagToPNG.py:40-52 | on non-empty input the running maximum is max(start, largest value) |
| `BoundingBox.BoxMinimaAreSmallest` | geoTagToPNG.py:38-50 | for non-empty input of finite floats, (minX, minY) are the smallest x and the smallest y present |
| `BoundingBox.BoxMaximaIncludeSentinel` | geoTagToPNG.py:40-52 | for non-empty input, maxX = max(sys.float_info.min, largest x) and maxY = max(sys.float_info.min, largest y) |
| `BoundingBox.BoxMaximumIsSentinelWhenAllBelow` | geoTagToPNG.py:40-48 | if every x is below sys.float_info.min, the returned maxX is that sentinel and equals no input x |
| `BoundingBox.EmptyBoxIsInverted` | geoTagToPNG.py:38-55 | empty input returns [(max, max), (min, min)], whose minimum corner exceeds its maximum corner on both axes |
| `BoundingBox.ExtremesIgnoreOrder` | geoTagToPNG.py:42-52 | the running minimum and maximum depend only on which values occur |
| `BoundingBox.BoxIgnoresOrder` | geoTagToPNG.py:42-52 | two inputs with the same points, in any order and with any repetition, give the same box |
| `BoundingBox.CorrectedBoxIsTight` | geoTagToPNG.py:40-41 | with the maxima started at -sys.float_info.max, non-empty finite input gives exactly the smallest and largest x and y present, of any sign |
| `BoundingBox.CorrectedAgreesWhenMaximaPositive` | geoTagToPNG.py:40-41 | the box as written equals the corrected one whenever each axis has a value at or above sys.float_info.min |
| `BoundingBox.WesternPhotoLosesItsLongitude` | geoTagToPNG.py:40-48 | for one photo at longitude -3.7, latitude 40.4, the box as written has maxX = sys.float_info.min; the corrected box ends at (-3.7, 40.4) |

## Left out

- Command-line parsing into the global `args` (lines 15-21) and `.env` loading (lines 11-12): process-level I/O and ambient state.
- `processImages` (lines 23-34): directory globbing and `Image.open` are file-system I/O and image decoding. Its composition of the two modelled steps is noted above, not modelled as a member.
- `getMapForCoordinates` (lines 69-83): environment lookup, the Mapbox request, GeoJSON construction and writing `_map.png` are network and file I/O through libraries that are not part of this model.
- `getCoordinateForImage` (lines 86-87): it wraps `get_lat_lon` and `get_exif_data` from `get_lat_lon_exif_pil`, which is not part of this model. The degrees/minutes/seconds decoding lives there. Its results enter the model as `RawPair` values.
- `retrieveBoundingBox` (lines 89-90): an empty stub that only prints.
- Every `print` call: output only.
- Python's `round` is not defined by the program. It is a parameter, and only `PreprocessedIsRounded` and `PreprocessTwiceMirrors` assume anything about it (idempotence).
- IEEE binary64 semantics: coordinates are reals. NaN and the infinities, which pass `isinstance(_, float)`, are not represented.
- `BoundingBox.BoxMinimaAreSmallest`: requires every coordinate within ±sys.float_info.max, because a real above the initial minimum would leave it unchanged. Every finite float satisfies this.
- Pairs that are not two-element tuples are not represented: a `None` element raises `TypeError` at line 61, a tuple of length 0 or 1 raises `IndexError` at line 61 (at lines 43-44 when passed straight to `findBoundingBox`), and a longer tuple has its extra components silently ignored. The EXIF reader is assumed to return two-element tuples; the normaliser builds two-element tuples itself (line 65).

## Findings

| source | as written | input that shows it | evidently intended | confidence | as-written member | corrected member |
|---|---|---|---|---|---|---|
| geoTagToPNG.py:40-41 | `maxX` and `maxY` start at `sys.float_info.min`, the smallest positive normal float (2^-1022) | one photo at longitude -3.7, latitude 40.4: maxX comes back as 2^-1022, east of the photo, rather than -3.7 | start the maxima at the most negative finite float, `-sys.float_info.max`, so maxX and maxY are the largest values present | high (proved; not executed) | `BoundingBox.WesternPhotoLosesItsLongitude` | `BoundingBox.CorrectedBoxIsTight` |
