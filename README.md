# Plant growth monitoring: the measurement and aggregation logic

Two scripts photograph a plant twice a day for ten days. `hieght_measuring.py`
estimates the plant's height in pixels and `leaf_counting.py` counts its
leaves. Each script segments green pixels, extracts external contours with the
vision library and reduces them to one number per image. A day loop then
combines each day's AM and PM numbers into a (day, value) series, which is
plotted.

This project models the logic that sits on top of the vision library:

- `Vision` (vision.dfy). A contour is the record `(area, y, h)` that
  `cv2.contourArea` and `cv2.boundingRect` report. An image is either
  `LoadFailed` (`cv2.imread` returned None) or `Loaded(contours)`.
  `Optional` holds the `Option` type that stands for Python's None.
- `HeightMeasuring` (height_measuring.dfy). `CalculatePlantHeight` is the
  contour loop of `calculate_plant_height`. It tracks `max_height`, `min_y`
  (None stands for `np.inf`) and `max_y`, and it is proved equal to
  `PlantHeight`, an independent definition. A contour *sets a record* when it
  is kept (area not below 500) and strictly taller than the running
  `max_height`, which starts at 0, so it has positive height and beats every
  kept contour before it. The result is the span from the highest top to the lowest bottom
  of the record-setting contours, in visiting order. It is None when there
  are none. `BuildHeightSeries` is the day loop.
- `LeafCounting` (leaf_counting.dfy). `CountLeaves` is `count_leaves`: the
  number of contours whose area is strictly above the threshold. Both call
  sites pass 10 rather than the default 50. `BuildLeafSeries` is the day loop.
- `DaySeries` (day_series.dfy) is the AM/PM rule both loops share. With two
  values it takes their mean, with one it takes that one, and with neither the
  day is left out. The module also gives the lists a loop builds
  (`SeriesDays`, `SeriesValues`) and proves that they form a well-formed series.

Two facts about the code are worth keeping in mind:

- The height result is not the tallest contour's height: `min_y` and
  `max_y` gather every record-setting contour, so `(y=0,h=40)` then
  `(y=100,h=60)` gives 160 (`HeightMeasuring.OrderMatters`).
- The two area tests differ: the leaf filter drops an area equal to its
  threshold (`>` at leaf_counting.py:38), while the height loop skips only
  areas `< 500` (hieght_measuring.py:38), so an area of exactly 500 is kept
  (`HeightMeasuring.AreaBoundary`).

## Model

| member | source | states |
|---|---|---|
| `DaySeries.Combine` | hieght_measuring.py:65-73 | the combined value exists exactly when the AM or the PM value does; a lone value is passed on unchanged; two values give their mean (equidistant from both). leaf_counting.py:56-64 applies the same rule |
| `DaySeries.SeriesIsWellFormed` | hieght_measuring.py:54-77 | the appended lists have equal length; days strictly increase within the visited range; each value is its day's combined value; every day that has a combined value is listed |
| `DaySeries.AtMostOneEntryPerDay` | leaf_counting.py:45-68 | over the ten days of `range(1, 11)` the two lists hold at most ten entries each |
| `HeightMeasuring.RecordsEmptyIff` | hieght_measuring.py:42-47 | some contour set a record exactly when `max_height` ended above 0, which is the test that decides between a height and None |
| `HeightMeasuring.MaxKeptHeightIsMaximum` | hieght_measuring.py:34-43 | `max_height` bounds every kept contour's `h` and, when positive, equals the `h` of some kept contour |
| `HeightMeasuring.RecordsRise` | hieght_measuring.py:42-45 | the record-setting contours grow strictly taller in visiting order, so a tie never updates `min_y`/`max_y`; the last one is as tall as `max_height` |
| `HeightMeasuring.SpanCoversEach` | hieght_measuring.py:44-48 | the span from `min(y)` to `max(y + h)` covers each contour it was taken over |
| `HeightMeasuring.PlantHeightCases` | hieght_measuring.py:41-51 | the result is None exactly when no kept contour has `h > 0`; otherwise it is at least every kept `h`, hence positive |
| `HeightMeasuring.NoRecordNoChange` | hieght_measuring.py:38-45 | a skipped contour, or a kept one not strictly taller than the running `max_height`, changes neither the result nor `max_height` |
| `HeightMeasuring.NewRecordWidensSpan` | hieght_measuring.py:42-45 | a strictly taller kept contour becomes `max_height`; the span grows to take in its top `y` and bottom `y + h` (or is just its `h` when it is the first) |
| `HeightMeasuring.SkipKeepsSummary` | hieght_measuring.py:37-45 | an iteration that skips its contour, or finds it no taller than `max_height`, leaves `max_height`, `min_y` and `max_y` describing the longer visited list |
| `HeightMeasuring.RecordUpdatesSummary` | hieght_measuring.py:42-45 | the three assignments of a record-setting iteration keep `max_height`, `min_y` and `max_y` describing the longer visited list |
| `HeightMeasuring.SmallContourIgnored` | hieght_measuring.py:32-39 | a contour with area below 500 does not affect the result, wherever it sits in the list |
| `HeightMeasuring.SingleKeptContour` | hieght_measuring.py:41-48 | with exactly one kept contour the result is its `h`, or None when that `h` is 0 |
| `HeightMeasuring.OrderMatters` | hieght_measuring.py:41-48 | heights 40 at y=0 then 60 at y=100 give 160, the reverse order gives 60; 60 at y=5 then 40 at y=20 gives 60 |
| `HeightMeasuring.AreaBoundary` | hieght_measuring.py:32-39 | a contour of area exactly 500 is measured; one of smaller area yields None |
| `HeightMeasuring.CalculatePlantHeight` | hieght_measuring.py:5-51 | the loop's result equals the record-span definition; it is None exactly on load failure or when no kept contour has `h > 0`; a height is positive and at least every kept `h` |
| `HeightMeasuring.BuildHeightSeries` | hieght_measuring.py:54-78 | `days`/`heights` are exactly the series of the combined AM/PM heights of days 1..10, well-formed, and every height listed is positive |
| `LeafCounting.ValidContours` | leaf_counting.py:38 | a contour is kept exactly when it is one of the given contours with area strictly above the threshold; the filter is no longer than its input and keeps the whole list when every contour qualifies |
| `LeafCounting.CountLeaves` | leaf_counting.py:5-42 | None exactly when the image failed to load; otherwise the number of contours whose area exceeds the threshold, no larger than the contour list, and 0 exactly when no area exceeds the threshold |
| `LeafCounting.CountIsQualifyingContours` | leaf_counting.py:38-40 | the count equals the number of positions whose contour area is strictly above the threshold |
| `LeafCounting.RaisingThresholdNeverAddsLeaves` | leaf_counting.py:38-40 | a higher threshold never gives a larger count |
| `LeafCounting.ThresholdAreaExcluded` | leaf_counting.py:38 | a contour whose area equals the threshold is not counted |
| `LeafCounting.ThreeBlobs` | leaf_counting.py:38-54 | three blobs of area 20 count 3 at the call-site threshold 10 and 0 at the default 50 |
| `LeafCounting.CombinedCountIsHalfInteger` | leaf_counting.py:56-64 | a combined count is non-negative and twice it is a whole number (a mean may be a half-integer) |
| `LeafCounting.BuildLeafSeries` | leaf_counting.py:45-69 | `days`/`leafCounts` are exactly the series of the combined AM/PM counts (threshold 10) of days 1..10, well-formed and non-negative |

## Left out

- Image pipeline: `cv2.imread`, `resize`, `cvtColor`, `inRange`, `erode`, `morphologyEx`, `medianBlur`, `findContours`, `contourArea` and `boundingRect` are calls into the vision library. Their combined output for one path is an input `Frame`.
- The HSV bounds, kernel sizes and erosion count (hieght_measuring.py:16-26, leaf_counting.py:14-32) only parameterise those calls and are not modelled.
- Plotting and saving the charts (hieght_measuring.py:80-93, leaf_counting.py:71-83) is output only.
- Console messages and the path templates are output and string formatting. The day loops receive, for each day, the `Frame` found at its AM path and at its PM path.
- Floating point: contour areas and the combined means are exact `real`s. IEEE rounding is not modelled, and a mean of two integers such as 3.5 is exact in both.
- Contour `y` and `h` are non-negative integers, as `boundingRect` reports for pixel coordinates. Negative coordinates, for which the initial `max_y = 0` would matter, are not modelled.
- The unused default of `min_contour_area` (50) is the constant `DefaultMinContourArea`. No call in the scripts relies on it.
