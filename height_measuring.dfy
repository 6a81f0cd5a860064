/** `calculate_plant_height` and the day loop of the height script. */
module HeightMeasuring {
  import opened Optional
  import opened Vision
  import opened DaySeries

  /** `min_contour_area`: contours with a smaller area are skipped. */
  const MinContourArea: real := 500.0

  /** A contour the loop does not skip: the test is `area < 500 → skip`,
      so an area of exactly 500 is kept. */
  predicate Kept(c: Contour) {
    !(c.area < MinContourArea)
  }

  function Max(a: int, b: int): int { if a < b then b else a }
  function Min(a: int, b: int): int { if a < b then a else b }

  /** `max_height` after visiting `cs`: 0 when no kept contour is taller,
      else the largest height among the kept contours. */
  function MaxKeptHeight(cs: seq<Contour>): nat
  {
    if cs == [] then 0
    else
      var c := cs[|cs| - 1];
      Max(MaxKeptHeight(cs[..|cs| - 1]), if Kept(c) then c.h else 0)
  }

  /** The contour at index `i` sets a record: it is kept and strictly
      taller than the running `max_height`, which starts at 0, so it has
      positive height and beats every kept contour before it. */
  predicate SetsRecord(cs: seq<Contour>, i: nat)
    requires i < |cs|
  {
    Kept(cs[i]) && cs[i].h > MaxKeptHeight(cs[..i])
  }

  /** The record-setting contours of `cs`, in visiting order. */
  function Records(cs: seq<Contour>): seq<Contour>
  {
    if cs == [] then []
    else Records(cs[..|cs| - 1]) + (if SetsRecord(cs, |cs| - 1) then [cs[|cs| - 1]] else [])
  }

  /** The highest top edge, `min(y)`, of a non-empty list of contours. */
  function Top(rs: seq<Contour>): int
    requires rs != []
  {
    if |rs| == 1 then rs[0].y else Min(Top(rs[..|rs| - 1]), rs[|rs| - 1].y)
  }

  /** The lowest bottom edge, `max(y + h)`, of a non-empty list of contours. */
  function Bottom(rs: seq<Contour>): int
    requires rs != []
  {
    if |rs| == 1 then rs[0].y + rs[0].h else Max(Bottom(rs[..|rs| - 1]), rs[|rs| - 1].y + rs[|rs| - 1].h)
  }

  /** The measurement of one contour list: the vertical span of its
      record-setting contours, or None when there is none. */
  function PlantHeight(cs: seq<Contour>): Option<int>
  {
    var rs := Records(cs);
    if rs == [] then None else Some(Bottom(rs) - Top(rs))
  }

  /** The measurement of one image: None when it failed to load. */
  function ImageHeight(frame: Frame): Option<int>
  {
    match frame
    case LoadFailed => None
    case Loaded(cs) => PlantHeight(cs)
  }

  /** There is a record-setting contour exactly when `max_height` left 0. */
  lemma {:induction false} RecordsEmptyIff(cs: seq<Contour>)
    ensures Records(cs) == [] <==> MaxKeptHeight(cs) == 0
  {
    if cs != [] {
      RecordsEmptyIff(cs[..|cs| - 1]);
    }
  }

  /** `max_height` is an upper bound of every kept height and, when
      positive, is the height of some kept contour. */
  lemma {:induction false} MaxKeptHeightIsMaximum(cs: seq<Contour>)
    ensures forall i :: 0 <= i < |cs| && Kept(cs[i]) ==> cs[i].h <= MaxKeptHeight(cs)
    ensures MaxKeptHeight(cs) > 0 ==> exists i :: 0 <= i < |cs| && Kept(cs[i]) && cs[i].h == MaxKeptHeight(cs)
  {
    if cs != [] {
      var n := |cs|;
      var prefix := cs[..n - 1];
      MaxKeptHeightIsMaximum(prefix);
      forall i | 0 <= i < n - 1 ensures cs[i] == prefix[i] { }
      if MaxKeptHeight(cs) > 0 && MaxKeptHeight(cs) == MaxKeptHeight(prefix) {
        var i :| 0 <= i < |prefix| && Kept(prefix[i]) && prefix[i].h == MaxKeptHeight(prefix);
        assert cs[i] == prefix[i];
      }
    }
  }

  /** Heights that grow strictly from one contour to the next. */
  ghost predicate Rising(rs: seq<Contour>)
  {
    forall j, k :: 0 <= j < k < |rs| ==> rs[j].h < rs[k].h
  }

  /** Heights that are all positive and at most `bound`. */
  ghost predicate HeightsWithin(rs: seq<Contour>, bound: int)
  {
    forall k :: 0 <= k < |rs| ==> 0 < rs[k].h <= bound
  }

  /** Appending a contour taller than every one so far keeps the list rising. */
  lemma AppendTaller(rs: seq<Contour>, c: Contour, bound: int)
    requires Rising(rs) && HeightsWithin(rs, bound) && 0 <= bound < c.h
    ensures Rising(rs + [c]) && HeightsWithin(rs + [c], c.h)
  {
  }

  /** The record-setting contours grow strictly taller one after another,
      all within `max_height`, and the last of them is as tall as it. */
  lemma {:induction false} RecordsRise(cs: seq<Contour>)
    ensures Rising(Records(cs)) && HeightsWithin(Records(cs), MaxKeptHeight(cs))
    ensures Records(cs) != [] ==> Records(cs)[|Records(cs)| - 1].h == MaxKeptHeight(cs)
  {
    if cs != [] {
      var prefix := cs[..|cs| - 1];
      RecordsRise(prefix);
      RecordsEmptyIff(prefix);
      if SetsRecord(cs, |cs| - 1) {
        AppendTaller(Records(prefix), cs[|cs| - 1], MaxKeptHeight(prefix));
      } else {
        assert Records(cs) == Records(prefix) + [] == Records(prefix);
      }
    }
  }

  /** The span of a list reaches from its highest top to its lowest bottom,
      so it is at least the height of any one member. */
  lemma {:induction false} SpanCoversEach(rs: seq<Contour>, k: nat)
    requires k < |rs|
    ensures Top(rs) <= rs[k].y && rs[k].y + rs[k].h <= Bottom(rs)
  {
    if |rs| > 1 && k < |rs| - 1 {
      SpanCoversEach(rs[..|rs| - 1], k);
    }
  }

  /** The function returns None exactly when no kept contour has a positive
      height, and otherwise a span at least as large as the tallest kept
      contour, hence positive. */
  lemma PlantHeightCases(cs: seq<Contour>)
    ensures PlantHeight(cs).None? <==> forall i :: 0 <= i < |cs| && Kept(cs[i]) ==> cs[i].h == 0
    ensures PlantHeight(cs).Some? ==>
      PlantHeight(cs).value >= MaxKeptHeight(cs) > 0 &&
      forall i :: 0 <= i < |cs| && Kept(cs[i]) ==> PlantHeight(cs).value >= cs[i].h
  {
    RecordsEmptyIff(cs);
    MaxKeptHeightIsMaximum(cs);
    RecordsRise(cs);
    var rs := Records(cs);
    if rs != [] {
      SpanCoversEach(rs, |rs| - 1);
    }
  }

  /** A contour that is skipped, or that does not strictly beat the running
      `max_height` (a tie included), leaves the result unchanged. */
  lemma NoRecordNoChange(cs: seq<Contour>, c: Contour)
    requires !Kept(c) || c.h <= MaxKeptHeight(cs)
    ensures PlantHeight(cs + [c]) == PlantHeight(cs)
    ensures MaxKeptHeight(cs + [c]) == MaxKeptHeight(cs)
    ensures Records(cs + [c]) == Records(cs)
  {
    var s := cs + [c];
    assert s[..|s| - 1] == cs;
    assert !SetsRecord(s, |s| - 1);
    assert Records(s) == Records(cs) + [];
    assert Records(s) == Records(cs);
  }

  /** A kept contour strictly taller than the running `max_height` widens
      the span to take in its own top and bottom edges. */
  lemma NewRecordWidensSpan(cs: seq<Contour>, c: Contour)
    requires Kept(c) && c.h > MaxKeptHeight(cs)
    ensures MaxKeptHeight(cs + [c]) == c.h
    ensures Records(cs + [c]) == Records(cs) + [c]
    ensures Top(Records(cs + [c])) == if Records(cs) == [] then c.y else Min(Top(Records(cs)), c.y)
    ensures Bottom(Records(cs + [c])) == if Records(cs) == [] then c.y + c.h else Max(Bottom(Records(cs)), c.y + c.h)
    ensures PlantHeight(cs + [c]) ==
      if PlantHeight(cs).None? then Some(c.h)
      else Some(Max(Bottom(Records(cs)), c.y + c.h) - Min(Top(Records(cs)), c.y))
  {
  }

  /** Two lists whose all-but-last prefixes agree on `max_height` and on
      their records, and whose last contours are the same, agree as well. */
  lemma SameLastContour(x: seq<Contour>, y: seq<Contour>)
    requires x != [] && y != [] && x[|x| - 1] == y[|y| - 1]
    requires MaxKeptHeight(x[..|x| - 1]) == MaxKeptHeight(y[..|y| - 1])
    requires Records(x[..|x| - 1]) == Records(y[..|y| - 1])
    ensures MaxKeptHeight(x) == MaxKeptHeight(y) && Records(x) == Records(y)
  {
  }

  /** Skipped (small) contours never affect the result, wherever they sit. */
  lemma {:induction false} SmallContourIgnored(a: seq<Contour>, c: Contour, b: seq<Contour>)
    requires c.area < MinContourArea
    ensures MaxKeptHeight(a + [c] + b) == MaxKeptHeight(a + b)
    ensures Records(a + [c] + b) == Records(a + b)
    ensures PlantHeight(a + [c] + b) == PlantHeight(a + b)
  {
    if b == [] {
      assert a + [c] + b == a + [c];
      assert a + b == a;
      NoRecordNoChange(a, c);
    } else {
      var b' := b[..|b| - 1];
      SmallContourIgnored(a, c, b');
      var long, short := a + [c] + b, a + b;
      assert long[..|long| - 1] == a + [c] + b';
      assert short[..|short| - 1] == a + b';
      SameLastContour(long, short);
    }
  }

  /** With exactly one kept contour, the result is that contour's height
      (None when that height is 0). */
  lemma SingleKeptContour(cs: seq<Contour>, k: nat)
    requires k < |cs| && Kept(cs[k])
    requires forall i :: 0 <= i < |cs| && i != k ==> !Kept(cs[i])
    ensures PlantHeight(cs) == if cs[k].h > 0 then Some(cs[k].h) else None
  {
    SingleKeptPrefix(cs, k, |cs|);
    assert cs[..|cs|] == cs;
  }

  /** SingleKeptContour, stated for every prefix of the list. */
  lemma {:induction false} SingleKeptPrefix(cs: seq<Contour>, k: nat, n: nat)
    requires k < |cs| && Kept(cs[k]) && n <= |cs|
    requires forall i :: 0 <= i < |cs| && i != k ==> !Kept(cs[i])
    ensures n <= k ==> MaxKeptHeight(cs[..n]) == 0 && Records(cs[..n]) == []
    ensures n > k ==>
      MaxKeptHeight(cs[..n]) == cs[k].h && Records(cs[..n]) == if cs[k].h > 0 then [cs[k]] else []
  {
    if n > 0 {
      SingleKeptPrefix(cs, k, n - 1);
      assert cs[..n][..n - 1] == cs[..n - 1];
    }
  }

  /** Two orders of the same two contours: the record-setting span makes
      the result depend on visiting order. */
  lemma OrderMatters()
    ensures PlantHeight([Contour(600.0, 0, 40), Contour(600.0, 100, 60)]) == Some(160)
    ensures PlantHeight([Contour(600.0, 100, 60), Contour(600.0, 0, 40)]) == Some(60)
    ensures PlantHeight([Contour(600.0, 5, 60), Contour(600.0, 20, 40)]) == Some(60)
  {
  }

  /** The area test's boundary: 500 is kept, anything less is skipped. */
  lemma AreaBoundary(y: nat, h: nat, small: real)
    requires h > 0 && small < 500.0
    ensures PlantHeight([Contour(500.0, y, h)]) == Some(h)
    ensures PlantHeight([Contour(small, y, h)]) == None
  {
    var kept, skipped := [Contour(500.0, y, h)], [Contour(small, y, h)];
    assert kept[..0] == [] && skipped[..0] == [];
    assert Records(kept) == [] + [kept[0]];
    assert Records(skipped) == [] + [];
  }

  /** The running variables of the contour loop after it has visited
      `seen`: `max_height`, `min_y` (None for `np.inf`) and `max_y`. */
  ghost predicate Summarises(seen: seq<Contour>, maxHeight: int, minY: Option<int>, maxY: int)
  {
    && maxHeight == MaxKeptHeight(seen)
    && (minY.None? <==> Records(seen) == [])
    && (minY.Some? ==> minY.value == Top(Records(seen)) && maxY == Bottom(Records(seen)))
    && (minY.None? ==> maxY == 0)
  }

  /** A contour that is skipped or sets no record leaves the variables as
      they are. */
  lemma SkipKeepsSummary(seen: seq<Contour>, c: Contour, maxHeight: int, minY: Option<int>, maxY: int)
    requires Summarises(seen, maxHeight, minY, maxY)
    requires !Kept(c) || c.h <= maxHeight
    ensures Summarises(seen + [c], maxHeight, minY, maxY)
  {
    NoRecordNoChange(seen, c);
  }

  /** A record-setting contour updates the variables as the loop does. */
  lemma RecordUpdatesSummary(seen: seq<Contour>, c: Contour, maxHeight: int, minY: Option<int>, maxY: int)
    requires Summarises(seen, maxHeight, minY, maxY)
    requires Kept(c) && c.h > maxHeight
    ensures Summarises(seen + [c], c.h, Some(if minY.None? then c.y else Min(minY.value, c.y)), Max(maxY, c.y + c.h))
  {
  }

  /** `calculate_plant_height`: the contour loop with its running
      `max_height`, `min_y` (None standing for `np.inf`) and `max_y`. */
  method CalculatePlantHeight(frame: Frame) returns (r: Option<int>)
    ensures r == ImageHeight(frame)
    ensures r.None? <==>
      frame.LoadFailed? || forall i :: 0 <= i < |frame.contours| && Kept(frame.contours[i]) ==> frame.contours[i].h == 0
    ensures r.Some? ==>
      r.value > 0 && forall i :: 0 <= i < |frame.contours| && Kept(frame.contours[i]) ==> r.value >= frame.contours[i].h
  {
    if frame.LoadFailed? {
      return None;
    }
    var contours := frame.contours;
    var maxHeight: nat := 0;
    var minY: Option<int> := None;
    var maxY: int := 0;
    for i := 0 to |contours|
      invariant Summarises(contours[..i], maxHeight, minY, maxY)
    {
      var c := contours[i];
      assert contours[..i + 1] == contours[..i] + [c];
      if c.area < MinContourArea {
        SkipKeepsSummary(contours[..i], c, maxHeight, minY, maxY);
        continue;
      }
      var y, h := c.y, c.h;
      if h > maxHeight {
        RecordUpdatesSummary(contours[..i], c, maxHeight, minY, maxY);
        maxHeight := h;
        minY := Some(if minY.None? then y else Min(minY.value, y));
        maxY := Max(maxY, y + h);
      } else {
        SkipKeepsSummary(contours[..i], c, maxHeight, minY, maxY);
      }
    }
    assert contours[..|contours|] == contours;
    RecordsEmptyIff(contours);
    if maxHeight > 0 {
      r := Some(maxY - minY.value);
    } else {
      r := None;
    }
    PlantHeightCases(contours);
  }

  /** Day d's combined height, at index d - 1, from the AM and PM images. */
  function HeightCombined(am: seq<Frame>, pm: seq<Frame>): seq<Option<real>>
    requires |am| == |pm|
  {
    seq(|am|, k requires 0 <= k < |am| => Combine(Lift(ImageHeight(am[k])), Lift(ImageHeight(pm[k]))))
  }

  /** The top-level day loop: `am[i - 1]` and `pm[i - 1]` are the images at
      day i's two paths; `days` and `heights` are the lists it appends to. */
  method BuildHeightSeries(am: seq<Frame>, pm: seq<Frame>) returns (days: seq<int>, heights: seq<real>)
    requires |am| == |pm| == LastDay - FirstDay + 1
    ensures days == SeriesDays(HeightCombined(am, pm))
    ensures heights == SeriesValues(HeightCombined(am, pm))
    ensures IsSeries(days, heights, HeightCombined(am, pm))
    ensures forall k :: 0 <= k < |heights| ==> heights[k] > 0.0
  {
    ghost var combined := HeightCombined(am, pm);
    days, heights := [], [];
    for i := FirstDay to LastDay + 1
      invariant days == SeriesDays(combined[..i - FirstDay])
      invariant heights == SeriesValues(combined[..i - FirstDay])
      invariant forall k :: 0 <= k < |heights| ==> heights[k] > 0.0
    {
      var heightAm := CalculatePlantHeight(am[i - FirstDay]);
      var heightPm := CalculatePlantHeight(pm[i - FirstDay]);
      var height := Combine(Lift(heightAm), Lift(heightPm));
      SeriesStep(combined, i - FirstDay);
      if height.Some? {
        days := days + [i];
        heights := heights + [height.value];
      }
    }
    assert combined[..LastDay + 1 - FirstDay] == combined;
    SeriesIsWellFormed(combined);
  }
}
