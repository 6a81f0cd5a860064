/** `count_leaves` and the day loop of the leaf-count script. */
module LeafCounting {
  import opened Optional
  import opened Vision
  import opened DaySeries

  /** The default of the `min_contour_area` parameter. */
  const DefaultMinContourArea: real := 50.0
  /** The value both call sites in the day loop pass instead. */
  const CallSiteMinContourArea: real := 10.0

  /** `valid_contours`: the contours whose area is strictly greater than the
      threshold, in their original order. */
  function ValidContours(cs: seq<Contour>, minContourArea: real): (v: seq<Contour>)
    ensures |v| <= |cs|
    ensures forall c :: c in v <==> c in cs && c.area > minContourArea
    ensures (forall i :: 0 <= i < |cs| ==> cs[i].area > minContourArea) ==> v == cs
  {
    if cs == [] then []
    else
      var n := |cs|;
      var init, last := cs[..n - 1], cs[n - 1];
      var prefix := ValidContours(init, minContourArea);
      assert init + [last] == cs;
      assert forall i :: 0 <= i < n - 1 ==> cs[i] == init[i];
      prefix + (if last.area > minContourArea then [last] else [])
  }

  /** The positions of the qualifying contours: an independent statement of
      what is being counted. */
  ghost function QualifyingIndices(cs: seq<Contour>, minContourArea: real): set<int>
  {
    set i: int | 0 <= i < |cs| && cs[i].area > minContourArea
  }

  /** `count_leaves`: None only when the image failed to load; otherwise the
      number of valid contours, which may be 0. */
  function CountLeaves(frame: Frame, minContourArea: real): (r: Option<nat>)
    ensures r.None? <==> frame.LoadFailed?
    ensures r.Some? ==> r.value <= |frame.contours|
    ensures r.Some? ==> (r.value == 0 <==> forall i :: 0 <= i < |frame.contours| ==> frame.contours[i].area <= minContourArea)
    ensures r.Some? ==> r.value == |QualifyingIndices(frame.contours, minContourArea)|
  {
    match frame
    case LoadFailed => None
    case Loaded(cs) =>
      CountIsQualifyingContours(cs, minContourArea);
      Some(|ValidContours(cs, minContourArea)|)
  }

  lemma QualifyingIndicesStep(cs: seq<Contour>, minContourArea: real)
    requires cs != []
    ensures var n := |cs|;
      QualifyingIndices(cs, minContourArea) ==
        QualifyingIndices(cs[..n - 1], minContourArea) + (if cs[n - 1].area > minContourArea then {n - 1} else {})
  {
  }

  /** The count is the number of contours whose area exceeds the threshold. */
  lemma {:induction false} CountIsQualifyingContours(cs: seq<Contour>, minContourArea: real)
    ensures |ValidContours(cs, minContourArea)| == |QualifyingIndices(cs, minContourArea)|
  {
    if cs != [] {
      var n := |cs|;
      var prefix := cs[..n - 1];
      CountIsQualifyingContours(prefix, minContourArea);
      QualifyingIndicesStep(cs, minContourArea);
      var before := QualifyingIndices(prefix, minContourArea);
      if cs[n - 1].area > minContourArea {
        assert n - 1 !in before;
        assert |before + {n - 1}| == |before| + 1;
      }
    }
  }

  /** Raising the threshold never increases the count. */
  lemma {:induction false} RaisingThresholdNeverAddsLeaves(cs: seq<Contour>, low: real, high: real)
    requires low <= high
    ensures |ValidContours(cs, high)| <= |ValidContours(cs, low)|
  {
    if cs != [] {
      RaisingThresholdNeverAddsLeaves(cs[..|cs| - 1], low, high);
    }
  }

  /** A contour whose area equals the threshold is not counted. */
  lemma ThresholdAreaExcluded(cs: seq<Contour>, c: Contour, minContourArea: real)
    requires c.area == minContourArea
    ensures CountLeaves(Loaded(cs + [c]), minContourArea) == CountLeaves(Loaded(cs), minContourArea)
  {
  }

  /** Three blobs of area 20 give three leaves at the call-site threshold
      and none at the default one. */
  lemma ThreeBlobs(cs: seq<Contour>)
    requires |cs| == 3 && forall i :: 0 <= i < 3 ==> cs[i].area == 20.0
    ensures CountLeaves(Loaded(cs), CallSiteMinContourArea) == Some(3)
    ensures CountLeaves(Loaded(cs), DefaultMinContourArea) == Some(0)
  {
  }

  /** Day d's combined leaf count, at index d - 1, from the AM and PM images
      counted with the call-site threshold. */
  function LeafCombined(am: seq<Frame>, pm: seq<Frame>): seq<Option<real>>
    requires |am| == |pm|
  {
    seq(|am|, k requires 0 <= k < |am| =>
      Combine(Lift(CountLeaves(am[k], CallSiteMinContourArea)), Lift(CountLeaves(pm[k], CallSiteMinContourArea))))
  }

  /** A combined count is a non-negative multiple of one half: the mean of
      two counts may be a half-integer, never anything finer. */
  lemma CombinedCountIsHalfInteger(am: Option<nat>, pm: Option<nat>)
    requires am.Some? || pm.Some?
    ensures Combine(Lift(am), Lift(pm)).Some?
    ensures Combine(Lift(am), Lift(pm)).value >= 0.0
    ensures (2.0 * Combine(Lift(am), Lift(pm)).value).Floor as real == 2.0 * Combine(Lift(am), Lift(pm)).value
  {
    var n: nat := if am.Some? && pm.Some? then am.value + pm.value
                  else if am.Some? then 2 * am.value else 2 * pm.value;
    assert 2.0 * Combine(Lift(am), Lift(pm)).value == n as real;
  }

  /** The top-level day loop: `am[i - 1]` and `pm[i - 1]` are the images at
      day i's two paths; `days` and `leafCounts` are the lists it appends to. */
  method BuildLeafSeries(am: seq<Frame>, pm: seq<Frame>) returns (days: seq<int>, leafCounts: seq<real>)
    requires |am| == |pm| == LastDay - FirstDay + 1
    ensures days == SeriesDays(LeafCombined(am, pm))
    ensures leafCounts == SeriesValues(LeafCombined(am, pm))
    ensures IsSeries(days, leafCounts, LeafCombined(am, pm))
    ensures forall k :: 0 <= k < |leafCounts| ==> leafCounts[k] >= 0.0
  {
    ghost var combined := LeafCombined(am, pm);
    days, leafCounts := [], [];
    for i := FirstDay to LastDay + 1
      invariant days == SeriesDays(combined[..i - FirstDay])
      invariant leafCounts == SeriesValues(combined[..i - FirstDay])
      invariant forall k :: 0 <= k < |leafCounts| ==> leafCounts[k] >= 0.0
    {
      var countAm := CountLeaves(am[i - FirstDay], CallSiteMinContourArea);
      var countPm := CountLeaves(pm[i - FirstDay], CallSiteMinContourArea);
      var leafCount := Combine(Lift(countAm), Lift(countPm));
      SeriesStep(combined, i - FirstDay);
      if leafCount.Some? {
        days := days + [i];
        leafCounts := leafCounts + [leafCount.value];
      }
    }
    assert combined[..LastDay + 1 - FirstDay] == combined;
    SeriesIsWellFormed(combined);
  }
}
