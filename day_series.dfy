/** The per-day aggregation both scripts share: an AM and a PM measurement
    are combined, and a (day, value) pair is kept only when the combination
    exists. */
module DaySeries {
  import opened Optional

  /** `range(1, 11)`: the days the scripts visit. */
  const FirstDay: int := 1
  const LastDay: int := 10

  /** The AM/PM rule: the mean of two, the one that exists, or nothing. */
  function Combine(am: Option<real>, pm: Option<real>): (r: Option<real>)
    ensures r.Some? <==> am.Some? || pm.Some?
    ensures am.Some? && pm.None? ==> r == am
    ensures am.None? && pm.Some? ==> r == pm
    ensures am.Some? && pm.Some? ==> r.value - am.value == pm.value - r.value
  {
    if am.Some? && pm.Some? then Some((am.value + pm.value) / 2.0)
    else if am.Some? then am
    else if pm.Some? then pm
    else None
  }

  /** The `days` list after the loop has visited the days 1..|combined|,
      where `combined[d - 1]` is day d's combined value. */
  function SeriesDays(combined: seq<Option<real>>): seq<int>
  {
    if combined == [] then []
    else
      var n := |combined|;
      SeriesDays(combined[..n - 1]) + (if combined[n - 1].Some? then [FirstDay + n - 1] else [])
  }

  /** The list of values (`heights` or `leaf_counts`) beside SeriesDays. */
  function SeriesValues(combined: seq<Option<real>>): seq<real>
  {
    if combined == [] then []
    else
      var n := |combined|;
      SeriesValues(combined[..n - 1]) + (if combined[n - 1].Some? then [combined[n - 1].value] else [])
  }

  /** Visiting the day at index `n` appends that day and its value exactly
      when it has a combined value. */
  lemma SeriesStep(combined: seq<Option<real>>, n: nat)
    requires n < |combined|
    ensures SeriesDays(combined[..n + 1]) ==
      SeriesDays(combined[..n]) + (if combined[n].Some? then [FirstDay + n] else [])
    ensures SeriesValues(combined[..n + 1]) ==
      SeriesValues(combined[..n]) + (if combined[n].Some? then [combined[n].value] else [])
  {
    assert combined[..n + 1][..n] == combined[..n];
  }

  /** What a well-formed day series is: two lists of equal length, days
      strictly increasing and within the visited range, each value the
      combined value of its day, and every day with a combined value listed. */
  ghost predicate IsSeries(days: seq<int>, values: seq<real>, combined: seq<Option<real>>)
  {
    && |days| == |values|
    && (forall j, k :: 0 <= j < k < |days| ==> days[j] < days[k])
    && (forall k :: 0 <= k < |days| ==>
          FirstDay <= days[k] < FirstDay + |combined| && combined[days[k] - FirstDay] == Some(values[k]))
    && (forall d :: FirstDay <= d < FirstDay + |combined| && combined[d - FirstDay].Some? ==> d in days)
  }

  /** Visiting one more day keeps the lists a day series. */
  lemma ExtendSeries(days: seq<int>, values: seq<real>, prefix: seq<Option<real>>, next: Option<real>)
    requires IsSeries(days, values, prefix) && |days| <= |prefix|
    ensures var day := FirstDay + |prefix|;
      && IsSeries(days + (if next.Some? then [day] else []),
                  values + (if next.Some? then [next.value] else []),
                  prefix + [next])
      && |days| + (if next.Some? then 1 else 0) <= |prefix| + 1
  {
  }

  /** The lists the loop builds form a day series, with no more entries
      than days visited. */
  lemma {:induction false} SeriesIsWellFormed(combined: seq<Option<real>>)
    ensures IsSeries(SeriesDays(combined), SeriesValues(combined), combined)
    ensures |SeriesDays(combined)| <= |combined|
  {
    if combined != [] {
      var n := |combined|;
      var prefix := combined[..n - 1];
      SeriesIsWellFormed(prefix);
      ExtendSeries(SeriesDays(prefix), SeriesValues(prefix), prefix, combined[n - 1]);
      assert prefix + [combined[n - 1]] == combined;
    }
  }

  /** The visit never yields more entries than days: at most ten. */
  lemma AtMostOneEntryPerDay(combined: seq<Option<real>>)
    requires |combined| == LastDay - FirstDay + 1
    ensures |SeriesDays(combined)| == |SeriesValues(combined)| <= 10
  {
    SeriesIsWellFormed(combined);
  }
}
