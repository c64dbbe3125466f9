/**
 * What one call of `execute` promises, stated over the pure model `Run`:
 * which batches it rejects before fetching, the one query it sends, and the
 * intensities it writes.
 */
module RunProperties {

  import opened Wrappers
  import opened Records
  import opened IntervalMerger
  import opened Geolocation
  import opened WindowPartition
  import opened WattTime

  /**
   * One present `geolocation` that does not match the pattern rejects the
   * whole batch with the schema's error: nothing is fetched or written.
   */
  lemma RunRejectsMalformed(us: seq<Input>, source: Source, j: int)
    requires 0 <= j < |us| && us[j].geolocation.Some? && !MatchesGeolocation(us[j].geolocation.value)
    ensures Run(us, source) == Execution(Failure(InvalidGeolocation), None, [])
  {
    ValidationOutcomeIff(us);
  }

  /**
   * A batch passes validation exactly when every present `geolocation`
   * matches; it is then never rejected for a NaN coordinate.
   */
  lemma RunValidates(us: seq<Input>, source: Source)
    ensures (forall j :: 0 <= j < |us| && us[j].geolocation.Some? ==> MatchesGeolocation(us[j].geolocation.value))
        <==> ValidationOutcome(us).Pass?
    ensures forall index :: Run(us, source).result != Failure(NotANumber(index))
  {
    ValidationOutcomeIff(us);
  }

  /** An empty batch has no location to query: the schema error, no request. */
  lemma RunEmptyBatch(source: Source)
    ensures Run([], source) == Execution(Failure(InvalidGeolocation), None, [])
  {
    assert Checks([]) == [];
    assert MergedWindow([]) == Span(SentinelStart, SentinelEnd);
  }

  /**
   * A validated batch whose merged window is longer than 32 days fails with
   * the span in seconds, before any query is sent.
   */
  lemma RunSpanTooLong(us: seq<Input>, source: Source)
    requires ValidationOutcome(us).Pass?
    requires MergedWindow(us).endTime - MergedWindow(us).startTime > MaxFetchSeconds
    ensures Run(us, source)
         == Execution(Failure(SpanTooLong(MergedWindow(us).endTime - MergedWindow(us).startTime)), None, [])
  {
  }

  /**
   * A query is sent exactly when the batch validates, its merged window is at
   * most 32 days long, and its first input has a `geolocation`. The query's
   * window is the merged window and covers every input's window, and its
   * coordinates are the first input's: numbers, a latitude >= 0 and a
   * longitude <= 0.
   */
  lemma RunRequest(us: seq<Input>, source: Source)
    ensures var w := MergedWindow(us);
      Run(us, source).request.Some? <==>
        ValidationOutcome(us).Pass? && w.endTime - w.startTime <= MaxFetchSeconds
        && |us| > 0 && us[0].geolocation.Some?
    ensures Run(us, source).request.Some? ==>
      var p := Run(us, source).request.value;
      && p.startTime == MergedWindow(us).startTime && p.endTime == MergedWindow(us).endTime
      && p.endTime - p.startTime <= MaxFetchSeconds
      && (forall i :: 0 <= i < |us| ==> p.startTime <= us[i].timestamp && End(us[i]) <= p.endTime)
      && p.latitude.Num? && p.latitude.value >= 0.0
      && p.longitude.Num? && p.longitude.value <= 0.0
  {
    ValidationOutcomeIff(us);
    if Run(us, source).request.Some? {
      assert |us| > 0;
      MatchedGeolocationParses(us[0].geolocation.value);
      forall i | 0 <= i < |us|
        ensures MergedWindow(us).startTime <= us[i].timestamp && End(us[i]) <= MergedWindow(us).endTime
      {
        MergedWindowCovers(us, i);
      }
    } else if ValidationOutcome(us).Pass? && |us| > 0 && us[0].geolocation.Some? {
      MatchedGeolocationParses(us[0].geolocation.value);
    }
  }

  /** Once the series is fetched, `Run` is the annotation of the batch over it. */
  lemma RunAfterFetch(us: seq<Input>, source: Source, samples: seq<Sample>)
    requires ValidationOutcome(us).Pass? && Fetched(us, source) == Success(samples)
    ensures RequestOf(us).Some?
    ensures Run(us, source)
         == Execution(Collect(Means(samples, us)), RequestOf(us), WrittenPrefix(Means(samples, us)))
  {
  }

  /**
   * Annotating over a fetched series: record `k` receives the mean of its
   * own window; every record is annotated when every window selects a
   * reading, and otherwise the first empty window `i` stops the batch with
   * `NoData(i)` after records `0..i-1` were written.
   */
  lemma AnnotationOutcome(us: seq<Input>, samples: seq<Sample>)
    ensures var ms := Means(samples, us);
      var written := WrittenPrefix(ms);
      var result := Collect(ms);
      && (forall k :: 0 <= k < |written| ==>
            WindowMean(samples, us[k].timestamp, End(us[k])) == Some(written[k]))
      && (result.Success? <==>
            forall k :: 0 <= k < |us| ==> exists x :: x in samples && us[k].timestamp <= x.pointTime < End(us[k]))
      && (result.Success? ==> result.value == written && |written| == |us|)
      && (result.Failure? ==>
            && result.error == NoData(|written|) && |written| < |us|
            && forall x :: x in samples ==> !(us[|written|].timestamp <= x.pointTime < End(us[|written|])))
  {
    var ms := Means(samples, us);
    forall k | 0 <= k < |us|
      ensures ms[k] == WindowMean(samples, us[k].timestamp, End(us[k]))
      ensures ms[k].None? <==> forall x :: x in samples ==> !(us[k].timestamp <= x.pointTime < End(us[k]))
    {
      MeansAt(samples, us, k);
      WindowMeanEmpty(samples, us[k].timestamp, End(us[k]));
    }
  }

  /**
   * Once the series is fetched, the query was sent and `execute` annotates
   * the batch as `AnnotationOutcome` describes.
   */
  lemma RunAnnotates(us: seq<Input>, source: Source, samples: seq<Sample>)
    requires ValidationOutcome(us).Pass? && Fetched(us, source) == Success(samples)
    ensures var e := Run(us, source);
      && e.request.Some?
      && (forall k :: 0 <= k < |e.written| ==>
            WindowMean(samples, us[k].timestamp, End(us[k])) == Some(e.written[k]))
      && (e.result.Success? <==>
            forall k :: 0 <= k < |us| ==> exists x :: x in samples && us[k].timestamp <= x.pointTime < End(us[k]))
      && (e.result.Success? ==> e.result.value == e.written && |e.written| == |us|)
      && (e.result.Failure? ==>
            && e.result.error == NoData(|e.written|) && |e.written| < |us|
            && forall x :: x in samples ==> !(us[|e.written|].timestamp <= x.pointTime < End(us[|e.written|])))
  {
    RunAfterFetch(us, source, samples);
    AnnotationOutcome(us, samples);
  }

  /**
   * When every reading the API returns lies in `[lo, hi]` lbs/MWh, every
   * intensity written lies in `[lo, hi]` divided by `KilogramsPerPound`.
   */
  lemma RunIntensityBounds(us: seq<Input>, source: Source, samples: seq<Sample>, lo: real, hi: real)
    requires ValidationOutcome(us).Pass? && Fetched(us, source) == Success(samples)
    requires forall x :: x in samples ==> lo <= x.value <= hi
    ensures forall k :: 0 <= k < |Run(us, source).written| ==>
      lo / KilogramsPerPound <= Run(us, source).written[k] <= hi / KilogramsPerPound
  {
    var written := Run(us, source).written;
    RunAnnotates(us, source, samples);
    forall k | 0 <= k < |written|
      ensures lo / KilogramsPerPound <= written[k] <= hi / KilogramsPerPound
    {
      WindowMeanBounds(samples, us[k].timestamp, End(us[k]), lo, hi);
    }
  }
}
