/**
 * The `execute` pipeline of the WattTime grid-emissions plugin: validate the
 * geolocations of the batch, build one fetch window covering every input,
 * fetch the marginal-emissions series once, then annotate each input record
 * in place with the mean of the readings inside its own window.
 *
 * The pipeline is specified by the pure function `Run` over the records'
 * values; the methods over the array of records are proved to follow it.
 */
module WattTime {

  import opened Wrappers
  import opened Records
  import opened IntervalMerger
  import opened Geolocation
  import opened WindowPartition

  /** The query sent to the WattTime API: a location and a time window. */
  datatype FetchParams = FetchParams(latitude: Float, longitude: Float, startTime: int, endTime: int)

  /** The WattTime API client: answers a query with a series or an error message. */
  type Source = FetchParams -> Result<seq<Sample>, string>

  /** The location of the first input; an empty batch has none. */
  function FirstGeolocation(us: seq<Input>): Option<string>
  {
    if |us| > 0 then us[0].geolocation else None
  }

  /**
   * `getWattTimeData` up to the fetch: merge the windows (rejecting spans
   * over 32 days), then locate the query by the first input alone.
   */
  function WattTimeRequest(us: seq<Input>): (r: Result<FetchParams, Error>)
    ensures var w := MergedWindow(us);
      && (w.endTime - w.startTime > MaxFetchSeconds ==> r == Failure(SpanTooLong(w.endTime - w.startTime)))
      && (r.Success? <==> w.endTime - w.startTime <= MaxFetchSeconds && ParseGeolocation(FirstGeolocation(us)).Success?)
      && (r.Success? ==> r.value.startTime == w.startTime && r.value.endTime == w.endTime)
      && (r.Success? ==>
            r.value.latitude == ParseGeolocation(FirstGeolocation(us)).value.latitude
            && r.value.longitude == ParseGeolocation(FirstGeolocation(us)).value.longitude)
  {
    match CalculateStartDuration(us)
    case Failure(e) => Failure(e)
    case Success(sd) =>
      match ParseGeolocation(FirstGeolocation(us))
      case Failure(e) => Failure(e)
      case Success(c) => Success(FetchParams(c.latitude, c.longitude, sd.startTime, sd.startTime + sd.fetchDuration))
  }

  /** The mean of input `u`'s window over the fetched series. */
  function IntensityOf(samples: seq<Sample>, u: Input): Option<real>
  {
    WindowMean(samples, u.timestamp, End(u))
  }

  /** The intensity of every input's window, in order. */
  function Means(samples: seq<Sample>, us: seq<Input>): (ms: seq<Option<real>>)
    ensures |ms| == |us|
  {
    if us == [] then [] else Means(samples, us[..|us| - 1]) + [IntensityOf(samples, us[|us| - 1])]
  }

  /**
   * The readings `execute` writes before it stops: the values of the longest
   * run of non-empty windows from the start of the batch.
   */
  function WrittenPrefix(ms: seq<Option<real>>): (vs: seq<real>)
    ensures |vs| <= |ms|
    ensures forall k :: 0 <= k < |vs| ==> ms[k] == Some(vs[k])
    ensures |vs| < |ms| ==> ms[|vs|].None?
  {
    if ms == [] || ms[0].None? then [] else [ms[0].value] + WrittenPrefix(ms[1..])
  }

  /** The `map` of `execute`: every intensity, or `NoData(i)` for the first empty window. */
  function Collect(ms: seq<Option<real>>): (r: Result<seq<real>, Error>)
    ensures r.Success? <==> forall k :: 0 <= k < |ms| ==> ms[k].Some?
    ensures r.Success? ==> |r.value| == |ms| && forall k :: 0 <= k < |ms| ==> ms[k] == Some(r.value[k])
    ensures r.Failure? ==>
      && r.error.NoData? && r.error.index < |ms| && ms[r.error.index].None?
      && forall k :: 0 <= k < r.error.index ==> ms[k].Some?
  {
    var vs := WrittenPrefix(ms);
    if |vs| == |ms| then Success(vs) else Failure(NoData(|vs|))
  }

  /** The fetched series, or why there is none. */
  function Fetched(us: seq<Input>, source: Source): Result<seq<Sample>, Error>
  {
    match WattTimeRequest(us)
    case Failure(e) => Failure(e)
    case Success(p) =>
      match source(p)
      case Failure(m) => Failure(Upstream(m))
      case Success(samples) => Success(samples)
  }

  /** The query sent for a validated batch, if the window could be built. */
  function RequestOf(us: seq<Input>): Option<FetchParams>
  {
    match WattTimeRequest(us)
    case Failure(_) => None
    case Success(p) => Some(p)
  }

  /**
   * What one call of `execute` yields: its result, the query it sent (if
   * any), and the intensities it wrote into `inputs[0..]` before it stopped.
   */
  datatype Execution = Execution(result: Result<seq<real>, Error>, request: Option<FetchParams>, written: seq<real>)

  /** `execute` on the field values of the batch: validate, fetch once, average per input. */
  function Run(us: seq<Input>, source: Source): (e: Execution)
    ensures |e.written| <= |us|
  {
    match ValidationOutcome(us)
    case Fail(err) => Execution(Failure(err), None, [])
    case Pass =>
      match Fetched(us, source)
      case Failure(err) => Execution(Failure(err), RequestOf(us), [])
      case Success(samples) =>
        var ms := Means(samples, us);
        Execution(Collect(ms), RequestOf(us), WrittenPrefix(ms))
  }


  /**
   * The batch after `execute` wrote the intensities `vs` into its first
   * `|vs|` records; every other field and record is as it was.
   */
  function WithIntensities(us: seq<Input>, vs: seq<real>): (r: seq<Input>)
    requires |vs| <= |us|
    ensures |r| == |us|
    ensures forall k :: 0 <= k < |us| ==>
              r[k] == if k < |vs| then us[k].(carbonIntensity := Some(vs[k])) else us[k]
  {
    if vs == [] then us
    else
      var n := |vs| - 1;
      WithIntensities(us, vs[..n])[n := us[n].(carbonIntensity := Some(vs[n]))]
  }

  // ------------------------------------------------------------ methods

  /**
   * `parseLocation` for record `i`: validate its `geolocation`, write the
   * validated value back into the record (`Object.assign`), split it on
   * `,` and parse both halves.
   */
  method ParseLocation(inputs: array<Input>, i: nat) returns (r: Result<Coordinates, Error>)
    requires i < inputs.Length
    modifies inputs
    ensures r == ParseGeolocation(old(inputs[i].geolocation))
    ensures inputs[..] == old(inputs[..])
  {
    var safe := ValidateSingleInput(inputs[i].geolocation);
    if safe.Failure? {
      return Failure(safe.error);
    }
    inputs[i] := inputs[i].(geolocation := Some(safe.value));
    var parts := Split(inputs[i].geolocation.value, ',');
    var longitude := if |parts| > 1 then ParseFloat(parts[1]) else NaN;
    r := Success(Coordinates(ParseFloat(parts[0]), longitude));
  }

  /**
   * The body of the `forEach` in `validateInputs` for record `i`: skip it
   * when it has no `geolocation`; otherwise parse it and reject a NaN half.
   */
  method CheckLocation(inputs: array<Input>, i: nat) returns (r: Outcome<Error>)
    requires i < inputs.Length
    modifies inputs
    ensures r == CheckInput(old(inputs[i].geolocation), i)
    ensures inputs[..] == old(inputs[..])
  {
    r := Pass;
    if inputs[i].geolocation.Some? {
      var c := ParseLocation(inputs, i);
      if c.Failure? {
        r := Fail(c.error);
      } else if c.value.latitude.NaN? || c.value.longitude.NaN? {
        r := Fail(NotANumber(i));
      }
    }
  }

  /** `validateInputs`: check every record in order, stopping at the first throw. */
  method ValidateInputs(inputs: array<Input>) returns (r: Outcome<Error>)
    modifies inputs
    ensures r == ValidationOutcome(inputs[..])
    ensures inputs[..] == old(inputs[..])
  {
    ghost var us := inputs[..];
    ghost var checks := Checks(us);
    var i := 0;
    while i < inputs.Length
      invariant 0 <= i <= inputs.Length
      invariant inputs[..] == us
      invariant forall k :: 0 <= k < i ==> checks[k].Pass?
    {
      assert inputs[i] == us[i];
      var outcome := CheckLocation(inputs, i);
      if outcome.Fail? {
        FirstFailureAt(checks, i);
        return outcome;
      }
      i := i + 1;
    }
    FirstFailurePasses(checks);
    r := Pass;
  }

  /**
   * `getWattTimeData`: compute the merged window, parse the first record's
   * location, and fetch once. `request` is the query sent, if any.
   */
  method GetWattTimeData(inputs: array<Input>, source: Source)
      returns (data: Result<seq<Sample>, Error>, request: Option<FetchParams>)
    modifies inputs
    ensures data == Fetched(inputs[..], source)
    ensures request == RequestOf(inputs[..])
    ensures inputs[..] == old(inputs[..])
  {
    var window := CalculateStartDuration(inputs[..]);
    if window.Failure? {
      return Failure(window.error), None;
    }
    var location: Result<Coordinates, Error>;
    if inputs.Length > 0 {
      location := ParseLocation(inputs, 0);
    } else {
      location := ParseGeolocation(None);
    }
    if location.Failure? {
      return Failure(location.error), None;
    }
    var start := window.value.startTime;
    var params := FetchParams(location.value.latitude, location.value.longitude,
                              start, start + window.value.fetchDuration);
    request := Some(params);
    var fetched := source(params);
    if fetched.Failure? {
      return Failure(Upstream(fetched.error)), request;
    }
    data := Success(fetched.value);
  }

  /**
   * The callback of the `map` in `execute` for record `i`: select its
   * samples and, when there are any, write their mean into the record.
   * `found` is false where the source throws.
   */
  method AnnotateOne(inputs: array<Input>, samples: seq<Sample>, i: nat) returns (found: bool)
    requires i < inputs.Length
    modifies inputs
    ensures var m := IntensityOf(samples, old(inputs[i]));
      && found == m.Some?
      && inputs[..] == if found then old(inputs[..])[i := old(inputs[i]).(carbonIntensity := m)] else old(inputs[..])
  {
    ghost var u := inputs[i];
    var start := inputs[i].timestamp;
    var selected := DataForDuration(samples, start, start + inputs[i].duration);
    IntensityOfSelected(samples, u, selected);
    if |selected| == 0 {
      return false;
    }
    inputs[i] := inputs[i].(carbonIntensity := Some(Mean(selected)));
    found := true;
  }

  /**
   * The `map` of `execute`: for each record in order, select its samples,
   * throw `NoData(i)` when there are none, and otherwise write their mean
   * into the record. On success a new array comes back, holding the same
   * (now annotated) records in the same order.
   */
  method Annotate(inputs: array<Input>, samples: seq<Sample>) returns (r: Result<array<Input>, Error>)
    modifies inputs
    ensures var ms := Means(samples, old(inputs[..]));
      && r.Success? == Collect(ms).Success?
      && (r.Failure? ==> r.error == Collect(ms).error)
      && inputs[..] == WithIntensities(old(inputs[..]), WrittenPrefix(ms))
    ensures r.Success? ==> fresh(r.value) && r.value[..] == inputs[..]
  {
    ghost var us := inputs[..];
    ghost var ms := Means(samples, us);
    ghost var vs: seq<real> := [];
    var i := 0;
    while i < inputs.Length
      invariant 0 <= i <= inputs.Length && |vs| == i
      invariant forall k :: 0 <= k < i ==> ms[k] == Some(vs[k])
      invariant inputs[..] == WithIntensities(us, vs)
    {
      MeansAt(samples, us, i);
      assert inputs[i] == us[i];
      var found := AnnotateOne(inputs, samples, i);
      if !found {
        WrittenIs(ms, vs);
        return Failure(NoData(i));
      }
      WithOneMore(us, vs, ms[i].value);
      vs := vs + [ms[i].value];
      i := i + 1;
    }
    WrittenIs(ms, vs);
    var mapped := Copy(inputs);
    r := Success(mapped);
  }

  /** The new array `map` returns: the same records, in the same order. */
  method Copy(inputs: array<Input>) returns (mapped: array<Input>)
    ensures fresh(mapped) && mapped[..] == inputs[..]
  {
    mapped := new Input[inputs.Length](k requires 0 <= k < inputs.Length reads inputs => inputs[k]);
  }

  /**
   * `execute`: validate, fetch once, then annotate every record in order.
   * `request` is the query sent upstream, if any.
   */
  method Execute(inputs: array<Input>, source: Source)
      returns (r: Result<array<Input>, Error>, request: Option<FetchParams>)
    modifies inputs
    ensures var run := Run(old(inputs[..]), source);
      && request == run.request
      && r.Success? == run.result.Success?
      && (r.Failure? ==> r.error == run.result.error)
      && inputs[..] == WithIntensities(old(inputs[..]), run.written)
    ensures r.Success? ==> fresh(r.value) && r.value[..] == inputs[..]
  {
    var valid := ValidateInputs(inputs);
    if valid.Fail? {
      return Failure(valid.error), None;
    }
    var data;
    data, request := GetWattTimeData(inputs, source);
    if data.Failure? {
      return Failure(data.error), request;
    }
    r := Annotate(inputs, data.value);
  }

  // ------------------------------------------------------------ lemmas

  /** Entry `k` of `Means` is the intensity of record `k`. */
  lemma {:induction false} MeansAt(samples: seq<Sample>, us: seq<Input>, k: int)
    requires 0 <= k < |us|
    ensures Means(samples, us)[k] == IntensityOf(samples, us[k])
  {
    var n := |us| - 1;
    var init := Means(samples, us[..n]);
    assert Means(samples, us) == init + [IntensityOf(samples, us[n])];
    if k < n {
      MeansAt(samples, us[..n], k);
      assert us[..n][k] == us[k];
      assert (init + [IntensityOf(samples, us[n])])[k] == init[k];
    }
  }

  /** The intensity of a window is the mean of its selected readings, if there are any. */
  lemma IntensityOfSelected(samples: seq<Sample>, u: Input, selected: seq<real>)
    requires selected == Select(samples, u.timestamp, End(u))
    ensures IntensityOf(samples, u) == if |selected| == 0 then None else Some(Mean(selected))
  {
  }

  /** Writing one more intensity updates exactly the next record. */
  lemma WithOneMore(us: seq<Input>, vs: seq<real>, v: real)
    requires |vs| < |us|
    ensures WithIntensities(us, vs + [v])
         == WithIntensities(us, vs)[|vs| := us[|vs|].(carbonIntensity := Some(v))]
  {
    assert (vs + [v])[..|vs|] == vs;
  }

  /**
   * When `vs` are the values of the first `|vs|` windows, and window `|vs|`
   * is empty or past the end, `vs` is what `execute` writes.
   */
  lemma WrittenIs(ms: seq<Option<real>>, vs: seq<real>)
    requires |vs| <= |ms|
    requires forall k :: 0 <= k < |vs| ==> ms[k] == Some(vs[k])
    requires |vs| < |ms| ==> ms[|vs|].None?
    ensures WrittenPrefix(ms) == vs
  {
    var w := WrittenPrefix(ms);
    assert !(|w| < |vs|) && !(|vs| < |w|);
  }
}
