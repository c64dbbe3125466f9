/**
 * `calculateStartDurationTime`: one fold over the inputs that keeps the
 * earliest start and the latest end, starting from two sentinel dates, and
 * the 32-day limit on the span that fold yields.
 */
module IntervalMerger {

  import opened Wrappers
  import opened Records

  /** `dayjs('9999-12-31')`, the initial start of the fold. */
  const SentinelStart: int := 253402214400
  /** `dayjs('1970-01-01')`, the initial end of the fold. */
  const SentinelEnd: int := 0
  /** The longest window the WattTime API serves: 32 days. */
  const MaxFetchSeconds: int := 32 * 24 * 60 * 60

  /** The fold's accumulator `{startTime, endtime}`. */
  datatype Span = Span(startTime: int, endTime: int)

  /** The value `calculateStartDurationTime` returns. */
  datatype StartDuration = StartDuration(startTime: int, fetchDuration: int)

  function Min(a: int, b: int): int { if a <= b then a else b }
  function Max(a: int, b: int): int { if a >= b then a else b }

  /** One step of the fold: strict `isBefore` / `isAfter` comparisons. */
  function Step(acc: Span, u: Input): (r: Span)
    ensures r.startTime == Min(acc.startTime, u.timestamp)
    ensures r.endTime == Max(acc.endTime, End(u))
  {
    var startTime := if u.timestamp < acc.startTime then u.timestamp else acc.startTime;
    var endTime := if End(u) > acc.endTime then End(u) else acc.endTime;
    Span(startTime, endTime)
  }

  /** `inputs.reduce(step, acc)`: a left fold. */
  function Fold(us: seq<Input>, acc: Span): Span
    decreases |us|
  {
    if us == [] then acc else Fold(us[1..], Step(acc, us[0]))
  }

  /** The window the plugin fetches for a batch. */
  function MergedWindow(us: seq<Input>): Span
  {
    Fold(us, Span(SentinelStart, SentinelEnd))
  }

  /** Reference definition: the least `timestamp` of a non-empty batch. */
  function MinTimestamp(us: seq<Input>): (m: int)
    requires |us| > 0
    ensures forall i :: 0 <= i < |us| ==> m <= us[i].timestamp
    ensures exists i :: 0 <= i < |us| && m == us[i].timestamp
  {
    if |us| == 1 then us[0].timestamp
    else
      var m := MinTimestamp(us[1..]);
      assert forall i :: 1 <= i < |us| ==> us[1..][i - 1] == us[i];
      Min(us[0].timestamp, m)
  }

  /** Reference definition: the greatest `timestamp + duration` of a non-empty batch. */
  function MaxEnd(us: seq<Input>): (m: int)
    requires |us| > 0
    ensures forall i :: 0 <= i < |us| ==> End(us[i]) <= m
    ensures exists i :: 0 <= i < |us| && m == End(us[i])
  {
    if |us| == 1 then End(us[0])
    else
      var m := MaxEnd(us[1..]);
      assert forall i :: 1 <= i < |us| ==> us[1..][i - 1] == us[i];
      Max(End(us[0]), m)
  }

  /**
   * `calculateStartDurationTime`: the merged start and the span in seconds,
   * or `SpanTooLong` when the span exceeds 32 days. A span of exactly
   * 2,764,800 seconds is accepted.
   */
  function CalculateStartDuration(us: seq<Input>): (r: Result<StartDuration, Error>)
    ensures r.Failure? <==> MergedWindow(us).endTime - MergedWindow(us).startTime > 2764800
    ensures r.Failure? ==> r.error == SpanTooLong(MergedWindow(us).endTime - MergedWindow(us).startTime)
    ensures r.Success? ==>
      && r.value.startTime == MergedWindow(us).startTime
      && r.value.startTime + r.value.fetchDuration == MergedWindow(us).endTime
  {
    var w := MergedWindow(us);
    var fetchDuration := w.endTime - w.startTime;
    if fetchDuration > MaxFetchSeconds then Failure(SpanTooLong(fetchDuration))
    else Success(StartDuration(w.startTime, fetchDuration))
  }

  /** The fold computes the minimum start and the maximum end, the accumulator included. */
  lemma {:induction false} FoldIsMinMax(us: seq<Input>, acc: Span)
    requires |us| > 0
    ensures Fold(us, acc) == Span(Min(acc.startTime, MinTimestamp(us)), Max(acc.endTime, MaxEnd(us)))
    decreases |us|
  {
    if |us| > 1 {
      FoldIsMinMax(us[1..], Step(acc, us[0]));
    }
  }

  /**
   * For a non-empty batch the merged window runs from the least timestamp
   * to the greatest end, clipped by the two sentinels.
   */
  lemma MergedWindowIsMinMax(us: seq<Input>)
    requires |us| > 0
    ensures MergedWindow(us).startTime == Min(SentinelStart, MinTimestamp(us))
    ensures MergedWindow(us).endTime == Max(SentinelEnd, MaxEnd(us))
  {
    FoldIsMinMax(us, Span(SentinelStart, SentinelEnd));
  }

  /** Inside the sentinels the merged window is exactly [min timestamp, max end]. */
  lemma MergedWindowWithinSentinels(us: seq<Input>)
    requires |us| > 0
    requires forall i :: 0 <= i < |us| ==> us[i].timestamp <= SentinelStart
    requires exists i :: 0 <= i < |us| && End(us[i]) >= SentinelEnd
    ensures MergedWindow(us) == Span(MinTimestamp(us), MaxEnd(us))
  {
    MergedWindowIsMinMax(us);
  }

  /** Every input window lies inside the merged window. */
  lemma MergedWindowCovers(us: seq<Input>, i: int)
    requires 0 <= i < |us|
    ensures MergedWindow(us).startTime <= us[i].timestamp
    ensures End(us[i]) <= MergedWindow(us).endTime
  {
    MergedWindowIsMinMax(us);
  }

  /** The merged window does not depend on the order of the inputs. */
  lemma MergedWindowPermutation(us: seq<Input>, vs: seq<Input>)
    requires multiset(us) == multiset(vs)
    ensures MergedWindow(us) == MergedWindow(vs)
  {
    if |us| == 0 {
      assert vs == [];
    } else {
      assert |vs| == |us| by { assert |multiset(vs)| == |multiset(us)|; }
      MergedWindowIsMinMax(us);
      MergedWindowIsMinMax(vs);
      MinAndMaxAgree(us, vs);
    }
  }

  /** Batches with the same elements have the same least timestamp and greatest end. */
  lemma MinAndMaxAgree(us: seq<Input>, vs: seq<Input>)
    requires |us| > 0 && |vs| > 0
    requires multiset(us) == multiset(vs)
    ensures MinTimestamp(vs) == MinTimestamp(us)
    ensures MaxEnd(us) == MaxEnd(vs)
  {
    var i :| 0 <= i < |us| && MinTimestamp(us) == us[i].timestamp;
    assert us[i] in multiset(vs);
    var j :| 0 <= j < |us| && MaxEnd(us) == End(us[j]);
    assert us[j] in multiset(vs);
    var i' :| 0 <= i' < |vs| && MinTimestamp(vs) == vs[i'].timestamp;
    assert vs[i'] in multiset(us);
    var j' :| 0 <= j' < |vs| && MaxEnd(vs) == End(vs[j']);
    assert vs[j'] in multiset(us);
  }
}
