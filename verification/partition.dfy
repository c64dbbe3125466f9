/**
 * Window partitioning (`getWattTimeDataForDuration`) and the per-input
 * average that `execute` computes from it. The fetched series is cut into
 * the half-open window `[start, end)` of one input; each kept reading is
 * divided by `KilogramsPerPound`, as index.ts:86 does, and the input's
 * carbon intensity is the arithmetic mean of the divided readings.
 */
module WindowPartition {

  import opened Wrappers
  import opened Records

  /**
   * Kilograms per pound, the source's `kgMWh`. The source divides every
   * lbs/MWh reading by it; a conversion to kg/MWh would multiply instead,
   * so the model keeps the division and calls it nothing more.
   */
  const KilogramsPerPound: real := 0.45359237

  /**
   * The source's three-part test: the sample is not before `start`, not
   * after `end`, and not at `end`. It is the half-open window `[start, end)`.
   */
  function InWindow(t: int, start: int, end: int): (b: bool)
    ensures b <==> start <= t < end
  {
    !(t < start) && !(t > end) && t != end
  }

  /** The samples that fall into `[start, end)`, in their fetched order. */
  function Kept(samples: seq<Sample>, start: int, end: int): (r: seq<Sample>)
    ensures |r| <= |samples|
    ensures forall x :: x in r <==> x in samples && start <= x.pointTime < end
  {
    if samples == [] then []
    else
      var n := |samples| - 1;
      assert samples == samples[..n] + [samples[n]];
      var init := Kept(samples[..n], start, end);
      if InWindow(samples[n].pointTime, start, end) then init + [samples[n]] else init
  }

  /** Each kept reading divided by `KilogramsPerPound`. */
  function Converted(kept: seq<Sample>): (r: seq<real>)
    ensures |r| == |kept|
    ensures forall k :: 0 <= k < |r| ==> r[k] * KilogramsPerPound == kept[k].value
  {
    if kept == [] then []
    else
      var n := |kept| - 1;
      Converted(kept[..n]) + [kept[n].value / KilogramsPerPound]
  }

  /**
   * What `getWattTimeDataForDuration` returns for one window: the samples
   * in their fetched order, each one inside the window pushed divided by
   * `KilogramsPerPound`.
   */
  function Select(samples: seq<Sample>, start: int, end: int): seq<real>
  {
    if samples == [] then []
    else
      var n := |samples| - 1;
      Select(samples[..n], start, end)
        + if InWindow(samples[n].pointTime, start, end) then [samples[n].value / KilogramsPerPound] else []
  }

  /**
   * The reduce of `getWattTimeDataForDuration`: walk the samples in order
   * and push the divided value of each one inside the window.
   */
  method DataForDuration(samples: seq<Sample>, start: int, end: int) returns (acc: seq<real>)
    ensures acc == Select(samples, start, end)
    ensures acc == Converted(Kept(samples, start, end))
  {
    acc := [];
    var i := 0;
    while i < |samples|
      invariant 0 <= i <= |samples|
      invariant acc == Select(samples[..i], start, end)
    {
      assert samples[..i + 1][..i] == samples[..i];
      var t := samples[i].pointTime;
      if !(t < start) && !(t > end) && t != end {
        acc := acc + [samples[i].value / KilogramsPerPound];
      }
      i := i + 1;
    }
    assert samples[..i] == samples;
    SelectIsConvertedKept(samples, start, end);
  }

  /**
   * The pushed readings are the kept samples divided one by one: the
   * selection keeps exactly the in-window samples, in their fetched order.
   */
  lemma {:induction false} SelectIsConvertedKept(samples: seq<Sample>, start: int, end: int)
    ensures Select(samples, start, end) == Converted(Kept(samples, start, end))
  {
    if samples != [] {
      var n := |samples| - 1;
      SelectIsConvertedKept(samples[..n], start, end);
      var kept := Kept(samples[..n], start, end);
      if InWindow(samples[n].pointTime, start, end) {
        assert (kept + [samples[n]])[..|kept|] == kept;
      }
    }
  }

  /** Left-to-right sum, as `reduce((a, b) => a + b, 0)`. */
  function Sum(xs: seq<real>): real
  {
    if xs == [] then 0.0 else Sum(xs[..|xs| - 1]) + xs[|xs| - 1]
  }

  /** The sum divided by the count. */
  function Mean(xs: seq<real>): real
    requires |xs| > 0
  {
    Sum(xs) / (|xs| as real)
  }

  /**
   * The carbon intensity of one input window: `None` when the window
   * selects nothing (the source then throws), otherwise the mean.
   */
  function WindowMean(samples: seq<Sample>, start: int, end: int): Option<real>
  {
    var data := Select(samples, start, end);
    if |data| == 0 then None else Some(Mean(data))
  }

  /** The positions of the samples that lie in `[start, end)`. */
  function InWindowIndices(samples: seq<Sample>, start: int, end: int): set<int>
  {
    set j | 0 <= j < |samples| && start <= samples[j].pointTime < end
  }

  // ------------------------------------------------------------ lemmas

  /** Partitioning distributes over concatenation: the kept order is the fetched order. */
  lemma {:induction false} KeptAppend(a: seq<Sample>, b: seq<Sample>, start: int, end: int)
    ensures Kept(a + b, start, end) == Kept(a, start, end) + Kept(b, start, end)
    decreases |b|
  {
    if b == [] {
      assert a + b == a;
    } else {
      var n := |b| - 1;
      assert (a + b)[..|a + b| - 1] == a + b[..n];
      assert (a + b)[|a + b| - 1] == b[n];
      KeptAppend(a, b[..n], start, end);
    }
  }

  /** A single sample is kept exactly when it lies in the window. */
  lemma KeptSingle(x: Sample, start: int, end: int)
    ensures Kept([x], start, end) == if start <= x.pointTime < end then [x] else []
  {
    assert [x][..0] == [];
  }

  /** The number of kept samples is the number of indices whose sample is in the window. */
  lemma {:induction false} KeptLength(samples: seq<Sample>, start: int, end: int)
    ensures |Kept(samples, start, end)| == |InWindowIndices(samples, start, end)|
  {
    if samples == [] {
      assert InWindowIndices(samples, start, end) == {};
    } else {
      var n := |samples| - 1;
      KeptLength(samples[..n], start, end);
      IndicesOfSnoc(samples, start, end);
    }
  }

  /** Removing the last sample removes at most its own index. */
  lemma IndicesOfSnoc(samples: seq<Sample>, start: int, end: int)
    requires |samples| > 0
    ensures var n := |samples| - 1;
            InWindowIndices(samples, start, end)
            == InWindowIndices(samples[..n], start, end)
               + (if start <= samples[n].pointTime < end then {n} else {})
    ensures |samples| - 1 !in InWindowIndices(samples[..|samples| - 1], start, end)
  {
    var n := |samples| - 1;
    var init := samples[..n];
    var a := InWindowIndices(init, start, end);
    var b := InWindowIndices(samples, start, end);
    var last := if start <= samples[n].pointTime < end then {n} else {};
    forall j | j in b ensures j in a + last {
      if j < n { assert init[j] == samples[j]; }
    }
    forall j | j in a + last ensures j in b {
      if j < n { assert init[j] == samples[j]; }
    }
  }

  /**
   * Adjacent windows `[lo, mid)` and `[mid, hi)` split `[lo, hi)` between
   * them: every sample is counted once, and one at `mid` only in the second.
   */
  lemma {:induction false} KeptAdjacent(samples: seq<Sample>, lo: int, mid: int, hi: int)
    requires lo <= mid <= hi
    ensures multiset(Kept(samples, lo, mid)) + multiset(Kept(samples, mid, hi))
         == multiset(Kept(samples, lo, hi))
    ensures forall x :: x in samples && x.pointTime == mid && mid < hi
                     ==> x !in Kept(samples, lo, mid) && x in Kept(samples, mid, hi)
  {
    if samples != [] {
      var n := |samples| - 1;
      KeptAdjacent(samples[..n], lo, mid, hi);
    }
  }

  /** A window has no intensity exactly when no sample falls into it. */
  lemma WindowMeanEmpty(samples: seq<Sample>, start: int, end: int)
    ensures WindowMean(samples, start, end).None? <==> forall x :: x in samples ==> !(start <= x.pointTime < end)
  {
    SelectIsConvertedKept(samples, start, end);
    var kept := Kept(samples, start, end);
    if kept != [] {
      assert kept[0] in kept;
    }
  }

  /** Every element of `xs` lies in `[lo, hi]`, so the sum lies in `[n * lo, n * hi]`. */
  lemma {:induction false} SumBounds(xs: seq<real>, lo: real, hi: real)
    requires forall k :: 0 <= k < |xs| ==> lo <= xs[k] <= hi
    ensures (|xs| as real) * lo <= Sum(xs) <= (|xs| as real) * hi
  {
    if xs != [] {
      SumBounds(xs[..|xs| - 1], lo, hi);
    }
  }

  /** The mean lies between the smallest and the largest bound of the readings. */
  lemma MeanBounds(xs: seq<real>, lo: real, hi: real)
    requires |xs| > 0
    requires forall k :: 0 <= k < |xs| ==> lo <= xs[k] <= hi
    ensures lo <= Mean(xs) <= hi
  {
    SumBounds(xs, lo, hi);
    DivideBounds(|xs| as real, Sum(xs), lo, hi);
  }

  /** Dividing `n * lo <= s <= n * hi` by a positive `n`. */
  lemma DivideBounds(n: real, s: real, lo: real, hi: real)
    requires n > 0.0 && n * lo <= s <= n * hi
    ensures lo <= s / n <= hi
  {
    assert s == n * (s / n);
  }

  /**
   * When every raw reading in the window lies in `[lo, hi]` lbs/MWh, the
   * intensity lies in `[lo, hi]` divided by `KilogramsPerPound`.
   */
  lemma WindowMeanBounds(samples: seq<Sample>, start: int, end: int, lo: real, hi: real)
    requires forall x :: x in samples && start <= x.pointTime < end ==> lo <= x.value <= hi
    ensures WindowMean(samples, start, end).Some?
        ==> lo / KilogramsPerPound <= WindowMean(samples, start, end).value <= hi / KilogramsPerPound
  {
    SelectIsConvertedKept(samples, start, end);
    var kept := Kept(samples, start, end);
    var data := Select(samples, start, end);
    if |data| > 0 {
      forall k | 0 <= k < |data|
        ensures lo / KilogramsPerPound <= data[k] <= hi / KilogramsPerPound
      {
        assert kept[k] in kept;
        assert data[k] == kept[k].value / KilogramsPerPound;
      }
      MeanBounds(data, lo / KilogramsPerPound, hi / KilogramsPerPound);
    }
  }

  // ------------------------------------------------------------ examples

  /**
   * Three half-hourly readings at 10:00, 10:30 and 11:00 (400, 600 and
   * 800 lbs/MWh) against the window 10:00-11:00: the first two are kept,
   * the one at the window's end is not, and the intensity is their mean.
   */
  lemma ExampleHalfOpenWindow(samples: seq<Sample>)
    requires samples == [Sample(36000, 400.0), Sample(37800, 600.0), Sample(39600, 800.0)]
    ensures Kept(samples, 36000, 39600) == samples[..2]
    ensures WindowMean(samples, 36000, 39600) == Some(500.0 / KilogramsPerPound)
  {
    assert samples[..2][..1] == [samples[0]];
    assert samples[..1][..0] == [];
    assert Kept(samples, 36000, 39600) == samples[..2];
    var data := Select(samples, 36000, 39600);
    assert Select(samples[..1], 36000, 39600) == [400.0 / KilogramsPerPound];
    assert Select(samples[..2], 36000, 39600) == [400.0 / KilogramsPerPound, 600.0 / KilogramsPerPound];
    assert samples[..3 - 1] == samples[..2];
    assert data == [400.0 / KilogramsPerPound, 600.0 / KilogramsPerPound];
    assert data[..1] == [data[0]];
    assert [data[0]][..0] == [];
    assert Sum(data[..1]) == data[0];
  }
}
