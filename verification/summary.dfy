/**
 The counting part of the summary printed after a run: successful and failed
 totals, the per-category and per-status counters, and the average latency
 over the successful records. Printing and formatting are not modelled.
 */
module Summary {
  import opened Optional
  import opened Catalog
  import opened Request
  import opened Pool
  import opened Tally
  import opened Simulation

  datatype Report = Report(
    total: nat,
    successful: nat,
    failed: nat,
    byCategory: Counter<string>,
    byStatus: Counter<int>,
    averageLatencyMs: Option<real>)

  /** The number of records whose `success` is true. */
  function CountSuccessful(results: seq<Record>): nat
  {
    if |results| == 0 then 0
    else (if results[0].success then 1 else 0) + CountSuccessful(results[1..])
  }

  /** The number of records whose `success` is false, counted directly. */
  function CountFailed(results: seq<Record>): nat
  {
    if |results| == 0 then 0
    else (if results[0].success then 0 else 1) + CountFailed(results[1..])
  }

  /** Every record is either counted as successful or as failed, never both. */
  lemma {:induction false} SuccessFailedSplit(results: seq<Record>)
    ensures CountSuccessful(results) + CountFailed(results) == |results|
    decreases |results|
  {
    if |results| > 0 {
      SuccessFailedSplit(results[1..]);
    }
  }

  /** All records succeeded exactly when the successful count is the length. */
  lemma {:induction false} AllSuccessfulIff(results: seq<Record>)
    ensures CountSuccessful(results) == |results| <==> forall i :: 0 <= i < |results| ==> results[i].success
    decreases |results|
  {
    if |results| > 0 {
      AllSuccessfulIff(results[1..]);
      SuccessFailedSplit(results[1..]);
      assert forall i :: 1 <= i < |results| ==> results[i] == results[1..][i - 1];
    }
  }

  /** No record succeeded exactly when the successful count is zero. */
  lemma {:induction false} NoneSuccessfulIff(results: seq<Record>)
    ensures CountSuccessful(results) == 0 <==> forall i :: 0 <= i < |results| ==> !results[i].success
    decreases |results|
  {
    if |results| > 0 {
      NoneSuccessfulIff(results[1..]);
      assert forall i :: 1 <= i < |results| ==> results[i] == results[1..][i - 1];
    }
  }

  /** The category of each record, in order. */
  function Categories(results: seq<Record>): seq<string>
  {
    seq(|results|, i requires 0 <= i < |results| => results[i].category)
  }

  /** The status of each record, in order. */
  function Statuses(results: seq<Record>): seq<int>
  {
    seq(|results|, i requires 0 <= i < |results| => results[i].status)
  }

  /** The elapsed time of a record, read as 0 when the record has none. */
  function ElapsedOrZero(r: Record): real
  {
    match r.elapsedMs
    case Some(v) => v
    case None => 0.0
  }

  /** The elapsed times of the successful records, in record order. */
  function LatencySamples(results: seq<Record>): seq<real>
  {
    if |results| == 0 then []
    else (if results[0].success then [ElapsedOrZero(results[0])] else []) + LatencySamples(results[1..])
  }

  /**
   One latency sample is taken per successful record: every sample is the
   elapsed time of a successful record, and every successful record's elapsed
   time is among the samples.
   */
  lemma {:induction false} LatencySamplesFromSuccesses(results: seq<Record>)
    ensures |LatencySamples(results)| == CountSuccessful(results)
    ensures forall x :: x in LatencySamples(results) ==> exists r :: r in results && r.success && ElapsedOrZero(r) == x
    ensures forall i :: 0 <= i < |results| && results[i].success ==> ElapsedOrZero(results[i]) in LatencySamples(results)
    decreases |results|
  {
    if |results| > 0 {
      LatencySamplesFromSuccesses(results[1..]);
      forall r | r in results[1..] ensures r in results { }
      forall i | 1 <= i < |results| && results[i].success ensures ElapsedOrZero(results[i]) in LatencySamples(results) {
        assert results[1..][i - 1] == results[i];
      }
    }
  }

  /**
   The samples of consecutive record lists are the concatenation of their
   samples, so each successful record contributes its own sample, in order.
   */
  lemma {:induction false} LatencySamplesAppend(a: seq<Record>, b: seq<Record>)
    ensures LatencySamples(a + b) == LatencySamples(a) + LatencySamples(b)
    decreases |a|
  {
    if |a| == 0 {
      assert a + b == b;
    } else {
      var head := if a[0].success then [ElapsedOrZero(a[0])] else [];
      calc {
        LatencySamples(a + b);
        { assert (a + b)[0] == a[0]; }
        head + LatencySamples((a + b)[1..]);
        { assert (a + b)[1..] == a[1..] + b; }
        head + LatencySamples(a[1..] + b);
        { LatencySamplesAppend(a[1..], b); }
        head + (LatencySamples(a[1..]) + LatencySamples(b));
        LatencySamples(a) + LatencySamples(b);
      }
    }
  }

  function SumReal(xs: seq<real>): real
  {
    if |xs| == 0 then 0.0 else xs[0] + SumReal(xs[1..])
  }

  /** A sum of values lying in `[lo, hi]` lies between `|xs| * lo` and `|xs| * hi`. */
  lemma {:induction false} SumRealBounds(xs: seq<real>, lo: real, hi: real)
    requires forall x :: x in xs ==> lo <= x <= hi
    ensures (|xs| as real) * lo <= SumReal(xs) <= (|xs| as real) * hi
    decreases |xs|
  {
    if |xs| > 0 {
      assert xs[0] in xs;
      assert forall x :: x in xs[1..] ==> x in xs;
      SumRealBounds(xs[1..], lo, hi);
      var m := |xs[1..]| as real;
      assert (|xs| as real) * lo == m * lo + lo;
      assert (|xs| as real) * hi == m * hi + hi;
    }
  }

  /**
   The average response time over the latency samples; absent when there are
   none (and so also when there are no records at all).
   */
  function AverageLatency(results: seq<Record>): (avg: Option<real>)
    ensures avg.Some? <==> LatencySamples(results) != []
    ensures avg.Some? ==> avg.value * (|LatencySamples(results)| as real) == SumReal(LatencySamples(results))
  {
    if |results| == 0 then None
    else
      var samples := LatencySamples(results);
      if |samples| == 0 then None
      else Some(SumReal(samples) / (|samples| as real))
  }

  /** A mean of `n` values whose sum lies in `[n * lo, n * hi]` lies in `[lo, hi]`. */
  lemma MeanBounds(sum: real, n: real, lo: real, hi: real)
    requires n > 0.0 && n * lo <= sum <= n * hi
    ensures lo <= sum / n <= hi
  {
  }

  /** The average lies between any lower and upper bound of the latency samples. */
  lemma AverageLatencyBounds(results: seq<Record>, lo: real, hi: real)
    requires forall x :: x in LatencySamples(results) ==> lo <= x <= hi
    ensures AverageLatency(results).Some? ==> lo <= AverageLatency(results).value <= hi
  {
    var samples := LatencySamples(results);
    if |samples| > 0 {
      var n := |samples| as real;
      SumRealBounds(samples, lo, hi);
      MeanBounds(SumReal(samples), n, lo, hi);
    }
  }

  /** The tallies of `print_summary`. */
  function Summarize(results: seq<Record>): (s: Report)
    ensures s.total == |results|
    ensures s.successful + s.failed == s.total
    ensures s.failed == CountFailed(results)
    ensures Valid(s.byCategory) && Total(s.byCategory) == s.total
    ensures forall c :: Get(s.byCategory, c) == multiset(Categories(results))[c]
    ensures forall c :: c in Keys(s.byCategory) <==> c in Categories(results)
    ensures Valid(s.byStatus) && Total(s.byStatus) == s.total
    ensures forall st :: Get(s.byStatus, st) == multiset(Statuses(results))[st]
    ensures forall st :: st in Keys(s.byStatus) <==> st in Statuses(results)
    ensures s.averageLatencyMs.Some? <==> s.successful > 0
    ensures s.averageLatencyMs == AverageLatency(results)
  {
    var successful := CountSuccessful(results);
    SuccessFailedSplit(results);
    LatencySamplesFromSuccesses(results);
    var byCategory := Count(Categories(results));
    var byStatus := Count(Statuses(results));
    CountTotal(Categories(results));
    CountTotal(Statuses(results));
    CountKeys(Categories(results));
    CountKeys(Statuses(results));
    assert forall c :: Get(byCategory, c) == multiset(Categories(results))[c] by {
      forall c { CountGet(Categories(results), c); }
    }
    assert forall st :: Get(byStatus, st) == multiset(Statuses(results))[st] by {
      forall st { CountGet(Statuses(results), st); }
    }
    Report(|results|, successful, |results| - successful, byCategory, byStatus, AverageLatency(results))
  }

  /**
   Records that all succeeded with one status, whatever that status is: all are
   counted as successful, the status counter is the single entry (status, n),
   and an average is reported.
   */
  lemma UniformResponseSummary(results: seq<Record>, status: int)
    requires |results| > 0
    requires forall i :: 0 <= i < |results| ==> results[i].success && results[i].status == status
    ensures var s := Summarize(results);
            && s.successful == |results| && s.failed == 0
            && s.byStatus == [Entry(status, |results|)]
            && s.averageLatencyMs.Some?
  {
    AllSuccessfulIff(results);
    assert Statuses(results) == seq(|results|, _ => status);
    CountConstant(status, |results|);
  }

  /**
   Records that all failed with status 0: all are counted as failed, the status
   counter is the single entry (0, n), and no average is reported.
   */
  lemma AllFailedSummary(results: seq<Record>)
    requires |results| > 0
    requires forall i :: 0 <= i < |results| ==> !results[i].success && results[i].status == 0
    ensures var s := Summarize(results);
            && s.successful == 0 && s.failed == |results|
            && s.byStatus == [Entry(0, |results|)]
            && s.averageLatencyMs.None?
  {
    NoneSuccessfulIff(results);
    assert Statuses(results) == seq(|results|, _ => 0);
    CountConstant(0, |results|);
  }

  /**
   A transport that answers every request with the same status, even a
   non-2xx one: every record counts as successful and the status counter
   holds that one status with the full count.
   */
  lemma AllRespondSummary(table: seq<CategoryEntry>, url: string, count: nat, categories: seq<string>, draws: seq<Draw>, status: int)
    requires DrawsCover(draws, |PoolOf(table, categories)|, count)
    requires PoolOf(table, categories) != [] && count > 0
    requires forall i :: 0 <= i < count ==> draws[i].reply.Response? && draws[i].reply.status == status
    ensures var s := Summarize(Simulate(table, url, count, categories, draws));
            && s.total == count && s.successful == count && s.failed == 0
            && s.byStatus == [Entry(status, count)]
            && s.averageLatencyMs.Some?
  {
    var results := Simulate(table, url, count, categories, draws);
    forall i | 0 <= i < count ensures results[i].success && results[i].status == status {
      SimulateReplies(table, url, count, categories, draws, i);
    }
    UniformResponseSummary(results, status);
  }

  /**
   A transport that fails every request: every record counts as failed with
   status 0 and no average latency is reported.
   */
  lemma AllFailSummary(table: seq<CategoryEntry>, url: string, count: nat, categories: seq<string>, draws: seq<Draw>)
    requires DrawsCover(draws, |PoolOf(table, categories)|, count)
    requires PoolOf(table, categories) != [] && count > 0
    requires forall i :: 0 <= i < count ==> draws[i].reply.TransportError?
    ensures var s := Summarize(Simulate(table, url, count, categories, draws));
            && s.total == count && s.successful == 0 && s.failed == count
            && s.byStatus == [Entry(0, count)]
            && s.averageLatencyMs.None?
  {
    var results := Simulate(table, url, count, categories, draws);
    forall i | 0 <= i < count ensures !results[i].success && results[i].status == 0 {
      SimulateReplies(table, url, count, categories, draws, i);
    }
    AllFailedSummary(results);
  }
}
