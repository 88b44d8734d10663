/** src/modules/LighthouseRunner.js: one measurement with retry-via-restart,
    a batch of measurements, metric extraction and averaging. */
module Lighthouse {
  import opened Wrappers
  import opened Externals
  import opened Config
  import opened Chrome

  // ---------------------------------------------------------------------
  // Metric samples
  // ---------------------------------------------------------------------

  /** fcp, lcp, tbt and si in milliseconds; cls dimensionless. */
  datatype Metrics = Metrics(fcp: real, lcp: real, tbt: real, cls: real, si: real)

  datatype MetricKind = Fcp | Lcp | Tbt | Cls | Si

  function Get(m: Metrics, k: MetricKind): real
  {
    match k
    case Fcp => m.fcp
    case Lcp => m.lcp
    case Tbt => m.tbt
    case Cls => m.cls
    case Si => m.si
  }

  function Add(a: Metrics, b: Metrics): Metrics
  {
    Metrics(a.fcp + b.fcp, a.lcp + b.lcp, a.tbt + b.tbt, a.cls + b.cls, a.si + b.si)
  }

  /** The all-zero sample: the reduce's initial accumulator and the stand-in
      for a measurement whose retries ran out. */
  function DefaultMetrics(): (z: Metrics)
    ensures forall k :: Get(z, k) == 0.0
    ensures forall m :: Add(z, m) == m
  {
    Metrics(0.0, 0.0, 0.0, 0.0, 0.0)
  }

  // ---------------------------------------------------------------------
  // extractMetrics
  // ---------------------------------------------------------------------

  /** `audits[id]?.numericValue || 0`: the value when the audit exists and its
      numericValue is truthy (a number other than 0 and NaN), else 0. */
  function AuditValue(audits: map<string, Audit>, id: string): real
  {
    if id in audits && audits[id].numericValue.Num? && audits[id].numericValue.v != 0.0
    then audits[id].numericValue.v
    else 0.0
  }

  /** x is what the audit reports when it reports a number, and 0 when the
      audit is missing or its value is undefined or NaN. */
  ghost predicate Reports(audits: map<string, Audit>, id: string, x: real)
  {
    if id in audits && audits[id].numericValue.Num?
    then x == audits[id].numericValue.v
    else x == 0.0
  }

  function ExtractMetrics(lhr: Lhr): (m: Metrics)
    ensures Reports(lhr.audits, FcpAudit, m.fcp)
    ensures Reports(lhr.audits, LcpAudit, m.lcp)
    ensures Reports(lhr.audits, TbtAudit, m.tbt)
    ensures Reports(lhr.audits, ClsAudit, m.cls)
    ensures Reports(lhr.audits, SiAudit, m.si)
  {
    Metrics(AuditValue(lhr.audits, FcpAudit), AuditValue(lhr.audits, LcpAudit),
            AuditValue(lhr.audits, TbtAudit), AuditValue(lhr.audits, ClsAudit),
            AuditValue(lhr.audits, SiAudit))
  }

  // ---------------------------------------------------------------------
  // calculateAverage
  // ---------------------------------------------------------------------

  /** `results.reduce((acc, r) => acc + r, default)`: a left fold. */
  function Total(rs: seq<Metrics>): Metrics
  {
    if rs == [] then DefaultMetrics() else Add(Total(rs[..|rs| - 1]), rs[|rs| - 1])
  }

  /** Math.round: the nearest integer, halves rounded up. */
  function MathRound(x: real): int
  {
    (x + 0.5).Floor
  }

  /** Math.round(x * 1000) / 1000. */
  function Round3(x: real): real
  {
    MathRound(x * 1000.0) as real / 1000.0
  }

  /** The textbook sum, independent of the fold above. */
  function Sum(xs: seq<real>): real
  {
    if xs == [] then 0.0 else xs[0] + Sum(xs[1..])
  }

  function Column(rs: seq<Metrics>, k: MetricKind): (c: seq<real>)
    ensures |c| == |rs|
  {
    seq(|rs|, i requires 0 <= i < |rs| => Get(rs[i], k))
  }

  lemma {:induction false} SumSnoc(xs: seq<real>, x: real)
    ensures Sum(xs + [x]) == Sum(xs) + x
  {
    if xs != [] {
      assert (xs + [x])[1..] == xs[1..] + [x];
      SumSnoc(xs[1..], x);
    }
  }

  /** The fold computes, field by field, the sum of the column. */
  lemma {:induction false} TotalIsSum(rs: seq<Metrics>, k: MetricKind)
    ensures Get(Total(rs), k) == Sum(Column(rs, k))
  {
    if rs != [] {
      var p := rs[..|rs| - 1];
      TotalIsSum(p, k);
      assert Column(rs, k) == Column(p, k) + [Get(rs[|rs| - 1], k)];
      SumSnoc(Column(p, k), Get(rs[|rs| - 1], k));
    }
  }

  /** The zero sample for an empty batch; otherwise the per-field mean over
      every sample, sentinels included, with only cls rounded (to three
      decimals). */
  function CalculateAverage(rs: seq<Metrics>): (r: Metrics)
    ensures rs == [] ==> r == DefaultMetrics()
    ensures rs != [] ==> r.fcp == Sum(Column(rs, Fcp)) / |rs| as real
    ensures rs != [] ==> r.lcp == Sum(Column(rs, Lcp)) / |rs| as real
    ensures rs != [] ==> r.tbt == Sum(Column(rs, Tbt)) / |rs| as real
    ensures rs != [] ==> r.si == Sum(Column(rs, Si)) / |rs| as real
    ensures rs != [] ==> r.cls == Round3(Sum(Column(rs, Cls)) / |rs| as real)
  {
    if rs == [] then DefaultMetrics()
    else
      var totals := Total(rs);
      var count := |rs| as real;
      TotalIsSum(rs, Fcp); TotalIsSum(rs, Lcp); TotalIsSum(rs, Tbt);
      TotalIsSum(rs, Cls); TotalIsSum(rs, Si);
      Metrics(totals.fcp / count, totals.lcp / count, totals.tbt / count,
              Round3(totals.cls / count), totals.si / count)
  }

  lemma Round3Close(x: real)
    ensures x - 0.0005 <= Round3(x) <= x + 0.0005
  {
  }

  lemma {:induction false} SumAtLeast(xs: seq<real>, lo: real)
    requires forall i | 0 <= i < |xs| :: lo <= xs[i]
    ensures |xs| as real * lo <= Sum(xs)
  {
    if xs != [] {
      SumAtLeast(xs[1..], lo);
      assert |xs| as real * lo == (|xs| - 1) as real * lo + lo;
    }
  }

  lemma {:induction false} SumAtMost(xs: seq<real>, hi: real)
    requires forall i | 0 <= i < |xs| :: xs[i] <= hi
    ensures Sum(xs) <= |xs| as real * hi
  {
    if xs != [] {
      SumAtMost(xs[1..], hi);
      assert |xs| as real * hi == (|xs| - 1) as real * hi + hi;
    }
  }

  lemma MeanBetween(s: real, n: real, lo: real, hi: real)
    requires n > 0.0 && n * lo <= s <= n * hi
    ensures lo <= s / n <= hi
  {
    assert s / n - lo == (s - n * lo) / n;
    assert hi - s / n == (n * hi - s) / n;
  }

  /** A mean lies between the smallest and the largest sample; the rounded
      cls may overshoot by half a thousandth. */
  lemma AverageBounds(rs: seq<Metrics>, k: MetricKind, lo: real, hi: real)
    requires rs != []
    requires forall i | 0 <= i < |rs| :: lo <= Get(rs[i], k) <= hi
    ensures k != Cls ==> lo <= Get(CalculateAverage(rs), k) <= hi
    ensures k == Cls ==> lo - 0.0005 <= Get(CalculateAverage(rs), k) <= hi + 0.0005
  {
    var c := Column(rs, k);
    SumAtLeast(c, lo);
    SumAtMost(c, hi);
    MeanBetween(Sum(c), |rs| as real, lo, hi);
    Round3Close(Sum(c) / |rs| as real);
  }

  /** Non-negative samples give a non-negative average. */
  lemma AverageNonNegative(rs: seq<Metrics>)
    requires forall i, k | 0 <= i < |rs| :: Get(rs[i], k) >= 0.0
    ensures forall k :: Get(CalculateAverage(rs), k) >= 0.0
  {
    if rs != [] {
      forall k ensures Get(CalculateAverage(rs), k) >= 0.0 {
        var c := Column(rs, k);
        SumAtLeast(c, 0.0);
        var mean := Sum(c) / |rs| as real;
        assert mean >= 0.0;
        assert (mean * 1000.0 + 0.5).Floor >= 0;
      }
    }
  }

  /** A sentinel counts in the divisor and adds nothing to the sum, so it
      pulls every mean towards zero (cls before its rounding). */
  lemma {:induction false} SentinelWeighsIn(rs: seq<Metrics>, k: MetricKind)
    ensures k != Cls ==> Get(CalculateAverage(rs + [DefaultMetrics()]), k) == Sum(Column(rs, k)) / (|rs| + 1) as real
    ensures k == Cls ==> CalculateAverage(rs + [DefaultMetrics()]).cls == Round3(Sum(Column(rs, Cls)) / (|rs| + 1) as real)
  {
    assert Column(rs + [DefaultMetrics()], k) == Column(rs, k) + [0.0];
    SumSnoc(Column(rs, k), 0.0);
  }

  /** n copies of one sample average back to it (cls up to rounding). */
  lemma {:induction false} AverageOfCopies(m: Metrics, n: nat, k: MetricKind)
    requires n > 0
    ensures k != Cls ==> Get(CalculateAverage(seq(n, _ => m)), k) == Get(m, k)
    ensures k == Cls ==> CalculateAverage(seq(n, _ => m)).cls == Round3(m.cls)
  {
    var rs := seq(n, _ => m);
    SumAtLeast(Column(rs, k), Get(m, k));
    SumAtMost(Column(rs, k), Get(m, k));
    MeanBetween(Sum(Column(rs, k)), n as real, Get(m, k), Get(m, k));
  }

  /** Two concrete samples average to their field-wise midpoint. */
  lemma AverageExample()
    ensures CalculateAverage([Metrics(100.0, 200.0, 0.0, 0.010, 300.0), Metrics(200.0, 400.0, 0.0, 0.020, 300.0)])
         == Metrics(150.0, 300.0, 0.0, 0.015, 300.0)
  {
    var rs := [Metrics(100.0, 200.0, 0.0, 0.010, 300.0), Metrics(200.0, 400.0, 0.0, 0.020, 300.0)];
    forall k ensures Sum(Column(rs, k)) == Get(rs[0], k) + Get(rs[1], k) {
      assert Column(rs, k) == [Get(rs[0], k), Get(rs[1], k)];
      Sum2(Get(rs[0], k), Get(rs[1], k));
    }
    assert Sum(Column(rs, Cls)) / 2.0 == 0.015;
    assert MathRound(0.015 * 1000.0) == 15 by {
      assert 0.015 * 1000.0 + 0.5 == 15.5;
    }
  }

  lemma Sum2(a: real, b: real)
    ensures Sum([a, b]) == a + b
  {
    assert Sum([b]) == b by {
      assert [b][1..] == [];
    }
    assert [a, b][1..] == [b];
    assert Sum([a, b]) == a + Sum([b]);
  }

  // ---------------------------------------------------------------------
  // The options of one attempt
  // ---------------------------------------------------------------------

  /** Warm runs keep storage and clear nothing; cold runs have Lighthouse
      reset storage and clear the nine listed categories. */
  function BuildOptions(useCache: bool, port: int): (o: Options)
    ensures o.port == port
    ensures o.disableStorageReset == useCache
    ensures o.clearStorageTypes == [] <==> useCache
    ensures !useCache ==> o.clearStorageTypes == StorageTypes
  {
    Options(port, useCache, if useCache then [] else StorageTypes)
  }

  // ---------------------------------------------------------------------
  // One attempt and the retry discipline
  // ---------------------------------------------------------------------

  /** What one pass through the try block did: gave up because the manager
      was not running, or called Lighthouse. */
  datatype Attempt = Skipped | Called(options: Options, response: LighthouseOutcome)

  /** A thrown call, a null result and a result without `lhr` all fail;
      otherwise the metrics are extracted. */
  function Evaluate(o: LighthouseOutcome): (r: Result<Metrics, Error>)
    ensures r.Success? <==> o.Resolved? && o.result.Some? && o.result.value.lhr.Some?
    ensures r.Success? ==> r.value == ExtractMetrics(o.result.value.lhr.value)
    ensures o.Threw? ==> r == Failure(LighthouseError(o.message))
    ensures o.Resolved? && r.Failure? ==> r.error == InvalidResult
  {
    match o
    case Threw(msg) => Failure(LighthouseError(msg))
    case Resolved(res) =>
      if res.None? || res.value.lhr.None? then Failure(InvalidResult)
      else Success(ExtractMetrics(res.value.lhr.value))
  }

  function AttemptResult(a: Attempt): Result<Metrics, Error>
  {
    match a
    case Skipped => Failure(ChromeNotRunning)
    case Called(_, response) => Evaluate(response)
  }

  function AttemptEvents(a: Attempt, url: string): seq<Event>
  {
    match a
    case Skipped => []
    case Called(options, response) => [Audited(url, options, response)]
  }

  /** An attempt, the port recorded when it began, and the restart that
      followed it (empty after the last attempt). */
  datatype Round = Round(port: Option<int>, attempt: Attempt, restart: seq<Event>)

  function RoundsTrace(rs: seq<Round>, url: string): seq<Event>
  {
    if rs == [] then []
    else RoundsTrace(rs[..|rs| - 1], url) + AttemptEvents(rs[|rs| - 1].attempt, url) + rs[|rs| - 1].restart
  }

  /** The port recorded once the rounds have run. */
  function PortAfter(rs: seq<Round>, port0: Option<int>): Option<int>
  {
    if rs == [] then port0
    else if rs[|rs| - 1].restart == [] then rs[|rs| - 1].port
    else StartedPort(rs[|rs| - 1].restart)
  }

  /** An attempt is skipped exactly when no port is recorded, and a call uses
      the recorded port and the regime's options. */
  ghost predicate Fits(a: Attempt, useCache: bool, port: Option<int>)
  {
    match a
    case Skipped => port.None?
    case Called(options, _) => port.Some? && options == BuildOptions(useCache, port.value)
  }

  /** The first round starts from port0, each later one from the port its
      predecessor's restart recorded. */
  ghost predicate Chained(rs: seq<Round>, port0: Option<int>)
  {
    && (|rs| > 0 ==> rs[0].port == port0)
    && forall i, j | 0 <= i < j < |rs| && j == i + 1 :: rs[j].port == StartedPort(rs[i].restart)
  }

  /** Every round fits its port, failed, and was followed by one restart,
      the retry counter staying below the limit. */
  ghost predicate Restarted(rs: seq<Round>, useCache: bool, port0: Option<int>)
  {
    && Chained(rs, port0)
    && forall i | 0 <= i < |rs| ::
      && Fits(rs[i].attempt, useCache, rs[i].port)
      && i < MaxRetries
      && AttemptResult(rs[i].attempt).Failure?
      && IsAnyRestartTrace(rs[i].restart)
  }

  /** measureSingle's behaviour: failed attempts each followed by one restart
      (whatever its outcome), then a last attempt with no restart after it,
      which failed only if the retry counter had reached MaxRetries. */
  ghost predicate Retried(rs: seq<Round>, useCache: bool, port0: Option<int>)
  {
    && |rs| >= 1
    && Chained(rs, port0)
    && (forall i | 0 <= i < |rs| :: Fits(rs[i].attempt, useCache, rs[i].port))
    && (forall i | 0 <= i < |rs| - 1 ::
      && i < MaxRetries
      && AttemptResult(rs[i].attempt).Failure?
      && IsAnyRestartTrace(rs[i].restart))
    && rs[|rs| - 1].restart == []
    && (AttemptResult(rs[|rs| - 1].attempt).Failure? ==> |rs| == MaxRetries + 1)
  }

  /** The value returned (or the error rethrown): the last attempt's. */
  function RetryOutcome(rs: seq<Round>): Result<Metrics, Error>
  {
    if rs == [] then Failure(ChromeNotRunning) else AttemptResult(rs[|rs| - 1].attempt)
  }

  function CountAudits(t: seq<Event>): nat
  {
    if t == [] then 0 else CountAudits(t[..|t| - 1]) + (if t[|t| - 1].Audited? then 1 else 0)
  }

  function CountLaunches(t: seq<Event>): nat
  {
    if t == [] then 0 else CountLaunches(t[..|t| - 1]) + (if t[|t| - 1].LaunchAttempted? then 1 else 0)
  }

  lemma {:induction false} CountsAppend(a: seq<Event>, b: seq<Event>)
    ensures CountAudits(a + b) == CountAudits(a) + CountAudits(b)
    ensures CountLaunches(a + b) == CountLaunches(a) + CountLaunches(b)
  {
    if b != [] {
      assert (a + b)[..|a + b| - 1] == a + b[..|b| - 1];
      assert (a + b)[|a + b| - 1] == b[|b| - 1];
      CountsAppend(a, b[..|b| - 1]);
    } else {
      assert a + b == a;
    }
  }

  lemma AttemptCounts(a: Attempt, url: string)
    ensures CountAudits(AttemptEvents(a, url)) == (if a.Called? then 1 else 0)
    ensures CountLaunches(AttemptEvents(a, url)) == 0
  {
    if a.Called? {
      assert AttemptEvents(a, url)[..0] == [];
    }
  }

  /** A restart launches once and never calls Lighthouse. */
  lemma RestartCounts(t: seq<Event>)
    requires IsAnyRestartTrace(t)
    ensures CountAudits(t) == 0 && CountLaunches(t) == 1
  {
    var stop := t[..|t| - 2];
    RestartSplit(t);
    StopCounts(stop);
    Counts2(ExistingKilled, t[|t| - 1]);
    CountsAppend(stop, [ExistingKilled, t[|t| - 1]]);
  }

  /** A restart is a stop, the stray-process kill and one launch. */
  lemma RestartSplit(t: seq<Event>)
    requires IsAnyRestartTrace(t)
    ensures t == t[..|t| - 2] + [ExistingKilled, t[|t| - 1]]
    ensures IsAnyStopTrace(t[..|t| - 2]) && t[|t| - 1].LaunchAttempted?
  {
    var start := t[|t| - 2..];
    assert start == [start[0], start[1]];
    assert t == t[..|t| - 2] + start;
  }

  /** No event of a restart is a Lighthouse call. */
  lemma RestartNoAudits(t: seq<Event>)
    requires IsAnyRestartTrace(t)
    ensures forall i | 0 <= i < |t| :: !t[i].Audited?
  {
    var stop := t[..|t| - 2];
    RestartSplit(t);
    StopCounts(stop);
    forall i | 0 <= i < |t| ensures !t[i].Audited? {
      if i < |stop| {
        assert t[i] == stop[i];
      }
    }
  }

  /** A stop neither launches nor calls Lighthouse. */
  lemma StopCounts(t: seq<Event>)
    requires IsAnyStopTrace(t)
    ensures CountAudits(t) == 0 && CountLaunches(t) == 0
    ensures forall i | 0 <= i < |t| :: !t[i].Audited?
  {
    if |t| == 1 {
      Counts1(t[0]);
      assert t == [t[0]];
    } else if |t| == 2 {
      Counts2(t[0], t[1]);
      assert t == [t[0], t[1]];
    }
  }

  lemma Counts2(a: Event, b: Event)
    ensures CountAudits([a, b]) == (if a.Audited? then 1 else 0) + (if b.Audited? then 1 else 0)
    ensures CountLaunches([a, b]) == (if a.LaunchAttempted? then 1 else 0) + (if b.LaunchAttempted? then 1 else 0)
  {
    assert [a, b][..1] == [a];
    Counts1(a);
  }

  lemma Counts1(e: Event)
    ensures CountAudits([e]) == (if e.Audited? then 1 else 0)
    ensures CountLaunches([e]) == (if e.LaunchAttempted? then 1 else 0)
  {
    assert [e][..0] == [];
  }

  lemma {:induction false} RoundsCounts(rs: seq<Round>, url: string)
    requires forall i | 0 <= i < |rs| :: IsAnyRestartTrace(rs[i].restart)
    ensures CountAudits(RoundsTrace(rs, url)) <= |rs|
    ensures CountLaunches(RoundsTrace(rs, url)) == |rs|
  {
    if rs != [] {
      var p, last := rs[..|rs| - 1], rs[|rs| - 1];
      RoundsCounts(p, url);
      CountsAppend(RoundsTrace(p, url), AttemptEvents(last.attempt, url));
      CountsAppend(RoundsTrace(p, url) + AttemptEvents(last.attempt, url), last.restart);
      RestartCounts(last.restart);
      AttemptCounts(last.attempt, url);
    }
  }

  /** measureSingle calls Lighthouse at most MaxRetries + 1 times and
      restarts Chrome exactly once between consecutive attempts. */
  lemma RetryBounds(rs: seq<Round>, url: string, useCache: bool, port0: Option<int>)
    requires Retried(rs, useCache, port0)
    ensures |rs| <= MaxRetries + 1
    ensures CountAudits(RoundsTrace(rs, url)) <= |rs|
    ensures CountLaunches(RoundsTrace(rs, url)) == |rs| - 1
  {
    var p, last := rs[..|rs| - 1], rs[|rs| - 1];
    assert |p| <= MaxRetries by {
      if |p| > 0 { assert IsAnyRestartTrace(rs[|p| - 1].restart); }
    }
    assert forall i | 0 <= i < |p| :: p[i] == rs[i];
    RoundsCounts(p, url);
    CountsAppend(RoundsTrace(p, url), AttemptEvents(last.attempt, url));
    assert RoundsTrace(rs, url) == RoundsTrace(p, url) + AttemptEvents(last.attempt, url);
    AttemptCounts(last.attempt, url);
  }

  /** Every Lighthouse call in the trace measured `url` with the regime's
      storage options. */
  ghost predicate AuditsUse(t: seq<Event>, url: string, useCache: bool)
  {
    forall i | 0 <= i < |t| :: t[i].Audited? ==>
      && t[i].url == url
      && t[i].options.disableStorageReset == useCache
      && t[i].options.clearStorageTypes == (if useCache then [] else StorageTypes)
  }

  /** A Lighthouse call made with the regime's storage options. */
  ghost predicate InRegime(a: Attempt, useCache: bool)
  {
    a.Called? ==>
      && a.options.disableStorageReset == useCache
      && a.options.clearStorageTypes == (if useCache then [] else StorageTypes)
  }

  lemma AuditsUseAppend(a: seq<Event>, b: seq<Event>, url: string, useCache: bool)
    requires AuditsUse(a, url, useCache) && AuditsUse(b, url, useCache)
    ensures AuditsUse(a + b, url, useCache)
  {
    forall i | 0 <= i < |a + b| && (a + b)[i].Audited?
      ensures (a + b)[i].url == url && (a + b)[i].options.disableStorageReset == useCache
      ensures (a + b)[i].options.clearStorageTypes == (if useCache then [] else StorageTypes)
    {
      if i >= |a| {
        assert (a + b)[i] == b[i - |a|];
      }
    }
  }

  lemma {:induction false} RoundsOptions(rs: seq<Round>, url: string, useCache: bool)
    requires forall i | 0 <= i < |rs| ::
      InRegime(rs[i].attempt, useCache) && (rs[i].restart == [] || IsAnyRestartTrace(rs[i].restart))
    ensures AuditsUse(RoundsTrace(rs, url), url, useCache)
  {
    if rs != [] {
      var p, last := rs[..|rs| - 1], rs[|rs| - 1];
      RoundsOptions(p, url, useCache);
      AuditsUseAppend(RoundsTrace(p, url), AttemptEvents(last.attempt, url), url, useCache);
      if last.restart != [] {
        RestartNoAudits(last.restart);
      }
      AuditsUseAppend(RoundsTrace(p, url) + AttemptEvents(last.attempt, url), last.restart, url, useCache);
    }
  }

  /** The cold regime asks for storage clearing on every attempt, the warm
      regime on none. */
  lemma RetryOptions(rs: seq<Round>, url: string, useCache: bool, port0: Option<int>)
    requires Retried(rs, useCache, port0)
    ensures AuditsUse(RoundsTrace(rs, url), url, useCache)
  {
    RoundsOptions(rs, url, useCache);
  }

  /** With no browser recorded the first attempt calls nothing, fails, and
      is followed by a restart and a further attempt like any failure. */
  lemma NotRunningRetried(rs: seq<Round>, useCache: bool)
    requires Retried(rs, useCache, None)
    ensures rs[0].attempt == Skipped && AttemptResult(rs[0].attempt) == Failure(ChromeNotRunning)
    ensures |rs| >= 2 && IsAnyRestartTrace(rs[0].restart)
  {
  }

  // ---------------------------------------------------------------------
  // Batches
  // ---------------------------------------------------------------------

  /** The sample a slot receives: the measured one, or the all-zero default
      when measureSingle threw. */
  function SampleOf(r: Result<Metrics, Error>): Metrics
  {
    if r.Success? then r.value else DefaultMetrics()
  }

  function Samples(logs: seq<seq<Round>>): seq<Metrics>
  {
    seq(|logs|, i requires 0 <= i < |logs| => SampleOf(RetryOutcome(logs[i])))
  }

  datatype Batch = Batch(average: Metrics, runs: seq<Metrics>)

  function BatchTrace(logs: seq<seq<Round>>, url: string): seq<Event>
  {
    if logs == [] then [] else BatchTrace(logs[..|logs| - 1], url) + RoundsTrace(logs[|logs| - 1], url)
  }

  function BatchPort(logs: seq<seq<Round>>, port0: Option<int>): Option<int>
  {
    if logs == [] then port0 else PortAfter(logs[|logs| - 1], BatchPort(logs[..|logs| - 1], port0))
  }

  /** Each measurement of the batch followed the retry discipline, starting
      from the port the previous one left behind. */
  ghost predicate BatchRun(logs: seq<seq<Round>>, useCache: bool, port0: Option<int>)
  {
    forall i | 0 <= i < |logs| :: Retried(logs[i], useCache, BatchPort(logs[..i], port0))
  }

  lemma {:induction false} BatchOptions(logs: seq<seq<Round>>, url: string, useCache: bool, port0: Option<int>)
    requires BatchRun(logs, useCache, port0)
    ensures AuditsUse(BatchTrace(logs, url), url, useCache)
  {
    if logs != [] {
      var p := logs[..|logs| - 1];
      forall i | 0 <= i < |p| ensures Retried(p[i], useCache, BatchPort(p[..i], port0)) {
        assert p[..i] == logs[..i];
      }
      BatchOptions(p, url, useCache, port0);
      RetryOptions(logs[|logs| - 1], url, useCache, BatchPort(p, port0));
      AuditsUseAppend(BatchTrace(p, url), RoundsTrace(logs[|logs| - 1], url), url, useCache);
    }
  }

  /** A batch of n measurements calls Lighthouse at most n * (MaxRetries + 1)
      times. */
  lemma {:induction false} BatchCalls(logs: seq<seq<Round>>, url: string, useCache: bool, port0: Option<int>)
    requires BatchRun(logs, useCache, port0)
    ensures CountAudits(BatchTrace(logs, url)) <= |logs| * (MaxRetries + 1)
  {
    if logs != [] {
      var p := logs[..|logs| - 1];
      forall i | 0 <= i < |p| ensures Retried(p[i], useCache, BatchPort(p[..i], port0)) {
        assert p[..i] == logs[..i];
      }
      BatchCalls(p, url, useCache, port0);
      RetryBounds(logs[|logs| - 1], url, useCache, BatchPort(p, port0));
      CountsAppend(BatchTrace(p, url), RoundsTrace(logs[|logs| - 1], url));
    }
  }

  /** One more measurement appended to a batch keeps the batch discipline. */
  lemma ExtendBatchRun(logs: seq<seq<Round>>, rs: seq<Round>, useCache: bool, port0: Option<int>)
    requires BatchRun(logs, useCache, port0)
    requires Retried(rs, useCache, BatchPort(logs, port0))
    ensures BatchRun(logs + [rs], useCache, port0)
  {
    var q := logs + [rs];
    forall i | 0 <= i < |q| ensures Retried(q[i], useCache, BatchPort(q[..i], port0)) {
      if i < |logs| {
        assert q[..i] == logs[..i];
      } else {
        assert q[..i] == logs;
      }
    }
  }

  /** The samples, port and trace of a batch with one more measurement. */
  lemma ExtendBatch(t0: seq<Event>, logs: seq<seq<Round>>, rs: seq<Round>, url: string, port0: Option<int>)
    ensures Samples(logs + [rs]) == Samples(logs) + [SampleOf(RetryOutcome(rs))]
    ensures BatchPort(logs + [rs], port0) == PortAfter(rs, BatchPort(logs, port0))
    ensures (t0 + BatchTrace(logs, url)) + RoundsTrace(rs, url) == t0 + BatchTrace(logs + [rs], url)
  {
    var q := logs + [rs];
    assert q[..|logs|] == logs;
    assert forall i | 0 <= i < |logs| :: q[i] == logs[i];
    AppendAssoc(t0, BatchTrace(logs, url), RoundsTrace(rs, url));
  }

  /** One more failed attempt followed by a restart keeps the retry
      discipline. */
  lemma ExtendRestarted(t0: seq<Event>, rs: seq<Round>, next: Round, url: string, useCache: bool, port0: Option<int>)
    requires Restarted(rs, useCache, port0)
    requires next.port == PortAfter(rs, port0) && Fits(next.attempt, useCache, next.port)
    requires |rs| < MaxRetries && AttemptResult(next.attempt).Failure?
    requires IsAnyRestartTrace(next.restart)
    ensures Restarted(rs + [next], useCache, port0)
    ensures PortAfter(rs + [next], port0) == StartedPort(next.restart)
    ensures (t0 + RoundsTrace(rs, url) + AttemptEvents(next.attempt, url)) + next.restart == t0 + RoundsTrace(rs + [next], url)
  {
    assert (rs + [next])[..|rs|] == rs;
    AppendAssoc(t0, RoundsTrace(rs, url) + AttemptEvents(next.attempt, url), next.restart);
    AppendAssoc(t0, RoundsTrace(rs, url), AttemptEvents(next.attempt, url));
  }

  /** A last attempt with no restart after it completes the retry discipline
      when it succeeded or the counter had reached the limit. */
  lemma FinishRetried(t0: seq<Event>, rs: seq<Round>, last: Round, url: string, useCache: bool, port0: Option<int>)
    requires Restarted(rs, useCache, port0)
    requires last.port == PortAfter(rs, port0) && Fits(last.attempt, useCache, last.port)
    requires last.restart == []
    requires AttemptResult(last.attempt).Failure? ==> |rs| == MaxRetries
    ensures Retried(rs + [last], useCache, port0)
    ensures RetryOutcome(rs + [last]) == AttemptResult(last.attempt)
    ensures PortAfter(rs + [last], port0) == PortAfter(rs, port0)
    ensures t0 + RoundsTrace(rs, url) + AttemptEvents(last.attempt, url) == t0 + RoundsTrace(rs + [last], url)
  {
    assert (rs + [last])[..|rs|] == rs;
    assert RoundsTrace(rs + [last], url) == RoundsTrace(rs, url) + AttemptEvents(last.attempt, url) + [];
    AppendAssoc(t0, RoundsTrace(rs, url), AttemptEvents(last.attempt, url));
  }

  lemma AppendAssoc<T>(a: seq<T>, b: seq<T>, c: seq<T>)
    ensures (a + b) + c == a + (b + c)
  {
  }

  // ---------------------------------------------------------------------
  // The runner
  // ---------------------------------------------------------------------

  class LighthouseRunner {
    const chromeManager: ChromeManager

    constructor (chromeManager: ChromeManager)
      ensures this.chromeManager == chromeManager
    {
      this.chromeManager := chromeManager;
    }

    /** measureSingle: attempt, and on any failure restart Chrome (ignoring a
        failed restart) and attempt again, up to MaxRetries times; then
        rethrow the last error. */
    method MeasureSingle(url: string, useCache: bool) returns (r: Result<Metrics, Error>, ghost rounds: seq<Round>)
      requires chromeManager.Valid()
      modifies chromeManager, chromeManager.env
      ensures chromeManager.Valid()
      ensures Retried(rounds, useCache, old(chromeManager.chromePort))
      ensures r == RetryOutcome(rounds)
      ensures chromeManager.env.trace == old(chromeManager.env.trace) + RoundsTrace(rounds, url)
      ensures chromeManager.chromePort == PortAfter(rounds, old(chromeManager.chromePort))
      ensures CountAudits(RoundsTrace(rounds, url)) <= MaxRetries + 1
      ensures CountLaunches(RoundsTrace(rounds, url)) == |rounds| - 1
      ensures AuditsUse(RoundsTrace(rounds, url), url, useCache)
    {
      ghost var port0 := chromeManager.chromePort;
      ghost var trace0 := chromeManager.env.trace;
      var retryCount: nat := 0;
      var done := false;
      rounds := [];
      r := Failure(ChromeNotRunning);
      while !done
        invariant chromeManager.Valid()
        invariant retryCount <= MaxRetries
        invariant chromeManager.env.trace == trace0 + RoundsTrace(rounds, url)
        invariant chromeManager.chromePort == PortAfter(rounds, port0)
        invariant !done ==> |rounds| == retryCount && Restarted(rounds, useCache, port0)
        invariant done ==> Retried(rounds, useCache, port0) && r == RetryOutcome(rounds)
        decreases MaxRetries - retryCount, if done then 0 else 1
      {
        ghost var before := chromeManager.env.trace;
        var attempt: Attempt;
        if !chromeManager.IsRunning() {
          attempt := Skipped;
          assert chromeManager.env.trace == before + AttemptEvents(attempt, url);
        } else {
          var options := BuildOptions(useCache, chromeManager.GetPort().value);
          var response := chromeManager.env.RunLighthouse(url, options);
          attempt := Called(options, response);
        }
        ghost var port := chromeManager.chromePort;
        assert Fits(attempt, useCache, port);
        var result := AttemptResult(attempt);
        if result.Success? || retryCount == MaxRetries {
          FinishRetried(trace0, rounds, Round(port, attempt, []), url, useCache, port0);
          rounds := rounds + [Round(port, attempt, [])];
          r := result;
          done := true;
        } else {
          ghost var chromeBefore := chromeManager.chrome;
          var _, restartEvents := chromeManager.RestartChrome();
          RestartTraceIsAny(restartEvents, chromeBefore);
          ExtendRestarted(trace0, rounds, Round(port, attempt, restartEvents), url, useCache, port0);
          rounds := rounds + [Round(port, attempt, restartEvents)];
          retryCount := retryCount + 1;
        }
      }
      RetryBounds(rounds, url, useCache, port0);
      RetryOptions(rounds, url, useCache, port0);
    }

    /** measureMultiple: `count` calls of measureSingle in order, a failed
        one contributing the all-zero sample, then the batch average. */
    method MeasureMultiple(url: string, useCache: bool, count: int) returns (batch: Batch, ghost logs: seq<seq<Round>>)
      requires chromeManager.Valid()
      modifies chromeManager, chromeManager.env
      ensures chromeManager.Valid()
      ensures |logs| == (if count < 0 then 0 else count)
      ensures BatchRun(logs, useCache, old(chromeManager.chromePort))
      ensures batch.runs == Samples(logs)
      ensures batch.average == CalculateAverage(batch.runs)
      ensures chromeManager.env.trace == old(chromeManager.env.trace) + BatchTrace(logs, url)
      ensures chromeManager.chromePort == BatchPort(logs, old(chromeManager.chromePort))
      ensures CountAudits(BatchTrace(logs, url)) <= |logs| * (MaxRetries + 1)
      ensures AuditsUse(BatchTrace(logs, url), url, useCache)
    {
      ghost var port0 := chromeManager.chromePort;
      ghost var trace0 := chromeManager.env.trace;
      var results: seq<Metrics> := [];
      logs := [];
      var i := 1;
      while i <= count
        invariant 1 <= i <= (if count < 0 then 0 else count) + 1
        invariant |logs| == i - 1
        invariant chromeManager.Valid()
        invariant BatchRun(logs, useCache, port0)
        invariant results == Samples(logs)
        invariant chromeManager.env.trace == trace0 + BatchTrace(logs, url)
        invariant chromeManager.chromePort == BatchPort(logs, port0)
      {
        var result, rounds := MeasureSingle(url, useCache);
        if result.Success? {
          results := results + [result.value];
        } else {
          results := results + [DefaultMetrics()];
        }
        ExtendBatchRun(logs, rounds, useCache, port0);
        ExtendBatch(trace0, logs, rounds, url, port0);
        logs := logs + [rounds];
        i := i + 1;
      }
      batch := Batch(CalculateAverage(results), results);
      BatchCalls(logs, url, useCache, port0);
      BatchOptions(logs, url, useCache, port0);
    }
  }
}
