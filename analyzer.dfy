/** src/index.js: the campaign over the configured sites, each measured
    cold, then (after one browser restart) warm. */
module Analyzer {
  import opened Wrappers
  import opened Externals
  import opened Config
  import opened Chrome
  import opened Lighthouse

  datatype Site = Site(name: string, url: string)

  /** What a regime field of a site result holds: the batch object that
      measureMultiple returned, or the bare all-zero metrics object the catch
      block puts into a field that was still null. */
  datatype RegimeResult = Measured(batch: Batch) | Fallback(metrics: Metrics)

  datatype SiteResult = SiteResult(siteName: string, url: string, noCache: RegimeResult, withCache: RegimeResult)

  /** The batch measureMultiple returns for a batch whose measurements ran as
      `logs` records. */
  function BatchOf(logs: seq<seq<Round>>): Batch
  {
    Batch(CalculateAverage(Samples(logs)), Samples(logs))
  }

  /** `field || this.getDefaultMetrics()` for a field that is null (None) or
      holds a batch. */
  function BackFill(field: Option<Batch>): (r: RegimeResult)
    ensures field.Some? ==> r == Measured(field.value)
    ensures field.None? ==> r.Fallback? && r.metrics == DefaultMetrics()
  {
    if field.Some? then Measured(field.value) else Fallback(DefaultMetrics())
  }

  /** What measureSite did: the cold batch, the restart that switched the
      cache mode, and the warm batch (none when the restart threw). */
  datatype SiteRun = SiteRun(cold: seq<seq<Round>>, switch: seq<Event>, warm: seq<seq<Round>>)

  function SiteRunTrace(run: SiteRun, url: string): seq<Event>
  {
    BatchTrace(run.cold, url) + run.switch + BatchTrace(run.warm, url)
  }

  /** Whether the cache-mode restart brought a browser up. */
  function Switched(run: SiteRun): bool
  {
    StartedPort(run.switch).Some?
  }

  /** measureSite's order of calls, starting from `port0`: a full cold batch,
      exactly one restart, then a full warm batch on the restarted browser, or
      nothing more when that restart threw. */
  ghost predicate Sequenced(run: SiteRun, port0: Option<int>)
  {
    && |run.cold| == MeasurementsPerCacheType
    && BatchRun(run.cold, false, port0)
    && IsAnyRestartTrace(run.switch)
    && (Switched(run) ==> |run.warm| == MeasurementsPerCacheType && BatchRun(run.warm, true, StartedPort(run.switch)))
    && (!Switched(run) ==> run.warm == [])
  }

  /** The port recorded when measureSite returns: the warm batch's last, or
      none when the cache-mode restart threw. */
  function SiteEndPort(run: SiteRun): Option<int>
  {
    if Switched(run) then BatchPort(run.warm, StartedPort(run.switch)) else None
  }

  /** The site result measureSite returns after running as `run` records. */
  function SiteOutcome(run: SiteRun, site: Site): SiteResult
  {
    SiteResult(site.name, site.url, Measured(BatchOf(run.cold)),
      if Switched(run) then Measured(BatchOf(run.warm)) else Fallback(DefaultMetrics()))
  }

  /** One pass of the site loop: the restart made before the site (empty
      before the first), and the site's run unless that restart threw. */
  datatype Step = Step(restart: seq<Event>, run: Option<SiteRun>)

  function StepTrace(step: Step, url: string): seq<Event>
  {
    step.restart + (if step.run.Some? then SiteRunTrace(step.run.value, url) else [])
  }

  function StepsTrace(steps: seq<Step>, sites: seq<Site>): seq<Event>
    requires |steps| <= |sites|
  {
    if steps == [] then []
    else StepsTrace(steps[..|steps| - 1], sites) + StepTrace(steps[|steps| - 1], sites[|steps| - 1].url)
  }

  /** The port the browser had when step i's site began. */
  function PortBefore(steps: seq<Step>, i: nat, startPort: Option<int>): Option<int>
    requires i < |steps|
  {
    if i == 0 then startPort else StartedPort(steps[i].restart)
  }

  /** The port recorded when the site loop is left after `steps`: the start
      port when no site was visited, else what the last step's site
      measurement left behind, or its restart's (none, as it threw). */
  function LoopPort(steps: seq<Step>, startPort: Option<int>): Option<int>
  {
    if steps == [] then startPort
    else
      var last := steps[|steps| - 1];
      if last.run.Some? then SiteEndPort(last.run.value) else StartedPort(last.restart)
  }

  /** runFullAnalysis's site loop: sites in configuration order, no restart
      before the first, one restart before each later one, each site measured
      from the port its restart (or the initial start) recorded, and the loop
      left only at a restart that threw. */
  ghost predicate Campaign(steps: seq<Step>, sites: seq<Site>, startPort: Option<int>)
  {
    && |steps| <= |sites|
    && (forall i | 0 <= i < |steps| :: StepOk(steps, i, startPort))
    && (forall i | 0 <= i < |steps| - 1 :: steps[i].run.Some?)
  }

  /** Step i of the site loop. */
  ghost predicate StepOk(steps: seq<Step>, i: nat, startPort: Option<int>)
    requires i < |steps|
  {
    Visited(steps[i], PortBefore(steps, i, startPort), i == 0)
  }

  /** One pass of the site loop, the browser being at `port` when the site
      began: no restart before the first site, one before each later one,
      and the site measured exactly when a browser was up. */
  ghost predicate Visited(step: Step, port: Option<int>, first: bool)
  {
    && (first ==> step.restart == [] && step.run.Some?)
    && (!first ==> IsAnyRestartTrace(step.restart))
    && (step.run.Some? <==> port.Some?)
    && (step.run.Some? ==> Sequenced(step.run.value, port))
  }

  /** One more pass of the site loop keeps the campaign's shape. */
  lemma ExtendCampaign(steps: seq<Step>, next: Step, port: Option<int>, sites: seq<Site>, startPort: Option<int>)
    requires Campaign(steps, sites, startPort) && |steps| < |sites|
    requires |steps| > 0 ==> steps[|steps| - 1].run.Some?
    requires port == PortBefore(steps + [next], |steps|, startPort)
    requires Visited(next, port, |steps| == 0)
    ensures Campaign(steps + [next], sites, startPort)
  {
    var q := steps + [next];
    forall i | 0 <= i < |q| ensures StepOk(q, i, startPort) {
      if i < |steps| {
        assert StepOk(steps, i, startPort);
        assert q[i] == steps[i];
        assert PortBefore(q, i, startPort) == PortBefore(steps, i, startPort);
      }
    }
  }

  /** The trace and results of one more pass of the site loop. */
  lemma ExtendSteps(t0: seq<Event>, steps: seq<Step>, next: Step, sites: seq<Site>)
    requires |steps| < |sites|
    ensures Outcomes(steps + [next], sites)
      == Outcomes(steps, sites) + (if next.run.Some? then [SiteOutcome(next.run.value, sites[|steps|])] else [])
    ensures (t0 + StepsTrace(steps, sites)) + StepTrace(next, sites[|steps|].url) == t0 + StepsTrace(steps + [next], sites)
  {
    var q := steps + [next];
    assert q[..|steps|] == steps;
    AppendAssoc(t0, StepsTrace(steps, sites), StepTrace(next, sites[|steps|].url));
  }

  /** The site results the loop pushed, in order. */
  function Outcomes(steps: seq<Step>, sites: seq<Site>): seq<SiteResult>
    requires |steps| <= |sites|
  {
    if steps == [] then []
    else
      var last := steps[|steps| - 1];
      Outcomes(steps[..|steps| - 1], sites)
        + (if last.run.Some? then [SiteOutcome(last.run.value, sites[|steps| - 1])] else [])
  }

  /** When every step measured its site, the results are one per step, the
      i-th being the i-th site's. */
  lemma {:induction false} OutcomesAt(steps: seq<Step>, sites: seq<Site>)
    requires |steps| <= |sites|
    requires forall i | 0 <= i < |steps| :: steps[i].run.Some?
    ensures |Outcomes(steps, sites)| == |steps|
    ensures forall i | 0 <= i < |steps| :: Outcomes(steps, sites)[i] == SiteOutcome(steps[i].run.value, sites[i])
  {
    if steps != [] {
      var p := steps[..|steps| - 1];
      assert forall i | 0 <= i < |p| :: p[i] == steps[i];
      OutcomesAt(p, sites);
      var last := SiteOutcome(steps[|steps| - 1].run.value, sites[|steps| - 1]);
      assert Outcomes(steps, sites) == Outcomes(p, sites) + [last];
      forall i | 0 <= i < |steps| ensures Outcomes(steps, sites)[i] == SiteOutcome(steps[i].run.value, sites[i]) {
        if i < |p| {
          assert Outcomes(steps, sites)[i] == Outcomes(p, sites)[i];
        }
      }
    }
  }

  /** The first site is never preceded by a restart, and every later one is
      preceded by one restart. */
  lemma RestartPlacement(steps: seq<Step>, sites: seq<Site>, startPort: Option<int>, i: nat)
    requires Campaign(steps, sites, startPort) && i < |steps|
    ensures i == 0 ==> CountLaunches(steps[i].restart) == 0
    ensures i > 0 ==> CountLaunches(steps[i].restart) == 1 && CountAudits(steps[i].restart) == 0
  {
    assert StepOk(steps, i, startPort);
    if i > 0 {
      RestartCounts(steps[i].restart);
    }
  }

  /** A site measured by the campaign made both its batches with the
      configured count, the cold one clearing storage and the warm one
      keeping it. */
  lemma SiteRegimes(run: SiteRun, port0: Option<int>, url: string)
    requires Sequenced(run, port0)
    ensures AuditsUse(BatchTrace(run.cold, url), url, false)
    ensures AuditsUse(BatchTrace(run.warm, url), url, true)
    ensures CountLaunches(run.switch) == 1
    ensures |BatchOf(run.cold).runs| == MeasurementsPerCacheType
    ensures Switched(run) ==> |BatchOf(run.warm).runs| == MeasurementsPerCacheType
  {
    BatchOptions(run.cold, url, false, port0);
    if Switched(run) {
      BatchOptions(run.warm, url, true, StartedPort(run.switch));
    } else {
      assert BatchTrace(run.warm, url) == [];
    }
    RestartCounts(run.switch);
  }

  /** The outcome of runFullAnalysis given its recorded start and site loop:
      a failed start gives its error and measures nothing; otherwise the
      results are one per site, in order, unless a restart threw, in which
      case its error is returned and the loop stopped there. */
  ghost predicate Analysis(r: Result<seq<SiteResult>, Error>, start: seq<Event>, steps: seq<Step>, sites: seq<Site>)
  {
    && IsStartTrace(start)
    && Campaign(steps, sites, StartedPort(start))
    && (StartedPort(start).None? ==> steps == [] && r == Failure(LaunchError(start[1].launch.error)))
    && (r.Success? <==> StartedPort(start).Some? && |steps| == |sites| && forall i | 0 <= i < |steps| :: steps[i].run.Some?)
    && (r.Success? ==> |r.value| == |sites|)
    && (r.Success? ==> forall i | 0 <= i < |sites| :: r.value[i] == SiteOutcome(steps[i].run.value, sites[i]))
    && (r.Failure? && StartedPort(start).Some? ==>
      && |steps| > 0 && steps[|steps| - 1].run.None?
      && r.error.LaunchError? && LaunchFailure(steps[|steps| - 1].restart) == Some(r.error.message))
  }

  lemma StartFailed(start: seq<Event>, sites: seq<Site>)
    requires IsStartTrace(start) && StartedPort(start).None?
    ensures Analysis(Failure(LaunchError(start[1].launch.error)), start, [], sites)
  {
  }

  lemma AllMeasured(start: seq<Event>, steps: seq<Step>, sites: seq<Site>)
    requires IsStartTrace(start) && StartedPort(start).Some?
    requires Campaign(steps, sites, StartedPort(start)) && |steps| == |sites|
    requires |steps| == 0 || steps[|steps| - 1].run.Some?
    ensures Analysis(Success(Outcomes(steps, sites)), start, steps, sites)
  {
    assert forall i | 0 <= i < |steps| :: steps[i].run.Some?;
    OutcomesAt(steps, sites);
  }

  lemma RestartFailed(e: Error, start: seq<Event>, steps: seq<Step>, sites: seq<Site>)
    requires IsStartTrace(start) && StartedPort(start).Some?
    requires Campaign(steps, sites, StartedPort(start)) && |steps| > 0 && steps[|steps| - 1].run.None?
    requires e.LaunchError? && LaunchFailure(steps[|steps| - 1].restart) == Some(e.message)
    ensures Analysis(Failure(e), start, steps, sites)
  {
  }

  class PerformanceAnalyzer {
    const chromeManager: ChromeManager
    const lighthouseRunner: LighthouseRunner

    /** The runner drives the analyzer's own manager. */
    ghost predicate Valid()
      reads chromeManager
    {
      lighthouseRunner.chromeManager == chromeManager && chromeManager.Valid()
    }

    constructor (env: Env)
      ensures Valid() && chromeManager.env == env
      ensures chromeManager.chrome.None? && chromeManager.chromePort.None?
    {
      var manager := new ChromeManager(env);
      chromeManager := manager;
      lighthouseRunner := new LighthouseRunner(manager);
    }

    /** measureSite: a cold batch, a restart, a warm batch; when the restart
        throws, the catch block back-fills whichever field is still null. */
    method MeasureSite(site: Site) returns (siteResult: SiteResult, ghost run: SiteRun)
      requires Valid()
      modifies chromeManager, chromeManager.env
      ensures Valid()
      ensures Sequenced(run, old(chromeManager.chromePort))
      ensures siteResult == SiteOutcome(run, site)
      ensures siteResult.siteName == site.name && siteResult.url == site.url
      ensures siteResult.noCache == Measured(BatchOf(run.cold))
      ensures siteResult.withCache == if Switched(run) then Measured(BatchOf(run.warm)) else Fallback(DefaultMetrics())
      ensures chromeManager.env.trace == old(chromeManager.env.trace) + SiteRunTrace(run, site.url)
      ensures chromeManager.chromePort == SiteEndPort(run)
    {
      ghost var trace0 := chromeManager.env.trace;
      var noCache: Option<Batch> := None;
      var withCache: Option<Batch> := None;
      var cold, coldLogs := lighthouseRunner.MeasureMultiple(site.url, false, MeasurementsPerCacheType);
      noCache := Some(cold);
      ghost var chromeBefore := chromeManager.chrome;
      var restarted, switch := chromeManager.RestartChrome();
      RestartTraceIsAny(switch, chromeBefore);
      if restarted.Pass? {
        var warm, warmLogs := lighthouseRunner.MeasureMultiple(site.url, true, MeasurementsPerCacheType);
        withCache := Some(warm);
        run := SiteRun(coldLogs, switch, warmLogs);
        siteResult := SiteResult(site.name, site.url, Measured(noCache.value), Measured(withCache.value));
        AppendAssoc(trace0, BatchTrace(coldLogs, site.url), switch);
        AppendAssoc(trace0, BatchTrace(coldLogs, site.url) + switch, BatchTrace(warmLogs, site.url));
      } else {
        run := SiteRun(coldLogs, switch, []);
        siteResult := SiteResult(site.name, site.url, BackFill(noCache), BackFill(withCache));
        AppendAssoc(trace0, BatchTrace(coldLogs, site.url), switch);
      }
    }

    /** One pass of runFullAnalysis's site loop: the restart made before
        every site but the first, then measureSite unless that restart threw
        (the error it returns). */
    method VisitSite(site: Site, first: bool) returns (failure: Option<Error>, siteResult: Option<SiteResult>, ghost step: Step, ghost port: Option<int>)
      requires Valid()
      requires first ==> chromeManager.chromePort.Some?
      modifies chromeManager, chromeManager.env
      ensures Valid()
      ensures chromeManager.env.trace == old(chromeManager.env.trace) + StepTrace(step, site.url)
      ensures port == if first then old(chromeManager.chromePort) else StartedPort(step.restart)
      ensures Visited(step, port, first)
      ensures failure.None? <==> step.run.Some?
      ensures failure.Some? ==> failure.value.LaunchError? && LaunchFailure(step.restart) == Some(failure.value.message)
      ensures siteResult.Some? <==> step.run.Some?
      ensures siteResult.Some? ==> siteResult.value == SiteOutcome(step.run.value, site)
      ensures chromeManager.chromePort == if step.run.Some? then SiteEndPort(step.run.value) else StartedPort(step.restart)
    {
      ghost var trace0 := chromeManager.env.trace;
      ghost var restartEvents: seq<Event> := [];
      port := chromeManager.chromePort;
      if !first {
        ghost var chromeBefore := chromeManager.chrome;
        var restarted;
        restarted, restartEvents := chromeManager.RestartChrome();
        RestartTraceIsAny(restartEvents, chromeBefore);
        port := chromeManager.chromePort;
        if restarted.Fail? {
          step := Step(restartEvents, None);
          assert restartEvents + [] == restartEvents;
          return Some(restarted.error), None, step, port;
        }
      } else {
        assert trace0 + restartEvents == trace0;
      }
      var result, run := MeasureSite(site);
      step := Step(restartEvents, Some(run));
      AppendAssoc(trace0, restartEvents, SiteRunTrace(run, site.url));
      return None, Some(result), step, port;
    }

    /** The site loop of runFullAnalysis, from a started browser: each site
        in order, left at the first restart that threw. */
    method MeasureSites(sites: seq<Site>) returns (failure: Option<Error>, allResults: seq<SiteResult>, ghost steps: seq<Step>)
      requires Valid() && chromeManager.chromePort.Some?
      modifies chromeManager, chromeManager.env
      ensures Valid()
      ensures Campaign(steps, sites, old(chromeManager.chromePort))
      ensures chromeManager.env.trace == old(chromeManager.env.trace) + StepsTrace(steps, sites)
      ensures failure.None? ==> |steps| == |sites| && (|steps| == 0 || steps[|steps| - 1].run.Some?)
      ensures chromeManager.chromePort == LoopPort(steps, old(chromeManager.chromePort))
      ensures failure.None? ==> allResults == Outcomes(steps, sites)
      ensures failure.Some? ==>
        && |steps| > 0 && steps[|steps| - 1].run.None?
        && failure.value.LaunchError? && LaunchFailure(steps[|steps| - 1].restart) == Some(failure.value.message)
    {
      ghost var port0 := chromeManager.chromePort;
      ghost var trace0 := chromeManager.env.trace;
      steps := [];
      failure := None;
      allResults := [];
      var i := 0;
      while i < |sites|
        invariant 0 <= i <= |sites| && |steps| == i
        invariant Valid()
        invariant Campaign(steps, sites, port0)
        invariant |steps| == 0 || steps[|steps| - 1].run.Some?
        invariant chromeManager.env.trace == trace0 + StepsTrace(steps, sites)
        invariant chromeManager.chromePort == LoopPort(steps, port0)
        invariant allResults == Outcomes(steps, sites)
      {
        ghost var port, step;
        var failed, siteResult;
        failed, siteResult, step, port := VisitSite(sites[i], i == 0);
        ExtendCampaign(steps, step, port, sites, port0);
        ExtendSteps(trace0, steps, step, sites);
        steps := steps + [step];
        if failed.Some? {
          failure := failed;
          return;
        }
        allResults := allResults + [siteResult.value];
        i := i + 1;
      }
    }

    /** runFullAnalysis: start the browser, measure the sites in order with a
        restart before every site but the first, and stop the browser in the
        `finally` block whether or not a start or restart threw. The sequence
        of site results is what is handed to generateResults. */
    method RunFullAnalysis(sites: seq<Site>) returns (r: Result<seq<SiteResult>, Error>,
        ghost start: seq<Event>, ghost steps: seq<Step>, ghost stopped: Option<ChromeHandle>, ghost stop: seq<Event>)
      requires Valid()
      modifies chromeManager, chromeManager.env
      ensures Valid() && chromeManager.chrome.None? && chromeManager.chromePort.None?
      ensures Analysis(r, start, steps, sites) && IsStopTrace(stop, stopped)
      ensures StartedPort(start).None? ==> stopped == old(chromeManager.chrome)
      ensures StartedPort(start).Some? ==>
        && (stopped.Some? <==> LoopPort(steps, StartedPort(start)).Some?)
        && (stopped.Some? ==> LoopPort(steps, StartedPort(start)) == Some(stopped.value.port))
      ensures chromeManager.env.trace == old(chromeManager.env.trace) + start + StepsTrace(steps, sites) + stop
    {
      steps := [];
      var started;
      started, start := chromeManager.StartChrome();
      var failure: Option<Error> := None;
      var allResults: seq<SiteResult> := [];
      if started.Fail? {
        failure := Some(started.error);
      } else {
        failure, allResults, steps := MeasureSites(sites);
      }
      stopped := chromeManager.chrome;
      stop := chromeManager.StopChrome();
      if started.Fail? {
        StartFailed(start, sites);
        r := Failure(failure.value);
      } else if failure.Some? {
        RestartFailed(failure.value, start, steps, sites);
        r := Failure(failure.value);
      } else {
        AllMeasured(start, steps, sites);
        r := Success(allResults);
      }
    }
  }
}
