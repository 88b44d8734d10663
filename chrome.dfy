/** src/modules/ChromeManager.js: the owner of the one browser process. */
module Chrome {
  import opened Wrappers
  import opened Externals
  import opened Config

  /** The calls stopChrome makes when it finds `before` recorded: nothing when
      there is no handle, else the handle's kill() and, if that threw, the
      fallback kill of every Chrome process. */
  ghost predicate IsStopTrace(t: seq<Event>, before: Option<ChromeHandle>)
  {
    match before
    case None => t == []
    case Some(h) => t == [HandleKilled(h, true)] || t == [HandleKilled(h, false), ExistingKilled]
  }

  /** The calls stopChrome makes for some handle or none. */
  ghost predicate IsAnyStopTrace(t: seq<Event>)
  {
    t == [] || (t[0].HandleKilled? && IsStopTrace(t, Some(t[0].handle)))
  }

  /** The calls startChrome makes: the stray-process kill, then one launch on
      the configured port. */
  ghost predicate IsStartTrace(t: seq<Event>)
  {
    |t| == 2 && t[0] == ExistingKilled && t[1].LaunchAttempted? && t[1].port == ChromePort
  }

  /** The calls restartChrome makes: a complete stop, then a start. */
  ghost predicate IsRestartTrace(t: seq<Event>, before: Option<ChromeHandle>)
  {
    |t| >= 2 && IsStopTrace(t[..|t| - 2], before) && IsStartTrace(t[|t| - 2..])
  }

  ghost predicate IsAnyRestartTrace(t: seq<Event>)
  {
    |t| >= 2 && IsAnyStopTrace(t[..|t| - 2]) && IsStartTrace(t[|t| - 2..])
  }

  /** The port recorded once a trace that ends in a launch has run: the
      launched handle's port, or none when the launch threw. */
  function StartedPort(t: seq<Event>): Option<int>
  {
    if |t| > 0 && t[|t| - 1].LaunchAttempted? && t[|t| - 1].launch.Launched?
    then Some(t[|t| - 1].launch.handle.port)
    else None
  }

  /** The message of the failed launch a trace ends with, if it ends with
      one. */
  function LaunchFailure(t: seq<Event>): Option<string>
  {
    if |t| > 0 && t[|t| - 1].LaunchAttempted? && t[|t| - 1].launch.LaunchFailed?
    then Some(t[|t| - 1].launch.error)
    else None
  }

  lemma RestartTraceIsAny(t: seq<Event>, before: Option<ChromeHandle>)
    requires IsRestartTrace(t, before)
    ensures IsAnyRestartTrace(t)
  {
  }

  class ChromeManager {
    const env: Env
    var chrome: Option<ChromeHandle>
    var chromePort: Option<int>

    /** A port is recorded exactly when a handle is, and it is the handle's. */
    ghost predicate Valid()
      reads this
    {
      match chrome
      case None => chromePort.None?
      case Some(h) => chromePort == Some(h.port)
    }

    constructor (env: Env)
      ensures Valid() && this.env == env
      ensures chrome.None? && chromePort.None?
    {
      this.env := env;
      chrome := None;
      chromePort := None;
    }

    predicate IsRunning(): (b: bool)
      reads this
      ensures Valid() ==> (b <==> chrome.Some?)
    {
      chrome.Some? && chromePort.Some?
    }

    function GetPort(): (p: Option<int>)
      reads this
      ensures Valid() ==> (p.Some? <==> IsRunning())
      ensures Valid() && p.Some? ==> p.value == chrome.value.port
    {
      chromePort
    }

    method StartChrome() returns (r: Outcome<Error>, ghost events: seq<Event>)
      requires Valid()
      modifies this, env
      ensures Valid()
      ensures env.trace == old(env.trace) + events && IsStartTrace(events)
      ensures r.Pass? <==> events[1].launch.Launched?
      ensures r.Pass? ==> chrome == Some(events[1].launch.handle) && chromePort == StartedPort(events)
      ensures r.Fail? ==> r.error == LaunchError(events[1].launch.error)
      ensures r.Fail? ==> chrome == old(chrome) && chromePort == old(chromePort)
    {
      env.KillExisting();
      var launched := env.Launch(ChromePort);
      events := [ExistingKilled, LaunchAttempted(ChromePort, launched)];
      match launched
      case Launched(h) =>
        chrome := Some(h);
        chromePort := Some(h.port);
        r := Pass;
      case LaunchFailed(e) =>
        r := Fail(LaunchError(e));
    }

    method StopChrome() returns (ghost events: seq<Event>)
      requires Valid()
      modifies this, env
      ensures Valid() && chrome.None? && chromePort.None?
      ensures env.trace == old(env.trace) + events && IsStopTrace(events, old(chrome))
      ensures old(chrome).None? ==> unchanged(this) && events == []
    {
      match chrome
      case None =>
        events := [];
      case Some(h) =>
        var ok := env.KillChrome(h);
        if ok {
          events := [HandleKilled(h, true)];
        } else {
          env.KillExisting();
          events := [HandleKilled(h, false), ExistingKilled];
        }
        chrome := None;
        chromePort := None;
    }

    method RestartChrome() returns (r: Outcome<Error>, ghost events: seq<Event>)
      requires Valid()
      modifies this, env
      ensures Valid()
      ensures env.trace == old(env.trace) + events && IsRestartTrace(events, old(chrome))
      ensures chromePort == StartedPort(events)
      ensures r.Pass? <==> chromePort.Some?
      ensures r.Fail? ==> chrome.None? && r.error == LaunchError(events[|events| - 1].launch.error)
    {
      var stopped := StopChrome();
      ghost var started;
      r, started := StartChrome();
      events := stopped + started;
      assert events[..|events| - 2] == stopped;
      assert events[|events| - 2..] == started;
    }

    /** A probe of the recorded port; no probe is made when no (truthy) port
        is recorded. */
    method CheckConnection() returns (up: bool)
      modifies env
      ensures (chromePort.None? || chromePort.value == 0) ==> !up && env.trace == old(env.trace)
      ensures chromePort.Some? && chromePort.value != 0 ==> env.trace == old(env.trace) + [Probed(chromePort.value, up)]
    {
      if chromePort.None? || chromePort.value == 0 {
        return false;
      }
      up := env.Probe(chromePort.value);
    }
  }
}
