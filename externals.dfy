/** The collaborators the core drives but does not own: the shell command that
    kills stray Chrome processes, chrome-launcher, the handle's kill(), the curl
    probe and the Lighthouse backend. Each is a method whose outcome is chosen
    nondeterministically; every call is appended to a trace, so the core's
    contracts can say exactly which external calls it made and in what order. */
module Externals {
  import opened Wrappers

  /** An error thrown by a collaborator or by the core itself. */
  datatype Error =
    | LaunchError(message: string)
    | ChromeNotRunning
    | InvalidResult
    | LighthouseError(message: string)

  /** The object chrome-launcher resolves to; the core reads its port. */
  datatype ChromeHandle = ChromeHandle(pid: int, port: int)

  datatype LaunchOutcome = Launched(handle: ChromeHandle) | LaunchFailed(error: string)

  /** An audit's numericValue: absent (undefined), NaN, or a number. */
  datatype NumericValue = Absent | NaN | Num(v: real)

  datatype Audit = Audit(numericValue: NumericValue)

  /** Lighthouse's result object: audits by audit id. */
  datatype Lhr = Lhr(audits: map<string, Audit>)

  /** The value `lighthouse()` resolves to; `lhr` may be missing. */
  datatype RunnerResult = RunnerResult(lhr: Option<Lhr>)

  /** A Lighthouse call either throws or resolves to a possibly null result. */
  datatype LighthouseOutcome =
    | Threw(message: string)
    | Resolved(result: Option<RunnerResult>)

  /** The per-attempt options the core computes; the static part of
      LIGHTHOUSE_OPTIONS is passed through unchanged and not represented. */
  datatype Options = Options(port: int, disableStorageReset: bool, clearStorageTypes: seq<string>)

  /** One call across the boundary. */
  datatype Event =
    | ExistingKilled
    | LaunchAttempted(port: int, launch: LaunchOutcome)
    | HandleKilled(handle: ChromeHandle, ok: bool)
    | Probed(port: int, up: bool)
    | Audited(url: string, options: Options, response: LighthouseOutcome)

  class Env {
    /** Every call made so far, in order; it exists only in the proof. */
    ghost var trace: seq<Event>

    constructor ()
      ensures trace == []
    {
      trace := [];
    }

    /** `pkill -f "chrome"` (or taskkill); its errors are swallowed. */
    method KillExisting()
      modifies this
      ensures trace == old(trace) + [ExistingKilled]
    {
      trace := trace + [ExistingKilled];
    }

    /** chromeLauncher.launch({port, ...}); may throw. */
    method Launch(port: int) returns (r: LaunchOutcome)
      modifies this
      ensures trace == old(trace) + [LaunchAttempted(port, r)]
    {
      r := *;
      trace := trace + [LaunchAttempted(port, r)];
    }

    /** chrome.kill(); `ok` is false when it throws. */
    method KillChrome(handle: ChromeHandle) returns (ok: bool)
      modifies this
      ensures trace == old(trace) + [HandleKilled(handle, ok)]
    {
      ok := *;
      trace := trace + [HandleKilled(handle, ok)];
    }

    /** `curl -s http://localhost:<port>/json`: whether the endpoint answered. */
    method Probe(port: int) returns (up: bool)
      modifies this
      ensures trace == old(trace) + [Probed(port, up)]
    {
      up := *;
      trace := trace + [Probed(port, up)];
    }

    /** lighthouse(url, options). */
    method RunLighthouse(url: string, options: Options) returns (r: LighthouseOutcome)
      modifies this
      ensures trace == old(trace) + [Audited(url, options, r)]
    {
      r := *;
      trace := trace + [Audited(url, options, r)];
    }
  }
}
