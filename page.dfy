/**
 * The page controller of app.js as an object whose fields are the globals
 * its functions update in place: `API_BASE`, the browser's key-value
 * storage, the output log, the requests sent and the progress-bar widths.
 * Each method does what the app.js function of the same purpose does, step
 * by step, and is proved to reach the state the matching function of
 * orchestration.dfy describes.
 */
module Controller {
  import opened Wrappers
  import opened Text
  import opened Accounts
  import opened Backend
  import opened Progress
  import opened Orchestration
  import opened Properties

  class Page {
    /** `location.origin` of the page. */
    const origin: string
    var apiBase: Option<string>
    var storage: map<string, string>
    var log: seq<LogLine>
    var traffic: seq<Request>
    var bar: seq<int>

    function Snapshot(): State
      reads this
    {
      State(apiBase, storage, log, traffic, bar)
    }

    /** A freshly loaded page: no backend yet, an empty log, nothing sent. */
    constructor (origin: string, storage: map<string, string>)
      ensures this.origin == origin
      ensures Snapshot() == State(None, storage, [], [], [])
    {
      this.origin := origin;
      this.apiBase := None;
      this.storage := storage;
      this.log := [];
      this.traffic := [];
      this.bar := [];
    }

    /** `append(line, cls)` */
    method Append(line: LogLine)
      modifies this`log
      ensures log == old(log) + [line]
    {
      log := log + [line];
    }

    /** `setProgress(pct)`: the width set is `pct` clamped to 0..100. */
    method SetProgress(pct: int)
      modifies this`bar
      ensures bar == old(bar) + [Clamp(pct)]
      ensures 0 <= bar[|bar| - 1] <= 100
    {
      bar := bar + [Clamp(pct)];
    }

    /** `isHealthy(base)`: one GET of the health URL; `ok` answers it. */
    method IsHealthy(base: string, ok: string -> bool) returns (healthy: bool)
      modifies this`traffic
      ensures healthy == Healthy(ok, base)
      ensures traffic == old(traffic) + [HealthCheck(HealthUrl(base))]
    {
      traffic := traffic + [HealthCheck(HealthUrl(base))];
      healthy := ok(HealthUrl(base));
    }

    /** `detectApiBase()`: announce the scan, then probe the candidates in order. */
    method DetectApiBase(ok: string -> bool) returns (found: Option<string>)
      modifies this
      ensures Step(Snapshot(), found) == Detect(old(Snapshot()), origin, ok)
    {
      Append(ScanningLine);
      var candidates := CandidateBases(Get(storage, SavedBaseKey), origin);
      found := ScanCandidates(candidates, ok);
    }

    /**
     * The loop of `detectApiBase()`: probe the candidates in order and stop
     * at the first healthy one; then adopt and store it, or log that none
     * answered.
     */
    method ScanCandidates(candidates: seq<string>, ok: string -> bool) returns (found: Option<string>)
      modifies this`apiBase, this`storage, this`log, this`traffic
      ensures Step(Snapshot(), found) == Scan(old(Snapshot()), candidates, ok)
    {
      var k := ProbeCandidates(candidates, ok);
      if k.Some? {
        var base := StripSlash(candidates[k.value]);
        apiBase := Some(base);
        log := log + [ConnectedLine(base)];
        storage := storage[SavedBaseKey := base];
        return Some(base);
      }
      log := log + [UnreachableLine];
      return None;
    }

    /** The health checks of that loop: one per candidate up to the first healthy one, whose position is returned. */
    method ProbeCandidates(candidates: seq<string>, ok: string -> bool) returns (k: Option<nat>)
      modifies this`traffic
      ensures k == FirstHealthy(candidates, ok)
      ensures k.Some? ==> traffic == old(traffic) + Probes(candidates[..k.value + 1])
      ensures k.None? ==> traffic == old(traffic) + Probes(candidates)
    {
      var i := 0;
      while i < |candidates|
        invariant 0 <= i <= |candidates|
        invariant forall j :: 0 <= j < i ==> !Healthy(ok, candidates[j])
        invariant traffic == old(traffic) + Probes(candidates[..i])
      {
        var healthy := IsHealthy(candidates[i], ok);
        assert candidates[..i + 1][..i] == candidates[..i];
        assert traffic == old(traffic) + Probes(candidates[..i + 1]);
        if healthy {
          FirstHealthyIs(candidates, ok, i);
          return Some(i);
        }
        i := i + 1;
      }
      assert candidates[..i] == candidates;
      FirstHealthyNone(candidates, ok);
      return None;
    }

    /** `ensureBackend()`: the cached base, else a healthy saved one, else a detection. */
    method EnsureBackend(ok: string -> bool) returns (base: Option<string>)
      modifies this
      ensures Step(Snapshot(), base) == Ensure(old(Snapshot()), origin, ok)
    {
      if Truthy(apiBase) {
        return apiBase;
      }
      var saved := Get(storage, SavedBaseKey);
      if Truthy(saved) {
        var healthy := IsHealthy(saved.value, ok);
        if healthy {
          apiBase := saved;
          Append(SavedLine(saved.value));
          return saved;
        }
      }
      base := DetectApiBase(ok);
    }

    /** Page load: the greeting line, then a first detection of the backend. */
    method Load(ok: string -> bool) returns (found: Option<string>)
      modifies this
      requires Consistent(Snapshot())
      ensures Step(Snapshot(), found) == Start(old(Snapshot()), origin, ok)
      ensures Consistent(Snapshot())
    {
      StartConsistent(Snapshot(), origin, ok);
      Append(ReadyLine);
      found := DetectApiBase(ok);
    }

    /**
     * `run()`: check the command and the accounts, find a backend, send the
     * batch and log its results one by one while the bar advances.
     */
    method Run(accountsText: string, commandText: string, ok: string -> bool, reply: Reply)
      returns (outcome: RunOutcome)
      modifies this
      requires Consistent(Snapshot())
      ensures Step(Snapshot(), outcome) == Orchestration.Run(old(Snapshot()), origin, accountsText, commandText, ok, reply)
      ensures Consistent(Snapshot())
    {
      RunConsistent(Snapshot(), origin, accountsText, commandText, ok, reply);
      var command := Trim(commandText);
      if command == [] {
        return MissingCommand;
      }
      var accounts := ParseAccounts(accountsText);
      if accounts == [] {
        return MissingAccounts;
      }
      outcome := Launch(command, accounts, ok, reply);
      assert Orchestration.Run(old(Snapshot()), origin, accountsText, commandText, ok, reply)
          == Proceed(Ensure(old(Snapshot()).(log := [], bar := old(bar) + [Clamp(12)]), origin, ok), command, accounts, reply);
    }

    /** `run()` once its input checks passed: clear the log, show 12, find a backend, send. */
    method Launch(command: string, accounts: seq<Account>, ok: string -> bool, reply: Reply)
      returns (outcome: RunOutcome)
      modifies this
      ensures Step(Snapshot(), outcome)
        == Proceed(Ensure(old(Snapshot()).(log := [], bar := old(bar) + [Clamp(12)]), origin, ok), command, accounts, reply)
    {
      log := [];
      SetProgress(12);
      ghost var cleared := Snapshot();
      var base := EnsureBackend(ok);
      ghost var e := Step(Snapshot(), base);
      assert e == Ensure(cleared, origin, ok);
      outcome := Send(base, command, accounts, reply);
    }

    /**
     * The rest of `run()` once `ensureBackend()` answered `base`: stop without
     * a backend, else announce and send the batch, then handle the reply.
     */
    method Send(base: Option<string>, command: string, accounts: seq<Account>, reply: Reply)
      returns (outcome: RunOutcome)
      modifies this
      ensures Step(Snapshot(), outcome) == Proceed(Step(old(Snapshot()), base), command, accounts, reply)
    {
      if !Truthy(base) {
        SetProgress(0);
        return Unreachable;
      }
      Append(RunningLine(command, |accounts|));
      SetProgress(28);
      traffic := traffic + [RunPost(ApiUrl(apiBase, "/api/run"), command, accounts)];
      match reply
      case Thrown(message) =>
        Append(FailedLine(message));
        return RequestFailed;
      case HttpError(status, body) =>
        SetProgress(50);
        Append(ServerErrorLine(status, body));
        return ServerError(status);
      case Malformed =>
        SetProgress(50);
        Append(UnexpectedLine);
        return UnexpectedResponse;
      case NullBody(message) =>
        SetProgress(50);
        Append(FailedLine(message));
        return RequestFailed;
      case Results(rs) =>
        SetProgress(50);
        ShowResults(rs);
        return Completed;
    }

    /** The results loop of `run()`: one log line per result, and the bar moved after each. */
    method ShowResults(rs: seq<AccountResult>)
      modifies this`log, this`bar
      ensures log == old(log) + ResultLines(rs)
      ensures bar == old(bar) + Ticks(|rs|)
    {
      var n := |rs|;
      var i := 0;
      while i < n
        invariant 0 <= i <= n
        invariant log == old(log) + ResultLines(rs[..i])
        invariant bar == old(bar) + (if i == 0 then [] else Steps(i, n))
      {
        i := i + 1;
        assert rs[..i][..i - 1] == rs[..i - 1];
        assert ResultLines(rs[..i]) == ResultLines(rs[..i - 1]) + [ResultLine(rs[i - 1])];
        assert Steps(i, n) == (if i - 1 == 0 then [] else Steps(i - 1, n)) + [Clamp(50 + Round50(i, n))];
        Append(ResultLine(rs[i - 1]));
        SetProgress(50 + Round50(i, n));
      }
      assert rs[..n] == rs;
    }
  }
}
