/**
 * The page's control flow as a state machine over the page globals it
 * touches: `API_BASE`, the browser's key-value storage, the output log, the
 * requests sent and the progress-bar widths set. `Detect`, `Ensure` and `Run`
 * give the state after `detectApiBase()`, `ensureBackend()` and `run()`;
 * the class in page.dfy carries the same steps out imperatively.
 */
module Orchestration {
  import opened Wrappers
  import opened Text
  import opened Accounts
  import opened Backend
  import opened Progress

  /** The CSS class of a log line. */
  datatype Tone = Muted | Ok | Err

  datatype LogLine = LogLine(text: string, tone: Tone)

  /** A request the page sends. */
  datatype Request =
    | HealthCheck(url: string)
    | RunPost(url: string, command: string, accounts: seq<Account>)

  /** One entry of the `results` array the backend answers with. */
  datatype AccountResult = AccountResult(name: string, ok: bool, message: string)

  /** How the POST to `/api/run` came back. */
  datatype Reply =
    | Thrown(message: string)               // fetch rejected; `e.message || e`
    | HttpError(status: nat, body: string)  // a non-2xx status; the body text, '' if unreadable
    | Malformed                             // a body that is not JSON, or a JSON value other than `null` whose `results` is not an array
    | NullBody(message: string)             // a JSON `null` body: reading its `results` throws, with this message
    | Results(results: seq<AccountResult>)

  /** How `run()` ended; each stands for the toast or early return it shows. */
  datatype RunOutcome =
    | MissingCommand | MissingAccounts | Unreachable
    | RequestFailed | ServerError(status: nat) | UnexpectedResponse | Completed

  datatype State = State(
    apiBase: Option<string>,
    storage: map<string, string>,
    log: seq<LogLine>,
    traffic: seq<Request>,
    bar: seq<int>)

  datatype Step<T> = Step(state: State, value: T)

  const ReadyLine := LogLine("Ready. Paste accounts, type a command, and click Run.", Muted)
  const ScanningLine := LogLine("Scanning for backend...", Muted)
  const UnreachableLine := LogLine("Cannot reach backend. Make sure \"npm start\" is running.", Err)
  const UnexpectedLine := LogLine("Unexpected response from server.", Err)

  function ConnectedLine(base: string): LogLine {
    LogLine("Connected to backend at " + base, Ok)
  }

  function SavedLine(base: string): LogLine {
    LogLine("Using saved backend: " + base, Ok)
  }

  function RunningLine(command: string, count: nat): LogLine {
    LogLine("Running \"" + command + "\" for " + NatToString(count) + " account(s)...", Muted)
  }

  function ServerErrorLine(status: nat, body: string): LogLine {
    LogLine("Server error (" + NatToString(status) + "): " + body, Err)
  }

  function FailedLine(message: string): LogLine {
    LogLine("Request failed: " + message, Err)
  }

  const Check: string := "\U{2714}"
  const Cross: string := "\U{2716}"

  /** The log line of one account's result. */
  function ResultLine(e: AccountResult): LogLine {
    LogLine((if e.ok then Check else Cross) + " " + e.name + ": " + e.message, if e.ok then Ok else Err)
  }

  /**
   * A result's line starts with a check mark and has the `ok` tone exactly
   * when the account succeeded (a cross and `err` otherwise), then names the
   * account and ends with the server's message.
   */
  lemma ResultLineShape(e: AccountResult)
    ensures var line := ResultLine(e);
      && line.tone == (if e.ok then Ok else Err)
      && |line.text| == 4 + |e.name| + |e.message|
      && (line.text[0] == '\U{2714}' <==> e.ok)
      && (line.text[0] == '\U{2716}' <==> !e.ok)
      && line.text[2..2 + |e.name|] == e.name
      && line.text[|line.text| - |e.message|..] == e.message
  {
    var text := ResultLine(e).text;
    assert text[2..2 + |e.name|] == e.name;
  }

  /** The lines the results loop of `run()` appends, one per result. */
  function ResultLines(rs: seq<AccountResult>): (lines: seq<LogLine>)
    ensures |lines| == |rs|
  {
    if rs == [] then [] else ResultLines(rs[..|rs| - 1]) + [ResultLine(rs[|rs| - 1])]
  }

  /** The k-th line is the one for the k-th result: one line per result, in their order. */
  lemma {:induction false} ResultLinesAt(rs: seq<AccountResult>)
    ensures forall k :: 0 <= k < |rs| ==> ResultLines(rs)[k] == ResultLine(rs[k])
  {
    if rs != [] {
      ResultLinesAt(rs[..|rs| - 1]);
    }
  }

  /** The health checks sent while probing the given bases. */
  function Probes(bases: seq<string>): (r: seq<Request>)
    ensures |r| == |bases|
  {
    if bases == [] then [] else Probes(bases[..|bases| - 1]) + [HealthCheck(HealthUrl(bases[|bases| - 1]))]
  }

  /** The k-th probe checks the k-th base: one health check per base, in their order. */
  lemma {:induction false} ProbesAt(bases: seq<string>)
    ensures forall k :: 0 <= k < |bases| ==> Probes(bases)[k] == HealthCheck(HealthUrl(bases[k]))
  {
    if bases != [] {
      ProbesAt(bases[..|bases| - 1]);
    }
  }

  /** `detectApiBase()` */
  function Detect(s: State, origin: string, ok: string -> bool): Step<Option<string>> {
    Scan(s.(log := s.log + [ScanningLine]), Candidates(Get(s.storage, SavedBaseKey), origin), ok)
  }

  /**
   * The loop of `detectApiBase()` over the candidates `cands`: probe them in
   * order, adopt and store the first healthy one, or report that none answered.
   */
  function Scan(s: State, cands: seq<string>, ok: string -> bool): Step<Option<string>> {
    match FirstHealthy(cands, ok)
    case Some(k) =>
      var base := StripSlash(cands[k]);
      Step(s.(apiBase := Some(base),
              storage := s.storage[SavedBaseKey := base],
              log := s.log + [ConnectedLine(base)],
              traffic := s.traffic + Probes(cands[..k + 1])),
           Some(base))
    case None =>
      Step(s.(log := s.log + [UnreachableLine], traffic := s.traffic + Probes(cands)), None)
  }

  /** `ensureBackend()` */
  function Ensure(s: State, origin: string, ok: string -> bool): Step<Option<string>> {
    if Truthy(s.apiBase) then Step(s, s.apiBase)
    else
      var saved := Get(s.storage, SavedBaseKey);
      if Truthy(saved) then
        var probed := s.(traffic := s.traffic + [HealthCheck(HealthUrl(saved.value))]);
        if Healthy(ok, saved.value) then
          Step(probed.(apiBase := saved, log := probed.log + [SavedLine(saved.value)]), saved)
        else Detect(probed, origin, ok)
      else Detect(s, origin, ok)
  }

  /** Page load: the greeting line, then a first detection. */
  function Start(s: State, origin: string, ok: string -> bool): Step<Option<string>> {
    Detect(s.(log := s.log + [ReadyLine]), origin, ok)
  }

  /** The part of `run()` after the request to `/api/run` was sent. */
  function Answer(s: State, reply: Reply): Step<RunOutcome> {
    match reply
    case Thrown(message) =>
      Step(s.(log := s.log + [FailedLine(message)]), RequestFailed)
    case HttpError(status, body) =>
      Step(s.(bar := s.bar + [Clamp(50)], log := s.log + [ServerErrorLine(status, body)]), ServerError(status))
    case Malformed =>
      Step(s.(bar := s.bar + [Clamp(50)], log := s.log + [UnexpectedLine]), UnexpectedResponse)
    case NullBody(message) =>
      Step(s.(bar := s.bar + [Clamp(50)], log := s.log + [FailedLine(message)]), RequestFailed)
    case Results(rs) =>
      var n := |rs|;
      Step(s.(bar := s.bar + [Clamp(50)] + Ticks(n),
              log := s.log + ResultLines(rs)),
           Completed)
  }

  /**
   * The part of `run()` after `ensureBackend()` answered `e`: stop when no
   * backend was found, otherwise announce the batch, send it and read the reply.
   */
  function Proceed(e: Step<Option<string>>, command: string, accounts: seq<Account>, reply: Reply): Step<RunOutcome> {
    if !Truthy(e.value) then Step(e.state.(bar := e.state.bar + [Clamp(0)]), Unreachable)
    else
      var t := e.state;
      var sent := t.(log := t.log + [RunningLine(command, |accounts|)],
                     bar := t.bar + [Clamp(28)],
                     traffic := t.traffic + [RunPost(ApiUrl(t.apiBase, "/api/run"), command, accounts)]);
      Answer(sent, reply)
  }

  /** `run()`, with the two text fields and the backend's reply as parameters. */
  function Run(s: State, origin: string, accountsText: string, commandText: string,
               ok: string -> bool, reply: Reply): Step<RunOutcome>
  {
    var command := Trim(commandText);
    if command == [] then Step(s, MissingCommand)
    else
      var accounts := ParseAccounts(accountsText);
      if accounts == [] then Step(s, MissingAccounts)
      else Proceed(Ensure(s.(log := [], bar := s.bar + [Clamp(12)]), origin, ok), command, accounts, reply)
  }
}
