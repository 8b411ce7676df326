# Multi-account command runner: page controller model

`app.js` is the browser-side controller of a small tool that runs one
command for many game accounts at once. The user pastes one account per line
(`Label|cookie` or `Label:cookie`, the cookie optionally pasted with its
`.ROBLOSECURITY=` prefix) and types a command. The page then finds a backend
server and posts the batch to it. It shows one log line per account result
while a progress bar advances.

This project models the core of that controller in Dafny:

- **Account parsing** (`parseAccounts`, accounts.dfy). The text is split on
  line feeds and every line is trimmed. Blank lines are dropped. The
  separator is `|` when the line has one, else `:`. The label is part 0 and
  the cookie is part 1, both trimmed. Everything up to and including the
  first `.ROBLOSECURITY=` is removed from the cookie. A line without a
  separator, label or cookie is dropped. JavaScript's `trim`, `split`,
  `indexOf` and number-to-text conversion are written out in text.dfy.
- **Backend discovery** (backend.dfy, orchestration.dfy). `candidateBases`
  lists a non-empty saved base first, then the page origin when it is
  HTTP(S), then six loopback URLs that are not listed yet. `isHealthy`
  probes `<base without one trailing slash>/api/health`. `detectApiBase`
  adopts, logs and stores the first healthy candidate. `ensureBackend`
  reuses a cached `API_BASE`, else re-checks the saved base, else runs a
  detection. `apiUrl` joins the base and a path.
- **Progress** (progress.dfy). `setProgress` clamps to 0..100. The results
  loop sets `50 + Math.round(i / n * 50)`, written in integers as
  `(100 i + n) div (2 n)`.
- **`run()`** (orchestration.dfy). It refuses an empty command or an empty
  account list without touching the page. It clears the log, shows 12,
  ensures a backend (0 and stop if none), logs the "Running" line, shows 28
  and posts the batch. Then it handles a rejected request, an HTTP error, a
  malformed body, a JSON `null` body (reading its `results` throws, so the
  "Request failed" line follows the 50) or the results.
- **The page object** (page.dfy). Class `Page` holds the globals the code
  updates in place: `API_BASE`, the browser storage, the log, the requests
  sent and the bar widths. Its methods follow the JavaScript functions step
  by step, with loops where the source loops. Each is proved to reach the
  state that the functions of orchestration.dfy describe.

The network is an oracle `ok: string -> bool`, which holds when a GET of the
URL answers with a 2xx status. The reply to the batch POST is a parameter.
The requests the page sends are recorded in `traffic`, so the proofs can say
which URLs were probed and what was posted.

Properties proved:

- **Parsing.** Every parsed record is well formed. Lines are parsed
  independently and their order is kept. Sample lines parse as the format
  describes.
- **Candidates.** The order of the list is proved. Every loopback URL is in
  it, and no repeats follow the first two entries. The list repeats an
  entry exactly when the saved base equals the page origin
  (`CandidatesDistinct`). A detection then checks that URL twice in a row
  when it is down (`DetectProbesOriginTwice`), and `ensureBackend` three
  times (`EnsureProbesOriginThrice`).
- **Detection.** It picks the first healthy candidate and probes exactly
  the candidates up to it. When every candidate fails, the state is
  otherwise unchanged.
- **`run()`.** It sends at most one batch, and only after both input checks
  passed and a backend was found. The batch goes to `<base>/api/run` with
  the trimmed command and the parsed accounts. On success the log ends with
  one line per result, in order. The bar goes 12, 28, 50 and then once per
  result, never backwards, ending at 100, or at 50 when the results array
  is empty.
- **Consistency.** Every step keeps the page consistent: a cached base is
  the stored one, every width is within 0..100, and every batch posted was
  valid.

A saved base is adopted as stored. When it was stored with a trailing `/`
by something other than this page, `apiUrl` produces `<base>//api/run`.
`EnsureAdoptsSaved` states the adoption without stripping.

The model follows the code where its behaviour may differ from what a user expects:

- a line is split on every separator and only the first two parts are
  used, so the cookie is part 1, not the rest of the line;
- there is no static override of the backend URL;
- a stored base is never invalidated; a failed re-check only leads to a
  new detection.

## Model

| member | source | states |
|---|---|---|
| Text.Trim | app.js:104 | the result has no white space at either end, is empty exactly when the input is all white space, and is never longer |
| Text.TrimOf | app.js:104 | white space, then a trimmed middle, then white space trims to the middle |
| Text.TrimIdempotent | app.js:110-111 | `trim` leaves a trimmed string as it is, so trimming an already trimmed line or part changes nothing |
| Text.TrimKeeps | app.js:110-111 | every character of a trimmed string occurs in the original |
| Text.Split | app.js:103 | at least one part; no part holds the separator; every character of a part comes from the input |
| Text.SplitJoin | app.js:103 | joining the parts with the separator gives the input back |
| Text.JoinSplit | app.js:103 | splitting parts joined by a separator they do not hold gives the parts back |
| Text.SplitAppend | app.js:103 | splitting `a + sep + b` gives the parts of `a` followed by the parts of `b` |
| Text.IndexOf | app.js:112 | a found position holds the pattern and no earlier one does; not found means no position holds it |
| Text.NatToString | app.js:166 | a count renders as at least one decimal digit, without a leading zero |
| Text.NatToStringValue | app.js:166 | reading the rendered digits back gives the number |
| Accounts.StripMarker | app.js:112-113 | the cookie is a suffix of its input; without `.ROBLOSECURITY=` it is unchanged, otherwise it starts right after the first occurrence |
| Accounts.Separator | app.js:107 | `\|` when the line holds one, else `:` when it holds one, else none; its use is stated by `ParseLine` and `ParseLineOf` |
| Accounts.ParseLine | app.js:106-116 | a line without `\|` or `:` gives nothing; every record given has a non-empty trimmed label and a non-empty cookie, neither holding `\|` |
| Accounts.NonBlankLines | app.js:104-105 | the kept lines are trimmed and non-empty, at most one per line |
| Accounts.Collect | app.js:106-117 | at most one record per line, each well formed |
| Accounts.ParseAccounts | app.js:101-118 | at most one record per non-blank line, each well formed |
| Accounts.NonBlankLinesAppend | app.js:104-105 | filtering two blocks of lines is filtering each |
| Accounts.CollectAppend | app.js:106-117 | parsing two blocks of lines is parsing each, in order |
| Accounts.ParseAccountsAppend | app.js:101-118 | the records of `a` and `b` joined by a line feed are those of `a` followed by those of `b` |
| Accounts.ParseAccountsOneLine | app.js:101-118 | one line gives nothing when blank, else the record of its trimmed text |
| Accounts.SplitHead | app.js:109 | part 0 of a line is the text before its first separator |
| Accounts.ParseLineOf | app.js:107-115 | the record of `label sep cookie [sep …]` is the trimmed label and the stripped trimmed cookie, or nothing when either is empty |
| Accounts.StripMarkerPasted | app.js:112-113 | a cookie pasted with its prefix loses exactly the prefix |
| Accounts.StripMarkerNoDot | app.js:112-113 | a cookie without `.` is kept as it is |
| Accounts.ParseLineWords | app.js:106-116 | `label\|cookie` and `label:cookie` give exactly that pair |
| Accounts.ParseLinePasted | app.js:109-115 | `label\|.ROBLOSECURITY=value` gives the label and the value |
| Accounts.ParseLineEmptyCookie | app.js:109-114 | a label followed by `\|` and then nothing or a second `\|` gives no record: the cookie is the empty part 1 |
| Accounts.ParseLineAlice | app.js:106-116 | `Alice\|abc123` gives Alice with cookie abc123 |
| Accounts.ParseLineBob | app.js:106-116 | `Bob:xyz` gives Bob with cookie xyz |
| Accounts.ParseLineCarl | app.js:109-115 | `Carl\|.ROBLOSECURITY=SECRETVAL` gives Carl with cookie SECRETVAL |
| Accounts.ParseLineNoSeparator | app.js:107-108 | a line with neither separator gives nothing |
| Accounts.ParseLineNoCookie | app.js:114 | `Dan\|` gives nothing |
| Accounts.ParseLineNoName | app.js:114 | `\|abc` gives nothing |
| Accounts.ParseOneAccount | app.js:101-118 | one well-formed line gives exactly its record |
| Accounts.ParseAccountsTwoLines | app.js:101-118 | two well-formed lines give their two records in order |
| Backend.IsHttpOrigin | app.js:45 | the origin starts with `http://` or `https://`, letters compared without regard to case; its use is stated by `CandidatesOrder` |
| Backend.Seeds | app.js:41-45 | a non-empty saved base, then an HTTP(S) origin; stated by `CandidatesOrder` and `CandidatesDistinct` |
| Backend.Candidates | app.js:39-54 | what `candidateBases()` returns; `CandidateBases` is proved to build it, and `CandidatesOrder`, `CandidatesCover`, `CandidatesFresh` and `CandidatesDistinct` state its order, coverage and repeats |
| Backend.Unlisted | app.js:48-51 | what the loopback loop adds is no longer than the list it walks, and each entry is from it and not yet listed |
| Backend.FallbacksDistinct | app.js:48-50 | the six loopback URLs are pairwise different |
| Backend.CandidateBases | app.js:39-54 | the list built is the saved base and HTTP(S) origin followed by the loopback URLs not yet in it |
| Backend.PushUnlisted | app.js:51 | pushing each URL not yet included gives the start of the list followed by the new URLs in their order |
| Backend.UnlistedStep | app.js:51 | in that loop a URL is already included exactly when it is one of the first two entries, and it is appended otherwise |
| Backend.UnlistedKeeps | app.js:51 | every loopback URL not among the first entries is added |
| Backend.UnlistedDistinct | app.js:51 | the loopback part of the list has no repeats |
| Backend.CandidatesOrder | app.js:39-54 | a non-empty saved base comes first, an HTTP(S) origin next, then the loopback URLs not listed yet; at most eight entries |
| Backend.CandidatesCover | app.js:48-51 | every loopback URL is a candidate |
| Backend.AppendFresh | app.js:51 | appending new distinct entries repeats nothing at or after the join |
| Backend.CandidatesFresh | app.js:48-51 | no entry after the saved base and the origin repeats an earlier one |
| Backend.CandidatesDistinct | app.js:41-45 | the list has a repeat exactly when the saved base and the HTTP(S) origin are the same URL |
| Backend.StripSlash | app.js:58 | `base.replace(/\/$/, '')`; stated by `StripSlashSpec` |
| Backend.StripSlashSpec | app.js:58 | removing the trailing slash keeps a prefix and drops one character exactly when the base ends in `/` |
| Backend.HealthUrl | app.js:58 | the base without one trailing slash, then `/api/health`; the probes it gives are stated by `ProbesAt` and `Page.IsHealthy` |
| Backend.Healthy | app.js:56-66 | the oracle's answer for that URL, `false` for a request that throws; used by `FirstHealthySpec` |
| Backend.FirstHealthy | app.js:72-79 | a position found is within the list |
| Backend.FirstHealthySpec | app.js:72-79 | the position found passes the health check and every earlier one fails; none found means every candidate fails |
| Backend.FirstHealthyIs | app.js:72-78 | a candidate that passes after failures of all earlier ones is the one found |
| Backend.FirstHealthyNone | app.js:72-81 | when every candidate fails nothing is found |
| Backend.ApiUrl | app.js:95-98 | without a base the path; otherwise the base, one `/`, and the path without its own leading `/` |
| Progress.Clamp | app.js:135-138 | the width is within 0..100, equal to the input inside that range, 0 below it and 100 above it |
| Progress.Round50 | app.js:197 | the result is `50 i / n` rounded to the nearest integer, halves up |
| Progress.RoundUnique | app.js:197 | any integer within half a step of `50 i / n` is that rounding |
| Progress.RoundBounds | app.js:197 | for `i <= n` the rounding lies in 0..50 |
| Progress.RoundMonotone | app.js:197 | the rounding never decreases as `i` grows |
| Progress.RoundFull | app.js:197 | after the last result the rounding is 50 |
| Progress.Steps | app.js:192-199 | the first `i` iterations set `i` widths |
| Progress.StepsAt | app.js:192-199 | the width set after result `k + 1` is `50 + round(50 (k + 1) / n)` |
| Progress.Ticks | app.js:193-199 | the results loop sets one width per result |
| Progress.StepsProgress | app.js:192-199 | the loop's widths lie in 50..100, never decrease, and end at 100 |
| Progress.TraceProgresses | app.js:157-199 | the widths of a completed run (12, 28, 50, then one per result) never decrease, stay within 0..100, and end at 100, or 50 with no results |
| Orchestration.ResultLine | app.js:195-196 | the log line of one result; stated by `ResultLineShape` |
| Orchestration.ResultLineShape | app.js:195-196 | a result's line starts with ✔ and has tone `ok` exactly when the account succeeded (✖ and `err` otherwise), then names the account and ends with the message |
| Orchestration.ResultLines | app.js:193-196 | one log line per result |
| Orchestration.ResultLinesAt | app.js:193-196 | the k-th line is the line of the k-th result |
| Orchestration.Probes | app.js:72-73 | one health check per base probed |
| Orchestration.ProbesAt | app.js:56-58 | the k-th health check goes to the k-th base's health URL |
| Orchestration.Scan | app.js:72-81 | the loop of `detectApiBase()`; stated by `ScanResult` and `ScanConsistent`, and `Page.ScanCandidates` is proved to reach it |
| Orchestration.Detect | app.js:69-82 | `detectApiBase()`; stated by `DetectPicksFirstHealthy`, `DetectNoneHealthy`, `DetectResult`, `DetectProbesOriginTwice` and `DetectConsistent` |
| Orchestration.Ensure | app.js:84-93 | `ensureBackend()`; stated by `EnsureCached`, `EnsureAdoptsSaved`, `EnsureRechecksSaved`, `EnsureProbesOriginThrice`, `EnsureResult` and `EnsureConsistent` |
| Orchestration.Start | app.js:252-254 | the page-load steps; stated by `StartConsistent` and `Page.Load` |
| Orchestration.Answer | app.js:177-203 | the handling of the reply to the batch POST: a rejected request, an HTTP error, a malformed body, a JSON `null` body (its `results` throws: bar 50, then "Request failed") or the results; stated by `AnswerConsistent`, `ProceedLogs` and `ProceedBar` |
| Orchestration.Proceed | app.js:159-199 | `run()` after the lookup; stated by `ProceedDispatch`, `ProceedLogs`, `ProceedBar` and `ProceedConsistent` |
| Orchestration.Run | app.js:141-209 | `run()`; stated by `RunGate`, `RunDispatch`, `RunUnreachable`, `RunLogs`, `RunBar` and `RunConsistent`, and `Page.Run` is proved to reach it |
| Properties.PostsOfProbes | app.js:56-62 | probing sends no batch request |
| Properties.PostsAppend | app.js:170-175 | the batch requests of two stretches of traffic are those of each, in order |
| Properties.DetectPicksFirstHealthy | app.js:69-78 | the first healthy candidate is adopted with one trailing slash removed, returned, stored, and exactly the candidates up to it are probed, in order |
| Properties.DetectNoneHealthy | app.js:69-82 | when no candidate passes, nothing is found, every candidate is probed once in order, the "Cannot reach" line is logged, and `API_BASE` and storage are unchanged |
| Properties.EnsureCached | app.js:85 | a cached base is returned with no request and no change |
| Properties.EnsureAdoptsSaved | app.js:86-91 | a healthy saved base is adopted as stored after one health check, and storage is unchanged |
| Properties.EnsureRechecksSaved | app.js:86-92 | a saved base that fails its check is probed again first by the detection that follows |
| Properties.DetectProbesOriginTwice | app.js:41-45 | when the stored base is the page origin and that server is down, a detection checks it twice in a row |
| Properties.EnsureProbesOriginThrice | app.js:84-93 | with no cached base, the stored base equal to the page origin and that server down, `ensureBackend` checks it three times in a row |
| Properties.ScanResult | app.js:72-81 | the scan sends only health checks, for the candidates up to the one adopted; what it returns is what `API_BASE` and storage then hold |
| Properties.DetectResult | app.js:69-82 | detection only appends health checks, and its answer is what `API_BASE` then holds |
| Properties.EnsureResult | app.js:84-93 | `ensureBackend` only appends health checks, never replaces a cached base, leaves the bar alone, and what it returns is what `API_BASE` then holds |
| Properties.ScanConsistent | app.js:72-81 | the scan keeps the page consistent |
| Properties.DetectConsistent | app.js:69-82 | detection keeps the page consistent |
| Properties.EnsureConsistent | app.js:84-93 | `ensureBackend` keeps the page consistent |
| Properties.StartConsistent | app.js:252-254 | page load keeps the page consistent |
| Properties.InitialConsistent | app.js:36-37 | a fresh page with no backend and any storage is consistent |
| Properties.ApiUrlJoin | app.js:95-98 | with a base and a path starting with `/`, the URL is the base followed by the path |
| Properties.RunGate | app.js:141-153 | `run` changes nothing exactly when the trimmed command is empty or no account parses, and reports which of the two |
| Properties.ProceedDispatch | app.js:159-175 | after the lookup, the batch is posted exactly when a base was found, to `<base>/api/run` with the command and accounts; otherwise the bar drops to 0 |
| Properties.RunDispatch | app.js:141-175 | `run` posts at most one batch, only when both checks passed and a base was found, to `<base>/api/run` with the trimmed command and every parsed account |
| Properties.RunUnreachable | app.js:157-164 | `run` stops as unreachable exactly when both checks passed and no base was found; the bar then shows 12 and 0 |
| Properties.ProceedLogs | app.js:166-199 | with results in hand, the run completes and the log gains the "Running" line and then one line per result |
| Properties.ProceedBar | app.js:157-199 | with results in hand, the bar goes 12, 28, 50 and then once per result |
| Properties.RunLogs | app.js:141-199 | given results, `run` completes exactly when it posted, and the log then ends with the "Running" line and each result's line in order |
| Properties.RunBar | app.js:155-199 | given results, a completed run's widths are 12, 28, 50 and one per result, never decreasing, within 0..100, ending at 100 (50 without results) |
| Properties.ProceedConsistent | app.js:159-199 | sending a valid batch and handling any reply keeps the page consistent |
| Properties.AnswerConsistent | app.js:177-203 | handling any reply, the null body included, keeps the page consistent |
| Properties.RunConsistent | app.js:141-209 | every `run` keeps the page consistent |
| Controller.Page.constructor | app.js:36-37 | a fresh page has no backend, an empty log, no requests and no widths |
| Controller.Page.Append | app.js:15-21 | the line is added at the end of the log |
| Controller.Page.SetProgress | app.js:135-138 | the clamped width is set, and it lies within 0..100 |
| Controller.Page.IsHealthy | app.js:56-67 | one GET of the health URL is sent, and the answer is the oracle's |
| Controller.Page.DetectApiBase | app.js:69-82 | the page ends in the state `Detect` gives |
| Controller.Page.ScanCandidates | app.js:72-81 | the page ends in the state `Scan` gives |
| Controller.Page.ProbeCandidates | app.js:72-79 | the loop returns the first healthy position and has probed exactly the candidates up to it, or all of them |
| Controller.Page.EnsureBackend | app.js:84-93 | the page ends in the state `Ensure` gives |
| Controller.Page.Load | app.js:252-254 | the page ends in the state `Start` gives and stays consistent |
| Controller.Page.Run | app.js:141-209 | the page ends in the state `Run` gives and stays consistent |
| Controller.Page.Launch | app.js:155-164 | after the checks, clearing, showing 12 and the lookup lead to the state `Proceed` gives |
| Controller.Page.Send | app.js:159-203 | the rest of `run` leads to the state `Proceed` gives |
| Controller.Page.ShowResults | app.js:192-199 | the loop appends each result's line and sets the width after each result |

## Left out

- The DOM is not modelled: toasts, focus, `setLoading` and the scrolling of the log. A toast or early return is visible only as the `RunOutcome` value.
- `fetch`, JSON decoding and the HTTP status are parameters: the health oracle `ok` and the `Reply` value of the batch POST. `cache`/`mode` options and headers are not modelled.
- `run()` resets the bar to 0 in `finally`, behind a one-second `setTimeout`. That reset is not modelled, and neither is the 90 ms pause between results. Both are timers.
- Progress.Round50: uses exact integer rounding of `50 i / n`, halves up, not floating-point `Math.round(i / n * 50)`. The two could differ only where the floating-point product misses an exact half.
- Controller.Page.SetProgress: the `if (!bar) return;` guard is left out. The bar element is assumed present.
- Result entries are assumed well typed (`label` and `message` strings, `ok` a boolean). An entry whose `r.ok` access throws would end the loop early with "Request failed"; that case is not modelled.
- Orchestration.Run: each `run()` is modelled as atomic. The Enter and Ctrl/Cmd+Enter handlers (lines 213-218) can start a second `run()` while one is still awaiting, since `setLoading` disables only the button. The second run then clears the log and sets 12 partway through the first. `RunBar` and `RunLogs` hold only for runs that do not overlap.
- The page-load detection runs asynchronously and can interleave with a `run()` started meanwhile. The model runs it to completion first. Health answers are taken as stable within one call.
- `updateAccountCount`, `loadFromStorage`, `saveToStorage`, the clear buttons and the keyboard and click wiring (lines 120-123 and 211-250) are UI plumbing and are not modelled.
- Strings are sequences of Unicode scalar values, not UTF-16 code units. The `trim` white-space set is written out.
- Controller.Page.ScanCandidates: calls a separate probing loop (`ProbeCandidates`) and adopts the found base after it, instead of adopting inside the loop. The requests, log and storage are the same.
