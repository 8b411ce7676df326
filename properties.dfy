/**
 * What the page's control flow guarantees, proved about the state machine of
 * orchestration.dfy: backend discovery picks the first healthy candidate and
 * caches it, `run()` sends nothing before its input checks pass and then at
 * most one batch request, results are logged one line each in order, and the
 * progress bar only moves forward and ends full.
 */
module Properties {
  import opened Wrappers
  import opened Text
  import opened Accounts
  import opened Backend
  import opened Progress
  import opened Orchestration

  /** The batch requests among the requests sent. */
  function Posts(t: seq<Request>): (r: seq<Request>)
    ensures |r| <= |t|
    ensures forall k :: 0 <= k < |r| ==> r[k].RunPost?
  {
    if t == [] then []
    else Posts(t[..|t| - 1]) + (if t[|t| - 1].RunPost? then [t[|t| - 1]] else [])
  }

  lemma {:induction false} PostsAppend(a: seq<Request>, b: seq<Request>)
    ensures Posts(a + b) == Posts(a) + Posts(b)
    decreases |b|
  {
    if b == [] {
      assert a + b == a;
    } else {
      assert (a + b)[..|a + b| - 1] == a + b[..|b| - 1];
      PostsAppend(a, b[..|b| - 1]);
    }
  }

  lemma {:induction false} PostsOfProbes(bases: seq<string>)
    ensures Posts(Probes(bases)) == []
    decreases |bases|
  {
    if bases != [] {
      var p := Probes(bases);
      assert p[..|p| - 1] == Probes(bases[..|bases| - 1]);
      PostsOfProbes(bases[..|bases| - 1]);
    }
  }

  /** The outcomes reached only after the batch request went out. */
  predicate Dispatched(o: RunOutcome) {
    o.RequestFailed? || o.ServerError? || o.UnexpectedResponse? || o.Completed?
  }

  /** A batch request `run()` may send: a trimmed, non-empty command and at least one well-formed account. */
  predicate ValidPost(r: Request) {
    r.RunPost? ==>
      && r.command != [] && Trimmed(r.command) && r.accounts != []
      && forall k :: 0 <= k < |r.accounts| ==> WellFormed(r.accounts[k])
  }

  /**
   * What holds of the page state between steps: a cached backend is the one
   * in storage, every bar width lies in 0..100, and every batch request sent
   * was valid.
   */
  predicate Consistent(s: State) {
    && (s.apiBase.Some? ==> Get(s.storage, SavedBaseKey) == s.apiBase)
    && (forall k :: 0 <= k < |s.bar| ==> 0 <= s.bar[k] <= 100)
    && (forall k :: 0 <= k < |s.traffic| ==> ValidPost(s.traffic[k]))
  }

  // ---------------------------------------------------------------- discovery

  /**
   * When the k-th candidate is the first that passes the health check,
   * `detectApiBase()` adopts it with one trailing slash removed, stores it,
   * and has probed exactly the candidates up to it, in order.
   */
  lemma DetectPicksFirstHealthy(s: State, origin: string, ok: string -> bool, k: nat)
    requires var c := Candidates(Get(s.storage, SavedBaseKey), origin);
      k < |c| && Healthy(ok, c[k]) && forall j :: 0 <= j < k ==> !Healthy(ok, c[j])
    ensures var c := Candidates(Get(s.storage, SavedBaseKey), origin);
      var d := Detect(s, origin, ok);
      && d.value == Some(StripSlash(c[k]))
      && d.state.apiBase == d.value
      && Get(d.state.storage, SavedBaseKey) == d.value
      && d.state.traffic == s.traffic + Probes(c[..k + 1])
      && d.state.bar == s.bar
  {
    var c := Candidates(Get(s.storage, SavedBaseKey), origin);
    FirstHealthyIs(c, ok, k);
    var b := StripSlash(c[k]);
    assert Detect(s, origin, ok) ==
      Step(s.(apiBase := Some(b), storage := s.storage[SavedBaseKey := b],
              log := s.log + [ScanningLine] + [ConnectedLine(b)], traffic := s.traffic + Probes(c[..k + 1])),
           Some(b));
  }

  /**
   * When no candidate passes, `detectApiBase()` returns null having probed
   * every candidate, and leaves the cached base, the storage and the bar as
   * they were.
   */
  lemma DetectNoneHealthy(s: State, origin: string, ok: string -> bool)
    requires var c := Candidates(Get(s.storage, SavedBaseKey), origin);
      forall j :: 0 <= j < |c| ==> !Healthy(ok, c[j])
    ensures var c := Candidates(Get(s.storage, SavedBaseKey), origin);
      var d := Detect(s, origin, ok);
      && d.value == None
      && d.state.apiBase == s.apiBase && d.state.storage == s.storage && d.state.bar == s.bar
      && d.state.traffic == s.traffic + Probes(c)
      && d.state.log == s.log + [ScanningLine, UnreachableLine]
  {
    var c := Candidates(Get(s.storage, SavedBaseKey), origin);
    FirstHealthyNone(c, ok);
    assert Detect(s, origin, ok) ==
      Step(s.(log := s.log + [ScanningLine] + [UnreachableLine], traffic := s.traffic + Probes(c)), None);
  }

  /** A cached base is returned as it is, with no request and no change. */
  lemma EnsureCached(s: State, origin: string, ok: string -> bool)
    requires Truthy(s.apiBase)
    ensures Ensure(s, origin, ok) == Step(s, s.apiBase)
  {
  }

  /**
   * Without a cached base, a stored base that passes its health check is
   * adopted as stored (no slash removed) after that one request, before any
   * detection.
   */
  lemma EnsureAdoptsSaved(s: State, origin: string, ok: string -> bool)
    requires !Truthy(s.apiBase)
    requires Truthy(Get(s.storage, SavedBaseKey)) && Healthy(ok, Get(s.storage, SavedBaseKey).value)
    ensures var saved := Get(s.storage, SavedBaseKey);
      var e := Ensure(s, origin, ok);
      && e.value == saved && e.state.apiBase == saved
      && e.state.traffic == s.traffic + [HealthCheck(HealthUrl(saved.value))]
      && e.state.storage == s.storage
  {
  }

  /**
   * A stored base that fails its check is checked a second time, at once:
   * it also heads the candidate list of the detection that follows.
   */
  lemma EnsureRechecksSaved(s: State, origin: string, ok: string -> bool)
    requires !Truthy(s.apiBase)
    requires Truthy(Get(s.storage, SavedBaseKey)) && !Healthy(ok, Get(s.storage, SavedBaseKey).value)
    ensures var probe := HealthCheck(HealthUrl(Get(s.storage, SavedBaseKey).value));
      var t := Ensure(s, origin, ok).state.traffic;
      && |t| >= |s.traffic| + 2
      && t[|s.traffic|] == probe && t[|s.traffic| + 1] == probe
  {
    var saved := Get(s.storage, SavedBaseKey);
    var probe := HealthCheck(HealthUrl(saved.value));
    var probed := s.(traffic := s.traffic + [probe]);
    var c := Candidates(saved, origin);
    assert c[0] == saved.value;
    ScanResult(probed.(log := probed.log + [ScanningLine]), c, ok);
    var q := Probed(c, ok);
    assert q[0] == c[0];
    ProbesAt(q);
    assert Ensure(s, origin, ok).state.traffic == s.traffic + [probe] + Probes(q);
  }

  /**
   * When the stored base is the page origin, the candidate list holds it
   * twice, and a detection with that server down checks it twice in a row.
   */
  lemma DetectProbesOriginTwice(s: State, origin: string, ok: string -> bool)
    requires Get(s.storage, SavedBaseKey) == Some(origin) && origin != []
    requires IsHttpOrigin(origin) && !Healthy(ok, origin)
    ensures var probe := HealthCheck(HealthUrl(origin));
      var t := Detect(s, origin, ok).state.traffic;
      && |t| >= |s.traffic| + 2
      && t[|s.traffic|] == probe && t[|s.traffic| + 1] == probe
  {
    var saved := Get(s.storage, SavedBaseKey);
    var c := Candidates(saved, origin);
    CandidatesOrder(saved, origin);
    assert c[0] == origin && c[1] == origin;
    FirstHealthySpec(c, ok);
    ScanResult(s.(log := s.log + [ScanningLine]), c, ok);
    var q := Probed(c, ok);
    assert |q| >= 2 && q[0] == origin && q[1] == origin;
    ProbesAt(q);
    assert Detect(s, origin, ok).state.traffic == s.traffic + Probes(q);
  }

  /**
   * `ensureBackend()` with no cached base, the stored base equal to the page
   * origin and that server down: three health checks of the same URL in a
   * row, its own re-check and two from the detection that follows.
   */
  lemma EnsureProbesOriginThrice(s: State, origin: string, ok: string -> bool)
    requires !Truthy(s.apiBase)
    requires Get(s.storage, SavedBaseKey) == Some(origin) && origin != []
    requires IsHttpOrigin(origin) && !Healthy(ok, origin)
    ensures var probe := HealthCheck(HealthUrl(origin));
      var t := Ensure(s, origin, ok).state.traffic;
      && |t| >= |s.traffic| + 3
      && t[|s.traffic|] == probe && t[|s.traffic| + 1] == probe && t[|s.traffic| + 2] == probe
  {
    var probe := HealthCheck(HealthUrl(origin));
    var probed := s.(traffic := s.traffic + [probe]);
    assert Ensure(s, origin, ok) == Detect(probed, origin, ok);
    DetectProbesOriginTwice(probed, origin, ok);
  }

  /** The probes sent while scanning `cands`: all of them, or those up to the first healthy one. */
  function Probed(cands: seq<string>, ok: string -> bool): seq<string> {
    match FirstHealthy(cands, ok)
    case Some(k) => cands[..k + 1]
    case None => cands
  }

  /** The scan of `detectApiBase()` only sends health checks, and what it returns is what `API_BASE` then holds. */
  lemma ScanResult(s: State, cands: seq<string>, ok: string -> bool)
    ensures var d := Scan(s, cands, ok);
      && (d.value.Some? ==> d.state.apiBase == d.value && Get(d.state.storage, SavedBaseKey) == d.value)
      && (d.value.None? ==> d.state.apiBase == s.apiBase && d.state.storage == s.storage)
      && d.state.traffic == s.traffic + Probes(Probed(cands, ok))
      && Posts(d.state.traffic) == Posts(s.traffic)
      && d.state.bar == s.bar
  {
    PostsOfProbes(Probed(cands, ok));
    PostsAppend(s.traffic, Probes(Probed(cands, ok)));
  }

  /** `detectApiBase()` only sends health checks, and what it returns is what `API_BASE` then holds. */
  lemma DetectResult(s: State, origin: string, ok: string -> bool)
    ensures var d := Detect(s, origin, ok);
      && (d.value.Some? ==> d.state.apiBase == d.value)
      && (d.value.None? ==> d.state.apiBase == s.apiBase)
      && Posts(d.state.traffic) == Posts(s.traffic)
      && |d.state.traffic| >= |s.traffic| && d.state.traffic[..|s.traffic|] == s.traffic
      && d.state.bar == s.bar
  {
    ScanResult(s.(log := s.log + [ScanningLine]), Candidates(Get(s.storage, SavedBaseKey), origin), ok);
  }

  /**
   * `ensureBackend()` in general: what it returns is what `API_BASE` then
   * holds, a cached base is never replaced, it only sends health checks, and
   * it leaves the bar alone.
   */
  lemma EnsureResult(s: State, origin: string, ok: string -> bool)
    ensures var e := Ensure(s, origin, ok);
      && (e.value.Some? ==> e.state.apiBase == e.value)
      && (e.value.None? ==> e.state.apiBase == s.apiBase)
      && (Truthy(s.apiBase) ==> e.state.apiBase == s.apiBase)
      && Posts(e.state.traffic) == Posts(s.traffic)
      && |e.state.traffic| >= |s.traffic| && e.state.traffic[..|s.traffic|] == s.traffic
      && e.state.bar == s.bar
  {
    if !Truthy(s.apiBase) {
      var saved := Get(s.storage, SavedBaseKey);
      if Truthy(saved) {
        var probe := HealthCheck(HealthUrl(saved.value));
        var probed := s.(traffic := s.traffic + [probe]);
        PostsAppend(s.traffic, [probe]);
        assert Posts([probe]) == [];
        assert probed.traffic[..|s.traffic|] == s.traffic;
        if !Healthy(ok, saved.value) {
          var d := Detect(probed, origin, ok);
          assert Ensure(s, origin, ok) == d;
          DetectResult(probed, origin, ok);
          assert d.state.traffic[..|s.traffic|] == d.state.traffic[..|probed.traffic|][..|s.traffic|];
        }
      } else {
        assert Ensure(s, origin, ok) == Detect(s, origin, ok);
        DetectResult(s, origin, ok);
      }
    }
  }


  lemma ScanConsistent(s: State, cands: seq<string>, ok: string -> bool)
    requires Consistent(s)
    ensures Consistent(Scan(s, cands, ok).state)
  {
    ScanResult(s, cands, ok);
    var p := Probes(Probed(cands, ok));
    var t := s.traffic + p;
    ProbesAt(Probed(cands, ok));
    forall k | 0 <= k < |t| ensures ValidPost(t[k]) {
      if k >= |s.traffic| {
        assert t[k] == p[k - |s.traffic|];
      }
    }
  }

  lemma DetectConsistent(s: State, origin: string, ok: string -> bool)
    requires Consistent(s)
    ensures Consistent(Detect(s, origin, ok).state)
  {
    ScanConsistent(s.(log := s.log + [ScanningLine]), Candidates(Get(s.storage, SavedBaseKey), origin), ok);
  }

  lemma EnsureConsistent(s: State, origin: string, ok: string -> bool)
    requires Consistent(s)
    ensures Consistent(Ensure(s, origin, ok).state)
  {
    if !Truthy(s.apiBase) {
      var saved := Get(s.storage, SavedBaseKey);
      if Truthy(saved) {
        var probed := s.(traffic := s.traffic + [HealthCheck(HealthUrl(saved.value))]);
        assert Consistent(probed);
        if !Healthy(ok, saved.value) {
          DetectConsistent(probed, origin, ok);
        }
      } else {
        DetectConsistent(s, origin, ok);
      }
    }
  }

  /** Page load keeps the state consistent, starting from anything consistent. */
  lemma StartConsistent(s: State, origin: string, ok: string -> bool)
    requires Consistent(s)
    ensures Consistent(Start(s, origin, ok).state)
  {
    DetectConsistent(s.(log := s.log + [ReadyLine]), origin, ok);
  }

  /** The state at page load: nothing cached, nothing logged, sent or shown; any storage. */
  lemma InitialConsistent(storage: map<string, string>)
    ensures Consistent(State(None, storage, [], [], []))
  {
  }

  lemma ApiUrlJoin(base: string, path: string)
    requires base != [] && StartsWith(path, "/")
    ensures ApiUrl(Some(base), path) == base + path
  {
    var url := ApiUrl(Some(base), path);
    assert url == base + ['/'] + path[1..];
    assert path == ['/'] + path[1..];
  }

  // ---------------------------------------------------------------- run

  /**
   * `run()` changes nothing at all (no log, no request, no bar) exactly when
   * the trimmed command is empty or no account line parses.
   */
  lemma RunGate(s: State, origin: string, accountsText: string, commandText: string,
                ok: string -> bool, reply: Reply)
    ensures var r := Run(s, origin, accountsText, commandText, ok, reply);
      && ((Trim(commandText) == [] || ParseAccounts(accountsText) == []) <==> r.state == s)
      && (Trim(commandText) == [] ==> r.value == MissingCommand)
      && (Trim(commandText) != [] && ParseAccounts(accountsText) == [] ==> r.value == MissingAccounts)
  {
    if Trim(commandText) != [] && ParseAccounts(accountsText) != [] {
      var s0 := s.(log := [], bar := s.bar + [Clamp(12)]);
      EnsureResult(s0, origin, ok);
      assert |Run(s, origin, accountsText, commandText, ok, reply).state.bar| > |s.bar|;
    }
  }

  /**
   * After the backend lookup answered `e`, `run()` sends exactly one batch
   * request when a backend was found, to `<base>/api/run`, and none
   * otherwise; with no backend it shows 0 on the bar and stops.
   */
  lemma ProceedDispatch(e: Step<Option<string>>, command: string, accounts: seq<Account>, reply: Reply)
    requires Truthy(e.value) ==> e.state.apiBase == e.value
    ensures var r := Proceed(e, command, accounts, reply);
      && (Dispatched(r.value) <==> Truthy(e.value))
      && (r.value == Unreachable <==> !Truthy(e.value))
      && r.state.apiBase == e.state.apiBase
      && Posts(r.state.traffic) == Posts(e.state.traffic) +
           (if Truthy(e.value) then [RunPost(e.value.value + "/api/run", command, accounts)] else [])
      && (!Truthy(e.value) ==> r.state.bar == e.state.bar + [0])
  {
    if Truthy(e.value) {
      var t := e.state;
      var post := RunPost(ApiUrl(t.apiBase, "/api/run"), command, accounts);
      ApiUrlJoin(t.apiBase.value, "/api/run");
      PostsAppend(t.traffic, [post]);
      assert Posts([post]) == [post];
    }
  }

  /**
   * `run()` sends at most one batch request, and only after its input checks
   * passed and a backend was found: to `<base>/api/run`, with the trimmed
   * command and every parsed account.
   */
  lemma RunDispatch(s: State, origin: string, accountsText: string, commandText: string,
                    ok: string -> bool, reply: Reply)
    ensures var r := Run(s, origin, accountsText, commandText, ok, reply);
      var before := Posts(s.traffic);
      var after := Posts(r.state.traffic);
      && |after| == |before| + (if Dispatched(r.value) then 1 else 0)
      && after[..|before|] == before
      && (Dispatched(r.value) ==>
            && Trim(commandText) != [] && ParseAccounts(accountsText) != []
            && Truthy(r.state.apiBase)
            && after[|before|] == RunPost(r.state.apiBase.value + "/api/run", Trim(commandText), ParseAccounts(accountsText)))
  {
    var command := Trim(commandText);
    var accounts := ParseAccounts(accountsText);
    if command != [] && accounts != [] {
      var s0 := s.(log := [], bar := s.bar + [Clamp(12)]);
      var e := Ensure(s0, origin, ok);
      EnsureResult(s0, origin, ok);
      ProceedDispatch(e, command, accounts, reply);
      assert Run(s, origin, accountsText, commandText, ok, reply) == Proceed(e, command, accounts, reply);
    }
  }

  /**
   * `run()` stops as unreachable exactly when its input checks passed and
   * no backend was found; the bar then shows 12 and drops to 0.
   */
  lemma RunUnreachable(s: State, origin: string, accountsText: string, commandText: string,
                       ok: string -> bool, reply: Reply)
    ensures var r := Run(s, origin, accountsText, commandText, ok, reply);
      var s0 := s.(log := [], bar := s.bar + [Clamp(12)]);
      && (r.value == Unreachable <==>
            Trim(commandText) != [] && ParseAccounts(accountsText) != [] && !Truthy(Ensure(s0, origin, ok).value))
      && (r.value == Unreachable ==> r.state.bar == s.bar + [12, 0])
  {
    var command := Trim(commandText);
    var accounts := ParseAccounts(accountsText);
    if command != [] && accounts != [] {
      var s0 := s.(log := [], bar := s.bar + [Clamp(12)]);
      var e := Ensure(s0, origin, ok);
      EnsureResult(s0, origin, ok);
      ProceedDispatch(e, command, accounts, reply);
    }
  }

  /**
   * With the results in hand and a backend found, `run()` completes, after
   * announcing the batch and then logging one line per result in their order.
   */
  lemma ProceedLogs(e: Step<Option<string>>, command: string, accounts: seq<Account>, rs: seq<AccountResult>)
    requires Truthy(e.value)
    ensures Proceed(e, command, accounts, Results(rs)).value == Completed
    ensures Proceed(e, command, accounts, Results(rs)).state.log == e.state.log + [RunningLine(command, |accounts|)] + ResultLines(rs)
  {
  }

  /**
   * With the results in hand and a backend found, the bar goes on from the
   * 12 shown before the lookup to 28, 50 and then once per result.
   */
  lemma ProceedBar(e: Step<Option<string>>, command: string, accounts: seq<Account>, rs: seq<AccountResult>, before: seq<int>)
    requires Truthy(e.value) && e.state.bar == before + [Clamp(12)]
    ensures Proceed(e, command, accounts, Results(rs)).state.bar == before + Trace(|rs|)
  {
    assert e.state.bar + [Clamp(28)] + [Clamp(50)] == before + [Clamp(12), Clamp(28), Clamp(50)];
  }

  /**
   * With the results in hand, `run()` completes exactly when it sent the
   * batch, and the log then ends with the "Running" line and one line per
   * result, in the order of the results.
   */
  lemma RunLogs(s: State, origin: string, accountsText: string, commandText: string,
                ok: string -> bool, rs: seq<AccountResult>)
    ensures var r := Run(s, origin, accountsText, commandText, ok, Results(rs));
      && (Dispatched(r.value) <==> r.value == Completed)
      && (r.value == Completed ==>
            && |r.state.log| >= |rs| + 1
            && r.state.log[|r.state.log| - |rs|..] == ResultLines(rs)
            && r.state.log[|r.state.log| - |rs| - 1] == RunningLine(Trim(commandText), |ParseAccounts(accountsText)|))
  {
    var command := Trim(commandText);
    var accounts := ParseAccounts(accountsText);
    if command != [] && accounts != [] {
      var s0 := s.(log := [], bar := s.bar + [Clamp(12)]);
      var e := Ensure(s0, origin, ok);
      if Truthy(e.value) {
        ProceedLogs(e, command, accounts, rs);
        var r := Proceed(e, command, accounts, Results(rs));
        var lines := e.state.log + [RunningLine(command, |accounts|)];
        assert r.state.log[|r.state.log| - |rs|..] == ResultLines(rs) by {
          assert r.state.log == lines + ResultLines(rs);
        }
      }
    }
  }

  /**
   * With the results in hand and the batch sent, the bar goes 12, 28, 50
   * and then once per result, never backwards, within 0..100, ending at 100
   * when there was a result.
   */
  lemma RunBar(s: State, origin: string, accountsText: string, commandText: string,
               ok: string -> bool, rs: seq<AccountResult>)
    ensures var r := Run(s, origin, accountsText, commandText, ok, Results(rs));
      r.value == Completed ==>
        && |r.state.bar| == |s.bar| + |rs| + 3
        && var added := r.state.bar[|s.bar|..];
           && added == Trace(|rs|)
           && NonDecreasing(added)
           && (forall k :: 0 <= k < |added| ==> 0 <= added[k] <= 100)
           && added[|added| - 1] == if rs == [] then 50 else 100
  {
    var command := Trim(commandText);
    var accounts := ParseAccounts(accountsText);
    TraceProgresses(|rs|);
    if command != [] && accounts != [] {
      var s0 := s.(log := [], bar := s.bar + [Clamp(12)]);
      var e := Ensure(s0, origin, ok);
      EnsureResult(s0, origin, ok);
      if Truthy(e.value) {
        ProceedBar(e, command, accounts, rs, s.bar);
        var r := Proceed(e, command, accounts, Results(rs));
        assert r.state.bar[|s.bar|..] == Trace(|rs|);
      }
    }
  }

  /** Once the input checks passed, the rest of `run()` keeps the page state consistent. */
  lemma ProceedConsistent(e: Step<Option<string>>, command: string, accounts: seq<Account>, reply: Reply)
    requires Consistent(e.state)
    requires command != [] && Trimmed(command)
    requires accounts != [] && forall k :: 0 <= k < |accounts| ==> WellFormed(accounts[k])
    ensures Consistent(Proceed(e, command, accounts, reply).state)
  {
    var t := e.state;
    if Truthy(e.value) {
      var post := RunPost(ApiUrl(t.apiBase, "/api/run"), command, accounts);
      var sent := t.(log := t.log + [RunningLine(command, |accounts|)],
                     bar := t.bar + [Clamp(28)],
                     traffic := t.traffic + [post]);
      assert ValidPost(post);
      assert Consistent(sent);
      assert Proceed(e, command, accounts, reply) == Answer(sent, reply);
      AnswerConsistent(sent, reply);
    } else {
      assert Proceed(e, command, accounts, reply).state == t.(bar := t.bar + [Clamp(0)]);
    }
  }

  /** Handling the reply keeps the page state consistent. */
  lemma AnswerConsistent(s: State, reply: Reply)
    requires Consistent(s)
    ensures Consistent(Answer(s, reply).state)
  {
    if reply.Results? {
      var n := |reply.results|;
      TraceProgresses(n);
      var tail := [Clamp(50)] + Ticks(n);
      assert tail == Trace(n)[2..];
      BoundedAppend(s.bar, tail);
      assert s.bar + [Clamp(50)] + Ticks(n) == s.bar + tail;
    }
  }

  /** Two lists of widths within 0..100 joined are still within 0..100. */
  lemma BoundedAppend(a: seq<int>, b: seq<int>)
    requires forall k :: 0 <= k < |a| ==> 0 <= a[k] <= 100
    requires forall k :: 0 <= k < |b| ==> 0 <= b[k] <= 100
    ensures forall k :: 0 <= k < |a + b| ==> 0 <= (a + b)[k] <= 100
  {
    forall k | |a| <= k < |a + b| ensures 0 <= (a + b)[k] <= 100 {
      assert (a + b)[k] == b[k - |a|];
    }
  }

  /** Every `run()` keeps the page state consistent. */
  lemma RunConsistent(s: State, origin: string, accountsText: string, commandText: string,
                      ok: string -> bool, reply: Reply)
    requires Consistent(s)
    ensures Consistent(Run(s, origin, accountsText, commandText, ok, reply).state)
  {
    var command := Trim(commandText);
    var accounts := ParseAccounts(accountsText);
    if command != [] && accounts != [] {
      var s0 := s.(log := [], bar := s.bar + [Clamp(12)]);
      assert Consistent(s0);
      EnsureConsistent(s0, origin, ok);
      ProceedConsistent(Ensure(s0, origin, ok), command, accounts, reply);
    }
  }
}
