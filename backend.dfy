/**
 * Backend discovery (app.js lines 35-98): the ordered list of candidate base
 * URLs, the health-check URL of a base, the first healthy candidate, and
 * `apiUrl`, which joins the chosen base and an API path.
 */
module Backend {
  import opened Wrappers
  import opened Text

  /** The storage key under which the last verified base is kept. */
  const SavedBaseKey: string := "rbx.multi.apiBase"

  /** The loopback servers tried after the saved base and the page origin, in this order. */
  const Fallbacks: seq<string> := [
    "http://localhost:3000", "http://127.0.0.1:3000",
    "http://localhost:3333", "http://127.0.0.1:3333",
    "http://localhost:8765", "http://127.0.0.1:8765"
  ]

  /** JavaScript truthiness of a string-or-null: present and not empty. */
  predicate Truthy(v: Option<string>) {
    v.Some? && v.value != []
  }

  /** `localStorage.getItem(key)` */
  function Get(storage: map<string, string>, key: string): Option<string> {
    if key in storage then Some(storage[key]) else None
  }

  function Lower(c: char): char {
    if 'A' <= c <= 'Z' then (c as int + 32) as char else c
  }

  /** `prefix` (lower case) starts `s`, letters compared without regard to case. */
  predicate StartsWithIgnoringCase(s: string, prefix: string) {
    |prefix| <= |s| && forall i :: 0 <= i < |prefix| ==> Lower(s[i]) == prefix[i]
  }

  /** `/^https?:\/\//i.test(origin)`: the page was served over HTTP(S), not from a file. */
  predicate IsHttpOrigin(origin: string) {
    StartsWithIgnoringCase(origin, "http://") || StartsWithIgnoringCase(origin, "https://")
  }

  /** The candidates pushed before the loopback list: the saved base, then the origin. */
  function Seeds(saved: Option<string>, origin: string): seq<string> {
    (if Truthy(saved) then [saved.value] else []) + (if IsHttpOrigin(origin) then [origin] else [])
  }

  /** The elements of `xs` not in `seen`, in their order in `xs`. */
  function Unlisted(xs: seq<string>, seen: seq<string>): (r: seq<string>)
    ensures |r| <= |xs|
    ensures forall k :: 0 <= k < |r| ==> r[k] in xs && r[k] !in seen
  {
    if xs == [] then []
    else
      var last := xs[|xs| - 1];
      var rest := Unlisted(xs[..|xs| - 1], seen);
      assert forall x :: x in xs[..|xs| - 1] ==> x in xs;
      rest + (if last in seen then [] else [last])
  }

  /** What `candidateBases()` returns. */
  function Candidates(saved: Option<string>, origin: string): seq<string> {
    Seeds(saved, origin) + Unlisted(Fallbacks, Seeds(saved, origin))
  }

  predicate Distinct(s: seq<string>) {
    forall i, j :: 0 <= i < j < |s| ==> s[i] != s[j]
  }

  lemma FallbacksDistinct()
    ensures Distinct(Fallbacks)
  {
  }

  /**
   * `candidateBases()`: the saved base and the page origin, then every loopback
   * URL the list does not yet hold.
   */
  method CandidateBases(saved: Option<string>, origin: string) returns (list: seq<string>)
    ensures list == Candidates(saved, origin)
  {
    list := [];
    if Truthy(saved) {
      list := list + [saved.value];
    }
    if IsHttpOrigin(origin) {
      list := list + [origin];
    }
    ghost var seeds := list;
    assert seeds == Seeds(saved, origin);
    FallbacksDistinct();
    list := PushUnlisted(list, Fallbacks);
  }

  /** The loop of `candidateBases()`: push each of `xs` that `list` does not hold yet. */
  method PushUnlisted(seeds: seq<string>, xs: seq<string>) returns (list: seq<string>)
    requires Distinct(xs)
    ensures list == seeds + Unlisted(xs, seeds)
  {
    list := seeds;
    for k := 0 to |xs|
      invariant list == seeds + Unlisted(xs[..k], seeds)
    {
      var b := xs[k];
      UnlistedStep(xs, seeds, k);
      ghost var done := Unlisted(xs[..k], seeds);
      if b !in list {
        assert list + [b] == seeds + (done + [b]);
        list := list + [b];
      }
    }
    assert xs[..|xs|] == xs;
  }

  /**
   * One step of the filtering loop over a list without repeats: the next
   * element is new to the list built so far exactly when it is not in `seen`.
   */
  lemma UnlistedStep(xs: seq<string>, seen: seq<string>, k: nat)
    requires Distinct(xs) && k < |xs|
    ensures xs[k] in seen + Unlisted(xs[..k], seen) <==> xs[k] in seen
    ensures xs[k] in seen ==> Unlisted(xs[..k + 1], seen) == Unlisted(xs[..k], seen)
    ensures xs[k] !in seen ==> Unlisted(xs[..k + 1], seen) == Unlisted(xs[..k], seen) + [xs[k]]
  {
    assert xs[..k + 1][..k] == xs[..k];
  }

  /** Filtering out `seen` keeps every element that is not in `seen`. */
  lemma {:induction false} UnlistedKeeps(xs: seq<string>, seen: seq<string>, x: string)
    requires x in xs && x !in seen
    ensures x in Unlisted(xs, seen)
  {
    var last := xs[|xs| - 1];
    if x != last {
      assert x in xs[..|xs| - 1] by {
        var k :| 0 <= k < |xs| && xs[k] == x;
        assert xs[..|xs| - 1][k] == x;
      }
      UnlistedKeeps(xs[..|xs| - 1], seen, x);
    }
  }

  /** Filtering a list without repeats gives a list without repeats. */
  lemma {:induction false} UnlistedDistinct(xs: seq<string>, seen: seq<string>)
    requires Distinct(xs)
    ensures Distinct(Unlisted(xs, seen))
  {
    if xs != [] {
      var init := xs[..|xs| - 1];
      UnlistedDistinct(init, seen);
      assert forall x :: x in init ==> x != xs[|xs| - 1];
    }
  }

  /**
   * The order of `candidateBases()`: a non-empty saved base first, an HTTP(S)
   * origin next, then the loopback URLs in their listed order, leaving out
   * the ones already in the list; at most eight entries.
   */
  lemma CandidatesOrder(saved: Option<string>, origin: string)
    ensures var c := Candidates(saved, origin);
      var n := |Seeds(saved, origin)|;
      && n <= 2 && n <= |c| <= 8
      && (Truthy(saved) ==> c[0] == saved.value)
      && (IsHttpOrigin(origin) ==> c[n - 1] == origin)
      && c[n..] == Unlisted(Fallbacks, Seeds(saved, origin))
  {
    var seeds := Seeds(saved, origin);
    assert (seeds + Unlisted(Fallbacks, seeds))[|seeds|..] == Unlisted(Fallbacks, seeds);
  }

  /** Every loopback URL is among the candidates. */
  lemma CandidatesCover(saved: Option<string>, origin: string)
    ensures forall f :: f in Fallbacks ==> f in Candidates(saved, origin)
  {
    var seeds := Seeds(saved, origin);
    var c := Candidates(saved, origin);
    forall f | f in Fallbacks ensures f in c {
      if f !in seeds {
        UnlistedKeeps(Fallbacks, seeds, f);
      }
    }
  }

  /** Appending distinct entries none of which is already listed repeats nothing at or after the join. */
  lemma AppendFresh(seeds: seq<string>, u: seq<string>)
    requires Distinct(u)
    requires forall k :: 0 <= k < |u| ==> u[k] !in seeds
    ensures forall i, j :: 0 <= i < j < |seeds + u| && |seeds| <= j ==> (seeds + u)[i] != (seeds + u)[j]
  {
    var c := seeds + u;
    forall i, j | 0 <= i < j < |c| && |seeds| <= j ensures c[i] != c[j] {
      assert c[j] == u[j - |seeds|];
      if i >= |seeds| {
        assert c[i] == u[i - |seeds|];
      } else {
        assert c[i] in seeds;
      }
    }
  }

  /** No candidate after the saved base and the origin repeats an earlier one. */
  lemma CandidatesFresh(saved: Option<string>, origin: string)
    ensures var c := Candidates(saved, origin);
      forall i, j :: 0 <= i < j < |c| && |Seeds(saved, origin)| <= j ==> c[i] != c[j]
  {
    var seeds := Seeds(saved, origin);
    FallbacksDistinct();
    UnlistedDistinct(Fallbacks, seeds);
    AppendFresh(seeds, Unlisted(Fallbacks, seeds));
  }

  /**
   * The list repeats an entry exactly when the saved base and the page origin
   * are the same URL: those two are not checked against each other.
   */
  lemma CandidatesDistinct(saved: Option<string>, origin: string)
    ensures Distinct(Candidates(saved, origin)) <==>
      !(Truthy(saved) && IsHttpOrigin(origin) && saved.value == origin)
  {
    var seeds := Seeds(saved, origin);
    var c := Candidates(saved, origin);
    CandidatesOrder(saved, origin);
    CandidatesFresh(saved, origin);
    if Truthy(saved) && IsHttpOrigin(origin) && saved.value == origin {
      assert c[0] == c[1];
    } else {
      assert Distinct(seeds);
    }
  }

  /** `base.replace(/\/$/, '')` */
  function StripSlash(base: string): string {
    if base != [] && base[|base| - 1] == '/' then base[..|base| - 1] else base
  }

  /**
   * Removing the trailing slash keeps a prefix of the base and drops at most
   * one character, and drops one exactly when the base ends in '/'.
   */
  lemma StripSlashSpec(base: string)
    ensures var r := StripSlash(base);
      && |base| - 1 <= |r| <= |base| && r == base[..|r|]
      && (|r| < |base| <==> (base != [] && base[|base| - 1] == '/'))
  {
  }

  /** The URL `isHealthy(base)` requests. */
  function HealthUrl(base: string): string {
    StripSlash(base) + "/api/health"
  }

  /**
   * `isHealthy(base)`. The network is the oracle `ok`: `ok(url)` holds when a
   * GET of `url` resolves with a 2xx status; a request that throws is `false`.
   */
  predicate Healthy(ok: string -> bool, base: string) {
    ok(HealthUrl(base))
  }

  /** Position of the first candidate that passes the health check, if any. */
  function FirstHealthy(cands: seq<string>, ok: string -> bool): (r: Option<nat>)
    ensures r.Some? ==> r.value < |cands|
  {
    if cands == [] then None
    else if Healthy(ok, cands[0]) then Some(0)
    else
      match FirstHealthy(cands[1..], ok)
      case None => None
      case Some(k) => Some(k + 1)
  }

  /**
   * The position found passes the check and every earlier candidate fails
   * it; when none is found, every candidate fails.
   */
  lemma {:induction false} FirstHealthySpec(cands: seq<string>, ok: string -> bool)
    ensures var r := FirstHealthy(cands, ok);
      && (r.Some? ==> Healthy(ok, cands[r.value]) && forall j :: 0 <= j < r.value ==> !Healthy(ok, cands[j]))
      && (r.None? ==> forall j :: 0 <= j < |cands| ==> !Healthy(ok, cands[j]))
  {
    if cands != [] && !Healthy(ok, cands[0]) {
      FirstHealthySpec(cands[1..], ok);
      assert forall j :: 1 <= j < |cands| ==> cands[j] == cands[1..][j - 1];
    }
  }

  /** A candidate that passes while every earlier one fails is the first healthy one. */
  lemma {:induction false} FirstHealthyIs(cands: seq<string>, ok: string -> bool, k: nat)
    requires k < |cands| && Healthy(ok, cands[k])
    requires forall j :: 0 <= j < k ==> !Healthy(ok, cands[j])
    ensures FirstHealthy(cands, ok) == Some(k)
  {
    if k > 0 {
      assert !Healthy(ok, cands[0]);
      assert forall j :: 0 <= j < k - 1 ==> cands[1..][j] == cands[j + 1];
      FirstHealthyIs(cands[1..], ok, k - 1);
    }
  }

  /** When every candidate fails the check, none is found. */
  lemma FirstHealthyNone(cands: seq<string>, ok: string -> bool)
    requires forall j :: 0 <= j < |cands| ==> !Healthy(ok, cands[j])
    ensures FirstHealthy(cands, ok) == None
  {
    FirstHealthySpec(cands, ok);
  }

  /**
   * `apiUrl(path)`: without a base the path alone; otherwise the base, one
   * `/`, and the path without its own leading `/`.
   */
  function ApiUrl(apiBase: Option<string>, path: string): (url: string)
    ensures !Truthy(apiBase) ==> url == path
    ensures Truthy(apiBase) ==>
      var b := apiBase.value;
      var rest := if StartsWith(path, "/") then path[1..] else path;
      && |url| == |b| + 1 + |rest|
      && url[..|b|] == b && url[|b|] == '/' && url[|b| + 1..] == rest
  {
    if !Truthy(apiBase) then path
    else apiBase.value + (if StartsWith(path, "/") then path else "/" + path)
  }
}
