/**
 * The base of checks that simulate front-end requests: it snapshots the
 * request-related global state before the check and restores it after, and
 * for each URL resets the request globals as if that URL had been requested.
 */
module RequestCheck {
  import opened Php
  import opened Wrappers
  import opened Host

  /** The global query variables cleared before each simulated request. */
  const QueryGlobals: seq<string> := [
    "query_string", "id", "postdata", "authordata", "day", "currentmonth", "page",
    "pages", "multipage", "more", "numpages", "pagenow", "current_screen"]

  /** The query objects, saved and restored as well. */
  const QueryObjects: seq<string> := ["wp_query", "wp_the_query", "wp"]

  /** The keys a list holds. */
  function Elems(s: seq<string>): set<string> {
    set k | k in s
  }

  lemma ElemsSnoc(s: seq<string>, x: string)
    ensures Elems(s + [x]) == Elems(s) + {x}
  {
  }

  /** Every global the snapshot covers. */
  const Tracked: set<string> := Elems(QueryGlobals) + Elems(QueryObjects)

  lemma TrackedKeys()
    ensures Tracked == Elems(QueryGlobals) + {"wp_query"} + {"wp_the_query"} + {"wp"}
  {
    assert QueryObjects == [] + ["wp_query"] + ["wp_the_query"] + ["wp"];
    ElemsSnoc([] + ["wp_query"], "wp_the_query");
    ElemsSnoc([] + ["wp_query"] + ["wp_the_query"], "wp");
  }

  /** `isset( $m[ $k ] )`: present and not null. */
  predicate IsSet(m: map<string, Value>, k: string) {
    k in m && m[k] != Null
  }

  /** What `prepare` saves and its cleanup puts back. */
  datatype RequestSnapshot = RequestSnapshot(
    get: map<string, Value>,
    post: map<string, Value>,
    server: map<string, Value>,
    globalVars: map<string, Value>)

  /** `$global_vars` as built from keys `ks`: the set ones, with their values. */
  function SavedOn(g: map<string, Value>, ks: set<string>): map<string, Value> {
    map k | k in g && k in ks && g[k] != Null :: g[k]
  }

  /** The snapshot `prepare` takes of a host state. */
  function Snapshot(st: EnvState): RequestSnapshot {
    RequestSnapshot(st.get, st.post, st.server, SavedOn(st.globals, Tracked))
  }

  /** One key of the restore: assigned from the snapshot when saved there, unset otherwise. */
  function RestoreOne(g: map<string, Value>, vars: map<string, Value>, k: string): map<string, Value> {
    if IsSet(vars, k) then g[k := vars[k]] else g - {k}
  }

  /** `$GLOBALS` after restoring keys `ks` from the saved values `vars`. */
  function RestoredOn(g: map<string, Value>, vars: map<string, Value>, ks: set<string>): map<string, Value> {
    map k | k in g.Keys + vars.Keys && (if k in ks then IsSet(vars, k) else k in g) ::
      if k in ks then vars[k] else g[k]
  }

  lemma RestoredOnStep(g: map<string, Value>, vars: map<string, Value>, ks: set<string>, k: string)
    ensures RestoredOn(g, vars, ks + {k}) == RestoreOne(RestoredOn(g, vars, ks), vars, k)
  {
  }

  lemma SavedOnStep(g: map<string, Value>, ks: set<string>, k: string)
    ensures SavedOn(g, ks + {k}) == if IsSet(g, k) then SavedOn(g, ks)[k := g[k]] else SavedOn(g, ks)
  {
  }

  /** The host state after the cleanup: the superglobals and the tracked globals come back. */
  function Restored(st: EnvState, snap: RequestSnapshot): EnvState {
    st.(get := snap.get, post := snap.post, server := snap.server,
        globals := RestoredOn(st.globals, snap.globalVars, Tracked))
  }

  /**
   * Snapshot then restore: the superglobals are those at snapshot time; a
   * tracked global that was set gets its value back, one that was not set
   * becomes unset; every other global and the rest of the host are as they
   * are when the cleanup runs.
   */
  lemma SnapshotRestore(before: EnvState, now: EnvState)
    ensures var after := Restored(now, Snapshot(before));
      && after.get == before.get && after.post == before.post && after.server == before.server
      && (forall k :: k in Tracked && IsSet(before.globals, k) ==>
            k in after.globals && after.globals[k] == before.globals[k])
      && (forall k :: k in Tracked && !IsSet(before.globals, k) ==> k !in after.globals)
      && (forall k :: k !in Tracked ==>
            (k in after.globals <==> k in now.globals) &&
            (k in now.globals ==> after.globals[k] == now.globals[k]))
      && after.filters == now.filters && after.themeDirectories == now.themeDirectories
  {
  }

  /** `parse_url( $url )`, reduced to the three components used; all absent when the URL does not parse. */
  datatype UrlParts = UrlParts(scheme: Option<string>, path: Option<string>, query: Option<string>)

  /** `$_SERVER['REQUEST_URI']` for a URL: path and query of a full URL, the URL itself otherwise. */
  function RequestUri(url: string, parts: UrlParts): string {
    if parts.scheme.Some? then
      var req := if parts.path.Some? then parts.path.value else "";
      if parts.query.Some? then req + "?" + parts.query.value else req
    else url
  }

  /** The query string handed to the request dispatch: the URL's query, or "". */
  function MainQuery(parts: UrlParts): string {
    if parts.query.Some? then parts.query.value else ""
  }

  /** `$GLOBALS` after unsetting those of keys `ks` that are set. */
  function ClearedOn(g: map<string, Value>, ks: set<string>): map<string, Value> {
    map k | k in g && !(k in ks && g[k] != Null) :: g[k]
  }

  lemma ClearedOnStep(g: map<string, Value>, ks: set<string>, k: string)
    ensures ClearedOn(g, ks + {k}) ==
            if IsSet(ClearedOn(g, ks), k) then ClearedOn(g, ks) - {k} else ClearedOn(g, ks)
  {
  }

  /**
   * What `go_to` reads from and creates in objects the model does not look
   * into: the ids of the new `WP_Query` and `WP` objects, and the public
   * then the private query variables the current `WP` object lists, which
   * it carries over to the new one.
   */
  datatype Rebuild = Rebuild(queryId: nat, wpId: nat, queryVars: seq<string>)

  /**
   * `$GLOBALS` after the query objects are replaced by new ones (the main
   * query and the current query are one object) and every listed query
   * variable is unset.
   */
  function RebuiltGlobals(g: map<string, Value>, rb: Rebuild): map<string, Value> {
    var query := Obj("WP_Query", rb.queryId);
    ((g - {"wp_query", "wp_the_query"})["wp_the_query" := query]["wp_query" := query]["wp" := Obj("WP", rb.wpId)])
      - Elems(rb.queryVars)
  }

  /** The host state after `go_to`'s own statements, before `WP::main`, with `parseQuery` standing for `parse_str`. */
  function GoToState(st: EnvState, url: string, parts: UrlParts, parseQuery: string -> map<string, Value>,
                     rb: Rebuild): EnvState {
    st.(get := if parts.scheme.Some? && parts.query.Some? then parseQuery(parts.query.value) else map[],
        post := map[],
        globals := RebuiltGlobals(ClearedOn(st.globals, Elems(QueryGlobals)), rb),
        server := st.server[ "REQUEST_URI" := Str(RequestUri(url, parts)) ] - {"PATH_INFO"})
  }

  /**
   * Clearing the query globals unsets each of them that is set and leaves
   * every other global, and a query global holding null, as it was.
   */
  lemma ClearedOnEffects(g: map<string, Value>)
    ensures var c := ClearedOn(g, Elems(QueryGlobals));
      && (forall k :: k in QueryGlobals ==> !IsSet(c, k))
      && (forall k :: k in g && !IsSet(g, k) ==> k in c && c[k] == g[k])
      && (forall k :: k !in QueryGlobals ==> (k in c <==> k in g) && (k in g ==> c[k] == g[k]))
  {
  }

  /**
   * After the rebuild no listed query variable is set; the query objects
   * are the new ones unless listed; every other global is as it was.
   */
  lemma RebuiltGlobalsEffects(h: map<string, Value>, rb: Rebuild)
    ensures var r := RebuiltGlobals(h, rb);
      && (forall k :: k in rb.queryVars ==> k !in r)
      && ("wp_query" !in rb.queryVars ==> "wp_query" in r && r["wp_query"] == Obj("WP_Query", rb.queryId))
      && ("wp_the_query" !in rb.queryVars ==> "wp_the_query" in r && r["wp_the_query"] == Obj("WP_Query", rb.queryId))
      && ("wp" !in rb.queryVars ==> "wp" in r && r["wp"] == Obj("WP", rb.wpId))
      && (forall k :: k !in QueryObjects && k !in rb.queryVars ==> (k in r <==> k in h) && (k in h ==> r[k] == h[k]))
  {
  }

  /**
   * What `go_to`'s own statements promise, before its closing dispatch to
   * `WP::main` (which is not modelled and sets query variables again): no
   * query global and no listed query variable is set, and a query global
   * holding null keeps it unless it is listed; `wp_query` and `wp_the_query` are one new `WP_Query`, `wp` a
   * new `WP`, unless listed; every other global keeps its value; `$_POST`
   * is empty, `$_GET` is the parsed query of a full URL and empty
   * otherwise, `PATH_INFO` is gone and the rest of `$_SERVER` stays.
   */
  lemma GoToEffects(st: EnvState, url: string, parts: UrlParts, parseQuery: string -> map<string, Value>, rb: Rebuild)
    ensures var g' := GoToState(st, url, parts, parseQuery, rb).globals;
      && (forall k :: k in QueryGlobals ==> !IsSet(g', k))
      && (forall k :: k in rb.queryVars ==> k !in g')
      && (forall k :: k in st.globals && !IsSet(st.globals, k) && k in QueryGlobals && k !in rb.queryVars ==>
            k in g' && g'[k] == st.globals[k])
      && ("wp_query" !in rb.queryVars ==> g'["wp_query"] == Obj("WP_Query", rb.queryId))
      && ("wp_the_query" !in rb.queryVars ==> g'["wp_the_query"] == Obj("WP_Query", rb.queryId))
      && ("wp" !in rb.queryVars ==> g'["wp"] == Obj("WP", rb.wpId))
      && (forall k :: k !in QueryGlobals && k !in QueryObjects && k !in rb.queryVars ==>
            (k in g' <==> k in st.globals) && (k in st.globals ==> g'[k] == st.globals[k]))
    ensures var st' := GoToState(st, url, parts, parseQuery, rb);
      && st'.post == map[]
      && (parts.scheme.None? || parts.query.None? ==> st'.get == map[])
      && (parts.scheme.Some? && parts.query.Some? ==> st'.get == parseQuery(parts.query.value))
      && "PATH_INFO" !in st'.server
      && st'.server["REQUEST_URI"] == Str(RequestUri(url, parts))
      && (forall k :: k in st.server && k != "PATH_INFO" && k != "REQUEST_URI" ==>
            k in st'.server && st'.server[k] == st.server[k])
      && st'.filters == st.filters && st'.themeDirectories == st.themeDirectories
  {
    var c := ClearedOn(st.globals, Elems(QueryGlobals));
    ClearedOnEffects(st.globals);
    RebuiltGlobalsEffects(c, rb);
    assert forall k :: k in QueryGlobals ==> k !in QueryObjects;
  }

  /** What the check base does that the engine can observe. */
  datatype RequestEvent =
    | Requested(url: string, mainQuery: string)
    | RunForUrl(url: string)

  /** The events of requesting and checking each URL in order: its request, then the check for it. */
  function RunEvents(urls: seq<string>, parseUrl: string -> UrlParts): seq<RequestEvent>
    decreases |urls|
  {
    if urls == [] then []
    else
      var url := urls[|urls| - 1];
      RunEvents(urls[..|urls| - 1], parseUrl) + [Requested(url, MainQuery(parseUrl(url))), RunForUrl(url)]
  }

  /** Each URL gives exactly two events, at positions 2i and 2i+1, nothing else comes between. */
  lemma {:induction false} RunEventsShape(urls: seq<string>, parseUrl: string -> UrlParts)
    ensures |RunEvents(urls, parseUrl)| == 2 * |urls|
    ensures forall i :: 0 <= i < |urls| ==>
              RunEvents(urls, parseUrl)[2 * i] == Requested(urls[i], MainQuery(parseUrl(urls[i]))) &&
              RunEvents(urls, parseUrl)[2 * i + 1] == RunForUrl(urls[i])
    decreases |urls|
  {
    if urls != [] {
      var n := |urls| - 1;
      RunEventsShape(urls[..n], parseUrl);
      var front := RunEvents(urls[..n], parseUrl);
      forall i | 0 <= i < n
        ensures RunEvents(urls, parseUrl)[2 * i] == Requested(urls[i], MainQuery(parseUrl(urls[i])))
        ensures RunEvents(urls, parseUrl)[2 * i + 1] == RunForUrl(urls[i])
      {
        assert RunEvents(urls, parseUrl)[2 * i] == front[2 * i];
        assert RunEvents(urls, parseUrl)[2 * i + 1] == front[2 * i + 1];
        assert urls[..n][i] == urls[i];
      }
    }
  }

  /** The host state after requesting each URL in turn, the i-th request finding `rebuild(i)`. */
  function RequestedAll(st: EnvState, urls: seq<string>, parseUrl: string -> UrlParts,
                        parseQuery: string -> map<string, Value>, rebuild: nat -> Rebuild): EnvState
    decreases |urls|
  {
    if urls == [] then st
    else
      var n := |urls| - 1;
      GoToState(RequestedAll(st, urls[..n], parseUrl, parseQuery, rebuild), urls[n], parseUrl(urls[n]), parseQuery, rebuild(n))
  }

  /**
   * What one `run_for_url` call does as far as the base can tell: the host
   * state it leaves, and the message of the exception it throws, if any.
   */
  datatype UrlRun = UrlRun(after: EnvState, thrown: Option<string>)

  /** Where `run` has got to: the host, the events so far, how many URLs ran, and how it ended. */
  datatype RunState = RunState(env: EnvState, events: seq<RequestEvent>, ran: nat, outcome: Outcome)

  /**
   * `run` over `urls`: each URL is requested and then the check runs for
   * it, with `forUrl` standing for `run_for_url`; the first exception ends
   * the loop.
   */
  function RunUpTo(st: EnvState, urls: seq<string>, parseUrl: string -> UrlParts, parseQuery: string -> map<string, Value>,
                   rebuild: nat -> Rebuild, forUrl: (EnvState, string) -> UrlRun): RunState
    decreases |urls|
  {
    if urls == [] then RunState(st, [], 0, Pass)
    else
      var n := |urls| - 1;
      var p := RunUpTo(st, urls[..n], parseUrl, parseQuery, rebuild, forUrl);
      if p.outcome.Fail? then p
      else
        var url := urls[n];
        var r := forUrl(GoToState(p.env, url, parseUrl(url), parseQuery, rebuild(n)), url);
        RunState(r.after, p.events + [Requested(url, MainQuery(parseUrl(url))), RunForUrl(url)], p.ran + 1,
                 if r.thrown.Some? then Fail(r.thrown.value) else Pass)
  }

  /** One more URL after a prefix that ran without an exception. */
  lemma RunUpToStep(st: EnvState, urls: seq<string>, i: nat, parseUrl: string -> UrlParts,
                    parseQuery: string -> map<string, Value>, rebuild: nat -> Rebuild,
                    forUrl: (EnvState, string) -> UrlRun, p: RunState, r: UrlRun)
    requires i < |urls|
    requires p == RunUpTo(st, urls[..i], parseUrl, parseQuery, rebuild, forUrl) && p.outcome == Pass
    requires r == forUrl(GoToState(p.env, urls[i], parseUrl(urls[i]), parseQuery, rebuild(i)), urls[i])
    ensures RunUpTo(st, urls[..i + 1], parseUrl, parseQuery, rebuild, forUrl) ==
            RunState(r.after, p.events + [Requested(urls[i], MainQuery(parseUrl(urls[i]))), RunForUrl(urls[i])], p.ran + 1,
                     if r.thrown.Some? then Fail(r.thrown.value) else Pass)
  {
    assert urls[..i + 1][..i] == urls[..i];
  }

  /** Once the check has thrown for a prefix, the later URLs change nothing. */
  lemma {:induction false} RunUpToStops(st: EnvState, urls: seq<string>, k: nat, parseUrl: string -> UrlParts,
                                        parseQuery: string -> map<string, Value>, rebuild: nat -> Rebuild,
                                        forUrl: (EnvState, string) -> UrlRun)
    requires k <= |urls|
    requires RunUpTo(st, urls[..k], parseUrl, parseQuery, rebuild, forUrl).outcome.Fail?
    ensures RunUpTo(st, urls, parseUrl, parseQuery, rebuild, forUrl) ==
            RunUpTo(st, urls[..k], parseUrl, parseQuery, rebuild, forUrl)
    decreases |urls|
  {
    if k < |urls| {
      var n := |urls| - 1;
      assert urls[..n][..k] == urls[..k];
      RunUpToStops(st, urls[..n], k, parseUrl, parseQuery, rebuild, forUrl);
    } else {
      assert urls[..k] == urls;
    }
  }

  /**
   * The URLs that ran are a prefix of the list, each requested and then
   * checked in order: all of them when no check threw; otherwise the run
   * ends with the exception of the last one that ran, every earlier one
   * having returned normally.
   */
  ghost predicate RanInOrder(st: EnvState, urls: seq<string>, parseUrl: string -> UrlParts,
                             parseQuery: string -> map<string, Value>, rebuild: nat -> Rebuild,
                             forUrl: (EnvState, string) -> UrlRun, r: RunState)
  {
    && r.ran <= |urls|
    && r.events == RunEvents(urls[..r.ran], parseUrl)
    && (r.outcome.Pass? ==> r.ran == |urls|)
    && (r.outcome.Fail? ==>
          && 0 < r.ran
          && var p := RunUpTo(st, urls[..r.ran - 1], parseUrl, parseQuery, rebuild, forUrl);
          && p.outcome.Pass?
          && forUrl(GoToState(p.env, urls[r.ran - 1], parseUrl(urls[r.ran - 1]), parseQuery, rebuild(r.ran - 1)),
                    urls[r.ran - 1]).thrown == Some(r.outcome.error))
  }

  /** A run that had already thrown on the prefix keeps its facts for the whole list. */
  lemma RanInOrderAfterFail(st: EnvState, urls: seq<string>, parseUrl: string -> UrlParts,
                            parseQuery: string -> map<string, Value>, rebuild: nat -> Rebuild,
                            forUrl: (EnvState, string) -> UrlRun, p: RunState)
    requires urls != []
    requires p == RunUpTo(st, urls[..|urls| - 1], parseUrl, parseQuery, rebuild, forUrl) && p.outcome.Fail?
    requires RanInOrder(st, urls[..|urls| - 1], parseUrl, parseQuery, rebuild, forUrl, p)
    ensures RanInOrder(st, urls, parseUrl, parseQuery, rebuild, forUrl, RunUpTo(st, urls, parseUrl, parseQuery, rebuild, forUrl))
  {
    var n := |urls| - 1;
    assert urls[..n][..p.ran] == urls[..p.ran];
    assert urls[..n][..p.ran - 1] == urls[..p.ran - 1];
  }

  /** A prefix that ran in full, followed by one more URL. */
  lemma RanInOrderAfterPass(st: EnvState, urls: seq<string>, parseUrl: string -> UrlParts,
                            parseQuery: string -> map<string, Value>, rebuild: nat -> Rebuild,
                            forUrl: (EnvState, string) -> UrlRun, p: RunState)
    requires urls != []
    requires p == RunUpTo(st, urls[..|urls| - 1], parseUrl, parseQuery, rebuild, forUrl) && p.outcome.Pass?
    requires RanInOrder(st, urls[..|urls| - 1], parseUrl, parseQuery, rebuild, forUrl, p)
    ensures RanInOrder(st, urls, parseUrl, parseQuery, rebuild, forUrl, RunUpTo(st, urls, parseUrl, parseQuery, rebuild, forUrl))
  {
    var n := |urls| - 1;
    assert urls[..n][..p.ran] == urls[..n];
    assert urls[..n + 1] == urls;
  }

  /** Every run, however it ends, has the shape `RanInOrder` describes. */
  lemma {:induction false} RunUpToProperties(st: EnvState, urls: seq<string>, parseUrl: string -> UrlParts,
                                             parseQuery: string -> map<string, Value>, rebuild: nat -> Rebuild,
                                             forUrl: (EnvState, string) -> UrlRun)
    ensures RanInOrder(st, urls, parseUrl, parseQuery, rebuild, forUrl, RunUpTo(st, urls, parseUrl, parseQuery, rebuild, forUrl))
    decreases |urls|
  {
    if urls != [] {
      var n := |urls| - 1;
      RunUpToProperties(st, urls[..n], parseUrl, parseQuery, rebuild, forUrl);
      var p := RunUpTo(st, urls[..n], parseUrl, parseQuery, rebuild, forUrl);
      if p.outcome.Pass? {
        RanInOrderAfterPass(st, urls, parseUrl, parseQuery, rebuild, forUrl, p);
      } else {
        RanInOrderAfterFail(st, urls, parseUrl, parseQuery, rebuild, forUrl, p);
      }
    }
  }

  /**
   * When the check leaves the host as it finds it and never throws, `run`
   * requests every URL in turn and nothing else happens.
   */
  lemma {:induction false} RunUpToQuiet(st: EnvState, urls: seq<string>, parseUrl: string -> UrlParts,
                                        parseQuery: string -> map<string, Value>, rebuild: nat -> Rebuild,
                                        forUrl: (EnvState, string) -> UrlRun)
    requires forall s, u :: forUrl(s, u) == UrlRun(s, None)
    ensures RunUpTo(st, urls, parseUrl, parseQuery, rebuild, forUrl) ==
            RunState(RequestedAll(st, urls, parseUrl, parseQuery, rebuild), RunEvents(urls, parseUrl), |urls|, Pass)
    decreases |urls|
  {
    if urls != [] {
      RunUpToQuiet(st, urls[..|urls| - 1], parseUrl, parseQuery, rebuild, forUrl);
    }
  }

  /**
   * A request-driven check: the URLs it runs for, and the events of its
   * `go_to` and `run_for_url` calls so far.
   */
  class AbstractRequestCheck {
    /** `get_urls()`. */
    const urls: seq<string>
    var events: seq<RequestEvent>

    constructor (urls: seq<string>)
      ensures this.urls == urls && events == []
    {
      this.urls := urls;
      events := [];
    }

    /**
     * `prepare`: the superglobals and every tracked global that is set, as
     * they are now; nothing changes.
     */
    method Prepare(env: Env) returns (snap: RequestSnapshot)
      ensures snap == Snapshot(env.State())
    {
      var globalVars: map<string, Value> := map[];
      var i := 0;
      while i < |QueryGlobals|
        invariant 0 <= i <= |QueryGlobals|
        invariant globalVars == SavedOn(env.globals, Elems(QueryGlobals[..i]))
      {
        var q := QueryGlobals[i];
        SliceSnoc(QueryGlobals, i);
        ElemsSnoc(QueryGlobals[..i], q);
        SavedOnStep(env.globals, Elems(QueryGlobals[..i]), q);
        if IsSet(env.globals, q) {
          globalVars := globalVars[q := env.globals[q]];
        }
        i := i + 1;
      }
      assert QueryGlobals[..i] == QueryGlobals;
      ghost var done := Elems(QueryGlobals);
      SavedOnStep(env.globals, done, "wp_query");
      if IsSet(env.globals, "wp_query") {
        globalVars := globalVars["wp_query" := env.globals["wp_query"]];
      }
      SavedOnStep(env.globals, done + {"wp_query"}, "wp_the_query");
      if IsSet(env.globals, "wp_the_query") {
        globalVars := globalVars["wp_the_query" := env.globals["wp_the_query"]];
      }
      SavedOnStep(env.globals, done + {"wp_query"} + {"wp_the_query"}, "wp");
      if IsSet(env.globals, "wp") {
        globalVars := globalVars["wp" := env.globals["wp"]];
      }
      TrackedKeys();
      snap := RequestSnapshot(env.get, env.post, env.server, globalVars);
    }

    /** One tracked key of the restore. */
    static method RestoreGlobal(env: Env, vars: map<string, Value>, k: string)
      modifies env
      ensures env.State() == old(env.State()).(globals := RestoreOne(old(env.globals), vars, k))
    {
      if IsSet(vars, k) {
        env.globals := env.globals[k := vars[k]];
      } else {
        env.globals := env.globals - {k};
      }
    }

    /** The loop of the cleanup over the query globals. */
    static method RestoreQueryGlobals(env: Env, vars: map<string, Value>)
      modifies env
      ensures env.State() == old(env.State()).(globals := RestoredOn(old(env.globals), vars, Elems(QueryGlobals)))
    {
      var i := 0;
      while i < |QueryGlobals|
        invariant 0 <= i <= |QueryGlobals|
        invariant env.State() == old(env.State()).(globals := RestoredOn(old(env.globals), vars, Elems(QueryGlobals[..i])))
      {
        var q := QueryGlobals[i];
        SliceSnoc(QueryGlobals, i);
        ElemsSnoc(QueryGlobals[..i], q);
        RestoredOnStep(old(env.globals), vars, Elems(QueryGlobals[..i]), q);
        RestoreGlobal(env, vars, q);
        i := i + 1;
      }
      assert QueryGlobals[..i] == QueryGlobals;
    }

    /** The cleanup returned by `prepare`, which holds the snapshot. */
    method Cleanup(env: Env, snap: RequestSnapshot)
      modifies env
      ensures env.State() == Restored(old(env.State()), snap)
    {
      env.get := snap.get;
      env.post := snap.post;
      env.server := snap.server;
      ghost var g0 := env.globals;
      ghost var vars := snap.globalVars;
      ghost var done := Elems(QueryGlobals);
      RestoreQueryGlobals(env, snap.globalVars);
      RestoredOnStep(g0, vars, done, "wp_query");
      RestoreGlobal(env, snap.globalVars, "wp_query");
      RestoredOnStep(g0, vars, done + {"wp_query"}, "wp_the_query");
      RestoreGlobal(env, snap.globalVars, "wp_the_query");
      RestoredOnStep(g0, vars, done + {"wp_query"} + {"wp_the_query"}, "wp");
      RestoreGlobal(env, snap.globalVars, "wp");
      TrackedKeys();
    }

    /** The loop of `go_to` that unsets every query global that is set. */
    static method ClearQueryGlobals(env: Env)
      modifies env
      ensures env.State() == old(env.State()).(globals := ClearedOn(old(env.globals), Elems(QueryGlobals)))
    {
      ghost var g0 := env.globals;
      var i := 0;
      while i < |QueryGlobals|
        invariant 0 <= i <= |QueryGlobals|
        invariant env.State() == old(env.State()).(globals := ClearedOn(g0, Elems(QueryGlobals[..i])))
      {
        var v := QueryGlobals[i];
        SliceSnoc(QueryGlobals, i);
        ElemsSnoc(QueryGlobals[..i], v);
        ClearedOnStep(g0, Elems(QueryGlobals[..i]), v);
        if IsSet(env.globals, v) {
          env.globals := env.globals - {v};
        }
        i := i + 1;
      }
      assert QueryGlobals[..i] == QueryGlobals;
    }

    /** The end of `go_to`: new query objects, then the listed query variables are unset. */
    static method RebuildQuery(env: Env, rb: Rebuild)
      modifies env
      ensures env.State() == old(env.State()).(globals := RebuiltGlobals(old(env.globals), rb))
    {
      env.globals := env.globals - {"wp_query", "wp_the_query"};
      env.globals := env.globals["wp_the_query" := Obj("WP_Query", rb.queryId)];
      env.globals := env.globals["wp_query" := env.globals["wp_the_query"]];
      env.globals := env.globals["wp" := Obj("WP", rb.wpId)];
      ghost var g1 := env.globals;
      var j := 0;
      while j < |rb.queryVars|
        invariant 0 <= j <= |rb.queryVars|
        invariant env.State() == old(env.State()).(globals := g1 - Elems(rb.queryVars[..j]))
      {
        SliceSnoc(rb.queryVars, j);
        ElemsSnoc(rb.queryVars[..j], rb.queryVars[j]);
        env.globals := env.globals - {rb.queryVars[j]};
        j := j + 1;
      }
      assert rb.queryVars[..j] == rb.queryVars;
    }

    /**
     * `go_to`: sets the host up as if `url` had been requested and returns
     * the query string the request dispatch receives.
     */
    static method GoTo(env: Env, url: string, parseUrl: string -> UrlParts, parseQuery: string -> map<string, Value>,
                       rb: Rebuild)
      returns (mainQuery: string)
      modifies env
      ensures env.State() == GoToState(old(env.State()), url, parseUrl(url), parseQuery, rb)
      ensures mainQuery == MainQuery(parseUrl(url))
    {
      env.get := map[];
      env.post := map[];
      ClearQueryGlobals(env);
      var parts := parseUrl(url);
      var req: string;
      if parts.scheme.Some? {
        req := if parts.path.Some? then parts.path.value else "";
        if parts.query.Some? {
          req := req + "?" + parts.query.value;
          env.get := parseQuery(parts.query.value);
        }
      } else {
        req := url;
      }
      assert req == RequestUri(url, parts);
      mainQuery := if parts.query.Some? then parts.query.value else "";
      env.server := env.server["REQUEST_URI" := Str(req)] - {"PATH_INFO"};
      RebuildQuery(env, rb);
    }

    /** One pass of `run`: the request for `url`, then the check for it. */
    static method RunUrl(env: Env, url: string, parseUrl: string -> UrlParts, parseQuery: string -> map<string, Value>,
                         rb: Rebuild, forUrl: (EnvState, string) -> UrlRun) returns (mainQuery: string, r: UrlRun)
      modifies env
      ensures mainQuery == MainQuery(parseUrl(url))
      ensures r == forUrl(GoToState(old(env.State()), url, parseUrl(url), parseQuery, rb), url)
      ensures env.State() == r.after
    {
      mainQuery := GoTo(env, url, parseUrl, parseQuery, rb);
      r := forUrl(env.State(), url);
      env.SetState(r.after);
    }

    /**
     * `run`: for each URL in order, the request is simulated and then the
     * check runs for that URL, the i-th request finding `rebuild(i)` and
     * `forUrl` standing for `run_for_url`; the first exception ends the
     * loop and is passed on.
     */
    method Run(env: Env, parseUrl: string -> UrlParts, parseQuery: string -> map<string, Value>,
               rebuild: nat -> Rebuild, forUrl: (EnvState, string) -> UrlRun) returns (o: Outcome)
      modifies this, env
      ensures var r := RunUpTo(old(env.State()), urls, parseUrl, parseQuery, rebuild, forUrl);
        events == old(events) + r.events && env.State() == r.env && o == r.outcome
    {
      ghost var st0 := env.State();
      ghost var done := RunUpTo(st0, urls[..0], parseUrl, parseQuery, rebuild, forUrl);
      var i := 0;
      while i < |urls|
        invariant 0 <= i <= |urls|
        invariant done == RunUpTo(st0, urls[..i], parseUrl, parseQuery, rebuild, forUrl)
        invariant done.outcome == Pass
        invariant events == old(events) + done.events
        invariant env.State() == done.env
      {
        var url := urls[i];
        var q, r := RunUrl(env, url, parseUrl, parseQuery, rebuild(i), forUrl);
        events := events + [Requested(url, q), RunForUrl(url)];
        RunUpToStep(st0, urls, i, parseUrl, parseQuery, rebuild, forUrl, done, r);
        done := RunState(r.after, done.events + [Requested(url, q), RunForUrl(url)], done.ran + 1,
                         if r.thrown.Some? then Fail(r.thrown.value) else Pass);
        if r.thrown.Some? {
          RunUpToStops(st0, urls, i + 1, parseUrl, parseQuery, rebuild, forUrl);
          return Fail(r.thrown.value);
        }
        i := i + 1;
      }
      assert urls[..i] == urls;
      o := Pass;
    }
  }
}
