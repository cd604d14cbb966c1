/**
 * The orchestrator: it prepares the host for checking one plugin (activate
 * the plugin, switch to a minimal theme), gates running the checks on that
 * preparation, and runs each check against a shared result, wrapping the
 * checks that are also preparations in their own prepare and cleanup.
 *
 * The checks themselves are plugin-supplied objects; here each one is a
 * scripted value: whether it is a preparation and whether its `prepare`
 * throws, and the messages its `run` adds before it returns or throws.
 * What happens is recorded in an event trace.
 */
module Checker {
  import opened Php
  import opened Wrappers
  import opened Host
  import opened CheckResults
  import opened ActivatePlugin
  import opened MinimalTheme

  /** How a check behaves as a `Preparation`, if it is one. */
  datatype PrepareBehaviour = NotAPreparation | PrepareSucceeds | PrepareThrows(error: string)

  /** What a check's `run` does: the messages it adds, in order, then whether it throws. */
  datatype RunBehaviour = RunBehaviour(adds: seq<MessageCall>, throws: Option<string>)

  /** A check instance: its class name, an identity, and its behaviour. */
  datatype Check = Check(className: string, id: nat, prepare: PrepareBehaviour, run: RunBehaviour)

  /** The two preparation steps of the orchestrator itself. */
  datatype Step = ActivatePluginStep | MinimalThemeStep

  /** The calls the orchestrator makes, in the order it makes them. */
  datatype Event =
    | PrepareStep(step: Step)
    | CleanupStep(step: Step)
    | PrepareCheck(checkId: nat)
    | RunCheck(checkId: nat)
    | CleanupCheck(checkId: nat)

  /** The cleanups collected by `prepare`, in the order the steps ran. */
  datatype Cleanups = Cleanups(activate: ActivatePluginPreparation, theme: UseMinimalThemePreparation)

  const MinimalThemeSlug := "wp-empty-theme"

  const NotPreparedMessage := "Environment not prepared to run checks. The Checks::prepare() method must be called first."

  function InvalidCheckMessage(name: string): string {
    "Invalid check class name " + name + "."
  }

  /** The documented argument types hold for every call of a sequence of `add_message` calls. */
  predicate WellTypedCalls(calls: seq<MessageCall>) {
    forall i :: 0 <= i < |calls| ==> WellTypedArgs(calls[i].args)
  }

  /** The documented argument types hold for every message a check adds. */
  predicate WellTypedCheck(c: Check) {
    WellTypedCalls(c.run.adds)
  }

  predicate WellTypedChecks(cs: seq<Check>) {
    forall i :: 0 <= i < |cs| ==> WellTypedCheck(cs[i])
  }

  lemma WellTypedCallsAppend(a: seq<MessageCall>, b: seq<MessageCall>)
    requires WellTypedCalls(a) && WellTypedCalls(b)
    ensures WellTypedCalls(a + b)
  {
    forall i | 0 <= i < |a + b| ensures WellTypedArgs((a + b)[i].args) {
      if i < |a| { assert (a + b)[i] == a[i]; } else { assert (a + b)[i] == b[i - |a|]; }
    }
  }

  // ----- one check: `run_check_with_result` -----

  /** The calls made for one check. */
  function CheckEvents(c: Check): seq<Event> {
    match c.prepare
    case NotAPreparation => [RunCheck(c.id)]
    case PrepareThrows(_) => [PrepareCheck(c.id)]
    case PrepareSucceeds => [PrepareCheck(c.id), RunCheck(c.id), CleanupCheck(c.id)]
  }

  /** How running one check ends: the exception of its `prepare` or of its `run`, if any. */
  function CheckOutcome(c: Check): Outcome {
    match c.prepare
    case PrepareThrows(e) => Fail(e)
    case _ => if c.run.throws.Some? then Fail(c.run.throws.value) else Pass
  }

  /** The messages one check adds to the result. */
  function CheckAdds(c: Check): (r: seq<MessageCall>)
    ensures WellTypedCheck(c) ==> WellTypedCalls(r)
  {
    if c.prepare.PrepareThrows? then [] else c.run.adds
  }

  /** The number of occurrences of an event. */
  function Count(es: seq<Event>, e: Event): nat {
    if es == [] then 0 else (if es[0] == e then 1 else 0) + Count(es[1..], e)
  }

  lemma {:induction false} CountAppend(a: seq<Event>, b: seq<Event>, e: Event)
    ensures Count(a + b, e) == Count(a, e) + Count(b, e)
  {
    if a == [] {
      assert a + b == b;
    } else {
      assert (a + b)[1..] == a[1..] + b;
      CountAppend(a[1..], b, e);
    }
  }

  lemma CountSingle(x: Event, e: Event)
    ensures Count([x], e) == if x == e then 1 else 0
  {
    assert [x][1..] == [];
  }

  /** How often each event occurs among the calls made for one check. */
  lemma CheckEventsCount(c: Check, e: Event)
    ensures Count(CheckEvents(c), e) ==
            (if e == PrepareCheck(c.id) && !c.prepare.NotAPreparation? then 1 else 0) +
            (if e == RunCheck(c.id) && !c.prepare.PrepareThrows? then 1 else 0) +
            (if e == CleanupCheck(c.id) && c.prepare.PrepareSucceeds? then 1 else 0)
  {
    var p, r, k := PrepareCheck(c.id), RunCheck(c.id), CleanupCheck(c.id);
    CountSingle(p, e);
    CountSingle(r, e);
    CountSingle(k, e);
    if c.prepare.PrepareSucceeds? {
      assert CheckEvents(c) == [p] + [r] + [k];
      CountAppend([p] + [r], [k], e);
      CountAppend([p], [r], e);
    }
  }

  /**
   * The wrapping of one check: a check that is not a preparation is only
   * run; a preparation's `run` comes after its `prepare` and is followed by
   * exactly one cleanup whether it returns or throws, and its exception is
   * passed on; a `prepare` that throws stops everything before `run`.
   */
  lemma CheckEventsBracketed(c: Check)
    ensures Count(CheckEvents(c), RunCheck(c.id)) == (if c.prepare.PrepareThrows? then 0 else 1)
    ensures Count(CheckEvents(c), PrepareCheck(c.id)) == (if c.prepare.NotAPreparation? then 0 else 1)
    ensures Count(CheckEvents(c), CleanupCheck(c.id)) == (if c.prepare.PrepareSucceeds? then 1 else 0)
    ensures c.prepare.PrepareSucceeds? ==>
              CheckEvents(c)[0] == PrepareCheck(c.id) && CheckEvents(c)[|CheckEvents(c)| - 1] == CleanupCheck(c.id)
    ensures !c.prepare.PrepareThrows? ==>
              (CheckOutcome(c) == Pass <==> c.run.throws.None?)
    ensures c.prepare.PrepareThrows? ==> CheckOutcome(c).Fail? && CheckAdds(c) == []
  {
    CheckEventsCount(c, RunCheck(c.id));
    CheckEventsCount(c, PrepareCheck(c.id));
    CheckEventsCount(c, CleanupCheck(c.id));
  }

  // ----- all checks: `run_all_checks` -----

  /** The calls made by running the checks in order, stopping after the first that throws. */
  function AllEvents(cs: seq<Check>): seq<Event> {
    if cs == [] then []
    else if CheckOutcome(cs[0]).Fail? then CheckEvents(cs[0])
    else CheckEvents(cs[0]) + AllEvents(cs[1..])
  }

  /** How running the checks in order ends: the first exception, if any. */
  function AllOutcome(cs: seq<Check>): Outcome {
    if cs == [] then Pass
    else if CheckOutcome(cs[0]).Fail? then CheckOutcome(cs[0])
    else AllOutcome(cs[1..])
  }

  /** The messages added by running the checks in order, up to and including the one that throws. */
  function AllAdds(cs: seq<Check>): (r: seq<MessageCall>)
    ensures WellTypedChecks(cs) ==> WellTypedCalls(r)
  {
    if cs == [] then []
    else if CheckOutcome(cs[0]).Fail? then CheckAdds(cs[0])
    else
      assert WellTypedChecks(cs) ==> WellTypedChecks(cs[1..]) by {
        if WellTypedChecks(cs) {
          forall i | 0 <= i < |cs[1..]| ensures WellTypedCheck(cs[1..][i]) { assert cs[1..][i] == cs[i + 1]; }
        }
      }
      assert WellTypedChecks(cs) ==> WellTypedCalls(CheckAdds(cs[0]) + AllAdds(cs[1..])) by {
        if WellTypedChecks(cs) {
          assert WellTypedCheck(cs[0]);
          WellTypedCallsAppend(CheckAdds(cs[0]), AllAdds(cs[1..]));
        }
      }
      CheckAdds(cs[0]) + AllAdds(cs[1..])
  }

  /** The checks succeed together exactly when each of them succeeds. */
  lemma {:induction false} AllOutcomePass(cs: seq<Check>)
    ensures AllOutcome(cs) == Pass <==> forall i :: 0 <= i < |cs| ==> CheckOutcome(cs[i]) == Pass
  {
    if cs != [] {
      AllOutcomePass(cs[1..]);
      if CheckOutcome(cs[0]) == Pass {
        forall i | 0 < i < |cs| ensures cs[i] == cs[1..][i - 1] { }
      }
    }
  }

  /**
   * Fail-fast: after a prefix that succeeds, the rest runs as if on its own;
   * after a prefix that throws, nothing else runs and nothing else is added.
   */
  lemma {:induction false} AllAppend(a: seq<Check>, b: seq<Check>)
    ensures AllOutcome(a).Pass? ==>
              AllEvents(a + b) == AllEvents(a) + AllEvents(b) &&
              AllAdds(a + b) == AllAdds(a) + AllAdds(b) &&
              AllOutcome(a + b) == AllOutcome(b)
    ensures AllOutcome(a).Fail? ==>
              AllEvents(a + b) == AllEvents(a) && AllAdds(a + b) == AllAdds(a) && AllOutcome(a + b) == AllOutcome(a)
  {
    AllAppendEvents(a, b);
    AllAppendAdds(a, b);
  }

  lemma ConsAppend(a: seq<Check>, b: seq<Check>)
    requires a != []
    ensures a + b != [] && (a + b)[0] == a[0] && (a + b)[1..] == a[1..] + b
  {
  }

  lemma {:induction false} AllAppendEvents(a: seq<Check>, b: seq<Check>)
    ensures AllOutcome(a).Pass? ==> AllEvents(a + b) == AllEvents(a) + AllEvents(b) && AllOutcome(a + b) == AllOutcome(b)
    ensures AllOutcome(a).Fail? ==> AllEvents(a + b) == AllEvents(a) && AllOutcome(a + b) == AllOutcome(a)
  {
    AllOutcomeAppend(a, b);
    if AllOutcome(a).Pass? {
      AllEventsPass(a, b);
    } else {
      AllEventsFail(a, b);
    }
  }

  lemma {:induction false} AllOutcomeAppend(a: seq<Check>, b: seq<Check>)
    ensures AllOutcome(a + b) == if AllOutcome(a).Pass? then AllOutcome(b) else AllOutcome(a)
  {
    if a == [] {
      assert a + b == b;
    } else {
      ConsAppend(a, b);
      AllOutcomeAppend(a[1..], b);
    }
  }

  lemma {:induction false} AllEventsPass(a: seq<Check>, b: seq<Check>)
    requires AllOutcome(a).Pass?
    ensures AllEvents(a + b) == AllEvents(a) + AllEvents(b)
  {
    if a == [] {
      assert a + b == b;
    } else {
      AllEventsPass(a[1..], b);
      AllEventsPassStep(a, b);
    }
  }

  /** The inductive step of `AllEventsPass`, with the hypothesis for the tail given. */
  lemma AllEventsPassStep(a: seq<Check>, b: seq<Check>)
    requires a != [] && CheckOutcome(a[0]).Pass?
    requires AllEvents(a[1..] + b) == AllEvents(a[1..]) + AllEvents(b)
    ensures AllEvents(a + b) == AllEvents(a) + AllEvents(b)
  {
    ConsAppend(a, b);
    AllEventsUnfold(a + b);
    AllEventsUnfold(a);
    AppendAssoc(CheckEvents(a[0]), AllEvents(a[1..]), AllEvents(b));
  }

  lemma {:induction false} AllEventsFail(a: seq<Check>, b: seq<Check>)
    requires AllOutcome(a).Fail?
    ensures AllEvents(a + b) == AllEvents(a)
  {
    ConsAppend(a, b);
    if CheckOutcome(a[0]).Pass? {
      AllEventsFail(a[1..], b);
    }
  }

  lemma {:induction false} AllAppendAdds(a: seq<Check>, b: seq<Check>)
    ensures AllOutcome(a).Pass? ==> AllAdds(a + b) == AllAdds(a) + AllAdds(b)
    ensures AllOutcome(a).Fail? ==> AllAdds(a + b) == AllAdds(a)
  {
    if AllOutcome(a).Pass? {
      AllAddsPass(a, b);
    } else {
      AllAddsFail(a, b);
    }
  }

  lemma {:induction false} AllAddsPass(a: seq<Check>, b: seq<Check>)
    requires AllOutcome(a).Pass?
    ensures AllAdds(a + b) == AllAdds(a) + AllAdds(b)
  {
    if a == [] {
      assert a + b == b;
    } else {
      AllAddsPass(a[1..], b);
      AllAddsPassStep(a, b);
    }
  }

  /** The inductive step of `AllAddsPass`, with the hypothesis for the tail given. */
  lemma AllAddsPassStep(a: seq<Check>, b: seq<Check>)
    requires a != [] && CheckOutcome(a[0]).Pass?
    requires AllAdds(a[1..] + b) == AllAdds(a[1..]) + AllAdds(b)
    ensures AllAdds(a + b) == AllAdds(a) + AllAdds(b)
  {
    ConsAppend(a, b);
    AllAddsUnfold(a + b);
    AllAddsUnfold(a);
    AppendAssoc(CheckAdds(a[0]), AllAdds(a[1..]), AllAdds(b));
  }

  lemma AllEventsUnfold(cs: seq<Check>)
    requires cs != [] && CheckOutcome(cs[0]).Pass?
    ensures AllEvents(cs) == CheckEvents(cs[0]) + AllEvents(cs[1..])
  {
  }

  lemma AllAddsUnfold(cs: seq<Check>)
    requires cs != [] && CheckOutcome(cs[0]).Pass?
    ensures AllAdds(cs) == CheckAdds(cs[0]) + AllAdds(cs[1..])
  {
  }

  lemma AppendAssoc<T>(x: seq<T>, y: seq<T>, z: seq<T>)
    ensures x + (y + z) == (x + y) + z
  {
  }

  lemma {:induction false} AllAddsFail(a: seq<Check>, b: seq<Check>)
    requires AllOutcome(a).Fail?
    ensures AllAdds(a + b) == AllAdds(a)
  {
    ConsAppend(a, b);
    if CheckOutcome(a[0]).Pass? {
      AllAddsFail(a[1..], b);
    }
  }

  /** A single check run on its own. */
  lemma AllSingle(c: Check)
    ensures AllEvents([c]) == CheckEvents(c) && AllAdds([c]) == CheckAdds(c) && AllOutcome([c]) == CheckOutcome(c)
  {
    assert [c][1..] == [];
  }

  /**
   * When the checks have distinct identities, every check whose `prepare`
   * completed is cleaned up exactly once, and no other check is cleaned up.
   */
  lemma {:induction false} AllCleanedUpOnce(cs: seq<Check>, i: nat)
    requires i < |cs|
    requires forall p, q :: 0 <= p < q < |cs| ==> cs[p].id != cs[q].id
    requires forall j :: 0 <= j < i ==> CheckOutcome(cs[j]) == Pass
    ensures Count(AllEvents(cs), CleanupCheck(cs[i].id)) == (if cs[i].prepare.PrepareSucceeds? then 1 else 0)
  {
    var c := cs[0];
    var e := CleanupCheck(cs[i].id);
    var rest := if CheckOutcome(c).Pass? then AllEvents(cs[1..]) else [];
    CountAppend(CheckEvents(c), rest, e);
    CheckEventsCount(c, e);
    if i == 0 {
      forall j | 0 <= j < |cs[1..]| ensures cs[1..][j].id != c.id {
        assert cs[1..][j] == cs[j + 1];
      }
      NoCleanupOf(cs[1..], c.id);
    } else {
      assert c.id != cs[i].id;
      assert cs[1..][i - 1] == cs[i];
      forall p, q | 0 <= p < q < |cs[1..]| ensures cs[1..][p].id != cs[1..][q].id {
        assert cs[1..][p] == cs[p + 1] && cs[1..][q] == cs[q + 1];
      }
      forall j | 0 <= j < i - 1 ensures CheckOutcome(cs[1..][j]) == Pass {
        assert cs[1..][j] == cs[j + 1];
      }
      AllCleanedUpOnce(cs[1..], i - 1);
    }
  }

  /** A check whose identity none of the checks carries is never cleaned up. */
  lemma {:induction false} NoCleanupOf(cs: seq<Check>, id: nat)
    requires forall j :: 0 <= j < |cs| ==> cs[j].id != id
    ensures Count(AllEvents(cs), CleanupCheck(id)) == 0
  {
    if cs != [] {
      var c := cs[0];
      var rest := if CheckOutcome(c).Pass? then AllEvents(cs[1..]) else [];
      CountAppend(CheckEvents(c), rest, CleanupCheck(id));
      CheckEventsCount(c, CleanupCheck(id));
      forall j | 0 <= j < |cs[1..]| ensures cs[1..][j].id != id {
        assert cs[1..][j] == cs[j + 1];
      }
      NoCleanupOf(cs[1..], id);
    }
  }

  // ----- looking up a single check: `run_single_check` -----

  /** The checks as the PHP values the lookup searches: objects. */
  function CheckValues(cs: seq<Check>): (vs: seq<Value>)
    ensures |vs| == |cs| && forall i :: 0 <= i < |cs| ==> vs[i] == Obj(cs[i].className, cs[i].id)
  {
    seq(|cs|, i requires 0 <= i < |cs| => Obj(cs[i].className, cs[i].id))
  }

  /** The lookup as written: the class name string, searched strictly among check objects. */
  function FindCheckAsWritten(name: string, cs: seq<Check>): Option<nat> {
    IndexOf(CheckValues(cs), Str(name))
  }

  /** A string is never identical to an object, so the lookup as written finds nothing for any name. */
  lemma FindCheckAsWrittenNeverFinds(name: string, cs: seq<Check>)
    ensures FindCheckAsWritten(name, cs) == None
  {
    assert Str(name) !in CheckValues(cs);
  }

  /** The lookup as intended: the first check whose class name is the given one. */
  function FindCheck(name: string, cs: seq<Check>): (r: Option<nat>)
    ensures r.None? <==> forall i :: 0 <= i < |cs| ==> cs[i].className != name
    ensures r.Some? ==> r.value < |cs| && cs[r.value].className == name &&
                        forall j :: 0 <= j < r.value ==> cs[j].className != name
  {
    if cs == [] then None
    else if cs[0].className == name then Some(0)
    else match FindCheck(name, cs[1..])
      case None => None
      case Some(i) => Some(i + 1)
  }

  /** A check named by its own class is found by the intended lookup and missed by the one as written. */
  lemma FindCheckDiffers(c: Check)
    ensures FindCheck(c.className, [c]) == Some(0)
    ensures FindCheckAsWritten(c.className, [c]) == None
  {
    FindCheckAsWrittenNeverFinds(c.className, [c]);
  }

  // ----- the orchestrator's own preparation -----

  /**
   * Preparing both steps and then running the combined cleanup gives the
   * host back exactly, when none of the steps' registrations was there
   * before, the themes root was not yet registered and it is not found only
   * under the content directory.
   */
  lemma PrepareThenCleanup(a: ActivatePluginPreparation, t: UseMinimalThemePreparation, st: EnvState,
                           files: set<string>, contentDir: string)
    requires st.filters * (a.Registrations() + t.Registrations()) == {}
    requires Untrailingslashit(t.themesDir) !in st.themeDirectories
    requires t.themesDir in files || contentDir + "/" + t.themesDir !in files
    ensures t.CleanedUp(a.CleanedUp(t.Prepared(a.Prepared(st), files, contentDir))) == st
  {
    var prepared := t.Prepared(a.Prepared(st), files, contentDir);
    assert a.Registrations() * t.Registrations() == {};
    assert a.CleanedUp(prepared) == t.Prepared(st, files, contentDir);
    t.PrepareThenCleanup(st, files, contentDir);
  }

  /** `Checks`: the orchestrator for one plugin. */
  class Checks {
    /** The checked plugin's basename, as its check context gives it. */
    const basename: string
    /** The path of the minimal themes root, as the main context gives it. */
    const themesDir: string
    /** The checks `get_checks` returns, after filtering. */
    const checks: seq<Check>

    var prepared: bool
    var trace: seq<Event>

    constructor (basename: string, themesDir: string, checks: seq<Check>)
      ensures this.basename == basename && this.themesDir == themesDir && this.checks == checks
      ensures !prepared && trace == []
      ensures PluginBasename() == basename
    {
      this.basename := basename;
      this.themesDir := themesDir;
      this.checks := checks;
      prepared := false;
      trace := [];
    }

    /** `plugin_basename`. */
    function PluginBasename(): string {
      basename
    }

    /**
     * `prepare`: activate the plugin, then switch to the minimal theme. When
     * activation throws, the exception is passed on, nothing else happens
     * and the flag keeps its value; otherwise both steps are in effect, the
     * flag is set and their cleanups are returned in order.
     */
    method Prepare(env: Env) returns (r: Result<Cleanups>)
      modifies this, env
      ensures env.pluginDir + "/" + basename !in env.files ==>
                r == Err("Plugin file for " + basename + " not found.") &&
                env.State() == old(env.State()) && prepared == old(prepared) &&
                trace == old(trace) + [PrepareStep(ActivatePluginStep)]
      ensures env.pluginDir + "/" + basename in env.files ==>
                r.Ok? && fresh(r.value.activate) && fresh(r.value.theme) &&
                r.value.activate.pluginBasename == basename &&
                r.value.theme.themeSlug == MinimalThemeSlug && r.value.theme.themesDir == themesDir &&
                env.State() == r.value.theme.Prepared(r.value.activate.Prepared(old(env.State())), env.files, env.contentDir) &&
                prepared &&
                trace == old(trace) + [PrepareStep(ActivatePluginStep), PrepareStep(MinimalThemeStep)]
    {
      var activate := new ActivatePluginPreparation(basename);
      var theme := new UseMinimalThemePreparation(MinimalThemeSlug, themesDir);
      assert activate.PluginFile(env.pluginDir) == env.pluginDir + "/" + basename;
      trace := trace + [PrepareStep(ActivatePluginStep)];
      var o := activate.Prepare(env);
      if o.Fail? {
        return Err(o.error);
      }
      PrepareTheme(env, theme);
      r := Ok(Cleanups(activate, theme));
    }

    /** The second step of `prepare`, reached once activation has succeeded. */
    method PrepareTheme(env: Env, theme: UseMinimalThemePreparation)
      modifies this, env
      ensures env.State() == theme.Prepared(old(env.State()), env.files, env.contentDir)
      ensures prepared && trace == old(trace) + [PrepareStep(MinimalThemeStep)]
    {
      trace := trace + [PrepareStep(MinimalThemeStep)];
      theme.Prepare(env);
      prepared := true;
    }

    /** The cleanup returned by `prepare`: each collected cleanup once, in order, then the flag is cleared. */
    method Cleanup(env: Env, c: Cleanups)
      modifies this, env
      ensures env.State() == c.theme.CleanedUp(c.activate.CleanedUp(old(env.State())))
      ensures !prepared
      ensures trace == old(trace) + [CleanupStep(ActivatePluginStep), CleanupStep(MinimalThemeStep)]
    {
      trace := trace + [CleanupStep(ActivatePluginStep)];
      c.activate.Cleanup(env);
      trace := trace + [CleanupStep(MinimalThemeStep)];
      c.theme.Cleanup(env);
      prepared := false;
    }

    /** `$check->run( $result )`: the check adds its messages, then returns or throws. */
    method RunScripted(c: Check, result: CheckResult) returns (o: Outcome)
      requires result.Valid() && WellTypedCheck(c)
      modifies this, result
      ensures result.Valid() && result.State() == AddedAll(old(result.State()), c.run.adds)
      ensures trace == old(trace) + [RunCheck(c.id)] && prepared == old(prepared)
      ensures o == (if c.run.throws.Some? then Fail(c.run.throws.value) else Pass)
    {
      trace := trace + [RunCheck(c.id)];
      AddAll(result, c.run.adds);
      o := if c.run.throws.Some? then Fail(c.run.throws.value) else Pass;
    }

    /** The sequence of `add_message` calls of one run. */
    static method AddAll(result: CheckResult, calls: seq<MessageCall>)
      requires result.Valid()
      requires WellTypedCalls(calls)
      modifies result
      ensures result.Valid() && result.State() == AddedAll(old(result.State()), calls)
    {
      var i := 0;
      while i < |calls|
        invariant 0 <= i <= |calls|
        invariant result.Valid()
        invariant result.State() == AddedAll(old(result.State()), calls[..i])
      {
        ghost var before := result.State();
        result.AddMessage(calls[i].isError, calls[i].message, calls[i].args);
        AddStep(old(result.State()), calls, i, before, result.State());
        i := i + 1;
      }
      assert calls[..i] == calls;
    }

    static lemma AddStep(st0: ResultState, calls: seq<MessageCall>, i: nat, before: ResultState, after: ResultState)
      requires i < |calls| && WellTypedCalls(calls)
      requires before == AddedAll(st0, calls[..i])
      requires after == Added(before, calls[i].isError, calls[i].message, calls[i].args)
      ensures after == AddedAll(st0, calls[..i + 1])
    {
      SliceSnoc(calls, i);
      AddedAllSnoc(st0, calls[..i], calls[i]);
    }

    /** `run_check_with_result`: prepare, run and exactly one cleanup for a preparation; only run otherwise. */
    method RunCheckWithResult(c: Check, result: CheckResult) returns (o: Outcome)
      requires result.Valid() && WellTypedCheck(c)
      modifies this, result
      ensures result.Valid() && result.State() == AddedAll(old(result.State()), CheckAdds(c))
      ensures trace == old(trace) + CheckEvents(c) && prepared == old(prepared)
      ensures o == CheckOutcome(c)
    {
      if c.prepare.NotAPreparation? {
        o := RunScripted(c, result);
      } else {
        o := RunWithPreparation(c, result);
      }
    }

    /** `run_check_with_result` for a check that is also a preparation. */
    method RunWithPreparation(c: Check, result: CheckResult) returns (o: Outcome)
      requires result.Valid() && WellTypedCheck(c) && !c.prepare.NotAPreparation?
      modifies this, result
      ensures result.Valid() && result.State() == AddedAll(old(result.State()), CheckAdds(c))
      ensures trace == old(trace) + CheckEvents(c) && prepared == old(prepared)
      ensures o == CheckOutcome(c)
    {
      ghost var t0 := trace;
      ghost var s0 := result.State();
      trace := trace + [PrepareCheck(c.id)];
      assert result.State() == s0;
      if c.prepare.PrepareThrows? {
        assert CheckAdds(c) == [];
        return Fail(c.prepare.error);
      }
      assert CheckAdds(c) == c.run.adds;
      o := RunPreparedCheck(c, result);
      PreparedEvents(t0, c);
    }

    static lemma PreparedEvents(t0: seq<Event>, c: Check)
      requires c.prepare.PrepareSucceeds?
      ensures t0 + [PrepareCheck(c.id)] + [RunCheck(c.id), CleanupCheck(c.id)] == t0 + CheckEvents(c)
    {
    }

    /** The `try` of `run_check_with_result`, after a successful `prepare`: the cleanup runs on both paths. */
    method RunPreparedCheck(c: Check, result: CheckResult) returns (o: Outcome)
      requires result.Valid() && WellTypedCheck(c)
      modifies this, result
      ensures result.Valid() && result.State() == AddedAll(old(result.State()), c.run.adds)
      ensures trace == old(trace) + [RunCheck(c.id), CleanupCheck(c.id)] && prepared == old(prepared)
      ensures o == (if c.run.throws.Some? then Fail(c.run.throws.value) else Pass)
    {
      // Whether `run` returns or throws, the `finally`-like cleanup call follows it,
      // and an exception is passed on unchanged afterwards.
      o := RunScripted(c, result);
      ghost var s1 := result.State();
      trace := trace + [CleanupCheck(c.id)];
      assert result.State() == s1;
    }

    /**
     * `run_all_checks`: refused unless prepared; otherwise the checks run in
     * order against one fresh result, and the first exception stops the run.
     */
    method RunAllChecks() returns (r: Result<CheckResult>)
      requires WellTypedChecks(checks)
      modifies this
      ensures prepared == old(prepared)
      ensures !prepared ==> r == Err(NotPreparedMessage) && trace == old(trace)
      ensures prepared ==> trace == old(trace) + AllEvents(checks)
      ensures prepared && AllOutcome(checks).Fail? ==> r == Err(AllOutcome(checks).error)
      ensures prepared && AllOutcome(checks).Pass? ==>
                r.Ok? && fresh(r.value) && r.value.Valid() && r.value.State() == AddedAll(Fresh(), AllAdds(checks))
    {
      if !prepared {
        return Err(NotPreparedMessage);
      }
      var result := new CheckResult();
      r := RunChecksFrom(result);
    }

    /** The loop of `run_all_checks`, over a result no one else holds. */
    method RunChecksFrom(result: CheckResult) returns (r: Result<CheckResult>)
      requires WellTypedChecks(checks)
      requires result.Valid()
      modifies this, result
      ensures prepared == old(prepared) && trace == old(trace) + AllEvents(checks)
      ensures AllOutcome(checks).Fail? ==> r == Err(AllOutcome(checks).error)
      ensures AllOutcome(checks).Pass? ==>
                r == Ok(result) && result.Valid() && result.State() == AddedAll(old(result.State()), AllAdds(checks))
    {
      ghost var t0 := trace;
      ghost var s0 := result.State();
      ghost var done: seq<Check> := [];
      var i := 0;
      while i < |checks|
        invariant 0 <= i <= |checks| && done == checks[..i]
        invariant prepared == old(prepared)
        invariant WellTypedChecks(done) && AllOutcome(done) == Pass
        invariant trace == t0 + AllEvents(done)
        invariant result.Valid() && result.State() == AddedAll(s0, AllAdds(done))
      {
        ghost var tBefore, sBefore := trace, result.State();
        assert WellTypedCheck(checks[i]);
        var o := RunCheckWithResult(checks[i], result);
        RunStep(s0, done, checks[i], t0, tBefore, trace, sBefore, result.State());
        if o.Fail? {
          RunStop(checks, i, done, t0, trace);
          return Err(o.error);
        }
        SliceSnoc(checks, i);
        done := done + [checks[i]];
        i := i + 1;
      }
      assert done == checks;
      r := Ok(result);
    }


    /** One step of the loop of `run_all_checks`. */
    static lemma RunStep(s0: ResultState, done: seq<Check>, c: Check, t0: seq<Event>, tBefore: seq<Event>, tAfter: seq<Event>,
                         sBefore: ResultState, sAfter: ResultState)
      requires WellTypedChecks(done) && WellTypedCheck(c) && AllOutcome(done) == Pass
      requires tBefore == t0 + AllEvents(done) && tAfter == tBefore + CheckEvents(c)
      requires sBefore == AddedAll(s0, AllAdds(done)) && sAfter == AddedAll(sBefore, CheckAdds(c))
      ensures WellTypedChecks(done + [c]) && AllOutcome(done + [c]) == CheckOutcome(c)
      ensures tAfter == t0 + AllEvents(done + [c])
      ensures sAfter == AddedAll(s0, AllAdds(done + [c]))
    {
      WellTypedSnoc(done, c);
      StepEvents(done, c);
      StepAdds(done, c, s0, sBefore);
    }

    static lemma WellTypedSnoc(done: seq<Check>, c: Check)
      requires WellTypedChecks(done) && WellTypedCheck(c)
      ensures WellTypedChecks(done + [c])
    {
      var p := done + [c];
      forall j | 0 <= j < |p| ensures WellTypedCheck(p[j]) {
        if j < |done| { assert p[j] == done[j]; }
      }
    }

    static lemma StepEvents(p: seq<Check>, c: Check)
      requires AllOutcome(p) == Pass
      ensures AllEvents(p + [c]) == AllEvents(p) + CheckEvents(c)
      ensures AllOutcome(p + [c]) == CheckOutcome(c)
      ensures AllAdds(p + [c]) == AllAdds(p) + CheckAdds(c)
    {
      AllAppend(p, [c]);
      AllSingle(c);
    }

    static lemma StepAdds(p: seq<Check>, c: Check, s0: ResultState, sBefore: ResultState)
      requires WellTypedChecks(p) && WellTypedCheck(c) && AllOutcome(p) == Pass
      requires sBefore == AddedAll(s0, AllAdds(p))
      ensures WellTypedCalls(AllAdds(p) + CheckAdds(c))
      ensures AddedAll(sBefore, CheckAdds(c)) == AddedAll(s0, AllAdds(p) + CheckAdds(c))
    {
      AddedAllAppend(s0, AllAdds(p), CheckAdds(c));
    }

    /** After the check that throws, the rest of the checks does not matter. */
    static lemma RunStop(cs: seq<Check>, i: nat, done: seq<Check>, t0: seq<Event>, t: seq<Event>)
      requires i < |cs| && done == cs[..i] && AllOutcome(done + [cs[i]]).Fail?
      requires t == t0 + AllEvents(done + [cs[i]])
      ensures t == t0 + AllEvents(cs) && AllOutcome(cs) == AllOutcome(done + [cs[i]])
    {
      AllAppend(done + [cs[i]], cs[i + 1..]);
      assert done + [cs[i]] + cs[i + 1..] == cs;
    }

    /**
     * `run_single_check`: refused unless prepared; a class name none of the
     * checks has is refused before anything runs; otherwise only the first
     * check of that class runs, against a fresh result.
     */
    method RunSingleCheck(name: string) returns (r: Result<CheckResult>)
      requires WellTypedChecks(checks)
      modifies this
      ensures prepared == old(prepared)
      ensures !prepared ==> r == Err(NotPreparedMessage) && trace == old(trace)
      ensures prepared && FindCheck(name, checks).None? ==>
                r == Err(InvalidCheckMessage(name)) && trace == old(trace)
      ensures prepared && FindCheck(name, checks).Some? ==>
                var c := checks[FindCheck(name, checks).value];
                trace == old(trace) + CheckEvents(c) &&
                (CheckOutcome(c).Fail? ==> r == Err(CheckOutcome(c).error)) &&
                (CheckOutcome(c).Pass? ==>
                   r.Ok? && fresh(r.value) && r.value.Valid() && r.value.State() == AddedAll(Fresh(), CheckAdds(c)))
    {
      if !prepared {
        return Err(NotPreparedMessage);
      }
      var result := new CheckResult();
      var index := FindCheck(name, checks);
      if index.None? {
        return Err("Invalid check class name " + name + ".");
      }
      var o := RunCheckWithResult(checks[index.value], result);
      if o.Fail? {
        return Err(o.error);
      }
      r := Ok(result);
    }
  }
}
