/** Cooldowns of rejecting endpoints and the background probes that lift them:
    config/model_probe.py. */
module RecoveryProbe {

  datatype Key = Key(baseUrl: string, model: string)

  const MIN_INTERVAL := 30.0
  const MAX_BACKOFF := 600.0

  /** The module's tables; a task is a probe whose coroutine has not finished. */
  datatype State = State(
    cooldown: map<Key, real>,
    inFlight: set<Key>,
    lastAttempt: map<Key, real>,
    backoff: map<Key, real>,
    tasks: map<nat, Key>,
    next: nat)

  const START := State(map[], {}, map[], map[], map[], 0)

  datatype Outcome = Failure | Success | Interrupted

  /** One call. Times are what the clock gives at that point; `reachable` says that no air gap
      forbids the endpoint, `loop` that an event loop is running. */
  datatype Event =
    | Mark(key: Key, now: real, seconds: real)
    | Clear(key: Key)
    | ClearAll
    | Check(key: Key, now: real)
    | Schedule(key: Key, checked: real, now: real, reachable: bool, loop: bool)
    | Finish(task: nat, outcome: Outcome, now: real)
    | Drop(task: nat)   // cancelled before its first step: not even the `finally` runs

  function Max(a: real, b: real): real {
    if a < b then b else a
  }

  function Min(a: real, b: real): real {
    if a < b then a else b
  }

  function Get(m: map<Key, real>, key: Key, otherwise: real): real {
    if key in m then m[key] else otherwise
  }

  function Marked(s: State, key: Key, now: real, seconds: real): State {
    s.(cooldown := s.cooldown[key := now + Max(1.0, seconds)])
  }

  predicate Limited(s: State, key: Key, now: real) {
    key in s.cooldown && now < s.cooldown[key]
  }

  /** Asking forgets a cooldown that has run out. */
  function Checked(s: State, key: Key, now: real): State {
    if Limited(s, key, now) then s else s.(cooldown := s.cooldown - {key})
  }

  predicate Starts(s: State, e: Event)
    requires e.Schedule?
  {
    && e.key.baseUrl != "" && Limited(s, e.key, e.checked)
    && e.key !in s.inFlight
    && e.now - Get(s.lastAttempt, e.key, 0.0) >= Get(s.backoff, e.key, MIN_INTERVAL)
    && e.reachable && e.loop
  }

  function Scheduled(s: State, e: Event): State
    requires e.Schedule?
  {
    if e.key.baseUrl == "" then s
    else if Starts(s, e) then
      s.(lastAttempt := s.lastAttempt[e.key := e.now], inFlight := s.inFlight + {e.key},
         tasks := s.tasks[s.next := e.key], next := s.next + 1)
    else Checked(s, e.key, e.checked)
  }

  function Failed(s: State, key: Key, now: real): State {
    var b := Min(Get(s.backoff, key, MIN_INTERVAL) * 2.0, MAX_BACKOFF);
    Marked(s.(backoff := s.backoff[key := b]), key, now, b)
  }

  function Recovered(s: State, key: Key): State {
    s.(cooldown := s.cooldown - {key}, backoff := s.backoff - {key})
  }

  function Finished(s: State, task: nat, outcome: Outcome, now: real): State
    requires task in s.tasks
  {
    var key := s.tasks[task];
    var r := match outcome
      case Failure => Failed(s, key, now)
      case Success => Recovered(s, key)
      case Interrupted => s;
    r.(inFlight := r.inFlight - {key}, tasks := r.tasks - {task})
  }

  predicate Enabled(s: State, e: Event) {
    (e.Finish? || e.Drop?) ==> e.task in s.tasks
  }

  function Apply(s: State, e: Event): State
    requires Enabled(s, e)
  {
    match e
    case Mark(key, now, seconds) => Marked(s, key, now, seconds)
    case Clear(key) => s.(cooldown := s.cooldown - {key})
    case ClearAll => s.(cooldown := map[])
    case Check(key, now) => Checked(s, key, now)
    case Schedule(_, _, _, _, _) => Scheduled(s, e)
    case Finish(task, outcome, now) => Finished(s, task, outcome, now)
    case Drop(task) => s.(tasks := s.tasks - {task})
  }

  // ---- the module as it runs ----

  class Prober {
    var cooldown: map<Key, real>
    var inFlight: set<Key>
    var lastAttempt: map<Key, real>
    var backoff: map<Key, real>
    var tasks: map<nat, Key>
    var next: nat

    function Tables(): State
      reads this
    {
      State(cooldown, inFlight, lastAttempt, backoff, tasks, next)
    }

    constructor ()
      ensures Tables() == START
    {
      cooldown, inFlight, lastAttempt, backoff, tasks, next := map[], {}, map[], map[], map[], 0;
    }

    method MarkRateLimited(key: Key, now: real, seconds: real)
      modifies this`cooldown
      ensures Tables() == Apply(old(Tables()), Mark(key, now, seconds))
    {
      cooldown := cooldown[key := now + Max(1.0, seconds)];
    }

    method ClearRateLimited(key: Key)
      modifies this`cooldown
      ensures Tables() == Apply(old(Tables()), Clear(key))
    {
      cooldown := cooldown - {key};
    }

    method IsRateLimited(key: Key, now: real) returns (limited: bool)
      modifies this`cooldown
      ensures limited == Limited(old(Tables()), key, now)
      ensures Tables() == Apply(old(Tables()), Check(key, now))
    {
      if key !in cooldown {
        assert cooldown - {key} == cooldown;
        return false;
      }
      if now >= cooldown[key] {
        cooldown := cooldown - {key};
        return false;
      }
      limited := true;
    }

    method MaybeScheduleRecoveryProbe(key: Key, checked: real, now: real, reachable: bool,
                                      loop: bool)
      modifies this
      ensures Tables() == Apply(old(Tables()), Schedule(key, checked, now, reachable, loop))
    {
      if key.baseUrl == "" {
        return;
      }
      var limited := IsRateLimited(key, checked);
      if !limited || key in inFlight {
        return;
      }
      var interval := Get(backoff, key, MIN_INTERVAL);
      if now - Get(lastAttempt, key, 0.0) < interval || !reachable || !loop {
        return;
      }
      lastAttempt := lastAttempt[key := now];
      inFlight := inFlight + {key};
      tasks, next := tasks[next := key], next + 1;
    }

    /** The rest of a probe once its request has ended. */
    method RunRecoveryProbe(task: nat, outcome: Outcome, now: real)
      requires task in tasks
      modifies this
      ensures Tables() == Apply(old(Tables()), Finish(task, outcome, now))
    {
      var key := tasks[task];
      match outcome {
        case Failure =>
          backoff := backoff[key := Min(Get(backoff, key, MIN_INTERVAL) * 2.0, MAX_BACKOFF)];
          MarkRateLimited(key, now, backoff[key]);
        case Success =>
          cooldown := cooldown - {key};
          backoff := backoff - {key};
        case Interrupted =>
      }
      inFlight := inFlight - {key};
      tasks := tasks - {task};
    }
  }

  // ---- runs ----

  ghost predicate Legal(es: seq<Event>)
    decreases |es|, 0
  {
    es == [] ||
    (Legal(es[..|es| - 1]) && Enabled(After(es[..|es| - 1]), es[|es| - 1]))
  }

  ghost function After(es: seq<Event>): State
    requires Legal(es)
    decreases |es|, 1
  {
    if es == [] then START else Apply(After(es[..|es| - 1]), es[|es| - 1])
  }

  // ---- one probe per endpoint ----

  /** Every running probe's endpoint is marked, and no two probes share one. */
  predicate OnePerKey(s: State) {
    && (forall t :: t in s.tasks ==> t < s.next && s.tasks[t] in s.inFlight)
    && (forall t, u :: t in s.tasks && u in s.tasks && t != u ==> s.tasks[t] != s.tasks[u])
  }

  lemma {:induction false} StepKeepsOnePerKey(s: State, e: Event)
    requires OnePerKey(s) && Enabled(s, e)
    ensures OnePerKey(Apply(s, e))
  {
    var r := Apply(s, e);
    forall t | t in r.tasks ensures t < r.next && r.tasks[t] in r.inFlight {
      assert t in s.tasks || t == s.next;
    }
  }

  /** In every run at most one probe per endpoint is in flight. */
  lemma {:induction false} OneProbePerEndpoint(es: seq<Event>)
    requires Legal(es)
    ensures OnePerKey(After(es))
  {
    if es != [] {
      var n := |es| - 1;
      OneProbePerEndpoint(es[..n]);
      StepKeepsOnePerKey(After(es[..n]), es[n]);
    }
  }

  // ---- backoff ----

  function Pow2(k: nat): (r: real)
    ensures r >= 1.0
  {
    if k == 0 then 1.0 else 2.0 * Pow2(k - 1)
  }

  /** What the backoff is after k failures in a row. */
  function BackoffAfter(k: nat): real {
    Min(30.0 * Pow2(k), 600.0)
  }

  /** How often in a row the endpoint's probes have failed. */
  ghost function Streak(es: seq<Event>, key: Key): nat
    requires Legal(es)
  {
    if es == [] then 0
    else
      var n := |es| - 1;
      var k, e := Streak(es[..n], key), es[n];
      if e.Finish? && After(es[..n]).tasks[e.task] == key then
        match e.outcome
        case Failure => k + 1
        case Success => 0
        case Interrupted => k
      else k
  }

  /** After k failures in a row the backoff is min(30 * 2^k, 600); without any it is not kept. */
  lemma {:induction false} BackoffIsStreak(es: seq<Event>, key: Key)
    requires Legal(es)
    ensures var s, k := After(es), Streak(es, key);
      && Get(s.backoff, key, MIN_INTERVAL) == BackoffAfter(k)
      && (key in s.backoff <==> k > 0)
  {
    if es != [] {
      var n := |es| - 1;
      BackoffIsStreak(es[..n], key);
    }
  }

  /** A failing probe sets a cooldown of exactly its new backoff; a successful one clears both. */
  lemma {:induction false} ProbeOutcome(es: seq<Event>, task: nat, outcome: Outcome, now: real)
    requires Legal(es) && task in After(es).tasks
    ensures var key, s := After(es).tasks[task], Apply(After(es), Finish(task, outcome, now));
      && key !in s.inFlight
      && (outcome == Failure ==>
            var b := BackoffAfter(Streak(es, key) + 1);
            key in s.cooldown && s.cooldown[key] == now + b && Get(s.backoff, key, 0.0) == b)
      && (outcome == Success ==> key !in s.cooldown && key !in s.backoff)
      && (outcome == Interrupted ==>
            s.cooldown == After(es).cooldown && s.backoff == After(es).backoff)
  {
    BackoffIsStreak(es, After(es).tasks[task]);
  }

  // ---- spacing ----

  /** The times the endpoint's probes were started at. */
  ghost function StartTimes(es: seq<Event>, key: Key): seq<real>
    requires Legal(es)
  {
    if es == [] then []
    else
      var n := |es| - 1;
      var rest, e := StartTimes(es[..n], key), es[n];
      if e.Schedule? && e.key == key && Starts(After(es[..n]), e) then rest + [e.now] else rest
  }

  lemma {:induction false} LastStartIsKept(es: seq<Event>, key: Key)
    requires Legal(es)
    ensures var ts, s := StartTimes(es, key), After(es);
      && (key in s.lastAttempt <==> ts != [])
      && (ts != [] ==> s.lastAttempt[key] == ts[|ts| - 1])
  {
    if es != [] {
      LastStartIsKept(es[..|es| - 1], key);
    }
  }

  /** A probe starts no sooner after the endpoint's last one (or after the clock's zero, for the
      first) than the backoff in force. */
  lemma {:induction false} StartsAfterBackoff(es: seq<Event>, e: Event)
    requires Legal(es) && e.Schedule? && Starts(After(es), e)
    ensures var ts := StartTimes(es, e.key);
      e.now - (if ts == [] then 0.0 else ts[|ts| - 1]) >= BackoffAfter(Streak(es, e.key))
  {
    LastStartIsKept(es, e.key);
    BackoffIsStreak(es, e.key);
  }

  /** So n further probes of an endpoint take at least 30 seconds each. */
  lemma {:induction false} ProbesAreRare(es: seq<Event>, key: Key, i: nat, j: nat)
    requires Legal(es) && i <= j < |StartTimes(es, key)|
    ensures StartTimes(es, key)[j] - StartTimes(es, key)[i] >= 30.0 * (j - i) as real
  {
    var n := |es| - 1;
    var ts := StartTimes(es[..n], key);
    if j < |ts| {
      ProbesAreRare(es[..n], key, i, j);
    } else if i < j {
      StartsAfterBackoff(es[..n], es[n]);
      ProbesAreRare(es[..n], key, i, j - 1);
    }
  }

  // ---- the window the next probe falls in ----

  /** The endpoint waits after a failed probe: started at `start`, failed at `failed`. */
  predicate Cooling(s: State, key: Key, start: real, failed: real, wait: real) {
    && Get(s.lastAttempt, key, 0.0) == start && Get(s.backoff, key, MIN_INTERVAL) == wait
    && (key in s.cooldown ==> s.cooldown[key] == failed + wait)
    && (forall t :: t in s.tasks ==> s.tasks[t] != key)
  }

  lemma {:induction false} FailureCools(s: State, task: nat, now: real)
    requires OnePerKey(s) && task in s.tasks
    ensures var key, r := s.tasks[task], Finished(s, task, Failure, now);
      Get(s.backoff, key, MIN_INTERVAL) >= 1.0 ==>
        Cooling(r, key, Get(s.lastAttempt, key, 0.0), now,
                Min(Get(s.backoff, key, MIN_INTERVAL) * 2.0, MAX_BACKOFF))
  {
  }

  /** Somebody else marks the endpoint, or its next probe starts. */
  predicate EndsWait(s: State, e: Event, key: Key) {
    (e.Mark? && e.key == key) || (e.Schedule? && e.key == key && Starts(s, e))
  }

  ghost predicate Undisturbed(es: seq<Event>, from: nat, key: Key)
    requires Legal(es)
    decreases |es|
  {
    from >= |es| ||
    (Undisturbed(es[..|es| - 1], from, key) && !EndsWait(After(es[..|es| - 1]), es[|es| - 1], key))
  }

  lemma {:induction false} StepKeepsCooling(s: State, e: Event, key: Key, start: real, failed: real, wait: real)
    requires Cooling(s, key, start, failed, wait) && Enabled(s, e) && !EndsWait(s, e, key)
    ensures Cooling(Apply(s, e), key, start, failed, wait)
  {
  }

  lemma {:induction false} RunKeepsCooling(es: seq<Event>, from: nat, key: Key, start: real,
                                           failed: real, wait: real)
    requires Legal(es) && from <= |es| && Undisturbed(es, from, key)
    requires Legal(es[..from]) && Cooling(After(es[..from]), key, start, failed, wait)
    ensures Cooling(After(es), key, start, failed, wait)
  {
    if from == |es| {
      assert es[..from] == es;
    } else {
      var n := |es| - 1;
      assert es[..n][..from] == es[..from];
      RunKeepsCooling(es[..n], from, key, start, failed, wait);
      StepKeepsCooling(After(es[..n]), es[n], key, start, failed, wait);
    }
  }

  /** After a failed probe that began at `start` and ended at `failed`, unless the endpoint is
      marked again meanwhile, the next probe starts no sooner than the backoff after the beginning
      and is asked for before the backoff after the end: past that nobody probes any more. */
  lemma {:induction false} NextProbeWindow(es: seq<Event>, n: nat, e: Event)
    requires Legal(es) && n < |es| && Legal(es[..n]) && Legal(es[..n + 1])
    requires es[n].Finish? && es[n].outcome == Failure
    requires e.Schedule? && es[n].task in After(es[..n]).tasks
    requires e.key == After(es[..n]).tasks[es[n].task]
    requires Undisturbed(es, n + 1, e.key) && Starts(After(es), e)
    ensures var wait := BackoffAfter(Streak(es[..n], e.key) + 1);
      e.now >= Get(After(es[..n]).lastAttempt, e.key, 0.0) + wait &&
      e.checked < es[n].now + wait
  {
    var before := es[..n];
    var wait := BackoffAfter(Streak(before, e.key) + 1);
    var start := Get(After(before).lastAttempt, e.key, 0.0);
    assert es[..n + 1][..n] == before;
    OneProbePerEndpoint(before);
    BackoffIsStreak(before, e.key);
    FailureCools(After(before), es[n].task, es[n].now);
    RunKeepsCooling(es, n + 1, e.key, start, es[n].now, wait);
  }

  // ---- a probe that never ran ----

  /** Some probe of the endpoint was cancelled before its first step. */
  ghost predicate Dropped(es: seq<Event>, key: Key)
    requires Legal(es)
  {
    es != [] &&
    (var n := |es| - 1;
     Dropped(es[..n], key) || (es[n].Drop? && After(es[..n]).tasks[es[n].task] == key))
  }

  ghost predicate Running(s: State, key: Key) {
    exists t :: t in s.tasks && s.tasks[t] == key
  }

  /** An endpoint counts as being probed while its probe runs, and for ever once a probe of it was
      cancelled before its first step: it is then never probed again. */
  lemma {:induction false} InFlightIff(es: seq<Event>, key: Key)
    requires Legal(es)
    ensures key in After(es).inFlight <==> Running(After(es), key) || Dropped(es, key)
    ensures Dropped(es, key) ==> !Running(After(es), key)
  {
    if es != [] {
      var n := |es| - 1;
      InFlightIff(es[..n], key);
      OneProbePerEndpoint(es[..n]);
      InFlightStep(After(es[..n]), es[n], key);
    }
  }

  lemma {:induction false} InFlightStep(s: State, e: Event, key: Key)
    requires OnePerKey(s) && Enabled(s, e)
    ensures var r := Apply(s, e);
      var starts := e.Schedule? && e.key == key && Starts(s, e);
      var ends := e.Finish? && s.tasks[e.task] == key;
      var drops := e.Drop? && s.tasks[e.task] == key;
      && (key in r.inFlight <==> (key in s.inFlight || starts) && !ends)
      && (Running(r, key) <==> (Running(s, key) || starts) && !ends && !drops)
      && (starts ==> key !in s.inFlight) && (ends || drops ==> Running(s, key))
  {
    var r := Apply(s, e);
    if t :| t in s.tasks && s.tasks[t] == key {
      assert t in r.tasks || e.Finish? || e.Drop?;
    }
    if e.Schedule? && Starts(s, e) {
      assert s.next in r.tasks;
    }
  }

  /** Whatever follows, no further probe of that endpoint is started. */
  lemma {:induction false} DroppedIsNeverProbed(es: seq<Event>, more: seq<Event>, key: Key)
    requires Legal(es + more) && Legal(es) && Dropped(es, key)
    ensures Dropped(es + more, key) && StartTimes(es + more, key) == StartTimes(es, key)
  {
    if more == [] {
      assert es + more == es;
    } else {
      var n := |more| - 1;
      assert (es + more)[..|es + more| - 1] == es + more[..n];
      DroppedIsNeverProbed(es, more[..n], key);
      InFlightIff(es + more[..n], key);
    }
  }

  /** A rejecting endpoint whose one probe is cancelled in time. */
  function DroppedRun(key: Key): seq<Event> {
    [Mark(key, 100.0, 60.0), Schedule(key, 100.0, 100.0, true, true), Drop(0)]
  }

  /** Such a run can happen to every endpoint; it starts one probe, and with it the last. */
  lemma {:induction false} DroppedProbe(key: Key, more: seq<Event>)
    requires key.baseUrl != ""
    ensures Legal(DroppedRun(key))
    ensures Legal(DroppedRun(key) + more) ==> StartTimes(DroppedRun(key) + more, key) == [100.0]
  {
    var es := DroppedRun(key);
    assert es[..2][..1] == es[..1] && es[..1][..0] == [] && es[..3] == es;
    assert Legal([]) && After([]) == START && StartTimes([], key) == [];
    assert Legal(es[..1]) && After(es[..1]) == Marked(START, key, 100.0, 60.0);
    assert Legal(es[..2]) && After(es[..2]) == Scheduled(After(es[..1]), es[1]);
    assert StartTimes(es[..1], key) == [];
    assert StartTimes(es[..2], key) == [100.0];
    assert Dropped(es, key) && StartTimes(es, key) == [100.0];
    if Legal(es + more) {
      DroppedIsNeverProbed(es, more, key);
    }
  }

  // ---- cooldowns ----

  /** Everything about the other endpoints is as it was. */
  ghost predicate OthersKept(s: State, r: State, key: Key) {
    forall k :: k != key ==>
      && (k in r.cooldown <==> k in s.cooldown) && (k in s.cooldown ==> r.cooldown[k] == s.cooldown[k])
      && (k in r.inFlight <==> k in s.inFlight)
      && Get(r.lastAttempt, k, -1.0) == Get(s.lastAttempt, k, -1.0) && Get(r.backoff, k, -1.0) == Get(s.backoff, k, -1.0)
  }

  /** A marked endpoint is limited for the seconds given, and for one second at least. */
  lemma {:induction false} MarkedIsLimited(s: State, key: Key, now: real, seconds: real, later: real)
    ensures var r := Apply(s, Mark(key, now, seconds));
      && (Limited(r, key, later) <==> later < now + seconds || later < now + 1.0)
      && OthersKept(s, r, key) && r == s.(cooldown := r.cooldown)
  {
  }

  /** Clearing lifts one cooldown, or all, and touches nothing else. */
  lemma {:induction false} ClearedIsFree(s: State, key: Key, later: real)
    ensures var r := Apply(s, Clear(key));
      !Limited(r, key, later) && OthersKept(s, r, key) && r == s.(cooldown := r.cooldown)
    ensures var r := Apply(s, ClearAll); !Limited(r, key, later) && r == s.(cooldown := r.cooldown)
  {
  }

  /** Asking changes no answer, then or later. */
  lemma {:induction false} AskingIsHarmless(s: State, key: Key, now: real, k: Key, later: real)
    requires later >= now
    ensures var r := Apply(s, Check(key, now));
      (Limited(r, k, later) <==> Limited(s, k, later)) && r == s.(cooldown := r.cooldown)
  {
  }

  /** A probe is started for a named endpoint that is limited, not being probed, and due: 30 seconds
      after its last probe, or the backoff it has; and then it counts as being probed. */
  lemma {:induction false} StartsWhenDue(s: State, e: Event)
    requires e.Schedule?
    ensures var r := Apply(s, e);
      var wait := if e.key in s.backoff then s.backoff[e.key] else 30.0;
      var last := if e.key in s.lastAttempt then s.lastAttempt[e.key] else 0.0;
      var starts := e.key.baseUrl != "" && e.key in s.cooldown && e.checked < s.cooldown[e.key] &&
                    e.key !in s.inFlight && e.now >= last + wait && e.reachable && e.loop;
      && OthersKept(s, r, e.key) && r.backoff == s.backoff
      && (if starts then
            && e.key in r.inFlight && Get(r.lastAttempt, e.key, -1.0) == e.now && r.cooldown == s.cooldown
            && r.tasks == s.tasks[s.next := e.key] && r.next == s.next + 1
          else
            r == s.(cooldown := r.cooldown))
  {
  }

  /** A failed probe doubles the wait, up to ten minutes, and cools the endpoint down for that long; a
      successful one forgets both. Either way the endpoint is no longer being probed. */
  lemma {:induction false} ProbeEnds(s: State, task: nat, outcome: Outcome, now: real, later: real)
    requires task in s.tasks
    ensures var key := s.tasks[task];
      var r := Apply(s, Finish(task, outcome, now));
      var was := if key in s.backoff then s.backoff[key] else 30.0;
      && OthersKept(s, r, key) && key !in r.inFlight && r.tasks == s.tasks - {task} && r.lastAttempt == s.lastAttempt
      && match outcome
         case Failure =>
           key in r.backoff && r.backoff[key] == (if was * 2.0 < 600.0 then was * 2.0 else 600.0) &&
           (r.backoff[key] >= 1.0 ==> (Limited(r, key, later) <==> later < now + r.backoff[key]))
         case Success => key !in r.backoff && !Limited(r, key, later)
         case Interrupted => r.backoff == s.backoff && r.cooldown == s.cooldown
  {
  }
}
