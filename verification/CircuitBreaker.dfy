/**
 * The circuit breaker as a concurrent protocol (cybernetics/circuit/breaker.py). A call takes the lock
 * twice, once to be admitted and once to report its outcome; between the two any number of other
 * calls may be admitted or report. A cancelled call reports nothing.
 */
module CircuitBreaker {
  import opened Collections

  datatype State = Closed | Open | HalfOpen

  datatype Config = Config(failureThreshold: int, recoveryTimeout: real, halfOpenMaxCalls: int)

  datatype Fields = Fields(state: State, failures: nat, lastFailureTime: Option<real>, halfOpenCalls: nat)

  const INITIAL := Fields(Closed, 0, None, 0)

  /** The test of the stored time for truth: an absent time and the time zero both fail it. */
  predicate Recovered(cfg: Config, f: Fields, now: real) {
    f.lastFailureTime.Some? && f.lastFailureTime.value != 0.0 && now - f.lastFailureTime.value >= cfg.recoveryTimeout
  }

  datatype Admission = Admission(after: Fields, admitted: bool)

  /** The first critical section. */
  function Admit(cfg: Config, f: Fields, now: real): Admission {
    if f.state == Open && !Recovered(cfg, f, now) then Admission(f, false)
    else
      var g := if f.state == Open then f.(state := HalfOpen, halfOpenCalls := 0) else f;
      if g.state == HalfOpen && g.halfOpenCalls >= cfg.halfOpenMaxCalls then Admission(g, false)
      else if g.state == HalfOpen then Admission(g.(halfOpenCalls := g.halfOpenCalls + 1), true)
      else Admission(g, true)
  }

  /** The second critical section, by outcome. */
  function Succeeded(f: Fields): Fields {
    f.(state := Closed, failures := 0, lastFailureTime := None)
  }

  function Failed(cfg: Config, f: Fields, now: real): Fields {
    var g := f.(failures := f.failures + 1, lastFailureTime := Some(now));
    if g.failures >= cfg.failureThreshold then g.(state := Open) else g
  }

  class Breaker {
    const cfg: Config
    var state: State
    var failures: nat
    var lastFailureTime: Option<real>
    var halfOpenCalls: nat

    constructor (cfg: Config)
      ensures this.cfg == cfg && Current() == INITIAL
    {
      this.cfg := cfg;
      state, failures, lastFailureTime, halfOpenCalls := Closed, 0, None, 0;
    }

    ghost function Current(): Fields
      reads this
    {
      Fields(state, failures, lastFailureTime, halfOpenCalls)
    }

    /** False where the source raises CircuitOpenError. */
    method Enter(now: real) returns (admitted: bool)
      modifies this
      ensures Admission(Current(), admitted) == Admit(cfg, old(Current()), now)
    {
      if state == Open {
        if lastFailureTime.Some? && lastFailureTime.value != 0.0 && now - lastFailureTime.value >= cfg.recoveryTimeout {
          state := HalfOpen;
          halfOpenCalls := 0;
        } else {
          return false;
        }
      }
      if state == HalfOpen && halfOpenCalls >= cfg.halfOpenMaxCalls {
        return false;
      }
      if state == HalfOpen {
        halfOpenCalls := halfOpenCalls + 1;
      }
      return true;
    }

    method ReportSuccess()
      modifies this
      ensures Current() == Succeeded(old(Current()))
    {
      state := Closed;
      failures := 0;
      lastFailureTime := None;
    }

    method ReportFailure(now: real)
      modifies this
      ensures Current() == Failed(cfg, old(Current()), now)
    {
      failures := failures + 1;
      lastFailureTime := Some(now);
      if failures >= cfg.failureThreshold {
        state := Open;
      }
    }
  }

  // ------------------------------------------------------------------- runs

  /** What happens at the breaker. A call is named by the position of its attempt in the log. */
  datatype Event =
    | Attempt(now: real)
    | Success(call: nat, now: real)
    | Failure(call: nat, now: real)
    | Cancelled(call: nat, now: real)

  /** The breaker, the calls in flight, and those admitted as trials since it last turned half-open. */
  datatype System = System(fields: Fields, inFlight: set<nat>, trials: set<nat>)

  function Step(cfg: Config, s: System, e: Event, position: nat): System {
    match e
    case Attempt(now) =>
      var a := Admit(cfg, s.fields, now);
      var trials := if s.fields.state == Open && a.after.state == HalfOpen then {} else s.trials;
      System(a.after,
             if a.admitted then s.inFlight + {position} else s.inFlight,
             if a.admitted && a.after.state == HalfOpen then trials + {position} else trials)
    case Success(call, _) => s.(fields := Succeeded(s.fields), inFlight := s.inFlight - {call})
    case Failure(call, now) => s.(fields := Failed(cfg, s.fields, now), inFlight := s.inFlight - {call})
    case Cancelled(call, _) => s.(inFlight := s.inFlight - {call})
  }

  function Run(cfg: Config, log: seq<Event>): System {
    if log == [] then System(INITIAL, {}, {})
    else Step(cfg, Run(cfg, log[..|log| - 1]), log[|log| - 1], |log| - 1)
  }

  predicate Possible(s: System, e: Event) {
    e.Attempt? || e.call in s.inFlight
  }

  /** Only calls in flight end, and the clock never runs backwards. */
  ghost predicate ValidLog(cfg: Config, log: seq<Event>) {
    log == [] ||
    (var init := log[..|log| - 1];
     var last := log[|log| - 1];
     && ValidLog(cfg, init)
     && Possible(Run(cfg, init), last)
     && (init != [] ==> init[|init| - 1].now <= last.now))
  }

  lemma RunPush(cfg: Config, log: seq<Event>, e: Event)
    ensures Run(cfg, log + [e]) == Step(cfg, Run(cfg, log), e, |log|)
  {
    assert (log + [e])[..|log|] == log;
  }

  // ------------------------------------------- the state, read off the log

  /** The part of the log after its last successful completion. */
  function SinceSuccess(log: seq<Event>): seq<Event> {
    if log == [] || log[|log| - 1].Success? then []
    else SinceSuccess(log[..|log| - 1]) + [log[|log| - 1]]
  }

  predicate Completes(e: Event) {
    e.Success? || e.Failure?
  }

  /** The part of the log after its last completion, good or bad. */
  function SinceCompletion(log: seq<Event>): seq<Event> {
    if log == [] || Completes(log[|log| - 1]) then []
    else SinceCompletion(log[..|log| - 1]) + [log[|log| - 1]]
  }

  function FailureTimes(log: seq<Event>): seq<real> {
    if log == [] then []
    else
      var before := FailureTimes(log[..|log| - 1]);
      if log[|log| - 1].Failure? then before + [log[|log| - 1].now] else before
  }

  /** Failed completions since the last successful one. */
  function Streak(log: seq<Event>): nat {
    |FailureTimes(SinceSuccess(log))|
  }

  function LastFailure(log: seq<Event>): Option<real> {
    var times := FailureTimes(SinceSuccess(log));
    if times == [] then None else Some(times[|times| - 1])
  }

  predicate Trips(cfg: Config, streak: nat) {
    streak >= 1 && streak >= cfg.failureThreshold
  }

  predicate Tripped(cfg: Config, log: seq<Event>) {
    Trips(cfg, Streak(log))
  }

  predicate Wakes(cfg: Config, last: Option<real>, e: Event) {
    e.Attempt? && last.Some? && last.value != 0.0 && e.now - last.value >= cfg.recoveryTimeout
  }

  /** Some attempt since the last completion came late enough to start trials. */
  predicate Awake(cfg: Config, log: seq<Event>) {
    exists e :: e in SinceCompletion(log) && Wakes(cfg, LastFailure(log), e)
  }

  /** The state by the length of the streak, and whether trials have been started. */
  function StateFrom(cfg: Config, streak: nat, awake: bool): State {
    if !Trips(cfg, streak) then Closed else if awake then HalfOpen else Open
  }

  lemma LogPush(log: seq<Event>, e: Event)
    ensures SinceSuccess(log + [e]) == if e.Success? then [] else SinceSuccess(log) + [e]
    ensures SinceCompletion(log + [e]) == if Completes(e) then [] else SinceCompletion(log) + [e]
    ensures FailureTimes(log + [e]) == if e.Failure? then FailureTimes(log) + [e.now] else FailureTimes(log)
  {
    assert (log + [e])[..|log|] == log;
  }

  lemma StreakPush(log: seq<Event>, e: Event)
    ensures Streak(log + [e]) == if e.Success? then 0 else if e.Failure? then Streak(log) + 1 else Streak(log)
    ensures LastFailure(log + [e]) == if e.Success? then None else if e.Failure? then Some(e.now) else LastFailure(log)
  {
    LogPush(log, e);
    if !e.Success? {
      LogPush(SinceSuccess(log), e);
    }
  }

  lemma AwakePush(cfg: Config, log: seq<Event>, e: Event)
    ensures Awake(cfg, log + [e]) <==> !Completes(e) && (Awake(cfg, log) || Wakes(cfg, LastFailure(log), e))
  {
    LogPush(log, e);
    StreakPush(log, e);
    if !Completes(e) {
      var before := SinceCompletion(log);
      assert forall x :: x in before + [e] <==> x in before || x == e;
    }
  }

  /** One step, in terms of the streak, the last failure and whether trials have been started. */
  lemma StepFollows(cfg: Config, s: System, e: Event, position: nat, streak: nat, last: Option<real>, awake: bool)
    requires s.fields.failures == streak && s.fields.lastFailureTime == last
             && s.fields.state == StateFrom(cfg, streak, awake)
    ensures var f := Step(cfg, s, e, position).fields;
            && f.failures == (if e.Success? then 0 else if e.Failure? then streak + 1 else streak)
            && f.lastFailureTime == (if e.Success? then None else if e.Failure? then Some(e.now) else last)
            && f.state == StateFrom(cfg, f.failures, !Completes(e) && (awake || Wakes(cfg, last, e)))
  {
  }

  /**
   * The breaker's state is a function of its history, under every interleaving of admissions and
   * completions, stragglers and cancellations included: the failure count is the current streak,
   * the stored time is the last failure of that streak, the circuit is closed exactly while the
   * streak is empty or below the threshold, and half-open exactly when it is not closed and an
   * attempt has come late enough since the last completion.
   */
  lemma {:induction false} StateIsHistory(cfg: Config, log: seq<Event>)
    ensures var f := Run(cfg, log).fields;
            && f.failures == Streak(log)
            && f.lastFailureTime == LastFailure(log)
            && f.state == StateFrom(cfg, Streak(log), Awake(cfg, log))
  {
    if log == [] {
    } else {
      var init := log[..|log| - 1];
      var e := log[|log| - 1];
      assert log == init + [e];
      StateIsHistory(cfg, init);
      StreakPush(init, e);
      AwakePush(cfg, init, e);
      StepFollows(cfg, Run(cfg, init), e, |init|, Streak(init), LastFailure(init), Awake(cfg, init));
    }
  }

  // ------------------------------------------------------------------ safety

  predicate AdmittedAt(cfg: Config, log: seq<Event>, i: nat)
    requires i < |log|
  {
    log[i].Attempt? && Admit(cfg, Run(cfg, log[..i]).fields, log[i].now).admitted
  }

  lemma {:induction false} ClockIsMonotone(cfg: Config, log: seq<Event>, i: nat)
    requires ValidLog(cfg, log) && i < |log|
    ensures log[i].now <= log[|log| - 1].now
  {
    if i < |log| - 1 {
      ClockIsMonotone(cfg, log[..|log| - 1], i);
    }
  }

  lemma {:induction false} ValidPrefix(cfg: Config, log: seq<Event>, i: nat)
    requires ValidLog(cfg, log) && i <= |log|
    ensures ValidLog(cfg, log[..i])
  {
    if i < |log| {
      assert log[..|log| - 1][..i] == log[..i];
      ValidPrefix(cfg, log[..|log| - 1], i);
    } else {
      assert log[..i] == log;
    }
  }

  lemma {:induction false} InSinceCompletion(log: seq<Event>, e: Event)
    requires e in SinceCompletion(log)
    ensures e in log
  {
    var init := log[..|log| - 1];
    assert log == init + [log[|log| - 1]];
    if e != log[|log| - 1] {
      InSinceCompletion(init, e);
    }
  }

  /**
   * While the circuit is tripped no call is admitted before the recovery timeout has passed since
   * the last failed completion, whether it comes from the open or the half-open state.
   */
  lemma NoEarlyAdmission(cfg: Config, log: seq<Event>, i: nat)
    requires ValidLog(cfg, log) && i < |log| && AdmittedAt(cfg, log, i)
    requires Tripped(cfg, log[..i])
    ensures LastFailure(log[..i]).Some?
    ensures log[i].now - LastFailure(log[..i]).value >= cfg.recoveryTimeout
  {
    var before := log[..i];
    StateIsHistory(cfg, before);
    if Run(cfg, before).fields.state == HalfOpen {
      var e :| e in SinceCompletion(before) && Wakes(cfg, LastFailure(before), e);
      InSinceCompletion(before, e);
      var k :| 0 <= k < |before| && before[k] == e;
      ValidPrefix(cfg, log, i + 1);
      assert log[..i + 1][k] == e && log[..i + 1][i] == log[i];
      ClockIsMonotone(cfg, log[..i + 1], k);
    }
  }

  // ---------------------------------------------------- half-open accounting

  ghost predicate Accounted(cfg: Config, s: System, n: nat) {
    && (forall c :: c in s.inFlight ==> c < n)
    && (forall c :: c in s.trials ==> c < n)
    && (s.fields.state == HalfOpen ==>
          && s.fields.halfOpenCalls == |s.trials|
          && (s.fields.halfOpenCalls == 0 || s.fields.halfOpenCalls <= cfg.halfOpenMaxCalls))
    && (s.fields.state != Closed ==> s.fields.failures >= 1 && s.fields.failures >= cfg.failureThreshold)
  }

  lemma StepAccounted(cfg: Config, s: System, e: Event, n: nat)
    requires Accounted(cfg, s, n)
    ensures Accounted(cfg, Step(cfg, s, e, n), n + 1)
  {
    if e.Attempt? {
      var trials := if s.fields.state == Open then {} else s.trials;
      assert n !in trials;
      assert |trials + {n}| == |trials| + 1;
    }
  }

  lemma {:induction false} RunAccounted(cfg: Config, log: seq<Event>)
    ensures Accounted(cfg, Run(cfg, log), |log|)
  {
    if log == [] {
    } else {
      RunAccounted(cfg, log[..|log| - 1]);
      StepAccounted(cfg, Run(cfg, log[..|log| - 1]), log[|log| - 1], |log| - 1);
    }
  }

  /** Calls of a set that were cancelled. */
  function CancelledCalls(log: seq<Event>): set<nat> {
    set e | e in log && e.Cancelled? :: e.call
  }

  lemma CancelledPush(log: seq<Event>, e: Event)
    ensures CancelledCalls(log + [e]) == CancelledCalls(log) + if e.Cancelled? then {e.call} else {}
  {
    forall c ensures c in CancelledCalls(log + [e]) <==> c in CancelledCalls(log) || (e.Cancelled? && c == e.call) {
    }
  }

  lemma StepPending(cfg: Config, s: System, e: Event, n: nat, cancelled: set<nat>)
    requires Accounted(cfg, s, n) && (s.fields.state == HalfOpen ==> s.trials <= s.inFlight + cancelled)
    requires Step(cfg, s, e, n).fields.state == HalfOpen
    ensures var t := Step(cfg, s, e, n); t.trials <= t.inFlight + (cancelled + if e.Cancelled? then {e.call} else {})
  {
  }

  /** While half-open, a trial has either been cancelled or is still in flight: nothing has completed. */
  lemma {:induction false} TrialsPending(cfg: Config, log: seq<Event>)
    requires ValidLog(cfg, log) && Run(cfg, log).fields.state == HalfOpen
    ensures Run(cfg, log).trials <= Run(cfg, log).inFlight + CancelledCalls(log)
  {
    var init := log[..|log| - 1];
    var e := log[|log| - 1];
    assert log == init + [e];
    if Run(cfg, init).fields.state == HalfOpen {
      TrialsPending(cfg, init);
    }
    RunAccounted(cfg, init);
    CancelledPush(init, e);
    StepPending(cfg, Run(cfg, init), e, |init|, CancelledCalls(init));
  }

  lemma {:induction false} CancelledAreOut(cfg: Config, log: seq<Event>)
    requires ValidLog(cfg, log)
    ensures CancelledCalls(log) !! Run(cfg, log).inFlight
    ensures forall c :: c in CancelledCalls(log) ==> c < |log|
  {
    if log == [] {
    } else {
      var init := log[..|log| - 1];
      var e := log[|log| - 1];
      assert log == init + [e];
      CancelledAreOut(cfg, init);
      RunAccounted(cfg, init);
      CancelledPush(init, e);
    }
  }

  /**
   * While half-open, the slot counter is the number of this epoch's trials that are in flight plus
   * the number that were cancelled, and never exceeds the configured maximum.
   */
  lemma HalfOpenSlots(cfg: Config, log: seq<Event>)
    requires ValidLog(cfg, log) && Run(cfg, log).fields.state == HalfOpen
    ensures var s := Run(cfg, log);
            && s.fields.halfOpenCalls == |s.trials * s.inFlight| + |s.trials * CancelledCalls(log)|
            && (s.fields.halfOpenCalls <= cfg.halfOpenMaxCalls || s.fields.halfOpenCalls == 0)
  {
    RunAccounted(cfg, log);
    TrialsPending(cfg, log);
    CancelledAreOut(cfg, log);
    var s := Run(cfg, log);
    assert s.trials == s.trials * s.inFlight + s.trials * CancelledCalls(log);
  }

  // ---------------------------------------------------------------- progress

  /** No call can be admitted now or ever, and none is left that could report. */
  predicate Stuck(cfg: Config, s: System) {
    s.fields.state == HalfOpen && s.fields.halfOpenCalls >= cfg.halfOpenMaxCalls && s.inFlight == {}
  }

  /** Exactly when a breaker is stuck: half-open, nothing in flight, and every slot lost to a cancelled trial. */
  lemma StuckExactly(cfg: Config, log: seq<Event>)
    requires ValidLog(cfg, log)
    ensures var s := Run(cfg, log);
            Stuck(cfg, s) <==>
            && s.fields.state == HalfOpen
            && s.inFlight == {}
            && |s.trials * CancelledCalls(log)| >= cfg.halfOpenMaxCalls
  {
    var s := Run(cfg, log);
    if s.fields.state == HalfOpen && s.inFlight == {} {
      HalfOpenSlots(cfg, log);
      assert s.trials * s.inFlight == {};
    }
  }

  /** So without cancellation, and with at least one slot, the breaker is never stuck. */
  lemma NeverStuckWithoutCancellation(cfg: Config, log: seq<Event>)
    requires ValidLog(cfg, log) && cfg.halfOpenMaxCalls >= 1
    requires forall e :: e in log ==> !e.Cancelled?
    ensures !Stuck(cfg, Run(cfg, log))
  {
    StuckExactly(cfg, log);
    assert CancelledCalls(log) == {};
    assert Run(cfg, log).trials * CancelledCalls(log) == {};
  }

  /** Once stuck, stuck for good: every later attempt is refused. */
  lemma {:induction false} StuckForever(cfg: Config, log: seq<Event>, more: seq<Event>)
    requires ValidLog(cfg, log + more) && Stuck(cfg, Run(cfg, log))
    ensures Run(cfg, log + more) == Run(cfg, log)
    ensures forall i :: |log| <= i < |log + more| ==> !AdmittedAt(cfg, log + more, i)
  {
    if more == [] {
      assert log + more == log;
    } else {
      var init := more[..|more| - 1];
      var last := more[|more| - 1];
      assert log + more == (log + init) + [last];
      assert (log + more)[..|log + init|] == log + init;
      StuckForever(cfg, log, init);
      RunPush(cfg, log + init, last);
      forall i | |log| <= i < |log + init| ensures !AdmittedAt(cfg, log + more, i) {
        assert (log + more)[..i] == (log + init)[..i];
        assert (log + more)[i] == (log + init)[i];
        assert !AdmittedAt(cfg, log + init, i);
      }
      assert !AdmittedAt(cfg, log + more, |log + init|);
    }
  }

  lemma ValidPush(cfg: Config, log: seq<Event>, e: Event)
    requires ValidLog(cfg, log) && Possible(Run(cfg, log), e)
    requires log != [] ==> log[|log| - 1].now <= e.now
    ensures ValidLog(cfg, log + [e])
  {
    assert (log + [e])[..|log|] == log;
  }

  /** It does happen: one failure opens the circuit, the one trial is cancelled, and that is the end. */
  lemma CancelledTrialJams(cfg: Config)
    requires cfg == Config(1, 60.0, 1)
    ensures var log := [] + [Attempt(1.0)] + [Failure(0, 2.0)] + [Attempt(62.0)] + [Cancelled(2, 63.0)];
            ValidLog(cfg, log) && Stuck(cfg, Run(cfg, log))
  {
    var a := [] + [Attempt(1.0)];
    var b := a + [Failure(0, 2.0)];
    var c := b + [Attempt(62.0)];
    RunPush(cfg, [], Attempt(1.0));
    ValidPush(cfg, [], Attempt(1.0));
    RunPush(cfg, a, Failure(0, 2.0));
    ValidPush(cfg, a, Failure(0, 2.0));
    RunPush(cfg, b, Attempt(62.0));
    ValidPush(cfg, b, Attempt(62.0));
    RunPush(cfg, c, Cancelled(2, 63.0));
    ValidPush(cfg, c, Cancelled(2, 63.0));
  }

  // -------------------------------------------------------------- admission

  /** Calls admitted since the last completion. */
  function Admissions(cfg: Config, log: seq<Event>): nat {
    if log == [] || Completes(log[|log| - 1]) then 0
    else
      var before := Admissions(cfg, log[..|log| - 1]);
      if AdmittedAt(cfg, log, |log| - 1) then before + 1 else before
  }

  lemma {:induction false} SlotsAreAdmissions(cfg: Config, log: seq<Event>)
    ensures Tripped(cfg, log) ==>
              Admissions(cfg, log) == if Awake(cfg, log) then Run(cfg, log).fields.halfOpenCalls else 0
  {
    StateIsHistory(cfg, log);
    if log != [] {
      var init := log[..|log| - 1];
      assert log == init + [log[|log| - 1]];
      StateIsHistory(cfg, init);
      StreakPush(init, log[|log| - 1]);
      SlotsAreAdmissions(cfg, init);
    }
  }

  /**
   * Which attempts are admitted, read off the log alone: all while the streak is below the
   * threshold; otherwise those that find trials started, or come late enough to start them, and
   * find a slot free. A last failure at clock value zero starts no trial, however late the attempt.
   */
  lemma AdmittedExactly(cfg: Config, log: seq<Event>, i: nat)
    requires i < |log| && log[i].Attempt?
    ensures var before := log[..i];
            AdmittedAt(cfg, log, i) <==>
            || !Tripped(cfg, before)
            || ((Awake(cfg, before) || Wakes(cfg, LastFailure(before), log[i]))
                && Admissions(cfg, before) < cfg.halfOpenMaxCalls)
  {
    StateIsHistory(cfg, log[..i]);
    SlotsAreAdmissions(cfg, log[..i]);
  }
}
