/**
 * The debounced rebuild protocol of the index watcher (src/artifacts/watcher.ts:139-218): file events,
 * the timer, and one asynchronous build that ends well or fails.
 */
module Watcher {
  import opened Collections

  /** The closure's three variables; an armed timer is known by the time it is due. */
  datatype State = State(timer: Option<real>, pending: nat, building: bool)

  const IDLE := State(None, 0, false)

  function Schedule(s: State, now: real, debounce: real): State {
    s.(timer := Some(now + debounce))
  }

  /** An add, change or unlink event. */
  function OnChange(s: State, now: real, debounce: real): State {
    Schedule(s.(pending := s.pending + 1), now, debounce)
  }

  predicate Starts(s: State) {
    !s.building && s.pending > 0
  }

  /** The timer callback, triggerRebuild included. */
  function OnTimer(s: State): State {
    if Starts(s) then State(None, 0, true) else s.(timer := None)
  }

  function OnBuilt(s: State, now: real, debounce: real): State {
    var t := s.(building := false);
    if t.pending > 0 then Schedule(t, now, debounce) else t
  }

  /** The rejection handler only logs: it schedules nothing. */
  function OnFailed(s: State): State {
    s.(building := false)
  }

  class Rebuilder {
    const debounce: real
    var rebuildTimer: Option<real>
    var pendingChanges: nat
    var rebuildInProgress: bool

    constructor (debounce: real)
      ensures this.debounce == debounce && Current() == IDLE
    {
      this.debounce := debounce;
      rebuildTimer, pendingChanges, rebuildInProgress := None, 0, false;
    }

    ghost function Current(): State
      reads this
    {
      State(rebuildTimer, pendingChanges, rebuildInProgress)
    }

    method ScheduleRebuild(now: real)
      modifies this`rebuildTimer
      ensures Current() == Schedule(old(Current()), now, debounce)
    {
      rebuildTimer := Some(now + debounce);
    }

    method FileEvent(now: real)
      modifies this
      ensures Current() == OnChange(old(Current()), now, debounce)
    {
      pendingChanges := pendingChanges + 1;
      ScheduleRebuild(now);
    }

    /** Returns the number of changes handed to a new build, if one starts. */
    method TriggerRebuild() returns (changes: Option<nat>)
      modifies this`pendingChanges, this`rebuildInProgress
      ensures Current() == OnTimer(old(Current())).(timer := old(rebuildTimer))
      ensures changes == if Starts(old(Current())) then Some(old(pendingChanges)) else None
    {
      if rebuildInProgress {
        return None;
      }
      if pendingChanges == 0 {
        return None;
      }
      rebuildInProgress := true;
      changes := Some(pendingChanges);
      pendingChanges := 0;
    }

    method TimerFires() returns (changes: Option<nat>)
      modifies this
      ensures Current() == OnTimer(old(Current()))
      ensures changes == if Starts(old(Current())) then Some(old(pendingChanges)) else None
    {
      rebuildTimer := None;
      changes := TriggerRebuild();
    }

    method BuildSucceeded(now: real)
      modifies this
      ensures Current() == OnBuilt(old(Current()), now, debounce)
    {
      rebuildInProgress := false;
      if pendingChanges > 0 {
        ScheduleRebuild(now);
      }
    }

    method BuildFailed()
      modifies this
      ensures Current() == OnFailed(old(Current()))
    {
      rebuildInProgress := false;
    }
  }

  // ------------------------------------------------------------------- runs

  datatype Event =
    | Change(now: real)
    | Timer(now: real)
    | Built(now: real)
    | Failed(now: real)

  /** The watcher with a ledger of where every observed change is. */
  datatype System = System(state: State, inBuild: nat, indexed: nat, dropped: nat)

  predicate Enabled(s: State, e: Event) {
    match e
    case Change(_) => true
    case Timer(now) => s.timer.Some? && now >= s.timer.value
    case Built(_) => s.building
    case Failed(_) => s.building
  }

  function Next(s: System, e: Event, debounce: real): System {
    match e
    case Change(now) => s.(state := OnChange(s.state, now, debounce))
    case Timer(_) => s.(state := OnTimer(s.state), inBuild := if Starts(s.state) then s.state.pending else s.inBuild)
    case Built(now) =>
      s.(state := OnBuilt(s.state, now, debounce), inBuild := 0, indexed := s.indexed + s.inBuild)
    case Failed(_) => s.(state := OnFailed(s.state), inBuild := 0, dropped := s.dropped + s.inBuild)
  }

  function Run(log: seq<Event>, debounce: real): System {
    if log == [] then System(IDLE, 0, 0, 0)
    else Next(Run(log[..|log| - 1], debounce), log[|log| - 1], debounce)
  }

  ghost predicate ValidLog(log: seq<Event>, debounce: real) {
    log == [] ||
    (var init := log[..|log| - 1];
     var last := log[|log| - 1];
     && ValidLog(init, debounce)
     && Enabled(Run(init, debounce).state, last)
     && (init != [] ==> init[|init| - 1].now <= last.now))
  }

  function Changes(log: seq<Event>): nat {
    if log == [] then 0
    else Changes(log[..|log| - 1]) + if log[|log| - 1].Change? then 1 else 0
  }

  predicate StartsAt(log: seq<Event>, debounce: real, i: nat)
    requires i < |log|
  {
    log[i].Timer? && Starts(Run(log[..i], debounce).state)
  }

  function BuildsStarted(log: seq<Event>, debounce: real): nat {
    if log == [] then 0
    else BuildsStarted(log[..|log| - 1], debounce) + if StartsAt(log, debounce, |log| - 1) then 1 else 0
  }

  function BuildsEnded(log: seq<Event>): nat {
    if log == [] then 0
    else BuildsEnded(log[..|log| - 1]) + if log[|log| - 1].Built? || log[|log| - 1].Failed? then 1 else 0
  }

  function FailedBuilds(log: seq<Event>): nat {
    if log == [] then 0
    else FailedBuilds(log[..|log| - 1]) + if log[|log| - 1].Failed? then 1 else 0
  }

  // ------------------------------------------------------------- invariants

  /**
   * At most one build is under way at any time; every observed change is pending, in the running
   * build, indexed by a build that ended well, or dropped by one that failed; an armed timer always
   * has something to do; changes have been dropped exactly when a build has failed.
   */
  lemma {:induction false} Ledger(log: seq<Event>, debounce: real)
    requires ValidLog(log, debounce)
    ensures var s := Run(log, debounce);
            && BuildsStarted(log, debounce) == BuildsEnded(log) + (if s.state.building then 1 else 0)
            && Changes(log) == s.state.pending + s.inBuild + s.indexed + s.dropped
            && (s.state.building <==> s.inBuild > 0)
            && (s.state.timer.Some? ==> s.state.pending > 0)
            && (s.dropped == 0 <==> FailedBuilds(log) == 0)
  {
    if log == [] {
    } else {
      Ledger(log[..|log| - 1], debounce);
    }
  }

  predicate Quiescent(s: State) {
    s.timer.None? && !s.building
  }

  /** Changes are waiting and nothing is left that would build them. */
  predicate Stranded(s: State) {
    Quiescent(s) && s.pending > 0
  }

  /**
   * The exception, exactly: changes are stranded just after a failed build that met pending changes
   * with no timer armed, and at no other point of any run; the next file event ends it.
   */
  lemma {:induction false} StrandedExactly(log: seq<Event>, debounce: real)
    requires ValidLog(log, debounce)
    ensures Stranded(Run(log, debounce).state) <==>
            && log != []
            && log[|log| - 1].Failed?
            && (var before := Run(log[..|log| - 1], debounce).state; before.pending > 0 && before.timer.None?)
  {
    if log == [] {
    } else {
      StrandedExactly(log[..|log| - 1], debounce);
      Ledger(log[..|log| - 1], debounce);
    }
  }

  /** A run that strands a change: it comes while a build runs, the timer fires meanwhile, and the build fails. */
  lemma StrandingOccurs()
    ensures var log := [Change(0.0), Timer(1.0), Change(2.0), Timer(3.0), Failed(4.0)];
            ValidLog(log, 1.0) && Stranded(Run(log, 1.0).state)
  {
    var a := [Change(0.0)];
    var b := [Change(0.0), Timer(1.0)];
    var c := [Change(0.0), Timer(1.0), Change(2.0)];
    var d := [Change(0.0), Timer(1.0), Change(2.0), Timer(3.0)];
    OneMore([], a, Change(0.0), 1.0);
    OneMore(a, b, Timer(1.0), 1.0);
    OneMore(b, c, Change(2.0), 1.0);
    OneMore(c, d, Timer(3.0), 1.0);
    OneMore(d, [Change(0.0), Timer(1.0), Change(2.0), Timer(3.0), Failed(4.0)], Failed(4.0), 1.0);
  }

  lemma OneMore(log: seq<Event>, more: seq<Event>, e: Event, debounce: real)
    requires more == log + [e]
    ensures Run(more, debounce) == Next(Run(log, debounce), e, debounce)
    ensures (ValidLog(log, debounce) && Enabled(Run(log, debounce).state, e)
             && (log != [] ==> log[|log| - 1].now <= e.now)) ==> ValidLog(more, debounce)
  {
    assert more[..|more| - 1] == log;
  }

  /** No change is observed while a build runs, as when a build occupies the event loop until it ends. */
  ghost predicate Undisturbed(log: seq<Event>, debounce: real) {
    forall i :: 0 <= i < |log| && log[i].Change? ==> !Run(log[..i], debounce).state.building
  }

  /** Then pending changes always have a timer, whether builds fail or not, so none is ever stranded. */
  lemma {:induction false} UndisturbedIsNeverStranded(log: seq<Event>, debounce: real)
    requires ValidLog(log, debounce) && Undisturbed(log, debounce)
    ensures var s := Run(log, debounce).state; s.pending > 0 ==> s.timer.Some? && !s.building
  {
    if log == [] {
    } else {
      var init := log[..|log| - 1];
      assert forall i :: 0 <= i < |init| ==> init[i] == log[i] && init[..i] == log[..i];
      UndisturbedIsNeverStranded(init, debounce);
    }
  }

  /**
   * What is lost, exactly: at rest, everything observed has been indexed if and only if no build has failed; the
   * rest is what failed builds took and what is stranded, and without failures pending changes are never forgotten.
   */
  lemma NoLostChange(log: seq<Event>, debounce: real)
    requires ValidLog(log, debounce)
    ensures var s := Run(log, debounce);
            && (Quiescent(s.state) ==>
                  && (s.indexed == Changes(log) <==> FailedBuilds(log) == 0)
                  && Changes(log) - s.indexed == s.dropped + s.state.pending)
            && (FailedBuilds(log) == 0 && s.state.pending > 0 ==> s.state.timer.Some? || s.state.building)
  {
    Ledger(log, debounce);
    StrandedExactly(log, debounce);
  }

  // -------------------------------------------------------------- last event

  /** One past the position of the last change, 0 if there is none. */
  function LastChange(log: seq<Event>): nat {
    if log == [] then 0
    else if log[|log| - 1].Change? then |log|
    else LastChange(log[..|log| - 1])
  }

  function LastStart(log: seq<Event>, debounce: real): nat {
    if log == [] then 0
    else if StartsAt(log, debounce, |log| - 1) then |log|
    else LastStart(log[..|log| - 1], debounce)
  }

  /** In every run, failing builds included: nothing is pending exactly when no change came after the last start. */
  lemma {:induction false} PendingIsUnstarted(log: seq<Event>, debounce: real)
    ensures Run(log, debounce).state.pending == 0 <==> LastChange(log) <= LastStart(log, debounce)
    ensures LastChange(log) <= |log| && LastStart(log, debounce) <= |log|
    ensures LastChange(log) == LastStart(log, debounce) ==> LastChange(log) == 0
  {
    if log == [] {
    } else {
      PendingIsUnstarted(log[..|log| - 1], debounce);
    }
  }

  /** At rest, the last build started after the last change exactly when nothing is stranded, as without failures. */
  lemma LastBuildSeesLastChange(log: seq<Event>, debounce: real)
    requires ValidLog(log, debounce)
    requires Quiescent(Run(log, debounce).state) && Changes(log) > 0
    ensures LastChange(log) < LastStart(log, debounce) <==> !Stranded(Run(log, debounce).state)
    ensures FailedBuilds(log) == 0 ==> !Stranded(Run(log, debounce).state)
  {
    NoLostChange(log, debounce);
    PendingIsUnstarted(log, debounce);
    SomeChange(log);
  }

  lemma {:induction false} SomeChange(log: seq<Event>)
    ensures Changes(log) > 0 <==> LastChange(log) > 0
  {
    if log == [] {
    } else {
      SomeChange(log[..|log| - 1]);
    }
  }

  // ------------------------------------------------------------- termination

  /** How many more steps there can be if no further change comes. */
  function StepsLeft(s: State): nat {
    if s.pending > 0 then
      if s.building then (if s.timer.Some? then 4 else 3)
      else if s.timer.Some? then 2 else 0
    else if s.building then 1 else 0
  }

  lemma StepsCountDown(s: System, e: Event, debounce: real)
    requires Enabled(s.state, e) && !e.Change?
    requires s.state.timer.Some? ==> s.state.pending > 0
    ensures StepsLeft(Next(s, e, debounce).state) < StepsLeft(s.state)
  {
  }

  /**
   * Once changes stop coming, at most four more steps happen, and at most one more build starts; until the watcher
   * is at rest there is a next step (CanMove).
   */
  lemma {:induction false} SettlesDown(log: seq<Event>, more: seq<Event>, debounce: real)
    requires ValidLog(log + more, debounce)
    requires forall e :: e in more ==> !e.Change?
    ensures |more| + StepsLeft(Run(log + more, debounce).state) <= StepsLeft(Run(log, debounce).state) <= 4
    ensures BuildsStarted(log + more, debounce) + (if Run(log + more, debounce).state.pending > 0 then 1 else 0)
            <= BuildsStarted(log, debounce) + (if Run(log, debounce).state.pending > 0 then 1 else 0)
  {
    if more == [] {
      assert log + more == log;
    } else {
      var init := more[..|more| - 1];
      assert (log + more)[..|log + more| - 1] == log + init;
      assert (log + more)[|log + more| - 1] == more[|more| - 1];
      SettlesDown(log, init, debounce);
      Ledger(log + init, debounce);
      StepsCountDown(Run(log + init, debounce), more[|more| - 1], debounce);
    }
  }

  /** A time not before the last event of a log. */
  function NotBefore(log: seq<Event>, due: real): real {
    if log != [] && log[|log| - 1].now > due then log[|log| - 1].now else due
  }

  /** A run can go on without a further change exactly while the watcher is not at rest. */
  lemma CanMove(log: seq<Event>, debounce: real)
    requires ValidLog(log, debounce)
    ensures var s := Run(log, debounce).state;
            && (StepsLeft(s) == 0 <==> Quiescent(s))
            && (StepsLeft(s) > 0 <==> exists e: Event :: !e.Change? && ValidLog(log + [e], debounce))
  {
    var s := Run(log, debounce).state;
    Ledger(log, debounce);
    if StepsLeft(s) > 0 {
      var e := if s.timer.Some? then Timer(NotBefore(log, s.timer.value)) else Built(NotBefore(log, 0.0));
      OneMore(log, log + [e], e, debounce);
      assert ValidLog(log + [e], debounce);
    }
    if e: Event :| !e.Change? && ValidLog(log + [e], debounce) {
      LastIsEnabled(log, e, debounce);
    }
  }

  lemma LastIsEnabled(log: seq<Event>, e: Event, debounce: real)
    requires ValidLog(log + [e], debounce)
    ensures Enabled(Run(log, debounce).state, e)
  {
    assert (log + [e])[..|log|] == log;
  }

  // ---------------------------------------------------------------- debounce

  lemma {:induction false} TimerIsLate(log: seq<Event>, debounce: real, k: nat)
    requires ValidLog(log, debounce) && k < |log| && log[k].Change?
    requires Run(log, debounce).state.timer.Some?
    ensures log[k].now + debounce <= Run(log, debounce).state.timer.value
  {
    var init := log[..|log| - 1];
    if log[|log| - 1].Change? || log[|log| - 1].Built? {
      ClockIsMonotone(log, debounce, k);
      if k < |log| - 1 && Run(init, debounce).state.timer.Some? {
        TimerIsLate(init, debounce, k);
      }
    } else {
      TimerIsLate(init, debounce, k);
    }
  }

  /** The events that arm the timer: a change, and a build that ends well while changes are waiting. */
  predicate Arms(log: seq<Event>, debounce: real, i: nat)
    requires i < |log|
  {
    log[i].Change? || (log[i].Built? && Run(log[..i], debounce).state.pending > 0)
  }

  /** The last event that armed the timer, if no timer has gone off since. */
  ghost predicate ArmedAt(log: seq<Event>, debounce: real, i: nat) {
    && i < |log| && Arms(log, debounce, i)
    && forall j: nat :: i < j < |log| ==> !Arms(log, debounce, j) && !log[j].Timer?
  }

  lemma ArmedNext(log: seq<Event>, debounce: real, i: nat)
    requires log != [] && i < |log| - 1
    ensures var init := log[..|log| - 1];
            ArmedAt(log, debounce, i) <==>
            ArmedAt(init, debounce, i) && !Arms(log, debounce, |log| - 1) && !log[|log| - 1].Timer?
  {
    var init := log[..|log| - 1];
    forall j | 0 <= j < |init| ensures Arms(init, debounce, j) == Arms(log, debounce, j) && init[j] == log[j] {
      assert init[..j] == log[..j];
    }
  }

  /** The timer is due the debounce time after the event that armed it last, and at no other time. */
  lemma {:induction false} TimerIsDue(log: seq<Event>, debounce: real, due: real)
    ensures Run(log, debounce).state.timer == Some(due) <==>
            exists i: nat :: ArmedAt(log, debounce, i) && due == log[i].now + debounce
  {
    if log == [] {
    } else {
      var init, last := log[..|log| - 1], |log| - 1;
      assert log[..last] == init;
      TimerIsDue(init, debounce, due);
      forall i: nat | i < last
        ensures ArmedAt(log, debounce, i) <==>
                ArmedAt(init, debounce, i) && !Arms(log, debounce, last) && !log[last].Timer?
        ensures init[i] == log[i]
      {
        ArmedNext(log, debounce, i);
      }
      if Arms(log, debounce, last) {
        assert ArmedAt(log, debounce, last);
      }
    }
  }

  lemma {:induction false} ClockIsMonotone(log: seq<Event>, debounce: real, i: nat)
    requires ValidLog(log, debounce) && i < |log|
    ensures log[i].now <= log[|log| - 1].now
  {
    if i < |log| - 1 {
      ClockIsMonotone(log[..|log| - 1], debounce, i);
    }
  }

  lemma {:induction false} ValidPrefix(log: seq<Event>, debounce: real, i: nat)
    requires ValidLog(log, debounce) && i <= |log|
    ensures ValidLog(log[..i], debounce)
  {
    if i < |log| {
      assert log[..|log| - 1][..i] == log[..i];
      ValidPrefix(log[..|log| - 1], debounce, i);
    } else {
      assert log[..i] == log;
    }
  }

  /** A build never starts within the debounce window of any change seen before it. */
  lemma BurstsAreBatched(log: seq<Event>, debounce: real, i: nat, k: nat)
    requires ValidLog(log, debounce) && k < i < |log|
    requires StartsAt(log, debounce, i) && log[k].Change?
    ensures log[k].now + debounce <= log[i].now
  {
    ValidPrefix(log, debounce, i + 1);
    assert log[..i + 1][..i] == log[..i];
    TimerIsLate(log[..i], debounce, k);
  }
}
