/**
 * The budget and the call quota when requests run beside each other: every check of a sentinel, the dispatch,
 * the reply and every review is a step of its own, and the steps of different requests may come in any order.
 */
module SentinelBudget {
  import opened Collections
  import opened Sentinels

  /** How far a request is: the next sentinel to check it, waiting for the server, the next to review it, or done. */
  datatype Phase = Checking(next: nat) | Forwarding | Reviewing(next: nat) | Done

  datatype Request = Request(method_: string, phase: Phase)

  /** The sentinels' counters, the requests in order of arrival, and how many were forwarded. */
  datatype System = System(counters: Counters, requests: seq<Request>, forwarded: nat)

  datatype Event =
    | Arrive(method_: string)
    | Check(id: nat)
    | Dispatch(id: nat, found: bool)
    | Reply(id: nat, ok: bool)
    | Review(id: nat)

  predicate Enabled(cfg: Config, s: System, e: Event) {
    match e
    case Arrive(_) => true
    case Check(id) => id < |s.requests| && s.requests[id].phase.Checking? && s.requests[id].phase.next < |cfg.order|
    case Dispatch(id, _) => id < |s.requests| && s.requests[id].phase == Checking(|cfg.order|)
    case Reply(id, _) => id < |s.requests| && s.requests[id].phase == Forwarding
    case Review(id) => id < |s.requests| && s.requests[id].phase.Reviewing? && s.requests[id].phase.next < |cfg.order|
  }

  function Move(s: System, id: nat, phase: Phase, c: Counters): System
    requires id < |s.requests|
  {
    s.(requests := s.requests[id := s.requests[id].(phase := phase)], counters := c)
  }

  /** One step; one that is not enabled changes nothing. */
  function Step(cfg: Config, s: System, e: Event): System {
    if !Enabled(cfg, s, e) then s
    else
      match e
      case Arrive(method_) => s.(requests := s.requests + [Request(method_, Checking(0))])
      case Check(id) =>
        var r := s.requests[id];
        var v := PreCheck(cfg, cfg.order[r.phase.next], s.counters, r.method_);
        Move(s, id, if v.blocked then Done else Checking(r.phase.next + 1), v.after)
      case Dispatch(id, found) =>
        if found then Move(s, id, Forwarding, s.counters).(forwarded := s.forwarded + 1)
        else Move(s, id, Done, s.counters)
      case Reply(id, ok) => Move(s, id, if ok then Reviewing(0) else Done, s.counters)
      case Review(id) =>
        var r := s.requests[id];
        Move(s, id, Reviewing(r.phase.next + 1), PostCheck(cfg, cfg.order[r.phase.next], s.counters, r.method_))
  }

  const START := System(FRESH, [], 0)

  function Run(cfg: Config, events: seq<Event>): System {
    if events == [] then START else Step(cfg, Run(cfg, events[..|events| - 1]), events[|events| - 1])
  }

  lemma RunPush(cfg: Config, events: seq<Event>, e: Event)
    ensures Run(cfg, events + [e]) == Step(cfg, Run(cfg, events), e)
  {
    assert (events + [e])[..|events|] == events;
  }

  // ---------------------------------------------------------- sums over requests

  function Sum(f: Request -> real, rs: seq<Request>): real {
    if rs == [] then 0.0 else Sum(f, rs[..|rs| - 1]) + f(rs[|rs| - 1])
  }

  function Count(p: Request -> bool, rs: seq<Request>): nat {
    if rs == [] then 0 else Count(p, rs[..|rs| - 1]) + if p(rs[|rs| - 1]) then 1 else 0
  }

  function One(b: bool): nat {
    if b then 1 else 0
  }

  lemma {:induction false} SumUpdate(f: Request -> real, rs: seq<Request>, i: nat, r: Request)
    requires i < |rs|
    ensures Sum(f, rs[i := r]) == Sum(f, rs) - f(rs[i]) + f(r)
  {
    var n := |rs| - 1;
    if i == n {
      assert rs[i := r][..n] == rs[..n];
    } else {
      assert rs[i := r][..n] == rs[..n][i := r];
      SumUpdate(f, rs[..n], i, r);
    }
  }

  lemma {:induction false} CountUpdate(p: Request -> bool, rs: seq<Request>, i: nat, r: Request)
    requires i < |rs|
    ensures Count(p, rs[i := r]) == Count(p, rs) - One(p(rs[i])) + One(p(r))
  {
    var n := |rs| - 1;
    if i == n {
      assert rs[i := r][..n] == rs[..n];
    } else {
      assert rs[i := r][..n] == rs[..n][i := r];
      CountUpdate(p, rs[..n], i, r);
    }
  }

  lemma SumPush(f: Request -> real, p: Request -> bool, rs: seq<Request>, r: Request)
    ensures Sum(f, rs + [r]) == Sum(f, rs) + f(r)
    ensures Count(p, rs + [r]) == Count(p, rs) + One(p(r))
  {
    assert (rs + [r])[..|rs|] == rs;
  }

  // -------------------------------------------------------------------- budget

  /** The request has passed the cost estimate and its cost is not recorded: `at` is the estimator's place. */
  predicate Unrecorded(at: nat, r: Request) {
    match r.phase
    case Checking(next) => next > at
    case Forwarding => true
    case Reviewing(next) => next <= at
    case Done => false
  }

  function Outstanding(at: nat): Request -> bool {
    (r: Request) => Unrecorded(at, r)
  }

  function Owed(cfg: Config, at: nat): Request -> real {
    (r: Request) => if Unrecorded(at, r) then Price(cfg, r.method_) else 0.0
  }

  /** The estimator stands at one place of the pipeline. */
  ghost predicate OnlyAt(order: seq<Sentinel>, s: Sentinel, at: nat) {
    at < |order| && forall k :: 0 <= k < |order| ==> (order[k] == s <==> k == at)
  }

  ghost predicate Priced(cfg: Config, cmax: real) {
    forall m :: m in cfg.estimatedCosts ==> 0.0 <= cfg.estimatedCosts[m] <= cmax
  }

  function Larger(a: real, b: real): real {
    if a >= b then a else b
  }

  function Others(m: nat, cmax: real): real {
    (m as real - 1.0) * cmax
  }

  function Bound(cfg: Config, m: nat, cmax: real): real {
    Larger(0.0, cfg.budgetLimit + Others(m, cmax))
  }

  /** After every prefix of the run at most m requests have been estimated and not yet recorded. */
  ghost predicate AtMost(cfg: Config, at: nat, m: nat, events: seq<Event>) {
    && Count(Outstanding(at), Run(cfg, events).requests) <= m
    && (events != [] ==> AtMost(cfg, at, m, events[..|events| - 1]))
  }

  ghost function Committed(cfg: Config, at: nat, s: System): real {
    s.counters.totalCost + Sum(Owed(cfg, at), s.requests)
  }

  lemma {:induction false} OwedBounds(cfg: Config, at: nat, cmax: real, rs: seq<Request>)
    requires Priced(cfg, cmax) && cmax >= 0.0
    ensures 0.0 <= Sum(Owed(cfg, at), rs) <= Count(Outstanding(at), rs) as real * cmax
  {
    if rs == [] {
    } else {
      var init := rs[..|rs| - 1];
      OwedBounds(cfg, at, cmax, init);
      var n, k := Count(Outstanding(at), init), Count(Outstanding(at), rs);
      assert k == n || (k == n + 1 && k as real * cmax == n as real * cmax + cmax);
    }
  }

  lemma ScaleReal(a: real, b: real, cmax: real)
    requires a <= b && cmax >= 0.0
    ensures a * cmax <= b * cmax
  {
  }

  lemma Scale(n: nat, m: nat, cmax: real)
    requires n + 1 <= m && cmax >= 0.0
    ensures n as real * cmax <= Others(m, cmax)
  {
    assert (n + 1) as real <= m as real;
    ScaleReal(n as real, m as real - 1.0, cmax);
  }

  /** An estimate that passes: one more request outstanding, whose cost the limit still had room for. */
  ghost predicate Estimated(cfg: Config, at: nat, s: System, t: System) {
    && Count(Outstanding(at), t.requests) == Count(Outstanding(at), s.requests) + 1
    && s.counters.totalCost + (Committed(cfg, at, t) - Committed(cfg, at, s)) <= cfg.budgetLimit
  }

  /** What a step adds to the recorded and outstanding cost: nothing, unless it is an estimate that passes. */
  lemma StepCommits(cfg: Config, at: nat, s: System, e: Event, cmax: real)
    requires OnlyAt(cfg.order, Cost, at) && Priced(cfg, cmax) && cmax >= 0.0
    ensures var t := Step(cfg, s, e);
            Committed(cfg, at, t) <= Committed(cfg, at, s) || Estimated(cfg, at, s, t)
  {
    if Enabled(cfg, s, e) {
      if e.Arrive? {
        SumPush(Owed(cfg, at), Outstanding(at), s.requests, Request(e.method_, Checking(0)));
      } else {
        MoveCommits(cfg, at, s, e, cmax);
      }
    }
  }

  lemma MoveCommits(cfg: Config, at: nat, s: System, e: Event, cmax: real)
    requires OnlyAt(cfg.order, Cost, at) && Priced(cfg, cmax) && cmax >= 0.0
    requires !e.Arrive? && Enabled(cfg, s, e)
    ensures var t := Step(cfg, s, e);
            Committed(cfg, at, t) <= Committed(cfg, at, s) || Estimated(cfg, at, s, t)
  {
    var t := Step(cfg, s, e);
    var r, q := s.requests[e.id], t.requests[e.id];
    SumUpdate(Owed(cfg, at), s.requests, e.id, q);
    CountUpdate(Outstanding(at), s.requests, e.id, q);
    assert t.requests == s.requests[e.id := q];
    assert Price(cfg, r.method_) >= 0.0;
  }

  lemma OwedRoom(cfg: Config, at: nat, m: nat, cmax: real, rs: seq<Request>)
    requires Priced(cfg, cmax) && cmax >= 0.0 && Count(Outstanding(at), rs) + 1 <= m
    ensures Sum(Owed(cfg, at), rs) <= Others(m, cmax)
  {
    OwedBounds(cfg, at, cmax, rs);
    Scale(Count(Outstanding(at), rs), m, cmax);
  }

  lemma EstimateFits(cfg: Config, at: nat, s: System, t: System, most: real)
    requires Estimated(cfg, at, s, t) && Sum(Owed(cfg, at), s.requests) <= most
    ensures Committed(cfg, at, t) <= Larger(0.0, cfg.budgetLimit + most)
  {
  }

  /** Recorded and outstanding cost never exceed the limit by more than the cost of the other requests in flight. */
  lemma {:induction false} BudgetHolds(cfg: Config, at: nat, m: nat, cmax: real, events: seq<Event>)
    requires OnlyAt(cfg.order, Cost, at) && Priced(cfg, cmax) && cmax >= 0.0
    requires AtMost(cfg, at, m, events)
    ensures Committed(cfg, at, Run(cfg, events)) <= Bound(cfg, m, cmax)
  {
    if events == [] {
    } else {
      var n := |events| - 1;
      var s, t := Run(cfg, events[..n]), Run(cfg, events);
      BudgetHolds(cfg, at, m, cmax, events[..n]);
      BudgetStep(cfg, at, m, cmax, s, events[n]);
    }
  }

  lemma BudgetStep(cfg: Config, at: nat, m: nat, cmax: real, s: System, e: Event)
    requires OnlyAt(cfg.order, Cost, at) && Priced(cfg, cmax) && cmax >= 0.0
    requires Committed(cfg, at, s) <= Bound(cfg, m, cmax)
    requires Count(Outstanding(at), Step(cfg, s, e).requests) <= m
    ensures Committed(cfg, at, Step(cfg, s, e)) <= Bound(cfg, m, cmax)
  {
    var t := Step(cfg, s, e);
    StepCommits(cfg, at, s, e, cmax);
    if Estimated(cfg, at, s, t) {
      OwedRoom(cfg, at, m, cmax, s.requests);
      EstimateFits(cfg, at, s, t, Others(m, cmax));
    }
  }

  lemma {:induction false} CostGrows(cfg: Config, cmax: real, events: seq<Event>)
    requires Priced(cfg, cmax)
    ensures Run(cfg, events).counters.totalCost >= 0.0
  {
    if events == [] {
    } else {
      CostGrows(cfg, cmax, events[..|events| - 1]);
    }
  }

  /** When requests go through one at a time, the recorded cost never exceeds a limit that is not negative. */
  lemma OneAtATime(cfg: Config, at: nat, cmax: real, events: seq<Event>)
    requires OnlyAt(cfg.order, Cost, at) && Priced(cfg, cmax) && cmax >= 0.0
    requires AtMost(cfg, at, 1, events)
    ensures 0.0 <= Run(cfg, events).counters.totalCost <= Larger(0.0, cfg.budgetLimit)
  {
    BudgetHolds(cfg, at, 1, cmax, events);
    OwedBounds(cfg, at, cmax, Run(cfg, events).requests);
    CostGrows(cfg, cmax, events);
  }

  // ------------------------------------------------------------------ charging

  /** Answered and recorded: past the estimator in the reviews. */
  predicate Recorded(at: nat, r: Request) {
    r.phase.Reviewing? && r.phase.next > at
  }

  function Charged(cfg: Config, at: nat): Request -> real {
    (r: Request) => if Recorded(at, r) then Price(cfg, r.method_) else 0.0
  }

  function IsRecorded(at: nat): Request -> bool {
    (r: Request) => Recorded(at, r)
  }

  lemma MoveCharges(cfg: Config, at: nat, s: System, e: Event)
    requires OnlyAt(cfg.order, Cost, at) && !e.Arrive? && Enabled(cfg, s, e)
    ensures var t := Step(cfg, s, e);
            && t.counters.totalCost - s.counters.totalCost ==
               Sum(Charged(cfg, at), t.requests) - Sum(Charged(cfg, at), s.requests)
            && t.counters.callCount - s.counters.callCount ==
               Count(IsRecorded(at), t.requests) - Count(IsRecorded(at), s.requests)
  {
    var t := Step(cfg, s, e);
    var q := t.requests[e.id];
    SumUpdate(Charged(cfg, at), s.requests, e.id, q);
    CountUpdate(IsRecorded(at), s.requests, e.id, q);
    assert t.requests == s.requests[e.id := q];
  }

  /** The recorded cost is that of the answered requests, each once; blocked and failed ones are never charged. */
  lemma {:induction false} ChargedExactly(cfg: Config, at: nat, events: seq<Event>)
    requires OnlyAt(cfg.order, Cost, at)
    ensures var s := Run(cfg, events);
            s.counters.totalCost == Sum(Charged(cfg, at), s.requests)
            && s.counters.callCount == Count(IsRecorded(at), s.requests)
  {
    if events == [] {
    } else {
      var e := events[|events| - 1];
      var s, t := Run(cfg, events[..|events| - 1]), Run(cfg, events);
      ChargedExactly(cfg, at, events[..|events| - 1]);
      if Enabled(cfg, s, e) {
        if e.Arrive? {
          SumPush(Charged(cfg, at), IsRecorded(at), s.requests, Request(e.method_, Checking(0)));
        } else {
          MoveCharges(cfg, at, s, e);
        }
      }
    }
  }

  // --------------------------------------------------------------------- quota

  /** Let through by the safety guard and not yet dispatched. */
  predicate Waiting(at: nat, r: Request) {
    r.phase.Checking? && r.phase.next > at
  }

  function IsWaiting(at: nat): Request -> bool {
    (r: Request) => Waiting(at, r)
  }

  /** The safety guard has not looked at the request. */
  predicate Unchecked(at: nat, r: Request) {
    r.phase.Checking? && r.phase.next <= at
  }

  function IsChecked(at: nat): Request -> bool {
    (r: Request) => !Unchecked(at, r)
  }

  function AtLeastZero(n: int): nat {
    if n < 0 then 0 else n
  }

  ghost predicate WithinQuota(cfg: Config, at: nat, s: System) {
    var n := s.forwarded + Count(IsWaiting(at), s.requests);
    n <= s.counters.safetyCalls && n <= AtLeastZero(cfg.maxToolCalls)
    && s.counters.safetyCalls <= Count(IsChecked(at), s.requests)
  }

  lemma StepWithinQuota(cfg: Config, at: nat, s: System, e: Event)
    requires OnlyAt(cfg.order, Safety, at) && WithinQuota(cfg, at, s)
    ensures WithinQuota(cfg, at, Step(cfg, s, e))
  {
    var t := Step(cfg, s, e);
    if Enabled(cfg, s, e) {
      if e.Arrive? {
        var r := Request(e.method_, Checking(0));
        SumPush(Owed(cfg, at), IsWaiting(at), s.requests, r);
        SumPush(Owed(cfg, at), IsChecked(at), s.requests, r);
      } else {
        var q := t.requests[e.id];
        CountUpdate(IsWaiting(at), s.requests, e.id, q);
        CountUpdate(IsChecked(at), s.requests, e.id, q);
        assert t.requests == s.requests[e.id := q];
      }
    }
  }

  /** In any interleaving no more requests are forwarded than the quota allows. */
  lemma {:induction false} QuotaHolds(cfg: Config, at: nat, events: seq<Event>)
    requires OnlyAt(cfg.order, Safety, at)
    ensures WithinQuota(cfg, at, Run(cfg, events))
    ensures Run(cfg, events).forwarded <= AtLeastZero(cfg.maxToolCalls)
  {
    if events == [] {
    } else {
      QuotaHolds(cfg, at, events[..|events| - 1]);
      StepWithinQuota(cfg, at, Run(cfg, events[..|events| - 1]), events[|events| - 1]);
    }
  }

  lemma {:induction false} CountBelow(p: Request -> bool, rs: seq<Request>, i: nat)
    requires i < |rs| && !p(rs[i])
    ensures Count(p, rs) < |rs|
  {
    var n := |rs| - 1;
    if i < n {
      CountBelow(p, rs[..n], i);
    } else {
      CountAtMost(p, rs[..n]);
    }
  }

  lemma {:induction false} CountAtMost(p: Request -> bool, rs: seq<Request>)
    ensures Count(p, rs) <= |rs|
  {
    if rs == [] {
    } else {
      CountAtMost(p, rs[..|rs| - 1]);
    }
  }

  /**
   * As long as no more requests arrived than the quota allows, the guard blocks a request it looks at only for
   * the block list or for approval.
   */
  lemma NoEarlyQuotaBlock(cfg: Config, at: nat, events: seq<Event>, id: nat)
    requires OnlyAt(cfg.order, Safety, at)
    requires var s := Run(cfg, events);
             id < |s.requests| <= cfg.maxToolCalls && s.requests[id].phase == Checking(at)
    ensures var s := Run(cfg, events);
            var r := s.requests[id];
            Step(cfg, s, Check(id)).requests[id].phase == Done <==>
            Mentions(cfg.blocklist, r.method_) || Mentions(cfg.requireApproval, r.method_)
  {
    var s := Run(cfg, events);
    QuotaHolds(cfg, at, events);
    CountBelow(IsChecked(at), s.requests, id);
  }

  // ------------------------------------------------------- one request by itself

  function Steps(cfg: Config, s: System, events: seq<Event>): System
    decreases |events|
  {
    if events == [] then s else Steps(cfg, Step(cfg, s, events[0]), events[1..])
  }

  function CheckEvents(cfg: Config, c: Counters, method_: string, id: nat, k: nat): seq<Event>
    requires k <= |cfg.order|
    decreases |cfg.order| - k
  {
    if k == |cfg.order| then []
    else
      var v := PreCheck(cfg, cfg.order[k], c, method_);
      [Check(id)] + if v.blocked then [] else CheckEvents(cfg, v.after, method_, id, k + 1)
  }

  function ReviewEvents(cfg: Config, id: nat, k: nat): seq<Event>
    requires k <= |cfg.order|
    decreases |cfg.order| - k
  {
    if k == |cfg.order| then [] else [Review(id)] + ReviewEvents(cfg, id, k + 1)
  }

  /** The steps of one request that runs with no other beside it. */
  function RouteEvents(cfg: Config, c: Counters, method_: string, id: nat, found: bool, replies: bool): seq<Event> {
    var v := PreChecks(cfg, c, method_, 0);
    [Arrive(method_)]
    + (CheckEvents(cfg, c, method_, id, 0)
       + (if v.blocked then []
          else [Dispatch(id, found)]
               + (if !found then [] else [Reply(id, replies)] + (if replies then ReviewEvents(cfg, id, 0) else []))))
  }

  lemma {:induction false} StepsAppend(cfg: Config, s: System, a: seq<Event>, b: seq<Event>)
    ensures Steps(cfg, s, a + b) == Steps(cfg, Steps(cfg, s, a), b)
    decreases |a|
  {
    if a == [] {
      AppendNothing(b);
    } else {
      assert (a + b)[1..] == a[1..] + b;
      StepsAppend(cfg, Step(cfg, s, a[0]), a[1..], b);
    }
  }

  lemma StepsOne(cfg: Config, s: System, e: Event, rest: seq<Event>)
    ensures Steps(cfg, s, [e] + rest) == Steps(cfg, Step(cfg, s, e), rest)
  {
    assert ([e] + rest)[1..] == rest;
  }

  lemma {:induction false} CheckedAlone(cfg: Config, s: System, id: nat, k: nat)
    requires k <= |cfg.order| && id < |s.requests| && s.requests[id].phase == Checking(k)
    ensures var r := s.requests[id];
            var v := PreChecks(cfg, s.counters, r.method_, k);
            Steps(cfg, s, CheckEvents(cfg, s.counters, r.method_, id, k)) ==
            Move(s, id, if v.blocked then Done else Checking(|cfg.order|), v.after)
    decreases |cfg.order| - k
  {
    var r := s.requests[id];
    if k < |cfg.order| {
      var v := PreCheck(cfg, cfg.order[k], s.counters, r.method_);
      var t := Step(cfg, s, Check(id));
      var rest := if v.blocked then [] else CheckEvents(cfg, v.after, r.method_, id, k + 1);
      StepsOne(cfg, s, Check(id), rest);
      if !v.blocked {
        CheckedAlone(cfg, t, id, k + 1);
      }
    }
  }

  lemma {:induction false} ReviewedAlone(cfg: Config, s: System, id: nat, k: nat)
    requires k <= |cfg.order| && id < |s.requests| && s.requests[id].phase == Reviewing(k)
    ensures Steps(cfg, s, ReviewEvents(cfg, id, k)) ==
            Move(s, id, Reviewing(|cfg.order|), PostChecks(cfg, s.counters, s.requests[id].method_, k))
    decreases |cfg.order| - k
  {
    if k < |cfg.order| {
      StepsOne(cfg, s, Review(id), ReviewEvents(cfg, id, k + 1));
      ReviewedAlone(cfg, Step(cfg, s, Review(id)), id, k + 1);
    }
  }

  /** Routing a request by itself is the run of its own steps: the same counters, and forwarded as its outcome says. */
  lemma RouteIsRun(cfg: Config, s: System, method_: string, found: bool, replies: bool)
    ensures var t := Steps(cfg, s, RouteEvents(cfg, s.counters, method_, |s.requests|, found, replies));
            var routed := Route(cfg, s.counters, method_, found, replies);
            && t.counters == routed.after
            && t.forwarded == s.forwarded + One(routed.outcome == ServerError || routed.outcome == Answered)
            && |t.requests| == |s.requests| + 1 && t.requests[..|s.requests|] == s.requests
  {
    var id := |s.requests|;
    var s1 := Step(cfg, s, Arrive(method_));
    var v := PreChecks(cfg, s.counters, method_, 0);
    var checks := CheckEvents(cfg, s.counters, method_, id, 0);
    var reviews := if replies then ReviewEvents(cfg, id, 0) else [];
    var replied := if !found then [] else [Reply(id, replies)] + reviews;
    var tail := if v.blocked then [] else [Dispatch(id, found)] + replied;
    StepsOne(cfg, s, Arrive(method_), checks + tail);
    StepsAppend(cfg, s1, checks, tail);
    CheckedAlone(cfg, s1, id, 0);
    if !v.blocked {
      var s2 := Steps(cfg, s1, checks);
      StepsOne(cfg, s2, Dispatch(id, found), replied);
      if found {
        var s3 := Step(cfg, s2, Dispatch(id, found));
        StepsOne(cfg, s3, Reply(id, replies), reviews);
        if replies {
          ReviewedAlone(cfg, Step(cfg, s3, Reply(id, replies)), id, 0);
        }
      }
    }
  }
}
