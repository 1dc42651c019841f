/**
 * When the budget limit holds for requests that run beside each other, exactly, and how far it can be exceeded
 * (hackathon/broker/router.py:21-78, hackathon/sentinels/cost.py, hackathon/sentinels/safety.py): for any pipeline
 * with one estimator and at most one guard, the broker's own among them (hackathon/broker/server.py:81-87).
 */
module BudgetLimit {
  import opened Collections
  import opened Sentinels
  import opened SentinelBudget

  ghost predicate AtMostOnce(order: seq<Sentinel>, s: Sentinel) {
    forall i, j :: 0 <= i < j < |order| ==> order[i] != s || order[j] != s
  }

  /** One estimator, at place `at`, and at most one guard. */
  ghost predicate Pipeline(order: seq<Sentinel>, at: nat) {
    OnlyAt(order, Cost, at) && AtMostOnce(order, Safety)
  }

  ghost predicate NonNegative(cfg: Config) {
    forall x :: x in cfg.estimatedCosts ==> cfg.estimatedCosts[x] >= 0.0
  }

  /** The guard has nothing against the method; only its quota may stop it. */
  predicate Admitted(cfg: Config, x: string) {
    !Mentions(cfg.blocklist, x) && !Mentions(cfg.requireApproval, x)
  }

  /** The guard, if there is one, lets n requests of the method through. */
  predicate Room(cfg: Config, x: string, n: nat) {
    Safety in cfg.order ==> Admitted(cfg, x) && n <= AtLeastZero(cfg.maxToolCalls)
  }

  /** A method that costs something, is affordable once, and may be called often enough to exceed the limit. */
  predicate Escapes(cfg: Config, x: string) {
    && 0.0 < Price(cfg, x) <= cfg.budgetLimit
    && (Safety in cfg.order ==> Admitted(cfg, x) && cfg.maxToolCalls as real * Price(cfg, x) > cfg.budgetLimit)
  }

  ghost predicate NeverMore(cfg: Config, at: nat, m: nat, most: real) {
    forall events {:trigger AtMost(cfg, at, m, events)} ::
      AtMost(cfg, at, m, events) ==> Run(cfg, events).counters.totalCost <= most
  }

  ghost predicate Reached(cfg: Config, at: nat, m: nat, total: real) {
    exists events {:trigger AtMost(cfg, at, m, events)} ::
      AtMost(cfg, at, m, events) && Run(cfg, events).counters.totalCost == total
  }

  // ------------------------------------------------------- runs with few outstanding

  /** From a state on, after every prefix of the events at most m requests are outstanding. */
  ghost predicate Calm(cfg: Config, at: nat, m: nat, s: System, events: seq<Event>)
    decreases |events|
  {
    && Count(Outstanding(at), s.requests) <= m
    && (events != [] ==> Calm(cfg, at, m, Step(cfg, s, events[0]), events[1..]))
  }

  lemma AtMostPush(cfg: Config, at: nat, m: nat, events: seq<Event>, e: Event)
    requires AtMost(cfg, at, m, events) && Count(Outstanding(at), Step(cfg, Run(cfg, events), e).requests) <= m
    ensures AtMost(cfg, at, m, events + [e])
  {
    RunPush(cfg, events, e);
    assert (events + [e])[..|events|] == events;
  }

  lemma CalmStep(cfg: Config, at: nat, m: nat, s: System, events: seq<Event>)
    requires events != [] && Calm(cfg, at, m, s, events)
    ensures var t := Step(cfg, s, events[0]);
            && Calm(cfg, at, m, t, events[1..]) && Count(Outstanding(at), t.requests) <= m
            && Steps(cfg, s, events) == Steps(cfg, t, events[1..])
  {
  }

  lemma MoveOver(a: seq<Event>, b: seq<Event>)
    requires b != []
    ensures a + b == (a + [b[0]]) + b[1..]
  {
  }

  /** A run goes on with events that keep few requests outstanding. */
  lemma {:induction false} CalmRun(cfg: Config, at: nat, m: nat, events: seq<Event>, more: seq<Event>, all: seq<Event>)
    requires AtMost(cfg, at, m, events) && Calm(cfg, at, m, Run(cfg, events), more) && all == events + more
    ensures AtMost(cfg, at, m, all) && Run(cfg, all) == Steps(cfg, Run(cfg, events), more)
    decreases |more|
  {
    if more == [] {
      assert all == events;
    } else {
      CalmStep(cfg, at, m, Run(cfg, events), more);
      AtMostPush(cfg, at, m, events, more[0]);
      RunPush(cfg, events, more[0]);
      MoveOver(events, more);
      CalmRun(cfg, at, m, events + [more[0]], more[1..], all);
    }
  }

  lemma {:induction false} FewerOutstanding(cfg: Config, at: nat, few: nat, m: nat, events: seq<Event>)
    requires few <= m && AtMost(cfg, at, few, events)
    ensures AtMost(cfg, at, m, events)
  {
    if events == [] {
    } else {
      FewerOutstanding(cfg, at, few, m, events[..|events| - 1]);
    }
  }

  predicate About(id: nat, e: Event) {
    !e.Arrive? && e.id == id
  }

  lemma StepAbout(cfg: Config, at: nat, s: System, id: nat, e: Event)
    requires id < |s.requests| && About(id, e)
    ensures var t := Step(cfg, s, e);
            && |t.requests| == |s.requests|
            && Count(Outstanding(at), t.requests) - One(Unrecorded(at, t.requests[id])) ==
               Count(Outstanding(at), s.requests) - One(Unrecorded(at, s.requests[id]))
  {
    if Enabled(cfg, s, e) {
      var q := Step(cfg, s, e).requests[id];
      CountUpdate(Outstanding(at), s.requests, id, q);
      assert Step(cfg, s, e).requests == s.requests[id := q];
    }
  }

  /** The steps of one request keep at most one more outstanding than the others are. */
  lemma {:induction false} OneIsCalm(cfg: Config, at: nat, m: nat, s: System, id: nat, events: seq<Event>)
    requires id < |s.requests| && forall e :: e in events ==> About(id, e)
    requires Count(Outstanding(at), s.requests) - One(Unrecorded(at, s.requests[id])) + 1 <= m
    ensures Calm(cfg, at, m, s, events)
    decreases |events|
  {
    if events == [] {
    } else {
      StepAbout(cfg, at, s, id, events[0]);
      OneIsCalm(cfg, at, m, Step(cfg, s, events[0]), id, events[1..]);
    }
  }

  lemma ArrivalIsCalm(cfg: Config, at: nat, m: nat, s: System, x: string, events: seq<Event>)
    requires Count(Outstanding(at), s.requests) + 1 <= m
    requires forall e :: e in events ==> About(|s.requests|, e)
    ensures Calm(cfg, at, m, s, [Arrive(x)] + events)
  {
    SumPush(Owed(cfg, at), Outstanding(at), s.requests, Request(x, Checking(0)));
    OneIsCalm(cfg, at, m, Step(cfg, s, Arrive(x)), |s.requests|, events);
    assert ([Arrive(x)] + events)[1..] == events;
  }

  lemma {:induction false} ChecksAreAbout(cfg: Config, c: Counters, x: string, id: nat, k: nat)
    requires k <= |cfg.order|
    ensures forall e :: e in CheckEvents(cfg, c, x, id, k) ==> About(id, e)
    decreases |cfg.order| - k
  {
    if k == |cfg.order| {
    } else {
      ChecksAreAbout(cfg, PreCheck(cfg, cfg.order[k], c, x).after, x, id, k + 1);
    }
  }

  lemma {:induction false} ReviewsAreAbout(cfg: Config, id: nat, k: nat)
    requires k <= |cfg.order|
    ensures forall e :: e in ReviewEvents(cfg, id, k) ==> About(id, e)
    decreases |cfg.order| - k
  {
    if k == |cfg.order| {
    } else {
      ReviewsAreAbout(cfg, id, k + 1);
    }
  }

  // ------------------------------------------------------- requests of one method

  function Repeat(r: Request, n: nat): (rs: seq<Request>)
    ensures |rs| == n && forall i :: 0 <= i < n ==> rs[i] == r
  {
    seq(n, _ => r)
  }

  /** n times p, added up. */
  function Times(n: nat, p: real): real {
    if n == 0 then 0.0 else Times(n - 1, p) + p
  }

  lemma {:induction false} TimesGrows(n: nat, k: nat, p: real)
    requires n <= k && p >= 0.0
    ensures Times(n, p) <= Times(k, p)
  {
    if n == k {
    } else {
      TimesGrows(n, k - 1, p);
    }
  }

  lemma {:induction false} TimesIsProduct(n: nat, p: real)
    ensures Times(n, p) == n as real * p
  {
    if n == 0 {
    } else {
      TimesIsProduct(n - 1, p);
      OneMore(n - 1, p);
    }
  }

  lemma ScaleNat(a: int, b: int, c: real)
    requires a <= b && c >= 0.0
    ensures a as real * c <= b as real * c
  {
    ScaleReal(a as real, b as real, c);
  }

  lemma OneMore(j: nat, c: real)
    ensures j as real * c + c == (j + 1) as real * c
  {
    assert (j + 1) as real == j as real + 1.0;
  }

  /** First requests that are through, then requests that have passed all checks. */
  function Queue(x: string, places: nat, through: nat, checked: nat): seq<Request> {
    Repeat(Request(x, Reviewing(places)), through) + Repeat(Request(x, Checking(places)), checked)
  }

  ghost predicate Queued(cfg: Config, x: string, through: nat, checked: nat, s: System) {
    && s.requests == Queue(x, |cfg.order|, through, checked)
    && s.counters.totalCost == Times(through, Price(cfg, x))
    && s.counters.safetyCalls <= through + checked
  }

  lemma QueueGrows(x: string, places: nat, through: nat, checked: nat, r: Request)
    ensures var q := Queue(x, places, through, checked);
            (q + [r])[|q| := Request(x, Checking(places))] == Queue(x, places, through, checked + 1)
  {
  }

  lemma QueueMoves(x: string, places: nat, through: nat, checked: nat)
    requires checked > 0
    ensures var q := Queue(x, places, through, checked);
            && q[through] == Request(x, Checking(places))
            && q[through := Request(x, Reviewing(places))] == Queue(x, places, through + 1, checked - 1)
  {
  }

  lemma {:induction false} QueueOutstanding(at: nat, x: string, places: nat, through: nat, checked: nat)
    requires at < places
    ensures Count(Outstanding(at), Queue(x, places, through, checked)) == checked
  {
    var q := Queue(x, places, through, checked);
    if q == [] {
    } else if checked > 0 {
      assert q[..|q| - 1] == Queue(x, places, through, checked - 1);
      QueueOutstanding(at, x, places, through, checked - 1);
    } else {
      assert q[..|q| - 1] == Queue(x, places, through - 1, 0);
      QueueOutstanding(at, x, places, through - 1, 0);
    }
  }

  lemma RestOf(order: seq<Sentinel>, k: nat)
    requires k < |order|
    ensures Safety in order[k..] <==> order[k] == Safety || Safety in order[k + 1..]
    ensures AtMostOnce(order, Safety) && order[k] == Safety ==> Safety !in order[k + 1..]
  {
    assert order[k..] == [order[k]] + order[k + 1..];
  }

  /** An affordable request that the guard lets through passes all checks. */
  lemma {:induction false} PassesChecks(cfg: Config, c: Counters, x: string, k: nat)
    requires k <= |cfg.order| && AtMostOnce(cfg.order, Safety) && c.totalCost + Price(cfg, x) <= cfg.budgetLimit
    requires Safety in cfg.order[k..] ==> Admitted(cfg, x) && c.safetyCalls < cfg.maxToolCalls
    ensures PreChecks(cfg, c, x, k) == Verdict(c.(safetyCalls := c.safetyCalls + One(Safety in cfg.order[k..])), false)
    decreases |cfg.order| - k
  {
    if k == |cfg.order| {
    } else {
      RestOf(cfg.order, k);
      PassesChecks(cfg, PreCheck(cfg, cfg.order[k], c, x).after, x, k + 1);
    }
  }

  lemma {:induction false} RecordsOnce(cfg: Config, at: nat, c: Counters, x: string, k: nat)
    requires k <= |cfg.order| && OnlyAt(cfg.order, Cost, at)
    ensures PostChecks(cfg, c, x, k) ==
            if k <= at then c.(totalCost := c.totalCost + Price(cfg, x), callCount := c.callCount + 1) else c
    decreases |cfg.order| - k
  {
    if k == |cfg.order| {
    } else {
      RecordsOnce(cfg, at, PostCheck(cfg, cfg.order[k], c, x), x, k + 1);
    }
  }

  function AdmitEvents(cfg: Config, s: System, x: string): seq<Event> {
    [Arrive(x)] + CheckEvents(cfg, s.counters, x, |s.requests|, 0)
  }

  lemma Admits(cfg: Config, at: nat, x: string, through: nat, checked: nat, s: System)
    requires Pipeline(cfg.order, at) && Queued(cfg, x, through, checked, s)
    requires Times(through + 1, Price(cfg, x)) <= cfg.budgetLimit && Room(cfg, x, through + checked + 1)
    ensures Queued(cfg, x, through, checked + 1, Steps(cfg, s, AdmitEvents(cfg, s, x)))
  {
    var id := |s.requests|;
    var s1 := Step(cfg, s, Arrive(x));
    StepsOne(cfg, s, Arrive(x), CheckEvents(cfg, s.counters, x, id, 0));
    CheckedAlone(cfg, s1, id, 0);
    assert cfg.order[0..] == cfg.order;
    PassesChecks(cfg, s.counters, x, 0);
    QueueGrows(x, |cfg.order|, through, checked, Request(x, Checking(0)));
  }

  function FinishEvents(cfg: Config, id: nat): seq<Event> {
    [Dispatch(id, true)] + ([Reply(id, true)] + ReviewEvents(cfg, id, 0))
  }

  lemma Finishes(cfg: Config, at: nat, x: string, through: nat, checked: nat, s: System)
    requires Pipeline(cfg.order, at) && Queued(cfg, x, through, checked, s) && checked > 0
    ensures Queued(cfg, x, through + 1, checked - 1, Steps(cfg, s, FinishEvents(cfg, through)))
  {
    var id := through;
    QueueMoves(x, |cfg.order|, through, checked);
    var s1 := Step(cfg, s, Dispatch(id, true));
    var s2 := Step(cfg, s1, Reply(id, true));
    StepsOne(cfg, s, Dispatch(id, true), [Reply(id, true)] + ReviewEvents(cfg, id, 0));
    StepsOne(cfg, s1, Reply(id, true), ReviewEvents(cfg, id, 0));
    assert s2.requests == s.requests[id := Request(x, Reviewing(0))];
    ReviewedAlone(cfg, s2, id, 0);
    RecordsOnce(cfg, at, s.counters, x, 0);
    assert s2.requests[id := Request(x, Reviewing(|cfg.order|))] ==
           s.requests[id := Request(x, Reviewing(|cfg.order|))];
  }

  lemma AdmitMore(cfg: Config, at: nat, m: nat, x: string, through: nat, checked: nat, events: seq<Event>)
    returns (more: seq<Event>)
    requires AtMost(cfg, at, m, events) && Queued(cfg, x, through, checked, Run(cfg, events))
    requires Pipeline(cfg.order, at) && checked + 1 <= m
    requires Times(through + 1, Price(cfg, x)) <= cfg.budgetLimit && Room(cfg, x, through + checked + 1)
    ensures AtMost(cfg, at, m, more) && Queued(cfg, x, through, checked + 1, Run(cfg, more))
  {
    var s := Run(cfg, events);
    more := events + AdmitEvents(cfg, s, x);
    QueueOutstanding(at, x, |cfg.order|, through, checked);
    ChecksAreAbout(cfg, s.counters, x, |s.requests|, 0);
    ArrivalIsCalm(cfg, at, m, s, x, CheckEvents(cfg, s.counters, x, |s.requests|, 0));
    CalmRun(cfg, at, m, events, AdmitEvents(cfg, s, x), more);
    Admits(cfg, at, x, through, checked, s);
  }

  lemma FinishMore(cfg: Config, at: nat, m: nat, x: string, through: nat, checked: nat, events: seq<Event>)
    returns (more: seq<Event>)
    requires AtMost(cfg, at, m, events) && Queued(cfg, x, through, checked, Run(cfg, events))
    requires Pipeline(cfg.order, at) && 0 < checked <= m
    ensures AtMost(cfg, at, m, more) && Queued(cfg, x, through + 1, checked - 1, Run(cfg, more))
  {
    var s := Run(cfg, events);
    more := events + FinishEvents(cfg, through);
    QueueOutstanding(at, x, |cfg.order|, through, checked);
    QueueMoves(x, |cfg.order|, through, checked);
    ReviewsAreAbout(cfg, through, 0);
    OneIsCalm(cfg, at, m, s, through, FinishEvents(cfg, through));
    CalmRun(cfg, at, m, events, FinishEvents(cfg, through), more);
    Finishes(cfg, at, x, through, checked, s);
  }

  lemma OneThrough(cfg: Config, at: nat, m: nat, x: string, j: nat, events: seq<Event>) returns (more: seq<Event>)
    requires AtMost(cfg, at, m, events) && Queued(cfg, x, j, 0, Run(cfg, events))
    requires Pipeline(cfg.order, at) && m > 0
    requires Times(j + 1, Price(cfg, x)) <= cfg.budgetLimit && Room(cfg, x, j + 1)
    ensures AtMost(cfg, at, m, more) && Queued(cfg, x, j + 1, 0, Run(cfg, more))
  {
    var checked := AdmitMore(cfg, at, m, x, j, 0, events);
    more := FinishMore(cfg, at, m, x, j, 1, checked);
  }

  /** Requests of one method, one at a time. */
  lemma {:induction false} InTurn(cfg: Config, at: nat, m: nat, x: string, j: nat) returns (events: seq<Event>)
    requires Pipeline(cfg.order, at) && m > 0 && Price(cfg, x) >= 0.0
    requires Times(j, Price(cfg, x)) <= cfg.budgetLimit && Room(cfg, x, j)
    ensures AtMost(cfg, at, m, events) && Queued(cfg, x, j, 0, Run(cfg, events))
  {
    if j == 0 {
      events := [];
    } else {
      TimesGrows(j - 1, j, Price(cfg, x));
      var before := InTurn(cfg, at, m, x, j - 1);
      events := OneThrough(cfg, at, m, x, j - 1, before);
    }
  }

  /** Then more of them, all checked before any is dispatched. */
  lemma {:induction false} Together(cfg: Config, at: nat, m: nat, x: string, j: nat, n: nat)
    returns (events: seq<Event>)
    requires Pipeline(cfg.order, at) && n <= m && m > 0 && Price(cfg, x) >= 0.0
    requires Times(j + 1, Price(cfg, x)) <= cfg.budgetLimit && Room(cfg, x, j + n)
    ensures AtMost(cfg, at, m, events) && Queued(cfg, x, j, n, Run(cfg, events))
  {
    if n == 0 {
      TimesGrows(j, j + 1, Price(cfg, x));
      events := InTurn(cfg, at, m, x, j);
    } else {
      var before := Together(cfg, at, m, x, j, n - 1);
      events := AdmitMore(cfg, at, m, x, j, n - 1, before);
    }
  }

  /** And all of those answered and recorded. */
  lemma {:induction false} Drained(cfg: Config, at: nat, m: nat, x: string, j: nat, n: nat) returns (events: seq<Event>)
    requires Pipeline(cfg.order, at) && n <= m && m > 0 && Price(cfg, x) >= 0.0
    requires Times(j + 1, Price(cfg, x)) <= cfg.budgetLimit && Room(cfg, x, j + m)
    ensures AtMost(cfg, at, m, events) && Queued(cfg, x, j + n, m - n, Run(cfg, events))
  {
    if n == 0 {
      events := Together(cfg, at, m, x, j, m);
    } else {
      var before := Drained(cfg, at, m, x, j, n - 1);
      events := FinishMore(cfg, at, m, x, j + n - 1, m - n + 1, before);
    }
  }

  // ------------------------------------------------------------- the bound is reached

  /** With room for k requests one by one, any number up to m - 1 more than k can be recorded. */
  lemma ThatMany(cfg: Config, at: nat, m: nat, x: string, k: nat, n: nat) returns (events: seq<Event>)
    requires Pipeline(cfg.order, at) && m > 0 && k > 0 && Price(cfg, x) >= 0.0
    requires Times(k, Price(cfg, x)) <= cfg.budgetLimit && n <= k + m - 1 && Room(cfg, x, n)
    ensures AtMost(cfg, at, m, events) && Queued(cfg, x, n, 0, Run(cfg, events))
  {
    if n <= k {
      TimesGrows(n, k, Price(cfg, x));
      events := InTurn(cfg, at, m, x, n);
    } else {
      var few, j := n - k + 1, k - 1;
      assert j + few == n && few - few == 0;
      events := Drained(cfg, at, few, x, j, few);
      FewerOutstanding(cfg, at, few, m, events);
    }
  }

  lemma ThatMuch(cfg: Config, at: nat, m: nat, x: string, k: nat, n: nat) returns (events: seq<Event>)
    requires Pipeline(cfg.order, at) && m > 0 && k > 0 && Price(cfg, x) >= 0.0
    requires k as real * Price(cfg, x) <= cfg.budgetLimit && n <= k + m - 1 && Room(cfg, x, n)
    ensures AtMost(cfg, at, m, events) && Run(cfg, events).counters.totalCost == n as real * Price(cfg, x)
  {
    TimesIsProduct(k, Price(cfg, x));
    TimesIsProduct(n, Price(cfg, x));
    events := ThatMany(cfg, at, m, x, k, n);
  }

  lemma ReachesTotal(cfg: Config, at: nat, m: nat, x: string, k: nat, n: nat, total: real)
    requires Pipeline(cfg.order, at) && m > 0 && k > 0 && Price(cfg, x) >= 0.0
    requires Times(k, Price(cfg, x)) <= cfg.budgetLimit && n <= k + m - 1 && Room(cfg, x, n)
    requires total == Times(n, Price(cfg, x))
    ensures Reached(cfg, at, m, total)
  {
    var events := ThatMany(cfg, at, m, x, k, n);
    assert Run(cfg, events).counters.totalCost == total;
  }

  lemma Excess(k: nat, m: nat, p: real)
    requires k > 0
    ensures (k - 1 + m) as real * p == k as real * p + Others(m, p)
  {
    assert (k - 1 + m) as real == k as real + (m as real - 1.0);
    Distribute(k as real, m as real - 1.0, p);
  }

  lemma Distribute(a: real, b: real, c: real)
    ensures (a + b) * c == a * c + b * c
  {
  }

  lemma WholeBound(cfg: Config, m: nat, p: real, k: nat)
    requires m > 0 && k > 0 && p >= 0.0 && cfg.budgetLimit == k as real * p
    ensures Bound(cfg, m, p) == Times(k - 1 + m, p) && cfg.budgetLimit == Times(k, p)
  {
    Excess(k, m, p);
    ScaleNat(0, k - 1 + m, p);
    TimesIsProduct(k, p);
    TimesIsProduct(k - 1 + m, p);
  }

  /**
   * For every limit that is a whole multiple of a price, in any pipeline whose guard lets enough requests through,
   * some interleaving with at most m outstanding reaches the bound.
   */
  lemma BoundIsReached(cfg: Config, at: nat, m: nat, x: string, k: nat)
    requires Pipeline(cfg.order, at) && m > 0 && k > 0 && Price(cfg, x) >= 0.0
    requires cfg.budgetLimit == k as real * Price(cfg, x) && Room(cfg, x, k - 1 + m)
    ensures Reached(cfg, at, m, Bound(cfg, m, Price(cfg, x)))
  {
    WholeBound(cfg, m, Price(cfg, x), k);
    ReachesTotal(cfg, at, m, x, k, k - 1 + m, Bound(cfg, m, Price(cfg, x)));
  }

  // ------------------------------------------------------------ what can be charged

  /** The sentinel at a place has let the request through. */
  predicate Past(place: nat, r: Request) {
    match r.phase
    case Checking(next) => next > place
    case Forwarding => true
    case Reviewing(_) => true
    case Done => false
  }

  /** Whatever passed the estimate is affordable by itself, and whatever passed the guard is admitted. */
  ghost predicate Vetted(cfg: Config, r: Request) {
    forall k :: 0 <= k < |cfg.order| && Past(k, r) ==>
      && (cfg.order[k] == Cost ==> Price(cfg, r.method_) <= cfg.budgetLimit)
      && (cfg.order[k] == Safety ==> Admitted(cfg, r.method_))
  }

  predicate Sent(r: Request) {
    r.phase.Forwarding? || r.phase.Reviewing?
  }

  ghost predicate Sober(cfg: Config, s: System) {
    && s.counters.totalCost >= 0.0
    && (forall i :: 0 <= i < |s.requests| ==> Vetted(cfg, s.requests[i]))
    && Count(Sent, s.requests) <= s.forwarded
  }

  lemma PriceIsNonNegative(cfg: Config, x: string)
    requires NonNegative(cfg)
    ensures Price(cfg, x) >= 0.0
  {
  }

  lemma StepVets(cfg: Config, s: System, e: Event)
    requires NonNegative(cfg) && Sober(cfg, s) && !e.Arrive? && Enabled(cfg, s, e)
    ensures Vetted(cfg, Step(cfg, s, e).requests[e.id]) && Step(cfg, s, e).counters.totalCost >= 0.0
  {
    var r := s.requests[e.id];
    assert Vetted(cfg, r);
    PriceIsNonNegative(cfg, r.method_);
  }

  lemma StepIsSober(cfg: Config, s: System, e: Event)
    requires NonNegative(cfg) && Sober(cfg, s)
    ensures Sober(cfg, Step(cfg, s, e))
  {
    var t := Step(cfg, s, e);
    if Enabled(cfg, s, e) {
      if e.Arrive? {
        SumPush(Owed(cfg, 0), Sent, s.requests, Request(e.method_, Checking(0)));
      } else {
        StepVets(cfg, s, e);
        CountUpdate(Sent, s.requests, e.id, t.requests[e.id]);
        assert t.requests == s.requests[e.id := t.requests[e.id]];
      }
    }
  }

  lemma {:induction false} RunIsSober(cfg: Config, events: seq<Event>)
    requires NonNegative(cfg)
    ensures Sober(cfg, Run(cfg, events))
  {
    if events == [] {
    } else {
      RunIsSober(cfg, events[..|events| - 1]);
      StepIsSober(cfg, Run(cfg, events[..|events| - 1]), events[|events| - 1]);
    }
  }

  ghost predicate Cheap(cfg: Config, at: nat, rs: seq<Request>, c: real) {
    forall i :: 0 <= i < |rs| && Recorded(at, rs[i]) ==> Price(cfg, rs[i].method_) <= c
  }

  lemma {:induction false} ChargedAtMost(cfg: Config, at: nat, rs: seq<Request>, c: real)
    requires c >= 0.0 && Cheap(cfg, at, rs, c)
    ensures Sum(Charged(cfg, at), rs) <= Count(Sent, rs) as real * c
  {
    if rs == [] {
    } else {
      var init := rs[..|rs| - 1];
      ChargedAtMost(cfg, at, init, c);
      OneMore(Count(Sent, init), c);
    }
  }

  /** What is recorded is at most n times the dearest price recorded, if at most n requests are sent. */
  lemma TotalAtMost(cfg: Config, at: nat, s: System, n: nat, c: real)
    requires c >= 0.0 && Cheap(cfg, at, s.requests, c) && Count(Sent, s.requests) <= n
    requires s.counters.totalCost == Sum(Charged(cfg, at), s.requests)
    ensures s.counters.totalCost <= n as real * c
  {
    ChargedAtMost(cfg, at, s.requests, c);
    ScaleNat(Count(Sent, s.requests), n, c);
  }

  lemma Share(n: nat, p: real, limit: real)
    requires n > 0 && n as real * p <= limit
    ensures p <= limit / n as real
  {
  }

  lemma WholeShare(n: nat, limit: real)
    requires n > 0
    ensures n as real * (limit / n as real) == limit
  {
  }

  /** A recorded request is free, or neither dear enough nor called often enough to exceed the limit. */
  lemma RecordedIsCheap(cfg: Config, at: nat, s: System, i: nat)
    requires OnlyAt(cfg.order, Cost, at) && NonNegative(cfg) && Sober(cfg, s)
    requires i < |s.requests| && Recorded(at, s.requests[i]) && !Escapes(cfg, s.requests[i].method_)
    ensures var p := Price(cfg, s.requests[i].method_);
            p == 0.0 || (Safety in cfg.order && cfg.maxToolCalls as real * p <= cfg.budgetLimit)
  {
    var r := s.requests[i];
    PriceIsNonNegative(cfg, r.method_);
    assert Vetted(cfg, r) && Past(at, r);
    if Safety in cfg.order {
      var k :| 0 <= k < |cfg.order| && cfg.order[k] == Safety;
      assert Past(k, r);
    }
  }

  lemma SharesAreCheap(cfg: Config, at: nat, s: System)
    requires OnlyAt(cfg.order, Cost, at) && NonNegative(cfg) && Sober(cfg, s)
    requires cfg.maxToolCalls > 0 && cfg.budgetLimit >= 0.0 && forall x :: !Escapes(cfg, x)
    ensures Cheap(cfg, at, s.requests, cfg.budgetLimit / cfg.maxToolCalls as real)
  {
    forall i | 0 <= i < |s.requests| && Recorded(at, s.requests[i])
      ensures Price(cfg, s.requests[i].method_) <= cfg.budgetLimit / cfg.maxToolCalls as real
    {
      RecordedIsCheap(cfg, at, s, i);
      Share(cfg.maxToolCalls, Price(cfg, s.requests[i].method_), cfg.budgetLimit);
    }
  }

  lemma WithinQuotaAndLimit(cfg: Config, at: nat, s: System)
    requires OnlyAt(cfg.order, Cost, at) && NonNegative(cfg) && Sober(cfg, s)
    requires s.forwarded <= AtLeastZero(cfg.maxToolCalls) && s.counters.totalCost == Sum(Charged(cfg, at), s.requests)
    requires cfg.budgetLimit >= 0.0 && forall x :: !Escapes(cfg, x)
    ensures s.counters.totalCost <= cfg.budgetLimit
  {
    if cfg.maxToolCalls <= 0 {
      NothingSent(cfg, at, s.requests);
    } else {
      var c := cfg.budgetLimit / cfg.maxToolCalls as real;
      WholeShare(cfg.maxToolCalls, cfg.budgetLimit);
      SharesAreCheap(cfg, at, s);
      TotalAtMost(cfg, at, s, cfg.maxToolCalls, c);
    }
  }

  lemma {:induction false} NothingSent(cfg: Config, at: nat, rs: seq<Request>)
    requires Count(Sent, rs) == 0
    ensures Sum(Charged(cfg, at), rs) == 0.0
  {
    if rs == [] {
    } else {
      NothingSent(cfg, at, rs[..|rs| - 1]);
    }
  }

  /** Where no method escapes, the limit holds in every interleaving, however many requests are outstanding. */
  lemma NoneEscapes(cfg: Config, at: nat, events: seq<Event>)
    requires Pipeline(cfg.order, at) && NonNegative(cfg) && cfg.budgetLimit >= 0.0 && forall x :: !Escapes(cfg, x)
    ensures Run(cfg, events).counters.totalCost <= cfg.budgetLimit
  {
    var s := Run(cfg, events);
    RunIsSober(cfg, events);
    ChargedExactly(cfg, at, events);
    if Safety in cfg.order {
      var k :| 0 <= k < |cfg.order| && cfg.order[k] == Safety;
      QuotaHolds(cfg, k, events);
      WithinQuotaAndLimit(cfg, at, s);
    } else {
      forall i | 0 <= i < |s.requests| && Recorded(at, s.requests[i]) ensures Price(cfg, s.requests[i].method_) <= 0.0 {
        RecordedIsCheap(cfg, at, s, i);
      }
      TotalAtMost(cfg, at, s, Count(Sent, s.requests), 0.0);
    }
  }

  // ------------------------------------------------------------- when the limit holds

  /** How many requests at a price the limit has room for. */
  lemma WholePrices(limit: real, p: real) returns (k: nat)
    requires 0.0 < p <= limit
    ensures k > 0 && k as real * p <= limit < (k + 1) as real * p
  {
    k := 1;
    while (k + 1) as real * p <= limit
      invariant k > 0 && k as real * p <= limit
      decreases (limit / p).Floor - k
    {
      BelowQuotient(k + 1, p, limit);
      k := k + 1;
    }
  }

  lemma BelowQuotient(k: nat, p: real, limit: real)
    requires p > 0.0 && k as real * p <= limit
    ensures k <= (limit / p).Floor
  {
    assert k as real <= limit / p;
  }

  lemma {:induction false} Dearest(costs: map<string, real>) returns (c: real)
    ensures c >= 0.0 && forall x :: x in costs ==> costs[x] <= c
    decreases |costs|
  {
    if costs == map[] {
      c := 0.0;
    } else {
      var x :| x in costs;
      var rest := costs - {x};
      assert costs.Keys == rest.Keys + {x};
      var d := Dearest(rest);
      c := Larger(d, costs[x]);
      assert forall y :: y in costs ==> y == x || (y in rest && rest[y] == costs[y]);
    }
  }

  lemma FewerCalls(calls: int, k: nat, p: real, limit: real)
    requires p > 0.0 && calls as real * p > limit && k as real * p <= limit
    ensures k + 1 <= calls
  {
    if calls <= k {
      ScaleNat(calls, k, p);
    }
  }

  /** Two requests of an escaping method together exceed the limit. */
  lemma TwoExceed(cfg: Config, at: nat, x: string) returns (events: seq<Event>)
    requires Pipeline(cfg.order, at) && Escapes(cfg, x)
    ensures AtMost(cfg, at, 2, events) && Run(cfg, events).counters.totalCost > cfg.budgetLimit
  {
    var p := Price(cfg, x);
    var k := WholePrices(cfg.budgetLimit, p);
    if Safety in cfg.order {
      FewerCalls(cfg.maxToolCalls, k, p, cfg.budgetLimit);
    }
    events := ThatMuch(cfg, at, 2, x, k, k + 1);
  }

  /**
   * The limit holds in all interleavings with at most m requests outstanding exactly when it is not negative, and
   * m is at most one or no method escapes.
   */
  lemma LimitHoldsExactly(cfg: Config, at: nat, m: nat)
    requires Pipeline(cfg.order, at) && NonNegative(cfg)
    ensures NeverMore(cfg, at, m, cfg.budgetLimit) <==>
            cfg.budgetLimit >= 0.0 && (m <= 1 || forall x :: x in cfg.estimatedCosts ==> !Escapes(cfg, x))
  {
    if cfg.budgetLimit < 0.0 {
      assert AtMost(cfg, at, m, []) && Run(cfg, []).counters.totalCost > cfg.budgetLimit;
    } else if m <= 1 {
      var cmax := Dearest(cfg.estimatedCosts);
      forall events | AtMost(cfg, at, m, events) ensures Run(cfg, events).counters.totalCost <= cfg.budgetLimit {
        FewerOutstanding(cfg, at, m, 1, events);
        OneAtATime(cfg, at, cmax, events);
      }
    } else if x :| x in cfg.estimatedCosts && Escapes(cfg, x) {
      var events := TwoExceed(cfg, at, x);
      FewerOutstanding(cfg, at, 2, m, events);
      assert AtMost(cfg, at, m, events);
    } else {
      assert forall x :: Escapes(cfg, x) ==> x in cfg.estimatedCosts;
      forall events ensures Run(cfg, events).counters.totalCost <= cfg.budgetLimit {
        NoneEscapes(cfg, at, events);
      }
    }
  }

  /** For an estimator by itself: no price lies between nothing and the limit. */
  lemma LoneEstimator(cfg: Config, m: nat)
    requires cfg.order == [Cost] && NonNegative(cfg) && cfg.budgetLimit >= 0.0 && m >= 2
    ensures NeverMore(cfg, 0, m, cfg.budgetLimit) <==>
            forall x :: x in cfg.estimatedCosts ==>
                          cfg.estimatedCosts[x] == 0.0 || cfg.estimatedCosts[x] > cfg.budgetLimit
  {
    LimitHoldsExactly(cfg, 0, m);
    assert forall x :: x in cfg.estimatedCosts ==>
             (Escapes(cfg, x) <==> 0.0 < cfg.estimatedCosts[x] <= cfg.budgetLimit);
  }

  // --------------------------------------------------------- the worst case of one price

  /** Every method is free or costs p. */
  ghost predicate Uniform(cfg: Config, p: real) {
    forall x :: x in cfg.estimatedCosts ==> cfg.estimatedCosts[x] == 0.0 || cfg.estimatedCosts[x] == p
  }

  lemma Charges(n: nat, k: nat, p: real, limit: real)
    requires p > 0.0 && k as real * p <= limit < (k + 1) as real * p
    ensures n as real * p > limit <==> n as real * p > k as real * p
  {
    if n <= k {
      ScaleNat(n, k, p);
    } else {
      ScaleNat(k + 1, n, p);
    }
  }

  /** A run's total is a whole number of prices, so only whole prices of the limit matter. */
  lemma {:induction false} SameRun(cfg: Config, whole: Config, p: real, k: nat, events: seq<Event>) returns (n: nat)
    requires p > 0.0 && Uniform(cfg, p) && k as real * p <= cfg.budgetLimit < (k + 1) as real * p
    requires whole == cfg.(budgetLimit := k as real * p)
    ensures Run(whole, events) == Run(cfg, events) && Run(cfg, events).counters.totalCost == n as real * p
  {
    if events == [] {
      n := 0;
    } else {
      n := SameRun(cfg, whole, p, k, events[..|events| - 1]);
      n := SameStep(cfg, whole, p, k, Run(cfg, events[..|events| - 1]), events[|events| - 1], n);
    }
  }

  lemma SameStep(cfg: Config, whole: Config, p: real, k: nat, s: System, e: Event, n: nat) returns (after: nat)
    requires p > 0.0 && Uniform(cfg, p) && k as real * p <= cfg.budgetLimit < (k + 1) as real * p
    requires whole == cfg.(budgetLimit := k as real * p) && s.counters.totalCost == n as real * p
    ensures Step(whole, s, e) == Step(cfg, s, e) && Step(cfg, s, e).counters.totalCost == after as real * p
  {
    after := n;
    if Enabled(cfg, s, e) && !e.Arrive? {
      var x := s.requests[e.id].method_;
      SameVerdict(cfg, whole, p, k, s.counters, x, n);
      OneMore(n, p);
      if Step(cfg, s, e).counters.totalCost != s.counters.totalCost {
        after := n + 1;
      }
    }
  }

  lemma SameVerdict(cfg: Config, whole: Config, p: real, k: nat, c: Counters, x: string, n: nat)
    requires p > 0.0 && Uniform(cfg, p) && k as real * p <= cfg.budgetLimit < (k + 1) as real * p
    requires whole == cfg.(budgetLimit := k as real * p) && c.totalCost == n as real * p
    ensures Price(whole, x) == Price(cfg, x) && (Price(cfg, x) == 0.0 || Price(cfg, x) == p)
    ensures OverBudget(whole, c, x) <==> OverBudget(cfg, c, x)
  {
    if Price(cfg, x) == 0.0 {
      Charges(n, k, p, cfg.budgetLimit);
    } else {
      OneMore(n, p);
      Charges(n + 1, k, p, cfg.budgetLimit);
    }
  }

  /** The most that m outstanding requests can get through: as many as fit the limit one by one, and m - 1 more. */
  function MostCharged(cfg: Config, m: nat, k: nat): nat
    requires m > 0
  {
    var quota := AtLeastZero(cfg.maxToolCalls);
    if Safety in cfg.order && quota < k + m - 1 then quota else k + m - 1
  }

  lemma {:induction false} SameAtMost(cfg: Config, whole: Config, p: real, k: nat, at: nat, m: nat, events: seq<Event>)
    requires p > 0.0 && Uniform(cfg, p) && k as real * p <= cfg.budgetLimit < (k + 1) as real * p
    requires whole == cfg.(budgetLimit := k as real * p)
    ensures AtMost(whole, at, m, events) <==> AtMost(cfg, at, m, events)
  {
    var _ := SameRun(cfg, whole, p, k, events);
    if events == [] {
    } else {
      SameAtMost(cfg, whole, p, k, at, m, events[..|events| - 1]);
    }
  }

  lemma AtMostThatMuch(cfg: Config, at: nat, m: nat, p: real, k: nat, events: seq<Event>)
    requires Pipeline(cfg.order, at) && m > 0 && k > 0 && p > 0.0 && Uniform(cfg, p)
    requires k as real * p <= cfg.budgetLimit < (k + 1) as real * p && AtMost(cfg, at, m, events)
    ensures Run(cfg, events).counters.totalCost <= (k + m - 1) as real * p
  {
    var whole := cfg.(budgetLimit := k as real * p);
    var _ := SameRun(cfg, whole, p, k, events);
    SameAtMost(cfg, whole, p, k, at, m, events);
    BudgetHolds(whole, at, m, p, events);
    OwedBounds(whole, at, p, Run(whole, events).requests);
    Excess(k, m, p);
    ScaleNat(0, k + m - 1, p);
  }

  lemma UniformIsCheap(cfg: Config, at: nat, rs: seq<Request>, p: real)
    requires p > 0.0 && Uniform(cfg, p)
    ensures Cheap(cfg, at, rs, p)
  {
    assert forall x :: Price(cfg, x) <= p;
  }

  lemma QuotaCaps(cfg: Config, at: nat, p: real, s: System)
    requires p > 0.0 && Uniform(cfg, p) && Count(Sent, s.requests) <= s.forwarded <= AtLeastZero(cfg.maxToolCalls)
    requires s.counters.totalCost == Sum(Charged(cfg, at), s.requests)
    ensures s.counters.totalCost <= AtLeastZero(cfg.maxToolCalls) as real * p
  {
    UniformIsCheap(cfg, at, s.requests, p);
    TotalAtMost(cfg, at, s, AtLeastZero(cfg.maxToolCalls), p);
  }

  lemma AtMostTheQuota(cfg: Config, at: nat, place: nat, p: real, events: seq<Event>)
    requires OnlyAt(cfg.order, Cost, at) && OnlyAt(cfg.order, Safety, place) && p > 0.0 && Uniform(cfg, p)
    ensures Run(cfg, events).counters.totalCost <= AtLeastZero(cfg.maxToolCalls) as real * p
  {
    var s := Run(cfg, events);
    QuotaHolds(cfg, place, events);
    RunIsSober(cfg, events);
    ChargedExactly(cfg, at, events);
    QuotaCaps(cfg, at, p, s);
  }

  lemma NeverMoreThanThat(cfg: Config, at: nat, m: nat, p: real, k: nat, most: real)
    requires Pipeline(cfg.order, at) && m > 0 && k > 0 && p > 0.0 && Uniform(cfg, p)
    requires Times(k, p) <= cfg.budgetLimit < Times(k + 1, p) && most == Times(MostCharged(cfg, m, k), p)
    ensures NeverMore(cfg, at, m, most)
  {
    TimesIsProduct(k, p);
    TimesIsProduct(k + 1, p);
    TimesIsProduct(MostCharged(cfg, m, k), p);
    forall events | AtMost(cfg, at, m, events) ensures Run(cfg, events).counters.totalCost <= most {
      CappedTwice(cfg, at, m, p, k, events);
    }
  }

  lemma CappedTwice(cfg: Config, at: nat, m: nat, p: real, k: nat, events: seq<Event>)
    requires Pipeline(cfg.order, at) && m > 0 && k > 0 && p > 0.0 && Uniform(cfg, p)
    requires k as real * p <= cfg.budgetLimit < (k + 1) as real * p && AtMost(cfg, at, m, events)
    ensures Run(cfg, events).counters.totalCost <= MostCharged(cfg, m, k) as real * p
  {
    AtMostThatMuch(cfg, at, m, p, k, events);
    if Safety in cfg.order {
      var place :| 0 <= place < |cfg.order| && cfg.order[place] == Safety;
      AtMostTheQuota(cfg, at, place, p, events);
    }
  }

  /**
   * For any limit that has room for one request, and methods that are free or cost what x costs: the most that is
   * recorded with m requests outstanding, to the last request.
   */
  lemma WorstCaseExactly(cfg: Config, at: nat, m: nat, x: string, k: nat)
    requires Pipeline(cfg.order, at) && m > 0 && k > 0 && Price(cfg, x) > 0.0 && Uniform(cfg, Price(cfg, x))
    requires Times(k, Price(cfg, x)) <= cfg.budgetLimit < Times(k + 1, Price(cfg, x))
    requires Safety in cfg.order ==> Admitted(cfg, x)
    ensures NeverMore(cfg, at, m, Times(MostCharged(cfg, m, k), Price(cfg, x)))
    ensures Reached(cfg, at, m, Times(MostCharged(cfg, m, k), Price(cfg, x)))
  {
    var n, p := MostCharged(cfg, m, k), Price(cfg, x);
    NeverMoreThanThat(cfg, at, m, p, k, Times(n, p));
    ReachesTotal(cfg, at, m, x, k, n, Times(n, p));
  }
}
