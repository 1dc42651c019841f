/**
 * The broker's request pipeline and its sentinels (hackathon/broker/router.py:21-78,
 * hackathon/sentinels/cost.py, hackathon/sentinels/safety.py). Costs are exact numbers.
 */
module Sentinels {
  import opened Collections

  /** The kinds of sentinel in the pipeline; the auditor only writes its log. */
  datatype Sentinel = Auditor | Safety | Cost

  datatype Config = Config(order: seq<Sentinel>, estimatedCosts: map<string, real>, budgetLimit: real,
                           maxToolCalls: int, blocklist: seq<string>, requireApproval: seq<string>)

  /** What the sentinels keep between calls. */
  datatype Counters = Counters(totalCost: real, callCount: nat, safetyCalls: nat)

  const FRESH := Counters(0.0, 0, 0)

  function Price(cfg: Config, method_: string): real {
    if method_ in cfg.estimatedCosts then cfg.estimatedCosts[method_] else 0.0
  }

  predicate StandsAt(text: string, part: string, i: int)
    requires 0 <= i <= |text| - |part|
  {
    text[i..i + |part|] == part
  }

  /** Python's `part in text`. */
  predicate Contains(text: string, part: string) {
    exists i :: 0 <= i <= |text| - |part| && StandsAt(text, part, i)
  }

  /** One text is in another exactly when something can be put before and after it to make the other. */
  lemma ContainsExactly(text: string, part: string)
    ensures Contains(text, part) <==> exists a, b :: text == a + part + b
  {
    if Contains(text, part) {
      var i :| 0 <= i <= |text| - |part| && StandsAt(text, part, i);
      assert text == text[..i] + part + text[i + |part|..];
    }
    if a, b :| text == a + part + b {
      assert StandsAt(text, part, |a|);
    }
  }

  predicate Mentions(parts: seq<string>, text: string) {
    exists p :: p in parts && Contains(text, p)
  }

  datatype Verdict = Verdict(after: Counters, blocked: bool)

  predicate OverBudget(cfg: Config, c: Counters, method_: string) {
    c.totalCost + Price(cfg, method_) > cfg.budgetLimit
  }

  /** The count goes up before it is compared, and before approval is asked for; the block list comes first. */
  function SafetyCheck(cfg: Config, c: Counters, method_: string): Verdict {
    if Mentions(cfg.blocklist, method_) then Verdict(c, true)
    else
      var d := c.(safetyCalls := c.safetyCalls + 1);
      Verdict(d, d.safetyCalls > cfg.maxToolCalls || Mentions(cfg.requireApproval, method_))
  }

  function PreCheck(cfg: Config, s: Sentinel, c: Counters, method_: string): Verdict {
    match s
    case Auditor => Verdict(c, false)
    case Safety => SafetyCheck(cfg, c, method_)
    case Cost => Verdict(c, OverBudget(cfg, c, method_))
  }

  function PostCheck(cfg: Config, s: Sentinel, c: Counters, method_: string): Counters {
    if s == Cost then c.(totalCost := c.totalCost + Price(cfg, method_), callCount := c.callCount + 1) else c
  }

  // ---------------------------------------------------------------- sentinels

  class CostEstimator {
    const cfg: Config
    var totalCost: real
    var callCount: nat

    constructor (cfg: Config)
      ensures this.cfg == cfg && totalCost == 0.0 && callCount == 0
    {
      this.cfg := cfg;
      totalCost, callCount := 0.0, 0;
    }

    /** Blocks or estimates; it records nothing. */
    method PreCheck(method_: string) returns (blocked: bool)
      ensures blocked <==> totalCost + Price(cfg, method_) > cfg.budgetLimit
    {
      var cost := Price(cfg, method_);
      var newTotal := totalCost + cost;
      blocked := newTotal > cfg.budgetLimit;
    }

    method PostCheck(method_: string)
      modifies this
      ensures totalCost == old(totalCost) + Price(cfg, method_) && callCount == old(callCount) + 1
    {
      var cost := Price(cfg, method_);
      totalCost := totalCost + cost;
      callCount := callCount + 1;
    }
  }

  class SafetyGuard {
    const cfg: Config
    var callCount: nat

    constructor (cfg: Config)
      ensures this.cfg == cfg && callCount == 0
    {
      this.cfg := cfg;
      callCount := 0;
    }

    method PreCheck(method_: string) returns (blocked: bool)
      modifies this
      ensures forall c: Counters :: c.safetyCalls == old(callCount) ==>
                var v := SafetyCheck(cfg, c, method_); v.blocked == blocked && v.after.safetyCalls == callCount
    {
      for i := 0 to |cfg.blocklist|
        invariant forall k :: 0 <= k < i ==> !Contains(method_, cfg.blocklist[k])
        invariant callCount == old(callCount)
      {
        if Contains(method_, cfg.blocklist[i]) {
          return true;
        }
      }
      callCount := callCount + 1;
      if callCount > cfg.maxToolCalls {
        return true;
      }
      for i := 0 to |cfg.requireApproval|
        invariant forall k :: 0 <= k < i ==> !Contains(method_, cfg.requireApproval[k])
        invariant callCount == old(callCount) + 1
      {
        if Contains(method_, cfg.requireApproval[i]) {
          return true;
        }
      }
      return false;
    }
  }

  // ------------------------------------------------------------------- router

  datatype Outcome = Blocked | NoServer | ServerError | Answered

  /** The first loop of `route` from sentinel k on: the counters, and whether some sentinel blocked. */
  function PreChecks(cfg: Config, c: Counters, method_: string, k: nat): Verdict
    requires k <= |cfg.order|
    decreases |cfg.order| - k
  {
    if k == |cfg.order| then Verdict(c, false)
    else
      var v := PreCheck(cfg, cfg.order[k], c, method_);
      if v.blocked then v else PreChecks(cfg, v.after, method_, k + 1)
  }

  function PostChecks(cfg: Config, c: Counters, method_: string, k: nat): Counters
    requires k <= |cfg.order|
    decreases |cfg.order| - k
  {
    if k == |cfg.order| then c else PostChecks(cfg, PostCheck(cfg, cfg.order[k], c, method_), method_, k + 1)
  }

  datatype Routed = Routed(after: Counters, outcome: Outcome)

  /** One request routed with no other beside it; whether a server is found and answers are inputs. */
  function Route(cfg: Config, c: Counters, method_: string, found: bool, replies: bool): Routed {
    var v := PreChecks(cfg, c, method_, 0);
    if v.blocked then Routed(v.after, Blocked)
    else if !found then Routed(v.after, NoServer)
    else if !replies then Routed(v.after, ServerError)
    else Routed(PostChecks(cfg, v.after, method_, 0), Answered)
  }

  /** Some text of the list is in the name of the method. */
  ghost predicate Named(parts: seq<string>, method_: string) {
    exists a, p, b :: p in parts && method_ == a + p + b
  }

  lemma NamedExactly(parts: seq<string>, method_: string)
    ensures Mentions(parts, method_) <==> Named(parts, method_)
  {
    forall p ensures Contains(method_, p) <==> exists a, b :: method_ == a + p + b {
      ContainsExactly(method_, p);
    }
  }

  lemma OpenPipeline(cfg: Config, c: Counters, method_: string)
    requires cfg.order == [Auditor, Safety, Cost]
    ensures var v := SafetyCheck(cfg, c, method_);
            PreChecks(cfg, c, method_, 0) ==
            if v.blocked then v else Verdict(v.after, OverBudget(cfg, v.after, method_))
    ensures PostChecks(cfg, c, method_, 0) == PostCheck(cfg, Cost, c, method_)
  {
    var v := SafetyCheck(cfg, c, method_);
    assert cfg.order[0] == Auditor && cfg.order[1] == Safety && cfg.order[2] == Cost;
    assert PreChecks(cfg, v.after, method_, 2) == Verdict(v.after, OverBudget(cfg, v.after, method_));
    assert PreChecks(cfg, c, method_, 1) == if v.blocked then v else PreChecks(cfg, v.after, method_, 2);
    assert PreChecks(cfg, c, method_, 0) == PreChecks(cfg, c, method_, 1);
    var d := PostCheck(cfg, Cost, c, method_);
    assert PostChecks(cfg, d, method_, 3) == d;
    assert PostChecks(cfg, c, method_, 2) == PostChecks(cfg, d, method_, 3);
    assert PostChecks(cfg, c, method_, 1) == PostChecks(cfg, c, method_, 2);
  }

  /**
   * The broker's own pipeline, request by request: what becomes of a request, and what is counted. A blocked name is
   * not counted, any other is; it is stopped when the count passes the quota, when it needs approval or when it does
   * not fit the budget; and only an answered request is charged its price, or nothing if it has none.
   */
  lemma RoutedExactly(cfg: Config, c: Counters, method_: string, found: bool, replies: bool)
    requires cfg.order == [Auditor, Safety, Cost]
    ensures var price := if method_ in cfg.estimatedCosts then cfg.estimatedCosts[method_] else 0.0;
            var counted := if Named(cfg.blocklist, method_) then c.safetyCalls else c.safetyCalls + 1;
            var stopped := Named(cfg.blocklist, method_) || c.safetyCalls + 1 > cfg.maxToolCalls
                           || Named(cfg.requireApproval, method_) || c.totalCost + price > cfg.budgetLimit;
            var outcome := if stopped then Blocked else if !found then NoServer
                           else if replies then Answered else ServerError;
            Route(cfg, c, method_, found, replies) ==
            if outcome == Answered then Routed(Counters(c.totalCost + price, c.callCount + 1, counted), Answered)
            else Routed(Counters(c.totalCost, c.callCount, counted), outcome)
  {
    NamedExactly(cfg.blocklist, method_);
    NamedExactly(cfg.requireApproval, method_);
    OpenPipeline(cfg, c, method_);
    OpenPipeline(cfg, SafetyCheck(cfg, c, method_).after, method_);
  }

  class Router {
    const cfg: Config
    const cost: CostEstimator
    const safety: SafetyGuard

    constructor (cfg: Config)
      ensures this.cfg == cfg && Valid() && Current() == FRESH
      ensures fresh(cost) && fresh(safety)
    {
      this.cfg := cfg;
      cost := new CostEstimator(cfg);
      safety := new SafetyGuard(cfg);
    }

    ghost predicate Valid() {
      cost.cfg == cfg && safety.cfg == cfg
    }

    ghost function Current(): Counters
      reads cost, safety
    {
      Counters(cost.totalCost, cost.callCount, safety.callCount)
    }

    method CheckOne(s: Sentinel, method_: string) returns (blocked: bool)
      requires Valid()
      modifies safety
      ensures Verdict(Current(), blocked) == PreCheck(cfg, s, old(Current()), method_)
    {
      blocked := false;
      if s == Safety {
        blocked := safety.PreCheck(method_);
        ghost var v := SafetyCheck(cfg, old(Current()), method_);
        assert v.blocked == blocked && v.after.safetyCalls == safety.callCount;
      } else if s == Cost {
        blocked := cost.PreCheck(method_);
      }
    }

    method ReviewOne(s: Sentinel, method_: string)
      requires Valid()
      modifies cost
      ensures Current() == PostCheck(cfg, s, old(Current()), method_)
    {
      if s == Cost {
        cost.PostCheck(method_);
      }
    }

    method RouteRequest(method_: string, found: bool, replies: bool) returns (outcome: Outcome)
      requires Valid()
      modifies cost, safety
      ensures Routed(Current(), outcome) == Route(cfg, old(Current()), method_, found, replies)
    {
      for k := 0 to |cfg.order|
        invariant PreChecks(cfg, old(Current()), method_, 0) == PreChecks(cfg, Current(), method_, k)
      {
        var blocked := CheckOne(cfg.order[k], method_);
        if blocked {
          return Blocked;
        }
      }
      if !found {
        return NoServer;
      }
      if !replies {
        return ServerError;
      }
      ghost var c := Current();
      for k := 0 to |cfg.order|
        invariant PostChecks(cfg, c, method_, 0) == PostChecks(cfg, Current(), method_, k)
      {
        ReviewOne(cfg.order[k], method_);
      }
      return Answered;
    }
  }
}
