/** Limits and budgets over whole runs: concurrency limits are never exceeded, and a token budget
    is overspent by no more than the requests that were in flight can add. */
module BudgetSafety {
  import opened Options
  import opened AdmissionConfig
  import opened AdmissionHistory
  import opened Routing
  import opened SseUsage
  import opened Streaming
  import Failover
  import opened LifeCycle
  import opened LeaseSafety

  // ------------------------------------------------------------------ discipline of the history

  /** Calls are in clock order, none is ahead of the clock, every lease had room, and every
      acquisition was answered as the history before it calls for. */
  ghost predicate Disciplined(g: Gateway, s: Shared) {
    && InClockOrder(s.log) && NotBefore(s.clock, s.log)
    && GrantedWithRoom(g.admission, s.log) && AllAnswered(g.admission, s.log)
  }

  lemma AppendDisciplined(g: Gateway, s: Shared, c: Call)
    requires Disciplined(g, s) && (Timed(c) ==> c.at == s.clock)
    requires c.Acquired? ==> AnsweredFrom(g.admission, s.log, c)
    ensures Disciplined(g, Append(s, c))
  {
    if c.Acquired? && c.verdict.Admitted? {
      AdmittedHasRoom(g.admission, s.log, Spent(g.admission, s.log, c.at, c.key), c.at, Wanted(c));
    }
    GrantedSnoc(g.admission, s.log, c);
    AnsweredSnoc(g.admission, s.log, c);
  }

  lemma AdmitDisciplined(g: Gateway, s: Shared, lease: Lease, streaming: bool)
    requires Disciplined(g, s)
    ensures Disciplined(g, Admit(g, s, lease, streaming).shared)
  {
    AppendDisciplined(g, s, Acquired(s.clock, KeyOf(lease), Decide(g.admission, s.log, s.clock, lease)));
  }

  lemma ReleaseDisciplined(g: Gateway, w: Work)
    requires Disciplined(g, w.shared)
    ensures Disciplined(g, Release(w).shared)
  {
    AppendDisciplined(g, w.shared, Released(w.r.lease));
  }

  lemma ReportDisciplined(g: Gateway, w: Work)
    requires Disciplined(g, w.shared)
    ensures Disciplined(g, Report(w).shared)
  {
    AppendDisciplined(g, w.shared, Retried(w.shared.clock, KeyOf(w.r.lease)));
  }

  lemma ChargeDisciplined(g: Gateway, w: Work, usage: Option<Usage>)
    requires Disciplined(g, w.shared)
    ensures Disciplined(g, Charge(w, usage).shared)
  {
    if usage.Some? {
      AppendDisciplined(g, w.shared, Recorded(w.shared.clock, KeyOf(w.r.lease), usage.value.0 + usage.value.1));
    }
  }

  // ------------------------------------------------------------------ the budget

  /** No record of this key charges more than `most` tokens. */
  ghost predicate ChargesAtMost(log: seq<Call>, key: Key, most: int) {
    forall i | 0 <= i < |log| && log[i].Recorded? && log[i].key == key :: log[i].tokens <= most
  }

  /** The key under scrutiny, the window of its budget, the bound on a single charge, and the
      bound on the windowed total. */
  datatype Case = Case(key: Key, window: real, most: nat, bound: int)

  /** What is in the window, plus `most` for every request still in flight. */
  function Exposure(s: Shared, c: Case): int {
    SumWithin(TokenEvents(s.log, c.key), s.clock, c.window) + Outstanding(s.log, OfKey(c.key)) * c.most
  }

  /** How many requests of a key the limits let through at once: the smaller one of the department
      limit and the limit of the model, if there are any. */
  function Ceiling(cfg: Admission, key: Key): (r: Option<int>)
    ensures Bounds(cfg) && r.Some? ==> r.value > 0
  {
    var ofKey := LimitOf(cfg.departmentLimits, key);
    if key.model !in cfg.globalLimits then ofKey
    else if ofKey.Some? && ofKey.value < cfg.globalLimits[key.model] then ofKey
    else Some(cfg.globalLimits[key.model])
  }

  /** Releases are balanced, and the leases of the key are among those of its model. */
  ghost predicate WellHeld(log: seq<Call>, key: Key) {
    && Bracketed(log, OfKey(key)) && Bracketed(log, OfModel(key.model))
    && Outstanding(log, OfKey(key)) <= Outstanding(log, OfModel(key.model))
  }

  /** The case fits the configuration: the bound is the budget less one, plus `most` for every
      request that the limits let through at once. */
  ghost predicate Fits(cfg: Admission, c: Case) {
    && Bounds(cfg) && cfg.enabled
    && BudgetOf(cfg.tokenBudgets, c.key).Some? && Ceiling(cfg, c.key).Some?
    && c.window == BudgetOf(cfg.tokenBudgets, c.key).value.window
    && c.bound == BudgetOf(cfg.tokenBudgets, c.key).value.maxTokens - 1
                  + Ceiling(cfg, c.key).value * c.most
  }

  lemma OneLess(n: int, most: int)
    ensures (n - 1) * most == n * most - most
    ensures (n + 1) * most == n * most + most
  {
  }

  lemma AtMostTimes(n: int, limit: int, most: nat)
    requires n <= limit
    ensures n * most <= limit * most
  {
  }

  /** Admission renews the bound whatever the exposure was before. */
  lemma AdmitExposure(g: Gateway, s: Shared, lease: Lease, streaming: bool, c: Case)
    requires Fits(g.admission, c) && WellHeld(s.log, c.key) && Exposure(s, c) <= c.bound
    ensures Exposure(Admit(g, s, lease, streaming).shared, c) <= c.bound
  {
    var verdict := Decide(g.admission, s.log, s.clock, lease);
    if verdict.Admitted? && KeyOf(lease) == c.key {
      ClampsNeverFire(s.log, OfKey(c.key));
      ClampsNeverFire(s.log, OfModel(c.key.model));
      AdmittedHasRoom(g.admission, s.log, Spent(g.admission, s.log, s.clock, c.key), s.clock, lease);
      AtMostTimes(Outstanding(s.log, OfKey(c.key)) + 1, Ceiling(g.admission, c.key).value, c.most);
    }
  }

  lemma ReleaseExposure(w: Work, c: Case)
    requires w.r.leased
    ensures Exposure(Release(w).shared, c) ==
            Exposure(w.shared, c) - if KeyOf(w.r.lease) == c.key then c.most else 0
  {
    OneLess(Outstanding(w.shared.log, OfKey(c.key)), c.most);
  }

  lemma ChargeExposure(w: Work, usage: Option<Usage>, c: Case)
    requires c.window > 0.0 && ChargesAtMost(Charge(w, usage).shared.log, c.key, c.most)
    ensures Exposure(Charge(w, usage).shared, c) <=
            Exposure(w.shared, c) + if KeyOf(w.r.lease) == c.key then c.most else 0
  {
    if usage.Some? {
      var log, tokens := w.shared.log, usage.value.0 + usage.value.1;
      var call := Recorded(w.shared.clock, KeyOf(w.r.lease), tokens);
      assert Snoc(log, call)[|log|] == call;
      SumWithinConcat(TokenEvents(log, c.key), [TokenEvent(w.shared.clock, tokens)], w.shared.clock, c.window);
    }
  }

  lemma TickExposure(s: Shared, seconds: real, c: Case)
    requires seconds >= 0.0
    ensures Exposure(s.(clock := s.clock + seconds), c) <= Exposure(s, c)
  {
    TokenEventsPositive(s.log, c.key);
    WindowOnlyEmpties(TokenEvents(s.log, c.key), s.clock, s.clock + seconds, c.window);
  }

  /** The history is disciplined, and the exposure is within the bound plus `slack`, provided no
      charge was larger than assumed. */
  ghost predicate Sound(g: Gateway, s: Shared, c: Case, slack: int) {
    && Disciplined(g, s)
    && (Fits(g.admission, c) && ChargesAtMost(s.log, c.key, c.most) ==> Exposure(s, c) <= c.bound + slack)
  }

  /** How much a request of this lease counts for in the case. */
  function Weight(lease: Lease, c: Case): nat {
    if KeyOf(lease) == c.key then c.most else 0
  }

  lemma EarlierCharges(log: seq<Call>, call: Call, key: Key, most: int)
    requires ChargesAtMost(Snoc(log, call), key, most)
    ensures ChargesAtMost(log, key, most)
  {
    assert forall i | 0 <= i < |log| :: Snoc(log, call)[i] == log[i];
  }

  lemma ReleaseSound(g: Gateway, w: Work, c: Case, slack: int)
    requires Sound(g, w.shared, c, slack) && (g.admission.enabled ==> w.r.leased)
    ensures Sound(g, Release(w).shared, c, slack - Weight(w.r.lease, c))
  {
    ReleaseDisciplined(g, w);
    if Fits(g.admission, c) && ChargesAtMost(Release(w).shared.log, c.key, c.most) {
      EarlierCharges(w.shared.log, Released(w.r.lease), c.key, c.most);
      ReleaseExposure(w, c);
    }
  }

  lemma ReportSound(g: Gateway, w: Work, c: Case, slack: int)
    requires Sound(g, w.shared, c, slack)
    ensures Sound(g, Report(w).shared, c, slack)
  {
    ReportDisciplined(g, w);
    if ChargesAtMost(Report(w).shared.log, c.key, c.most) {
      EarlierCharges(w.shared.log, Retried(w.shared.clock, KeyOf(w.r.lease)), c.key, c.most);
    }
  }

  lemma ChargeSound(g: Gateway, w: Work, usage: Option<Usage>, c: Case, slack: int)
    requires Sound(g, w.shared, c, slack)
    ensures Sound(g, Charge(w, usage).shared, c, slack + Weight(w.r.lease, c))
  {
    ChargeDisciplined(g, w, usage);
    if usage.Some? && Fits(g.admission, c) && ChargesAtMost(Charge(w, usage).shared.log, c.key, c.most) {
      EarlierCharges(w.shared.log, Recorded(w.shared.clock, KeyOf(w.r.lease), usage.value.0 + usage.value.1), c.key,
                     c.most);
      ChargeExposure(w, usage, c);
    }
  }

  lemma AdmitSound(g: Gateway, s: Shared, lease: Lease, streaming: bool, c: Case)
    requires Sound(g, s, c, 0) && WellHeld(s.log, c.key)
    ensures Sound(g, Admit(g, s, lease, streaming).shared, c, 0)
  {
    AdmitDisciplined(g, s, lease, streaming);
    if Fits(g.admission, c) && ChargesAtMost(Admit(g, s, lease, streaming).shared.log, c.key, c.most) {
      EarlierCharges(s.log, Acquired(s.clock, KeyOf(lease), Decide(g.admission, s.log, s.clock, lease)), c.key, c.most);
      AdmitExposure(g, s, lease, streaming, c);
    }
  }

  lemma RouteSound(g: Gateway, w: Work, c: Case)
    requires Routable(g, w.r.lease.model) && Sound(g, w.shared, c, 0) && (g.admission.enabled ==> w.r.leased)
    ensures Sound(g, Select(g, w).shared, c, 0) && Sound(g, Release(Select(g, w)).shared, c, 0)
  {
    SelectMeaning(g, w);
    SameExposure(g, w, Select(g, w), c, 0);
    ReleaseSound(g, Select(g, w), c, 0);
  }

  lemma ArriveSound(g: Gateway, s: Shared, lease: Lease, streaming: bool, c: Case)
    requires Routable(g, lease.model) && Sound(g, s, c, 0) && WellHeld(s.log, c.key)
    ensures Sound(g, Arrive(g, s, lease, streaming).shared, c, 0)
  {
    var w := Admit(g, s, lease, streaming);
    AdmitSound(g, s, lease, streaming, c);
    if w.r.phase != Done(Refused) {
      RouteSound(g, w, c);
    }
  }

  lemma FailSound(g: Gateway, w: Work, c: Case)
    requires Sound(g, w.shared, c, 0) && (g.admission.enabled ==> w.r.leased)
    ensures Sound(g, Fail(w).shared, c, 0)
  {
    ReportSound(g, w, c, 0);
    var moved := Move(Account(Report(w), MissingUsage, false), Done(TransportFailure));
    SameExposure(g, Report(w), moved, c, 0);
    ReleaseSound(g, moved, c, 0);
  }

  /** Effects that leave clock and history alone change nothing here. */
  lemma SameExposure(g: Gateway, w: Work, v: Work, c: Case, slack: int)
    requires Sound(g, w.shared, c, slack)
    requires v.shared.log == w.shared.log && v.shared.clock == w.shared.clock
    ensures Sound(g, v.shared, c, slack)
  {
  }

  lemma GotStatusSound(g: Gateway, w: Work, status: int, c: Case)
    requires Sound(g, w.shared, c, 0)
    ensures Sound(g, GotStatus(w, status).shared, c, 0)
  {
    ReportSound(g, w.(r := w.r.(status := Some(status))), c, 0);
  }

  lemma ReturnSound(g: Gateway, w: Work, status: int, body: Body, c: Case)
    requires Sound(g, w.shared, c, 0) && (g.admission.enabled ==> w.r.leased)
    ensures Sound(g, Return(w, status, body).shared, c, 0)
  {
    var known := GotStatus(w, status);
    GotStatusSound(g, w, status, c);
    match body
    case Unusable => ReleaseSound(g, Move(known, Done(Crashed)), c, 0);
    case NotJson =>
      var moved := Move(Account(known, ParseError, true), Done(Returned));
      SameExposure(g, known, moved, c, 0);
      ReleaseSound(g, moved, c, 0);
    case Usable(usage) =>
      var settled := UsageSettlement(status, usage);
      var accounted := Account(known, settled.accounting, true);
      SameExposure(g, known, accounted, c, 0);
      ChargeSound(g, accounted, settled.usage, c, 0);
      ReleaseSound(g, Move(Charge(accounted, settled.usage), Done(Returned)), c, Weight(w.r.lease, c));
  }

  lemma EndStreamSound(g: Gateway, w: Work, settled: Settlement, c: Case)
    requires Sound(g, w.shared, c, 0) && (g.admission.enabled ==> w.r.leased)
    ensures Sound(g, EndStream(w, settled).shared, c, 0)
  {
    ReleaseSound(g, w, c, 0);
    var accounted := Account(Move(Release(w), Done(StreamFinished)), settled.accounting, true);
    SameExposure(g, Release(w), accounted, c, 0 - Weight(w.r.lease, c));
    ChargeSound(g, accounted, settled.usage, c, 0 - Weight(w.r.lease, c));
  }

  lemma ActSound(g: Gateway, x: Extractor, w: Work, e: Event, c: Case)
    requires Sound(g, w.shared, c, 0) && Conforms(g, w.r)
    ensures Sound(g, Act(g, x, w, e).shared, c, 0)
  {
    var phase := w.r.phase;
    if !phase.Done? {
      match e
      case ConnectFails =>
        SelectMeaning(g, w);
        FailSound(g, w, c);
      case TransportFails => FailSound(g, w, c);
      case Crashes => ReleaseSound(g, Move(w, Done(Crashed)), c, 0);
      case Responds(status, body) => ReturnSound(g, w, status, body, c);
      case Opens(status) => GotStatusSound(g, w, status, c);
      case Ends(ending, closes) =>
        if phase.StreamingBody? {
          EndStreamSound(g, w, Settle(phase.st, phase.gone, ending, w.r.status.value, g.maxBuffer, x), c);
        }
      case Cancels => ReleaseSound(g, Move(w, Done(Crashed)), c, 0);
      case _ =>
    }
  }

  lemma TickSound(g: Gateway, s: Shared, seconds: real, c: Case)
    requires Sound(g, s, c, 0)
    ensures seconds >= 0.0 ==> Sound(g, s.(clock := s.clock + seconds), c, 0)
  {
    if seconds >= 0.0 {
      TickExposure(s, seconds, c);
    }
  }

  lemma StepSound(g: Gateway, x: Extractor, s: System, a: Action, c: Case)
    requires Sound(g, s.shared, c, 0) && AllConform(g, s) && WellHeld(s.shared.log, c.key)
    ensures Sound(g, Apply(g, x, s, a).shared, c, 0)
  {
    match a
    case Tick(seconds) => TickSound(g, s.shared, seconds, c);
    case HealthChanges(_, _) =>
    case Arrives(id, lease, streaming) =>
      if id !in s.requests && Routable(g, lease.model) {
        ArriveSound(g, s.shared, lease, streaming, c);
      }
    case Happens(id, e) =>
      if id in s.requests {
        ActSound(g, x, Work(s.shared, s.requests[id]), e, c);
      }
  }

  lemma KeyLeasesAreModelLeases(
    g: Gateway, x: Extractor, clock: real, health: map<string, Health>, run: seq<Action>, key: Key)
    ensures WellHeld(Run(g, x, Start(clock, health), run).shared.log, key)
  {
    LeasesAccountedFor(g, x, clock, health, run, OfKey(key));
    LeasesAccountedFor(g, x, clock, health, run, OfModel(key.model));
    KeyHoldersHoldModel(Run(g, x, Start(clock, health), run).requests, key);
  }

  lemma KeyHoldersHoldModel(requests: map<nat, Request>, key: Key)
    ensures Count(requests, Holding(OfKey(key))) <= Count(requests, Holding(OfModel(key.model)))
  {
    var ofKey, ofModel := Matching(requests, Holding(OfKey(key))), Matching(requests, Holding(OfModel(key.model)));
    forall id <- ofKey ensures id in ofModel {
      var r := requests[id];
      assert Holding(OfKey(key))(r);
      assert OfKey(key)(r.lease) && KeyOf(r.lease) == key;
      assert OfModel(key.model)(r.lease);
      assert Holding(OfModel(key.model))(r);
    }
    SubsetSize(ofKey, ofModel);
  }

  lemma {:induction false} EveryRunIsSound(
    g: Gateway, x: Extractor, clock: real, health: map<string, Health>, run: seq<Action>, c: Case)
    requires c.bound >= 0
    ensures Sound(g, Run(g, x, Start(clock, health), run).shared, c, 0)
  {
    if run != [] {
      var before := run[..|run| - 1];
      EveryRunIsSound(g, x, clock, health, before, c);
      EveryRequestConforms(g, x, clock, health, before);
      KeyLeasesAreModelLeases(g, x, clock, health, before, c.key);
      StepSound(g, x, Run(g, x, Start(clock, health), before), run[|run| - 1], c);
    }
  }

  /** In every run the calls arrive in clock order, which is what the controller asks for to answer
      exactly, and each acquisition is answered as the history before it calls for. */
  lemma RunsAreInClockOrder(g: Gateway, x: Extractor, clock: real, health: map<string, Health>, run: seq<Action>)
    ensures var s := Run(g, x, Start(clock, health), run).shared;
            InClockOrder(s.log) && NotBefore(s.clock, s.log) && AllAnswered(g.admission, s.log)
  {
    EveryRunIsSound(g, x, clock, health, run, Case(Key("", ""), 0.0, 0, 0));
  }

  /** The overspend bound: with budget B, at most D requests let through at once, and no charge
      above C, the tokens in the window never exceed B - 1 + D * C, at any moment of any run and at any later time
      before the next step. Leaked leases count as requests in flight for ever. */
  lemma OverspendBound(
    g: Gateway, x: Extractor, clock: real, health: map<string, Health>, run: seq<Action>, key: Key, most: nat, t: real)
    requires Bounds(g.admission) && g.admission.enabled
    requires BudgetOf(g.admission.tokenBudgets, key).Some? && Ceiling(g.admission, key).Some?
    requires ChargesAtMost(Run(g, x, Start(clock, health), run).shared.log, key, most)
    requires t >= Run(g, x, Start(clock, health), run).shared.clock
    ensures Spent(g.admission, Run(g, x, Start(clock, health), run).shared.log, t, key) <=
            BudgetOf(g.admission.tokenBudgets, key).value.maxTokens - 1
            + Ceiling(g.admission, key).value * most
  {
    var s := Run(g, x, Start(clock, health), run).shared;
    var budget, limit := BudgetOf(g.admission.tokenBudgets, key).value, Ceiling(g.admission, key).value;
    var c := Case(key, budget.window, most, budget.maxTokens - 1 + limit * most);
    AtMostTimes(0, limit, most);
    EveryRunIsSound(g, x, clock, health, run, c);
    LeasesAccountedFor(g, x, clock, health, run, OfKey(key));
    AtMostTimes(0, Outstanding(s.log, OfKey(key)), most);
    TokenEventsPositive(s.log, key);
    WindowOnlyEmpties(TokenEvents(s.log, key), s.clock, t, c.window);
  }

  /** No concurrency limit is ever exceeded by the requests that hold leases. */
  lemma LimitsHoldInEveryRun(
    g: Gateway, x: Extractor, clock: real, health: map<string, Health>, run: seq<Action>, model: string, key: Key)
    requires Bounds(g.admission)
    ensures var s := Run(g, x, Start(clock, health), run);
            && (model in g.admission.globalLimits ==>
                  Count(s.requests, Holding(OfModel(model))) <= g.admission.globalLimits[model])
            && (LimitOf(g.admission.departmentLimits, key).Some? ==>
                  Count(s.requests, Holding(OfKey(key))) <= LimitOf(g.admission.departmentLimits, key).value)
  {
    EveryRunIsSound(g, x, clock, health, run, Case(key, 0.0, 0, 0));
    LeasesAccountedFor(g, x, clock, health, run, OfModel(model));
    LeasesAccountedFor(g, x, clock, health, run, OfKey(key));
    LimitsHold(g.admission, Run(g, x, Start(clock, health), run).shared.log, model, key);
  }

  // ------------------------------------------------------------------ output caps alone do not bound

  /** A key with a budget of 10 tokens and one request at a time. */
  function SmallGateway(key: Key, pool: seq<Upstream>): Gateway {
    Gateway(
      Admission(true, 30, map[], [DepartmentLimit(key, 1)], [TokenBudget(key, 10, 60.0)],
                map[key.model := ShapeLimit(None, Some(1), true)], RetryGuard(false, 60.0, 10, 30.0)),
      map[key.model := pool], 1024)
  }

  /** One request with a long prompt, answered with a single token. */
  function LongPrompt(lease: Lease): seq<Action> {
    [Arrives(0, lease, false), Happens(0, Responds(200, Usable(Some((100, 1)))))]
  }

  lemma LongPromptIsAdmitted(lease: Lease, u: Upstream)
    ensures var g := SmallGateway(KeyOf(lease), [u]);
            var start := Start(0.0, map[u.name := Health(true, None, None, None, None)]);
            var w := Arrive(g, start.shared, lease, false);
            && w.shared.clock == 0.0 && w.shared.log == [Acquired(0.0, KeyOf(lease), Admitted(lease))]
            && w.r.lease == lease && w.r.leased && !w.r.streaming && w.r.phase.Attempting?
  {
    var g := SmallGateway(KeyOf(lease), [u]);
    var health := map[u.name := Health(true, None, None, None, None)];
    var w := Admit(g, Start(0.0, health).shared, lease, false);
    assert w.shared.log == [Acquired(0.0, KeyOf(lease), Admitted(lease))];
    SelectMeaning(g, w);
    assert [u][0] == u;
    assert u.name in Failover.HealthyNames([u], health) - {};
  }

  lemma ReturnCharges(w: Work, usage: Usage)
    requires w.r.leased
    ensures Return(w, 200, Usable(Some(usage))).shared.log ==
            w.shared.log + [Recorded(w.shared.clock, KeyOf(w.r.lease), usage.0 + usage.1), Released(w.r.lease)]
  {
  }

  lemma TwoSteps(g: Gateway, x: Extractor, start: System, a: Action, b: Action)
    ensures Run(g, x, start, [a, b]) == Apply(g, x, Apply(g, x, start, a), b)
  {
    assert [a, b][..1] == [a] && [a][..0] == [];
    assert Run(g, x, start, [a]) == Apply(g, x, Run(g, x, start, []), a);
  }

  lemma ChargeIsSpent(key: Key, lease: Lease)
    ensures TokenEvents([Acquired(0.0, key, Admitted(lease)), Recorded(0.0, key, 101), Released(lease)], key) ==
            [TokenEvent(0.0, 101)]
  {
    var log := [Acquired(0.0, key, Admitted(lease)), Recorded(0.0, key, 101), Released(lease)];
    assert log[..2][..1] == [Acquired(0.0, key, Admitted(lease))] && log[..2][1] == Recorded(0.0, key, 101);
    assert TokenEvents(log[..2][..1], key) == [];
    assert TokenEvents(log[..2], key) == [TokenEvent(0.0, 101)];
  }

  lemma LongPromptLog(x: Extractor, lease: Lease, u: Upstream)
    ensures var g := SmallGateway(KeyOf(lease), [u]);
            var start := Start(0.0, map[u.name := Health(true, None, None, None, None)]);
            Run(g, x, start, LongPrompt(lease)).shared.log ==
            [Acquired(0.0, KeyOf(lease), Admitted(lease)), Recorded(0.0, KeyOf(lease), 101), Released(lease)]
  {
    var g := SmallGateway(KeyOf(lease), [u]);
    var start := Start(0.0, map[u.name := Health(true, None, None, None, None)]);
    LongPromptIsAdmitted(lease, u);
    var w := Arrive(g, start.shared, lease, false);
    var answer := Responds(200, Usable(Some((100, 1))));
    TwoSteps(g, x, start, Arrives(0, lease, false), Happens(0, answer));
    assert Apply(g, x, start, Arrives(0, lease, false)) == Put(w, 0, map[]);
    assert Apply(g, x, Put(w, 0, map[]), Happens(0, answer)).shared == Act(g, x, w, answer).shared;
    ReturnCharges(w, (100, 1));
  }

  /** Capping the output at one token does not bound the overspending by one token per request:
      the prompt is charged as well. */
  lemma OutputCapDoesNotBound(x: Extractor, lease: Lease, u: Upstream)
    ensures var g := SmallGateway(KeyOf(lease), [u]);
            var start := Start(0.0, map[u.name := Health(true, None, None, None, None)]);
            Spent(g.admission, Run(g, x, start, LongPrompt(lease)).shared.log, 0.0, KeyOf(lease)) == 101 > 10 + 1 * 1
  {
    LongPromptLog(x, lease, u);
    ChargeIsSpent(KeyOf(lease), lease);
    SpentOnce(SmallGateway(KeyOf(lease), [u]).admission,
              [Acquired(0.0, KeyOf(lease), Admitted(lease)), Recorded(0.0, KeyOf(lease), 101), Released(lease)],
              KeyOf(lease));
  }

  lemma SpentOnce(cfg: Admission, log: seq<Call>, key: Key)
    requires cfg.tokenBudgets == [TokenBudget(key, 10, 60.0)] && TokenEvents(log, key) == [TokenEvent(0.0, 101)]
    ensures Spent(cfg, log, 0.0, key) == 101
  {
    assert SumWithin([TokenEvent(0.0, 101)][..0], 0.0, 60.0) == 0;
  }
}
