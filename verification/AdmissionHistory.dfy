/** What the admission controller should answer, as a function of everything that was ever asked
    of it. The history keeps every call with its clock reading; nothing is pruned, totalled
    incrementally or cleared. */
module AdmissionHistory {
  import opened Options
  import opened Counters
  import opened AdmissionConfig
  import opened RetryGuardHistory

  datatype Lease = Lease(department: string, model: string, endpoint: string)

  datatype Reason = RetryGuardOpen | ModelConcurrency | DepartmentModelConcurrency | TokenBudgetSpent

  /** `Unlimited` is the answer of a disabled controller, which hands out no lease. */
  datatype Verdict =
    | Unlimited
    | Admitted(lease: Lease)
    | Rejected(reason: Reason, retryAfter: int)

  datatype Call =
    | Acquired(at: real, key: Key, verdict: Verdict)
    | Released(lease: Lease)
    | Recorded(at: real, key: Key, tokens: int)
    | Retried(at: real, key: Key)

  datatype TokenEvent = TokenEvent(at: real, tokens: int)

  function Snoc<T>(s: seq<T>, x: T): (r: seq<T>)
    ensures r == s + [x] && r[..|s|] == s && |r| == |s| + 1 && r[|s|] == x
  {
    s + [x]
  }

  function KeyOf(lease: Lease): Key {
    Key(lease.department, lease.model)
  }

  // ------------------------------------------------------------------ leases

  function OfModel(model: string): Lease -> bool {
    (l: Lease) => l.model == model
  }

  function OfKey(key: Key): Lease -> bool {
    (l: Lease) => KeyOf(l) == key
  }

  function Exactly(lease: Lease): Lease -> bool {
    (l: Lease) => l == lease
  }

  /** Leases granted so far that satisfy `q`, minus those released. */
  function Outstanding(log: seq<Call>, q: Lease -> bool): int {
    if log == [] then 0
    else
      var before := Outstanding(log[..|log| - 1], q);
      match log[|log| - 1]
      case Acquired(_, _, Admitted(lease)) => before + if q(lease) then 1 else 0
      case Released(lease) => before - if q(lease) then 1 else 0
      case _ => before
  }

  /** The same count with every release floored at zero, which is how the counters behave. */
  function Active(log: seq<Call>, q: Lease -> bool): nat {
    if log == [] then 0
    else
      var before := Active(log[..|log| - 1], q);
      match log[|log| - 1]
      case Acquired(_, _, Admitted(lease)) => before + if q(lease) then 1 else 0
      case Released(lease) => if q(lease) && before > 0 then before - 1 else before
      case _ => before
  }

  /** No prefix of the history releases more leases of this kind than it granted. */
  ghost predicate Bracketed(log: seq<Call>, q: Lease -> bool) {
    forall n | 0 <= n <= |log| :: Outstanding(log[..n], q) >= 0
  }

  /** On a bracketed history the floor at zero is never reached. */
  lemma {:induction false} ClampsNeverFire(log: seq<Call>, q: Lease -> bool)
    requires Bracketed(log, q)
    ensures Active(log, q) == Outstanding(log, q)
  {
    if log != [] {
      var before := log[..|log| - 1];
      assert forall n | 0 <= n <= |before| :: log[..n] == before[..n];
      assert Outstanding(log[..|log|], q) >= 0 && log[..|log|] == log;
      ClampsNeverFire(before, q);
    }
  }

  // ------------------------------------------------------------------ tokens

  /** The token records of one key, oldest call first. */
  function TokenEvents(log: seq<Call>, key: Key): seq<TokenEvent> {
    if log == [] then []
    else
      var before := TokenEvents(log[..|log| - 1], key);
      match log[|log| - 1]
      case Recorded(at, k, tokens) => if k == key && tokens > 0 then before + [TokenEvent(at, tokens)] else before
      case _ => before
  }

  function SumAll(events: seq<TokenEvent>): int {
    if events == [] then 0 else events[0].tokens + SumAll(events[1..])
  }

  /** The tokens recorded at most `window` before `now`. */
  function SumWithin(events: seq<TokenEvent>, now: real, window: real): int {
    if events == [] then 0
    else (if now - events[0].at <= window then events[0].tokens else 0) + SumWithin(events[1..], now, window)
  }

  ghost predicate Positive(events: seq<TokenEvent>) {
    forall i | 0 <= i < |events| :: events[i].tokens > 0
  }

  lemma {:induction false} TokenEventsPositive(log: seq<Call>, key: Key)
    ensures Positive(TokenEvents(log, key))
  {
    if log != [] {
      TokenEventsPositive(log[..|log| - 1], key);
    }
  }

  lemma {:induction false} SumAllConcat(a: seq<TokenEvent>, b: seq<TokenEvent>)
    ensures SumAll(a + b) == SumAll(a) + SumAll(b)
  {
    if a == [] {
      assert a + b == b;
    } else {
      assert (a + b)[1..] == a[1..] + b;
      SumAllConcat(a[1..], b);
    }
  }

  lemma {:induction false} SumWithinConcat(a: seq<TokenEvent>, b: seq<TokenEvent>, now: real, window: real)
    ensures SumWithin(a + b, now, window) == SumWithin(a, now, window) + SumWithin(b, now, window)
  {
    if a == [] {
      assert a + b == b;
    } else {
      assert (a + b)[1..] == a[1..] + b;
      SumWithinConcat(a[1..], b, now, window);
    }
  }

  lemma {:induction false} SumWithinBounds(events: seq<TokenEvent>, now: real, window: real)
    requires Positive(events)
    ensures 0 <= SumWithin(events, now, window) <= SumAll(events)
  {
    if events != [] {
      SumWithinBounds(events[1..], now, window);
    }
  }

  /** A stretch of events that is stale as a whole adds nothing; one that is live as a whole adds
      everything. */
  lemma {:induction false} StaleOrLive(events: seq<TokenEvent>, now: real, window: real)
    ensures (forall i | 0 <= i < |events| :: now - events[i].at > window) ==> SumWithin(events, now, window) == 0
    ensures (forall i | 0 <= i < |events| :: now - events[i].at <= window) ==>
              SumWithin(events, now, window) == SumAll(events)
  {
    if events != [] {
      var rest := events[1..];
      assert forall i | 0 <= i < |rest| :: rest[i] == events[i + 1];
      StaleOrLive(rest, now, window);
    }
  }

  /** As the clock moves on, tokens only leave the window. */
  lemma {:induction false} WindowOnlyEmpties(events: seq<TokenEvent>, now: real, later: real, window: real)
    requires Positive(events) && now <= later
    ensures SumWithin(events, later, window) <= SumWithin(events, now, window)
  {
    if events != [] {
      WindowOnlyEmpties(events[1..], now, later, window);
    }
  }

  // ------------------------------------------------------------------ clock readings

  predicate Timed(c: Call) {
    !c.Released?
  }

  /** `t` is no earlier than any clock reading in the history. */
  ghost predicate NotBefore(t: real, log: seq<Call>) {
    forall i | 0 <= i < |log| && Timed(log[i]) :: log[i].at <= t
  }

  /** The calls arrived in the order in which they read the clock. */
  ghost predicate InClockOrder(log: seq<Call>) {
    forall i, j | 0 <= i < j < |log| && Timed(log[i]) && Timed(log[j]) :: log[i].at <= log[j].at
  }

  ghost predicate EventsInOrder(events: seq<TokenEvent>) {
    forall i, j | 0 <= i < j < |events| :: events[i].at <= events[j].at
  }

  lemma {:induction false} EventsFollowClock(log: seq<Call>, key: Key, t: real)
    requires InClockOrder(log) && NotBefore(t, log)
    ensures EventsInOrder(TokenEvents(log, key))
    ensures forall e <- TokenEvents(log, key) :: e.at <= t
  {
    if log != [] {
      var before, last := log[..|log| - 1], log[|log| - 1];
      EventsFollowClock(before, key, if Timed(last) then last.at else t);
    }
  }

  // ------------------------------------------------------------------ the in-flight gauge

  /** The gauge a history of grants and releases leads to. */
  ghost function GaugeOf(log: seq<Call>): Counter<Lease> {
    if log == [] then map[]
    else
      var before := GaugeOf(log[..|log| - 1]);
      match log[|log| - 1]
      case Acquired(_, _, Admitted(lease)) => Add(before, lease, 1)
      case Released(lease) => Add(before, lease, -1)
      case _ => before
  }

  /** Summed over any kind of lease, the gauge counts what is outstanding. */
  lemma {:induction false} GaugeSumsUp(log: seq<Call>, q: Lease -> bool)
    ensures Total(GaugeOf(log), q) == Outstanding(log, q)
  {
    if log != [] {
      var before := log[..|log| - 1];
      GaugeSumsUp(before, q);
      match log[|log| - 1]
      case Acquired(_, _, Admitted(lease)) => TotalAdd(GaugeOf(before), lease, 1, q);
      case Released(lease) => TotalAdd(GaugeOf(before), lease, -1, q);
      case _ =>
    }
  }

  lemma {:induction false} GaugeAt(log: seq<Call>, lease: Lease)
    ensures Get(GaugeOf(log), lease) == Outstanding(log, Exactly(lease))
  {
    if log != [] {
      GaugeAt(log[..|log| - 1], lease);
    }
  }

  /** A gauge that agrees with the history label by label agrees with it in every sum. */
  lemma GaugeTotals(gauge: Counter<Lease>, log: seq<Call>, q: Lease -> bool)
    requires forall l :: Get(gauge, l) == Outstanding(log, Exactly(l))
    ensures Total(gauge, q) == Outstanding(log, q)
  {
    forall l ensures Get(gauge, l) == Get(GaugeOf(log), l) {
      GaugeAt(log, l);
    }
    SameValuesSameTotal(gauge, GaugeOf(log), q);
    GaugeSumsUp(log, q);
  }

  // ------------------------------------------------------------------ retry events

  function RetryTimes(log: seq<Call>, key: Key): seq<real> {
    if log == [] then []
    else
      var before := RetryTimes(log[..|log| - 1], key);
      match log[|log| - 1]
      case Retried(at, k) => if k == key then before + [at] else before
      case _ => before
  }

  /** The end of the cooldown of a key; a disabled guard never opens. */
  function CooldownEnd(cfg: Admission, log: seq<Call>, key: Key): real {
    if cfg.enabled && cfg.guard.enabled then After(cfg.guard, RetryTimes(log, key)).openUntil else 0.0
  }

  // ------------------------------------------------------------------ the decision

  /** The answer if it does not depend on the budget. */
  function AnswerBeforeBudget(
    cfg: Admission, cooldownEnd: real, ofModel: int, ofKey: int, now: real, lease: Lease): Option<Verdict>
  {
    var limit := LimitOf(cfg.departmentLimits, KeyOf(lease));
    if !cfg.enabled then
      Some(Unlimited)
    else if cooldownEnd > now then
      Some(Rejected(RetryGuardOpen, RetryAfter(cooldownEnd - now)))
    else if lease.model in cfg.globalLimits && ofModel >= cfg.globalLimits[lease.model] then
      Some(Rejected(ModelConcurrency, cfg.defaultRetryAfter))
    else if limit.Some? && ofKey >= limit.value then
      Some(Rejected(DepartmentModelConcurrency, cfg.defaultRetryAfter))
    else
      None
  }

  /** The answer to an acquisition, given the end of the cooldown, the active requests of the
      model and of the key, and the tokens spent in the budget window. */
  function Answer(
    cfg: Admission, cooldownEnd: real, ofModel: int, ofKey: int, spent: int, now: real, lease: Lease): Verdict
  {
    var early := AnswerBeforeBudget(cfg, cooldownEnd, ofModel, ofKey, now, lease);
    var budget := BudgetOf(cfg.tokenBudgets, KeyOf(lease));
    if early.Some? then
      early.value
    else if budget.Some? && spent >= budget.value.maxTokens then
      Rejected(TokenBudgetSpent, cfg.defaultRetryAfter)
    else
      Admitted(lease)
  }

  /** The answer that the history calls for if `spent` tokens count against the budget. */
  function DecideGiven(cfg: Admission, log: seq<Call>, spent: int, now: real, lease: Lease): Verdict {
    Answer(cfg, CooldownEnd(cfg, log, KeyOf(lease)), Active(log, OfModel(lease.model)),
           Active(log, OfKey(KeyOf(lease))), spent, now, lease)
  }

  /** The tokens of a key inside its budget window, over the whole history. */
  function Spent(cfg: Admission, log: seq<Call>, now: real, key: Key): int {
    match BudgetOf(cfg.tokenBudgets, key)
    case Some(b) => SumWithin(TokenEvents(log, key), now, b.window)
    case None => 0
  }

  /** The answer that the whole history calls for. */
  function Decide(cfg: Admission, log: seq<Call>, now: real, lease: Lease): Verdict {
    DecideGiven(cfg, log, Spent(cfg, log, now, KeyOf(lease)), now, lease)
  }

  /** When the cooldown of a key ends, by its retry events; a disabled guard has none. */
  ghost predicate CooldownOf(cfg: Admission, log: seq<Call>, key: Key, end: real) {
    if cfg.guard.enabled then CooldownEnds(cfg.guard, RetryTimes(log, key), end) else end == 0.0
  }

  predicate Refuses(verdict: Verdict, reason: Reason) {
    verdict.Rejected? && verdict.reason == reason
  }

  /** The concurrency limit of the model is reached. */
  predicate ModelFull(cfg: Admission, log: seq<Call>, model: string) {
    model in cfg.globalLimits && Active(log, OfModel(model)) >= cfg.globalLimits[model]
  }

  /** The concurrency limit of the key is reached. */
  predicate KeyFull(cfg: Admission, log: seq<Call>, key: Key) {
    exists l <- cfg.departmentLimits ::
      LimitOf(cfg.departmentLimits, key) == Some(l.maxActive) && Active(log, OfKey(key)) >= l.maxActive
  }

  predicate BudgetReached(cfg: Admission, key: Key, spent: int) {
    BudgetOf(cfg.tokenBudgets, key).Some? && spent >= BudgetOf(cfg.tokenBudgets, key).value.maxTokens
  }

  /** What a verdict has to be, reason by reason: the first obstacle in the order guard, model, key,
      budget is the reason. While the guard is open for `left` more seconds, the whole seconds left
      are sent, at least one; any other refusal sends the default. */
  ghost predicate NamesFirstObstacle(
    cfg: Admission, left: real, model: bool, key: bool, budget: bool, lease: Lease, verdict: Verdict)
  {
    var closed := left <= 0.0;
    && (Refuses(verdict, RetryGuardOpen) <==> !closed)
    && (Refuses(verdict, ModelConcurrency) <==> closed && model)
    && (Refuses(verdict, DepartmentModelConcurrency) <==> closed && !model && key)
    && (Refuses(verdict, TokenBudgetSpent) <==> closed && !model && !key && budget)
    && (verdict == Admitted(lease) <==> closed && !model && !key && !budget)
    && (Refuses(verdict, RetryGuardOpen) ==>
          verdict.retryAfter >= 1 && left - 1.0 < verdict.retryAfter as real <= if left > 1.0 then left else 1.0)
    && (verdict.Rejected? && verdict.reason != RetryGuardOpen ==> verdict.retryAfter == cfg.defaultRetryAfter)
  }

  /** The verdict fits the history, if the cooldown of the key ends at `end` and `spent` tokens count
      against its budget. */
  ghost predicate JustifiedBy(
    cfg: Admission, log: seq<Call>, end: real, spent: int, now: real, lease: Lease, verdict: Verdict)
  {
    NamesFirstObstacle(
      cfg, end - now, ModelFull(cfg, log, lease.model), KeyFull(cfg, log, KeyOf(lease)),
      BudgetReached(cfg, KeyOf(lease), spent), lease, verdict)
  }

  ghost predicate Justified(cfg: Admission, log: seq<Call>, spent: int, now: real, lease: Lease, verdict: Verdict) {
    if !cfg.enabled then verdict == Unlimited
    else exists end :: CooldownOf(cfg, log, KeyOf(lease), end) && JustifiedBy(cfg, log, end, spent, now, lease, verdict)
  }

  /** The verdict is the one that the history calls for if `total` tokens count against the budget;
      with clock readings in order it is the one called for by what was spent in the window. It is
      justified in either case. */
  ghost predicate AnswersHistory(
    cfg: Admission, log: seq<Call>, total: int, now: real, lease: Lease, verdict: Verdict)
  {
    && verdict == DecideGiven(cfg, log, total, now, lease)
    && Justified(cfg, log, total, now, lease, verdict)
    && (InClockOrder(log) && NotBefore(now, log) ==>
          verdict == Decide(cfg, log, now, lease)
          && Justified(cfg, log, Spent(cfg, log, now, KeyOf(lease)), now, lease, verdict))
  }

  lemma DecisionAnswersHistory(cfg: Admission, log: seq<Call>, total: int, now: real, lease: Lease, verdict: Verdict)
    requires Bounds(cfg) && verdict == DecideGiven(cfg, log, total, now, lease)
    requires InClockOrder(log) && NotBefore(now, log) ==> verdict == Decide(cfg, log, now, lease)
    ensures AnswersHistory(cfg, log, total, now, lease, verdict)
    ensures verdict.Admitted? ==> verdict.lease == lease && HasRoom(cfg, log, lease)
  {
    AnswerIsJustified(cfg, log, total, now, lease);
    AnswerIsJustified(cfg, log, Spent(cfg, log, now, KeyOf(lease)), now, lease);
    if verdict.Admitted? {
      AdmittedHasRoom(cfg, log, total, now, lease);
    }
  }

  lemma AnswerFits(
    cfg: Admission, cooldownEnd: real, ofModel: int, ofKey: int, spent: int, now: real, lease: Lease)
    requires cfg.enabled
    ensures var limit := LimitOf(cfg.departmentLimits, KeyOf(lease));
            NamesFirstObstacle(
              cfg, cooldownEnd - now, lease.model in cfg.globalLimits && ofModel >= cfg.globalLimits[lease.model],
              limit.Some? && ofKey >= limit.value, BudgetReached(cfg, KeyOf(lease), spent), lease,
              Answer(cfg, cooldownEnd, ofModel, ofKey, spent, now, lease))
  {
    if cooldownEnd > now {
      RetryAfterBounds(cooldownEnd - now);
    }
  }

  /** The answer is justified by the history alone. */
  lemma AnswerIsJustified(cfg: Admission, log: seq<Call>, spent: int, now: real, lease: Lease)
    requires Bounds(cfg)
    ensures Justified(cfg, log, spent, now, lease, DecideGiven(cfg, log, spent, now, lease))
  {
    if cfg.enabled {
      var key := KeyOf(lease);
      var end := CooldownEnd(cfg, log, key);
      CooldownEndsThere(cfg.guard, RetryTimes(log, key));
      assert CooldownOf(cfg, log, key, end);
      KeyLimitReached(cfg, log, key);
      AnswerFits(cfg, end, Active(log, OfModel(lease.model)), Active(log, OfKey(key)), spent, now, lease);
      assert JustifiedBy(cfg, log, end, spent, now, lease, DecideGiven(cfg, log, spent, now, lease));
    }
  }

  lemma KeyLimitReached(cfg: Admission, log: seq<Call>, key: Key)
    ensures KeyFull(cfg, log, key) <==>
              var limit := LimitOf(cfg.departmentLimits, key); limit.Some? && Active(log, OfKey(key)) >= limit.value
  {
    var limit := LimitOf(cfg.departmentLimits, key);
    if limit.Some? {
      assert DepartmentLimit(key, limit.value) in cfg.departmentLimits;
    }
  }

  /** There is only one justified answer. */
  lemma JustifiedIsUnique(cfg: Admission, log: seq<Call>, spent: int, now: real, lease: Lease, a: Verdict, b: Verdict)
    requires Justified(cfg, log, spent, now, lease, a) && Justified(cfg, log, spent, now, lease, b)
    ensures a == b
  {
  }

  /** A request of a key without retry events is refused by the guard exactly when the clock is
      below zero: a missing cooldown counts as one that ended at time zero. */
  lemma ColdClockIff(cfg: Admission, log: seq<Call>, now: real, lease: Lease)
    requires cfg.enabled && RetryTimes(log, KeyOf(lease)) == []
    ensures (exists r :: Decide(cfg, log, now, lease) == Rejected(RetryGuardOpen, r)) <==> now < 0.0
  {
    if now < 0.0 {
      assert Decide(cfg, log, now, lease) == Rejected(RetryGuardOpen, RetryAfter(0.0 - now));
    }
  }

  /** Both concurrency limits that apply to this lease have room. */
  predicate HasRoom(cfg: Admission, log: seq<Call>, lease: Lease) {
    var limit := LimitOf(cfg.departmentLimits, KeyOf(lease));
    && (lease.model in cfg.globalLimits ==> Active(log, OfModel(lease.model)) < cfg.globalLimits[lease.model])
    && (limit.Some? ==> Active(log, OfKey(KeyOf(lease))) < limit.value)
  }

  /** Every lease in the history was granted while there was room for it. */
  ghost predicate GrantedWithRoom(cfg: Admission, log: seq<Call>) {
    forall i | 0 <= i < |log| && log[i].Acquired? && log[i].verdict.Admitted? ::
      HasRoom(cfg, log[..i], log[i].verdict.lease)
  }

  /** The lease an acquisition asked for; for a refused one the endpoint, which has no influence on
      the answer, is left blank. */
  function Wanted(c: Call): Lease
    requires c.Acquired?
  {
    if c.verdict.Admitted? then c.verdict.lease else Lease(c.key.department, c.key.model, "")
  }

  /** The acquisition was answered as the history before it calls for. */
  ghost predicate AnsweredFrom(cfg: Admission, before: seq<Call>, c: Call)
    requires c.Acquired?
  {
    KeyOf(Wanted(c)) == c.key && c.verdict == Decide(cfg, before, c.at, Wanted(c))
  }

  ghost predicate AllAnswered(cfg: Admission, log: seq<Call>) {
    forall i | 0 <= i < |log| && log[i].Acquired? :: AnsweredFrom(cfg, log[..i], log[i])
  }

  lemma AnsweredSnoc(cfg: Admission, log: seq<Call>, c: Call)
    requires AllAnswered(cfg, log) && (c.Acquired? ==> AnsweredFrom(cfg, log, c))
    ensures AllAnswered(cfg, Snoc(log, c))
  {
    var after := Snoc(log, c);
    forall i | 0 <= i < |after| && after[i].Acquired? ensures AnsweredFrom(cfg, after[..i], after[i]) {
      assert after[..i] == log[..i];
      assert i == |log| ==> log[..i] == log;
    }
  }

  lemma AdmittedHasRoom(cfg: Admission, log: seq<Call>, spent: int, now: real, lease: Lease)
    requires DecideGiven(cfg, log, spent, now, lease).Admitted?
    ensures HasRoom(cfg, log, lease) && DecideGiven(cfg, log, spent, now, lease).lease == lease
  {
  }

  lemma GrantedSnoc(cfg: Admission, log: seq<Call>, c: Call)
    requires GrantedWithRoom(cfg, log)
    requires c.Acquired? && c.verdict.Admitted? ==> HasRoom(cfg, log, c.verdict.lease)
    ensures GrantedWithRoom(cfg, Snoc(log, c))
  {
    var after := Snoc(log, c);
    forall i | 0 <= i < |after| && after[i].Acquired? && after[i].verdict.Admitted?
      ensures HasRoom(cfg, after[..i], after[i].verdict.lease)
    {
      assert after[..i] == log[..i];
      assert i == |log| ==> log[..i] == log;
    }
  }

  /** No concurrency limit is ever exceeded, however often a lease is released. */
  lemma {:induction false} LimitsHold(cfg: Admission, log: seq<Call>, model: string, key: Key)
    requires Bounds(cfg) && GrantedWithRoom(cfg, log)
    ensures model in cfg.globalLimits ==> Active(log, OfModel(model)) <= cfg.globalLimits[model]
    ensures LimitOf(cfg.departmentLimits, key).Some? ==>
              Active(log, OfKey(key)) <= LimitOf(cfg.departmentLimits, key).value
  {
    if log != [] {
      var before := log[..|log| - 1];
      assert forall i | 0 <= i < |before| :: before[..i] == log[..i];
      LimitsHold(cfg, before, model, key);
    }
  }
}
