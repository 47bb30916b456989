/** The admission controller: counters, pruned deques and running totals, proved to answer as the
    whole history of calls would. */
module AdmissionController {
  import opened Options
  import opened Counters
  import opened AdmissionConfig
  import opened RetryGuardHistory
  import opened AdmissionHistory

  function Lookup<V>(m: map<Key, V>, key: Key, default: V): V {
    if key in m then m[key] else default
  }

  function Clamp(n: int): nat {
    if n < 0 then 0 else n
  }

  /** Every one of these events is older than the window for every clock reading from now on. */
  ghost predicate Expired(events: seq<TokenEvent>, window: real, log: seq<Call>) {
    forall i, t | 0 <= i < |events| && NotBefore(t, log) :: t - events[i].at > window
  }

  ghost predicate Stale(events: seq<TokenEvent>, now: real, window: real) {
    forall i | 0 <= i < |events| :: now - events[i].at > window
  }

  /** Events that are stale for the reading of a call have expired once it joins the history. */
  lemma StaleHasExpired(expired: seq<TokenEvent>, stale: seq<TokenEvent>, window: real, log: seq<Call>, call: Call)
    requires Expired(expired, window, log)
    requires Timed(call) && Stale(stale, call.at, window)
    ensures Expired(expired + stale, window, Snoc(log, call))
  {
    var after := Snoc(log, call);
    ExpiredForGood(expired, window, log, call);
    forall i, t | 0 <= i < |expired + stale| && NotBefore(t, after) ensures t - (expired + stale)[i].at > window {
      assert after[|log|].at <= t;
    }
  }

  lemma ExpiredForGood(expired: seq<TokenEvent>, window: real, log: seq<Call>, call: Call)
    requires Expired(expired, window, log)
    ensures Expired(expired, window, Snoc(log, call))
  {
    forall t | NotBefore(t, Snoc(log, call)) ensures NotBefore(t, log) {
      assert forall i | 0 <= i < |log| :: Snoc(log, call)[i] == log[i];
    }
  }

  /** The retained total never falls short of the live window, in whatever order the clock
      readings arrived. */
  lemma NeverUndercounts(expired: seq<TokenEvent>, kept: seq<TokenEvent>, window: real, log: seq<Call>, t: real)
    requires Expired(expired, window, log) && Positive(expired + kept) && NotBefore(t, log)
    ensures SumWithin(expired + kept, t, window) <= SumAll(kept)
  {
    SumWithinConcat(expired, kept, t, window);
    StaleOrLive(expired, t, window);
    assert forall i | 0 <= i < |kept| :: kept[i] == (expired + kept)[|expired| + i];
    SumWithinBounds(kept, t, window);
  }

  /** After pruning, and with the clock in order, the retained total is the live window. */
  lemma ExactAfterPruning(expired: seq<TokenEvent>, kept: seq<TokenEvent>, window: real, now: real)
    requires Stale(expired, now, window) && EventsInOrder(expired + kept)
    requires kept != [] ==> now - kept[0].at <= window
    ensures SumWithin(expired + kept, now, window) == SumAll(kept)
  {
    SumWithinConcat(expired, kept, now, window);
    StaleOrLive(expired, now, window);
    assert forall i | 0 <= i < |kept| :: kept[i] == (expired + kept)[|expired| + i];
    StaleOrLive(kept, now, window);
  }

  /** The same for what the controller holds once the call that reads `now` has pruned. */
  lemma PrunedTotalIsSpent(
    log: seq<Call>, key: Key, expired: seq<TokenEvent>, dropped: seq<TokenEvent>, kept: seq<TokenEvent>,
    window: real, now: real)
    requires TokenEvents(log, key) == expired + (dropped + kept)
    requires Expired(expired, window, log) && Stale(dropped, now, window)
    requires kept != [] ==> now - kept[0].at <= window
    ensures InClockOrder(log) && NotBefore(now, log) ==> SumWithin(TokenEvents(log, key), now, window) == SumAll(kept)
  {
    if InClockOrder(log) && NotBefore(now, log) {
      EventsFollowClock(log, key, now);
      assert expired + (dropped + kept) == (expired + dropped) + kept;
      assert Stale(expired, now, window);
      ExactAfterPruning(expired + dropped, kept, window, now);
    }
  }

  lemma KeptSumIsNotNegative(log: seq<Call>, key: Key, expired: seq<TokenEvent>, kept: seq<TokenEvent>)
    requires TokenEvents(log, key) == expired + kept
    ensures SumAll(kept) >= 0
  {
    TokenEventsPositive(log, key);
    assert forall i | 0 <= i < |kept| :: kept[i] == (expired + kept)[|expired| + i];
    SumWithinBounds(kept, 0.0, 0.0);
  }

  method DropOldTokenEvents(events: seq<TokenEvent>, now: real, window: real)
    returns (kept: seq<TokenEvent>, removed: int, ghost dropped: seq<TokenEvent>)
    ensures events == dropped + kept
    ensures Stale(dropped, now, window)
    ensures kept != [] ==> now - kept[0].at <= window
    ensures removed == SumAll(events) - SumAll(kept)
  {
    kept, removed, dropped := events, 0, [];
    while kept != [] && now - kept[0].at > window
      invariant events == dropped + kept
      invariant Stale(dropped, now, window)
      invariant removed == SumAll(events) - SumAll(kept)
      decreases |kept|
    {
      removed, dropped := removed + kept[0].tokens, dropped + [kept[0]];
      kept := kept[1..];
    }
  }

  method DropOldRetryEvents(events: seq<real>, now: real, window: real)
    returns (kept: seq<real>, ghost dropped: seq<real>)
    ensures events == dropped + kept
    ensures AllOlder(dropped, now, window)
    ensures kept != [] ==> now - kept[0] <= window
  {
    kept, dropped := events, [];
    while kept != [] && now - kept[0] > window
      invariant events == dropped + kept
      invariant AllOlder(dropped, now, window)
      decreases |kept|
    {
      dropped, kept := dropped + [kept[0]], kept[1..];
    }
  }

  ghost predicate AllOlder(ts: seq<real>, now: real, window: real) {
    forall i | 0 <= i < |ts| :: now - ts[i] > window
  }

  lemma {:induction false} RecentConcat(a: seq<real>, b: seq<real>, now: real, window: real)
    ensures Recent(a + b, now, window) == Recent(a, now, window) + Recent(b, now, window)
  {
    if b == [] {
      assert a + b == a;
    } else {
      assert (a + b)[..|a + b| - 1] == a + b[..|b| - 1];
      RecentConcat(a, b[..|b| - 1], now, window);
    }
  }

  lemma {:induction false} RecentAllOrNone(ts: seq<real>, now: real, window: real)
    ensures AllOlder(ts, now, window) ==> Recent(ts, now, window) == 0
    ensures (forall i | 0 <= i < |ts| :: now - ts[i] <= window) ==> Recent(ts, now, window) == |ts|
  {
    if ts != [] {
      RecentAllOrNone(ts[..|ts| - 1], now, window);
    }
  }

  lemma TailInOrder(a: seq<real>, b: seq<real>)
    requires Nondecreasing(a + b)
    ensures Nondecreasing(b)
  {
    forall i, j | 0 <= i < j < |b| ensures b[i] <= b[j] {
      assert (a + b)[|a| + i] == b[i] && (a + b)[|a| + j] == b[j];
    }
  }

  /** Counting the pruned deque is counting the window. */
  lemma PrunedLengthIsRecent(expired: seq<real>, kept: seq<real>, now: real, window: real)
    requires AllOlder(expired, now, window) && Nondecreasing(expired + kept)
    requires kept != [] ==> now - kept[0] <= window
    ensures Recent(expired + kept, now, window) == |kept|
  {
    TailInOrder(expired, kept);
    RecentConcat(expired, kept, now, window);
    RecentAllOrNone(expired, now, window);
    RecentAllOrNone(kept, now, window);
  }

  /** An event outside the cooldown opens the guard exactly when it fills the pruned deque. */
  lemma FillingOpens(g: RetryGuard, s: Guard, expired: seq<real>, kept: seq<real>, now: real)
    requires GuardBounds(g) && s.openUntil <= now && s.pending == expired + kept && Nondecreasing(s.pending)
    requires AllOlder(expired, now, g.window) && (kept != [] ==> now - kept[0] <= g.window)
    ensures Opens(g, s, now) <==> |kept| + 1 >= g.maxEvents
  {
    PrunedLengthIsRecent(expired, kept, now, g.window);
    RecentSnoc(s.pending, now, now, g.window);
  }

  lemma LaterIsOrdered(times: seq<real>, now: real)
    requires Nondecreasing(times) && forall t <- times :: t <= now
    ensures Nondecreasing(times + [now])
  {
    assert forall i | 0 <= i < |times| :: times[i] in times;
  }

  /** The guard that these retry events lead to; a disabled guard stays as it was created. */
  function GuardState(cfg: Admission, times: seq<real>): Guard {
    if cfg.enabled && cfg.guard.enabled then After(cfg.guard, times) else Guard(0.0, [])
  }

  function Extra(more: Option<Lease>, q: Lease -> bool): nat {
    if more.Some? && q(more.value) then 1 else 0
  }

  /** What is kept of the token events of a key, and what has expired, add up to its history. */
  ghost predicate InStep(
    cfg: Admission, key: Key, kept: seq<TokenEvent>, expired: seq<TokenEvent>, total: int, log: seq<Call>)
  {
    var budget := BudgetOf(cfg.tokenBudgets, key);
    && total == SumAll(kept)
    && (cfg.enabled && budget.Some? ==>
          TokenEvents(log, key) == expired + kept && Expired(expired, budget.value.window, log))
  }

  /** The same with events that were dropped at `now` and do not count as expired yet. */
  ghost predicate InStepLess(
    cfg: Admission, key: Key, kept: seq<TokenEvent>, expired: seq<TokenEvent>, total: int, log: seq<Call>,
    dropped: seq<TokenEvent>, now: real)
  {
    var budget := BudgetOf(cfg.tokenBudgets, key);
    && total == SumAll(kept)
    && (cfg.enabled && budget.Some? ==>
          && TokenEvents(log, key) == expired + (dropped + kept)
          && Expired(expired, budget.value.window, log)
          && Stale(dropped, now, budget.value.window))
  }

  /** The key is in step with the history that `call` is about to join. */
  ghost predicate InStepWith(
    cfg: Admission, key: Key, kept: seq<TokenEvent>, expired: seq<TokenEvent>, total: int, log: seq<Call>,
    dropped: seq<TokenEvent>, call: Call)
  {
    var budget := BudgetOf(cfg.tokenBudgets, key);
    && total == SumAll(kept)
    && (Timed(call) || dropped == [])
    && (cfg.enabled && budget.Some? ==>
          && TokenEvents(Snoc(log, call), key) == expired + (dropped + kept)
          && Expired(expired, budget.value.window, log)
          && (Timed(call) ==> Stale(dropped, call.at, budget.value.window)))
  }

  /** A call that does not charge this key leaves it in step. */
  lemma OthersStayInStep(
    cfg: Admission, key: Key, kept: seq<TokenEvent>, expired: seq<TokenEvent>, total: int, log: seq<Call>, call: Call)
    requires InStep(cfg, key, kept, expired, total, log) && (call.Recorded? ==> call.key != key)
    ensures InStep(cfg, key, kept, expired, total, Snoc(log, call))
  {
    var budget := BudgetOf(cfg.tokenBudgets, key);
    if cfg.enabled && budget.Some? {
      ExpiredForGood(expired, budget.value.window, log, call);
    }
  }

  /** What a call dropped has expired once the call joins the history. */
  lemma JoiningKeepsStep(
    cfg: Admission, key: Key, kept: seq<TokenEvent>, expired: seq<TokenEvent>, total: int, log: seq<Call>,
    dropped: seq<TokenEvent>, call: Call)
    requires InStepWith(cfg, key, kept, expired, total, log, dropped, call)
    ensures InStep(cfg, key, kept, expired + dropped, total, Snoc(log, call))
  {
    var budget := BudgetOf(cfg.tokenBudgets, key);
    if cfg.enabled && budget.Some? {
      assert expired + (dropped + kept) == (expired + dropped) + kept;
      if Timed(call) {
        StaleHasExpired(expired, dropped, budget.value.window, log, call);
      } else {
        ExpiredForGood(expired, budget.value.window, log, call);
        assert expired + dropped == expired;
      }
    }
  }

  lemma ReleaseCounts(log: seq<Call>, lease: Lease, q: Lease -> bool)
    ensures var after := Snoc(log, Released(lease));
            && Active(after, q) == (if q(lease) then Clamp(Active(log, q) - 1) else Active(log, q))
            && Outstanding(after, q) == Outstanding(log, q) - if q(lease) then 1 else 0
  {
  }

  lemma OtherCallsReportNothing(log: seq<Call>, call: Call, key: Key)
    requires call.Retried? ==> call.key != key
    ensures RetryTimes(Snoc(log, call), key) == RetryTimes(log, key)
  {
  }

  class AdmissionController {
    const config: Admission
    var activeByModel: Counter<string>
    var activeByDepartmentModel: Counter<Key>
    var inflight: Counter<Lease>
    var tokenEvents: map<Key, seq<TokenEvent>>
    var tokenTotals: Counter<Key>
    var retryEvents: map<Key, seq<real>>
    var cooldownUntil: map<Key, real>
    ghost var log: seq<Call>
    ghost var expiredTokens: map<Key, seq<TokenEvent>>
    ghost var expiredRetries: map<Key, seq<real>>

    /** The counters are those of a history, with one more lease granted if `more` is given. */
    ghost predicate CountersAre(history: seq<Call>, more: Option<Lease>)
      reads this`activeByModel, this`activeByDepartmentModel, this`inflight
    {
      && (forall m :: Get(activeByModel, m) == Active(history, OfModel(m)) + Extra(more, OfModel(m)))
      && (forall k :: Get(activeByDepartmentModel, k) == Active(history, OfKey(k)) + Extra(more, OfKey(k)))
      && (forall l :: Get(inflight, l) == Outstanding(history, Exactly(l)) + Extra(more, Exactly(l)))
    }

    ghost predicate TokensMatch(key: Key)
      reads this`tokenEvents, this`tokenTotals, this`expiredTokens, this`log
    {
      InStep(config, key, Lookup(tokenEvents, key, []), Lookup(expiredTokens, key, []), Get(tokenTotals, key), log)
    }

    /** Every key but this one is in step with the history. */
    ghost predicate OtherTokensMatch(key: Key)
      reads this`tokenEvents, this`tokenTotals, this`expiredTokens, this`log
    {
      forall k | k != key :: TokensMatch(k)
    }

    /** This key would be in step if `dropped`, stale at `now`, were counted as expired. */
    ghost predicate PrunedAt(key: Key, dropped: seq<TokenEvent>, now: real)
      reads this`tokenEvents, this`tokenTotals, this`expiredTokens, this`log
    {
      InStepLess(config, key, Lookup(tokenEvents, key, []), Lookup(expiredTokens, key, []), Get(tokenTotals, key), log,
                 dropped, now)
    }

    /** The guard of a key stands for `state`, which the retry events up to `last` led to. */
    ghost predicate GuardIs(key: Key, state: Guard, last: real)
      reads this`cooldownUntil, this`retryEvents, this`expiredRetries
    {
      var kept, expired := Lookup(retryEvents, key, []), Lookup(expiredRetries, key, []);
      && Lookup(cooldownUntil, key, 0.0) == state.openUntil
      && state.pending == expired + kept
      && AllOlder(expired, last, config.guard.window)
      && |kept| < config.guard.maxEvents
    }

    ghost predicate GuardMatches(key: Key)
      reads this`cooldownUntil, this`retryEvents, this`expiredRetries, this`log
    {
      var times := RetryTimes(log, key);
      && Nondecreasing(times)
      && GuardIs(key, GuardState(config, times), if times == [] then 0.0 else times[|times| - 1])
    }

    ghost predicate OtherGuardsMatch(key: Key)
      reads this`cooldownUntil, this`retryEvents, this`expiredRetries, this`log
    {
      forall k | k != key :: GuardMatches(k)
    }

    ghost predicate GuardsMatch()
      reads this`cooldownUntil, this`retryEvents, this`expiredRetries, this`log
    {
      forall key :: GuardMatches(key)
    }

    ghost predicate Valid()
      reads this
    {
      && Bounds(config)
      && GrantedWithRoom(config, log)
      && CountersAre(log, None)
      && (forall key :: TokensMatch(key))
      && GuardsMatch()
    }

    constructor (config: Admission)
      requires Bounds(config)
      ensures Valid() && this.config == config && log == []
    {
      this.config := config;
      activeByModel, activeByDepartmentModel, inflight := map[], map[], map[];
      tokenEvents, tokenTotals := map[], map[];
      retryEvents, cooldownUntil := map[], map[];
      log, expiredTokens, expiredRetries := [], map[], map[];
    }

    /** Forgets what has left the budget window of one key. */
    method Prune(key: Key, now: real, window: real) returns (ghost dropped: seq<TokenEvent>)
      requires forall k :: TokensMatch(k)
      requires config.enabled && BudgetOf(config.tokenBudgets, key).Some?
      requires window == BudgetOf(config.tokenBudgets, key).value.window
      modifies this`tokenEvents, this`tokenTotals
      ensures OtherTokensMatch(key) && PrunedAt(key, dropped, now)
      ensures InClockOrder(log) && NotBefore(now, log) ==> Get(tokenTotals, key) == Spent(config, log, now, key)
    {
      assert TokensMatch(key);
      ghost var expired := Lookup(expiredTokens, key, []);
      var kept, removed;
      kept, removed, dropped := DropOldTokenEvents(Lookup(tokenEvents, key, []), now, window);
      assert expired + (dropped + kept) == (expired + dropped) + kept;
      KeptSumIsNotNegative(log, key, expired + dropped, kept);
      PrunedTotalIsSpent(log, key, expired, dropped, kept, window, now);
      assert Get(tokenTotals, key) - removed == SumAll(kept) >= 0;  // the floor below is dead code
      tokenEvents := tokenEvents[key := kept];
      if removed != 0 {
        tokenTotals := tokenTotals[key := Clamp(Get(tokenTotals, key) - removed)];
      }
      forall k | k != key ensures TokensMatch(k) {
        assert old(TokensMatch(k));
      }
    }

    method Grant(lease: Lease)
      requires CountersAre(log, None)
      modifies this`activeByModel, this`activeByDepartmentModel, this`inflight
      ensures CountersAre(log, Some(lease))
    {
      activeByModel := Add(activeByModel, lease.model, 1);
      activeByDepartmentModel := Add(activeByDepartmentModel, KeyOf(lease), 1);
      inflight := Add(inflight, lease, 1);
    }

    ghost predicate Joins(call: Call, key: Key, dropped: seq<TokenEvent>)
      reads this`tokenEvents, this`tokenTotals, this`expiredTokens, this`log
    {
      InStepWith(config, key, Lookup(tokenEvents, key, []), Lookup(expiredTokens, key, []), Get(tokenTotals, key), log,
                 dropped, call)
    }

    /** A call enters the history, and what it pruned for its key counts as expired. */
    ghost method Join(call: Call, key: Key, dropped: seq<TokenEvent>)
      requires OtherTokensMatch(key) && Joins(call, key, dropped)
      requires call.Recorded? ==> call.key == key
      modifies this`log, this`expiredTokens
      ensures log == Snoc(old(log), call)
      ensures forall k :: TokensMatch(k)
      ensures old(GuardsMatch()) && !call.Retried? ==> GuardsMatch()
    {
      var expired := Lookup(expiredTokens, key, []);
      expiredTokens := expiredTokens[key := expired + dropped];
      log := Snoc(log, call);
      forall k ensures TokensMatch(k) {
        var kept, total := Lookup(tokenEvents, k, []), Get(tokenTotals, k);
        if k == key {
          JoiningKeepsStep(config, key, kept, expired, total, old(log), dropped, call);
        } else {
          assert old(TokensMatch(k));
          OthersStayInStep(config, k, kept, Lookup(expiredTokens, k, []), total, old(log), call);
        }
      }
      if old(GuardsMatch()) && !call.Retried? {
        forall k ensures GuardMatches(k) {
          assert old(GuardMatches(k));
          OtherCallsReportNothing(old(log), call, k);
        }
      }
    }

    /** The same for a call that leaves the retry guard alone, once the counters are in step. */
    ghost method Commit(call: Call, key: Key, dropped: seq<TokenEvent>)
      requires Bounds(config) && GrantedWithRoom(config, log) && GuardsMatch()
      requires call.Acquired? && call.verdict.Admitted? ==> HasRoom(config, log, call.verdict.lease)
      requires CountersAre(Snoc(log, call), None)
      requires OtherTokensMatch(key) && Joins(call, key, dropped)
      requires !call.Retried? && (call.Recorded? ==> call.key == key)
      modifies this`log, this`expiredTokens
      ensures Valid() && log == Snoc(old(log), call)
    {
      GrantedSnoc(config, log, call);
      Join(call, key, dropped);
    }

    /** The checks that do not prune, in their order. */
    method CheckLimits(now: real, lease: Lease) returns (early: Option<Verdict>)
      ensures early == AnswerBeforeBudget(
                         config, Lookup(cooldownUntil, KeyOf(lease), 0.0), Get(activeByModel, lease.model),
                         Get(activeByDepartmentModel, KeyOf(lease)), now, lease)
    {
      if !config.enabled {
        return Some(Unlimited);
      }
      var cooldownEnd := Lookup(cooldownUntil, KeyOf(lease), 0.0);
      if cooldownEnd > now {
        return Some(Rejected(RetryGuardOpen, RetryAfter(cooldownEnd - now)));
      }
      if lease.model in config.globalLimits && Get(activeByModel, lease.model) >= config.globalLimits[lease.model] {
        return Some(Rejected(ModelConcurrency, config.defaultRetryAfter));
      }
      var limit := LimitOf(config.departmentLimits, KeyOf(lease));
      if limit.Some? && Get(activeByDepartmentModel, KeyOf(lease)) >= limit.value {
        return Some(Rejected(DepartmentModelConcurrency, config.defaultRetryAfter));
      }
      early := None;
    }

    /** The checks of an acquisition in their order; only the last one prunes. */
    method Check(now: real, lease: Lease) returns (verdict: Verdict, ghost dropped: seq<TokenEvent>)
      requires forall k :: TokensMatch(k)
      modifies this`tokenEvents, this`tokenTotals
      ensures verdict == Answer(config, Lookup(cooldownUntil, KeyOf(lease), 0.0), Get(activeByModel, lease.model),
                                Get(activeByDepartmentModel, KeyOf(lease)), Get(tokenTotals, KeyOf(lease)), now, lease)
      ensures OtherTokensMatch(KeyOf(lease)) && PrunedAt(KeyOf(lease), dropped, now)
      ensures InClockOrder(log) && NotBefore(now, log) ==>
                verdict == Answer(config, Lookup(cooldownUntil, KeyOf(lease), 0.0), Get(activeByModel, lease.model),
                                  Get(activeByDepartmentModel, KeyOf(lease)), Spent(config, log, now, KeyOf(lease)),
                                  now, lease)
    {
      var key := KeyOf(lease);
      dropped := [];
      assert TokensMatch(key) && PrunedAt(key, dropped, now);
      var early := CheckLimits(now, lease);
      if early.Some? {
        return early.value, dropped;
      }
      var budget := BudgetOf(config.tokenBudgets, key);
      if budget.Some? {
        dropped := Prune(key, now, budget.value.window);
        if Get(tokenTotals, key) >= budget.value.maxTokens {
          return Rejected(TokenBudgetSpent, config.defaultRetryAfter), dropped;
        }
      }
      return Admitted(lease), dropped;
    }

    /** The verdict of the checks, in terms of the history. */
    method Decision(now: real, lease: Lease) returns (verdict: Verdict, ghost dropped: seq<TokenEvent>)
      requires Valid()
      modifies this`tokenEvents, this`tokenTotals
      ensures OtherTokensMatch(KeyOf(lease)) && Joins(Acquired(now, KeyOf(lease), verdict), KeyOf(lease), dropped)
      ensures AnswersHistory(config, log, Get(tokenTotals, KeyOf(lease)), now, lease, verdict)
      ensures verdict.Admitted? ==> verdict.lease == lease && HasRoom(config, log, lease)
    {
      verdict, dropped := Check(now, lease);
      AnswerFromHistory(Get(tokenTotals, KeyOf(lease)), now, lease);
      AnswerFromHistory(Spent(config, log, now, KeyOf(lease)), now, lease);
      DecisionAnswersHistory(config, log, Get(tokenTotals, KeyOf(lease)), now, lease, verdict);
    }

    /** Counters and cooldown stand for the history when it comes to an answer. */
    lemma AnswerFromHistory(spent: int, now: real, lease: Lease)
      requires CountersAre(log, None) && GuardsMatch()
      ensures Answer(config, Lookup(cooldownUntil, KeyOf(lease), 0.0), Get(activeByModel, lease.model),
                     Get(activeByDepartmentModel, KeyOf(lease)), spent, now, lease) ==
              DecideGiven(config, log, spent, now, lease)
    {
      assert GuardMatches(KeyOf(lease));
    }

    /** Answers exactly as the history of all earlier calls requires. The running total stands in
        for the windowed sum: it is that sum when the clock readings arrived in order, and it is
        never below the live window in any case. */
    method Acquire(now: real, lease: Lease) returns (verdict: Verdict)
      requires Valid()
      modifies this
      ensures Valid() && log == Snoc(old(log), Acquired(now, KeyOf(lease), verdict))
      ensures AnswersHistory(config, old(log), Get(tokenTotals, KeyOf(lease)), now, lease, verdict)
    {
      ghost var dropped;
      verdict, dropped := Decision(now, lease);
      ghost var call := Acquired(now, KeyOf(lease), verdict);
      CountVerdict(lease, verdict, call);
      Commit(call, KeyOf(lease), dropped);
    }

    /** A lease that is granted is counted. */
    method CountVerdict(lease: Lease, verdict: Verdict, ghost call: Call)
      requires CountersAre(log, None)
      requires call.Acquired? && call.verdict == verdict && (verdict.Admitted? ==> verdict.lease == lease)
      modifies this`activeByModel, this`activeByDepartmentModel, this`inflight
      ensures CountersAre(Snoc(log, call), None)
    {
      if verdict.Admitted? {
        Grant(lease);
      }
      GrantJoins(call);
    }

    lemma GrantJoins(call: Call)
      requires call.Acquired? && CountersAre(log, if call.verdict.Admitted? then Some(call.verdict.lease) else None)
      ensures CountersAre(Snoc(log, call), None)
    {
    }

    /** The running total covers the live window at every time from now on, whatever the order in
        which the clock readings reached the controller. */
    lemma TotalCoversWindow(key: Key, t: real)
      requires Valid() && config.enabled && BudgetOf(config.tokenBudgets, key).Some? && NotBefore(t, log)
      ensures Spent(config, log, t, key) <= Get(tokenTotals, key)
    {
      assert TokensMatch(key);
      TokenEventsPositive(log, key);
      NeverUndercounts(Lookup(expiredTokens, key, []), Lookup(tokenEvents, key, []),
                       BudgetOf(config.tokenBudgets, key).value.window, log, t);
    }

    /** Gives a lease back; a request that was admitted without one changes nothing. */
    method Release(lease: Option<Lease>)
      requires Valid()
      modifies this
      ensures Valid()
      ensures log == if lease.Some? then Snoc(old(log), Released(lease.value)) else old(log)
    {
      if lease.Some? {
        ghost var call := Released(lease.value);
        Ungrant(lease.value);
        assert TokensMatch(KeyOf(lease.value));
        Commit(call, KeyOf(lease.value), []);
      }
    }

    method Ungrant(lease: Lease)
      requires CountersAre(log, None)
      modifies this`activeByModel, this`activeByDepartmentModel, this`inflight
      ensures CountersAre(Snoc(log, Released(lease)), None)
    {
      var key := KeyOf(lease);
      activeByModel := activeByModel[lease.model := Clamp(Get(activeByModel, lease.model) - 1)];
      activeByDepartmentModel := activeByDepartmentModel[key := Clamp(Get(activeByDepartmentModel, key) - 1)];
      inflight := Add(inflight, lease, -1);
      ghost var after := Snoc(log, Released(lease));
      forall m ensures Get(activeByModel, m) == Active(after, OfModel(m)) {
        ReleaseCounts(log, lease, OfModel(m));
      }
      forall k ensures Get(activeByDepartmentModel, k) == Active(after, OfKey(k)) {
        ReleaseCounts(log, lease, OfKey(k));
      }
      forall l ensures Get(inflight, l) == Outstanding(after, Exactly(l)) {
        ReleaseCounts(log, lease, Exactly(l));
      }
    }

    lemma CountersStay(call: Call)
      requires CountersAre(log, None) && (call.Recorded? || call.Retried?)
      ensures CountersAre(Snoc(log, call), None)
    {
    }

    lemma NothingToCharge(now: real, key: Key, tokens: int)
      requires TokensMatch(key)
      requires !(config.enabled && tokens > 0 && BudgetOf(config.tokenBudgets, key).Some?)
      ensures Joins(Recorded(now, key, tokens), key, [])
    {
      assert [] + Lookup(tokenEvents, key, []) == Lookup(tokenEvents, key, []);
    }

    /** Charges tokens to the budget of a key. */
    method RecordTokens(now: real, key: Key, tokens: int)
      requires Valid()
      modifies this
      ensures Valid() && log == Snoc(old(log), Recorded(now, key, tokens))
    {
      ghost var call := Recorded(now, key, tokens);
      ghost var dropped := [];
      assert TokensMatch(key);
      CountersStay(call);
      var budget := BudgetOf(config.tokenBudgets, key);
      if config.enabled && tokens > 0 && budget.Some? {
        dropped := Charge(now, key, tokens, budget.value.window);
      } else {
        NothingToCharge(now, key, tokens);
      }
      Commit(call, key, dropped);
    }

    method Charge(now: real, key: Key, tokens: int, window: real) returns (ghost dropped: seq<TokenEvent>)
      requires forall k :: TokensMatch(k)
      requires config.enabled && tokens > 0 && BudgetOf(config.tokenBudgets, key).Some?
      requires window == BudgetOf(config.tokenBudgets, key).value.window
      modifies this`tokenEvents, this`tokenTotals
      ensures OtherTokensMatch(key) && Joins(Recorded(now, key, tokens), key, dropped)
    {
      dropped := Prune(key, now, window);
      var events := Lookup(tokenEvents, key, []);
      ghost var expired := Lookup(expiredTokens, key, []);
      assert expired + (dropped + (events + [TokenEvent(now, tokens)])) ==
             expired + (dropped + events) + [TokenEvent(now, tokens)];
      SumAllConcat(events, [TokenEvent(now, tokens)]);
      label before:
      tokenEvents := tokenEvents[key := events + [TokenEvent(now, tokens)]];
      tokenTotals := Add(tokenTotals, key, tokens);
      forall k | k != key ensures TokensMatch(k) {
        assert old@before(TokensMatch(k));
      }
    }

    /** Reports a retry event. The clock is read while the lock is held, so `now` is no earlier
        than the events reported before it. */
    method RecordRetryEvent(now: real, key: Key) returns (opens: bool)
      requires Valid()
      requires forall t <- RetryTimes(log, key) :: t <= now
      modifies this
      ensures Valid() && log == Snoc(old(log), Retried(now, key))
      ensures opens <==> config.enabled && config.guard.enabled
                         && Opens(config.guard, After(config.guard, old(RetryTimes(log, key))), now)
    {
      GuardStandsAt(key, now);
      opens := false;
      if config.enabled && config.guard.enabled {
        AfterSnoc(config.guard, RetryTimes(log, key), now);
        opens := Report(now, key, After(config.guard, RetryTimes(log, key)));
      }
      CommitRetry(now, key);
    }

    lemma GuardStandsAt(key: Key, now: real)
      requires GuardsMatch() && forall t <- RetryTimes(log, key) :: t <= now
      ensures Nondecreasing(RetryTimes(log, key) + [now]) && OtherGuardsMatch(key)
      ensures GuardIs(key, GuardState(config, RetryTimes(log, key)), now)
      ensures Nondecreasing(GuardState(config, RetryTimes(log, key)).pending)
    {
      var times := RetryTimes(log, key);
      assert GuardMatches(key);
      LaterIsOrdered(times, now);
      PendingFromHistory(config.guard, times);
      assert times != [] ==> times[|times| - 1] in times;
      assert times == [] ==> Lookup(expiredRetries, key, []) == [] by {
        assert times == [] ==> |Lookup(expiredRetries, key, []) + Lookup(retryEvents, key, [])| == 0;
      }
    }

    /** The event enters the history once the guard of its key has taken it into account. */
    ghost method CommitRetry(now: real, key: Key)
      requires Bounds(config) && GrantedWithRoom(config, log) && CountersAre(log, None)
      requires (forall k :: TokensMatch(k)) && OtherGuardsMatch(key)
      requires Nondecreasing(RetryTimes(log, key) + [now])
      requires GuardIs(key, GuardState(config, RetryTimes(log, key) + [now]), now)
      modifies this`log, this`expiredTokens
      ensures Valid() && log == Snoc(old(log), Retried(now, key))
    {
      var call := Retried(now, key);
      GrantedSnoc(config, log, call);
      CountersStay(call);
      assert TokensMatch(key);
      Join(call, key, []);
      forall k ensures GuardMatches(k) {
        if k != key {
          assert old(GuardMatches(k));
          OtherCallsReportNothing(old(log), call, k);
        }
      }
    }

    method Report(now: real, key: Key, ghost state: Guard) returns (opens: bool)
      requires Bounds(config) && GuardIs(key, state, now) && Nondecreasing(state.pending)
      modifies this`cooldownUntil, this`retryEvents, this`expiredRetries
      ensures old(OtherGuardsMatch(key)) ==> OtherGuardsMatch(key)
      ensures GuardIs(key, Next(config.guard, state, now), now)
      ensures opens <==> Opens(config.guard, state, now)
    {
      var cooldownEnd := Lookup(cooldownUntil, key, 0.0);
      if cooldownEnd > now {
        return false;
      }
      var kept;
      ghost var dropped;
      kept, dropped := DropOldRetryEvents(Lookup(retryEvents, key, []), now, config.guard.window);
      ghost var gone := Lookup(expiredRetries, key, []) + dropped;
      assert state.pending == gone + kept && AllOlder(gone, now, config.guard.window);
      FillingOpens(config.guard, state, gone, kept, now);
      assert state.pending + [now] == gone + (kept + [now]);
      kept := kept + [now];
      opens := |kept| >= config.guard.maxEvents;
      if opens {
        StoreGuard(key, now + config.guard.cooldown, [], []);
      } else {
        StoreGuard(key, cooldownEnd, kept, gone);
      }
    }

    method StoreGuard(key: Key, cooldownEnd: real, kept: seq<real>, ghost expired: seq<real>)
      modifies this`cooldownUntil, this`retryEvents, this`expiredRetries
      ensures old(OtherGuardsMatch(key)) ==> OtherGuardsMatch(key)
      ensures Lookup(cooldownUntil, key, 0.0) == cooldownEnd
      ensures Lookup(retryEvents, key, []) == kept && Lookup(expiredRetries, key, []) == expired
    {
      if cooldownEnd != Lookup(cooldownUntil, key, 0.0) {
        cooldownUntil := cooldownUntil[key := cooldownEnd];
      }
      retryEvents, expiredRetries := retryEvents[key := kept], expiredRetries[key := expired];
      if old(OtherGuardsMatch(key)) {
        forall k | k != key ensures GuardMatches(k) {
          assert old(GuardMatches(k));
        }
      }
    }

    /** Between calls the retry deque of a key holds fewer than `max_events` entries, and none
        while its cooldown lasts. */
    lemma RetryDequeBetweenCalls(key: Key, now: real)
      requires Valid() && forall t <- RetryTimes(log, key) :: t <= now
      ensures |Lookup(retryEvents, key, [])| < config.guard.maxEvents
      ensures Lookup(cooldownUntil, key, 0.0) > now ==> Lookup(retryEvents, key, []) == []
    {
      assert GuardMatches(key);
      var times, kept := RetryTimes(log, key), Lookup(retryEvents, key, []);
      PendingFollowsCooldown(config.guard, times);
      PendingFromHistory(config.guard, times);
      if kept != [] {
        var expired := Lookup(expiredRetries, key, []);
        assert kept[0] == (expired + kept)[|expired|];
        assert kept[0] in GuardState(config, times).pending;
      }
    }
  }
}
