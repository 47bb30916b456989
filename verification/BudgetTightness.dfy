/** How tight the overspend bound is: the least bound on what the requests of a key can spend
    inside the budget window, in terms of what the upstreams report. */
module BudgetTightness {
  import opened Options
  import opened AdmissionConfig
  import opened RetryGuardHistory
  import opened AdmissionHistory
  import opened Routing
  import opened SseUsage
  import opened Streaming
  import Failover
  import opened LifeCycle
  import opened LeaseSafety
  import opened BudgetSafety
  import opened ChargeSafety

  // ------------------------------------------------------------------ what upstreams report

  predicate UsageWithin(usage: Option<Usage>, prompt: int, generation: int) {
    usage.Some? ==> usage.value.0 <= prompt && usage.value.1 <= generation
  }

  /** The usage in the body that an event delivers. */
  function Reported(e: Event): Option<Usage> {
    if e.Responds? && e.body.Usable? then e.body.usage else None
  }

  /** No body that arrives, and no event of a stream, reports more than this. */
  ghost predicate ReportsAtMost(x: Extractor, run: seq<Action>, prompt: int, generation: int) {
    && (forall text :: UsageWithin(x(text), prompt, generation))
    && (forall i | 0 <= i < |run| && run[i].Happens? :: UsageWithin(Reported(run[i].event), prompt, generation))
  }

  // ------------------------------------------------------------------ reports bound charges

  lemma {:induction false} LatestIsWithin(
    x: Extractor, events: seq<string>, start: Option<Usage>, prompt: int, generation: int)
    requires (forall text :: UsageWithin(x(text), prompt, generation)) && UsageWithin(start, prompt, generation)
    ensures UsageWithin(LatestUsage(x, events, start), prompt, generation)
  {
    if events != [] {
      LatestIsWithin(x, events[..|events| - 1], start, prompt, generation);
      var data := DataLines(Text.Lines(events[|events| - 1]));
      assert UsageWithin(x(Text.JoinLines(data)), prompt, generation);
    }
  }

  lemma OutcomeIsWithin(
    g: Gateway, x: Extractor, r: Request, wire: Wire, e: Event, prompt: int, generation: int)
    requires (forall text :: UsageWithin(x(text), prompt, generation)) && UsageWithin(Reported(e), prompt, generation)
    ensures var outcome := OutcomeOf(g, x, r, wire, e);
            outcome.Some? ==> UsageWithin(outcome.value.usage, prompt, generation)
  {
    if e.Ends? && Readable(wire.chunks, e.ending, g.maxBuffer) {
      var read := FeedBounded(WholeTexts(wire.chunks, e.ending), g.maxBuffer);
      LatestIsWithin(x, read.parts.events, None, prompt, generation);
    }
  }

  lemma {:induction false} OutcomesAreWithin(
    g: Gateway, x: Extractor, start: System, run: seq<Action>, prompt: int, generation: int)
    requires ReportsAtMost(x, run, prompt, generation)
    ensures forall o <- Outcomes(g, x, start, run) :: UsageWithin(o.usage, prompt, generation)
  {
    if run != [] {
      var before, a := run[..|run| - 1], run[|run| - 1];
      OutcomesAreWithin(g, x, start, before, prompt, generation);
      var requests := Run(g, x, start, before).requests;
      if a.Happens? && a.id in requests {
        OutcomeIsWithin(g, x, requests[a.id], Heard(g, x, start, before, a.id), a.event, prompt, generation);
      }
    }
  }

  lemma {:induction false} ChargesAreWithin(outcomes: seq<Outcome>, key: Key, prompt: int, generation: int)
    requires forall o <- outcomes :: UsageWithin(o.usage, prompt, generation)
    ensures forall n <- ChargesOf(outcomes, key) :: n <= prompt + generation
  {
    if outcomes != [] {
      var before, last := outcomes[..|outcomes| - 1], outcomes[|outcomes| - 1];
      assert last in outcomes && forall o <- before :: o in outcomes;
      ChargesAreWithin(before, key, prompt, generation);
    }
  }

  lemma {:induction false} ChargedIsWithin(log: seq<Call>, key: Key, most: int)
    requires forall n <- Charged(log, key) :: n <= most
    ensures ChargesAtMost(log, key, most)
  {
    if log != [] {
      var before, last := log[..|log| - 1], log[|log| - 1];
      assert forall n <- Charged(before, key) :: n in Charged(log, key);
      assert last.Recorded? && last.key == key ==> last.tokens in Charged(log, key);
      ChargedIsWithin(before, key, most);
    }
  }

  /** What upstreams report bounds what is charged. */
  lemma ReportsBoundCharges(
    g: Gateway, x: Extractor, clock: real, health: map<string, Health>, run: seq<Action>, key: Key,
    prompt: int, generation: int)
    requires ReportsAtMost(x, run, prompt, generation)
    ensures ChargesAtMost(Run(g, x, Start(clock, health), run).shared.log, key, prompt + generation)
  {
    ChargesFollowOutcomes(g, x, clock, health, run, key);
    OutcomesAreWithin(g, x, Start(clock, health), run, prompt, generation);
    ChargesAreWithin(Outcomes(g, x, Start(clock, health), run), key, prompt, generation);
    ChargedIsWithin(Run(g, x, Start(clock, health), run).shared.log, key, prompt + generation);
  }

  // ------------------------------------------------------------------ a run that spends as much as it can

  function Plain(key: Key): Lease {
    Lease(key.department, key.model, "")
  }

  /** A request for this lease waits for its response. */
  predicate InFlight(r: Request, lease: Lease) {
    r.lease == lease && r.leased && !r.streaming && r.phase.Attempting?
  }

  /** No upstream of the model is missing, and the guard has nothing to say at this clock. */
  ghost predicate Serves(g: Gateway, health: map<string, Health>, clock: real, key: Key) {
    clock >= 0.0 && Routable(g, key.model) && Failover.HealthyNames(g.pools[key.model], health) != {}
  }

  /** What the history says about the key: requests in flight, tokens in the window. */
  ghost predicate Tells(cfg: Admission, log: seq<Call>, clock: real, key: Key, active: nat, spent: int) {
    && Active(log, OfKey(key)) == active && Active(log, OfModel(key.model)) == active
    && Spent(cfg, log, clock, key) == spent
    && RetryTimes(log, key) == []
  }

  /** The limits and the budget leave room for one more request. */
  ghost predicate LeavesRoom(cfg: Admission, key: Key, active: nat, spent: int) {
    && cfg.enabled && BudgetOf(cfg.tokenBudgets, key).Some?
    && spent < BudgetOf(cfg.tokenBudgets, key).value.maxTokens
    && (Ceiling(cfg, key).Some? ==> active < Ceiling(cfg, key).value)
  }

  lemma RoomIsGranted(cfg: Admission, log: seq<Call>, clock: real, key: Key, active: nat, spent: int)
    requires clock >= 0.0 && LeavesRoom(cfg, key, active, spent) && Tells(cfg, log, clock, key, active, spent)
    ensures Decide(cfg, log, clock, Plain(key)) == Admitted(Plain(key))
    ensures Tells(cfg, Snoc(log, Acquired(clock, key, Admitted(Plain(key)))), clock, key, active + 1, spent)
  {
    assert KeyOf(Plain(key)) == key;
    assert OfKey(key)(Plain(key)) && OfModel(key.model)(Plain(key));
  }

  lemma ChargeIsTold(cfg: Admission, log: seq<Call>, clock: real, key: Key, active: nat, spent: int, tokens: int)
    requires Bounds(cfg) && BudgetOf(cfg.tokenBudgets, key).Some? && tokens > 0 && active > 0
    requires Tells(cfg, log, clock, key, active, spent)
    ensures Tells(cfg, Snoc(Snoc(log, Recorded(clock, key, tokens)), Released(Plain(key))), clock, key,
                  active - 1, spent + tokens)
  {
    var charged := Snoc(log, Recorded(clock, key, tokens));
    assert Tells(cfg, charged, clock, key, active, spent + tokens) by {
      assert TokenEvents(charged, key) == TokenEvents(log, key) + [TokenEvent(clock, tokens)];
      var window := BudgetOf(cfg.tokenBudgets, key).value.window;
      SumWithinConcat(TokenEvents(log, key), [TokenEvent(clock, tokens)], clock, window);
      assert SumWithin([TokenEvent(clock, tokens)], clock, window) == tokens by {
        assert [TokenEvent(clock, tokens)][..0] == [];
      }
    }
    assert OfKey(key)(Plain(key)) && OfModel(key.model)(Plain(key));
  }

  lemma RoomLetsIn(g: Gateway, s: Shared, key: Key, active: nat, spent: int)
    requires Serves(g, s.health, s.clock, key) && Tells(g.admission, s.log, s.clock, key, active, spent)
    requires LeavesRoom(g.admission, key, active, spent)
    ensures var w := Arrive(g, s, Plain(key), false);
            && InFlight(w.r, Plain(key))
            && w.shared == s.(cursors := w.shared.cursors,
                              log := Snoc(s.log, Acquired(s.clock, key, Admitted(Plain(key)))))
  {
    RoomIsGranted(g.admission, s.log, s.clock, key, active, spent);
    assert KeyOf(Plain(key)) == key;
    SelectMeaning(g, Admit(g, s, Plain(key), false));
  }

  function Answer200(usage: Usage): Event {
    Responds(200, Usable(Some(usage)))
  }

  /** `active` requests wait for their responses, from number `from` on, and `spent` tokens are in the
      window. */
  ghost predicate Stands(g: Gateway, s: System, key: Key, active: nat, spent: int, from: nat) {
    && Serves(g, s.shared.health, s.shared.clock, key)
    && Tells(g.admission, s.shared.log, s.shared.clock, key, active, spent)
    && (forall id <- s.requests :: id < from + active)
    && (forall id | from <= id < from + active :: id in s.requests && InFlight(s.requests[id], Plain(key)))
  }

  lemma PutArrived(g: Gateway, s: System, w: Work, key: Key, active: nat, spent: int, from: nat)
    requires Stands(g, s, key, active, spent, from) && InFlight(w.r, Plain(key))
    requires Serves(g, w.shared.health, w.shared.clock, key)
    requires Tells(g.admission, w.shared.log, w.shared.clock, key, active + 1, spent)
    ensures Stands(g, Put(w, from + active, s.requests), key, active + 1, spent, from)
  {
  }

  lemma PutAnswered(
    g: Gateway, s: System, w: Work, key: Key, active: nat, spent: int, now: int, from: nat)
    requires Stands(g, s, key, active, spent, from) && active > 0
    requires Serves(g, w.shared.health, w.shared.clock, key)
    requires Tells(g.admission, w.shared.log, w.shared.clock, key, active - 1, now)
    ensures Stands(g, Put(w, from, s.requests), key, active - 1, now, from + 1)
  {
    assert from in s.requests;
  }

  lemma ArrivalMoves(g: Gateway, x: Extractor, s: System, key: Key, active: nat, spent: int, from: nat)
    requires LeavesRoom(g.admission, key, active, spent) && Stands(g, s, key, active, spent, from)
    ensures Stands(g, Apply(g, x, s, Arrives(from + active, Plain(key), false)), key, active + 1, spent, from)
  {
    var w := Arrive(g, s.shared, Plain(key), false);
    RoomLetsIn(g, s.shared, key, active, spent);
    RoomIsGranted(g.admission, s.shared.log, s.shared.clock, key, active, spent);
    PutArrived(g, s, w, key, active, spent, from);
    ApplyArrival(g, x, s, Plain(key), from + active);
  }

  lemma ApplyArrival(g: Gateway, x: Extractor, s: System, lease: Lease, id: nat)
    requires Routable(g, lease.model) && id !in s.requests
    ensures Apply(g, x, s, Arrives(id, lease, false)) == Put(Arrive(g, s.shared, lease, false), id, s.requests)
  {
  }

  lemma ReturnLog(w: Work, usage: Usage)
    requires w.r.leased
    ensures Return(w, 200, Usable(Some(usage))).shared ==
            w.shared.(
              log := Snoc(Snoc(w.shared.log, Recorded(w.shared.clock, KeyOf(w.r.lease), usage.0 + usage.1)),
                          Released(w.r.lease)),
              endpointLedger := Return(w, 200, Usable(Some(usage))).shared.endpointLedger,
              modelLedger := Return(w, 200, Usable(Some(usage))).shared.modelLedger)
  {
  }

  lemma AnswerMoves(g: Gateway, x: Extractor, s: System, key: Key, active: nat, spent: int, from: nat, usage: Usage)
    requires Bounds(g.admission) && BudgetOf(g.admission.tokenBudgets, key).Some?
    requires Stands(g, s, key, active, spent, from) && active > 0 && usage.0 + usage.1 > 0
    ensures Stands(g, Apply(g, x, s, Happens(from, Answer200(usage))), key, active - 1, spent + (usage.0 + usage.1),
                     from + 1)
  {
    var w := Work(s.shared, s.requests[from]);
    ReturnLog(w, usage);
    ChargeIsTold(g.admission, s.shared.log, s.shared.clock, key, active, spent, usage.0 + usage.1);
    assert KeyOf(Plain(key)) == key;
    PutAnswered(g, s, Return(w, 200, Usable(Some(usage))), key, active, spent, spent + (usage.0 + usage.1), from);
  }

  // ------------------------------------------------------------------ the run, phase by phase

  lemma {:induction false} RunSnoc(g: Gateway, x: Extractor, s: System, before: seq<Action>, a: Action)
    ensures Run(g, x, s, before + [a]) == Apply(g, x, Run(g, x, s, before), a)
  {
    assert (before + [a])[..|before|] == before;
  }

  lemma ReportsSnoc(x: Extractor, before: seq<Action>, a: Action, prompt: int, generation: int)
    requires ReportsAtMost(x, before, prompt, generation)
    requires a.Happens? ==> UsageWithin(Reported(a.event), prompt, generation)
    ensures ReportsAtMost(x, before + [a], prompt, generation)
  {
  }

  /** The state after each run. */
  type Path = seq<Action> -> System

  ghost predicate Follows(g: Gateway, x: Extractor, at: Path) {
    forall run, a :: at(run + [a]) == Apply(g, x, at(run), a)
  }

  function After(g: Gateway, x: Extractor, s: System): Path {
    (run: seq<Action>) => Run(g, x, s, run)
  }

  lemma RunsFollow(g: Gateway, x: Extractor, s: System)
    ensures Follows(g, x, After(g, x, s))
  {
    forall run, a ensures After(g, x, s)(run + [a]) == Apply(g, x, After(g, x, s)(run), a) {
      RunSnoc(g, x, s, run, a);
    }
  }

  lemma OneMoreArrives(
    g: Gateway, x: Extractor, at: Path, before: seq<Action>, key: Key, active: nat, spent: int, from: nat,
    prompt: int, generation: int)
    returns (run: seq<Action>)
    requires Follows(g, x, at)
    requires LeavesRoom(g.admission, key, active, spent) && ReportsAtMost(x, before, prompt, generation)
    requires Stands(g, at(before), key, active, spent, from)
    ensures Stands(g, at(run), key, active + 1, spent, from) && ReportsAtMost(x, run, prompt, generation)
  {
    var a, was := Arrives(from + active, Plain(key), false), at(before);
    run := before + [a];
    ReportsSnoc(x, before, a, prompt, generation);
    ArrivalMoves(g, x, was, key, active, spent, from);
  }

  lemma OneMoreIsAnswered(
    g: Gateway, x: Extractor, at: Path, before: seq<Action>, key: Key, active: nat, spent: int, from: nat,
    usage: Usage, prompt: int, generation: int)
    returns (run: seq<Action>)
    requires Follows(g, x, at)
    requires Bounds(g.admission) && BudgetOf(g.admission.tokenBudgets, key).Some?
             && ReportsAtMost(x, before, prompt, generation)
    requires Stands(g, at(before), key, active, spent, from) && active > 0
    requires usage.0 + usage.1 > 0 && usage.0 <= prompt && usage.1 <= generation
    ensures Stands(g, at(run), key, active - 1, spent + (usage.0 + usage.1), from + 1)
    ensures ReportsAtMost(x, run, prompt, generation)
  {
    var b, was := Happens(from, Answer200(usage)), at(before);
    run := before + [b];
    ReportsSnoc(x, before, b, prompt, generation);
    AnswerMoves(g, x, was, key, active, spent, from, usage);
  }

  /** Requests one after the other, each charged a single token before the next arrives. */
  lemma {:induction false} SpendInTurn(
    g: Gateway, x: Extractor, at: Path, key: Key, n: nat, usage: Usage, prompt: int, generation: int)
    returns (run: seq<Action>)
    requires Follows(g, x, at)
    requires Bounds(g.admission) && LeavesRoom(g.admission, key, 0, n - 1)
    requires Stands(g, at([]), key, 0, 0, 0) && ReportsAtMost(x, [], prompt, generation)
    requires usage.0 + usage.1 == 1 && usage.0 <= prompt && usage.1 <= generation
    ensures Stands(g, at(run), key, 0, n, n) && ReportsAtMost(x, run, prompt, generation)
  {
    if n == 0 {
      run := [];
    } else {
      run := SpendInTurn(g, x, at, key, n - 1, usage, prompt, generation);
      run := OneMoreArrives(g, x, at, run, key, 0, n - 1, n - 1, prompt, generation);
      run := OneMoreIsAnswered(g, x, at, run, key, 1, n - 1, n - 1, usage, prompt, generation);
    }
  }

  /** As many requests in flight as the limits let through. */
  lemma {:induction false} Occupy(
    g: Gateway, x: Extractor, at: Path, before: seq<Action>, key: Key, spent: int, from: nat, n: nat,
    prompt: int, generation: int)
    returns (run: seq<Action>)
    requires Follows(g, x, at)
    requires LeavesRoom(g.admission, key, 0, spent) && ReportsAtMost(x, before, prompt, generation)
    requires Ceiling(g.admission, key).Some? ==> n <= Ceiling(g.admission, key).value
    requires Stands(g, at(before), key, 0, spent, from)
    ensures Stands(g, at(run), key, n, spent, from) && ReportsAtMost(x, run, prompt, generation)
  {
    if n == 0 {
      run := before;
    } else {
      run := Occupy(g, x, at, before, key, spent, from, n - 1, prompt, generation);
      run := OneMoreArrives(g, x, at, run, key, n - 1, spent, from, prompt, generation);
    }
  }

  function Repeated(n: nat, most: int): int {
    if n == 0 then 0 else most + Repeated(n - 1, most)
  }

  lemma {:induction false} RepeatedIsTimes(n: nat, most: int)
    ensures Repeated(n, most) == n * most
  {
    if n > 0 {
      RepeatedIsTimes(n - 1, most);
      OneLess(n, most);
    }
  }

  /** All of them answered. */
  lemma {:induction false} Answer(
    g: Gateway, x: Extractor, at: Path, before: seq<Action>, key: Key, spent: int, from: nat, n: nat,
    usage: Usage, most: int, total: int, upto: nat, prompt: int, generation: int)
    returns (run: seq<Action>)
    requires Follows(g, x, at)
    requires Bounds(g.admission) && BudgetOf(g.admission.tokenBudgets, key).Some?
    requires ReportsAtMost(x, before, prompt, generation) && Stands(g, at(before), key, n, spent, from)
    requires usage.0 + usage.1 == most > 0 && usage.0 <= prompt && usage.1 <= generation
    requires total == spent + Repeated(n, most) && upto == from + n
    ensures Stands(g, at(run), key, 0, total, upto) && ReportsAtMost(x, run, prompt, generation)
    decreases n
  {
    if n == 0 {
      run := before;
    } else {
      run := OneMoreIsAnswered(g, x, at, before, key, n, spent, from, usage, prompt, generation);
      run := Answer(g, x, at, run, key, spent + most, from + 1, n - 1, usage, most, total, upto, prompt, generation);
    }
  }

  // ------------------------------------------------------------------ the least bound

  /** In no run in which upstreams report at most this much do the tokens in the window of the key
      ever exceed `bound`. */
  ghost predicate StaysWithin(
    g: Gateway, clock: real, health: map<string, Health>, key: Key, prompt: int, generation: int, bound: int)
  {
    forall x: Extractor, run: seq<Action>, t: real |
      ReportsAtMost(x, run, prompt, generation) && t >= Run(g, x, Start(clock, health), run).shared.clock ::
      Spent(g.admission, Run(g, x, Start(clock, health), run).shared.log, t, key) <= bound
  }

  function Silent(): Extractor {
    (text: string) => None
  }

  lemma AtTheStart(g: Gateway, x: Extractor, clock: real, health: map<string, Health>, key: Key)
    requires Serves(g, health, clock, key)
    ensures Stands(g, Start(clock, health), key, 0, 0, 0)
  {
    assert TokenEvents([], key) == [] && RetryTimes([], key) == [];
  }

  lemma FillAndAnswer(
    g: Gateway, x: Extractor, at: Path, key: Key, left: nat, n: nat, most: int, total: int, prompt: nat,
    generation: nat)
    returns (run: seq<Action>)
    requires Follows(g, x, at)
    requires Bounds(g.admission) && LeavesRoom(g.admission, key, 0, left)
    requires Stands(g, at([]), key, 0, 0, 0) && ReportsAtMost(x, [], prompt, generation)
    requires prompt + generation == most >= 1
    requires (Ceiling(g.admission, key).Some? ==> n <= Ceiling(g.admission, key).value) && total == left + n * most
    ensures Spent(g.admission, at(run).shared.log, at(run).shared.clock, key) == total
    ensures ReportsAtMost(x, run, prompt, generation)
  {
    run := SpendInTurn(g, x, at, key, left, if prompt > 0 then (1, 0) else (0, 1), prompt, generation);
    run := Occupy(g, x, at, run, key, left, left, n, prompt, generation);
    RepeatedIsTimes(n, most);
    run := Answer(g, x, at, run, key, left, left, n, (prompt, generation), most, total, left + n, prompt, generation);
  }

  lemma SpendFrom(
    g: Gateway, x: Extractor, at: Path, key: Key, n: nat, total: int, prompt: nat, generation: nat)
    returns (run: seq<Action>)
    requires Follows(g, x, at)
    requires Bounds(g.admission) && g.admission.enabled && BudgetOf(g.admission.tokenBudgets, key).Some?
    requires Stands(g, at([]), key, 0, 0, 0) && ReportsAtMost(x, [], prompt, generation) && prompt + generation >= 1
    requires Ceiling(g.admission, key).Some? ==> n <= Ceiling(g.admission, key).value
    requires total == BudgetOf(g.admission.tokenBudgets, key).value.maxTokens - 1 + n * (prompt + generation)
    ensures ReportsAtMost(x, run, prompt, generation)
    ensures Spent(g.admission, at(run).shared.log, at(run).shared.clock, key) == total
  {
    var left: nat := BudgetOf(g.admission.tokenBudgets, key).value.maxTokens - 1;
    run := FillAndAnswer(g, x, at, key, left, n, prompt + generation, total, prompt, generation);
  }

  /** With n requests let through at once, some run spends all but one token of the budget first and
      then n times what one request can be charged. */
  lemma SpendAll(
    g: Gateway, clock: real, health: map<string, Health>, key: Key, n: nat, prompt: nat, generation: nat)
    returns (run: seq<Action>)
    requires Bounds(g.admission) && g.admission.enabled && BudgetOf(g.admission.tokenBudgets, key).Some?
    requires Serves(g, health, clock, key) && prompt + generation >= 1
    requires Ceiling(g.admission, key).Some? ==> n <= Ceiling(g.admission, key).value
    ensures ReportsAtMost(Silent(), run, prompt, generation)
    ensures var s := Run(g, Silent(), Start(clock, health), run).shared;
            Spent(g.admission, s.log, s.clock, key) ==
            BudgetOf(g.admission.tokenBudgets, key).value.maxTokens - 1 + n * (prompt + generation)
  {
    var start := Start(clock, health);
    AtTheStart(g, Silent(), clock, health, key);
    RunsFollow(g, Silent(), start);
    assert After(g, Silent(), start)([]) == start;
    var total := BudgetOf(g.admission.tokenBudgets, key).value.maxTokens - 1 + n * (prompt + generation);
    run := SpendFrom(g, Silent(), After(g, Silent(), start), key, n, total, prompt, generation);
  }

  lemma BoundSuffices(
    g: Gateway, clock: real, health: map<string, Health>, key: Key, prompt: nat, generation: nat, bound: int)
    requires Bounds(g.admission) && g.admission.enabled && BudgetOf(g.admission.tokenBudgets, key).Some?
    requires Ceiling(g.admission, key).Some?
    requires bound >= BudgetOf(g.admission.tokenBudgets, key).value.maxTokens - 1
                      + Ceiling(g.admission, key).value * (prompt + generation)
    ensures StaysWithin(g, clock, health, key, prompt, generation, bound)
  {
    forall x: Extractor, run: seq<Action>, t: real |
      ReportsAtMost(x, run, prompt, generation) && t >= Run(g, x, Start(clock, health), run).shared.clock
      ensures Spent(g.admission, Run(g, x, Start(clock, health), run).shared.log, t, key) <= bound
    {
      ReportsBoundCharges(g, x, clock, health, run, key, prompt, generation);
      OverspendBound(g, x, clock, health, run, key, prompt + generation, t);
    }
  }

  lemma BoundIsReached(
    g: Gateway, clock: real, health: map<string, Health>, key: Key, n: nat, prompt: nat, generation: nat, bound: int)
    requires Bounds(g.admission) && g.admission.enabled && BudgetOf(g.admission.tokenBudgets, key).Some?
    requires Serves(g, health, clock, key) && prompt + generation >= 1
    requires Ceiling(g.admission, key).Some? ==> n <= Ceiling(g.admission, key).value
    requires StaysWithin(g, clock, health, key, prompt, generation, bound)
    ensures bound >= BudgetOf(g.admission.tokenBudgets, key).value.maxTokens - 1 + n * (prompt + generation)
  {
    var run := SpendAll(g, clock, health, key, n, prompt, generation);
    var s := Run(g, Silent(), Start(clock, health), run).shared;
    assert Spent(g.admission, s.log, s.clock, key) <= bound;
  }

  /** A bound on overspending holds in all runs exactly when the limits bound the concurrency and it
      is at least B - 1 + D * C: budget B, D requests let through at once, and at most C tokens,
      prompt and generation, reported for one request. */
  lemma LeastBound(
    g: Gateway, clock: real, health: map<string, Health>, key: Key, prompt: nat, generation: nat, bound: int)
    requires Bounds(g.admission) && g.admission.enabled && BudgetOf(g.admission.tokenBudgets, key).Some?
    requires Serves(g, health, clock, key) && prompt + generation >= 1
    ensures StaysWithin(g, clock, health, key, prompt, generation, bound) <==>
              && Ceiling(g.admission, key).Some?
              && bound >= BudgetOf(g.admission.tokenBudgets, key).value.maxTokens - 1
                          + Ceiling(g.admission, key).value * (prompt + generation)
  {
    var ceiling := Ceiling(g.admission, key);
    if ceiling.Some?
       && bound >= BudgetOf(g.admission.tokenBudgets, key).value.maxTokens - 1 + ceiling.value * (prompt + generation) {
      BoundSuffices(g, clock, health, key, prompt, generation, bound);
    }
    if StaysWithin(g, clock, health, key, prompt, generation, bound) {
      BoundIsNeeded(g, clock, health, key, prompt, generation, bound);
    }
  }

  lemma BoundIsNeeded(
    g: Gateway, clock: real, health: map<string, Health>, key: Key, prompt: nat, generation: nat, bound: int)
    requires Bounds(g.admission) && g.admission.enabled && BudgetOf(g.admission.tokenBudgets, key).Some?
    requires Serves(g, health, clock, key) && prompt + generation >= 1
    requires StaysWithin(g, clock, health, key, prompt, generation, bound)
    ensures Ceiling(g.admission, key).Some?
    ensures bound >= BudgetOf(g.admission.tokenBudgets, key).value.maxTokens - 1
                     + Ceiling(g.admission, key).value * (prompt + generation)
  {
    if Ceiling(g.admission, key).None? {
      NoCeilingNoBound(g, clock, health, key, prompt, generation, bound);
    }
    BoundIsReached(g, clock, health, key, Ceiling(g.admission, key).value, prompt, generation, bound);
  }

  /** Without a concurrency limit every bound is broken by some run. */
  lemma NoCeilingNoBound(
    g: Gateway, clock: real, health: map<string, Health>, key: Key, prompt: nat, generation: nat, bound: int)
    requires Bounds(g.admission) && g.admission.enabled && BudgetOf(g.admission.tokenBudgets, key).Some?
    requires Serves(g, health, clock, key) && prompt + generation >= 1
    requires Ceiling(g.admission, key).None?
    ensures !StaysWithin(g, clock, health, key, prompt, generation, bound)
  {
    if StaysWithin(g, clock, health, key, prompt, generation, bound) {
      var n: nat := if bound >= 0 then bound + 1 else 0;
      AtMostTimes(1, prompt + generation, n);
      BoundIsReached(g, clock, health, key, n, prompt, generation, bound);
    }
  }

  /** For any C: overspending stays within B - 1 + D * C in all runs exactly when no request is
      reported to cost more than C. */
  lemma OverspendIff(
    g: Gateway, clock: real, health: map<string, Health>, key: Key, prompt: nat, generation: nat, c: int)
    requires Bounds(g.admission) && g.admission.enabled && BudgetOf(g.admission.tokenBudgets, key).Some?
    requires Ceiling(g.admission, key).Some? && Serves(g, health, clock, key) && prompt + generation >= 1
    ensures StaysWithin(g, clock, health, key, prompt, generation,
                        BudgetOf(g.admission.tokenBudgets, key).value.maxTokens - 1
                        + Ceiling(g.admission, key).value * c) <==>
            prompt + generation <= c
  {
    var limit := Ceiling(g.admission, key).value;
    var budget := BudgetOf(g.admission.tokenBudgets, key).value;
    LeastBound(g, clock, health, key, prompt, generation, budget.maxTokens - 1 + limit * c);
    TimesKeepsOrder(limit, prompt + generation, c);
  }

  lemma TimesKeepsOrder(n: int, a: int, b: int)
    requires n > 0
    ensures n * a <= n * b <==> a <= b
  {
  }

  /** The documented promise, that overspending is bounded by the concurrency times the output cap,
      holds exactly when the prompts of all concurrent requests together are charged at most one
      token. */
  lemma DocumentedBoundIff(
    g: Gateway, clock: real, health: map<string, Health>, key: Key, prompt: nat, cap: nat)
    requires Bounds(g.admission) && g.admission.enabled && BudgetOf(g.admission.tokenBudgets, key).Some?
    requires Ceiling(g.admission, key).Some? && Serves(g, health, clock, key) && cap >= 1
    ensures var limit := Ceiling(g.admission, key).value;
            StaysWithin(g, clock, health, key, prompt, cap,
                        BudgetOf(g.admission.tokenBudgets, key).value.maxTokens + limit * cap) <==>
            limit * prompt <= 1
  {
    var limit := Ceiling(g.admission, key).value;
    var budget := BudgetOf(g.admission.tokenBudgets, key).value;
    LeastBound(g, clock, health, key, prompt, cap, budget.maxTokens + limit * cap);
    assert limit * (prompt + cap) == limit * prompt + limit * cap;
  }
}
