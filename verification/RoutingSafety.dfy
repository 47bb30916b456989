/** Round-robin over whole runs: whichever requests select, the selections for a model follow its
    cursor, so no eligible slot is passed over for long. */
module RoutingSafety {
  import opened Options
  import opened AdmissionConfig
  import opened AdmissionHistory
  import opened RoundRobin
  import opened Routing
  import Failover
  import opened Fairness
  import opened SseUsage
  import opened Streaming
  import opened LifeCycle

  /** Where the next selection for a model starts. */
  function CursorIn(g: Gateway, s: Shared, model: string): nat
    requires Routable(g, model)
  {
    (if model in s.cursors then s.cursors[model] else 0) % |g.pools[model]|
  }

  /** The names that a selection for the model excludes, if this step makes one: a new request that
      admission control lets in excludes none, one that failed to connect those it has attempted. */
  function Excludes(g: Gateway, s: System, a: Action, model: string): Option<set<string>> {
    match a
    case Arrives(id, lease, _) =>
      if id !in s.requests && lease.model == model && Routable(g, model)
         && !Decide(g.admission, s.shared.log, s.shared.clock, lease).Rejected?
      then Some({}) else None
    case Happens(id, ConnectFails) =>
      if id in s.requests && s.requests[id].phase.Attempting? && s.requests[id].lease.model == model
         && Routable(g, model)
      then Some(s.requests[id].attempted) else None
    case _ => None
  }

  /** The upstream that the step sent a request to, if any. */
  function SentTo(s: System, t: System, a: Action): Option<string> {
    if !(a.Arrives? || a.Happens?) || a.id !in t.requests || !t.requests[a.id].phase.Attempting? then None
    else if t.requests[a.id].selections > (if a.id in s.requests then s.requests[a.id].selections else 0)
    then Some(t.requests[a.id].phase.current) else None
  }

  function NameAt(pool: seq<Upstream>, slot: Option<nat>): Option<string> {
    if slot.Some? && slot.value < |pool| then Some(pool[slot.value].name) else None
  }

  /** Selecting starts at the cursor and takes the nearest eligible slot. */
  lemma SelectFollowsCursor(g: Gateway, w: Work, model: string)
    requires Routable(g, w.r.lease.model) && Routable(g, model)
    ensures var v := Select(g, w);
            var pool, cursor := g.pools[model], CursorIn(g, w.shared, model);
            var eligible := Eligible(pool, w.shared.health, w.r.attempted);
            if model != w.r.lease.model then CursorIn(g, v.shared, model) == cursor
            else
              && CursorIn(g, v.shared, model) == Advance(eligible, cursor)
              && match Pick(eligible, cursor)
                 case None => v == w
                 case Some(i) =>
                   v.r.phase == Attempting(pool[i].name) && v.r.selections == w.r.selections + 1
  {
    if model == w.r.lease.model {
      var pool, cursor := g.pools[model], CursorIn(g, w.shared, model);
      SmallRemainder(Advance(Eligible(pool, w.shared.health, w.r.attempted), cursor), |pool|);
    }
  }

  lemma SmallRemainder(k: nat, n: nat)
    requires k < n
    ensures k % n == k
  {
  }

  /** A step that selects for the model moves its cursor on from the slot taken, and sends the request
      to the upstream there; any other step leaves the cursor of the model alone. */
  ghost predicate Moves(g: Gateway, s: System, t: System, a: Action, model: string)
    requires Routable(g, model)
  {
    var pool, cursor := g.pools[model], CursorIn(g, s.shared, model);
    match Excludes(g, s, a, model)
    case None => CursorIn(g, t.shared, model) == cursor
    case Some(excluded) =>
      var eligible := Eligible(pool, s.shared.health, excluded);
      && CursorIn(g, t.shared, model) == Advance(eligible, cursor)
      && SentTo(s, t, a) == NameAt(pool, Pick(eligible, cursor))
  }

  lemma ArrivalMoves(g: Gateway, s: System, id: nat, lease: Lease, streaming: bool, model: string)
    requires Routable(g, lease.model) && Routable(g, model) && id !in s.requests
    ensures Moves(g, s, Put(Arrive(g, s.shared, lease, streaming), id, s.requests), Arrives(id, lease, streaming),
                  model)
  {
    var w := Admit(g, s.shared, lease, streaming);
    SelectFollowsCursor(g, w, model);
    SelectMeaning(g, w);
  }

  lemma RetryMoves(g: Gateway, x: Extractor, s: System, id: nat, model: string)
    requires id in s.requests && Routable(g, model)
    ensures Moves(g, s, Apply(g, x, s, Happens(id, ConnectFails)), Happens(id, ConnectFails), model)
  {
    var w := Work(s.shared, s.requests[id]);
    if w.r.phase.Attempting? && Routable(g, w.r.lease.model) {
      SelectFollowsCursor(g, w, model);
      SelectMeaning(g, w);
    }
  }

  /** Only history and counters differ. */
  ghost predicate Undisturbed(s: Shared, t: Shared) {
    t.clock == s.clock && t.health == s.health && t.cursors == s.cursors
  }

  lemma EffectsUndisturb(w: Work, usage: Option<Usage>, accounting: Accounting, responded: bool, phase: Phase)
    ensures Undisturbed(w.shared, Release(w).shared) && Undisturbed(w.shared, Report(w).shared)
    ensures Undisturbed(w.shared, Charge(w, usage).shared)
    ensures Undisturbed(w.shared, Account(w, accounting, responded).shared)
  {
  }

  lemma FailUndisturbs(w: Work)
    ensures Undisturbed(w.shared, Fail(w).shared)
  {
  }

  lemma ReturnUndisturbs(w: Work, status: int, body: Body)
    ensures Undisturbed(w.shared, Return(w, status, body).shared)
  {
    var known := GotStatus(w, status);
    if body.Usable? {
      var settled := UsageSettlement(status, body.usage);
      var accounted := Account(known, settled.accounting, true);
      EffectsUndisturb(accounted, settled.usage, MissingUsage, true, w.r.phase);
      EffectsUndisturb(Move(Charge(accounted, settled.usage), Done(Returned)), None, MissingUsage, true, w.r.phase);
    }
  }

  lemma EndStreamUndisturbs(w: Work, settled: Settlement)
    ensures Undisturbed(w.shared, EndStream(w, settled).shared)
  {
    EffectsUndisturb(w, None, MissingUsage, true, w.r.phase);
    EffectsUndisturb(Account(Move(Release(w), Done(StreamFinished)), settled.accounting, true), settled.usage,
                     MissingUsage, true, w.r.phase);
  }

  lemma OthersUndisturb(g: Gateway, x: Extractor, w: Work, e: Event)
    requires !e.ConnectFails?
    ensures Undisturbed(w.shared, Act(g, x, w, e).shared)
  {
    var phase := w.r.phase;
    match e
    case TransportFails => FailUndisturbs(w);
    case Responds(status, body) => ReturnUndisturbs(w, status, body);
    case Opens(status) => EffectsUndisturb(w.(r := w.r.(status := Some(status))), None, MissingUsage, true, phase);
    case Ends(ending, closes) =>
      if phase.StreamingBody? && w.r.status.Some? {
        EndStreamUndisturbs(w, Settle(phase.st, phase.gone, ending, w.r.status.value, g.maxBuffer, x));
      }
    case _ => EffectsUndisturb(Move(w, Done(Crashed)), None, MissingUsage, true, phase);
  }

  lemma StepMoves(g: Gateway, x: Extractor, s: System, a: Action, model: string)
    requires Routable(g, model)
    ensures Moves(g, s, Apply(g, x, s, a), a, model)
  {
    match a
    case Tick(_) =>
    case HealthChanges(_, _) =>
    case Arrives(id, lease, streaming) =>
      if id !in s.requests && Routable(g, lease.model) {
        ArrivalMoves(g, s, id, lease, streaming, model);
      }
    case Happens(id, e) =>
      if id in s.requests {
        if e.ConnectFails? {
          RetryMoves(g, x, s, id, model);
        } else {
          OthersUndisturb(g, x, Work(s.shared, s.requests[id]), e);
        }
      }
  }

  // ------------------------------------------------------------------ whole runs

  /** Which slots were eligible for each selection that a run made for the model. */
  function RoundsIn(g: Gateway, x: Extractor, start: System, run: seq<Action>, model: string): (rounds: seq<seq<bool>>)
    requires Routable(g, model)
    ensures Rounds(rounds, |g.pools[model]|)
  {
    if run == [] then []
    else
      var before := run[..|run| - 1];
      var s := Run(g, x, start, before);
      RoundsIn(g, x, start, before, model)
      + match Excludes(g, s, run[|run| - 1], model)
        case None => []
        case Some(excluded) => [Eligible(g.pools[model], s.shared.health, excluded)]
  }

  /** The upstreams that these selections sent their requests to. */
  function SentIn(g: Gateway, x: Extractor, start: System, run: seq<Action>, model: string): seq<Option<string>> {
    if run == [] then []
    else
      var before, a := run[..|run| - 1], run[|run| - 1];
      var s := Run(g, x, start, before);
      SentIn(g, x, start, before, model)
      + if Excludes(g, s, a, model).Some? then [SentTo(s, Apply(g, x, s, a), a)] else []
  }

  function Names(pool: seq<Upstream>, picks: seq<Option<nat>>): (names: seq<Option<string>>)
    ensures |names| == |picks|
  {
    seq(|picks|, t requires 0 <= t < |picks| => NameAt(pool, picks[t]))
  }

  /** In every run the selections for a model are those of its cursor, started at the first slot. */
  lemma {:induction false} SelectionsFollowCursor(
    g: Gateway, x: Extractor, clock: real, health: map<string, Health>, run: seq<Action>, model: string)
    requires Routable(g, model)
    ensures var start, pool := Start(clock, health), g.pools[model];
            var rounds := RoundsIn(g, x, start, run, model);
            && CursorIn(g, Run(g, x, start, run).shared, model) == CursorAfter(rounds, 0, |pool|)
            && SentIn(g, x, start, run, model) == Names(pool, Picks(rounds, 0))
  {
    var start, pool := Start(clock, health), g.pools[model];
    if run == [] {
      SmallRemainder(0, |pool|);
    } else {
      var before, a := run[..|run| - 1], run[|run| - 1];
      var s := Run(g, x, start, before);
      SelectionsFollowCursor(g, x, clock, health, before, model);
      StepMoves(g, x, s, a, model);
      var rounds := RoundsIn(g, x, start, before, model);
      match Excludes(g, s, a, model)
      case None => assert rounds + [] == rounds;
      case Some(excluded) => OneMoreSelection(pool, rounds, Eligible(pool, s.shared.health, excluded));
    }
  }

  lemma OneMoreSelection(pool: seq<Upstream>, rounds: seq<seq<bool>>, eligible: seq<bool>)
    requires pool != [] && Rounds(rounds, |pool|) && |eligible| == |pool|
    ensures var cursor := CursorAfter(rounds, 0, |pool|);
            && Rounds(rounds + [eligible], |pool|)
            && CursorAfter(rounds + [eligible], 0, |pool|) == Advance(eligible, cursor)
            && Names(pool, Picks(rounds + [eligible], 0)) ==
               Names(pool, Picks(rounds, 0)) + [NameAt(pool, Pick(eligible, cursor))]
  {
    PicksSnoc(rounds, 0, |pool|, eligible);
  }

  /** Picks after the first `from` selections start where these left the cursor. */
  lemma {:induction false} PicksFrom(rounds: seq<seq<bool>>, cursor: nat, n: nat, from: nat)
    requires Rounds(rounds, n) && cursor < n && from <= |rounds|
    ensures Rounds(rounds[..from], n) && Rounds(rounds[from..], n)
    ensures Picks(rounds, cursor)[from..] == Picks(rounds[from..], CursorAfter(rounds[..from], cursor, n))
  {
    if from == 0 {
      assert rounds[0..] == rounds && rounds[..0] == [];
    } else {
      assert Rounds(rounds[1..], n);
      PicksFrom(rounds[1..], Advance(rounds[0], cursor), n, from - 1);
      assert rounds[1..][from - 1..] == rounds[from..];
      assert rounds[..from][1..] == rounds[1..][..from - 1];
      assert Picks(rounds, cursor)[from..] == Picks(rounds[1..], Advance(rounds[0], cursor))[from - 1..];
    }
  }

  /** The slot is eligible in all of the `n` rounds from `from` on. */
  ghost predicate OpenFrom(rounds: seq<seq<bool>>, from: nat, n: nat, slot: nat) {
    from + n <= |rounds| && forall t | from <= t < from + n :: slot < |rounds[t]| && rounds[t][slot]
  }

  ghost predicate SentWithin(sent: seq<Option<string>>, from: nat, n: nat, name: string) {
    exists t | from <= t < from + n && t < |sent| :: sent[t] == Some(name)
  }

  /** A slot that is eligible in as many consecutive rounds as the pool has slots is sent a request in
      one of them. */
  ghost predicate NoneStarves(pool: seq<Upstream>, rounds: seq<seq<bool>>, sent: seq<Option<string>>) {
    forall from: nat, slot: nat | slot < |pool| && OpenFrom(rounds, from, |pool|, slot) ::
      SentWithin(sent, from, |pool|, pool[slot].name)
  }

  lemma WindowIsServed(pool: seq<Upstream>, rounds: seq<seq<bool>>, from: nat, slot: nat)
    requires Rounds(rounds, |pool|) && slot < |pool| && OpenFrom(rounds, from, |pool|, slot)
    ensures SentWithin(Names(pool, Picks(rounds, 0)), from, |pool|, pool[slot].name)
  {
    var n := |pool|;
    PicksFrom(rounds, 0, n, from);
    var t := TakenInWindow(rounds[from..], CursorAfter(rounds[..from], 0, n), slot, n);
    assert Picks(rounds, 0)[from..][t] == Picks(rounds, 0)[from + t];
    assert Names(pool, Picks(rounds, 0))[from + t] == Some(pool[slot].name);
  }

  /** In every run, whoever selects, no slot starves. */
  lemma NoSlotStarves(
    g: Gateway, x: Extractor, clock: real, health: map<string, Health>, run: seq<Action>, model: string)
    requires Routable(g, model)
    ensures NoneStarves(g.pools[model], RoundsIn(g, x, Start(clock, health), run, model),
                        SentIn(g, x, Start(clock, health), run, model))
  {
    var pool, rounds := g.pools[model], RoundsIn(g, x, Start(clock, health), run, model);
    SelectionsFollowCursor(g, x, clock, health, run, model);
    forall from: nat, slot: nat | slot < |pool| && OpenFrom(rounds, from, |pool|, slot)
      ensures SentWithin(SentIn(g, x, Start(clock, health), run, model), from, |pool|, pool[slot].name)
    {
      WindowIsServed(pool, rounds, from, slot);
    }
  }

  lemma TakenInWindow(rounds: seq<seq<bool>>, cursor: nat, slot: nat, n: nat) returns (t: nat)
    requires Rounds(rounds, n) && cursor < n && slot < n && n <= |rounds|
    requires forall t | 0 <= t < n :: rounds[t][slot]
    ensures t < n && Picks(rounds, cursor)[t] == Some(slot)
  {
    var first := rounds[..n];
    t := TakenWithinDistance(first, cursor, slot, n);
    assert rounds == first + rounds[n..];
    PicksOfPrefix(first, rounds[n..], cursor, n);
  }

  lemma {:induction false} PicksOfPrefix(a: seq<seq<bool>>, b: seq<seq<bool>>, cursor: nat, n: nat)
    requires Rounds(a, n) && Rounds(a + b, n) && cursor < n
    ensures Picks(a + b, cursor)[..|a|] == Picks(a, cursor)
  {
    if a != [] {
      assert (a + b)[1..] == a[1..] + b;
      assert Rounds(a[1..], n) && Rounds(a[1..] + b, n) by {
        assert forall t | 0 <= t < |a[1..] + b| :: (a[1..] + b)[t] == (a + b)[t + 1];
      }
      PicksOfPrefix(a[1..], b, Advance(a[0], cursor), n);
    }
  }

  // ------------------------------------------------------------------ the environment

  /** The health changes of a run, in order. */
  function HealthEvents(run: seq<Action>): seq<Failover.Interference> {
    if run == [] then []
    else
      HealthEvents(run[..|run| - 1])
      + match run[|run| - 1]
        case HealthChanges(name, healthy) => [Failover.HealthChange(name, healthy)]
        case _ => []
  }

  function Elapsed(run: seq<Action>): real {
    if run == [] then 0.0
    else
      Elapsed(run[..|run| - 1])
      + match run[|run| - 1]
        case Tick(seconds) => if seconds >= 0.0 then seconds else 0.0
        case _ => 0.0
  }

  lemma ActKeepsEnvironment(g: Gateway, x: Extractor, w: Work, e: Event)
    ensures Act(g, x, w, e).shared.health == w.shared.health && Act(g, x, w, e).shared.clock == w.shared.clock
  {
    if !e.ConnectFails? {
      OthersUndisturb(g, x, w, e);
    } else if w.r.phase.Attempting? && Routable(g, w.r.lease.model) {
      SelectMeaning(g, w);
      FailUndisturbs(w);
    }
  }

  /** In every run, health is what the health changes made it, and the clock what the ticks made it:
      requests change neither. */
  lemma {:induction false} EnvironmentInEveryRun(
    g: Gateway, x: Extractor, clock: real, health: map<string, Health>, run: seq<Action>)
    ensures var s := Run(g, x, Start(clock, health), run).shared;
            s.health == Failover.HealthAfter(health, HealthEvents(run)) && s.clock == clock + Elapsed(run)
  {
    if run != [] {
      var before, a := run[..|run| - 1], run[|run| - 1];
      var s := Run(g, x, Start(clock, health), before);
      EnvironmentInEveryRun(g, x, clock, health, before);
      EnvironmentStep(g, x, s, a);
      HealthAfterSnoc(health, HealthEvents(before), a);
    }
  }

  lemma EnvironmentStep(g: Gateway, x: Extractor, s: System, a: Action)
    ensures var t := Apply(g, x, s, a).shared;
            && t.health == (if a.HealthChanges?
                            then Failover.Changed(s.shared.health, Failover.HealthChange(a.name, a.healthy))
                            else s.shared.health)
            && t.clock == s.shared.clock + if a.Tick? && a.seconds >= 0.0 then a.seconds else 0.0
  {
    match a
    case Arrives(id, lease, streaming) =>
      if id !in s.requests && Routable(g, lease.model) {
        SelectMeaning(g, Admit(g, s.shared, lease, streaming));
      }
    case Happens(id, e) =>
      if id in s.requests {
        ActKeepsEnvironment(g, x, Work(s.shared, s.requests[id]), e);
      }
    case _ =>
  }

  lemma HealthAfterSnoc(health: map<string, Health>, events: seq<Failover.Interference>, a: Action)
    ensures a.HealthChanges? ==>
              var change := Failover.HealthChange(a.name, a.healthy);
              Failover.HealthAfter(health, events + [change]) ==
              Failover.Changed(Failover.HealthAfter(health, events), change)
    ensures Failover.HealthAfter(health, events + []) == Failover.HealthAfter(health, events)
  {
    if a.HealthChanges? {
      var change := Failover.HealthChange(a.name, a.healthy);
      assert (events + [change])[..|events|] == events;
    }
    assert events + [] == events;
  }
}
