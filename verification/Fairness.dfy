/** Fairness of the registry itself: consecutive selections for one model, while health changes and
    selections for other models come in between. */
module Fairness {
  import opened Options
  import opened RoundRobin
  import opened Routing
  import opened Failover

  /** What happens before a selection, and what the selection excludes. */
  datatype Turn = Turn(meanwhile: seq<Interference>, excluded: set<string>)

  /** The cursor after consecutive selections. */
  function CursorAfter(rounds: seq<seq<bool>>, cursor: nat, n: nat): (next: nat)
    requires Rounds(rounds, n) && cursor < n
    ensures next < n
  {
    if rounds == [] then cursor
    else
      assert Rounds(rounds[1..], n);
      CursorAfter(rounds[1..], Advance(rounds[0], cursor), n)
  }

  /** One selection more, seen from the end. */
  lemma {:induction false} PicksSnoc(rounds: seq<seq<bool>>, cursor: nat, n: nat, last: seq<bool>)
    requires Rounds(rounds, n) && cursor < n && |last| == n
    ensures var at := CursorAfter(rounds, cursor, n);
            && Rounds(rounds + [last], n)
            && Picks(rounds + [last], cursor) == Picks(rounds, cursor) + [Pick(last, at)]
            && CursorAfter(rounds + [last], cursor, n) == Advance(last, at)
  {
    if rounds == [] {
      assert [last][1..] == [];
      assert Picks([last][1..], Advance(last, cursor)) == [];
    } else {
      assert Rounds(rounds[1..], n);
      assert (rounds + [last])[1..] == rounds[1..] + [last];
      PicksSnoc(rounds[1..], Advance(rounds[0], cursor), n, last);
    }
  }

  lemma {:induction false} MultisetOfOptions(picks: seq<nat>, slots: seq<Option<nat>>, slot: nat)
    requires |slots| == |picks| && forall t | 0 <= t < |picks| :: slots[t] == Some(picks[t])
    ensures multiset(slots)[Some(slot)] == multiset(picks)[slot]
  {
    if picks != [] {
      var n := |picks| - 1;
      MultisetOfOptions(picks[..n], slots[..n], slot);
      assert picks == picks[..n] + [picks[n]] && slots == slots[..n] + [slots[n]];
    }
  }

  /** With the same slots eligible each time, these are the steady picks. */
  lemma {:induction false} SteadyRounds(rounds: seq<seq<bool>>, eligible: seq<bool>, cursor: nat)
    requires forall t | 0 <= t < |rounds| :: rounds[t] == eligible
    requires cursor < |eligible| && Pick(eligible, cursor).Some?
    ensures Rounds(rounds, |eligible|) && |SteadyPicks(eligible, cursor, |rounds|)| == |rounds|
    ensures forall t | 0 <= t < |rounds| ::
              Picks(rounds, cursor)[t] == Some(SteadyPicks(eligible, cursor, |rounds|)[t])
  {
    if rounds != [] {
      SteadyRounds(rounds[1..], eligible, Advance(eligible, cursor));
      var rest := SteadyPicks(eligible, Advance(eligible, cursor), |rounds| - 1);
      forall t | 0 <= t < |rounds|
        ensures Picks(rounds, cursor)[t] == Some(SteadyPicks(eligible, cursor, |rounds|)[t])
      {
        if t > 0 {
          assert Picks(rounds, cursor)[t] == Picks(rounds[1..], Advance(eligible, cursor))[t - 1];
        }
      }
    }
  }

  /** Steady selections share out evenly. */
  lemma SteadyRoundsBalance(rounds: seq<seq<bool>>, eligible: seq<bool>, cursor: nat, slot: nat)
    requires forall t | 0 <= t < |rounds| :: rounds[t] == eligible
    requires cursor < |eligible| && Pick(eligible, cursor).Some? && slot < |eligible|
    ensures Rounds(rounds, |eligible|)
    ensures var taken := multiset(Picks(rounds, cursor))[Some(slot)];
            var h := |RoundRobin.Slots(eligible, |eligible|)|;
            h > 0 && if eligible[slot] then FairShare(|rounds|, h, taken) else taken == 0
  {
    SteadyRounds(rounds, eligible, cursor);
    MultisetOfOptions(SteadyPicks(eligible, cursor, |rounds|), Picks(rounds, cursor), slot);
    Balance(eligible, cursor, |rounds|, slot);
  }

  // ------------------------------------------------------------------ the registry

  /** A selection of the registry and the slot it stands for. */
  ghost predicate Stands(pool: seq<Upstream>, result: Selection, slot: Option<nat>) {
    match slot
    case Some(i) => i < |pool| && result == Selected(pool[i])
    case None => result == Failed(NoHealthyUpstream)
  }

  ghost predicate AllStand(pool: seq<Upstream>, results: seq<Selection>, slots: seq<Option<nat>>) {
    |results| == |slots| && forall t | 0 <= t < |slots| :: Stands(pool, results[t], slots[t])
  }

  /** Nothing excluded and nothing happening to health in any turn. */
  ghost predicate Steady(turns: seq<Turn>) {
    forall t | 0 <= t < |turns| :: turns[t].excluded == {} && LeavesHealthAlone(turns[t].meanwhile)
  }

  function HealthThrough(health: map<string, Health>, turns: seq<Turn>): map<string, Health> {
    if turns == [] then health
    else HealthAfter(HealthThrough(health, turns[..|turns| - 1]), turns[|turns| - 1].meanwhile)
  }

  /** Which slots of a pool are eligible in each turn. */
  function RoundsOf(pool: seq<Upstream>, health: map<string, Health>, turns: seq<Turn>): (rounds: seq<seq<bool>>)
    ensures |rounds| == |turns|
    ensures forall t | 0 <= t < |rounds| :: |rounds[t]| == |pool|
  {
    if turns == [] then []
    else
      RoundsOf(pool, health, turns[..|turns| - 1])
      + [Eligible(pool, HealthThrough(health, turns), turns[|turns| - 1].excluded)]
  }

  lemma {:induction false} NothingChanges(health: map<string, Health>, ops: seq<Interference>)
    requires LeavesHealthAlone(ops)
    ensures HealthAfter(health, ops) == health
  {
    if ops != [] {
      assert ops[|ops| - 1] in ops;
      NothingChanges(health, ops[..|ops| - 1]);
    }
  }

  lemma {:induction false} SteadyRoundsAreEqual(pool: seq<Upstream>, health: map<string, Health>, turns: seq<Turn>)
    requires Steady(turns)
    ensures HealthThrough(health, turns) == health
    ensures forall t | 0 <= t < |turns| :: RoundsOf(pool, health, turns)[t] == Eligible(pool, health, {})
  {
    if turns != [] {
      SteadyRoundsAreEqual(pool, health, turns[..|turns| - 1]);
      NothingChanges(health, turns[|turns| - 1].meanwhile);
    }
  }

  /** One turn: whatever happens meanwhile, then a selection from what is eligible then. */
  method TakeTurn(registry: RoutingRegistry, model: string, turn: Turn) returns (result: Selection)
    requires registry.Valid() && model in registry.modelToUpstreams
    requires LeavesModelAlone(turn.meanwhile, model)
    modifies registry
    ensures registry.Valid()
    ensures registry.healthByName == HealthAfter(old(registry.healthByName), turn.meanwhile)
    ensures var pool, cursor := registry.modelToUpstreams[model], old(registry.Cursor(model));
            var eligible := Eligible(pool, registry.healthByName, turn.excluded);
            && cursor < |pool|
            && registry.Cursor(model) == Advance(eligible, cursor)
            && Stands(pool, result, Pick(eligible, cursor))
  {
    Interfere(registry, turn.meanwhile);
    result := registry.SelectUpstream(model, turn.excluded);
  }

  /** Consecutive selections for one model; `slots` says which slot each took. A slot that is eligible
      in every one of at least as many selections as the pool has slots is taken; with nothing
      changing, each eligible slot is taken its share of times. */
  method SelectInTurns(registry: RoutingRegistry, model: string, turns: seq<Turn>)
    returns (results: seq<Selection>, ghost slots: seq<Option<nat>>)
    requires registry.Valid() && model in registry.modelToUpstreams
    requires forall t | 0 <= t < |turns| :: LeavesModelAlone(turns[t].meanwhile, model)
    modifies registry
    ensures registry.Valid()
    ensures registry.healthByName == HealthThrough(old(registry.healthByName), turns)
    ensures var pool := registry.modelToUpstreams[model];
            var rounds := RoundsOf(pool, old(registry.healthByName), turns);
            && |results| == |slots| == |turns|
            && AllStand(pool, results, slots)
            && Unstarved(rounds, slots, |pool|)
            && (Steady(turns) ==> SharedOut(Eligible(pool, old(registry.healthByName), {}), slots))
  {
    var pool := registry.modelToUpstreams[model];
    ghost var health, cursor := registry.healthByName, registry.Cursor(model);
    results, slots := [], [];
    for t := 0 to |turns|
      invariant registry.Valid() && |results| == |slots| == t && cursor < |pool|
      invariant registry.healthByName == HealthThrough(health, turns[..t])
      invariant Rounds(RoundsOf(pool, health, turns[..t]), |pool|)
      invariant slots == Picks(RoundsOf(pool, health, turns[..t]), cursor)
      invariant registry.Cursor(model) == CursorAfter(RoundsOf(pool, health, turns[..t]), cursor, |pool|)
      invariant AllStand(pool, results, slots)
    {
      ghost var at := registry.Cursor(model);
      var result := TakeTurn(registry, model, turns[t]);
      OneTurnMore(pool, health, turns, t, cursor);
      ghost var eligible := Eligible(pool, registry.healthByName, turns[t].excluded);
      results, slots := results + [result], slots + [Pick(eligible, at)];
    }
    assert turns[..|turns|] == turns;
    TurnsAreFair(pool, health, turns, cursor);
  }

  lemma OneTurnMore(pool: seq<Upstream>, health: map<string, Health>, turns: seq<Turn>, t: nat, cursor: nat)
    requires t < |turns| && cursor < |pool|
    ensures var now := HealthAfter(HealthThrough(health, turns[..t]), turns[t].meanwhile);
            var before, after := RoundsOf(pool, health, turns[..t]), RoundsOf(pool, health, turns[..t + 1]);
            var eligible := Eligible(pool, now, turns[t].excluded);
            && HealthThrough(health, turns[..t + 1]) == now
            && Rounds(before, |pool|) && Rounds(after, |pool|)
            && Picks(after, cursor) == Picks(before, cursor) + [Pick(eligible, CursorAfter(before, cursor, |pool|))]
            && CursorAfter(after, cursor, |pool|) == Advance(eligible, CursorAfter(before, cursor, |pool|))
  {
    assert turns[..t + 1][..t] == turns[..t];
    var now := HealthAfter(HealthThrough(health, turns[..t]), turns[t].meanwhile);
    PicksSnoc(RoundsOf(pool, health, turns[..t]), cursor, |pool|, Eligible(pool, now, turns[t].excluded));
  }

  lemma TurnsAreFair(pool: seq<Upstream>, health: map<string, Health>, turns: seq<Turn>, cursor: nat)
    requires cursor < |pool|
    ensures var rounds := RoundsOf(pool, health, turns);
            && Rounds(rounds, |pool|)
            && Unstarved(rounds, Picks(rounds, cursor), |pool|)
            && (Steady(turns) ==> SharedOut(Eligible(pool, health, {}), Picks(rounds, cursor)))
  {
    TakenThroughout(RoundsOf(pool, health, turns), cursor, |pool|);
    if Steady(turns) {
      SteadyRoundsAreEqual(pool, health, turns);
      SteadyShares(RoundsOf(pool, health, turns), Eligible(pool, health, {}), cursor);
    }
  }

  /** A slot eligible in every round is taken, if there are as many rounds as slots. */
  ghost predicate Unstarved(rounds: seq<seq<bool>>, slots: seq<Option<nat>>, n: nat) {
    forall slot | 0 <= slot < n && |rounds| >= n && EligibleThroughout(rounds, slot) :: Some(slot) in slots
  }

  ghost predicate EligibleThroughout(rounds: seq<seq<bool>>, slot: nat) {
    forall t | 0 <= t < |rounds| :: slot < |rounds[t]| && rounds[t][slot]
  }

  /** Every eligible slot has its share of the selections, rounded down or up, and no other slot any;
      without eligible slots all selections fail. */
  ghost predicate SharedOut(eligible: seq<bool>, slots: seq<Option<nat>>) {
    var h := |RoundRobin.Slots(eligible, |eligible|)|;
    forall slot | 0 <= slot < |eligible| ::
      if eligible[slot] then h > 0 && FairShare(|slots|, h, multiset(slots)[Some(slot)])
      else multiset(slots)[Some(slot)] == 0
  }

  lemma TakenThroughout(rounds: seq<seq<bool>>, cursor: nat, n: nat)
    requires Rounds(rounds, n) && cursor < n
    ensures Unstarved(rounds, Picks(rounds, cursor), n)
  {
    forall slot | 0 <= slot < n && |rounds| >= n && EligibleThroughout(rounds, slot)
      ensures Some(slot) in Picks(rounds, cursor)
    {
      var t := TakenWithinDistance(rounds, cursor, slot, n);
    }
  }

  lemma {:induction false} NothingTaken(rounds: seq<seq<bool>>, eligible: seq<bool>, cursor: nat, slot: nat)
    requires forall t | 0 <= t < |rounds| :: rounds[t] == eligible
    requires cursor < |eligible| && Pick(eligible, cursor).None?
    ensures Rounds(rounds, |eligible|) && multiset(Picks(rounds, cursor))[Some(slot)] == 0
  {
    if rounds != [] {
      NothingTaken(rounds[1..], eligible, cursor, slot);
    }
  }

  lemma SteadyShares(rounds: seq<seq<bool>>, eligible: seq<bool>, cursor: nat)
    requires (forall t | 0 <= t < |rounds| :: rounds[t] == eligible) && cursor < |eligible|
    ensures Rounds(rounds, |eligible|) && SharedOut(eligible, Picks(rounds, cursor))
  {
    forall slot | 0 <= slot < |eligible|
      ensures var h := |RoundRobin.Slots(eligible, |eligible|)|;
              var taken := multiset(Picks(rounds, cursor))[Some(slot)];
              if eligible[slot] then h > 0 && FairShare(|rounds|, h, taken) else taken == 0
    {
      if Pick(eligible, cursor).Some? {
        SteadyRoundsBalance(rounds, eligible, cursor, slot);
      } else {
        NothingTaken(rounds, eligible, cursor, slot);
      }
    }
  }
}
