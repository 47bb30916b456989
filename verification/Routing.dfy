/** The routing registry: which upstreams serve a model, how healthy they are, and which one the
    next request for the model goes to. */
module Routing {
  import opened Options
  import opened Sequences
  import opened RoundRobin

  datatype Upstream = Upstream(name: string, baseUrl: string, models: seq<string>, token: Option<string>)

  datatype Health = Health(
    healthy: bool,
    lastProbeAt: Option<string>,
    lastSuccessAt: Option<string>,
    lastStatusCode: Option<int>,
    lastError: Option<string>)

  datatype RoutingError = UnknownModel | NoHealthyUpstream | UnknownUpstream

  datatype Selection = Selected(upstream: Upstream) | Failed(error: RoutingError)

  datatype ModelAvailability = ModelAvailability(model: string, total: nat, healthy: nat) {
    predicate Online() {
      healthy > 0
    }
  }

  // ------------------------------------------------------------------ the model index

  /** The slots of a model, in the order in which the upstreams list it: one slot per mention. */
  function Pool(upstreams: seq<Upstream>, model: string): seq<Upstream> {
    if upstreams == [] then []
    else Pool(upstreams[..|upstreams| - 1], model)
         + Copies(upstreams[|upstreams| - 1], Mentions(upstreams[|upstreams| - 1].models, model))
  }

  function Copies(u: Upstream, n: nat): (r: seq<Upstream>)
    ensures |r| == n
  {
    if n == 0 then [] else Copies(u, n - 1) + [u]
  }

  function Mentions(models: seq<string>, model: string): nat {
    if models == [] then 0
    else Mentions(models[..|models| - 1], model) + if models[|models| - 1] == model then 1 else 0
  }

  lemma MentionsStep(models: seq<string>, m: nat, model: string)
    requires m < |models|
    ensures Mentions(models[..m + 1], model) == Mentions(models[..m], model) + if models[m] == model then 1 else 0
  {
    assert models[..m + 1][..m] == models[..m];
  }

  lemma {:induction false} MentionedIffListed(models: seq<string>, model: string)
    ensures Mentions(models, model) > 0 <==> model in models
  {
    if models != [] {
      MentionedIffListed(models[..|models| - 1], model);
      assert models == models[..|models| - 1] + [models[|models| - 1]];
    }
  }

  ghost predicate NamesDiffer(upstreams: seq<Upstream>) {
    DistinctBy(upstreams, (u: Upstream) => u.name)
  }

  /** The index inverts the upstreams' model lists: an upstream owns as many slots of a model as
      it mentions it, and nothing else is in the pool. */
  lemma {:induction false} PoolInvertsModels(upstreams: seq<Upstream>, model: string, u: Upstream)
    requires NamesDiffer(upstreams)
    ensures multiset(Pool(upstreams, model))[u] == if u in upstreams then Mentions(u.models, model) else 0
  {
    if upstreams != [] {
      var init, last := upstreams[..|upstreams| - 1], upstreams[|upstreams| - 1];
      PoolInvertsModels(init, model, u);
      CopiesCount(Mentions(last.models, model), last, u);
      assert upstreams == init + [last];
      assert u == last ==> u !in init;
    }
  }

  lemma {:induction false} CopiesCount(n: nat, x: Upstream, u: Upstream)
    ensures multiset(Copies(x, n))[u] == if u == x then n else 0
    ensures forall i | 0 <= i < n :: Copies(x, n)[i] == x
  {
    if n > 0 {
      CopiesCount(n - 1, x, u);
    }
  }

  /** The index keeps the configured order: each slot can be traced to an upstream, and later
      slots never to an earlier upstream. */
  lemma {:induction false} PoolKeepsOrder(upstreams: seq<Upstream>, model: string) returns (origin: seq<nat>)
    ensures |origin| == |Pool(upstreams, model)|
    ensures forall i | 0 <= i < |origin| ::
              origin[i] < |upstreams| && upstreams[origin[i]] == Pool(upstreams, model)[i]
    ensures forall i, j | 0 <= i < j < |origin| :: origin[i] <= origin[j]
  {
    origin := [];
    if upstreams != [] {
      var last := upstreams[|upstreams| - 1];
      origin := PoolKeepsOrder(upstreams[..|upstreams| - 1], model);
      CopiesCount(Mentions(last.models, model), last, last);
      origin := origin + seq(Mentions(last.models, model), _ => |upstreams| - 1);
    }
  }

  /** The models that some upstream lists. */
  predicate Served(upstreams: seq<Upstream>, model: string) {
    exists i | 0 <= i < |upstreams| :: model in upstreams[i].models
  }

  lemma {:induction false} ServedIffPooled(upstreams: seq<Upstream>, model: string)
    ensures Served(upstreams, model) <==> Pool(upstreams, model) != []
  {
    if upstreams != [] {
      var init, last := upstreams[..|upstreams| - 1], upstreams[|upstreams| - 1];
      ServedIffPooled(init, model);
      MentionedIffListed(last.models, model);
      assert Served(init, model) ==> Served(upstreams, model);
      assert Served(upstreams, model) && model !in last.models ==> Served(init, model);
    }
  }

  method BuildModelIndex(upstreams: seq<Upstream>) returns (index: map<string, seq<Upstream>>)
    ensures forall model :: model in index <==> Served(upstreams, model)
    ensures forall model <- index :: index[model] == Pool(upstreams, model) != []
  {
    index := map[];
    for u := 0 to |upstreams|
      invariant forall model :: Slots(index, model) == Pool(upstreams[..u], model)
      invariant forall model <- index :: index[model] != []
    {
      index := AddUpstream(index, upstreams[u]);
      assert upstreams[..u + 1][..u] == upstreams[..u];
    }
    assert upstreams[..|upstreams|] == upstreams;
    forall model ensures model in index <==> Served(upstreams, model) {
      ServedIffPooled(upstreams, model);
      assert Slots(index, model) == Pool(upstreams, model);
    }
  }

  method AddUpstream(index: map<string, seq<Upstream>>, upstream: Upstream)
    returns (next: map<string, seq<Upstream>>)
    requires forall model <- index :: index[model] != []
    ensures forall model ::
              Slots(next, model) == Slots(index, model) + Copies(upstream, Mentions(upstream.models, model))
    ensures forall model <- next :: next[model] != []
  {
    var models := upstream.models;
    next := index;
    for m := 0 to |models|
      invariant forall model ::
                  Slots(next, model) == Slots(index, model) + Copies(upstream, Mentions(models[..m], model))
      invariant forall model <- next :: next[model] != []
    {
      ghost var before := next;
      next := next[models[m] := Slots(next, models[m]) + [upstream]];
      forall model
        ensures Slots(next, model) == Slots(index, model) + Copies(upstream, Mentions(models[..m + 1], model))
      {
        SlotAdded(index, before, next, upstream, m, model);
      }
    }
    assert models[..|models|] == models;
  }

  lemma SlotAdded(
    index: map<string, seq<Upstream>>, before: map<string, seq<Upstream>>, next: map<string, seq<Upstream>>,
    upstream: Upstream, m: nat, model: string)
    requires m < |upstream.models|
    requires Slots(before, model) == Slots(index, model) + Copies(upstream, Mentions(upstream.models[..m], model))
    requires next == before[upstream.models[m] := Slots(before, upstream.models[m]) + [upstream]]
    ensures Slots(next, model) == Slots(index, model) + Copies(upstream, Mentions(upstream.models[..m + 1], model))
  {
    MentionsStep(upstream.models, m, model);
    SlotsGrow(Slots(index, model), Slots(before, model), Slots(next, model), upstream,
              Mentions(upstream.models[..m], model), upstream.models[m] == model);
  }

  lemma SlotsGrow(first: seq<Upstream>, before: seq<Upstream>, next: seq<Upstream>, u: Upstream, n: nat, grows: bool)
    requires before == first + Copies(u, n)
    requires next == if grows then before + [u] else before
    ensures next == first + Copies(u, n + if grows then 1 else 0)
  {
    assert first + Copies(u, n + 1) == first + Copies(u, n) + [u];
  }

  function Slots(index: map<string, seq<Upstream>>, model: string): seq<Upstream> {
    if model in index then index[model] else []
  }

  // ------------------------------------------------------------------ selection

  /** Which slots of a pool may be selected. */
  function Eligible(pool: seq<Upstream>, health: map<string, Health>, excluded: set<string>): (r: seq<bool>)
    ensures |r| == |pool|
  {
    seq(|pool|, i requires 0 <= i < |pool| => IsEligible(pool[i], health, excluded))
  }

  predicate IsEligible(u: Upstream, health: map<string, Health>, excluded: set<string>) {
    u.name !in excluded && u.name in health && health[u.name].healthy
  }

  /** A selection on the pool of one model: the slot, and where the cursor goes. */
  ghost predicate SelectsFrom(
    pool: seq<Upstream>, health: map<string, Health>, excluded: set<string>, cursor: nat, result: Selection, next: nat)
    requires cursor < |pool|
  {
    var eligible := Eligible(pool, health, excluded);
    && next == Advance(eligible, cursor)
    && match Pick(eligible, cursor)
       case Some(i) => result == Selected(pool[i])
       case None => result == Failed(NoHealthyUpstream)
  }

  method StepFrom(from: nat, steps: nat, n: nat) returns (slot: nat)
    requires from < n && steps <= n
    ensures slot == Forward(from, steps, n)
  {
    ForwardIsModular(from, steps, n);
    slot := (from + steps) % n;
  }

  method StartIndex(cursor: nat, n: nat) returns (slot: nat)
    requires cursor < n
    ensures slot == cursor
  {
    slot := cursor % n;
  }

  /** The scan from the cursor on, at most once around: the first eligible slot wins, and the
      cursor moves one past it. */
  method Scan(pool: seq<Upstream>, health: map<string, Health>, excluded: set<string>, cursor: nat)
    returns (found: Option<nat>, next: nat)
    requires cursor < |pool|
    ensures found == Pick(Eligible(pool, health, excluded), cursor)
    ensures next == Advance(Eligible(pool, health, excluded), cursor)
  {
    var n := |pool|;
    var start := StartIndex(cursor, n);
    ghost var eligible := Eligible(pool, health, excluded);
    for offset := 0 to n
      invariant forall j | 0 <= j < n && eligible[j] :: Distance(start, j, n) >= offset
    {
      var candidate := StepFrom(start, offset, n);
      if IsEligible(pool[candidate], health, excluded) {
        assert IsNearest(eligible, start, candidate);
        NearestIsUnique(eligible, start, candidate, Pick(eligible, start).value);
        next := StepFrom(candidate, 1, n);
        return Some(candidate), next;
      }
      forall j | 0 <= j < n && eligible[j] ensures Distance(start, j, n) != offset {
        ForwardByDistance(start, j, n);
      }
    }
    assert forall j: nat | j < n :: Distance(start, j, n) < n;
    found, next := None, cursor;
  }

  class RoutingRegistry {
    const upstreams: seq<Upstream>
    const modelToUpstreams: map<string, seq<Upstream>>
    var healthByName: map<string, Health>
    var roundRobinIndex: map<string, nat>

    ghost predicate Indexed()
      reads this`healthByName
    {
      && NamesDiffer(upstreams)
      && (forall model :: model in modelToUpstreams <==> Served(upstreams, model))
      && (forall model <- modelToUpstreams :: modelToUpstreams[model] == Pool(upstreams, model) != [])
      && (forall name :: name in healthByName <==> exists i | 0 <= i < |upstreams| :: upstreams[i].name == name)
    }

    ghost predicate CursorsInRange()
      reads this`roundRobinIndex
    {
      forall model <- modelToUpstreams :: Cursor(model) < |modelToUpstreams[model]|
    }

    ghost predicate Valid()
      reads this
    {
      Indexed() && CursorsInRange()
    }

    /** The cursor of a model; one never used starts at the first slot. */
    function Cursor(model: string): nat
      reads this`roundRobinIndex
    {
      if model in roundRobinIndex then roundRobinIndex[model] else 0
    }

    constructor (upstreams: seq<Upstream>)
      requires NamesDiffer(upstreams)
      ensures Valid() && this.upstreams == upstreams
      ensures forall name <- healthByName :: healthByName[name].healthy
      ensures forall model :: Cursor(model) == 0
    {
      var index := BuildModelIndex(upstreams);
      this.upstreams := upstreams;
      modelToUpstreams := index;
      healthByName := map u <- upstreams :: u.name := Health(true, None, None, None, None);
      roundRobinIndex := map[];
    }

    /** Replaces the health of one upstream; probe times are kept when no new ones are given. */
    method SetUpstreamHealth(
      name: string, healthy: bool, lastProbeAt: Option<string>, lastSuccessAt: Option<string>,
      lastStatusCode: Option<int>, lastError: Option<string>)
      returns (error: Option<RoutingError>)
      requires Valid()
      modifies this`healthByName
      ensures Valid()
      ensures error == if name in old(healthByName) then None else Some(UnknownUpstream)
      ensures healthByName.Keys == old(healthByName).Keys
      ensures forall other <- healthByName | other != name :: healthByName[other] == old(healthByName)[other]
      ensures name in healthByName ==>
                var was := old(healthByName)[name];
                healthByName[name] == Health(healthy, if lastProbeAt.Some? then lastProbeAt else was.lastProbeAt,
                  if lastSuccessAt.Some? then lastSuccessAt else was.lastSuccessAt, lastStatusCode, lastError)
    {
      if name !in healthByName {
        return Some(UnknownUpstream);
      }
      var was := healthByName[name];
      healthByName := healthByName[name := Health(
        healthy,
        if lastProbeAt.Some? then lastProbeAt else was.lastProbeAt,
        if lastSuccessAt.Some? then lastSuccessAt else was.lastSuccessAt,
        lastStatusCode,
        lastError)];
      error := None;
    }

    /** Takes the nearest eligible slot from the cursor on, and leaves the cursor one past it. */
    method SelectUpstream(model: string, excluded: set<string>) returns (result: Selection)
      requires Valid()
      modifies this`roundRobinIndex
      ensures Valid()
      ensures model !in modelToUpstreams ==> result == Failed(UnknownModel)
      ensures model in modelToUpstreams ==>
                old(Cursor(model)) < |modelToUpstreams[model]| &&
                SelectsFrom(modelToUpstreams[model], healthByName, excluded, old(Cursor(model)), result, Cursor(model))
      ensures forall other | other != model :: Cursor(other) == old(Cursor(other))
    {
      if model !in modelToUpstreams {
        return Failed(UnknownModel);
      }
      var pool := modelToUpstreams[model];
      var found, next := Scan(pool, healthByName, excluded, Cursor(model));
      if found.None? {
        return Failed(NoHealthyUpstream);
      }
      roundRobinIndex := roundRobinIndex[model := next];
      result := Selected(pool[found.value]);
    }

    /** How many slots of a model there are, and how many of them are healthy. */
    function Availability(model: string): ModelAvailability
      requires model in modelToUpstreams
      reads this
    {
      var pool := modelToUpstreams[model];
      ModelAvailability(model, |pool|, CountTrue(Eligible(pool, healthByName, {})))
    }

    /** The readiness status code. */
    function Readiness(): int
      reads this
    {
      if (set name <- healthByName | healthByName[name].healthy) != {} then 200 else 503
    }

    /** The availability of a model counts its slots, and the healthy ones among them. */
    lemma AvailabilityCounts(model: string)
      requires Valid() && model in modelToUpstreams
      ensures var pool := modelToUpstreams[model];
              && Availability(model).model == model
              && Availability(model).total == |pool|
              && Availability(model).healthy ==
                 |set i: nat | i < |pool| && pool[i].name in healthByName && healthByName[pool[i].name].healthy|
    {
      var pool := modelToUpstreams[model];
      CountTrueCounts(Eligible(pool, healthByName, {}));
      assert (set i: nat | i < |pool| && pool[i].name in healthByName && healthByName[pool[i].name].healthy) ==
             (set i: nat | i < |pool| && Eligible(pool, healthByName, {})[i]);
    }

    /** A model is online exactly when a request for it would find an upstream. */
    lemma OnlineIffSelectable(model: string)
      requires Valid() && model in modelToUpstreams
      ensures modelToUpstreams[model] != []
      ensures Availability(model).Online() <==>
              Pick(Eligible(modelToUpstreams[model], healthByName, {}), Cursor(model)).Some?
    {
      SomeTrue(Eligible(modelToUpstreams[model], healthByName, {}));
    }

    /** The gateway is ready exactly when some model is online. */
    lemma ReadyIffSomeModelOnline()
      requires Valid() && forall i | 0 <= i < |upstreams| :: upstreams[i].models != []
      ensures Readiness() == 200 <==> exists model <- modelToUpstreams :: Availability(model).Online()
    {
      if Readiness() == 200 {
        var name :| name in healthByName && healthByName[name].healthy;
        var i :| 0 <= i < |upstreams| && upstreams[i].name == name;
        HealthyMakesOnline(i, upstreams[i].models[0]);
      }
      if model :| model in modelToUpstreams && Availability(model).Online() {
        OnlineHasHealthy(model);
      }
    }

    lemma HealthyMakesOnline(i: nat, model: string)
      requires Valid() && i < |upstreams| && model in upstreams[i].models
      requires upstreams[i].name in healthByName && healthByName[upstreams[i].name].healthy
      ensures model in modelToUpstreams && Availability(model).Online()
    {
      PoolHolds(upstreams, model, i);
      var pool := modelToUpstreams[model];
      var p :| 0 <= p < |pool| && pool[p] == upstreams[i];
      assert Eligible(pool, healthByName, {})[p];
      SomeTrue(Eligible(pool, healthByName, {}));
    }

    lemma OnlineHasHealthy(model: string)
      requires Valid() && model in modelToUpstreams && Availability(model).Online()
      ensures Readiness() == 200
    {
      var pool := modelToUpstreams[model];
      SomeTrue(Eligible(pool, healthByName, {}));
      var p :| 0 <= p < |pool| && Eligible(pool, healthByName, {})[p];
      assert pool[p].name in (set name <- healthByName | healthByName[name].healthy);
    }
  }

  function CountTrue(flags: seq<bool>): nat {
    if flags == [] then 0 else CountTrue(flags[..|flags| - 1]) + if flags[|flags| - 1] then 1 else 0
  }

  lemma {:induction false} CountTrueCounts(flags: seq<bool>)
    ensures CountTrue(flags) == |set i: nat | i < |flags| && flags[i]|
  {
    if flags != [] {
      var n := |flags| - 1;
      CountTrueCounts(flags[..n]);
      var before, all := set i: nat | i < n && flags[..n][i], set i: nat | i < |flags| && flags[i];
      assert all == if flags[n] then before + {n} else before;
    }
  }

  lemma {:induction false} SomeTrue(flags: seq<bool>)
    ensures CountTrue(flags) > 0 <==> exists i | 0 <= i < |flags| :: flags[i]
  {
    if flags != [] {
      SomeTrue(flags[..|flags| - 1]);
    }
  }

  lemma PoolHolds(upstreams: seq<Upstream>, model: string, i: nat)
    requires NamesDiffer(upstreams) && i < |upstreams| && model in upstreams[i].models
    ensures upstreams[i] in Pool(upstreams, model)
  {
    PoolInvertsModels(upstreams, model, upstreams[i]);
    MentionedIffListed(upstreams[i].models, model);
    assert upstreams[i] in multiset(Pool(upstreams, model));
  }
}
