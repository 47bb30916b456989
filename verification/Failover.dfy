/** The failover loop of a proxied request: connect-stage errors move on to an upstream not yet
    tried, while other requests and the health monitor go on using the same registry. */
module Failover {
  import opened Options
  import opened Sequences
  import opened Counters
  import opened RoundRobin
  import opened Routing

  /** What came of sending the request to an upstream. */
  datatype Outcome = Responded(status: int) | ConnectError | OtherTransportError

  datatype Result =
    | Response(status: int)
    | TransportError(last: Outcome)
    | NotRouted(error: RoutingError)

  /** What others do to the registry while this request waits for an upstream. */
  datatype Interference =
    | HealthChange(name: string, healthy: bool)
    | OtherSelection(model: string, excluded: set<string>)

  type Label = (string, string)

  function Names(pool: seq<Upstream>): set<string> {
    set u <- pool :: u.name
  }

  /** The upstreams of a pool that are healthy now, by name. */
  function HealthyNames(pool: seq<Upstream>, health: map<string, Health>): set<string> {
    set u <- pool | u.name in health && health[u.name].healthy :: u.name
  }

  ghost predicate LeavesHealthAlone(ops: seq<Interference>) {
    forall op <- ops :: op.OtherSelection?
  }

  ghost predicate LeavesModelAlone(ops: seq<Interference>, model: string) {
    forall op <- ops :: op.OtherSelection? ==> op.model != model
  }

  /** The health map after one thing that others do. */
  function Changed(health: map<string, Health>, op: Interference): map<string, Health> {
    match op
    case HealthChange(name, healthy) =>
      if name !in health then health
      else health[name := Health(healthy, health[name].lastProbeAt, health[name].lastSuccessAt, None, None)]
    case OtherSelection(_, _) => health
  }

  function HealthAfter(health: map<string, Health>, ops: seq<Interference>): map<string, Health> {
    if ops == [] then health else Changed(HealthAfter(health, ops[..|ops| - 1]), ops[|ops| - 1])
  }

  method Interfere(registry: RoutingRegistry, ops: seq<Interference>)
    requires registry.Valid()
    modifies registry
    ensures registry.Valid()
    ensures registry.healthByName == HealthAfter(old(registry.healthByName), ops)
    ensures LeavesHealthAlone(ops) ==> registry.healthByName == old(registry.healthByName)
    ensures forall model | LeavesModelAlone(ops, model) :: registry.Cursor(model) == old(registry.Cursor(model))
  {
    for i := 0 to |ops|
      invariant registry.Valid()
      invariant registry.healthByName == HealthAfter(old(registry.healthByName), ops[..i])
      invariant LeavesHealthAlone(ops) ==> registry.healthByName == old(registry.healthByName)
      invariant forall model | LeavesModelAlone(ops, model) :: registry.Cursor(model) == old(registry.Cursor(model))
    {
      assert ops[i] in ops && ops[..i + 1][..i] == ops[..i];
      ghost var before := registry.healthByName;
      match ops[i]
      case HealthChange(name, healthy) =>
        var _ := registry.SetUpstreamHealth(name, healthy, None, None, None, None);
      case OtherSelection(model, excluded) =>
        var _ := registry.SelectUpstream(model, excluded);
      assert registry.healthByName == Changed(before, ops[i]);
    }
    assert ops[..|ops|] == ops;
  }

  /** A selection that fails leaves no healthy upstream outside the excluded names; one that
      succeeds takes an upstream of the pool outside them. */
  lemma SelectionMeaning(
    pool: seq<Upstream>, health: map<string, Health>, excluded: set<string>, cursor: nat, result: Selection, next: nat)
    requires cursor < |pool| && SelectsFrom(pool, health, excluded, cursor, result, next)
    ensures result.Selected? ==>
              result.upstream.name in HealthyNames(pool, health) - excluded
    ensures result.Failed? <==> HealthyNames(pool, health) <= excluded
    ensures result.Failed? ==> next == cursor
  {
    var eligible := Eligible(pool, health, excluded);
    match Pick(eligible, cursor)
    case Some(i) =>
      assert pool[i] in pool;
    case None =>
      forall u <- pool ensures !IsEligible(u, health, excluded) {
        var i :| 0 <= i < |pool| && pool[i] == u;
        assert !eligible[i];
      }
  }

  method Select(registry: RoutingRegistry, model: string, excluded: set<string>, selections: Counter<Label>)
    returns (result: Selection, after: Counter<Label>)
    requires registry.Valid() && model in registry.modelToUpstreams
    modifies registry`roundRobinIndex
    ensures registry.Valid()
    ensures var pool := registry.modelToUpstreams[model];
            && (result.Selected? ==> result.upstream.name in HealthyNames(pool, registry.healthByName) - excluded)
            && (result.Failed? ==> HealthyNames(pool, registry.healthByName) <= excluded)
    ensures after == if result.Selected? then Add(selections, (model, result.upstream.name), 1) else selections
    ensures result.Failed? ==>
              result.error == NoHealthyUpstream && registry.Cursor(model) == old(registry.Cursor(model))
  {
    result := registry.SelectUpstream(model, excluded);
    SelectionMeaning(registry.modelToUpstreams[model], registry.healthByName, excluded,
                     old(registry.Cursor(model)), result, registry.Cursor(model));
    after := if result.Selected? then Add(selections, (model, result.upstream.name), 1) else selections;
  }

  /** While this request waits, others go on. */
  method Await(registry: RoutingRegistry, ops: seq<Interference>)
    requires registry.Valid()
    modifies registry
    ensures registry.Valid()
    ensures LeavesHealthAlone(ops) ==> registry.healthByName == old(registry.healthByName)
  {
    Interfere(registry, ops);
  }

  ghost predicate Covers(attempts: seq<string>, names: set<string>) {
    forall name <- names :: name in attempts
  }

  ghost predicate HealthStable(others: nat -> seq<Interference>) {
    forall i: nat :: LeavesHealthAlone(others(i))
  }

  /** One selection was counted for each attempt, and none for anything else. */
  ghost predicate CountedOnce(before: Counter<Label>, after: Counter<Label>, model: string, attempts: seq<string>) {
    forall l: Label :: Get(after, l) == Get(before, l) + if l.0 == model && l.1 in attempts then 1 else 0
  }

  /** The attempts so far: no upstream twice, all from the pool, each counted once, and every
      attempt but the last failed to connect. */
  ghost predicate Tried(
    pool: seq<Upstream>, model: string, outcomes: nat -> Outcome, attempts: seq<string>,
    before: Counter<Label>, after: Counter<Label>)
  {
    && Distinct(attempts)
    && CountedOnce(before, after, model, attempts)
    && (forall name <- attempts :: name in Names(pool))
    && (forall i | 0 <= i < |attempts| - 1 :: outcomes(i) == ConnectError)
  }

  /** The names attempted so far are the attempts. */
  ghost predicate SameNames(attempts: seq<string>, attempted: set<string>) {
    Covers(attempts, attempted) && forall name <- attempts :: name in attempted
  }

  lemma TriedOneMore(
    pool: seq<Upstream>, model: string, outcomes: nat -> Outcome, attempts: seq<string>,
    before: Counter<Label>, after: Counter<Label>, name: string)
    requires Tried(pool, model, outcomes, attempts, before, after)
    requires attempts != [] ==> outcomes(|attempts| - 1) == ConnectError
    requires name in Names(pool) && name !in attempts
    ensures Tried(pool, model, outcomes, attempts + [name], before, Add(after, (model, name), 1))
  {
  }

  /** What the request comes to once an upstream was selected: the outcome of the last attempt. */
  ghost predicate Ran(
    pool: seq<Upstream>, model: string, outcomes: nat -> Outcome, result: Result, attempts: seq<string>,
    before: Counter<Label>, after: Counter<Label>)
  {
    && attempts != [] && Tried(pool, model, outcomes, attempts, before, after)
    && var last := outcomes(|attempts| - 1);
       && (forall status :: result == Response(status) <==> last == Responded(status))
       && (result == TransportError(ConnectError) <==> last == ConnectError)
       && (result == TransportError(OtherTransportError) <==> last == OtherTransportError)
       && !result.NotRouted?
  }

  /** The loop from the first selected upstream on; `before` are the counts before that selection. */
  method TryUpstreams(
    registry: RoutingRegistry, model: string, first: string, ghost before: Counter<Label>, selections: Counter<Label>,
    outcomes: nat -> Outcome, others: nat -> seq<Interference>)
    returns (result: Result, attempts: seq<string>, after: Counter<Label>)
    requires registry.Valid() && model in registry.modelToUpstreams
    requires Tried(registry.modelToUpstreams[model], model, outcomes, [first], before, selections)
    modifies registry
    ensures registry.Valid()
    ensures Ran(registry.modelToUpstreams[model], model, outcomes, result, attempts, before, after)
    ensures result == TransportError(ConnectError) ==>
              Covers(attempts, HealthyNames(registry.modelToUpstreams[model], registry.healthByName))
    ensures HealthStable(others) ==> registry.healthByName == old(registry.healthByName)
  {
    ghost var pool := registry.modelToUpstreams[model];
    attempts, after := [first], selections;
    var attempted := {first};
    while true
      invariant registry.Valid() && attempts != []
      invariant SameNames(attempts, attempted)
      invariant Tried(pool, model, outcomes, attempts, before, after)
      invariant HealthStable(others) ==> registry.healthByName == old(registry.healthByName)
      decreases Names(pool) - attempted
    {
      var i := |attempts| - 1;
      Await(registry, others(i));
      var last := outcomes(i);
      match last
      case Responded(status) =>
        return Response(status), attempts, after;
      case OtherTransportError =>
        return TransportError(OtherTransportError), attempts, after;
      case ConnectError =>
        ghost var counted := after;
        var selected;
        selected, after := Select(registry, model, attempted, after);
        if selected.Failed? {
          return TransportError(ConnectError), attempts, after;
        }
        TriedOneMore(pool, model, outcomes, attempts, before, counted, selected.upstream.name);
        attempts := attempts + [selected.upstream.name];
        attempted := attempted + {selected.upstream.name};
    }
  }

  /** Sends a request for `model`: attempt `i` comes out as `outcomes(i)`, and `others(i)` happens
      while it is awaited. No upstream is tried twice, each attempt counts one selection, and a
      connect error surfaces only when every upstream that is healthy by then has been tried and
      failed to connect. */
  method ProxyWithFailover(
    registry: RoutingRegistry, model: string, selections: Counter<Label>,
    outcomes: nat -> Outcome, others: nat -> seq<Interference>)
    returns (result: Result, attempts: seq<string>, after: Counter<Label>)
    requires registry.Valid()
    modifies registry
    ensures registry.Valid()
    ensures model !in registry.modelToUpstreams <==> result == NotRouted(UnknownModel)
    ensures result.NotRouted? ==> attempts == [] && after == selections
    ensures result == NotRouted(NoHealthyUpstream) ==>
              model in registry.modelToUpstreams
              && HealthyNames(registry.modelToUpstreams[model], old(registry.healthByName)) == {}
    ensures !result.NotRouted? ==>
              model in registry.modelToUpstreams
              && Ran(registry.modelToUpstreams[model], model, outcomes, result, attempts, selections, after)
    ensures result == TransportError(ConnectError) ==>
              model in registry.modelToUpstreams
              && Covers(attempts, HealthyNames(registry.modelToUpstreams[model], registry.healthByName))
    ensures HealthStable(others) ==> registry.healthByName == old(registry.healthByName)
  {
    attempts, after := [], selections;
    if model !in registry.modelToUpstreams {
      return NotRouted(UnknownModel), attempts, after;
    }
    var selected;
    selected, after := Select(registry, model, {}, selections);
    if selected.Failed? {
      return NotRouted(NoHealthyUpstream), attempts, after;
    }
    TriedOneMore(registry.modelToUpstreams[model], model, outcomes, [], selections, selections, selected.upstream.name);
    assert [] + [selected.upstream.name] == [selected.upstream.name];
    result, attempts, after :=
      TryUpstreams(registry, model, selected.upstream.name, selections, after, outcomes, others);
  }
}
