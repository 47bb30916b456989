/** Noisy-neighbour isolation: when the department limits of a model fit under its global limit,
    no department can use up another department's share. */
module Isolation {
  import opened Options
  import opened Sequences
  import opened AdmissionConfig
  import opened AdmissionHistory

  ghost predicate UniqueKeys(limits: seq<DepartmentLimit>) {
    DistinctBy(limits, (l: DepartmentLimit) => l.key)
  }

  /** The department limits of one model, added up. */
  function SumLimits(limits: seq<DepartmentLimit>, model: string): int {
    if limits == [] then 0
    else (if limits[0].key.model == model then limits[0].maxActive else 0) + SumLimits(limits[1..], model)
  }

  /** The active requests of all limited departments of one model, added up. */
  function SumActive(limits: seq<DepartmentLimit>, log: seq<Call>, model: string): nat {
    if limits == [] then 0
    else (if limits[0].key.model == model then Active(log, OfKey(limits[0].key)) else 0)
         + SumActive(limits[1..], log, model)
  }

  /** Every department that was ever admitted to the model has a limit for it. */
  ghost predicate EveryUserLimited(cfg: Admission, log: seq<Call>, model: string) {
    forall i | 0 <= i < |log| && log[i].Acquired? && log[i].verdict.Admitted? && log[i].verdict.lease.model == model ::
      LimitOf(cfg.departmentLimits, KeyOf(log[i].verdict.lease)).Some?
  }

  /** A history that differs in the count of one key only moves the sum by that difference. */
  lemma {:induction false} SumActiveMoves(
    limits: seq<DepartmentLimit>, before: seq<Call>, after: seq<Call>, model: string, key: Key)
    requires UniqueKeys(limits)
    requires forall k | k != key :: Active(after, OfKey(k)) == Active(before, OfKey(k))
    ensures SumActive(limits, after, model) == SumActive(limits, before, model)
            + if key.model == model && LimitOf(limits, key).Some?
              then Active(after, OfKey(key)) - Active(before, OfKey(key)) else 0
  {
    if limits != [] {
      SumActiveMoves(limits[1..], before, after, model, key);
      if limits[0].key == key {
        assert forall l <- limits[1..] :: l.key != key;
      }
    }
  }

  /** The counter of the model is covered by the counters of its limited departments, even when
      leases are released more often than they were granted. */
  lemma {:induction false} ModelCoveredByDepartments(cfg: Admission, log: seq<Call>, model: string)
    requires UniqueKeys(cfg.departmentLimits) && EveryUserLimited(cfg, log, model)
    ensures Active(log, OfModel(model)) <= SumActive(cfg.departmentLimits, log, model)
  {
    if log != [] {
      var before, last := log[..|log| - 1], log[|log| - 1];
      assert forall i | 0 <= i < |before| :: before[i] == log[i];
      ModelCoveredByDepartments(cfg, before, model);
      match last
      case Acquired(_, _, Admitted(lease)) =>
        SumActiveMoves(cfg.departmentLimits, before, log, model, KeyOf(lease));
      case Released(lease) =>
        SumActiveMoves(cfg.departmentLimits, before, log, model, KeyOf(lease));
      case _ =>
        SumActiveMoves(cfg.departmentLimits, before, log, model, Key("", model));
    }
  }

  /** A department below its own limit keeps the whole sum below the sum of the limits. */
  lemma {:induction false} SumBelowLimits(
    cfg: Admission, limits: seq<DepartmentLimit>, log: seq<Call>, model: string, key: Key)
    requires Bounds(cfg) && GrantedWithRoom(cfg, log) && UniqueKeys(cfg.departmentLimits)
    requires forall l <- limits :: l in cfg.departmentLimits
    ensures SumActive(limits, log, model) <= SumLimits(limits, model)
    ensures key.model == model && LimitOf(limits, key).Some?
              && Active(log, OfKey(key)) < LimitOf(limits, key).value
            ==> SumActive(limits, log, model) < SumLimits(limits, model)
  {
    if limits != [] {
      SumBelowLimits(cfg, limits[1..], log, model, key);
      LimitsHold(cfg, log, model, limits[0].key);
      assert limits[0] in cfg.departmentLimits;
      UniqueEntry(cfg.departmentLimits, limits[0]);
    }
  }

  lemma {:induction false} UniqueEntry(limits: seq<DepartmentLimit>, entry: DepartmentLimit)
    requires UniqueKeys(limits) && entry in limits
    ensures LimitOf(limits, entry.key) == Some(entry.maxActive)
  {
    if limits[0] != entry {
      var i :| 0 <= i < |limits| && limits[i] == entry;
      assert limits[1..][i - 1] == entry;
      UniqueEntry(limits[1..], entry);
    }
  }

  /** If every department using a model has a limit and the limits add up to at most the global
      limit, a department below its own limit is never refused for concurrency, whatever the
      other departments did. */
  lemma NoisyNeighbour(cfg: Admission, log: seq<Call>, spent: int, now: real, lease: Lease)
    requires Bounds(cfg) && UniqueKeys(cfg.departmentLimits) && GrantedWithRoom(cfg, log)
    requires EveryUserLimited(cfg, log, lease.model)
    requires lease.model in cfg.globalLimits ==>
               SumLimits(cfg.departmentLimits, lease.model) <= cfg.globalLimits[lease.model]
    requires LimitOf(cfg.departmentLimits, KeyOf(lease)).Some?
    requires Active(log, OfKey(KeyOf(lease))) < LimitOf(cfg.departmentLimits, KeyOf(lease)).value
    ensures HasRoom(cfg, log, lease)
    ensures var verdict := DecideGiven(cfg, log, spent, now, lease);
            verdict.Rejected? ==> verdict.reason in {RetryGuardOpen, TokenBudgetSpent}
  {
    ModelCoveredByDepartments(cfg, log, lease.model);
    SumBelowLimits(cfg, cfg.departmentLimits, log, lease.model, KeyOf(lease));
  }
}
