/** The admission section of the configuration: its records, their bounds, and the two
    first-match scans that admission control performs over its lists. */
module AdmissionConfig {
  import opened Options

  datatype Key = Key(department: string, model: string)

  datatype DepartmentLimit = DepartmentLimit(key: Key, maxActive: int)

  datatype TokenBudget = TokenBudget(key: Key, maxTokens: int, window: real)

  datatype ShapeLimit = ShapeLimit(maxBody: Option<int>, maxOutput: Option<int>, rejectN: bool)

  datatype RetryGuard = RetryGuard(enabled: bool, window: real, maxEvents: int, cooldown: real)

  datatype Admission = Admission(
    enabled: bool,
    defaultRetryAfter: int,
    globalLimits: map<string, int>,
    departmentLimits: seq<DepartmentLimit>,
    tokenBudgets: seq<TokenBudget>,
    shapeLimits: map<string, ShapeLimit>,
    guard: RetryGuard)

  predicate GuardBounds(g: RetryGuard) {
    g.window > 0.0 && g.maxEvents > 0 && g.cooldown > 0.0
  }

  /** The positivity bounds declared on the fields. */
  predicate Bounds(c: Admission) {
    && c.defaultRetryAfter > 0
    && (forall m <- c.globalLimits :: c.globalLimits[m] > 0)
    && (forall l <- c.departmentLimits :: l.maxActive > 0)
    && (forall b <- c.tokenBudgets :: b.maxTokens > 0 && b.window > 0.0)
    && (forall m <- c.shapeLimits :: ShapeBounds(c.shapeLimits[m]))
    && GuardBounds(c.guard)
  }

  predicate ShapeBounds(s: ShapeLimit) {
    (s.maxBody.Some? ==> s.maxBody.value > 0) && (s.maxOutput.Some? ==> s.maxOutput.value > 0)
  }

  function LimitOf(limits: seq<DepartmentLimit>, key: Key): (r: Option<int>)
    ensures r.Some? ==> DepartmentLimit(key, r.value) in limits
    ensures r.None? <==> forall l <- limits :: l.key != key
  {
    if limits == [] then None
    else if limits[0].key == key then Some(limits[0].maxActive)
    else LimitOf(limits[1..], key)
  }

  function BudgetOf(budgets: seq<TokenBudget>, key: Key): (r: Option<TokenBudget>)
    ensures r.Some? ==> r.value in budgets && r.value.key == key
    ensures r.None? <==> forall b <- budgets :: b.key != key
  {
    if budgets == [] then None
    else if budgets[0].key == key then Some(budgets[0])
    else BudgetOf(budgets[1..], key)
  }
}
