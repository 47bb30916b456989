/** What is counted about a finished request: each request once, and each failure with it. */
module RequestMetrics {
  import opened Options
  import opened Counters

  /** The labels of the request counter; the failure and model counters extend them. */
  datatype Tag = Tag(department: string, endpoint: string, verb: string, statusClass: string)

  datatype Snapshot = Snapshot(
    department: Option<string>,
    endpoint: Option<string>,
    model: Option<string>,
    verb: string,
    status: int,
    seconds: real,
    origin: Option<string>)

  /** The metrics state of a request, as attributes on it; one that was never initialised has no
      starting time. */
  datatype Tracking = Tracking(
    verb: string,
    startedAt: Option<real>,
    recorded: bool,
    endpoint: Option<string>,
    department: Option<string>,
    model: Option<string>,
    statusOverride: Option<int>,
    origin: Option<string>)

  function StatusClass(status: int): (c: string)
    ensures c == "4xx" <==> 400 <= status <= 499
    ensures c == "2xx" <==> 200 <= status <= 299
    ensures status >= 500 ==> c == "5xx"
  {
    if 200 <= status < 300 then "2xx"
    else if 400 <= status < 500 then "4xx"
    else "5xx"
  }

  predicate HasContext(s: Snapshot) {
    s.department.Some? && s.endpoint.Some?
  }

  /** The labels of a request that counts. */
  function TagOf(s: Snapshot): Tag
    requires HasContext(s)
  {
    Tag(s.department.value, s.endpoint.value, s.verb, StatusClass(s.status))
  }

  /** What is known of a request; an error without a stated origin is the gateway's own. */
  function SnapshotOf(t: Tracking, defaultStatus: int, now: real): Option<Snapshot> {
    if t.startedAt.None? then None
    else
      var status := if t.statusOverride.Some? then t.statusOverride.value else defaultStatus;
      var origin := if t.origin.None? && status >= 400 then Some("gateway") else t.origin;
      Some(Snapshot(t.department, t.endpoint, t.model, t.verb, status, now - t.startedAt.value, origin))
  }

  // ------------------------------------------------------------------ what counters stand for

  ghost predicate Countable(observed: seq<Snapshot>) {
    forall s <- observed :: HasContext(s) && (s.status >= 400 ==> s.origin.Some?)
  }

  /** The request counter after these requests. */
  ghost function RequestsOf(observed: seq<Snapshot>): Counter<Tag>
    requires Countable(observed)
  {
    if observed == [] then map[] else Add(RequestsOf(observed[..|observed| - 1]), TagOf(observed[|observed| - 1]), 1)
  }

  ghost function ModelRequestsOf(observed: seq<Snapshot>): Counter<(Tag, string)>
    requires Countable(observed)
  {
    if observed == [] then map[]
    else
      var before, last := ModelRequestsOf(observed[..|observed| - 1]), observed[|observed| - 1];
      if last.model.Some? then Add(before, (TagOf(last), last.model.value), 1) else before
  }

  /** The failure counter: requests with an error status, by origin. */
  ghost function FailuresOf(observed: seq<Snapshot>): Counter<(Tag, string)>
    requires Countable(observed)
  {
    if observed == [] then map[]
    else
      var before, last := FailuresOf(observed[..|observed| - 1]), observed[|observed| - 1];
      if last.status >= 400 then Add(before, (TagOf(last), last.origin.value), 1) else before
  }

  /** How many of these requests count under `p` without having an error status. */
  function NotFailed(observed: seq<Snapshot>, p: Tag -> bool): nat {
    if observed == [] then 0
    else
      var last := observed[|observed| - 1];
      NotFailed(observed[..|observed| - 1], p)
      + if HasContext(last) && last.status < 400 && p(TagOf(last)) then 1 else 0
  }

  function AnyOrigin(p: Tag -> bool): ((Tag, string)) -> bool {
    (entry: (Tag, string)) => p(entry.0)
  }

  function InClass(statusClass: string): Tag -> bool {
    (tag: Tag) => tag.statusClass == statusClass
  }

  /** Whatever requests are selected by their labels: failures summed over origins are the
      requests, except those without an error status. */
  lemma {:induction false} FailuresAreRequests(observed: seq<Snapshot>, p: Tag -> bool)
    requires Countable(observed)
    ensures Total(FailuresOf(observed), AnyOrigin(p)) + NotFailed(observed, p) == Total(RequestsOf(observed), p)
  {
    if observed != [] {
      var before, last := observed[..|observed| - 1], observed[|observed| - 1];
      FailuresAreRequests(before, p);
      TotalAdd(RequestsOf(before), TagOf(last), 1, p);
      if last.status >= 400 {
        TotalAdd(FailuresOf(before), (TagOf(last), last.origin.value), 1, AnyOrigin(p));
      }
    }
  }

  lemma {:induction false} ClassTellsFailure(observed: seq<Snapshot>)
    requires Countable(observed)
    ensures NotFailed(observed, InClass("4xx")) == 0
    ensures NotFailed(observed, InClass("2xx")) == Total(RequestsOf(observed), InClass("2xx"))
  {
    if observed != [] {
      var before, last := observed[..|observed| - 1], observed[|observed| - 1];
      ClassTellsFailure(before);
      TotalAdd(RequestsOf(before), TagOf(last), 1, InClass("2xx"));
    }
  }

  /** Failures by class: none among the 2xx requests, all of the 4xx requests, and all of the 5xx
      requests except those that are in that class only because their status is below 400 and
      not a success. */
  lemma FailuresByClass(observed: seq<Snapshot>)
    requires Countable(observed)
    ensures Total(FailuresOf(observed), AnyOrigin(InClass("2xx"))) == 0
    ensures Total(FailuresOf(observed), AnyOrigin(InClass("4xx"))) == Total(RequestsOf(observed), InClass("4xx"))
    ensures Total(FailuresOf(observed), AnyOrigin(InClass("5xx"))) ==
            Total(RequestsOf(observed), InClass("5xx")) - NotFailed(observed, InClass("5xx"))
  {
    FailuresAreRequests(observed, InClass("2xx"));
    FailuresAreRequests(observed, InClass("4xx"));
    FailuresAreRequests(observed, InClass("5xx"));
    ClassTellsFailure(observed);
  }

  predicate ClearStatus(s: Snapshot) {
    200 <= s.status < 300 || s.status >= 400
  }

  lemma {:induction false} UnclearStatusesCount(observed: seq<Snapshot>)
    requires Countable(observed)
    ensures NotFailed(observed, InClass("5xx")) == 0 <==> forall s <- observed :: ClearStatus(s)
  {
    if observed != [] {
      var before, last := observed[..|observed| - 1], observed[|observed| - 1];
      UnclearStatusesCount(before);
      assert last in observed && (forall s <- before :: s in observed);
      assert forall s <- observed :: s in before || s == last;
      assert InClass("5xx")(TagOf(last)) <==> StatusClass(last.status) == "5xx";
      assert StatusClass(last.status) == "5xx" && last.status < 400 <==> !ClearStatus(last);
    }
  }

  /** The failures of class 5xx are its requests exactly when every status is a success or an error. */
  lemma FailuresMatchIff(observed: seq<Snapshot>)
    requires Countable(observed)
    ensures Total(FailuresOf(observed), AnyOrigin(InClass("5xx"))) == Total(RequestsOf(observed), InClass("5xx")) <==>
            forall s <- observed :: ClearStatus(s)
  {
    FailuresByClass(observed);
    UnclearStatusesCount(observed);
  }

  /** A redirect counts as a 5xx request, and not as a failure. */
  lemma RedirectIsNoFailure(s: Snapshot)
    requires HasContext(s) && s.status == 302
    ensures Total(RequestsOf([s]), InClass("5xx")) == 1
    ensures Total(FailuresOf([s]), AnyOrigin(InClass("5xx"))) == 0
  {
    FailuresByClass([s]);
    assert [s][..0] == [];
    TotalAdd(map[], TagOf(s), 1, InClass("5xx"));
    assert RequestsOf([s]) == Add(map[], TagOf(s), 1);
    assert NotFailed([s], InClass("5xx")) == 1;
  }

  lemma {:induction false} EachCountedOnce(observed: seq<Snapshot>)
    requires Countable(observed)
    ensures Total(RequestsOf(observed), _ => true) == |observed|
  {
    if observed != [] {
      EachCountedOnce(observed[..|observed| - 1]);
      TotalAdd(RequestsOf(observed[..|observed| - 1]), TagOf(observed[|observed| - 1]), 1, _ => true);
    }
  }

  /** How many of these requests satisfy `p`. */
  function CountIf(observed: seq<Snapshot>, p: Snapshot -> bool): nat {
    if observed == [] then 0
    else CountIf(observed[..|observed| - 1], p) + if p(observed[|observed| - 1]) then 1 else 0
  }

  function Tagged(tag: Tag): Snapshot -> bool {
    (s: Snapshot) =>
      s.department == Some(tag.department) && s.endpoint == Some(tag.endpoint) && s.verb == tag.verb
      && StatusClass(s.status) == tag.statusClass
  }

  function TaggedFor(tag: Tag, model: string): Snapshot -> bool {
    (s: Snapshot) => Tagged(tag)(s) && s.model == Some(model)
  }

  function FailedWith(tag: Tag, origin: string): Snapshot -> bool {
    (s: Snapshot) => Tagged(tag)(s) && s.status >= 400 && s.origin == Some(origin)
  }

  /** Each counter at each label is the number of counted requests with just these properties. */
  lemma {:induction false} CountersTellHistory(observed: seq<Snapshot>, tag: Tag, model: string, origin: string)
    requires Countable(observed)
    ensures Get(RequestsOf(observed), tag) == CountIf(observed, Tagged(tag))
    ensures Get(ModelRequestsOf(observed), (tag, model)) == CountIf(observed, TaggedFor(tag, model))
    ensures Get(FailuresOf(observed), (tag, origin)) == CountIf(observed, FailedWith(tag, origin))
  {
    if observed != [] {
      var last := observed[|observed| - 1];
      CountersTellHistory(observed[..|observed| - 1], tag, model, origin);
      assert last in observed;
      assert Tagged(tag)(last) <==> TagOf(last) == tag;
      assert TaggedFor(tag, model)(last) <==> TagOf(last) == tag && last.model == Some(model);
      assert FailedWith(tag, origin)(last) <==> TagOf(last) == tag && last.status >= 400 && last.origin == Some(origin);
    }
  }

  // ------------------------------------------------------------------ one request over time

  datatype Op =
    | SetContext(department: string, endpoint: string)
    | SetModel(model: string)
    | SetStatusOverride(status: int)
    | SetFailureOrigin(origin: string)
    | Finalize(defaultStatus: int, now: real)

  predicate Live(t: Tracking) {
    t.startedAt.Some? && !t.recorded
  }

  function Step(t: Tracking, op: Op): Tracking {
    match op
    case SetContext(department, endpoint) => t.(department := Some(department), endpoint := Some(endpoint))
    case SetModel(model) => t.(model := Some(model))
    case SetStatusOverride(status) => t.(statusOverride := Some(status))
    case SetFailureOrigin(origin) => t.(origin := Some(origin))
    case Finalize(_, _) => if Live(t) then t.(recorded := true) else t
  }

  function Steps(t: Tracking, ops: seq<Op>): Tracking {
    if ops == [] then t else Step(Steps(t, ops[..|ops| - 1]), ops[|ops| - 1])
  }

  /** What one operation gets counted. */
  function Counted(t: Tracking, op: Op): seq<Snapshot> {
    if !op.Finalize? || !Live(t) then []
    else
      var snapshot := SnapshotOf(t, op.defaultStatus, op.now).value;
      if HasContext(snapshot) then [snapshot] else []
  }

  /** What a sequence of operations gets counted. */
  function AllCounted(t: Tracking, ops: seq<Op>): seq<Snapshot> {
    if ops == [] then []
    else AllCounted(t, ops[..|ops| - 1]) + Counted(Steps(t, ops[..|ops| - 1]), ops[|ops| - 1])
  }

  /** The position of the first finalisation, or the length if there is none. */
  function FirstFinalize(ops: seq<Op>): (n: nat)
    ensures n <= |ops|
    ensures forall i | 0 <= i < n :: !ops[i].Finalize?
    ensures n < |ops| ==> ops[n].Finalize?
  {
    if ops == [] then 0 else if ops[0].Finalize? then 0 else 1 + FirstFinalize(ops[1..])
  }

  lemma {:induction false} LiveUntilFinalized(t: Tracking, ops: seq<Op>)
    requires Live(t)
    ensures Live(Steps(t, ops)) <==> FirstFinalize(ops) == |ops|
    ensures Steps(t, ops).startedAt.Some?
  {
    if ops != [] {
      LiveUntilFinalized(t, ops[..|ops| - 1]);
      FirstOfPrefix(ops, |ops| - 1);
    }
  }

  lemma {:induction false} FirstOfPrefix(ops: seq<Op>, n: nat)
    requires n <= |ops|
    ensures FirstFinalize(ops[..n]) == if FirstFinalize(ops) < n then FirstFinalize(ops) else n
  {
    if n > 0 && !ops[0].Finalize? {
      assert ops[..n][1..] == ops[1..][..n - 1];
      FirstOfPrefix(ops[1..], n - 1);
    }
  }

  lemma {:induction false} NothingBefore(t: Tracking, ops: seq<Op>)
    requires forall i | 0 <= i < |ops| :: !ops[i].Finalize?
    ensures AllCounted(t, ops) == []
  {
    if ops != [] {
      NothingBefore(t, ops[..|ops| - 1]);
    }
  }

  lemma {:induction false} NothingAfter(t: Tracking, ops: seq<Op>, more: seq<Op>)
    requires !Live(Steps(t, ops))
    ensures AllCounted(t, ops + more) == AllCounted(t, ops) && !Live(Steps(t, ops + more))
  {
    if more == [] {
      assert ops + more == ops;
    } else {
      assert (ops + more)[..|ops + more| - 1] == ops + more[..|more| - 1];
      NothingAfter(t, ops, more[..|more| - 1]);
    }
  }

  lemma CountedThen(t: Tracking, ops: seq<Op>, op: Op)
    ensures AllCounted(t, ops + [op]) == AllCounted(t, ops) + Counted(Steps(t, ops), op)
    ensures Steps(t, ops + [op]) == Step(Steps(t, ops), op)
  {
    assert (ops + [op])[..|ops|] == ops;
  }

  lemma CountedAtFirst(t: Tracking, before: seq<Op>, op: Op, more: seq<Op>)
    requires op.Finalize? && forall i | 0 <= i < |before| :: !before[i].Finalize?
    ensures AllCounted(t, before + [op] + more) == Counted(Steps(t, before), op)
  {
    NothingBefore(t, before);
    CountedThen(t, before, op);
    NothingAfter(t, before + [op], more);
  }

  lemma SplitAt<T>(s: seq<T>, n: nat)
    requires n < |s|
    ensures s == s[..n] + [s[n]] + s[n + 1..]
  {
  }

  /** Of a live request, exactly the first finalisation counts: the request is counted once if it
      has department and endpoint by then, and never otherwise, whatever happens afterwards. */
  lemma FirstFinalizationCounts(t: Tracking, ops: seq<Op>)
    requires Live(t)
    ensures var n := FirstFinalize(ops);
            AllCounted(t, ops) == if n < |ops| then Counted(Steps(t, ops[..n]), ops[n]) else []
  {
    var n := FirstFinalize(ops);
    if n < |ops| {
      SplitAt(ops, n);
      CountedAtFirst(t, ops[..n], ops[n], ops[n + 1..]);
    } else {
      NothingBefore(t, ops);
    }
  }

  // ------------------------------------------------------------------ what a finalisation counts

  /** The value that the last of these operations set, if any of them did. */
  ghost predicate LastSet<T>(ops: seq<Op>, value: Op -> Option<T>, last: Option<T>) {
    match last
    case None => forall i | 0 <= i < |ops| :: value(ops[i]).None?
    case Some(v) =>
      exists i | 0 <= i < |ops| ::
        value(ops[i]) == Some(v) && forall j | i < j < |ops| :: value(ops[j]).None?
  }

  const STATUS: Op -> Option<int> := (op: Op) => if op.SetStatusOverride? then Some(op.status) else None

  const ORIGIN: Op -> Option<string> := (op: Op) => if op.SetFailureOrigin? then Some(op.origin) else None

  const MODEL: Op -> Option<string> := (op: Op) => if op.SetModel? then Some(op.model) else None

  const DEPARTMENT: Op -> Option<string> := (op: Op) => if op.SetContext? then Some(op.department) else None

  const ENDPOINT: Op -> Option<string> := (op: Op) => if op.SetContext? then Some(op.endpoint) else None

  /** The last value set, or what was there before. */
  ghost predicate LastSetOr<T>(ops: seq<Op>, value: Op -> Option<T>, before: Option<T>, now: Option<T>) {
    LastSet(ops, value, now) || (LastSet(ops, value, None) && now == before)
  }

  lemma LastSetSnoc<T>(ops: seq<Op>, op: Op, value: Op -> Option<T>, before: Option<T>, now: Option<T>)
    requires LastSetOr(ops, value, before, now)
    ensures LastSetOr(ops + [op], value, before, if value(op).Some? then value(op) else now)
  {
    var more := ops + [op];
    assert forall i | 0 <= i < |ops| :: more[i] == ops[i];
    assert more[|ops|] == op;
    if value(op).None? && LastSet(ops, value, now) && now.Some? {
      var i :| 0 <= i < |ops| && value(ops[i]) == now && forall j | i < j < |ops| :: value(ops[j]).None?;
      assert value(more[i]) == now && forall j | i < j < |more| :: value(more[j]).None?;
    }
  }

  /** What is known of a request after some operations: the last value set for each field. */
  ghost predicate KnownFrom(before: Tracking, ops: seq<Op>, now: Tracking) {
    && now.verb == before.verb && now.startedAt == before.startedAt
    && LastSetOr(ops, STATUS, before.statusOverride, now.statusOverride)
    && LastSetOr(ops, ORIGIN, before.origin, now.origin)
    && LastSetOr(ops, MODEL, before.model, now.model)
    && LastSetOr(ops, DEPARTMENT, before.department, now.department)
    && LastSetOr(ops, ENDPOINT, before.endpoint, now.endpoint)
  }

  lemma {:induction false} StepsKnow(t: Tracking, ops: seq<Op>)
    ensures KnownFrom(t, ops, Steps(t, ops))
  {
    if ops != [] {
      var before, op := ops[..|ops| - 1], ops[|ops| - 1];
      var now := Steps(t, before);
      StepsKnow(t, before);
      assert before + [op] == ops;
      LastSetSnoc(before, op, STATUS, t.statusOverride, now.statusOverride);
      LastSetSnoc(before, op, ORIGIN, t.origin, now.origin);
      LastSetSnoc(before, op, MODEL, t.model, now.model);
      LastSetSnoc(before, op, DEPARTMENT, t.department, now.department);
      LastSetSnoc(before, op, ENDPOINT, t.endpoint, now.endpoint);
    }
  }

  /** A request as it is just after its initialisation. */
  function Fresh(verb: string, startedAt: real): Tracking {
    Tracking(verb, Some(startedAt), false, None, None, None, None, None)
  }

  /** What is counted for a request with this much known: nothing without department and endpoint; the
      status override goes before the default status, and an error without origin is the gateway's. */
  function CountedFor(
    department: Option<string>, endpoint: Option<string>, model: Option<string>, verb: string, status: int,
    seconds: real, origin: Option<string>): seq<Snapshot>
  {
    if department.None? || endpoint.None? then []
    else
      [Snapshot(department, endpoint, model, verb, status, seconds,
                if origin.None? && status >= 400 then Some("gateway") else origin)]
  }

  /** What the first finalisation has to count, in terms of the operations `ops` before it: department,
      endpoint, model, status override and origin as last set. */
  ghost predicate CountsAs(
    verb: string, startedAt: real, ops: seq<Op>, defaultStatus: int, now: real, counted: seq<Snapshot>)
  {
    exists department, endpoint, model, status, origin ::
      && LastSet(ops, DEPARTMENT, department) && LastSet(ops, ENDPOINT, endpoint) && LastSet(ops, MODEL, model)
      && LastSet(ops, STATUS, status) && LastSet(ops, ORIGIN, origin)
      && counted == CountedFor(department, endpoint, model, verb,
                               if status.Some? then status.value else defaultStatus, now - startedAt, origin)
  }

  lemma KnownIsCounted(verb: string, startedAt: real, ops: seq<Op>, known: Tracking, defaultStatus: int, now: real)
    requires KnownFrom(Fresh(verb, startedAt), ops, known) && Live(known)
    ensures CountsAs(verb, startedAt, ops, defaultStatus, now, Counted(known, Finalize(defaultStatus, now)))
  {
  }

  /** An initialised request is counted by its first finalisation and by no other, with what was last
      set before it. */
  lemma FinalizationCounts(verb: string, startedAt: real, ops: seq<Op>)
    ensures var n, counted := FirstFinalize(ops), AllCounted(Fresh(verb, startedAt), ops);
            if n == |ops| then counted == []
            else CountsAs(verb, startedAt, ops[..n], ops[n].defaultStatus, ops[n].now, counted)
  {
    var t, n := Fresh(verb, startedAt), FirstFinalize(ops);
    FirstFinalizationCounts(t, ops);
    if n < |ops| {
      StepsKnow(t, ops[..n]);
      LiveUntilFinalized(t, ops[..n]);
      FirstOfPrefix(ops, n);
      KnownIsCounted(verb, startedAt, ops[..n], Steps(t, ops[..n]), ops[n].defaultStatus, ops[n].now);
    }
  }

  // ------------------------------------------------------------------ the source's objects

  class RequestState {
    const verb: string
    var startedAt: Option<real>
    var recorded: bool
    var endpoint: Option<string>
    var department: Option<string>
    var model: Option<string>
    var statusOverride: Option<int>
    var origin: Option<string>

    function Tracked(): Tracking
      reads this
    {
      Tracking(verb, startedAt, recorded, endpoint, department, model, statusOverride, origin)
    }

    constructor (verb: string)
      ensures Tracked() == Tracking(verb, None, false, None, None, None, None, None)
    {
      this.verb := verb;
      startedAt, recorded := None, false;
      endpoint, department, model, statusOverride, origin := None, None, None, None, None;
    }

    method Initialize(now: real)
      modifies this
      ensures Tracked() == Fresh(verb, now) && Live(Tracked())
    {
      startedAt, recorded := Some(now), false;
      endpoint, department, model, statusOverride, origin := None, None, None, None, None;
    }

    method SetContext(department: string, endpoint: string)
      modifies this
      ensures Tracked() == Step(old(Tracked()), Op.SetContext(department, endpoint))
    {
      this.department, this.endpoint := Some(department), Some(endpoint);
    }

    method SetModel(model: string)
      modifies this
      ensures Tracked() == Step(old(Tracked()), Op.SetModel(model))
    {
      this.model := Some(model);
    }

    method SetStatusOverride(status: int)
      modifies this
      ensures Tracked() == Step(old(Tracked()), Op.SetStatusOverride(status))
    {
      statusOverride := Some(status);
    }

    method SetFailureOrigin(origin: string)
      modifies this
      ensures Tracked() == Step(old(Tracked()), Op.SetFailureOrigin(origin))
    {
      this.origin := Some(origin);
    }

    /** Counts the request, unless it was counted before or never initialised. */
    method Finalize(metrics: GatewayMetrics, defaultStatus: int, now: real) returns (snapshot: Option<Snapshot>)
      requires metrics.Valid()
      modifies this, metrics
      ensures metrics.Valid()
      ensures Tracked() == Step(old(Tracked()), Op.Finalize(defaultStatus, now))
      ensures metrics.observed == old(metrics.observed) + Counted(old(Tracked()), Op.Finalize(defaultStatus, now))
      ensures snapshot == if Live(old(Tracked())) then SnapshotOf(old(Tracked()), defaultStatus, now) else None
    {
      if recorded {
        return None;
      }
      snapshot := SnapshotOf(Tracked(), defaultStatus, now);
      if snapshot.None? {
        return;
      }
      if HasContext(snapshot.value) {
        metrics.Observe(snapshot.value);
      }
      recorded := true;
    }
  }

  class GatewayMetrics {
    var requests: Counter<Tag>
    var modelRequests: Counter<(Tag, string)>
    var failures: Counter<(Tag, string)>
    ghost var observed: seq<Snapshot>

    ghost predicate Valid()
      reads this
    {
      && Countable(observed)
      && requests == RequestsOf(observed)
      && modelRequests == ModelRequestsOf(observed)
      && failures == FailuresOf(observed)
    }

    constructor ()
      ensures Valid() && observed == []
    {
      requests, modelRequests, failures, observed := map[], map[], map[], [];
    }

    method ObserveRequest(department: string, endpoint: string, verb: string, status: int)
      modifies this`requests
      ensures requests == Add(old(requests), Tag(department, endpoint, verb, StatusClass(status)), 1)
    {
      requests := Add(requests, Tag(department, endpoint, verb, StatusClass(status)), 1);
    }

    method ObserveModelRequest(department: string, model: string, endpoint: string, verb: string, status: int)
      modifies this`modelRequests
      ensures modelRequests ==
              Add(old(modelRequests), (Tag(department, endpoint, verb, StatusClass(status)), model), 1)
    {
      modelRequests := Add(modelRequests, (Tag(department, endpoint, verb, StatusClass(status)), model), 1);
    }

    method RecordRequestFailure(department: string, endpoint: string, verb: string, status: int, origin: string)
      modifies this`failures
      ensures failures == if status < 400 then old(failures)
                          else Add(old(failures), (Tag(department, endpoint, verb, StatusClass(status)), origin), 1)
    {
      if status < 400 {
        return;
      }
      failures := Add(failures, (Tag(department, endpoint, verb, StatusClass(status)), origin), 1);
    }

    /** Counts a request in all three counters. */
    method Observe(s: Snapshot)
      requires Valid() && HasContext(s) && (s.status >= 400 ==> s.origin.Some?)
      modifies this
      ensures Valid() && observed == old(observed) + [s]
    {
      observed := observed + [s];
      assert observed[..|observed| - 1] == old(observed);
      ObserveRequest(s.department.value, s.endpoint.value, s.verb, s.status);
      if s.model.Some? {
        ObserveModelRequest(s.department.value, s.model.value, s.endpoint.value, s.verb, s.status);
      }
      if s.origin.Some? {
        RecordRequestFailure(s.department.value, s.endpoint.value, s.verb, s.status, s.origin.value);
      }
    }

    /** Each counter, at each label, counts the requests with just these properties. */
    lemma CountersAreCounts(tag: Tag, model: string, origin: string)
      requires Valid()
      ensures Get(requests, tag) == CountIf(observed, Tagged(tag))
      ensures Get(modelRequests, (tag, model)) == CountIf(observed, TaggedFor(tag, model))
      ensures Get(failures, (tag, origin)) == CountIf(observed, FailedWith(tag, origin))
    {
      CountersTellHistory(observed, tag, model, origin);
    }

    /** What the counters themselves say, whatever was finalised and how often. */
    lemma FailuresAreConserved()
      requires Valid()
      ensures Total(requests, _ => true) == |observed|
      ensures Total(failures, AnyOrigin(InClass("4xx"))) == Total(requests, InClass("4xx"))
      ensures Total(failures, AnyOrigin(InClass("5xx"))) ==
              Total(requests, InClass("5xx")) - NotFailed(observed, InClass("5xx"))
    {
      EachCountedOnce(observed);
      FailuresByClass(observed);
    }
  }
}
