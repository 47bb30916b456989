/** The accounting ledger over whole runs: what the counters say about how requests ended. */
module LedgerSafety {
  import opened Options
  import opened Counters
  import opened AdmissionConfig
  import opened AdmissionHistory
  import opened Routing
  import opened SseUsage
  import opened Streaming
  import opened LifeCycle
  import opened LeaseSafety

  // ------------------------------------------------------------------ which requests, which entries

  /** Got a response, and ended with it: what the counters by department and model are about. */
  predicate Answered(phase: Phase) {
    Accounted(phase) && phase != Done(TransportFailure)
  }

  predicate Troubled(r: Request) {
    r.phase == Done(TransportFailure) || (r.status.Some? && r.status.value >= 500)
  }

  function AccountedAt(endpoint: string): Request -> bool {
    (r: Request) => Accounted(r.phase) && r.lease.endpoint == endpoint
  }

  function FailedAt(endpoint: string): Request -> bool {
    (r: Request) => r.phase == Done(TransportFailure) && r.lease.endpoint == endpoint
  }

  function AnsweredFor(q: Lease -> bool): Request -> bool {
    (r: Request) => Answered(r.phase) && q(r.lease)
  }

  function TroubledOf(key: Key): Request -> bool {
    (r: Request) => Troubled(r) && KeyOf(r.lease) == key
  }

  function EntriesAt(endpoint: string): ((string, Accounting)) -> bool {
    (entry: (string, Accounting)) => entry.0 == endpoint
  }

  function ModelEntriesAt(endpoint: string, accounting: Accounting): ((Lease, Accounting)) -> bool {
    (entry: (Lease, Accounting)) => entry.0.endpoint == endpoint && entry.1 == accounting
  }

  function ModelEntriesFor(q: Lease -> bool): ((Lease, Accounting)) -> bool {
    (entry: (Lease, Accounting)) => q(entry.0)
  }

  // ------------------------------------------------------------------ one step of one request

  /** From `w` to `v` at most one outcome is accounted, for the endpoint and, if there was a
      response, for the model; a missing response is accounted as missing usage. */
  ghost predicate AccountsFor(w: Work, v: Work, outcome: Option<Accounting>, responded: bool) {
    && v.r.lease == w.r.lease
    && match outcome
       case None =>
         && v.shared.endpointLedger == w.shared.endpointLedger && v.shared.modelLedger == w.shared.modelLedger
         && v.r.records == w.r.records && v.r.modelRecords == w.r.modelRecords
       case Some(accounting) =>
         && (!responded ==> accounting == MissingUsage)
         && v.shared.endpointLedger == Add(w.shared.endpointLedger, (w.r.lease.endpoint, accounting), 1)
         && v.shared.modelLedger == (if responded then Add(w.shared.modelLedger, (w.r.lease, accounting), 1)
                                     else w.shared.modelLedger)
         && v.r.records == w.r.records + 1 && v.r.modelRecords == w.r.modelRecords + One(responded)
  }

  lemma ArriveAccounts(g: Gateway, s: Shared, lease: Lease, streaming: bool)
    requires Routable(g, lease.model)
    ensures AccountsFor(Admit(g, s, lease, streaming), Arrive(g, s, lease, streaming), None, false)
  {
    SelectMeaning(g, Admit(g, s, lease, streaming));
  }

  lemma RetryAccounts(g: Gateway, w: Work) returns (outcome: Option<Accounting>)
    requires Routable(g, w.r.lease.model)
    ensures AccountsFor(w, Retry(g, w), outcome, false)
  {
    SelectMeaning(g, w);
    if Select(g, w) == w {
      outcome := Some(MissingUsage);
    } else {
      outcome := None;
    }
  }

  lemma ReturnAccounts(w: Work, status: int, body: Body) returns (outcome: Option<Accounting>)
    ensures AccountsFor(w, Return(w, status, body), outcome, true)
  {
    match body
    case Unusable => outcome := None;
    case NotJson => outcome := Some(ParseError);
    case Usable(usage) => outcome := Some(UsageSettlement(status, usage).accounting);
  }

  lemma EndStreamAccounts(w: Work, settled: Settlement)
    ensures AccountsFor(w, EndStream(w, settled), Some(settled.accounting), true)
  {
  }

  lemma ActAccounts(g: Gateway, x: Extractor, w: Work, e: Event) returns (outcome: Option<Accounting>, responded: bool)
    ensures AccountsFor(w, Act(g, x, w, e), outcome, responded)
  {
    outcome, responded := None, true;
    var phase := w.r.phase;
    match e
    case ConnectFails =>
      if phase.Attempting? && Routable(g, w.r.lease.model) {
        responded := false;
        outcome := RetryAccounts(g, w);
      }
    case TransportFails =>
      if phase.Attempting? {
        outcome, responded := Some(MissingUsage), false;
      }
    case Responds(status, body) =>
      if phase.Attempting? && !w.r.streaming {
        outcome := ReturnAccounts(w, status, body);
      }
    case Ends(ending, closes) =>
      if phase.StreamingBody? && w.r.status.Some? && closes {
        var settled := Settle(phase.st, phase.gone, ending, w.r.status.value, g.maxBuffer, x);
        EndStreamAccounts(w, settled);
        outcome := Some(settled.accounting);
      }
    case _ =>
  }

  // ------------------------------------------------------------------ the ledger

  /** The endpoint's counts are the model counts summed over departments and models, and the
      transport failures on top of the missing usage. */
  ghost predicate LevelsAgree(s: System, endpoint: string, accounting: Accounting) {
    Get(s.shared.endpointLedger, (endpoint, accounting)) ==
    Total(s.shared.modelLedger, ModelEntriesAt(endpoint, accounting))
    + if accounting == MissingUsage then Count(s.requests, FailedAt(endpoint)) else 0
  }

  /** Each accounted request has one entry at its endpoint. */
  ghost predicate EntriesCountRequests(s: System, endpoint: string) {
    Total(s.shared.endpointLedger, EntriesAt(endpoint)) == Count(s.requests, AccountedAt(endpoint))
  }

  /** Each request answered by an upstream has one entry for its department and model. */
  ghost predicate ModelEntriesCountRequests(s: System, q: Lease -> bool) {
    Total(s.shared.modelLedger, ModelEntriesFor(q)) == Count(s.requests, AnsweredFor(q))
  }

  ghost predicate LedgerHolds(s: System, endpoint: string, accounting: Accounting, q: Lease -> bool) {
    LevelsAgree(s, endpoint, accounting) && EntriesCountRequests(s, endpoint) && ModelEntriesCountRequests(s, q)
  }

  /** A request as it was before the step: for a new one, as admission set it up. */
  ghost predicate Before(w: Work, s: System, id: nat) {
    && w.r.records == One(id in s.requests && Accounted(s.requests[id].phase))
    && w.r.modelRecords == One(id in s.requests && Answered(s.requests[id].phase))
    && (id in s.requests ==> w.r.lease == s.requests[id].lease)
    && w.shared.endpointLedger == s.shared.endpointLedger
    && w.shared.modelLedger == s.shared.modelLedger
  }

  lemma PutKeepsLevels(
    w: Work, v: Work, id: nat, s: System, outcome: Option<Accounting>, responded: bool, g: Gateway,
    endpoint: string, accounting: Accounting)
    requires Before(w, s, id) && AccountsFor(w, v, outcome, responded) && Conforms(g, v.r)
    requires LevelsAgree(s, endpoint, accounting)
    ensures LevelsAgree(Put(v, id, s.requests), endpoint, accounting)
  {
    CountPut(s.requests, id, v.r, FailedAt(endpoint));
    if outcome.Some? && responded {
      TotalAdd(w.shared.modelLedger, (w.r.lease, outcome.value), 1, ModelEntriesAt(endpoint, accounting));
    }
  }

  lemma PutKeepsEntries(
    w: Work, v: Work, id: nat, s: System, outcome: Option<Accounting>, responded: bool, g: Gateway, endpoint: string)
    requires Before(w, s, id) && AccountsFor(w, v, outcome, responded) && Conforms(g, v.r)
    requires EntriesCountRequests(s, endpoint)
    ensures EntriesCountRequests(Put(v, id, s.requests), endpoint)
  {
    CountPut(s.requests, id, v.r, AccountedAt(endpoint));
    if outcome.Some? {
      TotalAdd(w.shared.endpointLedger, (w.r.lease.endpoint, outcome.value), 1, EntriesAt(endpoint));
    }
  }

  lemma PutKeepsModelEntries(
    w: Work, v: Work, id: nat, s: System, outcome: Option<Accounting>, responded: bool, g: Gateway, q: Lease -> bool)
    requires Before(w, s, id) && AccountsFor(w, v, outcome, responded) && Conforms(g, v.r)
    requires ModelEntriesCountRequests(s, q)
    ensures ModelEntriesCountRequests(Put(v, id, s.requests), q)
  {
    CountPut(s.requests, id, v.r, AnsweredFor(q));
    assert AnsweredFor(q)(v.r) <==> Answered(v.r.phase) && q(v.r.lease);
    assert id in s.requests ==>
        (AnsweredFor(q)(s.requests[id]) <==> Answered(s.requests[id].phase) && q(s.requests[id].lease));
    if outcome.Some? && responded {
      TotalAdd(w.shared.modelLedger, (w.r.lease, outcome.value), 1, ModelEntriesFor(q));
    }
  }

  lemma StepKeepsLedger(
    g: Gateway, x: Extractor, s: System, a: Action, endpoint: string, accounting: Accounting, q: Lease -> bool)
    requires AllConform(g, s) && LedgerHolds(s, endpoint, accounting, q)
    ensures LedgerHolds(Apply(g, x, s, a), endpoint, accounting, q)
  {
    match a
    case Tick(_) =>
    case HealthChanges(_, _) =>
    case Arrives(id, lease, streaming) =>
      if id !in s.requests && Routable(g, lease.model) {
        var w := Admit(g, s.shared, lease, streaming);
        ArriveAccounts(g, s.shared, lease, streaming);
        ArriveConforms(g, s.shared, lease, streaming);
        var v := Arrive(g, s.shared, lease, streaming);
        PutKeepsLevels(w, v, id, s, None, false, g, endpoint, accounting);
        PutKeepsEntries(w, v, id, s, None, false, g, endpoint);
        PutKeepsModelEntries(w, v, id, s, None, false, g, q);
      }
    case Happens(id, e) =>
      if id in s.requests {
        var w := Work(s.shared, s.requests[id]);
        var outcome, responded := ActAccounts(g, x, w, e);
        ActConforms(g, x, w, e);
        var v := Act(g, x, w, e);
        PutKeepsLevels(w, v, id, s, outcome, responded, g, endpoint, accounting);
        PutKeepsEntries(w, v, id, s, outcome, responded, g, endpoint);
        PutKeepsModelEntries(w, v, id, s, outcome, responded, g, q);
      }
  }

  /** In every run: the entries at an endpoint are as many as its accounted requests; the entries
      by department and model are as many as the requests an upstream answered; and endpoint and
      model level differ by the transport failures alone, all of them under missing usage. */
  lemma {:induction false} LedgerInEveryRun(
    g: Gateway, x: Extractor, clock: real, health: map<string, Health>, run: seq<Action>,
    endpoint: string, accounting: Accounting, q: Lease -> bool)
    ensures LedgerHolds(Run(g, x, Start(clock, health), run), endpoint, accounting, q)
  {
    if run != [] {
      var before := run[..|run| - 1];
      LedgerInEveryRun(g, x, clock, health, before, endpoint, accounting, q);
      EveryRequestConforms(g, x, clock, health, before);
      StepKeepsLedger(g, x, Run(g, x, Start(clock, health), before), run[|run| - 1], endpoint, accounting, q);
    }
  }

  // ------------------------------------------------------------------ retry events

  /** From `w` to `v` the history of retry events grows by what the request reports. */
  ghost predicate ReportsFor(w: Work, v: Work, key: Key) {
    && v.r.lease == w.r.lease
    && |RetryTimes(v.shared.log, key)| ==
       |RetryTimes(w.shared.log, key)| + if KeyOf(w.r.lease) == key then v.r.retries - w.r.retries else 0
  }

  /** Every other effect leaves retry events alone. */
  lemma OthersReportNothing(w: Work, usage: Option<Usage>, accounting: Accounting, responded: bool, phase: Phase,
                            key: Key)
    ensures ReportsFor(w, Release(w), key) && ReportsFor(w, Charge(w, usage), key)
    ensures ReportsFor(w, Account(w, accounting, responded), key) && ReportsFor(w, Move(w, phase), key)
  {
  }

  lemma ArriveReports(g: Gateway, s: Shared, lease: Lease, streaming: bool, key: Key)
    requires Routable(g, lease.model)
    ensures |RetryTimes(Arrive(g, s, lease, streaming).shared.log, key)| == |RetryTimes(s.log, key)|
  {
    SelectMeaning(g, Admit(g, s, lease, streaming));
  }

  lemma FailReports(w: Work, key: Key)
    ensures ReportsFor(w, Fail(w), key)
  {
    var moved := Move(Account(Report(w), MissingUsage, false), Done(TransportFailure));
    OthersReportNothing(moved, None, MissingUsage, false, w.r.phase, key);
  }

  lemma GotStatusReports(w: Work, status: int, key: Key)
    ensures ReportsFor(w, GotStatus(w, status), key)
  {
  }

  lemma ReturnReports(w: Work, status: int, body: Body, key: Key)
    ensures ReportsFor(w, Return(w, status, body), key)
  {
    GotStatusReports(w, status, key);
    var known := GotStatus(w, status);
    match body
    case Unusable => OthersReportNothing(Move(known, Done(Crashed)), None, MissingUsage, true, w.r.phase, key);
    case NotJson =>
      OthersReportNothing(Move(Account(known, ParseError, true), Done(Returned)), None, MissingUsage, true,
                          w.r.phase, key);
    case Usable(usage) =>
      var settled := UsageSettlement(status, usage);
      var accounted := Account(known, settled.accounting, true);
      OthersReportNothing(accounted, settled.usage, MissingUsage, true, w.r.phase, key);
      OthersReportNothing(Move(Charge(accounted, settled.usage), Done(Returned)), None, MissingUsage, true,
                          w.r.phase, key);
  }

  lemma EndStreamReports(w: Work, settled: Settlement, key: Key)
    ensures ReportsFor(w, EndStream(w, settled), key)
  {
    OthersReportNothing(w, None, MissingUsage, true, w.r.phase, key);
    OthersReportNothing(Account(Move(Release(w), Done(StreamFinished)), settled.accounting, true), settled.usage,
                        MissingUsage, true, w.r.phase, key);
  }

  lemma RetryReports(g: Gateway, w: Work, key: Key)
    requires Routable(g, w.r.lease.model)
    ensures ReportsFor(w, Retry(g, w), key)
  {
    SelectMeaning(g, w);
    FailReports(w, key);
  }

  lemma CrashReports(w: Work, key: Key)
    ensures ReportsFor(w, Release(Move(w, Done(Crashed))), key)
  {
    OthersReportNothing(Move(w, Done(Crashed)), None, MissingUsage, true, w.r.phase, key);
  }

  lemma ActReports(g: Gateway, x: Extractor, w: Work, e: Event, key: Key)
    ensures ReportsFor(w, Act(g, x, w, e), key)
  {
    var phase := w.r.phase;
    match e
    case ConnectFails =>
      if Routable(g, w.r.lease.model) {
        RetryReports(g, w, key);
      }
    case TransportFails => FailReports(w, key);
    case Crashes => CrashReports(w, key);
    case Responds(status, body) => ReturnReports(w, status, body, key);
    case Opens(status) => GotStatusReports(w, status, key);
    case Ends(ending, closes) =>
      if phase.StreamingBody? && w.r.status.Some? {
        EndStreamReports(w, Settle(phase.st, phase.gone, ending, w.r.status.value, g.maxBuffer, x), key);
      }
    case Cancels => CrashReports(w, key);
    case _ =>
  }

  ghost predicate ReportsCountRequests(s: System, key: Key) {
    |RetryTimes(s.shared.log, key)| == Count(s.requests, TroubledOf(key))
  }

  lemma PutKeepsReports(g: Gateway, w: Work, v: Work, id: nat, s: System, key: Key)
    requires id in s.requests && w == Work(s.shared, s.requests[id]) && ReportsFor(w, v, key)
    requires Conforms(g, w.r) && Conforms(g, v.r) && ReportsCountRequests(s, key)
    ensures ReportsCountRequests(Put(v, id, s.requests), key)
  {
    CountPut(s.requests, id, v.r, TroubledOf(key));
  }

  lemma StepKeepsReports(g: Gateway, x: Extractor, s: System, a: Action, key: Key)
    requires AllConform(g, s) && ReportsCountRequests(s, key)
    ensures ReportsCountRequests(Apply(g, x, s, a), key)
  {
    match a
    case Tick(_) =>
    case HealthChanges(_, _) =>
    case Arrives(id, lease, streaming) =>
      if id !in s.requests && Routable(g, lease.model) {
        var v := Arrive(g, s.shared, lease, streaming);
        ArriveReports(g, s.shared, lease, streaming, key);
        SelectMeaning(g, Admit(g, s.shared, lease, streaming));
        CountPut(s.requests, id, v.r, TroubledOf(key));
      }
    case Happens(id, e) =>
      if id in s.requests {
        var w := Work(s.shared, s.requests[id]);
        ActReports(g, x, w, e, key);
        ActConforms(g, x, w, e);
        PutKeepsReports(g, w, Act(g, x, w, e), id, s, key);
      }
  }

  /** In every run the guard of a key has been told of one retry event for each request of the key
      that failed before any response or was answered with a server error, and of no other. */
  lemma {:induction false} RetryEventsInEveryRun(
    g: Gateway, x: Extractor, clock: real, health: map<string, Health>, run: seq<Action>, key: Key)
    ensures ReportsCountRequests(Run(g, x, Start(clock, health), run), key)
  {
    if run != [] {
      var before := run[..|run| - 1];
      RetryEventsInEveryRun(g, x, clock, health, before, key);
      EveryRequestConforms(g, x, clock, health, before);
      StepKeepsReports(g, x, Run(g, x, Start(clock, health), before), run[|run| - 1], key);
    }
  }
}
