/** Lease accounting over whole runs: the counters of admission control are the numbers of leases
    not yet given back, whatever order requests, ticks and health changes come in. */
module LeaseSafety {
  import opened Options
  import opened Counters
  import opened AdmissionConfig
  import opened AdmissionHistory
  import opened Routing
  import opened SseUsage
  import opened Streaming
  import opened LifeCycle
  import opened AdmissionController

  // ------------------------------------------------------------------ counting requests

  function Matching(requests: map<nat, Request>, p: Request -> bool): set<nat> {
    set id <- requests | p(requests[id])
  }

  /** How many requests satisfy `p`. */
  function Count(requests: map<nat, Request>, p: Request -> bool): nat {
    |Matching(requests, p)|
  }

  lemma CountPut(requests: map<nat, Request>, id: nat, r: Request, p: Request -> bool)
    ensures Count(requests[id := r], p) ==
            Count(requests, p) - One(id in requests && p(requests[id])) + One(p(r))
  {
    var before, after := Matching(requests, p), Matching(requests[id := r], p);
    assert after - {id} == before - {id};
    assert |before| == |before - {id}| + One(id in before);
    assert |after| == |after - {id}| + One(id in after);
  }

  /** Holds a lease that satisfies `q` and has not given it back. */
  function Holding(q: Lease -> bool): Request -> bool {
    (r: Request) => r.leased && r.releases == 0 && q(r.lease)
  }

  // ------------------------------------------------------------------ balance

  /** The history grants and releases leases in balance: what is outstanding is held by this
      request or by `others` more. */
  ghost predicate InBalance(w: Work, others: nat, q: Lease -> bool) {
    Bracketed(w.shared.log, q) && Outstanding(w.shared.log, q) == others + One(Holding(q)(w.r))
  }

  lemma BracketedSnoc(log: seq<Call>, c: Call, q: Lease -> bool)
    requires Bracketed(log, q) && Outstanding(Snoc(log, c), q) >= 0
    ensures Bracketed(Snoc(log, c), q)
  {
    var after := Snoc(log, c);
    forall n | 0 <= n <= |after| ensures Outstanding(after[..n], q) >= 0 {
      if n <= |log| {
        assert after[..n] == log[..n];
      } else {
        assert after[..n] == after;
      }
    }
  }

  lemma AdmitBalances(g: Gateway, s: Shared, lease: Lease, streaming: bool, others: nat, q: Lease -> bool)
    requires Bracketed(s.log, q) && Outstanding(s.log, q) == others
    ensures InBalance(Admit(g, s, lease, streaming), others, q)
  {
    BracketedSnoc(s.log, Acquired(s.clock, KeyOf(lease), Decide(g.admission, s.log, s.clock, lease)), q);
  }

  lemma ReleaseBalances(w: Work, others: nat, q: Lease -> bool)
    requires InBalance(w, others, q) && w.r.releases == 0
    ensures InBalance(Release(w), others, q)
  {
    if w.r.leased {
      BracketedSnoc(w.shared.log, Released(w.r.lease), q);
    }
  }

  lemma ReportBalances(w: Work, others: nat, q: Lease -> bool)
    requires InBalance(w, others, q)
    ensures InBalance(Report(w), others, q)
  {
    BracketedSnoc(w.shared.log, Retried(w.shared.clock, KeyOf(w.r.lease)), q);
  }

  lemma ChargeBalances(w: Work, usage: Option<Usage>, others: nat, q: Lease -> bool)
    requires InBalance(w, others, q)
    ensures InBalance(Charge(w, usage), others, q)
  {
    if usage.Some? {
      BracketedSnoc(w.shared.log, Recorded(w.shared.clock, KeyOf(w.r.lease), usage.value.0 + usage.value.1), q);
    }
  }

  lemma ArriveBalances(g: Gateway, s: Shared, lease: Lease, streaming: bool, others: nat, q: Lease -> bool)
    requires Routable(g, lease.model) && Bracketed(s.log, q) && Outstanding(s.log, q) == others
    ensures InBalance(Arrive(g, s, lease, streaming), others, q)
  {
    var w := Admit(g, s, lease, streaming);
    AdmitBalances(g, s, lease, streaming, others, q);
    SelectMeaning(g, w);
    ReleaseBalances(Select(g, w), others, q);
  }

  lemma FailBalances(w: Work, others: nat, q: Lease -> bool)
    requires InBalance(w, others, q) && w.r.releases == 0
    ensures InBalance(Fail(w), others, q)
  {
    ReportBalances(w, others, q);
    ReleaseBalances(Move(Account(Report(w), MissingUsage, false), Done(TransportFailure)), others, q);
  }

  lemma GotStatusBalances(w: Work, status: int, others: nat, q: Lease -> bool)
    requires InBalance(w, others, q)
    ensures InBalance(GotStatus(w, status), others, q)
  {
    ReportBalances(w.(r := w.r.(status := Some(status))), others, q);
  }

  lemma ReturnBalances(w: Work, status: int, body: Body, others: nat, q: Lease -> bool)
    requires InBalance(w, others, q) && w.r.releases == 0
    ensures InBalance(Return(w, status, body), others, q)
  {
    var known := GotStatus(w, status);
    GotStatusBalances(w, status, others, q);
    match body
    case Unusable => ReleaseBalances(Move(known, Done(Crashed)), others, q);
    case NotJson => ReleaseBalances(Move(Account(known, ParseError, true), Done(Returned)), others, q);
    case Usable(usage) =>
      var settled := UsageSettlement(status, usage);
      var accounted := Account(known, settled.accounting, true);
      ChargeBalances(accounted, settled.usage, others, q);
      ReleaseBalances(Move(Charge(accounted, settled.usage), Done(Returned)), others, q);
  }

  lemma SettleBalances(w: Work, settled: Settlement, others: nat, q: Lease -> bool)
    requires InBalance(w, others, q)
    ensures var done := Account(Move(w, Done(StreamFinished)), settled.accounting, true);
            InBalance(Charge(done, settled.usage), others, q)
  {
    ChargeBalances(Account(Move(w, Done(StreamFinished)), settled.accounting, true), settled.usage, others, q);
  }

  lemma CancelBalances(w: Work, others: nat, q: Lease -> bool)
    requires InBalance(w, others, q) && w.r.releases == 0
    ensures InBalance(Cancel(w), others, q)
  {
    if !w.r.streaming {
      ReleaseBalances(Move(w, Done(Crashed)), others, q);
    }
  }

  lemma ActBalances(g: Gateway, x: Extractor, w: Work, e: Event, others: nat, q: Lease -> bool)
    requires InBalance(w, others, q) && Conforms(g, w.r)
    ensures InBalance(Act(g, x, w, e), others, q)
  {
    var phase := w.r.phase;
    if phase.Done? {
    } else {
      match e
      case ConnectFails =>
        SelectMeaning(g, w);
        FailBalances(w, others, q);
      case TransportFails => FailBalances(w, others, q);
      case Crashes => ReleaseBalances(Move(w, Done(Crashed)), others, q);
      case Responds(status, body) => ReturnBalances(w, status, body, others, q);
      case Opens(status) => GotStatusBalances(w, status, others, q);
      case Ends(ending, closes) =>
        if phase.StreamingBody? {
          ReleaseBalances(w, others, q);
          SettleBalances(Release(w), Settle(phase.st, phase.gone, ending, w.r.status.value, g.maxBuffer, x), others, q);
        }
      case Cancels => CancelBalances(w, others, q);
      case _ =>
    }
  }

  /** All leases in the history are accounted for by requests. */
  ghost predicate Balanced(s: System, q: Lease -> bool) {
    Bracketed(s.shared.log, q) && Outstanding(s.shared.log, q) == Count(s.requests, Holding(q))
  }

  /** Putting a request back keeps the balance of the others. */
  lemma PutBalances(w: Work, id: nat, requests: map<nat, Request>, others: nat, q: Lease -> bool)
    requires InBalance(w, others, q)
    requires others == Count(requests, Holding(q)) - One(id in requests && Holding(q)(requests[id]))
    ensures Balanced(Put(w, id, requests), q)
  {
    CountPut(requests, id, w.r, Holding(q));
  }

  lemma StepBalances(g: Gateway, x: Extractor, s: System, a: Action, q: Lease -> bool)
    requires Balanced(s, q) && AllConform(g, s)
    ensures Balanced(Apply(g, x, s, a), q)
  {
    var held := Count(s.requests, Holding(q));
    match a
    case Tick(_) =>
    case HealthChanges(_, _) =>
    case Arrives(id, lease, streaming) =>
      if id !in s.requests && Routable(g, lease.model) {
        ArriveBalances(g, s.shared, lease, streaming, held, q);
        PutBalances(Arrive(g, s.shared, lease, streaming), id, s.requests, held, q);
      }
    case Happens(id, e) =>
      if id in s.requests {
        var w := Work(s.shared, s.requests[id]);
        HolderCounts(s.requests, id, Holding(q));
        var others := held - One(Holding(q)(w.r));
        ActBalances(g, x, w, e, others, q);
        PutBalances(Act(g, x, w, e), id, s.requests, others, q);
      }
  }

  lemma HolderCounts(requests: map<nat, Request>, id: nat, p: Request -> bool)
    requires id in requests
    ensures Count(requests, p) >= One(p(requests[id]))
  {
    if p(requests[id]) {
      assert id in Matching(requests, p);
    }
  }

  /** In every run, for any kind of lease: the floored counter, the plain difference of grants and
      releases, and the number of requests that hold such a lease are all the same. */
  lemma {:induction false} LeasesAccountedFor(
    g: Gateway, x: Extractor, clock: real, health: map<string, Health>, run: seq<Action>, q: Lease -> bool)
    ensures var s := Run(g, x, Start(clock, health), run);
            && Balanced(s, q)
            && Active(s.shared.log, q) == Outstanding(s.shared.log, q) == Count(s.requests, Holding(q))
  {
    var s := Run(g, x, Start(clock, health), run);
    if run != [] {
      var before := run[..|run| - 1];
      LeasesAccountedFor(g, x, clock, health, before, q);
      EveryRequestConforms(g, x, clock, health, before);
      StepBalances(g, x, Run(g, x, Start(clock, health), before), run[|run| - 1], q);
    }
    ClampsNeverFire(s.shared.log, q);
  }

  /** Model counter, department counter and the gauge summed over endpoints are all the numbers of
      requests that hold such leases. */
  ghost predicate CountsHolders(c: AdmissionController, requests: map<nat, Request>, model: string, key: Key)
    reads c
  {
    && Get(c.activeByModel, model) == Total(c.inflight, OfModel(model)) == Count(requests, Holding(OfModel(model)))
    && Get(c.activeByDepartmentModel, key) == Total(c.inflight, OfKey(key)) == Count(requests, Holding(OfKey(key)))
  }

  /** Where the history is balanced, a controller that has seen it counts the requests that hold
      leases. */
  lemma ControllerCountsHolders(c: AdmissionController, s: System, model: string, key: Key)
    requires c.Valid() && c.log == s.shared.log
    requires Balanced(s, OfModel(model)) && Balanced(s, OfKey(key))
    ensures CountsHolders(c, s.requests, model, key)
  {
    ClampsNeverFire(c.log, OfModel(model));
    ClampsNeverFire(c.log, OfKey(key));
    GaugeTotals(c.inflight, c.log, OfModel(model));
    GaugeTotals(c.inflight, c.log, OfKey(key));
  }
}
