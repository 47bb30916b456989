/** Many proxied requests sharing one gateway. A step is the code between two points where a
    request waits, so requests, clock ticks and health changes interleave in any order. */
module LifeCycle {
  import opened Options
  import opened Counters
  import opened AdmissionConfig
  import opened AdmissionHistory
  import opened RoundRobin
  import opened Routing
  import opened Failover
  import opened SseUsage
  import opened Streaming

  datatype Gateway = Gateway(admission: Admission, pools: map<string, seq<Upstream>>, maxBuffer: nat)

  /** How a request ends. `Crashed` covers cancellation of a non-streaming request and exceptions
      that are neither transport errors nor cancellation. */
  datatype End = Refused | NoUpstream | TransportFailure | Returned | StreamFinished | Crashed

  /** `BodyPending` is a streaming response whose body iterator has not started; `Leaked` is a
      request that will never release its lease. */
  datatype Phase =
    | Attempting(current: string)
    | BodyPending
    | StreamingBody(st: StreamState, gone: bool)
    | Done(end: End)
    | Leaked

  /** A request: where it stands, and what it has done so far to the shared state. */
  datatype Request = Request(
    lease: Lease,
    leased: bool,
    streaming: bool,
    phase: Phase,
    status: Option<int>,
    attempted: set<string>,
    selections: nat,
    releases: nat,
    records: nat,
    modelRecords: nat,
    retries: nat)

  /** What the requests share: the clock, the registry, admission control (by its history), and
      the accounting counters. */
  datatype Shared = Shared(
    clock: real,
    health: map<string, Health>,
    cursors: map<string, nat>,
    log: seq<Call>,
    endpointLedger: Counter<(string, Accounting)>,
    modelLedger: Counter<(Lease, Accounting)>)

  datatype System = System(shared: Shared, requests: map<nat, Request>)

  /** A request at work on the shared state. */
  datatype Work = Work(shared: Shared, r: Request)

  /** The body of a non-streaming response: not JSON, JSON with or without usage, or JSON on which
      the usage extractor raises. */
  datatype Body = NotJson | Usable(usage: Option<Usage>) | Unusable

  /** What can happen to a request in flight. */
  datatype Event =
    | ConnectFails
    | TransportFails
    | Crashes
    | Responds(status: int, body: Body)
    | Opens(status: int)
    | StartsBody
    | Receives(chunk: Chunk)
    | Ends(ending: Ending, closes: bool)
    | Cancels

  datatype Action =
    | Tick(seconds: real)
    | HealthChanges(name: string, healthy: bool)
    | Arrives(id: nat, lease: Lease, streaming: bool)
    | Happens(id: nat, event: Event)

  // ------------------------------------------------------------------ single effects

  function Append(s: Shared, c: Call): Shared {
    s.(log := Snoc(s.log, c))
  }

  /** Asks admission control, and sets the request up; it stands as refused or, until it has
      selected an upstream, as not routed. */
  function Admit(g: Gateway, s: Shared, lease: Lease, streaming: bool): Work {
    var verdict := Decide(g.admission, s.log, s.clock, lease);
    Work(Append(s, Acquired(s.clock, KeyOf(lease), verdict)),
         Request(lease, verdict.Admitted?, streaming, Done(if verdict.Rejected? then Refused else NoUpstream), None,
                 {}, 0, 0, 0, 0, 0))
  }

  function Release(w: Work): Work {
    if !w.r.leased then w
    else Work(Append(w.shared, Released(w.r.lease)), w.r.(releases := w.r.releases + 1))
  }

  function Report(w: Work): Work {
    Work(Append(w.shared, Retried(w.shared.clock, KeyOf(w.r.lease))), w.r.(retries := w.r.retries + 1))
  }

  function Charge(w: Work, usage: Option<Usage>): Work {
    if usage.None? then w
    else w.(shared := Append(w.shared, Recorded(w.shared.clock, KeyOf(w.r.lease), usage.value.0 + usage.value.1)))
  }

  /** Accounts the outcome of a request for its endpoint, and also for its department and model
      unless no response ever arrived. */
  function Account(w: Work, accounting: Accounting, responded: bool): Work {
    var entry := (w.r.lease.endpoint, accounting);
    Work(w.shared.(
           endpointLedger := Add(w.shared.endpointLedger, entry, 1),
           modelLedger := if responded then Add(w.shared.modelLedger, (w.r.lease, accounting), 1)
                          else w.shared.modelLedger),
         w.r.(records := w.r.records + 1, modelRecords := w.r.modelRecords + One(responded)))
  }

  function Move(w: Work, phase: Phase): Work {
    w.(r := w.r.(phase := phase))
  }

  predicate Routable(g: Gateway, model: string) {
    model in g.pools && g.pools[model] != []
  }

  /** Selects an upstream not yet attempted; if there is none, nothing changes. */
  function Select(g: Gateway, w: Work): Work
    requires Routable(g, w.r.lease.model)
  {
    var model := w.r.lease.model;
    var pool := g.pools[model];
    var cursor := (if model in w.shared.cursors then w.shared.cursors[model] else 0) % |pool|;
    var eligible := Eligible(pool, w.shared.health, w.r.attempted);
    match Pick(eligible, cursor)
    case None => w
    case Some(i) =>
      Work(w.shared.(cursors := w.shared.cursors[model := Advance(eligible, cursor)]),
           w.r.(phase := Attempting(pool[i].name), attempted := w.r.attempted + {pool[i].name},
                selections := w.r.selections + 1))
  }

  // ------------------------------------------------------------------ steps of one request

  /** A request for a served model: admission, then the first selection. */
  function Arrive(g: Gateway, s: Shared, lease: Lease, streaming: bool): Work
    requires Routable(g, lease.model)
  {
    var w := Admit(g, s, lease, streaming);
    if w.r.phase == Done(Refused) then w
    else
      var routed := Select(g, w);
      if routed.r.phase.Attempting? then routed else Release(routed)
  }

  /** The request gives up before any response. */
  function Fail(w: Work): Work {
    Release(Move(Account(Report(w), MissingUsage, false), Done(TransportFailure)))
  }

  /** A connect-stage error: on to another upstream, or give up. */
  function Retry(g: Gateway, w: Work): Work
    requires Routable(g, w.r.lease.model)
  {
    var routed := Select(g, w);
    if routed.r.selections > w.r.selections then routed else Fail(w)
  }

  function GotStatus(w: Work, status: int): Work {
    var known := w.(r := w.r.(status := Some(status)));
    if status >= 500 then Report(known) else known
  }

  function Return(w: Work, status: int, body: Body): Work {
    var known := GotStatus(w, status);
    match body
    case Unusable => Release(Move(known, Done(Crashed)))
    case NotJson => Release(Move(Account(known, ParseError, true), Done(Returned)))
    case Usable(usage) =>
      var settled := UsageSettlement(status, usage);
      Release(Move(Charge(Account(known, settled.accounting, true), settled.usage), Done(Returned)))
  }

  /** The end of a streamed body, once the upstream response has been closed. */
  function EndStream(w: Work, settled: Settlement): Work {
    Charge(Account(Move(Release(w), Done(StreamFinished)), settled.accounting, true), settled.usage)
  }

  /** Cancellation before a response is complete: a non-streaming request releases its lease on
      the way out; a streaming request that has not started its body does not. */
  function Cancel(w: Work): Work {
    if w.r.streaming then Move(w, Leaked) else Release(Move(w, Done(Crashed)))
  }

  /** What an event does to the request it happens to; nothing if it does not apply. */
  function Act(g: Gateway, x: Extractor, w: Work, e: Event): Work {
    var phase := w.r.phase;
    match e
    case ConnectFails => if phase.Attempting? && Routable(g, w.r.lease.model) then Retry(g, w) else w
    case TransportFails => if phase.Attempting? then Fail(w) else w
    case Crashes => if phase.Attempting? then Release(Move(w, Done(Crashed))) else w
    case Responds(status, body) => if phase.Attempting? && !w.r.streaming then Return(w, status, body) else w
    case Opens(status) => if phase.Attempting? && w.r.streaming then Move(GotStatus(w, status), BodyPending) else w
    case StartsBody => if phase.BodyPending? then Move(w, StreamingBody(FRESH, false)) else w
    case Receives(chunk) =>
      if !phase.StreamingBody? || phase.gone then w
      else if chunk.gone then Move(w, StreamingBody(phase.st, true))
      else Move(w, StreamingBody(Receive(phase.st, chunk, g.maxBuffer, x), false))
    case Ends(ending, closes) =>
      if !phase.StreamingBody? || w.r.status.None? then w
      else if closes then EndStream(w, Settle(phase.st, phase.gone, ending, w.r.status.value, g.maxBuffer, x))
      else Move(w, Leaked)
    case Cancels => if phase.Attempting? || phase.BodyPending? then Cancel(w) else w
  }

  // ------------------------------------------------------------------ runs

  function Put(w: Work, id: nat, requests: map<nat, Request>): System {
    System(w.shared, requests[id := w.r])
  }

  /** One step. An action that does not apply in the current state changes nothing. */
  function Apply(g: Gateway, x: Extractor, s: System, a: Action): System {
    match a
    case Tick(seconds) =>
      if seconds >= 0.0 then s.(shared := s.shared.(clock := s.shared.clock + seconds)) else s
    case HealthChanges(name, healthy) =>
      s.(shared := s.shared.(health := Changed(s.shared.health, HealthChange(name, healthy))))
    case Arrives(id, lease, streaming) =>
      if id !in s.requests && Routable(g, lease.model)
      then Put(Arrive(g, s.shared, lease, streaming), id, s.requests) else s
    case Happens(id, e) =>
      if id in s.requests then Put(Act(g, x, Work(s.shared, s.requests[id]), e), id, s.requests) else s
  }

  function Start(clock: real, health: map<string, Health>): System {
    System(Shared(clock, health, map[], [], map[], map[]), map[])
  }

  /** The state after a run. */
  function Run(g: Gateway, x: Extractor, start: System, run: seq<Action>): System {
    if run == [] then start else Apply(g, x, Run(g, x, start, run[..|run| - 1]), run[|run| - 1])
  }

  // ------------------------------------------------------------------ what each request does

  predicate Accounted(phase: Phase) {
    phase.Done? && phase.end in {TransportFailure, Returned, StreamFinished}
  }

  function One(b: bool): nat {
    if b then 1 else 0
  }

  /** What a request has done is determined by where it stands: an ended request has released
      its lease exactly once, a leaked one never; only a returned response, a transport failure
      or a finished stream is accounted, exactly once; and a retry event is reported exactly when
      no response arrived or its status was a server error. */
  ghost predicate Conforms(g: Gateway, r: Request) {
    && r.releases == One(r.leased && r.phase.Done?)
    && r.records == One(Accounted(r.phase))
    && r.modelRecords == One(Accounted(r.phase) && r.phase != Done(TransportFailure))
    && r.retries == One(r.phase == Done(TransportFailure) || (r.status.Some? && r.status.value >= 500))
    && r.selections == |r.attempted|
    && (g.admission.enabled ==> (r.leased <==> r.phase != Done(Refused)))
    && Routable(g, r.lease.model) && r.attempted <= Names(g.pools[r.lease.model])
    && (r.phase.Attempting? ==> r.status.None? && r.phase.current in r.attempted)
    && (r.phase.BodyPending? || r.phase.StreamingBody? ==> r.streaming && r.status.Some?)
    && (r.phase.Leaked? || r.phase == Done(StreamFinished) ==> r.streaming)
    && (r.phase == Done(Returned) ==> !r.streaming)
    && (r.phase == Done(TransportFailure) ==> r.status.None?)
  }

  /** A selection takes a healthy upstream not yet attempted, and fails only if there is none. */
  lemma SelectMeaning(g: Gateway, w: Work)
    requires Routable(g, w.r.lease.model)
    ensures var t := Select(g, w);
            var left := HealthyNames(g.pools[w.r.lease.model], w.shared.health) - w.r.attempted;
            if left == {} then t == w
            else
              && t.r.phase.Attempting?
              && var name := t.r.phase.current;
                 && name in left
                 && t == Work(w.shared.(cursors := t.shared.cursors),
                              w.r.(phase := Attempting(name), attempted := w.r.attempted + {name},
                                   selections := w.r.selections + 1))
  {
    var pool := g.pools[w.r.lease.model];
    var cursor := (if w.r.lease.model in w.shared.cursors then w.shared.cursors[w.r.lease.model] else 0) % |pool|;
    var eligible := Eligible(pool, w.shared.health, w.r.attempted);
    match Pick(eligible, cursor)
    case None => SelectionMeaning(pool, w.shared.health, w.r.attempted, cursor, Failed(NoHealthyUpstream), cursor);
    case Some(i) =>
      SelectionMeaning(pool, w.shared.health, w.r.attempted, cursor, Selected(pool[i]), Advance(eligible, cursor));
  }

  /** After a connect-stage error a request moves on to a healthy upstream it has not attempted;
      it gives up only when every upstream of the model that is healthy by then has been attempted,
      whatever other requests and the health monitor did in between. */
  lemma GivesUpOnlyWhenExhausted(g: Gateway, x: Extractor, w: Work)
    requires w.r.phase.Attempting? && Routable(g, w.r.lease.model)
    ensures var v := Act(g, x, w, ConnectFails);
            var healthy := HealthyNames(g.pools[w.r.lease.model], w.shared.health);
            if healthy <= w.r.attempted then v.r.phase == Done(TransportFailure) && v.r.attempted == w.r.attempted
            else
              && v.r.phase.Attempting?
              && v.r.phase.current in healthy - w.r.attempted
              && v.r.attempted == w.r.attempted + {v.r.phase.current}
  {
    SelectMeaning(g, w);
    NothingLeft(HealthyNames(g.pools[w.r.lease.model], w.shared.health), w.r.attempted);
  }

  lemma NothingLeft<T>(a: set<T>, b: set<T>)
    ensures a - b == {} <==> a <= b
  {
    if a - b == {} {
      forall x <- a ensures x in b {
        assert x !in a - b;
      }
    }
  }

  /** No request selects more often than its model has upstream names. */
  lemma SelectionsAreBounded(
    g: Gateway, x: Extractor, clock: real, health: map<string, Health>, run: seq<Action>, id: nat)
    requires id in Run(g, x, Start(clock, health), run).requests
    ensures var r := Run(g, x, Start(clock, health), run).requests[id];
            Routable(g, r.lease.model) && r.selections <= |Names(g.pools[r.lease.model])|
  {
    EveryRequestConforms(g, x, clock, health, run);
    var r := Run(g, x, Start(clock, health), run).requests[id];
    SubsetSize(r.attempted, Names(g.pools[r.lease.model]));
  }

  lemma SubsetSize<T>(a: set<T>, b: set<T>)
    requires a <= b
    ensures |a| <= |b|
  {
    assert b == a + (b - a);
  }

  lemma HealthyAreNamed(pool: seq<Upstream>, health: map<string, Health>)
    ensures HealthyNames(pool, health) <= Names(pool)
  {
  }

  lemma ArriveConforms(g: Gateway, s: Shared, lease: Lease, streaming: bool)
    requires Routable(g, lease.model)
    ensures Conforms(g, Arrive(g, s, lease, streaming).r)
  {
    SelectMeaning(g, Admit(g, s, lease, streaming));
    HealthyAreNamed(g.pools[lease.model], s.health);
  }

  lemma RetryConforms(g: Gateway, w: Work)
    requires Conforms(g, w.r) && w.r.phase.Attempting?
    ensures Conforms(g, Retry(g, w).r)
  {
    SelectMeaning(g, w);
    HealthyAreNamed(g.pools[w.r.lease.model], w.shared.health);
  }

  lemma ReturnConforms(g: Gateway, w: Work, status: int, body: Body)
    requires Conforms(g, w.r) && w.r.phase.Attempting? && !w.r.streaming
    ensures Conforms(g, Return(w, status, body).r)
  {
  }

  lemma FailConforms(g: Gateway, w: Work)
    requires Conforms(g, w.r) && w.r.phase.Attempting?
    ensures Conforms(g, Fail(w).r)
  {
  }

  lemma EndStreamConforms(g: Gateway, w: Work, settled: Settlement)
    requires Conforms(g, w.r) && w.r.phase.StreamingBody?
    ensures Conforms(g, EndStream(w, settled).r)
  {
  }

  lemma ActConforms(g: Gateway, x: Extractor, w: Work, e: Event)
    requires Conforms(g, w.r)
    ensures Conforms(g, Act(g, x, w, e).r)
  {
    var phase := w.r.phase;
    match e
    case ConnectFails =>
      if phase.Attempting? {
        RetryConforms(g, w);
      }
    case TransportFails =>
      if phase.Attempting? {
        FailConforms(g, w);
      }
    case Responds(status, body) =>
      if phase.Attempting? && !w.r.streaming {
        ReturnConforms(g, w, status, body);
      }
    case Ends(ending, closes) =>
      if phase.StreamingBody? && closes {
        EndStreamConforms(g, w, Settle(phase.st, phase.gone, ending, w.r.status.value, g.maxBuffer, x));
      }
    case _ =>
  }

  ghost predicate AllConform(g: Gateway, s: System) {
    forall id <- s.requests :: Conforms(g, s.requests[id])
  }

  lemma PutConforms(g: Gateway, s: System, w: Work, id: nat)
    requires AllConform(g, s) && Conforms(g, w.r)
    ensures AllConform(g, Put(w, id, s.requests))
  {
  }

  lemma StepConforms(g: Gateway, x: Extractor, s: System, a: Action)
    requires AllConform(g, s)
    ensures AllConform(g, Apply(g, x, s, a))
  {
    match a
    case Tick(_) =>
    case HealthChanges(_, _) =>
    case Arrives(id, lease, streaming) =>
      if id !in s.requests && Routable(g, lease.model) {
        ArriveConforms(g, s.shared, lease, streaming);
        PutConforms(g, s, Arrive(g, s.shared, lease, streaming), id);
      }
    case Happens(id, e) =>
      if id in s.requests {
        var w := Work(s.shared, s.requests[id]);
        ActConforms(g, x, w, e);
        PutConforms(g, s, Act(g, x, w, e), id);
      }
  }

  /** In every run, every request conforms. */
  lemma {:induction false} EveryRequestConforms(
    g: Gateway, x: Extractor, clock: real, health: map<string, Health>, run: seq<Action>)
    ensures AllConform(g, Run(g, x, Start(clock, health), run))
  {
    if run != [] {
      EveryRequestConforms(g, x, clock, health, run[..|run| - 1]);
      StepConforms(g, x, Run(g, x, Start(clock, health), run[..|run| - 1]), run[|run| - 1]);
    }
  }

  // ------------------------------------------------------------------ how requests end

  predicate Ended(r: Request) {
    r.phase.Done? || r.phase.Leaked?
  }

  /** Nothing happens to a request that has ended or leaked: a lease that leaked never comes back. */
  lemma {:induction false} EndedForGood(
    g: Gateway, x: Extractor, start: System, run: seq<Action>, more: seq<Action>, id: nat)
    requires id in Run(g, x, start, run).requests && Ended(Run(g, x, start, run).requests[id])
    ensures id in Run(g, x, start, run + more).requests
    ensures Run(g, x, start, run + more).requests[id] == Run(g, x, start, run).requests[id]
  {
    if more == [] {
      assert run + more == run;
    } else {
      EndedForGood(g, x, start, run, more[..|more| - 1], id);
      assert (run + more)[..|run + more| - 1] == run + more[..|more| - 1];
    }
  }

  /** The two events that leak the lease of a request: a streaming request is cancelled before its
      body starts, or closing the upstream response fails at the end of the body. */
  predicate Leaks(r: Request, e: Event) {
    || (e.Cancels? && r.streaming && (r.phase.Attempting? || r.phase.BodyPending?))
    || (e.Ends? && r.phase.StreamingBody? && !e.closes)
  }

  /** Step `i` of the run leaks the lease of this request. */
  predicate LeaksAt(g: Gateway, x: Extractor, start: System, run: seq<Action>, i: nat, id: nat)
    requires i < |run|
  {
    var before := Run(g, x, start, run[..i]).requests;
    run[i].Happens? && run[i].id == id && id in before && Leaks(before[id], run[i].event)
  }

  lemma LeakIsAnEvent(g: Gateway, x: Extractor, w: Work, e: Event)
    requires Conforms(g, w.r) && !w.r.phase.Leaked?
    ensures Act(g, x, w, e).r.phase.Leaked? <==> Leaks(w.r, e)
  {
    match e
    case ConnectFails =>
      if w.r.phase.Attempting? {
        SelectMeaning(g, w);
      }
    case Responds(status, body) =>
      if w.r.phase.Attempting? && !w.r.streaming {
        ReturnConforms(g, w, status, body);
      }
    case _ =>
  }

  lemma NoLeakOnArrival(g: Gateway, s: Shared, lease: Lease, streaming: bool)
    requires Routable(g, lease.model)
    ensures !Arrive(g, s, lease, streaming).r.phase.Leaked?
  {
    SelectMeaning(g, Admit(g, s, lease, streaming));
  }

  predicate IsLeaked(s: System, id: nat) {
    id in s.requests && s.requests[id].phase.Leaked?
  }

  lemma StepLeaks(g: Gateway, x: Extractor, s: System, a: Action, id: nat)
    requires AllConform(g, s) && !IsLeaked(s, id)
    ensures IsLeaked(Apply(g, x, s, a), id) <==>
              a.Happens? && a.id == id && id in s.requests && Leaks(s.requests[id], a.event)
  {
    match a
    case Tick(_) =>
    case HealthChanges(_, _) =>
    case Arrives(other, lease, streaming) =>
      if other !in s.requests && Routable(g, lease.model) {
        NoLeakOnArrival(g, s.shared, lease, streaming);
      }
    case Happens(other, e) =>
      if other in s.requests && other == id {
        LeakIsAnEvent(g, x, Work(s.shared, s.requests[other]), e);
      }
  }

  /** In every run, a request has leaked its lease exactly when some step of the run was one of the
      two leaking events for it. */
  lemma {:induction false} LeaksExactlyWhen(
    g: Gateway, x: Extractor, clock: real, health: map<string, Health>, run: seq<Action>, id: nat)
    ensures IsLeaked(Run(g, x, Start(clock, health), run), id) <==>
              exists i | 0 <= i < |run| :: LeaksAt(g, x, Start(clock, health), run, i, id)
  {
    if run != [] {
      var start, before := Start(clock, health), run[..|run| - 1];
      LeaksExactlyWhen(g, x, clock, health, before, id);
      forall i | 0 <= i < |before| ensures LeaksAt(g, x, start, before, i, id) <==> LeaksAt(g, x, start, run, i, id) {
        assert before[..i] == run[..i];
      }
      if IsLeaked(Run(g, x, start, before), id) {
        assert before + [run[|run| - 1]] == run;
        EndedForGood(g, x, start, before, [run[|run| - 1]], id);
      } else {
        EveryRequestConforms(g, x, clock, health, before);
        StepLeaks(g, x, Run(g, x, start, before), run[|run| - 1], id);
        assert LeaksAt(g, x, start, run, |before|, id) <==> IsLeaked(Run(g, x, start, run), id);
      }
    }
  }

  /** A streaming request that is cancelled while it waits for its upstream. */
  function Abandoned(lease: Lease): seq<Action> {
    [Arrives(0, lease, true), Happens(0, Cancels)]
  }

  /** A leak happens: with a healthy upstream and admission control that lets the request in, the
      lease of an abandoned streaming request is granted and never given back. */
  lemma AbandonedLeaks(
    g: Gateway, x: Extractor, clock: real, health: map<string, Health>, lease: Lease, more: seq<Action>)
    requires Routable(g, lease.model) && HealthyNames(g.pools[lease.model], health) != {}
    requires Decide(g.admission, [], clock, lease).Admitted?
    ensures var s := Run(g, x, Start(clock, health), Abandoned(lease) + more);
            IsLeaked(s, 0) && s.requests[0].leased && s.requests[0].releases == 0
  {
    var start := Start(clock, health);
    var w := Admit(g, start.shared, lease, true);
    SelectMeaning(g, w);
    assert HealthyNames(g.pools[lease.model], health) - {} == HealthyNames(g.pools[lease.model], health);
    var arrived := Arrive(g, start.shared, lease, true);
    var run := Abandoned(lease);
    assert run[..1][..0] == [] && run[..|run| - 1] == run[..1];
    assert Run(g, x, start, run[..1]) == Put(arrived, 0, start.requests) by {
      assert Run(g, x, start, run[..1]) == Apply(g, x, Run(g, x, start, []), run[0]);
    }
    assert IsLeaked(Run(g, x, start, run), 0);
    EndedForGood(g, x, start, run, more, 0);
  }
}
