/** What is charged and accounted over whole runs, in terms of what requests received: every outcome
    follows from the response, or the text of the stream, that reached the gateway. */
module ChargeSafety {
  import opened Options
  import opened Counters
  import opened AdmissionConfig
  import opened AdmissionHistory
  import opened Routing
  import opened Sse
  import opened SseUsage
  import opened Streaming
  import opened LifeCycle

  // ------------------------------------------------------------------ what a request received

  /** The status of the response, and the chunks of its body up to and including the one at which the
      client was found gone. */
  datatype Wire = Wire(status: Option<int>, chunks: seq<Chunk>)

  const NOTHING := Wire(None, [])

  /** An event reaches a request only in the phase it belongs to. */
  function Hears(r: Request, wire: Wire, e: Event): Wire {
    match e
    case Opens(status) => if r.phase.Attempting? && r.streaming then wire.(status := Some(status)) else wire
    case Responds(status, _) => if r.phase.Attempting? && !r.streaming then wire.(status := Some(status)) else wire
    case Receives(chunk) =>
      if r.phase.StreamingBody? && !r.phase.gone then wire.(chunks := wire.chunks + [chunk]) else wire
    case _ => wire
  }

  /** What a request has received in the course of a run. */
  function Heard(g: Gateway, x: Extractor, start: System, run: seq<Action>, id: nat): Wire {
    if run == [] then NOTHING
    else
      var before := run[..|run| - 1];
      var wire, requests := Heard(g, x, start, before, id), Run(g, x, start, before).requests;
      match run[|run| - 1]
      case Happens(other, e) => if other == id && id in requests then Hears(requests[id], wire, e) else wire
      case _ => wire
  }

  /** A request stands where what it received has put it: it knows the status, and the parser of a
      body in progress has read the chunks delivered so far. */
  ghost predicate Agrees(g: Gateway, x: Extractor, r: Request, wire: Wire) {
    var n := Delivered(wire.chunks);
    && r.status == wire.status
    && (r.phase.Attempting? || r.phase.BodyPending? ==> wire.chunks == [])
    && (r.phase.StreamingBody? ==>
          && r.phase.st == ReceiveAll(wire.chunks[..n], g.maxBuffer, x)
          && (r.phase.gone <==> n < |wire.chunks|))
  }

  lemma {:induction false} DeliveredSnoc(chunks: seq<Chunk>, chunk: Chunk)
    requires Delivered(chunks) == |chunks|
    ensures Delivered(chunks + [chunk]) == |chunks| + if chunk.gone then 0 else 1
  {
    if chunks == [] {
      assert Delivered([]) == 0 && (chunks + [chunk])[1..] == [];
    } else {
      assert (chunks + [chunk])[1..] == chunks[1..] + [chunk];
      DeliveredSnoc(chunks[1..], chunk);
    }
  }

  lemma ReceivingAgrees(g: Gateway, x: Extractor, w: Work, wire: Wire, chunk: Chunk)
    requires Agrees(g, x, w.r, wire) && w.r.phase.StreamingBody? && !w.r.phase.gone
    ensures Agrees(g, x, Act(g, x, w, Receives(chunk)).r, Hears(w.r, wire, Receives(chunk)))
  {
    var chunks := wire.chunks;
    DeliveredSnoc(chunks, chunk);
    assert chunks[..|chunks|] == chunks;
    if chunk.gone {
      assert (chunks + [chunk])[..|chunks|] == chunks;
    } else {
      assert (chunks + [chunk])[..|chunks| + 1] == chunks + [chunk];
      assert (chunks + [chunk])[..|chunks + [chunk]| - 1] == chunks;
    }
  }

  lemma ActAgrees(g: Gateway, x: Extractor, w: Work, wire: Wire, e: Event)
    requires Agrees(g, x, w.r, wire)
    ensures Agrees(g, x, Act(g, x, w, e).r, Hears(w.r, wire, e))
  {
    var phase := w.r.phase;
    if e.Receives? && phase.StreamingBody? && !phase.gone {
      ReceivingAgrees(g, x, w, wire, e.chunk);
    } else if e.ConnectFails? && phase.Attempting? && Routable(g, w.r.lease.model) {
      SelectMeaning(g, w);
    }
  }

  lemma ArriveAgrees(g: Gateway, x: Extractor, s: Shared, lease: Lease, streaming: bool)
    requires Routable(g, lease.model)
    ensures Agrees(g, x, Arrive(g, s, lease, streaming).r, NOTHING)
  {
    SelectMeaning(g, Admit(g, s, lease, streaming));
  }

  ghost predicate StandsAsHeard(g: Gateway, x: Extractor, s: System, id: nat, wire: Wire) {
    if id in s.requests then Agrees(g, x, s.requests[id], wire) else wire == NOTHING
  }

  lemma StepHears(g: Gateway, x: Extractor, s: System, a: Action, id: nat, wire: Wire)
    requires StandsAsHeard(g, x, s, id, wire)
    ensures StandsAsHeard(g, x, Apply(g, x, s, a), id,
                          if a.Happens? && a.id == id && id in s.requests then Hears(s.requests[id], wire, a.event)
                          else wire)
  {
    match a
    case Tick(_) =>
    case HealthChanges(_, _) =>
    case Arrives(other, lease, streaming) =>
      if other !in s.requests && Routable(g, lease.model) {
        ArriveAgrees(g, x, s.shared, lease, streaming);
      }
    case Happens(other, e) =>
      if other in s.requests && other == id {
        ActAgrees(g, x, Work(s.shared, s.requests[other]), wire, e);
      }
  }

  /** In every run, every request stands where what it received has put it. */
  lemma {:induction false} EveryRequestStandsAsHeard(
    g: Gateway, x: Extractor, clock: real, health: map<string, Health>, run: seq<Action>, id: nat)
    ensures StandsAsHeard(g, x, Run(g, x, Start(clock, health), run), id, Heard(g, x, Start(clock, health), run, id))
  {
    if run != [] {
      var start, before := Start(clock, health), run[..|run| - 1];
      EveryRequestStandsAsHeard(g, x, clock, health, before, id);
      StepHears(g, x, Run(g, x, start, before), run[|run| - 1], id, Heard(g, x, start, before, id));
    }
  }

  // ------------------------------------------------------------------ outcomes

  /** What became of a request that an upstream answered: how it is accounted, and the usage charged. */
  datatype Outcome = Outcome(lease: Lease, accounting: Accounting, usage: Option<Usage>)

  predicate Successful(status: int) {
    200 <= status <= 299
  }

  /** The usage in the text of a stream that was received whole: the last one reported, if everything
      decodes and fits. */
  ghost function UsageOfText(g: Gateway, x: Extractor, chunks: seq<Chunk>, ending: Ending): Option<Usage> {
    if Readable(chunks, ending, g.maxBuffer)
    then LatestUsage(x, FeedBounded(WholeTexts(chunks, ending), g.maxBuffer).parts.events, None)
    else None
  }

  ghost predicate ReceivedWhole(chunks: seq<Chunk>, ending: Ending) {
    (forall c <- chunks :: !c.gone) && EndsWell(ending)
  }

  /** The outcome that an event settles for a request that has received `wire`. A body that is not JSON,
      or a stream that was received whole but is not readable, is a parse error; usage counts for
      successful answers only; everything else is missing usage. */
  ghost function OutcomeOf(g: Gateway, x: Extractor, r: Request, wire: Wire, e: Event): Option<Outcome> {
    match e
    case Responds(status, body) =>
      if !r.phase.Attempting? || r.streaming || body.Unusable? then None
      else if body.NotJson? then Some(Outcome(r.lease, ParseError, None))
      else if Successful(status) && body.usage.Some? then Some(Outcome(r.lease, RecordedUsage, body.usage))
      else Some(Outcome(r.lease, MissingUsage, None))
    case Ends(ending, closes) =>
      if !r.phase.StreamingBody? || !closes || wire.status.None? then None
      else Some(OutcomeOfStream(g, x, r.lease, wire.chunks, wire.status.value, ending))
    case _ => None
  }

  ghost function OutcomeOfStream(
    g: Gateway, x: Extractor, lease: Lease, chunks: seq<Chunk>, status: int, ending: Ending): Outcome
  {
    var usage := UsageOfText(g, x, chunks, ending);
    if ReceivedWhole(chunks, ending) && !Readable(chunks, ending, g.maxBuffer) then Outcome(lease, ParseError, None)
    else if ReceivedWhole(chunks, ending) && Successful(status) && usage.Some? then Outcome(lease, RecordedUsage, usage)
    else Outcome(lease, MissingUsage, None)
  }

  /** All outcomes of a run, in order. */
  ghost function Outcomes(g: Gateway, x: Extractor, start: System, run: seq<Action>): seq<Outcome> {
    if run == [] then []
    else
      var before := run[..|run| - 1];
      var requests := Run(g, x, start, before).requests;
      Outcomes(g, x, start, before)
      + match run[|run| - 1]
        case Happens(id, e) =>
          if id in requests then AsSeq(OutcomeOf(g, x, requests[id], Heard(g, x, start, before, id), e)) else []
        case _ => []
  }

  function AsSeq<T>(o: Option<T>): seq<T> {
    if o.Some? then [o.value] else []
  }

  /** What the outcomes charge to a key: prompt and generation together. */
  function ChargesOf(outcomes: seq<Outcome>, key: Key): seq<int> {
    if outcomes == [] then []
    else
      var last := outcomes[|outcomes| - 1];
      ChargesOf(outcomes[..|outcomes| - 1], key)
      + if KeyOf(last.lease) == key && last.usage.Some? then [last.usage.value.0 + last.usage.value.1] else []
  }

  /** The model-level counter that the outcomes lead to. */
  function LedgerOf(outcomes: seq<Outcome>): Counter<(Lease, Accounting)> {
    if outcomes == [] then map[]
    else
      var last := outcomes[|outcomes| - 1];
      Add(LedgerOf(outcomes[..|outcomes| - 1]), (last.lease, last.accounting), 1)
  }

  /** The token counts in the calls that charge a key. */
  function Charged(log: seq<Call>, key: Key): seq<int> {
    if log == [] then []
    else
      var before := Charged(log[..|log| - 1], key);
      match log[|log| - 1]
      case Recorded(_, k, tokens) => if k == key then before + [tokens] else before
      case _ => before
  }

  // ------------------------------------------------------------------ one step

  /** From `w` to `v` just this outcome is charged and accounted. */
  ghost predicate Settles(w: Work, v: Work, outcome: Option<Outcome>, key: Key) {
    && Charged(v.shared.log, key) == Charged(w.shared.log, key) + ChargesOf(AsSeq(outcome), key)
    && v.shared.modelLedger == if outcome.None? then w.shared.modelLedger
                               else Add(w.shared.modelLedger, (outcome.value.lease, outcome.value.accounting), 1)
  }

  /** Giving back a lease and reporting a retry event charge nothing. */
  lemma OthersChargeNothing(w: Work, key: Key)
    ensures Charged(Release(w).shared.log, key) == Charged(w.shared.log, key)
    ensures Charged(Report(w).shared.log, key) == Charged(w.shared.log, key)
    ensures Release(w).shared.modelLedger == Report(w).shared.modelLedger == w.shared.modelLedger
  {
  }

  lemma ChargeCharges(w: Work, usage: Option<Usage>, key: Key)
    ensures Charged(Charge(w, usage).shared.log, key) ==
            Charged(w.shared.log, key)
            + if usage.Some? && KeyOf(w.r.lease) == key then [usage.value.0 + usage.value.1] else []
    ensures Charge(w, usage).shared.modelLedger == w.shared.modelLedger
  {
  }

  lemma GotStatusSettlesNothing(w: Work, status: int, key: Key)
    ensures Charged(GotStatus(w, status).shared.log, key) == Charged(w.shared.log, key)
    ensures GotStatus(w, status).shared.modelLedger == w.shared.modelLedger
    ensures GotStatus(w, status).r.lease == w.r.lease
  {
    OthersChargeNothing(w.(r := w.r.(status := Some(status))), key);
  }

  lemma ArriveSettlesNothing(g: Gateway, s: Shared, lease: Lease, streaming: bool, key: Key)
    requires Routable(g, lease.model)
    ensures Charged(Arrive(g, s, lease, streaming).shared.log, key) == Charged(s.log, key)
    ensures Arrive(g, s, lease, streaming).shared.modelLedger == s.modelLedger
  {
    var w := Admit(g, s, lease, streaming);
    SelectMeaning(g, w);
    OthersChargeNothing(Select(g, w), key);
  }

  lemma FailSettlesNothing(w: Work, key: Key)
    ensures Settles(w, Fail(w), None, key)
  {
    OthersChargeNothing(w, key);
    OthersChargeNothing(Move(Account(Report(w), MissingUsage, false), Done(TransportFailure)), key);
  }

  lemma RetrySettlesNothing(g: Gateway, w: Work, key: Key)
    requires Routable(g, w.r.lease.model)
    ensures Settles(w, Retry(g, w), None, key)
  {
    SelectMeaning(g, w);
    FailSettlesNothing(w, key);
  }

  lemma CrashSettlesNothing(w: Work, key: Key)
    ensures Settles(w, Release(Move(w, Done(Crashed))), None, key)
  {
    OthersChargeNothing(Move(w, Done(Crashed)), key);
  }

  lemma ChargesOfOne(outcome: Outcome, key: Key)
    ensures ChargesOf([outcome], key) ==
            if KeyOf(outcome.lease) == key && outcome.usage.Some?
            then [outcome.usage.value.0 + outcome.usage.value.1] else []
  {
    assert [outcome][..0] == [];
  }

  lemma ReturnSettles(g: Gateway, x: Extractor, w: Work, wire: Wire, status: int, body: Body, key: Key)
    requires w.r.phase.Attempting? && !w.r.streaming
    ensures Settles(w, Return(w, status, body), OutcomeOf(g, x, w.r, wire, Responds(status, body)), key)
  {
    var known := GotStatus(w, status);
    GotStatusSettlesNothing(w, status, key);
    match body
    case Unusable => CrashedSettles(w, known, key);
    case NotJson => NotJsonSettles(w, known, key);
    case Usable(usage) => SettlingSettles(w, known, UsageSettlement(status, usage), key);
  }

  lemma CrashedSettles(w: Work, known: Work, key: Key)
    requires Charged(known.shared.log, key) == Charged(w.shared.log, key)
    requires known.shared.modelLedger == w.shared.modelLedger
    ensures Settles(w, Release(Move(known, Done(Crashed))), None, key)
  {
    OthersChargeNothing(Move(known, Done(Crashed)), key);
  }

  lemma NotJsonSettles(w: Work, known: Work, key: Key)
    requires Charged(known.shared.log, key) == Charged(w.shared.log, key)
    requires known.shared.modelLedger == w.shared.modelLedger && known.r.lease == w.r.lease
    ensures Settles(w, Release(Move(Account(known, ParseError, true), Done(Returned))),
                    Some(Outcome(w.r.lease, ParseError, None)), key)
  {
    ChargesOfOne(Outcome(w.r.lease, ParseError, None), key);
    OthersChargeNothing(Move(Account(known, ParseError, true), Done(Returned)), key);
  }

  lemma SettlingSettles(w: Work, known: Work, settled: Settlement, key: Key)
    requires Charged(known.shared.log, key) == Charged(w.shared.log, key)
    requires known.shared.modelLedger == w.shared.modelLedger && known.r.lease == w.r.lease
    ensures var done := Move(Charge(Account(known, settled.accounting, true), settled.usage), Done(Returned));
            Settles(w, Release(done), Some(Outcome(w.r.lease, settled.accounting, settled.usage)), key)
  {
    var accounted := Account(known, settled.accounting, true);
    ChargesOfOne(Outcome(w.r.lease, settled.accounting, settled.usage), key);
    ChargeCharges(accounted, settled.usage, key);
    OthersChargeNothing(Move(Charge(accounted, settled.usage), Done(Returned)), key);
  }

  lemma EndStreamSettles(w: Work, settled: Settlement, key: Key)
    ensures Settles(w, EndStream(w, settled), Some(Outcome(w.r.lease, settled.accounting, settled.usage)), key)
  {
    ChargesOfOne(Outcome(w.r.lease, settled.accounting, settled.usage), key);
    OthersChargeNothing(w, key);
    ChargeCharges(Account(Move(Release(w), Done(StreamFinished)), settled.accounting, true), settled.usage, key);
  }

  lemma {:induction false} DeliveredWhole(chunks: seq<Chunk>)
    ensures Delivered(chunks) == |chunks| <==> forall c <- chunks :: !c.gone
  {
    var n := Delivered(chunks);
    if n < |chunks| {
      assert chunks[n] in chunks;
    }
  }

  /** What the stream settles is its outcome. */
  lemma SettlementIsOutcome(g: Gateway, x: Extractor, r: Request, wire: Wire, ending: Ending)
    requires Agrees(g, x, r, wire) && r.phase.StreamingBody? && r.status.Some?
    ensures var settled := Settle(r.phase.st, r.phase.gone, ending, r.status.value, g.maxBuffer, x);
            OutcomeOf(g, x, r, wire, Ends(ending, true)) == Some(Outcome(r.lease, settled.accounting, settled.usage))
  {
    StreamSettlesOutcome(g, x, r.lease, wire.chunks, r.status.value, ending);
  }

  lemma StreamSettlesOutcome(
    g: Gateway, x: Extractor, lease: Lease, chunks: seq<Chunk>, status: int, ending: Ending)
    ensures var n := Delivered(chunks);
            var settled :=
              Settle(ReceiveAll(chunks[..n], g.maxBuffer, x), n < |chunks|, ending, status, g.maxBuffer, x);
            OutcomeOfStream(g, x, lease, chunks, status, ending) ==
            Outcome(lease, settled.accounting, settled.usage)
  {
    SettlesExactly(chunks, ending, status, g.maxBuffer, x);
    DeliveredWhole(chunks);
  }

  lemma ActSettles(g: Gateway, x: Extractor, w: Work, wire: Wire, e: Event, key: Key)
    requires Agrees(g, x, w.r, wire)
    ensures Settles(w, Act(g, x, w, e), OutcomeOf(g, x, w.r, wire, e), key)
  {
    var phase := w.r.phase;
    match e
    case ConnectFails =>
      if phase.Attempting? && Routable(g, w.r.lease.model) {
        RetrySettlesNothing(g, w, key);
      }
    case TransportFails => FailSettlesNothing(w, key);
    case Crashes => CrashSettlesNothing(w, key);
    case Responds(status, body) =>
      if phase.Attempting? && !w.r.streaming {
        ReturnSettles(g, x, w, wire, status, body, key);
      }
    case Opens(status) => GotStatusSettlesNothing(w, status, key);
    case Ends(ending, closes) =>
      if phase.StreamingBody? && w.r.status.Some? && closes {
        SettlementIsOutcome(g, x, w.r, wire, ending);
        EndStreamSettles(w, Settle(phase.st, phase.gone, ending, w.r.status.value, g.maxBuffer, x), key);
      }
    case Cancels => CrashSettlesNothing(w, key);
    case _ =>
  }

  // ------------------------------------------------------------------ whole runs

  /** Charges and model-level counter are those of the outcomes. */
  ghost predicate ChargedAs(s: System, outcomes: seq<Outcome>, key: Key) {
    Charged(s.shared.log, key) == ChargesOf(outcomes, key) && s.shared.modelLedger == LedgerOf(outcomes)
  }

  lemma OneOutcomeMore(outcomes: seq<Outcome>, outcome: Option<Outcome>, key: Key)
    ensures ChargesOf(outcomes + AsSeq(outcome), key) == ChargesOf(outcomes, key) + ChargesOf(AsSeq(outcome), key)
    ensures LedgerOf(outcomes + AsSeq(outcome)) ==
            if outcome.None? then LedgerOf(outcomes)
            else Add(LedgerOf(outcomes), (outcome.value.lease, outcome.value.accounting), 1)
  {
    if outcome.Some? {
      assert (outcomes + [outcome.value])[..|outcomes|] == outcomes;
      ChargesOfOne(outcome.value, key);
    } else {
      assert outcomes + [] == outcomes;
    }
  }

  lemma StepCharges(g: Gateway, x: Extractor, s: System, a: Action, wire: Wire, outcomes: seq<Outcome>, key: Key)
    requires ChargedAs(s, outcomes, key)
    requires a.Happens? ==> StandsAsHeard(g, x, s, a.id, wire)
    ensures ChargedAs(Apply(g, x, s, a),
                      outcomes + (if a.Happens? && a.id in s.requests
                                  then AsSeq(OutcomeOf(g, x, s.requests[a.id], wire, a.event)) else []),
                      key)
  {
    assert outcomes + [] == outcomes;
    match a
    case Tick(_) =>
    case HealthChanges(_, _) =>
    case Arrives(id, lease, streaming) =>
      if id !in s.requests && Routable(g, lease.model) {
        ArriveSettlesNothing(g, s.shared, lease, streaming, key);
      }
    case Happens(id, e) =>
      if id in s.requests {
        ActSettles(g, x, Work(s.shared, s.requests[id]), wire, e, key);
        OneOutcomeMore(outcomes, OutcomeOf(g, x, s.requests[id], wire, e), key);
      }
  }

  /** In every run, the calls that charge a key are those of its outcomes, each with prompt plus
      generation of the usage received, and the model-level counter counts just the outcomes. */
  lemma {:induction false} ChargesFollowOutcomes(
    g: Gateway, x: Extractor, clock: real, health: map<string, Health>, run: seq<Action>, key: Key)
    ensures ChargedAs(Run(g, x, Start(clock, health), run), Outcomes(g, x, Start(clock, health), run), key)
  {
    if run != [] {
      var start, before, a := Start(clock, health), run[..|run| - 1], run[|run| - 1];
      ChargesFollowOutcomes(g, x, clock, health, before, key);
      var id: nat := if a.Happens? then a.id else 0;
      EveryRequestStandsAsHeard(g, x, clock, health, before, id);
      StepCharges(g, x, Run(g, x, start, before), a, Heard(g, x, start, before, id),
                  Outcomes(g, x, start, before), key);
    }
  }

  function RecordedFor(key: Key): ((Lease, Accounting)) -> bool {
    (entry: (Lease, Accounting)) => KeyOf(entry.0) == key && entry.1 == RecordedUsage
  }

  /** An outcome charges usage exactly when it is accounted as recorded. */
  ghost predicate Coherent(outcomes: seq<Outcome>) {
    forall o <- outcomes :: o.accounting == RecordedUsage <==> o.usage.Some?
  }

  lemma {:induction false} OutcomesCohere(g: Gateway, x: Extractor, start: System, run: seq<Action>)
    ensures Coherent(Outcomes(g, x, start, run))
  {
    if run != [] {
      OutcomesCohere(g, x, start, run[..|run| - 1]);
    }
  }

  lemma {:induction false} RecordedAreCharged(outcomes: seq<Outcome>, key: Key)
    requires Coherent(outcomes)
    ensures |ChargesOf(outcomes, key)| == Total(LedgerOf(outcomes), RecordedFor(key))
  {
    if outcomes != [] {
      var before, last := outcomes[..|outcomes| - 1], outcomes[|outcomes| - 1];
      assert forall o <- before :: o in outcomes;
      RecordedAreCharged(before, key);
      assert last in outcomes;
      TotalAdd(LedgerOf(before), (last.lease, last.accounting), 1, RecordedFor(key));
    }
  }

  /** In every run a key is charged as often as the ledger has recorded usage for it. */
  lemma ChargesMatchLedger(
    g: Gateway, x: Extractor, clock: real, health: map<string, Health>, run: seq<Action>, key: Key)
    ensures var s := Run(g, x, Start(clock, health), run).shared;
            |Charged(s.log, key)| == Total(s.modelLedger, RecordedFor(key))
  {
    ChargesFollowOutcomes(g, x, clock, health, run, key);
    OutcomesCohere(g, x, Start(clock, health), run);
    RecordedAreCharged(Outcomes(g, x, Start(clock, health), run), key);
  }

  /** What the end of a body charges to the key of its request. */
  ghost function ChargedAtEnd(g: Gateway, x: Extractor, wire: Wire, ending: Ending): seq<int> {
    var usage := UsageOfText(g, x, wire.chunks, ending);
    if ReceivedWhole(wire.chunks, ending) && wire.status.Some? && Successful(wire.status.value) && usage.Some?
    then [usage.value.0 + usage.value.1] else []
  }

  lemma EndCharges(g: Gateway, x: Extractor, s: System, id: nat, wire: Wire, ending: Ending)
    requires id in s.requests && s.requests[id].phase.StreamingBody?
    requires Agrees(g, x, s.requests[id], wire)
    ensures var key := KeyOf(s.requests[id].lease);
            Charged(Apply(g, x, s, Happens(id, Ends(ending, true))).shared.log, key) ==
            Charged(s.shared.log, key) + ChargedAtEnd(g, x, wire, ending)
  {
    var r := s.requests[id];
    var w, e := Work(s.shared, r), Ends(ending, true);
    ActSettles(g, x, w, wire, e, KeyOf(r.lease));
    EndOutcomeCharges(g, x, r, wire, ending);
    assert Apply(g, x, s, Happens(id, e)) == Put(Act(g, x, w, e), id, s.requests);
  }

  lemma EndOutcomeCharges(g: Gateway, x: Extractor, r: Request, wire: Wire, ending: Ending)
    requires r.phase.StreamingBody?
    ensures ChargesOf(AsSeq(OutcomeOf(g, x, r, wire, Ends(ending, true))), KeyOf(r.lease)) ==
            ChargedAtEnd(g, x, wire, ending)
  {
    if wire.status.Some? {
      var outcome := OutcomeOfStream(g, x, r.lease, wire.chunks, wire.status.value, ending);
      assert OutcomeOf(g, x, r, wire, Ends(ending, true)) == Some(outcome);
      assert AsSeq(Some(outcome)) == [outcome];
      StreamOutcomeCharges(g, x, r.lease, wire, ending);
    } else {
      assert OutcomeOf(g, x, r, wire, Ends(ending, true)) == None;
    }
  }

  lemma StreamOutcomeCharges(g: Gateway, x: Extractor, lease: Lease, wire: Wire, ending: Ending)
    requires wire.status.Some?
    ensures ChargesOf([OutcomeOfStream(g, x, lease, wire.chunks, wire.status.value, ending)], KeyOf(lease)) ==
            ChargedAtEnd(g, x, wire, ending)
  {
    ChargesOfOne(OutcomeOfStream(g, x, lease, wire.chunks, wire.status.value, ending), KeyOf(lease));
  }

  /** A stream that was received whole and read, with a successful status, is charged prompt plus
      generation of the last usage in its text when its body ends; any other stream is charged nothing. */
  lemma FinishedStreamIsCharged(
    g: Gateway, x: Extractor, clock: real, health: map<string, Health>, run: seq<Action>, id: nat, ending: Ending)
    requires id in Run(g, x, Start(clock, health), run).requests
    requires Run(g, x, Start(clock, health), run).requests[id].phase.StreamingBody?
    ensures var start := Start(clock, health);
            var key := KeyOf(Run(g, x, start, run).requests[id].lease);
            Charged(Run(g, x, start, run + [Happens(id, Ends(ending, true))]).shared.log, key) ==
            Charged(Run(g, x, start, run).shared.log, key)
            + ChargedAtEnd(g, x, Heard(g, x, start, run, id), ending)
  {
    var start, a := Start(clock, health), Happens(id, Ends(ending, true));
    assert (run + [a])[..|run|] == run;
    EveryRequestStandsAsHeard(g, x, clock, health, run, id);
    EndCharges(g, x, Run(g, x, start, run), id, Heard(g, x, start, run, id), ending);
  }
}
