/** The controller inside a run: a new controller, driven through the calls of any run, gives every
    answer of the run and ends with counters that count the requests of the run. */
module Replay {
  import opened Options
  import opened Counters
  import opened AdmissionConfig
  import opened AdmissionHistory
  import opened AdmissionController
  import opened Routing
  import opened SseUsage
  import opened Streaming
  import opened LifeCycle
  import opened LeaseSafety
  import opened BudgetSafety

  /** The answers in a history, in order. */
  function Verdicts(log: seq<Call>): seq<Verdict> {
    if log == [] then []
    else
      var last := log[|log| - 1];
      Verdicts(log[..|log| - 1]) + if last.Acquired? then [last.verdict] else []
  }

  lemma {:induction false} RetryTimesFollowClock(log: seq<Call>, key: Key, t: real)
    requires NotBefore(t, log)
    ensures forall e <- RetryTimes(log, key) :: e <= t
  {
    if log != [] {
      assert NotBefore(t, log[..|log| - 1]);
      RetryTimesFollowClock(log[..|log| - 1], key, t);
    }
  }

  /** One call, made as the history has it; the answer is the one in the history. */
  method MakeCall(c: AdmissionController, call: Call, ghost before: seq<Call>) returns (answer: Option<Verdict>)
    requires c.Valid() && c.log == before && InClockOrder(before)
    requires Timed(call) ==> NotBefore(call.at, before)
    requires call.Acquired? ==> AnsweredFrom(c.config, before, call)
    modifies c
    ensures c.Valid() && c.log == Snoc(before, call)
    ensures answer == if call.Acquired? then Some(call.verdict) else None
  {
    answer := None;
    match call
    case Acquired(at, key, _) =>
      var verdict := c.Acquire(at, Wanted(call));
      answer := Some(verdict);
    case Released(lease) => c.Release(Some(lease));
    case Recorded(at, key, tokens) => c.RecordTokens(at, key, tokens);
    case Retried(at, key) =>
      RetryTimesFollowClock(before, key, at);
      var _ := c.RecordRetryEvent(at, key);
  }

  /** A new controller is driven through a history. */
  method ReplayLog(cfg: Admission, log: seq<Call>) returns (c: AdmissionController, answers: seq<Verdict>)
    requires Bounds(cfg) && InClockOrder(log) && AllAnswered(cfg, log)
    ensures fresh(c) && c.Valid() && c.config == cfg && c.log == log
    ensures answers == Verdicts(log)
  {
    c := new AdmissionController(cfg);
    answers := [];
    for i := 0 to |log|
      invariant fresh(c) && c.Valid() && c.config == cfg && c.log == log[..i]
      invariant answers == Verdicts(log[..i])
    {
      var answer := MakeCall(c, log[i], log[..i]);
      assert log[..i + 1] == Snoc(log[..i], log[i]);
      if answer.Some? {
        answers := answers + [answer.value];
      }
    }
    assert log[..|log|] == log;
  }

  /** A controller that is driven through the calls of a run answers every acquisition as in the run;
      afterwards its model counter, its department counter and its gauge summed over endpoints are
      the numbers of requests that hold leases. */
  method ReplayRun(g: Gateway, x: Extractor, clock: real, health: map<string, Health>, run: seq<Action>)
    returns (c: AdmissionController, answers: seq<Verdict>)
    requires Bounds(g.admission)
    ensures fresh(c) && c.Valid() && c.config == g.admission
    ensures c.log == Run(g, x, Start(clock, health), run).shared.log && answers == Verdicts(c.log)
    ensures forall model, key ::
              CountsHolders(c, Run(g, x, Start(clock, health), run).requests, model, key)
  {
    RunsAreInClockOrder(g, x, clock, health, run);
    c, answers := ReplayLog(g.admission, Run(g, x, Start(clock, health), run).shared.log);
    forall model, key ensures CountsHolders(c, Run(g, x, Start(clock, health), run).requests, model, key) {
      LeasesAccountedFor(g, x, clock, health, run, OfModel(model));
      LeasesAccountedFor(g, x, clock, health, run, OfKey(key));
      ControllerCountsHolders(c, Run(g, x, Start(clock, health), run), model, key);
    }
  }
}
