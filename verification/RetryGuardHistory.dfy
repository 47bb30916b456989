/** The retry guard of one (department, model) key as a function of the times at which retry
    events were reported for it, oldest first. Nothing here prunes or clears anything: these
    are the definitions the pruned deque of the controller is proved against. */
module RetryGuardHistory {
  import opened AdmissionConfig

  /** The end of the cooldown in force (zero before the first opening), and the unsuppressed
      events since the last opening. */
  datatype Guard = Guard(openUntil: real, pending: seq<real>)

  predicate Opens(g: RetryGuard, s: Guard, now: real) {
    s.openUntil <= now && Recent(s.pending + [now], now, g.window) >= g.maxEvents
  }

  function Next(g: RetryGuard, s: Guard, now: real): Guard {
    if s.openUntil > now then s
    else if Opens(g, s, now) then Guard(now + g.cooldown, [])
    else Guard(s.openUntil, s.pending + [now])
  }

  function After(g: RetryGuard, ts: seq<real>): Guard {
    if ts == [] then Guard(0.0, []) else Next(g, After(g, ts[..|ts| - 1]), ts[|ts| - 1])
  }

  /** How many of the events are at most `window` old at `now`. */
  function Recent(ts: seq<real>, now: real, window: real): nat {
    if ts == [] then 0
    else Recent(ts[..|ts| - 1], now, window) + if now - ts[|ts| - 1] <= window then 1 else 0
  }

  ghost predicate Nondecreasing(ts: seq<real>) {
    forall i, j | 0 <= i < j < |ts| :: ts[i] <= ts[j]
  }

  predicate OpensAt(g: RetryGuard, ts: seq<real>, i: nat)
    requires i < |ts|
  {
    Opens(g, After(g, ts[..i]), ts[i])
  }

  predicate SuppressedAt(g: RetryGuard, ts: seq<real>, i: nat)
    requires i < |ts|
  {
    ts[i] < After(g, ts[..i]).openUntil
  }

  lemma AfterPrefix(g: RetryGuard, ts: seq<real>, i: nat)
    requires i < |ts|
    ensures After(g, ts[..i + 1]) == Next(g, After(g, ts[..i]), ts[i])
  {
    assert ts[..i + 1][..i] == ts[..i];
  }

  lemma AfterSnoc(g: RetryGuard, ts: seq<real>, now: real)
    ensures After(g, ts + [now]) == Next(g, After(g, ts), now)
  {
    assert (ts + [now])[..|ts|] == ts;
  }

  /** No pending event predates the end of the last cooldown, so nothing is pending while the
      guard is open. */
  lemma {:induction false} PendingFollowsCooldown(g: RetryGuard, ts: seq<real>)
    ensures forall t <- After(g, ts).pending :: After(g, ts).openUntil <= t
  {
    if ts != [] {
      PendingFollowsCooldown(g, ts[..|ts| - 1]);
    }
  }

  lemma {:induction false} PendingFromHistory(g: RetryGuard, ts: seq<real>)
    ensures forall t <- After(g, ts).pending :: t in ts
    ensures Nondecreasing(ts) ==> Nondecreasing(After(g, ts).pending)
  {
    if ts != [] {
      var before := ts[..|ts| - 1];
      PendingFromHistory(g, before);
      if Nondecreasing(ts) {
        forall t <- After(g, before).pending ensures t <= ts[|ts| - 1] {
          assert t in before;
        }
        var pending := After(g, before).pending;
        assert forall i | 0 <= i < |pending| :: pending[i] in pending;
      }
    }
  }

  /** The end of the cooldown never moves back. */
  lemma {:induction false} CooldownNeverShrinks(g: RetryGuard, ts: seq<real>, i: nat, j: nat)
    requires GuardBounds(g) && i <= j <= |ts|
    ensures After(g, ts[..i]).openUntil <= After(g, ts[..j]).openUntil
    decreases j
  {
    if i < j {
      CooldownNeverShrinks(g, ts, i, j - 1);
      AfterPrefix(g, ts, j - 1);
    }
  }

  /** Two openings are at least one cooldown apart. */
  lemma OpeningsApart(g: RetryGuard, ts: seq<real>, i: nat, j: nat)
    requires GuardBounds(g) && i < j < |ts|
    requires OpensAt(g, ts, i) && OpensAt(g, ts, j)
    ensures ts[j] - ts[i] >= g.cooldown
  {
    CooldownNeverShrinks(g, ts, i + 1, j);
    AfterPrefix(g, ts, i);
  }

  /** An event is suppressed exactly when it falls inside the cooldown of an earlier opening
      (or before time zero, where the missing entry reads as an open guard). */
  lemma SuppressedInsideCooldown(g: RetryGuard, ts: seq<real>, i: nat)
    requires GuardBounds(g) && i < |ts|
    ensures SuppressedAt(g, ts, i) <==>
            ts[i] < 0.0 || exists j: nat | j < i :: OpensAt(g, ts, j) && ts[i] < ts[j] + g.cooldown
  {
    var j := LastOpening(g, ts, i);
    if j < i {
      AfterPrefix(g, ts, j);
    }
    CooldownNeverShrinks(g, ts, 0, i);
    forall j: nat | j < i && OpensAt(g, ts, j) ensures ts[j] + g.cooldown <= After(g, ts[..i]).openUntil {
      CooldownNeverShrinks(g, ts, j + 1, i);
      AfterPrefix(g, ts, j);
    }
  }

  /** The position of the opening that set the cooldown in force after `n` events, `n` if none. */
  lemma {:induction false} LastOpening(g: RetryGuard, ts: seq<real>, n: nat) returns (j: nat)
    requires n <= |ts|
    ensures j <= n
    ensures j < n ==> OpensAt(g, ts, j) && After(g, ts[..n]).openUntil == ts[j] + g.cooldown
    ensures j == n ==> After(g, ts[..n]).openUntil == 0.0 && forall i: nat | i < n :: !OpensAt(g, ts, i)
  {
    j := n;
    if n > 0 {
      AfterPrefix(g, ts, n - 1);
      if OpensAt(g, ts, n - 1) {
        j := n - 1;
      } else {
        j := LastOpening(g, ts, n - 1);
        j := if j == n - 1 then n else j;
      }
    }
  }

  /** The unsuppressed events among the first `n`, at most `window` old at `now`, with no
      opening since. */
  ghost function Counted(g: RetryGuard, ts: seq<real>, n: nat, now: real): set<nat>
    requires n <= |ts|
  {
    set j: nat | j < n && Counts(g, ts, j, n, now)
  }

  ghost predicate Counts(g: RetryGuard, ts: seq<real>, j: nat, n: nat, now: real)
    requires j < n <= |ts|
  {
    !SuppressedAt(g, ts, j) && now - ts[j] <= g.window && NoOpening(g, ts, j, n)
  }

  ghost predicate NoOpening(g: RetryGuard, ts: seq<real>, j: nat, n: nat)
    requires j <= n <= |ts|
  {
    forall m: nat | j <= m < n :: !OpensAt(g, ts, m)
  }

  ghost predicate CountsNow(g: RetryGuard, ts: seq<real>, k: nat, now: real)
    requires k < |ts|
  {
    !SuppressedAt(g, ts, k) && now - ts[k] <= g.window
  }

  lemma CountsStep(g: RetryGuard, ts: seq<real>, j: nat, k: nat, now: real)
    requires j <= k < |ts|
    ensures Counts(g, ts, j, k + 1, now) <==>
              !OpensAt(g, ts, k) && if j < k then Counts(g, ts, j, k, now) else CountsNow(g, ts, k, now)
  {
    if j < k {
      assert NoOpening(g, ts, j, k + 1) <==> NoOpening(g, ts, j, k) && !OpensAt(g, ts, k);
    } else {
      assert NoOpening(g, ts, k, k + 1) <==> !OpensAt(g, ts, k);
    }
  }

  /** One more event empties the count, leaves it alone, or adds that event. */
  lemma CountedStep(g: RetryGuard, ts: seq<real>, k: nat, now: real)
    requires k < |ts|
    ensures |Counted(g, ts, k + 1, now)| ==
            if OpensAt(g, ts, k) then 0
            else |Counted(g, ts, k, now)|
                 + if CountsNow(g, ts, k, now) then 1 else 0
  {
    CountedAfter(g, ts, k, now);
  }

  /** The events that count after one more. */
  lemma CountedAfter(g: RetryGuard, ts: seq<real>, k: nat, now: real)
    requires k < |ts|
    ensures Counted(g, ts, k + 1, now) ==
            if OpensAt(g, ts, k) then {}
            else Counted(g, ts, k, now) + if CountsNow(g, ts, k, now) then {k} else {}
  {
    forall j: nat | j <= k
      ensures j in Counted(g, ts, k + 1, now) <==>
                !OpensAt(g, ts, k) && if j < k then j in Counted(g, ts, k, now) else CountsNow(g, ts, k, now)
    {
      CountsStep(g, ts, j, k, now);
    }
  }

  lemma RecentSnoc(ts: seq<real>, t: real, now: real, window: real)
    ensures Recent(ts + [t], now, window) == Recent(ts, now, window) + if now - t <= window then 1 else 0
  {
    assert (ts + [t])[..|ts|] == ts;
  }

  lemma {:induction false} PendingCountsEvents(g: RetryGuard, ts: seq<real>, n: nat, now: real)
    requires n <= |ts|
    ensures Recent(After(g, ts[..n]).pending, now, g.window) == |Counted(g, ts, n, now)|
  {
    if n > 0 {
      var k := n - 1;
      PendingCountsEvents(g, ts, k, now);
      CountedStep(g, ts, k, now);
      AfterPrefix(g, ts, k);
      var pending := After(g, ts[..k]).pending;
      assert pending + [] == pending;
      RecentSnoc(pending, ts[k], now, g.window);
    }
  }

  /** The guard opens exactly when `max_events` unsuppressed events since the last opening,
      the current one included, fall inside the window. */
  lemma GuardOpensExactly(g: RetryGuard, ts: seq<real>, i: nat)
    requires GuardBounds(g) && i < |ts|
    ensures OpensAt(g, ts, i) <==>
            !SuppressedAt(g, ts, i) && |Counted(g, ts, i, ts[i])| + 1 >= g.maxEvents
  {
    AfterPrefix(g, ts, i);
    PendingCountsEvents(g, ts, i, ts[i]);
    RecentSnoc(After(g, ts[..i]).pending, ts[i], ts[i], g.window);
  }

  /** The latest end of a cooldown that one of these events opened; zero if none did. */
  ghost predicate CooldownEnds(g: RetryGuard, ts: seq<real>, end: real) {
    if forall j: nat | j < |ts| :: !OpensAt(g, ts, j) then end == 0.0
    else
      && (exists j: nat | j < |ts| :: OpensAt(g, ts, j) && end == ts[j] + g.cooldown)
      && (forall j: nat | j < |ts| && OpensAt(g, ts, j) :: ts[j] + g.cooldown <= end)
  }

  lemma CooldownEndsThere(g: RetryGuard, ts: seq<real>)
    requires GuardBounds(g)
    ensures CooldownEnds(g, ts, After(g, ts).openUntil)
  {
    assert ts[..|ts|] == ts;
    var j := LastOpening(g, ts, |ts|);
    forall i: nat | i < |ts| && OpensAt(g, ts, i) ensures ts[i] + g.cooldown <= After(g, ts).openUntil {
      CooldownNeverShrinks(g, ts, i + 1, |ts|);
      AfterPrefix(g, ts, i);
    }
  }

  /** The Retry-After value sent while the guard stays open for `remaining` more seconds. */
  function RetryAfter(remaining: real): int {
    if remaining.Floor > 1 then remaining.Floor else 1
  }

  lemma RetryAfterBounds(remaining: real)
    requires remaining > 0.0
    ensures RetryAfter(remaining) >= 1
    ensures remaining - 1.0 < RetryAfter(remaining) as real <= if remaining > 1.0 then remaining else 1.0
  {
  }
}
