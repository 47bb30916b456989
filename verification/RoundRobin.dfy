/** The order in which consecutive selections visit the slots of one model's pool. A slot is a
    position in the pool; an upstream that lists a model twice owns two slots. */
module RoundRobin {
  import opened Options

  /** How many steps forward, around the ring of `n` slots, lead from one slot to another. */
  function Distance(from: nat, to: nat, n: nat): (d: nat)
    requires from < n && to < n
    ensures d < n
  {
    if from <= to then to - from else to + n - from
  }

  /** The slot reached after `steps` steps forward. */
  function Forward(from: nat, steps: nat, n: nat): nat
    requires from < n && steps <= n
  {
    if from + steps < n then from + steps else from + steps - n
  }

  lemma ForwardByDistance(from: nat, to: nat, n: nat)
    requires from < n && to < n
    ensures Forward(from, Distance(from, to, n), n) == to
  {
  }

  lemma ForwardIsModular(from: nat, steps: nat, n: nat)
    requires from < n && steps <= n
    ensures Forward(from, steps, n) == (from + steps) % n
  {
    var sum := from + steps;
    assert sum / n == if sum < n then 0 else 1;
  }

  /** `i` is the first eligible slot at or after the cursor, going round. */
  ghost predicate IsNearest(eligible: seq<bool>, cursor: nat, i: nat) {
    && cursor < |eligible| && i < |eligible| && eligible[i]
    && forall j | 0 <= j < |eligible| && eligible[j] ::
         Distance(cursor, i, |eligible|) <= Distance(cursor, j, |eligible|)
  }

  /** The slot that a selection takes, if any is eligible. */
  function Pick(eligible: seq<bool>, cursor: nat): (r: Option<nat>)
    requires cursor < |eligible|
    ensures r.Some? ==> IsNearest(eligible, cursor, r.value)
    ensures r.None? <==> forall j | 0 <= j < |eligible| :: !eligible[j]
  {
    PickFrom(eligible, cursor, 0)
  }

  function PickFrom(eligible: seq<bool>, cursor: nat, offset: nat): (r: Option<nat>)
    requires cursor < |eligible| && offset <= |eligible|
    requires forall j | 0 <= j < |eligible| && eligible[j] :: Distance(cursor, j, |eligible|) >= offset
    ensures r.Some? ==> IsNearest(eligible, cursor, r.value)
    ensures r.None? <==> forall j | 0 <= j < |eligible| :: !eligible[j]
    decreases |eligible| - offset
  {
    if offset == |eligible| then
      assert forall j: nat | j < |eligible| :: Distance(cursor, j, |eligible|) < |eligible|;
      None
    else if eligible[Forward(cursor, offset, |eligible|)] then
      assert Distance(cursor, Forward(cursor, offset, |eligible|), |eligible|) == offset;
      Some(Forward(cursor, offset, |eligible|))
    else
      assert forall j | 0 <= j < |eligible| && eligible[j] :: Distance(cursor, j, |eligible|) != offset by {
        forall j | 0 <= j < |eligible| && eligible[j] ensures Distance(cursor, j, |eligible|) != offset {
          ForwardByDistance(cursor, j, |eligible|);
        }
      }
      PickFrom(eligible, cursor, offset + 1)
  }

  lemma NearestIsUnique(eligible: seq<bool>, cursor: nat, i: nat, j: nat)
    requires IsNearest(eligible, cursor, i) && IsNearest(eligible, cursor, j)
    ensures i == j
  {
  }

  /** The cursor after a selection: one past the chosen slot, or unmoved when none is eligible. */
  function Advance(eligible: seq<bool>, cursor: nat): (next: nat)
    requires cursor < |eligible|
    ensures next < |eligible|
  {
    match Pick(eligible, cursor)
    case Some(i) => Forward(i, 1, |eligible|)
    case None => cursor
  }

  ghost predicate Rounds(rounds: seq<seq<bool>>, n: nat) {
    forall t | 0 <= t < |rounds| :: |rounds[t]| == n
  }

  /** The slots taken by consecutive selections; `rounds[t]` says which slots were eligible for
      selection `t`, so health and exclusions may change from one to the next. */
  function Picks(rounds: seq<seq<bool>>, cursor: nat): (picks: seq<Option<nat>>)
    requires Rounds(rounds, if rounds == [] then 0 else |rounds[0]|)
    requires rounds != [] ==> cursor < |rounds[0]|
    ensures |picks| == |rounds|
  {
    if rounds == [] then []
    else
      assert Rounds(rounds[1..], |rounds[0]|);
      [Pick(rounds[0], cursor)] + Picks(rounds[1..], Advance(rounds[0], cursor))
  }

  /** A selection that passes over an eligible slot brings the cursor closer to it. */
  lemma PassingOverApproaches(eligible: seq<bool>, cursor: nat, slot: nat)
    requires cursor < |eligible| && slot < |eligible| && eligible[slot]
    requires Pick(eligible, cursor) != Some(slot)
    ensures Distance(Advance(eligible, cursor), slot, |eligible|) < Distance(cursor, slot, |eligible|)
  {
  }

  /** A slot that stays eligible is taken before the cursor has gone once around the ring to it,
      however the other slots change. */
  lemma {:induction false} TakenWithinDistance(rounds: seq<seq<bool>>, cursor: nat, slot: nat, n: nat) returns (t: nat)
    requires Rounds(rounds, n) && cursor < n && slot < n
    requires |rounds| > Distance(cursor, slot, n)
    requires forall t | 0 <= t < |rounds| :: rounds[t][slot]
    ensures t <= Distance(cursor, slot, n) && Picks(rounds, cursor)[t] == Some(slot)
    decreases |rounds|
  {
    if Pick(rounds[0], cursor) == Some(slot) {
      t := 0;
    } else {
      PassingOverApproaches(rounds[0], cursor, slot);
      var later := TakenWithinDistance(rounds[1..], Advance(rounds[0], cursor), slot, n);
      t := later + 1;
    }
  }

  /** Starvation bound: a slot eligible at each of as many consecutive selections as the pool has
      slots is taken by one of them. */
  lemma StarvationBound(rounds: seq<seq<bool>>, cursor: nat, slot: nat)
    requires rounds != [] && Rounds(rounds, |rounds|) && cursor < |rounds| && slot < |rounds|
    requires forall t | 0 <= t < |rounds| :: rounds[t][slot]
    ensures Some(slot) in Picks(rounds, cursor)
  {
    var t := TakenWithinDistance(rounds, cursor, slot, |rounds|);
  }

  // ------------------------------------------------------------------ balance

  /** The eligible slots below `n`, in order. */
  function Slots(eligible: seq<bool>, n: nat): seq<nat>
    requires n <= |eligible|
  {
    if n == 0 then [] else Slots(eligible, n - 1) + if eligible[n - 1] then [n - 1] else []
  }

  lemma {:induction false} SlotsListEligible(eligible: seq<bool>, n: nat)
    requires n <= |eligible|
    ensures var slots := Slots(eligible, n);
            && |slots| <= n
            && (forall p | 0 <= p < |slots| :: slots[p] < n && eligible[slots[p]])
            && (forall p, q | 0 <= p < q < |slots| :: slots[p] < slots[q])
            && (forall j: nat | j < n && eligible[j] :: j in slots)
  {
    if n > 0 {
      SlotsListEligible(eligible, n - 1);
    }
  }

  /** `k` consecutive selections with nothing changing between them. */
  function SteadyPicks(eligible: seq<bool>, cursor: nat, k: nat): (picks: seq<nat>)
    requires cursor < |eligible| && Pick(eligible, cursor).Some?
    ensures |picks| == k
    decreases k
  {
    if k == 0 then []
    else [Pick(eligible, cursor).value] + SteadyPicks(eligible, Advance(eligible, cursor), k - 1)
  }

  /** The selection made at `cursor` takes the slot at position `p` of the list of eligible slots. */
  ghost predicate NextIs(eligible: seq<bool>, cursor: nat, p: nat) {
    var slots := Slots(eligible, |eligible|);
    && cursor < |eligible| && p < |slots|
    && Pick(eligible, cursor) == Some(slots[p])
  }

  /** Taking a position of the list moves on to the next position, wrapping at the end. */
  lemma NextPosition(eligible: seq<bool>, cursor: nat, p: nat)
    requires NextIs(eligible, cursor, p)
    ensures NextIs(eligible, Advance(eligible, cursor), Forward(p, 1, |Slots(eligible, |eligible|)|))
  {
    var slots := Slots(eligible, |eligible|);
    var next := Advance(eligible, cursor);
    var q := Forward(p, 1, |slots|);
    SlotsListEligible(eligible, |eligible|);
    forall j | 0 <= j < |eligible| && eligible[j]
      ensures Distance(next, slots[q], |eligible|) <= Distance(next, j, |eligible|)
    {
      var r :| 0 <= r < |slots| && slots[r] == j;
    }
    assert IsNearest(eligible, next, slots[q]);
    NearestIsUnique(eligible, next, slots[q], Pick(eligible, next).value);
  }

  /** Reading the list of slots round and round from position `p`. */
  function Round(slots: seq<nat>, p: nat): seq<nat>
    requires p <= |slots|
  {
    slots[p..] + slots[..p]
  }

  /** The cursor after `k` consecutive selections with nothing changing between them. */
  function SteadyCursor(eligible: seq<bool>, cursor: nat, k: nat): (next: nat)
    requires cursor < |eligible| && Pick(eligible, cursor).Some?
    ensures next < |eligible|
    decreases k
  {
    if k == 0 then cursor else SteadyCursor(eligible, Advance(eligible, cursor), k - 1)
  }

  lemma {:induction false} SteadySplit(eligible: seq<bool>, cursor: nat, j: nat, k: nat)
    requires cursor < |eligible| && Pick(eligible, cursor).Some?
    ensures SteadyPicks(eligible, cursor, j + k) ==
            SteadyPicks(eligible, cursor, j) + SteadyPicks(eligible, SteadyCursor(eligible, cursor, j), k)
    decreases j
  {
    if j > 0 {
      SteadySplit(eligible, Advance(eligible, cursor), j - 1, k);
    }
  }

  lemma RoundShift(slots: seq<nat>, p: nat, k: nat)
    requires p < |slots| && 0 < k <= |slots|
    ensures Round(slots, p)[..k] == [slots[p]] + Round(slots, Forward(p, 1, |slots|))[..k - 1]
  {
    var q := Forward(p, 1, |slots|);
    if q > 0 {
      assert Round(slots, p) + [slots[p]] == [slots[p]] + Round(slots, q);
    } else {
      assert Round(slots, p) == [slots[p]] + slots[..p];
      assert Round(slots, q) == slots[..p] + [slots[p]];
    }
  }

  /** Up to once around, steady selections read off the list of eligible slots. */
  lemma {:induction false} SteadyPicksFollowSlots(eligible: seq<bool>, cursor: nat, p: nat, k: nat)
    requires NextIs(eligible, cursor, p) && k <= |Slots(eligible, |eligible|)|
    ensures SteadyPicks(eligible, cursor, k) == Round(Slots(eligible, |eligible|), p)[..k]
    ensures NextIs(eligible, SteadyCursor(eligible, cursor, k), Forward(p, k, |Slots(eligible, |eligible|)|))
    decreases k
  {
    if k > 0 {
      var slots := Slots(eligible, |eligible|);
      var q := Forward(p, 1, |slots|);
      NextPosition(eligible, cursor, p);
      SteadyPicksFollowSlots(eligible, Advance(eligible, cursor), q, k - 1);
      RoundShift(slots, p, k);
    }
  }

  lemma PositionOf(eligible: seq<bool>, cursor: nat) returns (p: nat)
    requires cursor < |eligible| && Pick(eligible, cursor).Some?
    ensures NextIs(eligible, cursor, p)
  {
    var slots := Slots(eligible, |eligible|);
    SlotsListEligible(eligible, |eligible|);
    p :| 0 <= p < |slots| && slots[p] == Pick(eligible, cursor).value;
  }

  /** As many consecutive selections as there are eligible slots visit each of them once, in
      whatever position the cursor was left. */
  lemma OneRoundIsAPermutation(eligible: seq<bool>, cursor: nat)
    requires cursor < |eligible| && Pick(eligible, cursor).Some?
    ensures var slots := Slots(eligible, |eligible|);
            multiset(SteadyPicks(eligible, cursor, |slots|)) == multiset(slots)
  {
    var slots := Slots(eligible, |eligible|);
    var p := PositionOf(eligible, cursor);
    SteadyPicksFollowSlots(eligible, cursor, p, |slots|);
    RoundIsAPermutation(slots, p);
  }

  lemma RoundIsAPermutation(slots: seq<nat>, p: nat)
    requires p <= |slots|
    ensures multiset(Round(slots, p)) == multiset(slots)
    ensures Round(slots, p)[..|slots|] == Round(slots, p)
  {
    assert slots == slots[..p] + slots[p..];
  }

  lemma PartOfRound(slots: seq<nat>, p: nat, k: nat, slot: nat)
    requires p <= |slots| && k <= |slots|
    requires forall i, j | 0 <= i < j < |slots| :: slots[i] != slots[j]
    ensures multiset(Round(slots, p)[..k])[slot] <= if slot in slots && k > 0 then 1 else 0
  {
    CountOnce(slots, slot);
    RoundIsAPermutation(slots, p);
    assert Round(slots, p) == Round(slots, p)[..k] + Round(slots, p)[k..];
    assert multiset(Round(slots, p)) == multiset(Round(slots, p)[..k]) + multiset(Round(slots, p)[k..]);
  }

  lemma {:induction false} CountOnce(slots: seq<nat>, slot: nat)
    requires forall p, q | 0 <= p < q < |slots| :: slots[p] != slots[q]
    ensures multiset(slots)[slot] == if slot in slots then 1 else 0
  {
    if slots != [] {
      CountOnce(slots[1..], slot);
      assert slots == [slots[0]] + slots[1..];
    }
  }

  /** How often `k` steady selections take a slot. */
  function Taken(eligible: seq<bool>, cursor: nat, k: nat, slot: nat): nat
    requires cursor < |eligible| && Pick(eligible, cursor).Some?
  {
    multiset(SteadyPicks(eligible, cursor, k))[slot]
  }

  lemma TakenSplits(eligible: seq<bool>, cursor: nat, j: nat, k: nat, slot: nat)
    requires cursor < |eligible| && Pick(eligible, cursor).Some?
    ensures Taken(eligible, cursor, j + k, slot) ==
            Taken(eligible, cursor, j, slot) + Taken(eligible, SteadyCursor(eligible, cursor, j), k, slot)
  {
    SteadySplit(eligible, cursor, j, k);
  }

  lemma ShortRun(eligible: seq<bool>, cursor: nat, k: nat, slot: nat)
    requires cursor < |eligible| && Pick(eligible, cursor).Some? && slot < |eligible|
    requires k < |Slots(eligible, |eligible|)|
    ensures Taken(eligible, cursor, k, slot) <= if eligible[slot] && k > 0 then 1 else 0
  {
    var slots := Slots(eligible, |eligible|);
    var p := PositionOf(eligible, cursor);
    SteadyPicksFollowSlots(eligible, cursor, p, k);
    SlotsListEligible(eligible, |eligible|);
    PartOfRound(slots, p, k, slot);
  }

  lemma FullRun(eligible: seq<bool>, cursor: nat, slot: nat)
    requires cursor < |eligible| && Pick(eligible, cursor).Some? && slot < |eligible|
    ensures var h := |Slots(eligible, |eligible|)|;
            && Taken(eligible, cursor, h, slot) == (if eligible[slot] then 1 else 0)
            && Pick(eligible, SteadyCursor(eligible, cursor, h)).Some?
  {
    var slots := Slots(eligible, |eligible|);
    var p := PositionOf(eligible, cursor);
    SteadyPicksFollowSlots(eligible, cursor, p, |slots|);
    OneRoundIsAPermutation(eligible, cursor);
    SlotsListEligible(eligible, |eligible|);
    CountOnce(slots, slot);
  }

  /** Balance: of any `k` consecutive selections with health unchanged, each of the `h` eligible
      slots gets the quotient of k by h, rounded down or up, and no other slot gets any. */
  lemma {:induction false} Balance(eligible: seq<bool>, cursor: nat, k: nat, slot: nat)
    requires cursor < |eligible| && Pick(eligible, cursor).Some? && slot < |eligible|
    ensures var h := |Slots(eligible, |eligible|)|;
            var taken := Taken(eligible, cursor, k, slot);
            h > 0 && if eligible[slot] then FairShare(k, h, taken) else taken == 0
    decreases k
  {
    var h := |Slots(eligible, |eligible|)|;
    var p := PositionOf(eligible, cursor);
    if k < h {
      ShortRun(eligible, cursor, k, slot);
      FairShareBelowOne(k, h);
    } else {
      var next := SteadyCursor(eligible, cursor, h);
      FullRun(eligible, cursor, slot);
      TakenSplits(eligible, cursor, h, k - h, slot);
      Balance(eligible, next, k - h, slot);
      FairShareStep(k, h, Taken(eligible, next, k - h, slot));
    }
  }

  /** At least the quotient rounded down, at most the quotient rounded up. */
  predicate FairShare(k: nat, h: nat, taken: int)
    requires h > 0
  {
    k / h <= taken <= (k + h - 1) / h
  }

  lemma FairShareBelowOne(k: nat, h: nat)
    requires k < h
    ensures FairShare(k, h, 0) && (k > 0 ==> FairShare(k, h, 1))
  {
    assert k / h == 0;
    if k > 0 {
      QuotientStep(k + h - 1, h);
    }
  }

  lemma FairShareStep(k: nat, h: nat, taken: int)
    requires 0 < h <= k
    ensures FairShare(k - h, h, taken) ==> FairShare(k, h, taken + 1)
  {
    QuotientStep(k, h);
    QuotientStep(k + h - 1, h);
  }

  lemma QuotientStep(k: nat, h: nat)
    requires 0 < h <= k
    ensures k / h == (k - h) / h + 1
  {
    var d := k / h - 1 - (k - h) / h;
    var r := (k - h) % h - k % h;
    assert h * d == r;
    MultipleIsFar(h, d);
  }

  lemma MultipleIsFar(h: nat, d: int)
    ensures d > 0 ==> h * d >= h
    ensures d < 0 ==> h * d <= -(h as int)
  {
  }
}
