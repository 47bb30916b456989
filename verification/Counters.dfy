/** Labelled counters and gauges, as the metrics registry keeps them: a label that was never
    touched reads zero. */
module Counters {

  type Counter<L(==)> = map<L, int>

  function Get<L>(c: Counter<L>, tag: L): int {
    if tag in c then c[tag] else 0
  }

  function Add<L>(c: Counter<L>, tag: L, n: int): Counter<L> {
    c[tag := Get(c, tag) + n]
  }

  /** The sum of the values of all labels that satisfy `p`. */
  ghost function Total<L(!new)>(c: Counter<L>, p: L -> bool): int
    decreases |c|
  {
    if c == map[] then 0 else
      var tag :| tag in c;
      Part(c, tag, p) + Total(c - {tag}, p)
  }

  ghost function Part<L>(c: Counter<L>, tag: L, p: L -> bool): int {
    if p(tag) then Get(c, tag) else 0
  }

  /** The sum does not depend on which label is taken out first. */
  lemma {:induction false} TotalRemove<L(!new)>(c: Counter<L>, tag: L, p: L -> bool)
    requires tag in c
    ensures Total(c, p) == Part(c, tag, p) + Total(c - {tag}, p)
    decreases |c|
  {
    var first :| first in c && Total(c, p) == Part(c, first, p) + Total(c - {first}, p);
    if first != tag {
      TotalRemove(c - {first}, tag, p);
      TotalRemove(c - {tag}, first, p);
      assert c - {first} - {tag} == c - {tag} - {first};
      assert Part(c - {first}, tag, p) == Part(c, tag, p);
      assert Part(c - {tag}, first, p) == Part(c, first, p);
    }
  }

  /** Adding `n` at one label moves a sum by `n` if the label is part of it, and not otherwise. */
  lemma TotalAdd<L(!new)>(c: Counter<L>, tag: L, n: int, p: L -> bool)
    ensures Total(Add(c, tag, n), p) == Total(c, p) + if p(tag) then n else 0
  {
    var after := Add(c, tag, n);
    TotalRemove(after, tag, p);
    if tag in c {
      TotalRemove(c, tag, p);
      assert after - {tag} == c - {tag};
    } else {
      assert after - {tag} == c;
    }
  }

  /** Sums depend on the values only, not on which labels were touched. */
  lemma {:induction false} SameValuesSameTotal<L(!new)>(a: Counter<L>, b: Counter<L>, p: L -> bool)
    requires forall tag :: Get(a, tag) == Get(b, tag)
    ensures Total(a, p) == Total(b, p)
    decreases |a| + |b|
  {
    if a != map[] || b != map[] {
      assert a != map[] ==> exists t :: t in a;
      assert b != map[] ==> exists t :: t in b;
      var tag :| tag in a || tag in b;
      TotalWithout(a, tag, p);
      TotalWithout(b, tag, p);
      forall t ensures Get(a - {tag}, t) == Get(b - {tag}, t) {
        GetWithout(a, tag, t);
        GetWithout(b, tag, t);
      }
      SameValuesSameTotal(a - {tag}, b - {tag}, p);
    }
  }

  lemma GetWithout<L>(c: Counter<L>, tag: L, t: L)
    ensures Get(c - {tag}, t) == if t == tag then 0 else Get(c, t)
  {
  }

  lemma TotalWithout<L(!new)>(c: Counter<L>, tag: L, p: L -> bool)
    ensures Total(c, p) == Part(c, tag, p) + Total(c - {tag}, p)
  {
    if tag in c {
      TotalRemove(c, tag, p);
    } else {
      assert c - {tag} == c;
    }
  }
}
