/**
 Part numbers in `SplitChannels` (backend/include/OpenEXR/ImfPartHelper.h), specified without the
 algorithm: the number of a (layer, view) pair is its rank among the pairs in use, in the order
 "layers ascending; within a layer the hero view first, the other views ascending".
 */
module PartNumbers {
  import opened Cardinality
  import opened StringOrder

  type Pair = (string, string)   // layer, view

  predicate ViewBefore(hero: string, u: string, v: string) {
    u != v && (u == hero || (v != hero && Before(u, v)))
  }

  predicate PairBefore(hero: string, p: Pair, q: Pair) {
    Before(p.0, q.0) || (p.0 == q.0 && ViewBefore(hero, p.1, q.1))
  }

  /** The pairs that get a smaller number. */
  function Smaller(pairs: set<Pair>, hero: string, p: Pair): set<Pair> {
    set q | q in pairs && PairBefore(hero, q, p)
  }

  function Rank(pairs: set<Pair>, hero: string, p: Pair): nat {
    |Smaller(pairs, hero, p)|
  }

  lemma PairTrichotomy(hero: string, p: Pair, q: Pair)
    ensures p == q || PairBefore(hero, p, q) || PairBefore(hero, q, p)
    ensures !(PairBefore(hero, p, q) && PairBefore(hero, q, p))
    ensures !PairBefore(hero, p, p)
  {
    Trichotomy(p.0, q.0);
    Trichotomy(p.1, q.1);
    Trichotomy(p.0, p.0);
  }

  lemma PairTransitive(hero: string, p: Pair, q: Pair, r: Pair)
    requires PairBefore(hero, p, q) && PairBefore(hero, q, r)
    ensures PairBefore(hero, p, r)
  {
    if Before(p.0, q.0) && Before(q.0, r.0) {
      Transitive(p.0, q.0, r.0);
    }
    if p.0 == q.0 == r.0 {
      if Before(p.1, q.1) && Before(q.1, r.1) {
        Transitive(p.1, q.1, r.1);
      }
      Trichotomy(p.1, q.1);
      Trichotomy(q.1, r.1);
      Trichotomy(p.1, p.1);
    }
  }

  lemma RankGrows(pairs: set<Pair>, hero: string, p: Pair, q: Pair)
    requires p in pairs && PairBefore(hero, p, q)
    ensures Rank(pairs, hero, p) < Rank(pairs, hero, q)
  {
    forall r | r in Smaller(pairs, hero, p)
      ensures r in Smaller(pairs, hero, q)
    {
      PairTransitive(hero, r, p, q);
    }
    PairTrichotomy(hero, p, p);
    assert p in Smaller(pairs, hero, q) && p !in Smaller(pairs, hero, p);
    ProperSubsetCard(Smaller(pairs, hero, p), Smaller(pairs, hero, q));
  }

  /**
   Numbers follow the order exactly.  So layers come in ascending order, and within a layer the hero
   view comes first and the others ascend.
   */
  lemma NumbersFollowTheOrder(pairs: set<Pair>, hero: string, p: Pair, q: Pair)
    requires p in pairs && q in pairs
    ensures Rank(pairs, hero, p) < Rank(pairs, hero, q) <==> PairBefore(hero, p, q)
    ensures Rank(pairs, hero, p) == Rank(pairs, hero, q) <==> p == q
  {
    PairTrichotomy(hero, p, q);
    if PairBefore(hero, p, q) {
      RankGrows(pairs, hero, p, q);
    } else if PairBefore(hero, q, p) {
      RankGrows(pairs, hero, q, p);
    }
  }

  /** `a` comes before `b` as strings do: by the first character that differs, shorter first. */
  ghost predicate Ascends(a: string, b: string) {
    exists i: nat :: DifferAt(a, b, i)
  }

  /** The order of the numbers spelled out: layers ascend; in a layer the hero view is first, the others ascend. */
  lemma NumbersSpelledOut(pairs: set<Pair>, hero: string, l: string, v: string, m: string, w: string)
    requires (l, v) in pairs && (m, w) in pairs
    ensures Rank(pairs, hero, (l, v)) < Rank(pairs, hero, (m, w)) <==>
            Ascends(l, m) || (l == m && v != w && (v == hero || (w != hero && Ascends(v, w))))
  {
    NumbersFollowTheOrder(pairs, hero, (l, v), (m, w));
    BeforeIsLexicographic(l, m);
    BeforeIsLexicographic(v, w);
  }

  /** The parts of one layer form one block: a number between two of them belongs to the same layer. */
  lemma LayersAreContiguous(pairs: set<Pair>, hero: string, p: Pair, q: Pair, r: Pair)
    requires p in pairs && q in pairs && r in pairs && p.0 == q.0
    requires Rank(pairs, hero, p) <= Rank(pairs, hero, r) <= Rank(pairs, hero, q)
    ensures r.0 == p.0
  {
    NumbersFollowTheOrder(pairs, hero, p, r);
    NumbersFollowTheOrder(pairs, hero, r, q);
    Trichotomy(p.0, r.0);
  }

  lemma RankInRange(pairs: set<Pair>, hero: string, p: Pair)
    requires p in pairs
    ensures Rank(pairs, hero, p) < |pairs|
  {
    PairTrichotomy(hero, p, p);
    ProperSubsetCard(Smaller(pairs, hero, p), pairs);
  }

  lemma {:induction false} FirstPair(pairs: set<Pair>, hero: string) returns (m: Pair)
    requires pairs != {}
    ensures m in pairs && forall q :: q in pairs && q != m ==> PairBefore(hero, m, q)
    decreases pairs
  {
    var x :| x in pairs;
    if pairs == {x} {
      return x;
    }
    m := FirstPair(pairs - {x}, hero);
    PairTrichotomy(hero, x, m);
    if PairBefore(hero, x, m) {
      forall q | q in pairs && q != x
        ensures PairBefore(hero, x, q)
      {
        if q != m {
          PairTransitive(hero, x, m, q);
        }
      }
      m := x;
    }
  }

  /** No number is skipped: every number below the count is some pair's. */
  lemma {:induction false} EveryNumberIsUsed(pairs: set<Pair>, hero: string, k: nat) returns (p: Pair)
    requires k < |pairs|
    ensures p in pairs && Rank(pairs, hero, p) == k
    decreases k
  {
    var m := FirstPair(pairs, hero);
    if k == 0 {
      p := m;
      forall q | q in pairs
        ensures !PairBefore(hero, q, m)
      {
        PairTrichotomy(hero, q, m);
      }
      assert Smaller(pairs, hero, m) == {};
    } else {
      p := EveryNumberIsUsed(pairs - {m}, hero, k - 1);
      assert Smaller(pairs, hero, p) == Smaller(pairs - {m}, hero, p) + {m};
    }
  }

  /** What the numbering relies on: `done` is everything before `p`, so its size is the number of `p`. */
  lemma NextNumber(pairs: set<Pair>, hero: string, done: set<Pair>, p: Pair)
    requires done <= pairs && p in pairs
    requires forall q :: q in done ==> PairBefore(hero, q, p)
    requires forall q :: q in pairs && q !in done && q != p ==> PairBefore(hero, p, q)
    ensures Rank(pairs, hero, p) == |done|
  {
    forall q | q in pairs
      ensures PairBefore(hero, q, p) <==> q in done
    {
      PairTrichotomy(hero, p, q);
    }
    assert Smaller(pairs, hero, p) == done;
  }
}
