/** The bound on retries is exact: for every pool size there is a run in which a pop loses that often. */
module FreeListExactness {
  import opened Options
  import opened FreeList
  import opened FreeListTheorems
  import opened FreeListRuns

  /** If only one thread ever calls `pop`, pops never overlap. */
  lemma {:induction false} OneDispatcherIsExclusive(s: State, sched: seq<Action>, t: Thread)
    requires s.poppers.Keys <= {t}
    requires forall a :: a in sched && a.Wait? ==> a.t == t
    ensures Exclusive(s, sched)
    decreases |sched|
  {
    if sched != [] {
      assert sched[0] in sched;
      assert forall a :: a in sched[1..] ==> a in sched;
      OneDispatcherIsExclusive(Step(s, sched[0]), sched[1..], t);
    }
  }

  function PopSeries(k: nat): seq<Action> {
    if k == 0 then [] else PopSeries(k - 1) + PopBy(0)
  }

  lemma {:induction false} PopsByDispatcher(k: nat)
    ensures forall a :: a in PopSeries(k) && a.Wait? ==> a.t == 0
  {
    if k > 0 {
      PopsByDispatcher(k - 1);
    }
  }

  /** The first `k` contexts are out. */
  function Taken(n: nat, k: nat): State
    requires k < n
  {
    Init(n).(sem := n - k, head := Some(k), held := Below(k))
  }

  lemma PopFromTaken(n: nat, k: nat)
    requires k + 1 < n
    ensures Run(Taken(n, k), PopBy(0)) == Taken(n, k + 1)
  {
    PopAlone(Taken(n, k), 0);
    assert Below(k + 1) == Below(k) + {k};
  }

  lemma {:induction false} PopsTakeFromTheFront(n: nat, k: nat)
    requires k < n
    ensures Run(Init(n), PopSeries(k)) == Taken(n, k)
  {
    if k > 0 {
      PopsTakeFromTheFront(n, k - 1);
      RunAppend(Init(n), PopSeries(k - 1), PopBy(0));
      PopFromTaken(n, k - 1);
    }
  }

  /** Take all but one context, then start on the last one. */
  function Prelude(n: nat): seq<Action>
    requires n >= 1
  {
    PopSeries(n - 1) + Stall(0)
  }

  lemma PreludeState(n: nat)
    requires n >= 1
    ensures Run(Init(n), Prelude(n)) ==
            Init(n).(sem := 0, head := Some(n - 1), held := Below(n - 1),
                     poppers := map[0 := Cutting(Some(n - 1), None)])
  {
    PopsTakeFromTheFront(n, n - 1);
    RunAppend(Init(n), PopSeries(n - 1), Stall(0));
    StallAlone(Run(Init(n), PopSeries(n - 1)), 0);
  }

  function Return(p: Node): seq<Action> {
    PushBy(1, p) + [Post(1)]
  }

  function Returned(s: State, p: Node): State
    requires p < |s.next|
  {
    s.(sem := s.sem + 1, next := s.next[p := s.head], head := Some(p), held := s.held - {p})
  }

  lemma ReturnAlone(s: State, p: Node)
    requires s.pushers == map[] && p in s.held && p < |s.next|
    ensures Run(s, Return(p)) == Returned(s, p)
  {
    RunAppend(s, PushBy(1, p), [Post(1)]);
    PushAlone(s, 1, p);
    var s' := Run(s, PushBy(1, p));
    assert Run(s', [Post(1)]) == Step(s', Post(1));
    assert Step(s', Post(1)).pushers == map[];
  }

  lemma FailuresCons(s: State, a: Action, rest: seq<Action>, t: Thread)
    requires t in s.poppers
    ensures Failures(s, [a] + rest, t) == (if Beaten(s, a, t) then 1 else 0) + Failures(Step(s, a), rest, t)
  {
    assert ([a] + rest)[1..] == rest;
  }

  lemma {:induction false} FailuresSkipsPushes(s: State, a: seq<Action>, rest: seq<Action>, t: Thread)
    requires t in s.poppers && forall x :: x in a ==> !x.IsPop()
    ensures Failures(s, a + rest, t) == Failures(Run(s, a), rest, t)
    decreases |a|
  {
    if a == [] {
      assert a + rest == rest;
    } else {
      assert a[0] in a && forall x :: x in a[1..] ==> x in a;
      assert a + rest == [a[0]] + (a[1..] + rest);
      FailuresCons(s, a[0], a[1..] + rest, t);
      FailuresSkipsPushes(Step(s, a[0]), a[1..], rest, t);
    }
  }

  /** The popper that had followed the old head is beaten once and then follows the new one. */
  lemma BeatenOnce(s: State, p: Node, was: Option<Node>, rest: seq<Action>)
    requires s.head == Some(p) && p < |s.next| && s.next[p] == was && was != Some(p)
    requires 0 in s.poppers && s.poppers[0].Cutting? && s.poppers[0].top == was
    ensures Failures(s, [SwapPop(0, false)] + ([Follow(0)] + rest), 0) ==
            1 + Failures(s.(poppers := s.poppers[0 := Cutting(Some(p), was)]), rest, 0)
  {
    FailuresCons(s, SwapPop(0, false), [Follow(0)] + rest, 0);
    var s' := s.(poppers := s.poppers[0 := Following(Some(p))]);
    FailuresCons(s', Follow(0), rest, 0);
    assert Step(s', Follow(0)).poppers == s.poppers[0 := Cutting(Some(p), was)];
  }

  predicate Contested(s: State, k: nat) {
    && s.pushers == map[]
    && k <= |s.next|
    && (forall p: Node :: p < k ==> p in s.held && s.head != Some(p))
    && 0 in s.poppers && s.poppers[0].Cutting? && s.poppers[0].top == s.head
  }

  function AfterRound(s: State, p: Node): State
    requires p < |s.next|
  {
    Returned(s, p).(poppers := s.poppers[0 := Cutting(Some(p), s.head)])
  }

  lemma ReturnCostsNothing(s: State, p: Node, rest: seq<Action>)
    requires Contested(s, p + 1)
    ensures Failures(s, Return(p) + rest, 0) == Failures(Returned(s, p), rest, 0)
  {
    FailuresSkipsPushes(s, Return(p), rest, 0);
    ReturnAlone(s, p);
  }

  lemma OneRound(s: State, p: Node, rest: seq<Action>)
    requires Contested(s, p + 1)
    ensures Failures(s, Return(p) + ([SwapPop(0, false)] + ([Follow(0)] + rest)), 0) ==
            1 + Failures(AfterRound(s, p), rest, 0)
  {
    ReturnCostsNothing(s, p, [SwapPop(0, false)] + ([Follow(0)] + rest));
    BeatenOnce(Returned(s, p), p, s.head, rest);
  }

  lemma RoundKeepsContested(s: State, p: Node)
    requires Contested(s, p + 1)
    ensures Contested(AfterRound(s, p), p)
  {
  }

  /** Let each context below `k` come back just before the popper's swap. */
  lemma {:induction false} Contest(s: State, k: nat) returns (sched: seq<Action>)
    requires Contested(s, k)
    ensures Failures(s, sched, 0) == k
    ensures forall a :: a in sched ==> !a.Wait?
    decreases k
  {
    if k == 0 {
      sched := [];
    } else {
      RoundKeepsContested(s, k - 1);
      var rest := Contest(AfterRound(s, k - 1), k - 1);
      OneRound(s, k - 1, rest);
      sched := Return(k - 1) + ([SwapPop(0, false)] + ([Follow(0)] + rest));
    }
  }

  /** For every pool size some pop does lose `numThreads - 1` races, so the bound cannot be improved. */
  lemma RetryBoundIsReached(n: nat) returns (before: seq<Action>, after: seq<Action>, t: Thread)
    requires n >= 1
    ensures Exclusive(Init(n), before) && t in Run(Init(n), before).poppers
    ensures Exclusive(Run(Init(n), before), after)
    ensures Failures(Run(Init(n), before), after, t) == n - 1
  {
    before, t := Prelude(n), 0;
    PopsByDispatcher(n - 1);
    OneDispatcherIsExclusive(Init(n), before, 0);
    PreludeState(n);
    after := Contest(Run(Init(n), before), n - 1);
    OneDispatcherIsExclusive(Run(Init(n), before), after, 0);
  }
}
