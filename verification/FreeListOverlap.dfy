/**
 How far the free list's guarantees need the rule that one thread pops at a time.  With two pops
 under way at once a context can be handed out while it is listed, for every pool of three or more;
 with a pool of one or two the semaphore alone keeps every schedule safe.
 */
module FreeListOverlap {
  import opened Options
  import opened FreeList
  import opened FreeListRuns
  import opened FreeListSafety
  import opened FreeListTheorems

  /** No context is both with a holder and on the list. */
  predicate HandedOutOnce(s: State) {
    forall p :: p in Free(s) ==> p !in s.held
  }

  /** All that one popper at a time guarantees of a state: one place each, the count, no null head. */
  predicate AsPromised(s: State) {
    && (forall p :: 0 <= p < |s.next| ==> Places(s, p) == 1)
    && s.sem + |s.poppers| + |PostingThreads(s)| == |Free(s)|
    && (forall t :: t in s.poppers ==> s.head.Some?)
    && !s.gack
  }

  /** Whatever pops overlap, no schedule hands out a context that is listed. */
  ghost predicate SafeUnderOverlap(n: nat)
    requires n >= 1
  {
    forall sched :: HandedOutOnce(Run(Init(n), sched))
  }

  /** Whatever pops overlap, every state is as promised and every step is one stack operation or a stutter. */
  ghost predicate PromisedUnderOverlap(n: nat)
    requires n >= 1
  {
    && (forall sched :: AsPromised(Run(Init(n), sched)))
    && (forall sched, a ::
          var s := Run(Init(n), sched);
          Lifo(Free(s), EffectOf(s, a), Free(Step(s, a))))
  }

  // ---------------------------------------------------------------------------------------------
  // Three contexts: the ABA run
  // ---------------------------------------------------------------------------------------------

  /** Popper 1 stalls with (0, 1) in its locals; popper 2 takes 0 and 1; 0 comes back; popper 1 swaps. */
  function AbaRun(): seq<Action> {
    Stall(1) + PopBy(2) + PopBy(2) + PushBy(0, 0) + [SwapPop(1, false)]
  }

  lemma TwoPopsAlone(s: State, t: Thread)
    requires t !in s.poppers && s.sem > 1 && s.head.Some? && s.head.value < |s.next|
    requires s.next[s.head.value].Some? && s.next[s.head.value].value < |s.next|
    ensures var second := s.next[s.head.value].value;
            Run(Run(s, PopBy(t)), PopBy(t)) ==
            s.(sem := s.sem - 2, head := s.next[second], held := s.held + {s.head.value} + {second})
  {
    PopAlone(s, t);
    PopAlone(Run(s, PopBy(t)), t);
  }

  /** Popper 1 has (0, 1) in its locals and contexts 0 and 1 are out. */
  lemma StalledState(n: nat)
    requires n >= 3
    ensures Run(Init(n), Stall(1) + PopBy(2) + PopBy(2)) ==
            State(n - 3, Init(n).next, Init(n).next[1], {0, 1}, map[], map[1 := Cutting(Some(0), Some(1))], false)
  {
    var s0 := Init(n);
    StallAlone(s0, 1);
    RunAppend(s0, Stall(1), PopBy(2));
    RunAppend(s0, Stall(1) + PopBy(2), PopBy(2));
    TwoPopsAlone(Run(s0, Stall(1)), 2);
    assert {} + {0} + {1} == {0, 1};
  }

  /** The state in which popper 1's stale swap is about to succeed. */
  lemma BeforeStaleSwap(n: nat)
    requires n >= 3
    ensures Run(Init(n), Stall(1) + PopBy(2) + PopBy(2) + PushBy(0, 0)) ==
            State(n - 3, Init(n).next[0 := Init(n).next[1]], Some(0), {1},
                  map[0 := Posting], map[1 := Cutting(Some(0), Some(1))], false)
  {
    StalledState(n);
    var s := Run(Init(n), Stall(1) + PopBy(2) + PopBy(2));
    RunAppend(Init(n), Stall(1) + PopBy(2) + PopBy(2), PushBy(0, 0));
    PushAlone(s, 0, 0);
    assert {0, 1} - {0} == {1};
  }

  lemma OverlapBreaksLargePools(n: nat)
    requires n >= 3
    ensures var s := Run(Init(n), AbaRun());
            s.head == Some(1) && 1 in s.held && 1 in Free(s)
    ensures !SafeUnderOverlap(n)
  {
    var before := Stall(1) + PopBy(2) + PopBy(2) + PushBy(0, 0);
    BeforeStaleSwap(n);
    RunAppend(Init(n), before, [SwapPop(1, false)]);
    var s := Step(Run(Init(n), before), SwapPop(1, false));
    assert Run(Run(Init(n), before), [SwapPop(1, false)]) == s;
    assert Free(s)[0] == 1;
  }

  // ---------------------------------------------------------------------------------------------
  // One or two contexts: every schedule is safe
  // ---------------------------------------------------------------------------------------------

  /** Any push of `r` under way has seen `b` as the head. */
  predicate NeverStale(s: State, r: Node, b: Node) {
    forall u :: u in s.pushers && s.pushers[u].Linking? && s.pushers[u].node == r ==> s.pushers[u].seen == Some(b)
  }

  /** What the locals of one popper can be when `b` is the last node of the list. */
  predicate AnchoredAt(s: State, b: Node, w: Popper) {
    w.Reading? ||
    (&& w.top.Some?
     && w.top.value < |s.next|
     && (w.top.value != b ==> s.next[w.top.value] == Some(b) && NeverStale(s, w.top.value, b))
     && (w.Cutting? ==> w.rest == if w.top.value == b then None else Some(b)))
  }

  /**
   While anyone is popping, the last node of the list stays where it is: taking it would need a
   permit that no popper has left.  So every popper's locals can be described from that node.
   */
  predicate Anchored(s: State, c: seq<Node>) {
    forall t :: t in s.poppers ==> c != [] && AnchoredAt(s, c[|c| - 1], s.poppers[t])
  }

  /** In a pool of two, a list without `r` is just its last node. */
  lemma ListWithout(s: State, c: seq<Node>, r: Node)
    requires Core(s, c) && |s.next| <= 2 && c != [] && r < |s.next| && r !in c
    ensures c == [c[|c| - 1]] && s.head == Some(c[|c| - 1])
  {
    assert c[0] in c && c[|c| - 1] in c;
    assert c[0] == c[|c| - 1];
  }

  lemma AnchoredIsSound(s: State, c: seq<Node>, a: Action)
    requires Core(s, c) && Anchored(s, c)
    ensures CutSound(s, a) && FollowSound(s, a)
  {
    if a.SwapPop? && PopSwaps(s, a.t, a.spurious) {
      ChainLinks(s.next, s.head, c, |c| - 1);
    }
  }

  lemma PushStepKeepsOne(s: State, c: seq<Node>, a: Action, w: Popper)
    requires Core(s, c) && c != [] && AnchoredAt(s, c[|c| - 1], w) && |s.next| <= 2 && !a.IsPop()
    ensures AnchoredAt(Step(s, a), c[|c| - 1], w)
  {
    if !w.Reading? && w.top.value != c[|c| - 1] && a.t in s.pushers
       && s.pushers[a.t].HasNode() && s.pushers[a.t].node == w.top.value {
      PusherOwns(s, c, a.t);
      ListWithout(s, c, w.top.value);
    }
  }

  lemma PushStepKeepsAnchored(s: State, c: seq<Node>, a: Action)
    requires Core(s, c) && Anchored(s, c) && |s.next| <= 2 && !a.IsPop()
    ensures Anchored(Step(s, a), Apply(c, EffectOf(s, a)))
  {
    forall t | t in s.poppers
      ensures AnchoredAt(Step(s, a), c[|c| - 1], s.poppers[t])
    {
      PushStepKeepsOne(s, c, a, s.poppers[t]);
    }
  }

  /** In a pool of two the head is the last node, or is linked to it. */
  lemma HeadIsAnchored(s: State, c: seq<Node>)
    requires Core(s, c) && |s.next| <= 2 && c != []
    ensures AnchoredAt(s, c[|c| - 1], Following(s.head))
  {
    ChainLinks(s.next, s.head, c, 0);
    FreeIsChain(s, c);
    forall u | u in s.pushers && s.pushers[u].Linking?
      ensures s.pushers[u].node != c[0]
    {
      PusherOwns(s, c, u);
    }
  }

  lemma FollowKeepsOne(s: State, c: seq<Node>, w: Popper)
    requires Core(s, c) && c != [] && AnchoredAt(s, c[|c| - 1], w) && w.Following?
    ensures AnchoredAt(s, c[|c| - 1], Cutting(w.top, s.next[w.top.value]))
  {
    ChainLinks(s.next, s.head, c, |c| - 1);
  }

  /** A pop step that leaves someone popping does not take the last node. */
  lemma AnchorStays(s: State, c: seq<Node>, a: Action, t: Thread)
    requires Core(s, c) && Core(Step(s, a), Apply(c, EffectOf(s, a)))
    requires a.IsPop() && t in Step(s, a).poppers
    ensures c != [] && Apply(c, EffectOf(s, a)) != []
    ensures var c' := Apply(c, EffectOf(s, a)); c'[|c'| - 1] == c[|c| - 1]
  {
    PopperSeesHead(Step(s, a), Apply(c, EffectOf(s, a)), t);
  }

  lemma PopStepKeepsOne(s: State, c: seq<Node>, a: Action, t: Thread)
    requires Core(s, c) && Anchored(s, c) && |s.next| <= 2 && c != [] && a.IsPop()
    requires t in Step(s, a).poppers
    ensures AnchoredAt(Step(s, a), c[|c| - 1], Step(s, a).poppers[t])
  {
    HeadIsAnchored(s, c);
    if a.Follow? && a.t == t && t in s.poppers && s.poppers[t].Following? {
      FollowKeepsOne(s, c, s.poppers[t]);
    }
  }

  lemma PopStepKeepsAnchored(s: State, c: seq<Node>, a: Action)
    requires Core(s, c) && Anchored(s, c) && |s.next| <= 2 && a.IsPop()
    ensures Anchored(Step(s, a), Apply(c, EffectOf(s, a)))
  {
    var s', c' := Step(s, a), Apply(c, EffectOf(s, a));
    AnchoredIsSound(s, c, a);
    StepKeepsCore(s, c, a);
    forall t | t in s'.poppers
      ensures c' != [] && AnchoredAt(s', c'[|c'| - 1], s'.poppers[t])
    {
      AnchorStays(s, c, a, t);
      PopStepKeepsOne(s, c, a, t);
    }
  }

  lemma StepKeepsAnchored(s: State, c: seq<Node>, a: Action)
    requires Core(s, c) && Anchored(s, c) && |s.next| <= 2
    ensures Core(Step(s, a), Apply(c, EffectOf(s, a))) && Anchored(Step(s, a), Apply(c, EffectOf(s, a)))
    ensures Lifo(c, EffectOf(s, a), Apply(c, EffectOf(s, a)))
  {
    AnchoredIsSound(s, c, a);
    StepKeepsCore(s, c, a);
    if a.IsPop() {
      PopStepKeepsAnchored(s, c, a);
    } else {
      PushStepKeepsAnchored(s, c, a);
    }
  }

  lemma {:induction false} SmallRunKeepsCore(s: State, c: seq<Node>, sched: seq<Action>)
    requires Core(s, c) && Anchored(s, c) && |s.next| <= 2
    ensures var s' := Run(s, sched);
            Core(s', Free(s')) && Anchored(s', Free(s')) && |s'.next| == |s.next|
    decreases |sched|
  {
    if sched == [] {
      FreeIsChain(s, c);
    } else {
      StepKeepsAnchored(s, c, sched[0]);
      SmallRunKeepsCore(Step(s, sched[0]), Apply(c, EffectOf(s, sched[0])), sched[1..]);
    }
  }

  lemma CoreIsAsPromised(s: State)
    requires Core(s, Free(s))
    ensures AsPromised(s) && HandedOutOnce(s)
  {
    forall p | 0 <= p < |s.next|
      ensures Places(s, p) == 1
    {
      OwnedIsOnePlace(s, p);
    }
    forall t | t in s.poppers
      ensures s.head.Some?
    {
      PopperSeesHead(s, Free(s), t);
    }
  }

  lemma SmallPoolsNeedNoRule(n: nat, sched: seq<Action>, a: Action)
    requires 1 <= n <= 2
    ensures var s := Run(Init(n), sched);
            AsPromised(s) && HandedOutOnce(s) && Lifo(Free(s), EffectOf(s, a), Free(Step(s, a)))
  {
    InitIsSound(n);
    SmallRunKeepsCore(Init(n), Free(Init(n)), sched);
    var s := Run(Init(n), sched);
    CoreIsAsPromised(s);
    StepKeepsAnchored(s, Free(s), a);
    FreeIsChain(Step(s, a), Apply(Free(s), EffectOf(s, a)));
  }

  /** A listed context that is also held is in two places. */
  lemma TwoPlaces(s: State, p: Node)
    requires p in Free(s) && p in s.held && p < |s.next|
    ensures !AsPromised(s)
  {
    assert multiset(Free(s))[p] >= 1;
    assert Places(s, p) >= 2;
  }

  /**
   The rule of one popper is needed exactly when the pool has three or more contexts: up to two,
   everything it guarantees holds without it; from three on, not even single handing out does.
   */
  lemma OverlapIsSafeExactlyForSmallPools(n: nat)
    requires n >= 1
    ensures SafeUnderOverlap(n) <==> n <= 2
    ensures PromisedUnderOverlap(n) <==> n <= 2
  {
    if n <= 2 {
      forall sched, a
        ensures var s := Run(Init(n), sched);
                AsPromised(s) && HandedOutOnce(s) && Lifo(Free(s), EffectOf(s, a), Free(Step(s, a)))
      {
        SmallPoolsNeedNoRule(n, sched, a);
      }
      forall sched
        ensures AsPromised(Run(Init(n), sched)) && HandedOutOnce(Run(Init(n), sched))
      {
        SmallPoolsNeedNoRule(n, sched, Wait(0));
      }
    } else {
      OverlapBreaksLargePools(n);
      RunKeepsPool(Init(n), AbaRun());
      TwoPlaces(Run(Init(n), AbaRun()), 1);
    }
  }
}
