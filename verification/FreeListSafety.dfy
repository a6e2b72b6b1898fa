/**
 Safety of the free list over every schedule: the core invariant, what one popper at a time adds to
 it, and the theorems that follow for all runs from the constructor's state.
 */
module FreeListSafety {
  import opened Cardinality
  import opened Options
  import opened FreeList

  // ---------------------------------------------------------------------------------------------
  // One step keeps the core invariant
  // ---------------------------------------------------------------------------------------------

  lemma GiveToPusher(n: nat, c: seq<Node>, held: set<Node>, carried: map<Thread, Node>, t: Thread, p: Node)
    requires Partition(n, c, held, carried) && t !in carried && p in held
    ensures Partition(n, c, held - {p}, carried[t := p])
  {
    var carried' := carried[t := p];
    assert carried'[t] in carried'.Values;
    forall q | q in carried.Values
      ensures q in carried'.Values
    {
      var u :| u in carried && carried[u] == q;
      assert carried'[u] in carried'.Values;
    }
  }

  /** A node inside a `push` is nowhere else. */
  lemma PusherOwns(s: State, c: seq<Node>, t: Thread)
    requires Owned(s, c) && t in s.pushers && s.pushers[t].HasNode()
    ensures s.pushers[t].node < |s.next| && s.pushers[t].node !in c && s.pushers[t].node !in s.held
    ensures forall u :: u in s.pushers && u != t && s.pushers[u].HasNode() ==> s.pushers[u].node != s.pushers[t].node
  {
    assert Carried(s)[t] == s.pushers[t].node;
    forall u | u in s.pushers && u != t && s.pushers[u].HasNode()
      ensures s.pushers[u].node != s.pushers[t].node
    {
      assert Carried(s)[u] == s.pushers[u].node;
    }
  }

  lemma StartPushKeepsCore(s: State, c: seq<Node>, t: Thread, p: Node)
    requires Core(s, c)
    ensures Core(Step(s, StartPush(t, p)), c)
  {
    var s' := Step(s, StartPush(t, p));
    if t !in s.pushers && p in s.held {
      assert Carried(s') == Carried(s)[t := p] && PostingThreads(s') == PostingThreads(s);
      GiveToPusher(|s.next|, c, s.held, Carried(s), t, p);
    }
  }

  /** A step of `push` that only moves its thread along keeps every node where it is. */
  lemma SameOwners(s: State, s': State)
    requires s'.pushers.Keys == s.pushers.Keys
    requires forall t :: t in s.pushers ==>
               s'.pushers[t].HasNode() == s.pushers[t].HasNode()
               && (s.pushers[t].HasNode() ==> s'.pushers[t].node == s.pushers[t].node)
    ensures Carried(s') == Carried(s) && PostingThreads(s') == PostingThreads(s)
  {
  }

  lemma LoadForPushKeepsCore(s: State, c: seq<Node>, t: Thread)
    requires Core(s, c)
    ensures Core(Step(s, LoadForPush(t)), c)
  {
    if t in s.pushers && s.pushers[t].Loading? {
      SameOwners(s, Step(s, LoadForPush(t)));
    }
  }

  lemma LinkKeepsCore(s: State, c: seq<Node>, t: Thread)
    requires Core(s, c)
    ensures Core(Step(s, Link(t)), c)
  {
    if t in s.pushers && s.pushers[t].Linking? {
      var me := s.pushers[t];
      PusherOwns(s, c, t);
      ChainFrame(s.next, s.head, c, me.node, me.seen);
      SameOwners(s, Step(s, Link(t)));
    }
  }

  lemma NoDupCons(p: Node, c: seq<Node>)
    requires NoDup(c) && p !in c
    ensures NoDup([p] + c)
  {
  }

  lemma NoDupTail(c: seq<Node>)
    requires NoDup(c) && c != []
    ensures NoDup(c[1..]) && c[0] !in c[1..]
    ensures forall q :: q in c <==> q == c[0] || q in c[1..]
  {
    assert c == [c[0]] + c[1..];
  }

  /** The swap moves the node from its pusher to the front of the chain. */
  lemma GiveToList(n: nat, c: seq<Node>, held: set<Node>, carried: map<Thread, Node>, t: Thread)
    requires Partition(n, c, held, carried) && t in carried
    ensures Partition(n, [carried[t]] + c, held, carried - {t})
  {
    var p, carried' := carried[t], carried - {t};
    NoDupCons(p, c);
    assert forall q :: q in [p] + c <==> q == p || q in c;
    forall q | q in carried.Values && q != p
      ensures q in carried'.Values
    {
      var u :| u in carried && carried[u] == q;
      assert carried'[u] in carried'.Values;
    }
  }

  lemma PushedLinked(s: State, c: seq<Node>, t: Thread)
    requires IsChain(s.next, s.head, c) && Accounted(s, c) && PushSwaps(s, t, false)
    requires s.pushers[t].node < |s.next| && s.next[s.pushers[t].node] == s.pushers[t].seen
    ensures var s', c' := Step(s, SwapPush(t, false)), [s.pushers[t].node] + c;
            IsChain(s'.next, s'.head, c') && Accounted(s', c')
  {
    var s' := Step(s, SwapPush(t, false));
    assert ([s.pushers[t].node] + c)[1..] == c;
    assert PostingThreads(s') == PostingThreads(s) + {t};
  }

  lemma PushedOthers(s: State, t: Thread)
    requires Linked(s) && PushSwaps(s, t, false)
    ensures var s' := Step(s, SwapPush(t, false));
            Linked(s') && Carried(s') == Carried(s) - {t} && s'.held == s.held && s'.gack == s.gack
  {
  }

  lemma PushSucceedsKeepsCore(s: State, c: seq<Node>, t: Thread)
    requires Core(s, c) && PushSwaps(s, t, false)
    ensures Core(Step(s, SwapPush(t, false)), [s.pushers[t].node] + c)
  {
    PushedLinked(s, c, t);
    PushedOthers(s, t);
    assert Carried(s)[t] == s.pushers[t].node;
    GiveToList(|s.next|, c, s.held, Carried(s), t);
  }

  lemma SwapPushKeepsCore(s: State, c: seq<Node>, t: Thread, spurious: bool)
    requires Core(s, c)
    ensures Core(Step(s, SwapPush(t, spurious)), Apply(c, EffectOf(s, SwapPush(t, spurious))))
  {
    if PushSwaps(s, t, spurious) {
      PushSucceedsKeepsCore(s, c, t);
    } else if t in s.pushers && s.pushers[t].Swapping? {
      SameOwners(s, Step(s, SwapPush(t, spurious)));
    }
  }

  lemma PostKeepsCore(s: State, c: seq<Node>, t: Thread)
    requires Core(s, c)
    ensures Core(Step(s, Post(t)), c)
  {
    var s' := Step(s, Post(t));
    if t in s.pushers && s.pushers[t].Posting? {
      assert PostingThreads(s') == PostingThreads(s) - {t};
      assert Carried(s') == Carried(s);
    }
  }

  lemma WaitKeepsCore(s: State, c: seq<Node>, t: Thread)
    requires Core(s, c)
    ensures Core(Step(s, Wait(t)), c)
  {
    var s' := Step(s, Wait(t));
    SameOwners(s, s');
    if t !in s.poppers && s.sem > 0 {
      MapCard(s.poppers);
      MapCard(s'.poppers);
      assert s'.poppers.Keys == s.poppers.Keys + {t};
    }
  }

  /** A pop step that changes only its own thread's locals. */
  lemma PopMoveKeepsCore(s: State, c: seq<Node>, a: Action)
    requires Core(s, c) && (a.LoadForPop? || a.Follow?) && FollowSound(s, a)
    ensures Core(Step(s, a), c)
  {
    var s' := Step(s, a);
    SameOwners(s, s');
    if a.t in s.poppers {
      MapCard(s.poppers);
      MapCard(s'.poppers);
      assert s'.poppers.Keys == s.poppers.Keys;
    }
  }

  lemma MapCard<K, V>(m: map<K, V>)
    ensures |m| == |m.Keys|
  {
  }

  /** The swap moves the first node of the chain to the caller. */
  lemma GiveToHolder(n: nat, c: seq<Node>, held: set<Node>, carried: map<Thread, Node>)
    requires Partition(n, c, held, carried) && c != []
    ensures Partition(n, c[1..], held + {c[0]}, carried)
  {
    NoDupTail(c);
  }

  lemma PopSucceedsKeepsCore(s: State, c: seq<Node>, t: Thread)
    requires Core(s, c) && PopSwaps(s, t, false) && CutSound(s, SwapPop(t, false))
    ensures c != [] && EffectOf(s, SwapPop(t, false)) == Pops(c[0])
    ensures Core(Step(s, SwapPop(t, false)), c[1..])
  {
    var s' := Step(s, SwapPop(t, false));
    MapCard(s.poppers);
    MapCard(s'.poppers);
    assert s'.poppers.Keys == s.poppers.Keys - {t};
    GiveToHolder(|s.next|, c, s.held, Carried(s));
    SameOwners(s, s');
  }

  lemma SwapPopKeepsCore(s: State, c: seq<Node>, t: Thread, spurious: bool)
    requires Core(s, c) && CutSound(s, SwapPop(t, spurious))
    ensures Core(Step(s, SwapPop(t, spurious)), Apply(c, EffectOf(s, SwapPop(t, spurious))))
    ensures Lifo(c, EffectOf(s, SwapPop(t, spurious)), Apply(c, EffectOf(s, SwapPop(t, spurious))))
  {
    var s' := Step(s, SwapPop(t, spurious));
    if PopSwaps(s, t, spurious) {
      PopSucceedsKeepsCore(s, c, t);
      assert c == [c[0]] + c[1..];
    } else {
      SameOwners(s, s');
      MapCard(s.poppers);
      MapCard(s'.poppers);
      if t in s.poppers {
        assert s'.poppers.Keys == s.poppers.Keys;
      }
    }
  }

  lemma StepKeepsCore(s: State, c: seq<Node>, a: Action)
    requires Core(s, c) && CutSound(s, a) && FollowSound(s, a)
    ensures Core(Step(s, a), Apply(c, EffectOf(s, a)))
    ensures Lifo(c, EffectOf(s, a), Apply(c, EffectOf(s, a)))
  {
    match a
    case StartPush(t, p) => StartPushKeepsCore(s, c, t, p);
    case LoadForPush(t) => LoadForPushKeepsCore(s, c, t);
    case Link(t) => LinkKeepsCore(s, c, t);
    case SwapPush(t, spurious) => SwapPushKeepsCore(s, c, t, spurious);
    case Post(t) => PostKeepsCore(s, c, t);
    case Wait(t) => WaitKeepsCore(s, c, t);
    case SwapPop(t, spurious) => SwapPopKeepsCore(s, c, t, spurious);
    case _ => PopMoveKeepsCore(s, c, a);
  }

  // ---------------------------------------------------------------------------------------------
  // One popper at a time: no ABA
  // ---------------------------------------------------------------------------------------------

  /** The single popper's `top` is still listed, and its `rest` is still the successor of its `top`. */
  predicate Single(s: State, c: seq<Node>) {
    && (forall t, u :: t in s.poppers && u in s.poppers ==> t == u)
    && (forall t :: t in s.poppers && !s.poppers[t].Reading? ==>
          s.poppers[t].top.Some? && s.poppers[t].top.value in c)
    && (forall t :: t in s.poppers && s.poppers[t].Cutting? ==>
          s.poppers[t].top.value < |s.next| && s.poppers[t].rest == s.next[s.poppers[t].top.value])
  }

  predicate Permitted(s: State, a: Action) {
    a.Wait? ==> s.poppers.Keys <= {a.t}
  }

  lemma PopperSeesHead(s: State, c: seq<Node>, t: Thread)
    requires Core(s, c) && t in s.poppers
    ensures c != [] && s.head == Some(c[0]) && c[0] < |s.next|
  {
    MapCard(s.poppers);
  }

  lemma SingleIsSound(s: State, c: seq<Node>, a: Action)
    requires Core(s, c) && Single(s, c)
    ensures CutSound(s, a) && FollowSound(s, a)
  {
  }

  lemma PushStepKeepsSingle(s: State, c: seq<Node>, a: Action)
    requires Core(s, c) && Single(s, c) && !a.IsPop()
    ensures Single(Step(s, a), Apply(c, EffectOf(s, a)))
  {
    var c' := Apply(c, EffectOf(s, a));
    assert forall q :: q in c ==> q in c';
    if a.Link? && a.t in s.pushers && s.pushers[a.t].HasNode() {
      PusherOwns(s, c, a.t);
    }
  }

  lemma PopStepKeepsSingle(s: State, c: seq<Node>, a: Action)
    requires Core(s, c) && Single(s, c) && a.IsPop() && Permitted(s, a)
    ensures Single(Step(s, a), Apply(c, EffectOf(s, a)))
  {
    if a.t in s.poppers {
      PopperSeesHead(s, c, a.t);
    }
  }

  /** The core invariant and the single popper's, read off the machine state alone. */
  predicate Sound(s: State) {
    Core(s, Free(s)) && Single(s, Free(s))
  }

  lemma FreeIsChain(s: State, c: seq<Node>)
    requires Core(s, c)
    ensures Free(s) == c && |c| <= |s.next|
  {
    NoDupCard(c);
    SubsetCard(Elements(c), Below(|s.next|));
    WalkIsChain(s.next, s.head, c, |s.next|);
  }

  lemma InitIsSound(n: nat)
    requires n >= 1
    ensures Sound(Init(n)) && Free(Init(n)) == seq(n, i => i)
  {
    var s, c := Init(n), seq(n, i => 0 + i);
    InitialChain(n, 0);
    assert Core(s, c) by {
      forall p: Node | p < n
        ensures p in c
      {
        assert c[p] == p;
      }
    }
    FreeIsChain(s, c);
    assert c == seq(n, i => i);
  }

  /** Every permitted step keeps the invariant and is one stack operation or a stutter. */
  lemma StepKeepsSound(s: State, a: Action)
    requires Sound(s) && Permitted(s, a)
    ensures Sound(Step(s, a))
    ensures Lifo(Free(s), EffectOf(s, a), Free(Step(s, a)))
  {
    var c := Free(s);
    SingleIsSound(s, c, a);
    StepKeepsCore(s, c, a);
    if a.IsPop() {
      PopStepKeepsSingle(s, c, a);
    } else {
      PushStepKeepsSingle(s, c, a);
    }
    FreeIsChain(Step(s, a), Apply(c, EffectOf(s, a)));
  }

  lemma {:induction false} RunKeepsPool(s: State, sched: seq<Action>)
    ensures |Run(s, sched).next| == |s.next|
    decreases |sched|
  {
    if sched != [] {
      RunKeepsPool(Step(s, sched[0]), sched[1..]);
    }
  }

  lemma {:induction false} RunKeepsSound(s: State, sched: seq<Action>)
    requires Sound(s) && Exclusive(s, sched)
    ensures Sound(Run(s, sched)) && |Run(s, sched).next| == |s.next|
    decreases |sched|
  {
    if sched != [] {
      StepKeepsSound(s, sched[0]);
      RunKeepsSound(Step(s, sched[0]), sched[1..]);
      RunKeepsPool(s, sched);
    }
  }
}
