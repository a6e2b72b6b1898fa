/**
 What the free list guarantees over whole runs from the constructor's state: the claims of the class
 comment, the bound on retries, and how far they depend on having one popper.
 */
module FreeListTheorems {
  import opened FreeList
  import opened FreeListSafety

  // ---------------------------------------------------------------------------------------------
  // Runs with one popper at a time
  // ---------------------------------------------------------------------------------------------

  /**
   No ABA: after any exclusive run, each further step either is exactly one push of the swapped-in
   node, or takes exactly the first node off, or leaves the list as it was.
   */
  lemma EverySwapIsOneStackOperation(n: nat, sched: seq<Action>, a: Action)
    requires n >= 1 && Exclusive(Init(n), sched) && Permitted(Run(Init(n), sched), a)
    ensures var s := Run(Init(n), sched);
            Lifo(Free(s), EffectOf(s, a), Free(Step(s, a)))
  {
    InitIsSound(n);
    RunKeepsSound(Init(n), sched);
    StepKeepsSound(Run(Init(n), sched), a);
  }

  function PushersOf(s: State, p: Node): set<Thread> {
    set t | t in s.pushers && s.pushers[t].HasNode() && s.pushers[t].node == p
  }

  /** How many times a node turns up: on the list, with a holder, inside a push. */
  function Places(s: State, p: Node): nat {
    multiset(Free(s))[p] + (if p in s.held then 1 else 0) + |PushersOf(s, p)|
  }

  lemma {:induction false} NoDupCount(c: seq<Node>, p: Node)
    requires NoDup(c)
    ensures multiset(c)[p] == if p in c then 1 else 0
  {
    if c != [] {
      NoDupTail(c);
      NoDupCount(c[1..], p);
      assert c == [c[0]] + c[1..];
    }
  }

  lemma OwnedIsOnePlace(s: State, p: Node)
    requires Core(s, Free(s)) && p < |s.next|
    ensures Places(s, p) == 1
  {
    NoDupCount(Free(s), p);
    assert forall u :: u in PushersOf(s, p) <==> u in Carried(s) && Carried(s)[u] == p;
    if p in Carried(s).Values {
      var t :| t in Carried(s) && Carried(s)[t] == p;
      assert PushersOf(s, p) == {t};
    } else {
      assert PushersOf(s, p) == {};
    }
  }

  /** No context is lost and none is handed out twice: each is in exactly one place, once. */
  lemma PoolIsPartitioned(n: nat, sched: seq<Action>, p: Node)
    requires n >= 1 && Exclusive(Init(n), sched) && p < n
    ensures Places(Run(Init(n), sched), p) == 1
  {
    InitIsSound(n);
    RunKeepsSound(Init(n), sched);
    OwnedIsOnePlace(Run(Init(n), sched), p);
  }

  lemma {:induction false} InjectiveCard<K, V>(m: map<K, V>)
    requires forall t, u :: t in m && u in m && t != u ==> m[t] != m[u]
    ensures |m.Values| == |m|
    decreases |m|
  {
    if t :| t in m {
      var m' := m - {t};
      InjectiveCard(m');
      assert m.Keys == m'.Keys + {t};
      forall v | v in m.Values && v != m[t]
        ensures v in m'.Values
      {
        var u :| u in m && m[u] == v;
        assert m'[u] == v;
      }
      assert m.Values == m'.Values + {m[t]};
    } else {
      assert m == map[];
    }
  }

  lemma PartitionCovers(n: nat, c: seq<Node>, held: set<Node>, carried: map<Thread, Node>)
    requires Partition(n, c, held, carried)
    ensures Elements(c) + held + carried.Values == Below(n)
    ensures Elements(c) !! held && Elements(c) + held !! carried.Values
  {
  }

  lemma PartitionAddsUp(n: nat, c: seq<Node>, held: set<Node>, carried: map<Thread, Node>)
    requires Partition(n, c, held, carried)
    ensures |c| + |held| + |carried| == n
  {
    NoDupCard(c);
    InjectiveCard(carried);
    PartitionCovers(n, c, held, carried);
    assert |Elements(c) + held| == |Elements(c)| + |held|;
  }

  /** The group never has more than `numThreads` contexts out, and the list holds exactly the rest. */
  lemma OutstandingIsBounded(n: nat, sched: seq<Action>)
    requires n >= 1 && Exclusive(Init(n), sched)
    ensures var s := Run(Init(n), sched);
            |s.held| + |Carried(s)| == n - |Free(s)| <= n
  {
    InitIsSound(n);
    RunKeepsSound(Init(n), sched);
    var s := Run(Init(n), sched);
    PartitionAddsUp(n, Free(s), s.held, Carried(s));
  }

  /** The semaphore counts the list, up to permits in use and posts to come; the null branch is dead. */
  lemma SemaphoreCountsTheList(n: nat, sched: seq<Action>, t: Thread)
    requires n >= 1 && Exclusive(Init(n), sched)
    ensures var s := Run(Init(n), sched);
            && s.sem + |s.poppers| + |PostingThreads(s)| == |Free(s)|
            && (t in s.poppers ==> s.head.Some?)
            && !s.gack
  {
    InitIsSound(n);
    RunKeepsSound(Init(n), sched);
    var s := Run(Init(n), sched);
    if t in s.poppers {
      PopperSeesHead(s, Free(s), t);
    }
  }

  // ---------------------------------------------------------------------------------------------
  // How often one pop can retry
  // ---------------------------------------------------------------------------------------------

  /** A compare-and-exchange of `t`'s pop that fails because the head really moved. */
  predicate Beaten(s: State, a: Action, t: Thread) {
    a.SwapPop? && a.t == t && t in s.poppers && s.poppers[t].Cutting? && s.head != s.poppers[t].top
  }

  /** The number of such failures in the pop that `t` is inside of, until that pop returns. */
  function Failures(s: State, sched: seq<Action>, t: Thread): nat
    decreases |sched|
  {
    if sched == [] || t !in s.poppers then 0
    else (if Beaten(s, sched[0], t) then 1 else 0) + Failures(Step(s, sched[0]), sched[1..], t)
  }

  /** The length of the list from `p` on. */
  function From(c: seq<Node>, p: Node): nat {
    if c == [] then 0 else if c[0] == p then |c| else From(c[1..], p)
  }

  lemma {:induction false} FromBounds(c: seq<Node>, p: Node)
    requires p in c
    ensures 1 <= From(c, p) <= |c|
    ensures c[0] != p ==> From(c, p) < |c|
  {
    if c[0] != p {
      FromBounds(c[1..], p);
    }
  }

  /** The nodes that are not below the popper's `top`: each failure needs a fresh one of them. */
  function Slack(s: State, t: Thread): int
    requires t in s.poppers
  {
    match s.poppers[t]
    case Reading => |s.next| - 1
    case Following(top) => if top.Some? then |s.next| - From(Free(s), top.value) else 0
    case Cutting(top, _) => if top.Some? then |s.next| - From(Free(s), top.value) else 0
  }

  lemma SlackIsNatural(s: State, t: Thread)
    requires Sound(s) && t in s.poppers
    ensures 0 <= Slack(s, t) <= |s.next| - 1
  {
    var c := Free(s);
    FreeIsChain(s, c);
    PopperSeesHead(s, c, t);
    if !s.poppers[t].Reading? {
      FromBounds(c, s.poppers[t].top.value);
    }
  }

  lemma SlackShrinks(s: State, a: Action, t: Thread)
    requires Sound(s) && Permitted(s, a) && t in s.poppers && t in Step(s, a).poppers
    ensures Slack(Step(s, a), t) + (if Beaten(s, a, t) then 1 else 0) <= Slack(s, t)
  {
    var s', c := Step(s, a), Free(s);
    StepKeepsSound(s, a);
    FreeIsChain(s, c);
    PopperSeesHead(s, c, t);
    if a.IsPop() {
      assert a.Wait? || a.t == t || s' == s;
      if !s.poppers[t].Reading? {
        FromBounds(c, s.poppers[t].top.value);
      }
      FromBounds(c, c[0]);
    } else if EffectOf(s, a).Pushes? && !s.poppers[t].Reading? {
      assert Free(s') == [EffectOf(s, a).node] + c;
      assert Free(s')[1..] == c;
    }
  }

  lemma {:induction false} FailuresWithinSlack(s: State, sched: seq<Action>, t: Thread)
    requires Sound(s) && Exclusive(s, sched) && t in s.poppers
    ensures Failures(s, sched, t) <= Slack(s, t)
    decreases |sched|
  {
    SlackIsNatural(s, t);
    if sched != [] {
      var s' := Step(s, sched[0]);
      StepKeepsSound(s, sched[0]);
      if t in s'.poppers {
        SlackShrinks(s, sched[0], t);
        FailuresWithinSlack(s', sched[1..], t);
      }
    }
  }

  /** Once its wait has returned, a pop loses at most `numThreads - 1` races, whatever the others do. */
  lemma RetriesAreBounded(n: nat, before: seq<Action>, after: seq<Action>, t: Thread)
    requires n >= 1 && Exclusive(Init(n), before)
    requires t in Run(Init(n), before).poppers && Exclusive(Run(Init(n), before), after)
    ensures Failures(Run(Init(n), before), after, t) <= n - 1
  {
    InitIsSound(n);
    RunKeepsSound(Init(n), before);
    FailuresWithinSlack(Run(Init(n), before), after, t);
    SlackIsNatural(Run(Init(n), before), t);
  }
}
