/**
 The lock-free list of task contexts inside `ProcessGroup`
 (backend/include/OpenEXR/IlmThreadProcessGroup.h) as a transition system.

 A context of the fixed pool is named by its index.  Every action is one atomic operation of one
 thread: a load, a store, a compare-and-exchange, a semaphore operation.  Any number of threads may
 be inside `push` and any number inside `pop`; the discipline that only one thread pops at a time
 is a property of schedules, so that what depends on it can be told apart.  Steps are sequentially
 consistent, and a weak compare-and-exchange may fail spuriously.
 */
module FreeList {
  import opened Options

  type Node = nat
  type Thread = nat

  /** Where a thread inside `push` stands.  `seen` is its local `oldhead`. */
  datatype Pusher =
    | Loading(node: Node)
    | Linking(node: Node, seen: Option<Node>)
    | Swapping(node: Node, seen: Option<Node>)
    | Posting
  {
    predicate HasNode() { !Posting? }
  }

  /** Where a thread inside `pop` stands once its `wait` has returned.  `top` is `ret`, `rest` is `newhead`. */
  datatype Popper =
    | Reading
    | Following(top: Option<Node>)
    | Cutting(top: Option<Node>, rest: Option<Node>)

  datatype State = State(
    sem: nat,
    next: seq<Option<Node>>,
    head: Option<Node>,
    held: set<Node>,               // handed out by `pop`, not yet given to `push`
    pushers: map<Thread, Pusher>,
    poppers: map<Thread, Popper>,
    gack: bool)                    // a popper found a null head after its `wait`

  datatype Action =
    | StartPush(t: Thread, node: Node)
    | LoadForPush(t: Thread)
    | Link(t: Thread)
    | SwapPush(t: Thread, spurious: bool)
    | Post(t: Thread)
    | Wait(t: Thread)
    | LoadForPop(t: Thread)
    | Follow(t: Thread)
    | SwapPop(t: Thread, spurious: bool)
  {
    predicate IsPop() { Wait? || LoadForPop? || Follow? || SwapPop? }
  }

  // ---------------------------------------------------------------------------------------------
  // The steps
  // ---------------------------------------------------------------------------------------------

  /** The `next` fields left by the constructor: each context points at the one after it. */
  function InitialNext(n: nat): seq<Option<Node>> {
    seq(n, i requires 0 <= i < n => if i == n - 1 then None else Some(i + 1))
  }

  function Init(n: nat): State
    requires n >= 1
  {
    State(n, InitialNext(n), Some(0), {}, map[], map[], false)
  }

  predicate PushSwaps(s: State, t: Thread, spurious: bool) {
    t in s.pushers && s.pushers[t].Swapping? && !spurious && s.head == s.pushers[t].seen
  }

  predicate PopSwaps(s: State, t: Thread, spurious: bool) {
    t in s.poppers && s.poppers[t].Cutting? && !spurious && s.head == s.poppers[t].top
  }

  /** Contexts outside the pool cannot be pushed: callers push only what they hold. */
  function StepPush(s: State, a: Action): State
    requires !a.IsPop()
  {
    match a
    case StartPush(t, p) =>
      if t !in s.pushers && p in s.held
      then s.(held := s.held - {p}, pushers := s.pushers[t := Loading(p)])
      else s
    case LoadForPush(t) =>
      if t in s.pushers && s.pushers[t].Loading?
      then s.(pushers := s.pushers[t := Linking(s.pushers[t].node, s.head)])
      else s
    case Link(t) =>
      if t in s.pushers && s.pushers[t].Linking? && s.pushers[t].node < |s.next|
      then
        var me := s.pushers[t];
        s.(next := s.next[me.node := me.seen], pushers := s.pushers[t := Swapping(me.node, me.seen)])
      else s
    case SwapPush(t, spurious) =>
      if PushSwaps(s, t, spurious)
      then s.(head := Some(s.pushers[t].node), pushers := s.pushers[t := Posting])
      else if t in s.pushers && s.pushers[t].Swapping?
      then s.(pushers := s.pushers[t := Linking(s.pushers[t].node, s.head)])
      else s
    case Post(t) =>
      if t in s.pushers && s.pushers[t].Posting?
      then s.(sem := s.sem + 1, pushers := s.pushers - {t})
      else s
  }

  function StepPop(s: State, a: Action): State
    requires a.IsPop()
  {
    match a
    case Wait(t) =>
      if t !in s.poppers && s.sem > 0
      then s.(sem := s.sem - 1, poppers := s.poppers[t := Reading])
      else s
    case LoadForPop(t) =>
      if t in s.poppers && s.poppers[t].Reading?
      then s.(poppers := s.poppers[t := Following(s.head)])
      else s
    case Follow(t) =>
      if t in s.poppers && s.poppers[t].Following?
      then
        var top := s.poppers[t].top;
        if top.Some? && top.value < |s.next|
        then s.(poppers := s.poppers[t := Cutting(top, s.next[top.value])])
        else s.(gack := true)
      else s
    case SwapPop(t, spurious) =>
      if PopSwaps(s, t, spurious)
      then
        var me := s.poppers[t];
        s.(head := me.rest,
           held := if me.top.Some? then s.held + {me.top.value} else s.held,
           poppers := s.poppers - {t})
      else if t in s.poppers && s.poppers[t].Cutting?
      then s.(poppers := s.poppers[t := Following(s.head)])
      else s
  }

  /** One atomic step.  An action whose thread is elsewhere, or blocked in `wait`, leaves the state alone. */
  function Step(s: State, a: Action): (s': State)
    ensures |s'.next| == |s.next|
  {
    if a.IsPop() then StepPop(s, a) else StepPush(s, a)
  }

  function Run(s: State, sched: seq<Action>): State
    decreases |sched|
  {
    if sched == [] then s else Run(Step(s, sched[0]), sched[1..])
  }

  /** What the class comment asks of callers: a `pop` starts only when no other `pop` is under way. */
  predicate Exclusive(s: State, sched: seq<Action>)
    decreases |sched|
  {
    sched == [] ||
    ((sched[0].Wait? ==> s.poppers.Keys <= {sched[0].t}) && Exclusive(Step(s, sched[0]), sched[1..]))
  }

  // ---------------------------------------------------------------------------------------------
  // The chain from the head
  // ---------------------------------------------------------------------------------------------

  /** `c` lists the nodes met when following `next` from `head` until null. */
  predicate IsChain(next: seq<Option<Node>>, head: Option<Node>, c: seq<Node>)
    decreases |c|
  {
    if c == [] then head.None?
    else head == Some(c[0]) && c[0] < |next| && IsChain(next, next[c[0]], c[1..])
  }

  predicate NoDup(c: seq<Node>) {
    forall i, j :: 0 <= i < j < |c| ==> c[i] != c[j]
  }

  /** The free list as the machine holds it: follow the pointers, at most as often as there are nodes. */
  function Walk(next: seq<Option<Node>>, head: Option<Node>, fuel: nat): seq<Node>
    decreases fuel
  {
    if fuel == 0 || head.None? || head.value >= |next| then []
    else [head.value] + Walk(next, next[head.value], fuel - 1)
  }

  function Free(s: State): seq<Node> {
    Walk(s.next, s.head, |s.next|)
  }

  lemma {:induction false} WalkIsChain(next: seq<Option<Node>>, head: Option<Node>, c: seq<Node>, fuel: nat)
    requires IsChain(next, head, c) && |c| <= fuel
    ensures Walk(next, head, fuel) == c
    decreases |c|
  {
    if c != [] {
      WalkIsChain(next, next[c[0]], c[1..], fuel - 1);
      assert c == [c[0]] + c[1..];
    }
  }

  /** Writing the `next` field of a node that is not on the chain does not change the chain. */
  lemma {:induction false} ChainFrame(next: seq<Option<Node>>, head: Option<Node>, c: seq<Node>,
                                      p: Node, v: Option<Node>)
    requires IsChain(next, head, c) && p < |next| && p !in c
    ensures IsChain(next[p := v], head, c)
    decreases |c|
  {
    if c != [] {
      ChainFrame(next, next[c[0]], c[1..], p, v);
    }
  }

  lemma {:induction false} ChainLinks(next: seq<Option<Node>>, head: Option<Node>, c: seq<Node>, i: nat)
    requires IsChain(next, head, c) && i < |c|
    ensures c[i] < |next|
    ensures next[c[i]] == if i + 1 < |c| then Some(c[i + 1]) else None
    decreases |c|
  {
    if i > 0 {
      ChainLinks(next, next[c[0]], c[1..], i - 1);
    }
  }

  lemma {:induction false} InitialChain(n: nat, k: nat)
    requires k <= n
    ensures IsChain(InitialNext(n), if k < n then Some(k) else None, seq(n - k, i => k + i))
    decreases n - k
  {
    if k < n {
      InitialChain(n, k + 1);
      assert seq(n - k, i => k + i)[1..] == seq(n - k - 1, i => k + 1 + i);
    }
  }

  // ---------------------------------------------------------------------------------------------
  // Ownership and accounting
  // ---------------------------------------------------------------------------------------------

  /** The nodes inside a `push` that has not swapped yet, by thread. */
  function Carried(s: State): map<Thread, Node> {
    map t | t in s.pushers && s.pushers[t].HasNode() :: s.pushers[t].node
  }

  function PostingThreads(s: State): set<Thread> {
    set t | t in s.pushers && s.pushers[t].Posting?
  }

  /** Each node of a pool of `n` is in exactly one place: on the chain, held, or inside one `push`. */
  predicate Partition(n: nat, c: seq<Node>, held: set<Node>, carried: map<Thread, Node>) {
    && NoDup(c)
    && (forall p :: p in c ==> p < n && p !in held)
    && (forall p :: p in held ==> p < n)
    && (forall t :: t in carried ==> carried[t] < n && carried[t] !in c && carried[t] !in held)
    && (forall t, u :: t in carried && u in carried && t != u ==> carried[t] != carried[u])
    && (forall p: Node :: p < n ==> p in c || p in held || p in carried.Values)
  }

  predicate Owned(s: State, c: seq<Node>) {
    Partition(|s.next|, c, s.held, Carried(s))
  }

  /** Every node on the chain is announced: by the semaphore, by a permit in use, or by a post to come. */
  predicate Accounted(s: State, c: seq<Node>) {
    s.sem + |s.poppers| + |PostingThreads(s)| == |c|
  }

  /** A pusher about to swap has stored the head it saw in its node. */
  predicate Linked(s: State) {
    forall t :: t in s.pushers && s.pushers[t].Swapping? ==>
      s.pushers[t].node < |s.next| && s.next[s.pushers[t].node] == s.pushers[t].seen
  }

  predicate Core(s: State, c: seq<Node>) {
    && IsChain(s.next, s.head, c)
    && Owned(s, c)
    && Accounted(s, c)
    && Linked(s)
    && !s.gack
  }

  /** What a popper must know for its swap to be a pop: its `rest` is still the successor of its `top`. */
  predicate CutSound(s: State, a: Action) {
    a.SwapPop? && PopSwaps(s, a.t, a.spurious) ==>
      var me := s.poppers[a.t];
      me.top.Some? && me.top.value < |s.next| && me.rest == s.next[me.top.value]
  }

  predicate FollowSound(s: State, a: Action) {
    a.Follow? && a.t in s.poppers && s.poppers[a.t].Following? ==>
      var top := s.poppers[a.t].top;
      top.Some? && top.value < |s.next|
  }

  /** The effect a step has on the list, told apart by which compare-and-exchange succeeded. */
  datatype Effect = Pushes(node: Node) | Pops(node: Node) | Stutters

  function EffectOf(s: State, a: Action): Effect {
    match a
    case SwapPush(t, spurious) =>
      if PushSwaps(s, t, spurious) then Pushes(s.pushers[t].node) else Stutters
    case SwapPop(t, spurious) =>
      if PopSwaps(s, t, spurious) && s.poppers[t].top.Some? then Pops(s.poppers[t].top.value) else Stutters
    case _ => Stutters
  }

  /** `after` is `before` with exactly that one stack operation applied. */
  predicate Lifo(before: seq<Node>, e: Effect, after: seq<Node>) {
    match e
    case Pushes(p) => after == [p] + before
    case Pops(p) => before == [p] + after
    case Stutters => after == before
  }

  function Apply(c: seq<Node>, e: Effect): seq<Node> {
    match e
    case Pushes(p) => [p] + c
    case Pops(_) => if c == [] then [] else c[1..]
    case Stutters => c
  }

  // ---------------------------------------------------------------------------------------------
  // Counting
  // ---------------------------------------------------------------------------------------------

  function Elements(c: seq<Node>): set<Node> {
    set p | p in c
  }

  lemma {:induction false} NoDupCard(c: seq<Node>)
    requires NoDup(c)
    ensures |Elements(c)| == |c|
  {
    if c != [] {
      NoDupCard(c[1..]);
      assert Elements(c) == {c[0]} + Elements(c[1..]);
    }
  }

  /** The indices of the pool. */
  function Below(n: nat): (r: set<Node>)
    ensures forall p: Node :: p in r <==> p < n
    ensures |r| == n
  {
    if n == 0 then {} else Below(n - 1) + {n - 1}
  }
}
