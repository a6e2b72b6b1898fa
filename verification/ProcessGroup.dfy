/**
 The class itself: the shared fields of `ProcessGroup` changed in place, one atomic operation at a
 time, with the retry loops of `push` and `pop` run against whatever the other threads do meanwhile.
 Every method is tied to the transition system of module FreeList.
 */
module ProcessGroups {
  import opened Options
  import opened FreeList
  import opened FreeListRuns
  import opened FreeListSafety
  import opened FreeListTheorems

  /** What happens around one turn of a retry loop: other threads' steps, and whether the swap fails spuriously. */
  datatype Turn = Turn(beforeRead: seq<Action>, beforeSwap: seq<Action>, spurious: bool)

  const QUIET := Turn([], [], false)

  predicate OnlyPushes(sched: seq<Action>) {
    forall a :: a in sched ==> !a.IsPop()
  }

  predicate PushersOnly(turn: Turn) {
    OnlyPushes(turn.beforeRead) && OnlyPushes(turn.beforeSwap)
  }

  // ---------------------------------------------------------------------------------------------
  // One turn of the loop in `pop`
  // ---------------------------------------------------------------------------------------------

  lemma PushStepGrows(s: State, a: Action, t: Thread) returns (pushed: seq<Node>)
    requires Sound(s) && !a.IsPop() && t in s.poppers
    ensures var s' := Step(s, a);
            && Sound(s') && s'.poppers == s.poppers
            && Free(s') == pushed + Free(s)
            && Slack(s', t) <= Slack(s, t)
  {
    StepKeepsSound(s, a);
    SlackShrinks(s, a, t);
    var e := EffectOf(s, a);
    pushed := if e.Pushes? then [e.node] else [];
  }

  /** While others only push, the list grows in front, and a popper's slack does not grow. */
  lemma {:induction false} PushesGrowTheList(s: State, sched: seq<Action>, t: Thread) returns (pushed: seq<Node>)
    requires Sound(s) && OnlyPushes(sched) && t in s.poppers
    ensures var s' := Run(s, sched);
            && Sound(s') && s'.poppers == s.poppers && |s'.next| == |s.next|
            && Free(s') == pushed + Free(s)
            && Slack(s', t) <= Slack(s, t)
    ensures sched == [] ==> pushed == []
    decreases |sched|
  {
    if sched == [] {
      pushed := [];
    } else {
      assert sched[0] in sched && OnlyPushes(sched[1..]);
      var first := PushStepGrows(s, sched[0], t);
      var more := PushesGrowTheList(Step(s, sched[0]), sched[1..], t);
      Concat(more, first, Free(s));
      pushed := more + first;
    }
  }

  lemma WaitFacts(s: State, me: Thread)
    requires Sound(s) && s.poppers == map[] && s.sem > 0
    ensures var s' := Step(s, Wait(me));
            Sound(s') && s'.poppers == map[me := Reading] && Free(s') == Free(s)
  {
    StepKeepsSound(s, Wait(me));
  }

  lemma FirstLoadFacts(s: State, me: Thread)
    requires Sound(s) && s.poppers == map[me := Reading]
    ensures var s' := Step(s, LoadForPop(me));
            Sound(s') && s'.poppers == map[me := Following(s'.head)] && Free(s') == Free(s)
  {
    StepKeepsSound(s, LoadForPop(me));
  }

  function BeforeSwap(s: State, me: Thread, turn: Turn): State {
    Run(Step(Run(s, turn.beforeRead), Follow(me)), turn.beforeSwap)
  }

  lemma FollowFacts(s: State, me: Thread)
    requires Sound(s) && s.poppers.Keys == {me} && s.poppers[me].Following?
    ensures var s', top := Step(s, Follow(me)), s.poppers[me].top;
            && Sound(s') && s'.poppers.Keys == {me} && s'.poppers[me].Cutting? && s'.poppers[me].top == top
            && Free(s') == Free(s) && Slack(s', me) <= Slack(s, me)
  {
    StepKeepsSound(s, Follow(me));
    SingleIsSound(s, Free(s), Follow(me));
    SlackShrinks(s, Follow(me), me);
  }

  lemma SwapFacts(s: State, me: Thread, spurious: bool)
    requires Sound(s) && s.poppers.Keys == {me} && s.poppers[me].Cutting?
    ensures var s', top := Step(s, SwapPop(me, spurious)), s.poppers[me].top;
            && Sound(s')
            && top.Some?
            && (PopSwaps(s, me, spurious) ==>
                  s'.poppers == map[] && top.value in s'.held && Free(s) == [top.value] + Free(s'))
            && (!PopSwaps(s, me, spurious) ==>
                  && s'.poppers == map[me := Following(s'.head)] && Free(s') == Free(s)
                  && Slack(s', me) + (if s.head != top then 1 else 0) <= Slack(s, me))
  {
    StepKeepsSound(s, SwapPop(me, spurious));
    assert me in s.poppers;
    if !PopSwaps(s, me, spurious) {
      SlackShrinks(s, SwapPop(me, spurious), me);
    }
  }

  lemma Concat(a: seq<Node>, b: seq<Node>, c: seq<Node>)
    ensures a + (b + c) == (a + b) + c
  {
  }

  lemma ReadKeepsSound(s: State, me: Thread, sched: seq<Action>) returns (pushed: seq<Node>)
    requires Sound(s) && OnlyPushes(sched) && s.poppers == map[me := Following(s.head)]
    ensures var s' := Step(Run(s, sched), Follow(me));
            && Sound(s') && s'.poppers.Keys == {me} && s'.poppers[me].Cutting? && s'.poppers[me].top == s.head
            && Free(s') == pushed + Free(s)
            && Slack(s', me) <= Slack(s, me)
    ensures sched == [] ==> pushed == []
  {
    pushed := PushesGrowTheList(s, sched, me);
    FollowFacts(Run(s, sched), me);
  }

  /** Between two looks at the head: the popper still holds a listed top, and the list only grew in front. */
  lemma TurnKeepsSound(s: State, me: Thread, turn: Turn) returns (pushed: seq<Node>)
    requires Sound(s) && PushersOnly(turn) && s.poppers == map[me := Following(s.head)]
    ensures var s' := BeforeSwap(s, me, turn);
            && Sound(s') && s'.poppers.Keys == {me} && s'.poppers[me].Cutting? && s'.poppers[me].top == s.head
            && Free(s') == pushed + Free(s)
            && Slack(s', me) <= Slack(s, me)
    ensures turn == QUIET ==> pushed == []
  {
    var first := ReadKeepsSound(s, me, turn.beforeRead);
    var s1 := Step(Run(s, turn.beforeRead), Follow(me));
    var second := PushesGrowTheList(s1, turn.beforeSwap, me);
    Concat(second, first, Free(s));
    pushed := second + first;
  }

  /** A turn without interference ends the loop. */
  lemma QuietTurnSwaps(s: State, me: Thread)
    requires Sound(s) && s.poppers == map[me := Following(s.head)]
    ensures PopSwaps(BeforeSwap(s, me, QUIET), me, false)
  {
    PopperSeesHead(s, Free(s), me);
    assert BeforeSwap(s, me, QUIET) == Step(s, Follow(me));
  }

  // ---------------------------------------------------------------------------------------------
  // One turn of the loop in `push`
  // ---------------------------------------------------------------------------------------------

  /** Steps of other pushers and of the one dispatcher `d`. */
  predicate OtherThreads(sched: seq<Action>, me: Thread, d: Thread) {
    forall a :: a in sched ==> if a.IsPop() then a.t == d else a.t != me
  }

  predicate Elsewhere(turn: Turn, me: Thread, d: Thread) {
    OtherThreads(turn.beforeRead, me, d) && OtherThreads(turn.beforeSwap, me, d)
  }

  lemma OtherStepFrame(s: State, a: Action, me: Thread, d: Thread)
    requires s.poppers.Keys <= {d} && me in s.pushers
    requires if a.IsPop() then a.t == d else a.t != me
    ensures Step(s, a).poppers.Keys <= {d} && me in Step(s, a).pushers && Step(s, a).pushers[me] == s.pushers[me]
  {
  }

  lemma OtherLeavesMine(s: State, a: Action, me: Thread, d: Thread)
    requires Sound(s) && s.poppers.Keys <= {d} && me in s.pushers
    requires if a.IsPop() then a.t == d else a.t != me
    ensures var s' := Step(s, a);
            Sound(s') && s'.poppers.Keys <= {d} && me in s'.pushers && s'.pushers[me] == s.pushers[me]
  {
    OtherStepFrame(s, a, me, d);
    StepKeepsSound(s, a);
  }

  lemma {:induction false} OthersLeaveMine(s: State, sched: seq<Action>, me: Thread, d: Thread)
    requires Sound(s) && s.poppers.Keys <= {d} && me in s.pushers && OtherThreads(sched, me, d)
    ensures var s' := Run(s, sched);
            Sound(s') && s'.poppers.Keys <= {d} && me in s'.pushers && s'.pushers[me] == s.pushers[me]
    decreases |sched|
  {
    if sched != [] {
      assert sched[0] in sched && OtherThreads(sched[1..], me, d);
      OtherLeavesMine(s, sched[0], me, d);
      OthersLeaveMine(Step(s, sched[0]), sched[1..], me, d);
    }
  }

  lemma LinkFacts(s: State, me: Thread)
    requires Sound(s) && me in s.pushers && s.pushers[me].Linking?
    ensures var s', was := Step(s, Link(me)), s.pushers[me];
            Sound(s') && s'.poppers == s.poppers && me in s'.pushers && s'.pushers[me] == Swapping(was.node, was.seen)
            && s'.head == s.head && Free(s') == Free(s)
  {
    StepKeepsSound(s, Link(me));
    PusherOwns(s, Free(s), me);
  }

  /** The swap of `push`: on success the node is the first of the list. */
  lemma SwapPushFacts(s: State, me: Thread, spurious: bool)
    requires Sound(s) && me in s.pushers && s.pushers[me].Swapping?
    ensures var s', p := Step(s, SwapPush(me, spurious)), s.pushers[me].node;
            && Sound(s') && s'.poppers == s.poppers && me in s'.pushers
            && (PushSwaps(s, me, spurious) ==> s'.pushers[me] == Posting && Free(s') == [p] + Free(s))
            && (!PushSwaps(s, me, spurious) ==> s'.pushers[me] == Linking(p, s'.head))
  {
    StepKeepsSound(s, SwapPush(me, spurious));
  }

  lemma PostFacts(s: State, me: Thread)
    requires Sound(s) && me in s.pushers && s.pushers[me].Posting?
    ensures var s' := Step(s, Post(me));
            && Sound(s') && Free(s') == Free(s) && s'.poppers == s.poppers && me !in s'.pushers
            && s'.sem == s.sem + 1 && s'.held == s.held && (forall p :: p in Free(s) ==> p !in s.held)
  {
    StepKeepsSound(s, Post(me));
  }

  lemma StartPushFacts(s: State, me: Thread, p: Node)
    requires Sound(s) && p in s.held && me !in s.pushers
    ensures var s' := Step(s, StartPush(me, p));
            Sound(s') && s'.poppers == s.poppers && me in s'.pushers && s'.pushers[me] == Loading(p)
            && Free(s') == Free(s)
  {
    StepKeepsSound(s, StartPush(me, p));
  }

  lemma LoadFacts(s: State, me: Thread)
    requires Sound(s) && me in s.pushers && s.pushers[me].Loading?
    ensures var s' := Step(s, LoadForPush(me));
            && Sound(s') && s'.poppers == s.poppers && me in s'.pushers
            && s'.pushers[me] == Linking(s.pushers[me].node, s'.head) && Free(s') == Free(s)
  {
    StepKeepsSound(s, LoadForPush(me));
  }

  // ---------------------------------------------------------------------------------------------
  // The calls as schedules
  // ---------------------------------------------------------------------------------------------

  /** One turn of the loop in `pop`, with what others do meanwhile. */
  function PopTurnOf(me: Thread, turn: Turn): seq<Action> {
    turn.beforeRead + [Follow(me)] + turn.beforeSwap + [SwapPop(me, turn.spurious)]
  }

  function PopTurns(me: Thread, turns: seq<Turn>): seq<Action> {
    if turns == [] then [] else PopTurns(me, turns[..|turns| - 1]) + PopTurnOf(me, turns[|turns| - 1])
  }

  function PopEntry(me: Thread, beforeLoad: seq<Action>): seq<Action> {
    [Wait(me)] + beforeLoad + [LoadForPop(me)]
  }

  /** A call of `pop` that takes these turns. */
  function PopCall(me: Thread, beforeLoad: seq<Action>, turns: seq<Turn>): seq<Action> {
    PopEntry(me, beforeLoad) + PopTurns(me, turns)
  }

  function PushTurnOf(me: Thread, turn: Turn): seq<Action> {
    turn.beforeRead + [Link(me)] + turn.beforeSwap + [SwapPush(me, turn.spurious)]
  }

  function PushTurns(me: Thread, turns: seq<Turn>): seq<Action> {
    if turns == [] then [] else PushTurns(me, turns[..|turns| - 1]) + PushTurnOf(me, turns[|turns| - 1])
  }

  function PushEntry(me: Thread, p: Node, beforeLoad: seq<Action>): seq<Action> {
    [StartPush(me, p)] + beforeLoad + [LoadForPush(me)]
  }

  /** A call of `push` up to its successful swap. */
  function PushToSwap(me: Thread, p: Node, beforeLoad: seq<Action>, turns: seq<Turn>): seq<Action> {
    PushEntry(me, p, beforeLoad) + PushTurns(me, turns)
  }

  lemma RunOne(s: State, a: Action)
    ensures Run(s, [a]) == Step(s, a)
  {
    assert [a][1..] == [];
  }

  /** One own step, others' steps, one own step. */
  lemma RunAround(s: State, a: Action, others: seq<Action>, b: Action)
    ensures Run(s, [a] + others + [b]) == Step(Run(Step(s, a), others), b)
  {
    RunOne(s, a);
    RunAppend(s, [a], others);
    RunAppend(s, [a] + others, [b]);
    RunOne(Run(s, [a] + others), b);
  }

  /** Others' steps and one own step, twice. */
  lemma RunTwice(s: State, first: seq<Action>, a: Action, second: seq<Action>, b: Action)
    ensures Run(s, first + [a] + second + [b]) == Step(Run(Step(Run(s, first), a), second), b)
  {
    assert first + [a] + second + [b] == first + ([a] + second + [b]);
    RunAppend(s, first, [a] + second + [b]);
    RunAround(Run(s, first), a, second, b);
  }

  lemma RunThenStep(s: State, others: seq<Action>, a: Action)
    ensures Run(s, others + [a]) == Step(Run(s, others), a)
  {
    RunAppend(s, others, [a]);
    RunOne(Run(s, others), a);
  }

  lemma OneMorePopTurn(s: State, me: Thread, turns: seq<Turn>, turn: Turn)
    ensures Run(s, PopTurns(me, turns + [turn])) == Run(Run(s, PopTurns(me, turns)), PopTurnOf(me, turn))
    ensures RacesLost(s, me, turns + [turn]) ==
            RacesLost(s, me, turns) + (if LosesRace(Run(s, PopTurns(me, turns)), me, turn) then 1 else 0)
  {
    assert (turns + [turn])[..|turns|] == turns;
    RunAppend(s, PopTurns(me, turns), PopTurnOf(me, turn));
  }

  lemma OneMorePushTurn(s: State, me: Thread, turns: seq<Turn>, turn: Turn)
    ensures Run(s, PushTurns(me, turns + [turn])) == Run(Run(s, PushTurns(me, turns)), PushTurnOf(me, turn))
  {
    assert (turns + [turn])[..|turns|] == turns;
    RunAppend(s, PushTurns(me, turns), PushTurnOf(me, turn));
  }

  /** The turn taken next: the one given, or a quiet one when none is left. */
  function TurnAt(turns: seq<Turn>, k: nat): Turn {
    if k < |turns| then turns[k] else QUIET
  }

  function FirstTurns(turns: seq<Turn>, k: nat): (r: seq<Turn>)
    ensures |r| == k
  {
    if k == 0 then [] else FirstTurns(turns, k - 1) + [TurnAt(turns, k - 1)]
  }

  lemma NoTurnsYet(s: State, me: Thread, turns: seq<Turn>)
    ensures Run(s, PopTurns(me, FirstTurns(turns, 0))) == s && RacesLost(s, me, FirstTurns(turns, 0)) == 0
    ensures Run(s, PushTurns(me, FirstTurns(turns, 0))) == s
  {
  }

  lemma TurnsArePushes(turns: seq<Turn>, k: nat)
    requires forall turn :: turn in turns ==> PushersOnly(turn)
    ensures PushersOnly(TurnAt(turns, k))
  {
  }

  /** The swap of this turn meets a head that has moved. */
  predicate LosesRace(s: State, me: Thread, turn: Turn) {
    var s' := BeforeSwap(s, me, turn);
    me in s'.poppers && s'.poppers[me].Cutting? && s'.head != s'.poppers[me].top
  }

  /** How many of these turns, taken in order, lose their race. */
  function RacesLost(s: State, me: Thread, turns: seq<Turn>): nat {
    if turns == [] then 0
    else
      var front, last := turns[..|turns| - 1], turns[|turns| - 1];
      RacesLost(s, me, front) + (if LosesRace(Run(s, PopTurns(me, front)), me, last) then 1 else 0)
  }

  class ProcessGroup {
    var sem: nat
    const pool: array<Option<Node>>     // the `next` field of each context
    var head: Option<Node>
    // Who has which context, and the locals of the threads inside `push` and `pop`.
    var held: set<Node>
    var pushers: map<Thread, Pusher>
    var poppers: map<Thread, Popper>
    var gack: bool

    function View(): State
      reads this, pool
    {
      State(sem, pool[..], head, held, pushers, poppers, gack)
    }

    constructor (numThreads: nat)
      requires numThreads >= 1
      ensures View() == Init(numThreads) && Sound(View()) && fresh(pool)
    {
      var next := new Option<Node>[numThreads](_ => None);
      sem, head, pool := numThreads, None, next;
      held, pushers, poppers, gack := {}, map[], map[], false;
      new;
      for i := 0 to numThreads
        modifies pool
        invariant pool[..i] == InitialNext(numThreads)[..i]
      {
        if i == numThreads - 1 {
          pool[i] := None;
        } else {
          pool[i] := Some(i + 1);
        }
      }
      head := Some(0);
      assert pool[..] == pool[..numThreads] && InitialNext(numThreads) == InitialNext(numThreads)[..numThreads];
      InitIsSound(numThreads);
    }

    method PerformPush(a: Action)
      requires !a.IsPop()
      modifies this, pool
      ensures View() == Step(old(View()), a)
    {
      match a
      case StartPush(t, p) =>
        if t !in pushers && p in held {
          held, pushers := held - {p}, pushers[t := Loading(p)];
        }
      case LoadForPush(t) =>
        if t in pushers && pushers[t].Loading? {
          pushers := pushers[t := Linking(pushers[t].node, head)];
        }
      case Link(t) =>
        if t in pushers && pushers[t].Linking? && pushers[t].node < pool.Length {
          var me := pushers[t];
          pool[me.node] := me.seen;
          pushers := pushers[t := Swapping(me.node, me.seen)];
        }
      case SwapPush(t, spurious) =>
        if t in pushers && pushers[t].Swapping? {
          if !spurious && head == pushers[t].seen {
            head, pushers := Some(pushers[t].node), pushers[t := Posting];
          } else {
            pushers := pushers[t := Linking(pushers[t].node, head)];
          }
        }
      case Post(t) =>
        if t in pushers && pushers[t].Posting? {
          sem, pushers := sem + 1, pushers - {t};
        }
    }

    method PerformPop(a: Action)
      requires a.IsPop()
      modifies this, pool
      ensures View() == Step(old(View()), a)
    {
      match a
      case Wait(t) =>
        if t !in poppers && sem > 0 {
          sem, poppers := sem - 1, poppers[t := Reading];
        }
      case LoadForPop(t) =>
        if t in poppers && poppers[t].Reading? {
          poppers := poppers[t := Following(head)];
        }
      case Follow(t) =>
        if t in poppers && poppers[t].Following? {
          var top := poppers[t].top;
          if top.Some? && top.value < pool.Length {
            poppers := poppers[t := Cutting(top, pool[top.value])];
          } else {
            gack := true;
          }
        }
      case SwapPop(t, spurious) =>
        if t in poppers && poppers[t].Cutting? {
          var me := poppers[t];
          if !spurious && head == me.top {
            head, poppers := me.rest, poppers - {t};
            if me.top.Some? {
              held := held + {me.top.value};
            }
          } else {
            poppers := poppers[t := Following(head)];
          }
        }
    }

    /** Any interleaving, executed on the fields. */
    method Execute(sched: seq<Action>)
      modifies this, pool
      ensures View() == Run(old(View()), sched)
    {
      assert sched[0..] == sched;
      for i := 0 to |sched|
        invariant Run(View(), sched[i..]) == Run(old(View()), sched)
      {
        assert sched[i..][1..] == sched[i + 1..];
        if sched[i].IsPop() {
          PerformPop(sched[i]);
        } else {
          PerformPush(sched[i]);
        }
      }
    }

    /** `pop` up to its loop, once the semaphore has granted the permit; others push before its first load. */
    method EnterPop(me: Thread, beforeLoad: seq<Action>) returns (ghost pushed: seq<Node>)
      requires Sound(View()) && poppers == map[] && sem > 0 && OnlyPushes(beforeLoad)
      modifies this, pool
      ensures Sound(View()) && poppers == map[me := Following(head)]
      ensures Free(View()) == pushed + old(Free(View()))
      ensures beforeLoad == [] ==> pushed == []
      ensures View() == Run(old(View()), PopEntry(me, beforeLoad))
    {
      RunAround(View(), Wait(me), beforeLoad, LoadForPop(me));
      WaitFacts(View(), me);
      PerformPop(Wait(me));
      pushed := PushesGrowTheList(View(), beforeLoad, me);
      Execute(beforeLoad);
      FirstLoadFacts(View(), me);
      PerformPop(LoadForPop(me));
    }

    /** One turn: read the successor, swap.  `lost` says that the swap failed because the head had moved. */
    method PopTurn(me: Thread, turn: Turn) returns (ret: Option<Node>, lost: bool, ghost pushed: seq<Node>)
      requires Sound(View()) && poppers == map[me := Following(head)] && PushersOnly(turn)
      modifies this, pool
      ensures Sound(View()) && View() == Run(old(View()), PopTurnOf(me, turn))
      ensures lost <==> LosesRace(old(View()), me, turn)
      ensures ret.Some? ==> poppers == map[] && ret.value in held && !lost
      ensures ret.Some? ==> pushed + old(Free(View())) == [ret.value] + Free(View())
      ensures ret.None? ==> poppers == map[me := Following(head)] && turn != QUIET
      ensures turn == QUIET ==> pushed == []
      ensures ret.None? ==> pushed + old(Free(View())) == Free(View())
      ensures ret.None? ==> Slack(View(), me) + (if lost then 1 else 0) <= old(Slack(View(), me))
    {
      RunTwice(View(), turn.beforeRead, Follow(me), turn.beforeSwap, SwapPop(me, turn.spurious));
      pushed := TurnKeepsSound(View(), me, turn);
      QuietTurnSwaps(View(), me);
      Execute(turn.beforeRead);
      PerformPop(Follow(me));
      Execute(turn.beforeSwap);
      SwapFacts(View(), me, turn.spurious);
      var top := poppers[me].top;
      var swaps := !turn.spurious && head == top;
      lost := head != top;
      PerformPop(SwapPop(me, turn.spurious));
      ret := if swaps then top else None;
    }

    /** The next turn of the loop of `pop` that began in `start`; `before` was pushed since then. */
    method NextPopTurn(me: Thread, turns: seq<Turn>, took: nat, ghost start: State, ghost before: seq<Node>)
      returns (ret: Option<Node>, lost: bool, ghost pushed: seq<Node>)
      requires Sound(View()) && poppers == map[me := Following(head)] && PushersOnly(TurnAt(turns, took))
      requires View() == Run(start, PopTurns(me, FirstTurns(turns, took))) && Free(View()) == before + Free(start)
      modifies this, pool
      ensures Sound(View()) && View() == Run(start, PopTurns(me, FirstTurns(turns, took + 1)))
      ensures RacesLost(start, me, FirstTurns(turns, took + 1)) ==
              RacesLost(start, me, FirstTurns(turns, took)) + (if lost then 1 else 0)
      ensures ret.Some? ==> poppers == map[] && ret.value in held && !lost
      ensures ret.None? ==> poppers == map[me := Following(head)] && took < |turns|
      ensures ret.Some? ==> pushed + Free(start) == [ret.value] + Free(View())
      ensures ret.None? ==> pushed + Free(start) == Free(View())
      ensures turns == [] ==> pushed == before
      ensures ret.None? ==> Slack(View(), me) + (if lost then 1 else 0) <= old(Slack(View(), me))
    {
      OneMorePopTurn(start, me, FirstTurns(turns, took), TurnAt(turns, took));
      ghost var more;
      ret, lost, more := PopTurn(me, TurnAt(turns, took));
      Concat(more, before, Free(start));
      pushed := more + before;
    }

    /** The loop of `pop`; it ends after `took` turns, one of them quiet at most. */
    method PopLoop(me: Thread, turns: seq<Turn>)
      returns (ret: Node, lost: nat, ghost pushed: seq<Node>, took: nat)
      requires Sound(View()) && poppers == map[me := Following(head)]
      requires forall turn :: turn in turns ==> PushersOnly(turn)
      modifies this, pool
      ensures Sound(View()) && poppers == map[] && ret in held
      ensures took <= |turns| + 1 && View() == Run(old(View()), PopTurns(me, FirstTurns(turns, took)))
      ensures pushed + old(Free(View())) == [ret] + Free(View())
      ensures turns == [] ==> pushed == []
      ensures lost == RacesLost(old(View()), me, FirstTurns(turns, took)) <= pool.Length - 1
    {
      ghost var start := View();
      lost, pushed, took := 0, [], 0;
      SlackIsNatural(start, me);
      NoTurnsYet(start, me, turns);
      while true
        invariant took <= |turns|
        invariant Sound(View()) && poppers == map[me := Following(head)]
        invariant View() == Run(start, PopTurns(me, FirstTurns(turns, took)))
        invariant Free(View()) == pushed + Free(start)
        invariant turns == [] ==> pushed == []
        invariant lost == RacesLost(start, me, FirstTurns(turns, took))
        invariant lost + Slack(View(), me) <= pool.Length - 1
        decreases |turns| - took
      {
        SlackIsNatural(View(), me);
        TurnsArePushes(turns, took);
        var r, beaten;
        r, beaten, pushed := NextPopTurn(me, turns, took, start, pushed);
        took := took + 1;
        if r.Some? {
          return r.value, lost, pushed, took;
        }
        lost := if beaten then lost + 1 else lost;
      }
    }

    /**
     `pop` against any finite interference by pushers: it takes exactly one context off the list,
     which otherwise only grew in front, and it loses at most `numThreads - 1` races.  Left alone it
     takes the first.  The call is the run of its own steps and the others', for the turns it took:
     those given, and a quiet one if they do not suffice.
     */
    method Pop(me: Thread, beforeLoad: seq<Action>, turns: seq<Turn>)
      returns (ret: Node, lost: nat, ghost pushed: seq<Node>, took: nat)
      requires Sound(View()) && poppers == map[] && sem > 0 && OnlyPushes(beforeLoad)
      requires forall turn :: turn in turns ==> PushersOnly(turn)
      modifies this, pool
      ensures Sound(View()) && poppers == map[]
      ensures took <= |turns| + 1 && View() == Run(old(View()), PopCall(me, beforeLoad, FirstTurns(turns, took)))
      ensures ret in held
      ensures pushed + old(Free(View())) == [ret] + Free(View())
      ensures beforeLoad == [] && turns == [] ==> pushed == []
      ensures var entered := Run(old(View()), PopEntry(me, beforeLoad));
              lost == RacesLost(entered, me, FirstTurns(turns, took)) <= pool.Length - 1
    {
      ghost var start := View();
      ghost var first := EnterPop(me, beforeLoad);
      ret, lost, pushed, took := PopLoop(me, turns);
      Concat(pushed, first, Free(start));
      pushed := pushed + first;
      RunAppend(start, PopEntry(me, beforeLoad), PopTurns(me, FirstTurns(turns, took)));
    }

    /** One turn of the loop in `push`: link, swap. */
    method PushTurn(me: Thread, p: Node, turn: Turn, ghost d: Thread) returns (done: bool)
      requires Sound(View()) && poppers.Keys <= {d} && Elsewhere(turn, me, d)
      requires me in pushers && pushers[me] == Linking(p, head)
      modifies this, pool
      ensures Sound(View()) && poppers.Keys <= {d} && me in pushers
      ensures done ==> pushers[me] == Posting && Free(View()) != [] && Free(View())[0] == p
      ensures !done ==> pushers[me] == Linking(p, head) && turn != QUIET
      ensures turn == QUIET ==> Free(View()) == [p] + old(Free(View()))
      ensures View() == Run(old(View()), PushTurnOf(me, turn))
    {
      RunTwice(View(), turn.beforeRead, Link(me), turn.beforeSwap, SwapPush(me, turn.spurious));
      OthersLeaveMine(View(), turn.beforeRead, me, d);
      Execute(turn.beforeRead);
      LinkFacts(View(), me);
      PerformPush(Link(me));
      OthersLeaveMine(View(), turn.beforeSwap, me, d);
      Execute(turn.beforeSwap);
      SwapPushFacts(View(), me, turn.spurious);
      done := !turn.spurious && head == pushers[me].seen;
      PerformPush(SwapPush(me, turn.spurious));
    }

    /** `push` up to its loop; others run before its first load. */
    method EnterPush(me: Thread, p: Node, beforeLoad: seq<Action>, ghost d: Thread)
      requires Sound(View()) && poppers.Keys <= {d} && p in held && me !in pushers && OtherThreads(beforeLoad, me, d)
      modifies this, pool
      ensures Sound(View()) && poppers.Keys <= {d} && me in pushers && pushers[me] == Linking(p, head)
      ensures beforeLoad == [] ==> Free(View()) == old(Free(View()))
      ensures View() == Run(old(View()), PushEntry(me, p, beforeLoad))
    {
      RunAround(View(), StartPush(me, p), beforeLoad, LoadForPush(me));
      StartPushFacts(View(), me, p);
      PerformPush(StartPush(me, p));
      OthersLeaveMine(View(), beforeLoad, me, d);
      Execute(beforeLoad);
      LoadFacts(View(), me);
      PerformPush(LoadForPush(me));
    }

    /** The loop of `push`: when it ends, the context is the first of the list. */
    method PushLoop(me: Thread, p: Node, turns: seq<Turn>, ghost d: Thread) returns (took: nat)
      requires Sound(View()) && poppers.Keys <= {d} && me in pushers && pushers[me] == Linking(p, head)
      requires forall turn :: turn in turns ==> Elsewhere(turn, me, d)
      modifies this, pool
      ensures Sound(View()) && poppers.Keys <= {d} && me in pushers && pushers[me] == Posting
      ensures took <= |turns| + 1 && View() == Run(old(View()), PushTurns(me, FirstTurns(turns, took)))
      ensures Free(View()) != [] && Free(View())[0] == p
      ensures turns == [] ==> Free(View()) == [p] + old(Free(View()))
    {
      ghost var start := View();
      took := 0;
      while true
        invariant took <= |turns|
        invariant Sound(View()) && poppers.Keys <= {d}
        invariant me in pushers && pushers[me] == Linking(p, head)
        invariant View() == Run(start, PushTurns(me, FirstTurns(turns, took)))
        invariant turns == [] ==> Free(View()) == Free(start)
        decreases |turns| - took
      {
        var turn := TurnAt(turns, took);
        OneMorePushTurn(start, me, FirstTurns(turns, took), turn);
        var done := PushTurn(me, p, turn, d);
        took := took + 1;
        if done {
          return;
        }
      }
    }

    /**
     `push` against any finite interference by other pushers and the one dispatcher `d`.  The call is
     the run of its own steps and the others'.  When it has swapped, its context is the first of the
     list and only the post is left to do, which it then does, whatever others do before that.
     */
    method Push(me: Thread, p: Node, beforeLoad: seq<Action>, turns: seq<Turn>, beforePost: seq<Action>,
                ghost d: Thread)
      returns (took: nat, ghost swapped: State)
      requires Sound(View()) && poppers.Keys <= {d} && p in held && me !in pushers
      requires OtherThreads(beforeLoad, me, d) && OtherThreads(beforePost, me, d)
      requires forall turn :: turn in turns ==> Elsewhere(turn, me, d)
      modifies this, pool
      ensures Sound(View()) && poppers.Keys <= {d} && me !in pushers
      ensures took <= |turns| + 1
      ensures swapped == Run(old(View()), PushToSwap(me, p, beforeLoad, FirstTurns(turns, took)))
      ensures View() == Run(swapped, beforePost + [Post(me)])
      ensures me in swapped.pushers && swapped.pushers[me] == Posting && Free(swapped) != [] && Free(swapped)[0] == p
      ensures sem == Run(swapped, beforePost).sem + 1 && Free(View()) == Free(Run(swapped, beforePost))
      ensures beforeLoad == [] && turns == [] ==> Free(swapped) == [p] + old(Free(View()))
    {
      ghost var start := View();
      EnterPush(me, p, beforeLoad, d);
      took := PushLoop(me, p, turns, d);
      swapped := View();
      RunAppend(start, PushEntry(me, p, beforeLoad), PushTurns(me, FirstTurns(turns, took)));
      OthersLeaveMine(swapped, beforePost, me, d);
      RunThenStep(swapped, beforePost, Post(me));
      Execute(beforePost);
      PostFacts(View(), me);
      PerformPush(Post(me));
    }
  }
}
