/** The failure slot over whole runs: no string leaks or is freed twice, and the first failure is the one thrown. */
module FailureSlotProofs {
  import opened Options
  import opened FailureSlot

  // ---------------------------------------------------------------------------------------------
  // Moving one string from place to place
  // ---------------------------------------------------------------------------------------------

  lemma AllocateLocal(m: nat, slot: Option<Str>, local: map<Thread, Str>, hand: Option<Str>, deleted: seq<Str>,
                      t: Thread)
    requires Disposed(m, slot, local, hand, deleted) && t !in local
    ensures Disposed(m + 1, slot, local[t := m], hand, deleted)
  {
    var local' := local[t := m];
    assert local'[t] in local'.Values;
    forall i | i in local.Values
      ensures i in local'.Values
    {
      var u :| u in local && local[u] == i;
      assert local'[u] in local'.Values;
    }
  }

  lemma RemainsLocal(local: map<Thread, Str>, t: Thread)
    requires t in local
    ensures forall i :: i in local.Values && i != local[t] ==> i in (local - {t}).Values
  {
    var local' := local - {t};
    forall i | i in local.Values && i != local[t]
      ensures i in local'.Values
    {
      var u :| u in local && local[u] == i;
      assert local'[u] in local'.Values;
    }
  }

  lemma PublishLocal(m: nat, local: map<Thread, Str>, hand: Option<Str>, deleted: seq<Str>, t: Thread)
    requires Disposed(m, None, local, hand, deleted) && t in local
    ensures Disposed(m, Some(local[t]), local - {t}, hand, deleted)
  {
    RemainsLocal(local, t);
  }

  lemma DeleteLocal(m: nat, slot: Option<Str>, local: map<Thread, Str>, hand: Option<Str>, deleted: seq<Str>, t: Thread)
    requires Disposed(m, slot, local, hand, deleted) && t in local
    ensures Disposed(m, slot, local - {t}, hand, deleted + [local[t]])
  {
    RemainsLocal(local, t);
  }

  lemma TakeFromSlot(m: nat, i: Str, local: map<Thread, Str>, deleted: seq<Str>)
    requires Disposed(m, Some(i), local, None, deleted)
    ensures Disposed(m, None, local, Some(i), deleted)
    ensures Disposed(m, None, local, None, deleted + [i])
  {
  }

  lemma DeleteInHand(m: nat, slot: Option<Str>, i: Str, local: map<Thread, Str>, deleted: seq<Str>)
    requires Disposed(m, slot, local, Some(i), deleted)
    ensures Disposed(m, slot, local, None, deleted + [i])
  {
  }

  // ---------------------------------------------------------------------------------------------
  // Every allowed step keeps the invariant
  // ---------------------------------------------------------------------------------------------

  lemma AllocateKeepsPlaced(s: State, t: Thread)
    requires Placed(s) && t in s.recorders && s.recorders[t].Allocating?
    ensures Placed(StepRecorder(s, t, Allocate(t)))
  {
    var s' := StepRecorder(s, t, Allocate(t));
    assert Local(s') == Local(s)[t := |s.texts|];
    AllocateLocal(|s.texts|, s.slot, Local(s), InHand(s), s.deleted, t);
  }

  lemma PublishKeepsPlaced(s: State, t: Thread)
    requires Placed(s) && t in s.recorders && s.recorders[t].Publishing?
    ensures Placed(StepRecorder(s, t, Publish(t)))
  {
    var s' := StepRecorder(s, t, Publish(t));
    if s.slot.None? {
      assert Local(s') == Local(s) - {t};
      PublishLocal(|s.texts|, Local(s), InHand(s), s.deleted, t);
    } else {
      assert Local(s') == Local(s);
    }
  }

  lemma DiscardKeepsPlaced(s: State, t: Thread)
    requires Placed(s) && t in s.recorders && s.recorders[t].Discarding?
    ensures Placed(StepRecorder(s, t, Discard(t)))
  {
    var s' := StepRecorder(s, t, Discard(t));
    assert Local(s') == Local(s) - {t};
    DeleteLocal(|s.texts|, s.slot, Local(s), InHand(s), s.deleted, t);
  }

  lemma RecorderKeepsPlaced(s: State, t: Thread, a: Action)
    requires Placed(s) && t in s.recorders
    ensures Placed(StepRecorder(s, t, a))
  {
    match (a, s.recorders[t])
    case (Allocate(_), Allocating(text)) => AllocateKeepsPlaced(s, t);
    case (Publish(_), Publishing(msg)) => PublishKeepsPlaced(s, t);
    case (Discard(_), Discarding(msg)) => DiscardKeepsPlaced(s, t);
    case _ => assert Local(StepRecorder(s, t, a)) == Local(s);
  }

  lemma RecorderKeepsReports(s: State, t: Thread, a: Action)
    requires Inv(s) && t in s.recorders
    ensures Reports(StepRecorder(s, t, a)) && InOrder(StepRecorder(s, t, a))
  {
    var s' := StepRecorder(s, t, a);
    assert s.owner.Idle?;
    if a.Publish? && s.recorders[t].Publishing? && s.slot.None? {
      assert Local(s)[t] == s.recorders[t].msg;
      assert s'.published == s.published + [s.recorders[t].msg];
      assert s.published == Thrown(s);
    }
  }

  /** Between the owner's load and its store the slot still holds what was loaded. */
  predicate Calm(s: State) {
    s.owner.Clearing? || s.owner.Destroying? ==> s.slot == s.owner.cur
  }

  lemma OwnerKeepsPlaced(s: State, a: Action)
    requires Placed(s) && Calm(s)
    ensures Placed(StepOwner(s, a))
  {
    assert Local(StepOwner(s, a)) == Local(s);
    match (a, s.owner)
    case (ThrowClear, Clearing(cur)) =>
      if cur.Some? {
        TakeFromSlot(|s.texts|, cur.value, Local(s), s.deleted);
      }
    case (ThrowMessage, Throwing(msg)) =>
      DeleteInHand(|s.texts|, s.slot, msg, Local(s), s.deleted);
    case (DestroyDelete, Destroying(cur)) =>
      if cur.Some? {
        TakeFromSlot(|s.texts|, cur.value, Local(s), s.deleted);
      }
    case _ =>
  }

  lemma OwnerKeepsReports(s: State, a: Action)
    requires Reports(s) && InOrder(s) && Allowed(s, a)
    ensures Reports(StepOwner(s, a)) && InOrder(StepOwner(s, a))
  {
    var s' := StepOwner(s, a);
    if a.ThrowMessage? && s.owner.Throwing? {
      assert |s.thrown| + 1 == |s.published| && s.published[|s.thrown|] == s.owner.msg;
      assert s.owner.msg in s.published;
      assert Thrown(s') == s.published;
    }
  }

  lemma StepKeepsInv(s: State, a: Action)
    requires Inv(s) && Allowed(s, a)
    ensures Inv(Step(s, a))
  {
    match a
    case Begin(t, _) =>
      assert Local(Step(s, a)) == Local(s);
    case Check(t) => if t in s.recorders { RecorderKeepsPlaced(s, t, a); RecorderKeepsReports(s, t, a); }
    case Allocate(t) => if t in s.recorders { RecorderKeepsPlaced(s, t, a); RecorderKeepsReports(s, t, a); }
    case Publish(t) => if t in s.recorders { RecorderKeepsPlaced(s, t, a); RecorderKeepsReports(s, t, a); }
    case Discard(t) => if t in s.recorders { RecorderKeepsPlaced(s, t, a); RecorderKeepsReports(s, t, a); }
    case _ => OwnerKeepsPlaced(s, a); OwnerKeepsReports(s, a);
  }

  lemma {:induction false} RunKeepsInv(s: State, sched: seq<Action>)
    requires Inv(s) && Quiescent(s, sched)
    ensures Inv(Run(s, sched))
    decreases |sched|
  {
    if sched != [] {
      StepKeepsInv(s, sched[0]);
      RunKeepsInv(Step(s, sched[0]), sched[1..]);
    }
  }

  lemma InitHolds()
    ensures Inv(INIT)
  {
  }

  /** Recorders among themselves are quiescent, whatever their interleaving. */
  lemma {:induction false} RecordersAreQuiescent(s: State, sched: seq<Action>)
    requires s.owner.Idle?
    requires forall a :: a in sched ==> a.Begin? || a.Check? || a.Allocate? || a.Publish? || a.Discard?
    ensures Quiescent(s, sched) && Run(s, sched).owner.Idle?
    decreases |sched|
  {
    if sched != [] {
      assert sched[0] in sched && forall a :: a in sched[1..] ==> a in sched;
      RecordersAreQuiescent(Step(s, sched[0]), sched[1..]);
    }
  }

  /** So are the calls of the owner once nobody records. */
  lemma OwnerCallsAreQuiescent(s: State)
    requires s.owner.Idle? && s.recorders == map[]
    ensures Quiescent(s, [ThrowLoad, ThrowClear, ThrowMessage]) && Quiescent(s, [DestroyLoad, DestroyDelete])
  {
    assert [ThrowLoad, ThrowClear, ThrowMessage][1..] == [ThrowClear, ThrowMessage];
    assert [ThrowClear, ThrowMessage][1..] == [ThrowMessage];
    assert Quiescent(Step(Step(s, ThrowLoad), ThrowClear), [ThrowMessage]);
    assert Quiescent(Step(s, ThrowLoad), [ThrowClear, ThrowMessage]);
    assert [DestroyLoad, DestroyDelete][1..] == [DestroyDelete];
    assert Quiescent(Step(s, DestroyLoad), [DestroyDelete]);
  }

  // ---------------------------------------------------------------------------------------------
  // What every quiescent run guarantees
  // ---------------------------------------------------------------------------------------------

  function LocalTo(s: State, i: Str): set<Thread> {
    set t | t in s.recorders && s.recorders[t].HasMessage() && s.recorders[t].msg == i
  }

  /** How many times a string turns up: slot, recorders, owner's hand, deletes. */
  function Copies(s: State, i: Str): nat {
    (if s.slot == Some(i) then 1 else 0) + |LocalTo(s, i)|
    + (if InHand(s) == Some(i) then 1 else 0) + multiset(s.deleted)[i]
  }

  lemma {:induction false} CountOnce(d: seq<Str>, i: Str)
    requires forall j, k :: 0 <= j < k < |d| ==> d[j] != d[k]
    ensures multiset(d)[i] == if i in d then 1 else 0
  {
    if d != [] {
      CountOnce(d[1..], i);
      assert d == [d[0]] + d[1..];
    }
  }

  lemma PlacedIsOnce(s: State, i: Str)
    requires Placed(s) && i < |s.texts|
    ensures Copies(s, i) == 1
  {
    CountOnce(s.deleted, i);
    assert forall t :: t in LocalTo(s, i) <==> t in Local(s) && Local(s)[t] == i;
    if i in Local(s).Values {
      var t :| t in Local(s) && Local(s)[t] == i;
      assert LocalTo(s, i) == {t};
    } else {
      assert LocalTo(s, i) == {};
    }
  }

  /** No string is leaked, shared or freed twice, at any point of any quiescent run. */
  lemma EveryStringHasOnePlace(sched: seq<Action>, i: Str)
    requires Quiescent(INIT, sched) && i < |Run(INIT, sched).texts|
    ensures Copies(Run(INIT, sched), i) == 1
  {
    InitHolds();
    RunKeepsInv(INIT, sched);
    PlacedIsOnce(Run(INIT, sched), i);
  }

  /** Once the group is destroyed, every string ever allocated has been deleted, exactly once. */
  lemma DestructionFreesEverything(sched: seq<Action>, i: Str)
    requires Quiescent(INIT, sched) && Run(INIT, sched).owner.Destroyed?
    requires i < |Run(INIT, sched).texts|
    ensures multiset(Run(INIT, sched).deleted)[i] == 1
  {
    EveryStringHasOnePlace(sched, i);
    InitHolds();
    RunKeepsInv(INIT, sched);
    assert LocalTo(Run(INIT, sched), i) == {};
  }

  /**
   The messages thrown are those that won the exchange, in that order and none skipped, and the slot
   holds the next one to be thrown: of all failures since the last throw, the first to be published.
   */
  lemma FirstPublishedIsThrown(sched: seq<Action>)
    requires Quiescent(INIT, sched)
    ensures var s := Run(INIT, sched);
            && |s.thrown| <= |s.published|
            && (forall k :: 0 <= k < |s.thrown| ==>
                  s.published[k] < |s.texts| && s.thrown[k] == s.texts[s.published[k]])
            && (s.owner.Idle? ==> s.published[|s.thrown|..] == if s.slot.Some? then [s.slot.value] else [])
  {
    InitHolds();
    RunKeepsInv(INIT, sched);
  }

  function ThrowOnFailure(s: State): State {
    Step(Step(Step(s, ThrowLoad), ThrowClear), ThrowMessage)
  }

  lemma ThrowFacts(s: State)
    requires Inv(s) && s.owner.Idle? && s.recorders == map[]
    ensures var s' := ThrowOnFailure(s);
            && Inv(s')
            && s.reported == s.slot.Some?
            && (s.slot.Some? ==>
                  s.slot.value < |s.texts| &&
                  s' == s.(slot := None, reported := false, thrown := s.thrown + [s.texts[s.slot.value]],
                           deleted := s.deleted + [s.slot.value]))
            && (s.slot.None? ==> s' == s)
  {
    StepKeepsInv(s, ThrowLoad);
    StepKeepsInv(Step(s, ThrowLoad), ThrowClear);
    StepKeepsInv(Step(Step(s, ThrowLoad), ThrowClear), ThrowMessage);
  }

  /** `throw_on_failure` throws exactly when some `record_failure` returned since the slot was last cleared. */
  lemma ThrowsExactlyWhenReported(sched: seq<Action>)
    requires Quiescent(INIT, sched) && Run(INIT, sched).owner.Idle? && Run(INIT, sched).recorders == map[]
    ensures var s := Run(INIT, sched);
            var s' := ThrowOnFailure(s);
            && s'.slot == None && !s'.reported
            && (s.reported ==>
                  s.slot.Some? && s.slot.value < |s.texts| && s'.thrown == s.thrown + [s.texts[s.slot.value]])
            && (!s.reported ==> s'.thrown == s.thrown)
  {
    InitHolds();
    RunKeepsInv(INIT, sched);
    ThrowFacts(Run(INIT, sched));
  }

  // ---------------------------------------------------------------------------------------------
  // A run that loses a failure
  // ---------------------------------------------------------------------------------------------

  lemma RunCons(s: State, a: Action, rest: seq<Action>)
    ensures Run(s, [a] + rest) == Run(Step(s, a), rest)
  {
    assert ([a] + rest)[1..] == rest;
  }

  /** Undisturbed, a recorder that finds the slot empty publishes its message. */
  lemma RecordAlone(s: State, t: Thread, text: string, rest: seq<Action>)
    requires t !in s.recorders && s.slot == None && !s.owner.Destroyed?
    ensures Run(s, [Begin(t, text)] + ([Check(t)] + ([Allocate(t)] + ([Publish(t)] + rest)))) ==
            Run(s.(slot := Some(|s.texts|), texts := s.texts + [text], published := s.published + [|s.texts|],
                   reported := true), rest)
  {
    var s1 := s.(recorders := s.recorders[t := Checking(text)]);
    RunCons(s, Begin(t, text), [Check(t)] + ([Allocate(t)] + ([Publish(t)] + rest)));
    RunCons(s1, Check(t), [Allocate(t)] + ([Publish(t)] + rest));
    PublishAlone(s1.(recorders := s1.recorders[t := Allocating(text)]), t, text, rest);
    assert (s.recorders[t := Checking(text)][t := Allocating(text)]) - {t} == s.recorders;
  }

  lemma PublishAlone(s: State, t: Thread, text: string, rest: seq<Action>)
    requires t in s.recorders && s.recorders[t] == Allocating(text) && s.slot == None && !s.owner.Destroyed?
    ensures Run(s, [Allocate(t)] + ([Publish(t)] + rest)) ==
            Run(s.(slot := Some(|s.texts|), texts := s.texts + [text], published := s.published + [|s.texts|],
                   recorders := s.recorders - {t}, reported := true), rest)
  {
    RunCons(s, Allocate(t), [Publish(t)] + rest);
    var s1 := Step(s, Allocate(t));
    RunCons(s1, Publish(t), rest);
    assert s1.recorders - {t} == s.recorders - {t};
  }

  /** A failure recorded between the owner's load and its store is lost, and its string leaks. */
  lemma RacingClearLosesTheFailure(text: string)
    ensures var s := Run(INIT, [ThrowLoad] + ([Begin(1, text)] + ([Check(1)] + ([Allocate(1)] +
                               ([Publish(1)] + [ThrowClear])))));
            s.owner.Idle? && s.recorders == map[] && s.thrown == [] && |s.texts| == 1 && Copies(s, 0) == 0
  {
    var s1 := INIT.(owner := Clearing(None));
    RunCons(INIT, ThrowLoad, [Begin(1, text)] + ([Check(1)] + ([Allocate(1)] + ([Publish(1)] + [ThrowClear]))));
    RecordAlone(s1, 1, text, [ThrowClear]);
    var s2 := s1.(slot := Some(0), texts := [text], published := [0], reported := true);
    assert Run(s2, [ThrowClear]) == Step(s2, ThrowClear);
    assert LocalTo(Step(s2, ThrowClear), 0) == {};
  }
}
