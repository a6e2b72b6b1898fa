/**
 The failure slot without the rule that its owner acts only while nobody records.  `throw_on_failure`
 and the destructor load the slot and store or delete later; what is published in between is lost.
 Here recorders may run at any time, and it is decided which runs keep every string.
 */
module FailureSlotRaces {
  import opened Options
  import opened FailureSlot
  import opened FailureSlotProofs

  /** The owner stands between its load and the store or delete that follows. */
  predicate InWindow(s: State) {
    s.owner.Clearing? || s.owner.Destroying?
  }

  /** A publication the owner will not see. */
  predicate PublishesUnseen(s: State, a: Action) {
    && InWindow(s)
    && a.Publish? && a.t in s.recorders && s.recorders[a.t].Publishing? && s.slot.None?
  }

  /** No publication succeeds while the owner stands between its load and its store or delete. */
  predicate Undisturbed(s: State, sched: seq<Action>)
    decreases |sched|
  {
    sched == [] || (!PublishesUnseen(s, sched[0]) && Undisturbed(Step(s, sched[0]), sched[1..]))
  }

  // ---------------------------------------------------------------------------------------------
  // Undisturbed runs keep every string
  // ---------------------------------------------------------------------------------------------

  lemma RecorderStepKeepsPlaced(s: State, a: Action)
    requires Placed(s) && !(a.ThrowLoad? || a.ThrowClear? || a.ThrowMessage? || a.DestroyLoad? || a.DestroyDelete?)
    ensures Placed(Step(s, a))
  {
    if a.Begin? {
      assert Local(Step(s, a)) == Local(s);
    } else if a.t in s.recorders {
      RecorderKeepsPlaced(s, a.t, a);
    }
  }

  lemma StepKeepsPlaced(s: State, a: Action)
    requires Placed(s) && Calm(s)
    ensures Placed(Step(s, a))
  {
    if a.ThrowLoad? || a.ThrowClear? || a.ThrowMessage? || a.DestroyLoad? || a.DestroyDelete? {
      OwnerKeepsPlaced(s, a);
    } else {
      RecorderStepKeepsPlaced(s, a);
    }
  }

  lemma StepKeepsCalm(s: State, a: Action)
    requires Calm(s) && !PublishesUnseen(s, a)
    ensures Calm(Step(s, a))
  {
  }

  lemma {:induction false} UndisturbedKeepsPlaced(s: State, sched: seq<Action>)
    requires Placed(s) && Calm(s) && Undisturbed(s, sched)
    ensures Placed(Run(s, sched)) && Calm(Run(s, sched))
    decreases |sched|
  {
    if sched != [] {
      StepKeepsPlaced(s, sched[0]);
      StepKeepsCalm(s, sched[0]);
      UndisturbedKeepsPlaced(Step(s, sched[0]), sched[1..]);
    }
  }

  // ---------------------------------------------------------------------------------------------
  // A disturbed run loses a string for good
  // ---------------------------------------------------------------------------------------------

  /** Nobody but possibly the slot has the string. */
  predicate Unreferenced(s: State, i: Str) {
    && i < |s.texts| && i !in s.deleted
    && (forall t :: t in s.recorders && s.recorders[t].HasMessage() ==> s.recorders[t].msg != i)
    && (InWindow(s) ==> s.owner.cur != Some(i))
    && (s.owner.Throwing? ==> s.owner.msg != i)
  }

  /** Published into the window: the owner is about to wipe it out of the slot. */
  predicate Doomed(s: State, i: Str) {
    Unreferenced(s, i) && s.slot == Some(i) && InWindow(s)
  }

  predicate Lost(s: State, i: Str) {
    Unreferenced(s, i) && s.slot != Some(i)
  }

  lemma UnseenIsDoomed(s: State, a: Action)
    requires Placed(s) && Calm(s) && PublishesUnseen(s, a)
    ensures Doomed(Step(s, a), s.recorders[a.t].msg)
  {
    var i := s.recorders[a.t].msg;
    assert Local(s)[a.t] == i;
    forall t | t in s.recorders && t != a.t && s.recorders[t].HasMessage()
      ensures s.recorders[t].msg != i
    {
      assert Local(s)[t] == s.recorders[t].msg;
    }
  }

  lemma StepKeepsLoss(s: State, a: Action, i: Str)
    requires Doomed(s, i) || Lost(s, i)
    ensures var s' := Step(s, a);
            (Doomed(s', i) && s'.owner == s.owner) || Lost(s', i)
  {
  }

  lemma {:induction false} RunKeepsLoss(s: State, sched: seq<Action>, i: Str)
    requires Doomed(s, i) || Lost(s, i)
    ensures var s' := Run(s, sched);
            Doomed(s', i) || Lost(s', i)
    decreases |sched|
  {
    if sched != [] {
      StepKeepsLoss(s, sched[0], i);
      RunKeepsLoss(Step(s, sched[0]), sched[1..], i);
    }
  }

  lemma {:induction false} DisturbedRunLoses(s: State, sched: seq<Action>) returns (i: Str)
    requires Placed(s) && Calm(s) && !Undisturbed(s, sched)
    ensures var s' := Run(s, sched);
            Doomed(s', i) || Lost(s', i)
    decreases |sched|
  {
    var s' := Step(s, sched[0]);
    if PublishesUnseen(s, sched[0]) {
      UnseenIsDoomed(s, sched[0]);
      i := s.recorders[sched[0].t].msg;
      RunKeepsLoss(s', sched[1..], i);
    } else {
      StepKeepsPlaced(s, sched[0]);
      StepKeepsCalm(s, sched[0]);
      i := DisturbedRunLoses(s', sched[1..]);
    }
  }

  lemma LostIsNowhere(s: State, i: Str)
    requires Lost(s, i)
    ensures Copies(s, i) == 0
  {
    assert LocalTo(s, i) == {};
  }

  // ---------------------------------------------------------------------------------------------
  // The exact condition
  // ---------------------------------------------------------------------------------------------

  /** Every string allocated so far is in exactly one place: slot, one recorder, the owner's hand, or deleted once. */
  predicate AllKept(s: State) {
    forall i :: 0 <= i < |s.texts| ==> Copies(s, i) == 1
  }

  /**
   Whoever runs when: once the owner is out of its window, every string is in exactly one place if and
   only if nothing was published between any of its loads and the store or delete that followed.
   */
  lemma StringsKeptExactlyWhenUndisturbed(sched: seq<Action>)
    requires !InWindow(Run(INIT, sched))
    ensures AllKept(Run(INIT, sched)) <==> Undisturbed(INIT, sched)
  {
    var s := Run(INIT, sched);
    InitHolds();
    if Undisturbed(INIT, sched) {
      UndisturbedKeepsPlaced(INIT, sched);
      forall i | 0 <= i < |s.texts|
        ensures Copies(s, i) == 1
      {
        PlacedIsOnce(s, i);
      }
    } else {
      var i := DisturbedRunLoses(INIT, sched);
      LostIsNowhere(s, i);
    }
  }

  /** The rule callers are expected to keep is enough: a quiescent run is undisturbed. */
  lemma {:induction false} QuiescentIsUndisturbed(s: State, sched: seq<Action>)
    requires Inv(s) && Quiescent(s, sched)
    ensures Undisturbed(s, sched)
    decreases |sched|
  {
    if sched != [] {
      StepKeepsInv(s, sched[0]);
      QuiescentIsUndisturbed(Step(s, sched[0]), sched[1..]);
    }
  }
}
