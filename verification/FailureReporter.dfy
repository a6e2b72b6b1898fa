/**
 The failure slot as the class holds it: fields changed in place by `record_failure`,
 `throw_on_failure` and the destructor, with other recorders running between a recorder's own steps.
 */
module FailureReporters {
  import opened Options
  import opened FailureSlot
  import opened FailureSlotProofs

  /** The thread that takes a recorder's step. */
  function Actor(a: Action): Option<Thread> {
    match a
    case Begin(t, _) => Some(t)
    case Check(t) => Some(t)
    case Allocate(t) => Some(t)
    case Publish(t) => Some(t)
    case Discard(t) => Some(t)
    case _ => None
  }

  predicate OtherRecorders(sched: seq<Action>, me: Thread) {
    forall a :: a in sched ==> Actor(a).Some? && Actor(a) != Some(me)
  }

  lemma OtherStepFrame(s: State, a: Action, me: Thread)
    requires me in s.recorders && Actor(a).Some? && Actor(a) != Some(me)
    ensures var s' := Step(s, a);
            && s'.owner == s.owner && me in s'.recorders && s'.recorders[me] == s.recorders[me]
            && (s.slot.Some? ==> s'.slot == s.slot) && s'.thrown == s.thrown
  {
  }

  /** Other recorders neither empty the slot nor touch the locals of `me`. */
  lemma {:induction false} OthersOnlyFill(s: State, sched: seq<Action>, me: Thread)
    requires Inv(s) && s.owner.Idle? && me in s.recorders && OtherRecorders(sched, me)
    ensures var s' := Run(s, sched);
            && Inv(s') && s'.owner.Idle? && me in s'.recorders && s'.recorders[me] == s.recorders[me]
            && (s.slot.Some? ==> s'.slot == s.slot) && s'.thrown == s.thrown
    decreases |sched|
  {
    if sched != [] {
      assert sched[0] in sched && OtherRecorders(sched[1..], me);
      OtherStepFrame(s, sched[0], me);
      StepKeepsInv(s, sched[0]);
      OthersOnlyFill(Step(s, sched[0]), sched[1..], me);
    }
  }

  lemma BeginFacts(s: State, me: Thread, text: string)
    requires Inv(s) && s.owner.Idle? && me !in s.recorders
    ensures var s' := Step(s, Begin(me, text));
            Inv(s') && s' == s.(recorders := s.recorders[me := Checking(text)])
  {
    StepKeepsInv(s, Begin(me, text));
  }

  lemma CheckFacts(s: State, me: Thread)
    requires Inv(s) && s.owner.Idle? && me in s.recorders && s.recorders[me].Checking?
    ensures var s' := Step(s, Check(me));
            && Inv(s') && s'.owner.Idle? && s'.slot == s.slot && s'.thrown == s.thrown && s'.texts == s.texts
            && (s.slot.Some? ==> me !in s'.recorders)
            && (s.slot.None? ==> me in s'.recorders && s'.recorders[me] == Allocating(s.recorders[me].text))
  {
    StepKeepsInv(s, Check(me));
  }

  lemma AllocateFacts(s: State, me: Thread)
    requires Inv(s) && s.owner.Idle? && me in s.recorders && s.recorders[me].Allocating?
    ensures var s' := Step(s, Allocate(me));
            && Inv(s') && s'.owner.Idle? && s'.slot == s.slot && s'.thrown == s.thrown
            && me in s'.recorders && s'.recorders[me] == Publishing(|s.texts|)
            && s'.texts == s.texts + [s.recorders[me].text]
  {
    StepKeepsInv(s, Allocate(me));
  }

  lemma PublishFacts(s: State, me: Thread)
    requires Inv(s) && s.owner.Idle? && me in s.recorders && s.recorders[me].Publishing?
    ensures var s' := Step(s, Publish(me));
            && Inv(s') && s'.owner.Idle? && s'.thrown == s.thrown
            && s'.slot.Some? && (s.slot.Some? ==> s'.slot == s.slot)
            && (me in s'.recorders ==> s'.recorders[me].Discarding?)
            && (s.slot.None? ==> me !in s'.recorders && s'.slot == Some(s.recorders[me].msg) && s'.texts == s.texts)
  {
    StepKeepsInv(s, Publish(me));
  }

  lemma DiscardFacts(s: State, me: Thread)
    requires Inv(s) && s.owner.Idle? && me in s.recorders && s.recorders[me].Discarding?
    ensures var s' := Step(s, Discard(me));
            && Inv(s') && s'.owner.Idle? && s'.slot == s.slot && s'.thrown == s.thrown && me !in s'.recorders
  {
    StepKeepsInv(s, Discard(me));
  }

  lemma NothingLeft(s: State)
    requires Placed(s) && s.slot == None && s.recorders == map[] && !s.owner.Throwing?
    ensures forall i :: 0 <= i < |s.texts| ==> i in s.deleted
  {
    assert Local(s) == map[];
  }

  function AfterDestroy(s: State): State {
    s.(slot := None, owner := Destroyed, deleted := s.deleted + Pending(s.slot))
  }

  lemma DestroyState(s: State)
    requires s.owner.Idle?
    ensures Step(Step(s, DestroyLoad), DestroyDelete) == AfterDestroy(s)
  {
  }

  lemma DestroyKeepsInv(s: State)
    requires Inv(s) && s.owner.Idle? && s.recorders == map[]
    ensures Inv(AfterDestroy(s))
  {
    DestroyState(s);
    StepKeepsInv(s, DestroyLoad);
    StepKeepsInv(Step(s, DestroyLoad), DestroyDelete);
  }

  // ---------------------------------------------------------------------------------------------
  // The calls as runs
  // ---------------------------------------------------------------------------------------------

  /** `record_failure` up to its check, with others before that. */
  function Looked(s: State, me: Thread, text: string, beforeCheck: seq<Action>): State {
    Step(Run(Step(s, Begin(me, text)), beforeCheck), Check(me))
  }

  /** The rest of it, if the slot was empty: allocate, others, exchange, and delete if that failed. */
  function Recorded(s: State, me: Thread, beforePublish: seq<Action>): State {
    Step(Step(Run(Step(s, Allocate(me)), beforePublish), Publish(me)), Discard(me))
  }

  function RecordCall(s: State, me: Thread, text: string, beforeCheck: seq<Action>, beforePublish: seq<Action>): State {
    var looked := Looked(s, me, text, beforeCheck);
    if me in looked.recorders then Recorded(looked, me, beforePublish) else looked
  }

  class FailureReporter {
    var slot: Option<Str>
    var recorders: map<Thread, Recorder>
    var owner: Owner
    // The heap and what happened so far.
    var texts: seq<string>
    var deleted: seq<Str>
    var published: seq<Str>
    var thrown: seq<string>
    var reported: bool

    function View(): State
      reads this
    {
      State(slot, texts, deleted, recorders, owner, published, thrown, reported)
    }

    constructor ()
      ensures View() == INIT && Inv(View())
    {
      slot, recorders, owner := None, map[], Idle;
      texts, deleted, published, thrown, reported := [], [], [], [], false;
    }

    method Perform(a: Action)
      requires Actor(a).Some?
      modifies this
      ensures View() == Step(old(View()), a)
    {
      if owner.Destroyed? {
        return;
      }
      match a
      case Begin(t, text) =>
        if t !in recorders {
          recorders := recorders[t := Checking(text)];
        }
      case Check(t) =>
        if t in recorders && recorders[t].Checking? {
          if slot.Some? {
            recorders, reported := recorders - {t}, true;
          } else {
            recorders := recorders[t := Allocating(recorders[t].text)];
          }
        }
      case Allocate(t) =>
        if t in recorders && recorders[t].Allocating? {
          texts, recorders := texts + [recorders[t].text], recorders[t := Publishing(|texts|)];
        }
      case Publish(t) =>
        if t in recorders && recorders[t].Publishing? {
          var msg := recorders[t].msg;
          if slot.None? {
            slot, published := Some(msg), published + [msg];
            recorders, reported := recorders - {t}, true;
          } else {
            recorders := recorders[t := Discarding(msg)];
          }
        }
      case Discard(t) =>
        if t in recorders && recorders[t].Discarding? {
          deleted := deleted + [recorders[t].msg];
          recorders, reported := recorders - {t}, true;
        }
    }

    method Execute(sched: seq<Action>)
      requires forall a :: a in sched ==> Actor(a).Some?
      modifies this
      ensures View() == Run(old(View()), sched)
    {
      assert sched[0..] == sched;
      for i := 0 to |sched|
        invariant Run(View(), sched[i..]) == Run(old(View()), sched)
      {
        assert sched[i..][1..] == sched[i + 1..];
        Perform(sched[i]);
      }
    }

    /** The exchange of `record_failure`, and the delete if it failed. */
    method Exchange(me: Thread)
      requires Inv(View()) && owner.Idle? && me in recorders && recorders[me].Publishing?
      modifies this
      ensures Inv(View()) && owner.Idle? && me !in recorders && thrown == old(thrown)
      ensures View() == Step(Step(old(View()), Publish(me)), Discard(me))
      ensures old(slot).Some? ==> slot == old(slot)
      ensures old(slot).None? ==> slot == Some(old(recorders)[me].msg) && texts == old(texts)
    {
      PublishFacts(View(), me);
      Perform(Publish(me));
      if me in recorders {
        DiscardFacts(View(), me);
        Perform(Discard(me));
      }
    }

    /** The rest of `record_failure` once it has found the slot empty. */
    method RecordNew(me: Thread, text: string, beforePublish: seq<Action>)
      requires Inv(View()) && owner.Idle? && me in recorders && recorders[me] == Allocating(text)
      requires OtherRecorders(beforePublish, me)
      modifies this
      ensures Inv(View()) && owner.Idle? && me !in recorders
      ensures slot.Some? && thrown == old(thrown)
      ensures old(slot).Some? ==> slot == old(slot)
      ensures old(slot).None? && beforePublish == [] ==> slot == Some(old(|texts|)) && texts == old(texts) + [text]
      ensures View() == Recorded(old(View()), me, beforePublish)
    {
      AllocateFacts(View(), me);
      Perform(Allocate(me));
      OthersOnlyFill(View(), beforePublish, me);
      Execute(beforePublish);
      Exchange(me);
    }

    /**
     `record_failure` with other recorders running before its check and before its exchange: when it
     returns, some failure is in the slot, one that was already there still is, and if nobody
     interfered it is this call's message.  The call is the run of its own steps and the others'.
     */
    method RecordFailure(me: Thread, text: string, beforeCheck: seq<Action>, beforePublish: seq<Action>)
      requires Inv(View()) && owner.Idle? && me !in recorders
      requires OtherRecorders(beforeCheck, me) && OtherRecorders(beforePublish, me)
      modifies this
      ensures Inv(View()) && owner.Idle? && me !in recorders
      ensures slot.Some? && thrown == old(thrown)
      ensures old(slot).Some? ==> slot == old(slot)
      ensures old(slot).None? && beforeCheck == [] && beforePublish == [] ==>
                slot == Some(old(|texts|)) && texts == old(texts) + [text]
      ensures View() == RecordCall(old(View()), me, text, beforeCheck, beforePublish)
    {
      BeginFacts(View(), me, text);
      Perform(Begin(me, text));
      OthersOnlyFill(View(), beforeCheck, me);
      Execute(beforeCheck);
      CheckFacts(View(), me);
      Perform(Check(me));
      if me in recorders {
        RecordNew(me, text, beforePublish);
      }
    }

    /** `throw_on_failure`: throws the recorded message if there is one, and leaves the slot empty. */
    method ThrowOnFailure() returns (message: Option<string>)
      requires Inv(View()) && owner.Idle? && recorders == map[]
      modifies this
      ensures Inv(View()) && owner.Idle? && recorders == map[] && slot == None
      ensures message.Some? <==> old(reported)
      ensures message.Some? ==> old(slot).Some? && old(slot).value < |texts| && message.value == texts[old(slot).value]
      ensures thrown == old(thrown) + (if message.Some? then [message.value] else [])
      ensures texts == old(texts) && published == old(published)
      ensures View() == FailureSlotProofs.ThrowOnFailure(old(View()))
    {
      ThrowFacts(View());
      var cur := slot;
      slot, reported := None, false;
      message := None;
      if cur.Some? {
        message := Some(texts[cur.value]);
        deleted, thrown := deleted + [cur.value], thrown + [texts[cur.value]];
      }
    }

    /** The destructor: every string ever allocated has now been deleted. */
    method Destroy()
      requires Inv(View()) && owner.Idle? && recorders == map[]
      modifies this
      ensures Inv(View()) && owner.Destroyed? && texts == old(texts)
      ensures forall i :: 0 <= i < |texts| ==> i in deleted
      ensures View() == Step(Step(old(View()), DestroyLoad), DestroyDelete)
    {
      DestroyState(View());
      DestroyKeepsInv(View());
      NothingLeft(AfterDestroy(View()));
      var cur := slot;
      if cur.Some? {
        deleted := deleted + [cur.value];
      }
      slot, owner := None, Destroyed;
    }
  }
}
