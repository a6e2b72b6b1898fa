/**
 The one-shot failure slot of `ProcessGroup`: `record_failure`, `throw_on_failure` and the
 destructor (backend/include/OpenEXR/IlmThreadProcessGroup.h) as a transition system.  A heap string
 is named by its allocation number.  Any number of threads may record; the throwing and destroying
 side is the one owner of the group.  That the owner acts only while nobody records is a property of
 schedules.
 */
module FailureSlot {
  import opened Options

  type Thread = nat
  type Str = nat

  datatype Recorder =
    | Checking(text: string)
    | Allocating(text: string)
    | Publishing(msg: Str)
    | Discarding(msg: Str)
  {
    predicate HasMessage() { Publishing? || Discarding? }
  }

  /** The owner's place in `throw_on_failure` or in the destructor; `cur` is its local. */
  datatype Owner =
    | Idle
    | Clearing(cur: Option<Str>)
    | Throwing(msg: Str)
    | Destroying(cur: Option<Str>)
    | Destroyed

  datatype State = State(
    slot: Option<Str>,
    texts: seq<string>,                 // contents of every string ever allocated
    deleted: seq<Str>,                  // every delete, in order
    recorders: map<Thread, Recorder>,
    owner: Owner,
    published: seq<Str>,                // every string that won the exchange, in order
    thrown: seq<string>,                // every message thrown, in order
    reported: bool)                     // a record_failure returned since the slot was last cleared

  datatype Action =
    | Begin(t: Thread, text: string)
    | Check(t: Thread)
    | Allocate(t: Thread)
    | Publish(t: Thread)
    | Discard(t: Thread)
    | ThrowLoad
    | ThrowClear
    | ThrowMessage
    | DestroyLoad
    | DestroyDelete

  const INIT := State(None, [], [], map[], Idle, [], [], false)

  function Return(s: State, t: Thread): State {
    s.(recorders := s.recorders - {t}, reported := true)
  }

  function StepRecorder(s: State, t: Thread, a: Action): State
    requires t in s.recorders
  {
    match (a, s.recorders[t])
    case (Check(_), Checking(text)) =>
      if s.slot.Some? then Return(s, t) else s.(recorders := s.recorders[t := Allocating(text)])
    case (Allocate(_), Allocating(text)) =>
      s.(texts := s.texts + [text], recorders := s.recorders[t := Publishing(|s.texts|)])
    case (Publish(_), Publishing(msg)) =>
      if s.slot.None? then Return(s.(slot := Some(msg), published := s.published + [msg]), t)
      else s.(recorders := s.recorders[t := Discarding(msg)])
    case (Discard(_), Discarding(msg)) =>
      Return(s.(deleted := s.deleted + [msg]), t)
    case _ => s
  }

  function StepOwner(s: State, a: Action): State {
    match (a, s.owner)
    case (ThrowLoad, Idle) => s.(owner := Clearing(s.slot))
    case (ThrowClear, Clearing(cur)) =>
      s.(slot := None, reported := false, owner := if cur.Some? then Throwing(cur.value) else Idle)
    case (ThrowMessage, Throwing(msg)) =>
      s.(thrown := s.thrown + [if msg < |s.texts| then s.texts[msg] else ""],
         deleted := s.deleted + [msg],
         owner := Idle)
    case (DestroyLoad, Idle) => s.(owner := Destroying(s.slot))
    case (DestroyDelete, Destroying(cur)) =>
      s.(slot := None, deleted := s.deleted + (if cur.Some? then [cur.value] else []), owner := Destroyed)
    case _ => s
  }

  /** One step.  Once destroyed, the group is gone and its slot with it: no step on it is modelled. */
  function Step(s: State, a: Action): State {
    if s.owner.Destroyed? then s
    else match a
    case Begin(t, text) => if t in s.recorders then s else s.(recorders := s.recorders[t := Checking(text)])
    case Check(t) => if t in s.recorders then StepRecorder(s, t, a) else s
    case Allocate(t) => if t in s.recorders then StepRecorder(s, t, a) else s
    case Publish(t) => if t in s.recorders then StepRecorder(s, t, a) else s
    case Discard(t) => if t in s.recorders then StepRecorder(s, t, a) else s
    case _ => StepOwner(s, a)
  }

  function Run(s: State, sched: seq<Action>): State
    decreases |sched|
  {
    if sched == [] then s else Run(Step(s, sched[0]), sched[1..])
  }

  /** The owner starts only when nobody is recording, and nobody starts recording while the owner is busy. */
  predicate Allowed(s: State, a: Action) {
    && (a.ThrowLoad? || a.DestroyLoad? ==> s.recorders == map[])
    && (a.Begin? ==> s.owner.Idle?)
  }

  predicate Quiescent(s: State, sched: seq<Action>)
    decreases |sched|
  {
    sched == [] || (Allowed(s, sched[0]) && Quiescent(Step(s, sched[0]), sched[1..]))
  }

  // ---------------------------------------------------------------------------------------------
  // Where every string is
  // ---------------------------------------------------------------------------------------------

  /** Strings still local to a recorder. */
  function Local(s: State): map<Thread, Str> {
    map t | t in s.recorders && s.recorders[t].HasMessage() :: s.recorders[t].msg
  }

  /** The string the owner has taken out of the slot. */
  function InHand(s: State): Option<Str> {
    if s.owner.Throwing? then Some(s.owner.msg) else None
  }

  /** Each of `m` strings is in exactly one place: slot, one recorder, the owner's hand, or deleted once. */
  predicate Disposed(m: nat, slot: Option<Str>, local: map<Thread, Str>, hand: Option<Str>, deleted: seq<Str>) {
    && (forall i, j :: 0 <= i < j < |deleted| ==> deleted[i] != deleted[j])
    && (forall i :: i in deleted ==> i < m)
    && (slot.Some? ==> slot.value < m && slot.value !in deleted && slot != hand)
    && (hand.Some? ==> hand.value < m && hand.value !in deleted)
    && (forall t :: t in local ==>
          local[t] < m && local[t] !in deleted && slot != Some(local[t]) && hand != Some(local[t]))
    && (forall t, u :: t in local && u in local && t != u ==> local[t] != local[u])
    && (forall i: Str :: i < m ==> slot == Some(i) || i in local.Values || hand == Some(i) || i in deleted)
  }

  /** The slot holds the one published string that has not been thrown, and says whether anything was reported. */
  predicate Reports(s: State) {
    match s.owner
    case Idle =>
      && s.published == Thrown(s) + Pending(s.slot)
      && s.reported == s.slot.Some?
      && (forall t :: t in s.recorders && s.recorders[t].Discarding? ==> s.slot.Some?)
    case Clearing(cur) =>
      && s.recorders == map[] && cur == s.slot
      && s.published == Thrown(s) + Pending(s.slot)
      && s.reported == s.slot.Some?
    case Throwing(msg) =>
      s.recorders == map[] && s.slot == None && s.published == Thrown(s) + [msg] && !s.reported
    case Destroying(cur) => s.recorders == map[] && cur == s.slot
    case Destroyed => s.recorders == map[] && s.slot == None
  }

  function Pending(slot: Option<Str>): seq<Str> {
    if slot.Some? then [slot.value] else []
  }

  /** The published strings that have been thrown already. */
  function Thrown(s: State): seq<Str> {
    if |s.thrown| <= |s.published| then s.published[..|s.thrown|] else s.published
  }

  predicate InOrder(s: State) {
    && |s.thrown| <= |s.published|
    && (forall i :: i in s.published ==> i < |s.texts|)
    && (forall k :: 0 <= k < |s.thrown| ==> s.published[k] < |s.texts| && s.thrown[k] == s.texts[s.published[k]])
  }

  predicate Placed(s: State) {
    Disposed(|s.texts|, s.slot, Local(s), InHand(s), s.deleted)
  }

  predicate Inv(s: State) {
    && Placed(s)
    && Reports(s)
    && InOrder(s)
  }
}
