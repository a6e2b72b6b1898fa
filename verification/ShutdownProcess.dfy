/**
 The process of backend/src/main.cpp: its globals and the places of its threads, changed in place, and
 the wait of the watcher run against whatever the other threads do between its own steps.
 */
module ShutdownProcess {
  import opened Shutdown

  predicate Over(s: State) {
    s.main.Died? || s.main.Returned?
  }

  /** The watcher's own steps. */
  predicate Own(a: Action) {
    a.Lock? || a.Check? || a.Block? || a.Spurious? || a.StopCdn? || a.StopServer?
  }

  predicate Elsewhere(sched: seq<Action>) {
    forall a :: a in sched ==> !Own(a)
  }

  // ---------------------------------------------------------------------------------------------
  // What the other threads can do to a waiting watcher
  // ---------------------------------------------------------------------------------------------

  lemma OtherStepFrame(s: State, a: Action)
    requires MainInOrder(s) && !Own(a) && !s.watcher.Unborn?
    ensures var s' := Step(s, a);
            (s'.watcher == s.watcher || s'.watcher == Wake(s.watcher)) && (s.shuttingDown ==> s'.shuttingDown)
  {
  }

  /** Others can only wake the watcher; the flag, once up, stays up. */
  lemma {:induction false} OthersLeaveWatcher(s: State, sched: seq<Action>)
    requires Inv(s) && Elsewhere(sched) && !s.watcher.Unborn?
    ensures var s' := Run(s, sched);
            && Inv(s') && (s'.watcher == s.watcher || s'.watcher == Wake(s.watcher))
            && (s.shuttingDown ==> s'.shuttingDown)
    decreases |sched|
  {
    if sched != [] {
      assert sched[0] in sched && Elsewhere(sched[1..]);
      OtherStepFrame(s, sched[0]);
      StepKeepsInv(s, sched[0]);
      OthersLeaveWatcher(Step(s, sched[0]), sched[1..]);
    }
  }

  lemma StepInGap(s: State, a: Action)
    requires MainInOrder(s) && !Own(a) && s.watcher.Gap?
    ensures Step(s, a).watcher.Gap?
    ensures Step(s, a).shuttingDown <==> s.shuttingDown || RaisesInGap(s, a)
  {
  }

  /** While the watcher is in the gap, the flag comes up exactly in the careless schedules. */
  lemma {:induction false} FlagInGap(s: State, sched: seq<Action>)
    requires Inv(s) && Elsewhere(sched) && s.watcher.Gap?
    ensures Run(s, sched).shuttingDown <==> s.shuttingDown || !Careful(s, sched)
    decreases |sched|
  {
    if sched != [] {
      assert sched[0] in sched && Elsewhere(sched[1..]);
      StepInGap(s, sched[0]);
      StepKeepsInv(s, sched[0]);
      FlagInGap(Step(s, sched[0]), sched[1..]);
      if RaisesInGap(s, sched[0]) {
        OthersLeaveWatcher(Step(s, sched[0]), sched[1..]);
      }
    }
  }

  // ---------------------------------------------------------------------------------------------
  // One round of the wait
  // ---------------------------------------------------------------------------------------------

  /** What the other threads do before the watcher has the mutex, before its check, and before it blocks. */
  datatype Round = Round(beforeLock: seq<Action>, beforeCheck: seq<Action>, beforeBlock: seq<Action>)

  predicate Others(r: Round) {
    Elsewhere(r.beforeLock) && Elsewhere(r.beforeCheck) && Elsewhere(r.beforeBlock)
  }

  /** The mutex is taken, after a wakeup if the watcher was asleep. */
  function Locked(s: State, r: Round): State {
    Step(Step(Run(s, r.beforeLock), Spurious), Lock)
  }

  function AtCheck(s: State, r: Round): State {
    Run(Locked(s, r), r.beforeCheck)
  }

  function Checked(s: State, r: Round): State {
    Step(AtCheck(s, r), Check)
  }

  function AfterRound(s: State, r: Round): State {
    Step(Run(Checked(s, r), r.beforeBlock), Block)
  }

  predicate Waiting(s: State) {
    Inv(s) && (s.watcher.Locking? || s.watcher.Blocked?)
  }

  lemma WakeAndLock(s: State)
    requires Waiting(s)
    ensures var s' := Step(Step(s, Spurious), Lock);
            && s'.shuttingDown == s.shuttingDown && Over(s') == Over(s)
            && (if Over(s) then s' == s else s'.watcher.Checking?)
  {
  }

  lemma LockFacts(s: State, r: Round)
    requires Waiting(s) && Others(r)
    ensures var s' := Locked(s, r);
            && Inv(s') && (s.shuttingDown ==> s'.shuttingDown)
            && (s'.watcher.Checking? || (Over(s') && (s'.watcher.Locking? || s'.watcher.Blocked?)))
  {
    OthersLeaveWatcher(s, r.beforeLock);
    var s1 := Run(s, r.beforeLock);
    WakeAndLock(s1);
    StepKeepsInv(s1, Spurious);
    StepKeepsInv(Step(s1, Spurious), Lock);
  }

  lemma {:induction false} OverStays(s: State, sched: seq<Action>)
    requires Over(s)
    ensures Run(s, sched) == s
    decreases |sched|
  {
    if sched != [] {
      OverStays(s, sched[1..]);
    }
  }

  lemma CheckFacts(s: State, r: Round)
    requires Waiting(s) && Others(r)
    ensures var at, s' := AtCheck(s, r), Checked(s, r);
            && Inv(at) && Inv(s') && (s.shuttingDown ==> at.shuttingDown) && Over(s') == Over(at)
            && s'.shuttingDown == at.shuttingDown && !at.watcher.StoppingCdn?
            && (!Over(at) ==> s'.watcher == if at.shuttingDown then StoppingCdn else Gap)
            && (Over(at) ==> s' == at)
  {
    LockFacts(s, r);
    var s1 := Locked(s, r);
    if Over(s1) {
      OverStays(s1, r.beforeCheck);
    } else {
      OthersLeaveWatcher(s1, r.beforeCheck);
    }
    StepKeepsInv(AtCheck(s, r), Check);
  }

  /**
   If the check finds the flag down, the round ends asleep or with the process; and it ends stuck
   exactly when the flag was raised in the gap and every notification has come too early.
   */
  lemma BlockFacts(s: State, r: Round)
    requires Waiting(s) && Others(r) && !Over(AtCheck(s, r)) && !AtCheck(s, r).shuttingDown
    ensures var s' := AfterRound(s, r);
            && Inv(s')
            && (Over(s') || s'.watcher.Blocked?)
            && (!Over(s') ==> (Stuck(s') <==> !Careful(Checked(s, r), r.beforeBlock) && !NotifyPending(s')))
  {
    CheckFacts(s, r);
    var gap := Checked(s, r);
    OthersLeaveWatcher(gap, r.beforeBlock);
    FlagInGap(gap, r.beforeBlock);
    StepKeepsInv(Run(gap, r.beforeBlock), Block);
  }

  /** The round `r` from `s` found the flag down and ended asleep in `s'`, stuck or not. */
  predicate SleptThrough(s: State, r: Round, s': State) {
    && s' == AfterRound(s, r)
    && s'.watcher.Blocked? && !AtCheck(s, r).shuttingDown
    && (Stuck(s') <==> !Careful(Checked(s, r), r.beforeBlock) && !NotifyPending(s'))
  }

  /** The check of the round finds the process running and the flag up. */
  predicate Signals(s: State, r: Round) {
    !Over(AtCheck(s, r)) && AtCheck(s, r).shuttingDown
  }

  /** One round, whatever it comes to. */
  function Waited(s: State, r: Round): State {
    if Signals(s, r) then Checked(s, r) else AfterRound(s, r)
  }

  /** Rounds until one is signalled or the process ends. */
  function WaitedAll(s: State, rounds: seq<Round>): State
    decreases |rounds|
  {
    if rounds == [] then s
    else if Signals(s, rounds[0]) || Over(AfterRound(s, rounds[0])) then Waited(s, rounds[0])
    else WaitedAll(AfterRound(s, rounds[0]), rounds[1..])
  }

  /** A process that is over at the check stays as it is for the rest of the round. */
  lemma OverRound(s: State, r: Round)
    requires Over(AtCheck(s, r))
    ensures AfterRound(s, r) == Checked(s, r) == AtCheck(s, r)
  {
    OverStays(AtCheck(s, r), r.beforeBlock);
  }

  /** The last of these rounds from `s` ended asleep in `s'`. */
  predicate SleptThroughAll(s: State, rounds: seq<Round>, s': State)
    decreases |rounds|
  {
    && rounds != []
    && if |rounds| == 1 then SleptThrough(s, rounds[0], s')
       else SleptThroughAll(AfterRound(s, rounds[0]), rounds[1..], s')
  }

  lemma {:induction false} AsleepMeansSleptThrough(s: State, rounds: seq<Round>)
    requires Waiting(s) && rounds != [] && forall r :: r in rounds ==> Others(r)
    requires WaitedAll(s, rounds).watcher.Blocked? && !Over(WaitedAll(s, rounds))
    ensures SleptThroughAll(s, rounds, WaitedAll(s, rounds))
    decreases |rounds|
  {
    var r := rounds[0];
    assert Others(r);
    RoundFacts(s, r);
    if |rounds| > 1 {
      AsleepMeansSleptThrough(AfterRound(s, r), rounds[1..]);
    }
  }

  /** The three ways a round can end. */
  lemma RoundFacts(s: State, r: Round)
    requires Waiting(s) && Others(r)
    ensures Inv(Waited(s, r))
    ensures Signals(s, r) ==> Waited(s, r).watcher.StoppingCdn? && !Over(Waited(s, r))
    ensures !Signals(s, r) && !Over(AfterRound(s, r)) ==>
              Waiting(AfterRound(s, r)) && SleptThrough(s, r, AfterRound(s, r))
    ensures s.shuttingDown && !Signals(s, r) ==> Over(AfterRound(s, r))
  {
    CheckFacts(s, r);
    if Over(AtCheck(s, r)) {
      OverRound(s, r);
    } else if !AtCheck(s, r).shuttingDown {
      BlockFacts(s, r);
    }
  }

  datatype Outcome = Signalled | Asleep | Ended

  class Process {
    var shuttingDown: bool
    var complete: bool
    var cdnSet: bool
    var requesters: map<Thread, Requester>
    var watcher: Watcher
    var main: Main
    var server: Server
    var log: seq<Event>

    function View(): State
      reads this
    {
      State(shuttingDown, complete, cdnSet, requesters, watcher, main, server, log)
    }

    constructor ()
      ensures View() == INIT && Inv(View())
    {
      shuttingDown, complete, cdnSet, requesters := false, false, false, map[];
      watcher, main, server, log := Unborn, Spawning, Unbuilt, [];
    }

    // What the threads do to the globals, one atomic operation at a time: `RequestShutdown`, ...
    method PerformRequester(a: Action)
      requires a.Request? || a.Store? || a.Notify?
      modifies this
      ensures View() == StepRequester(old(View()), a)
    {
      match a
      case Request(t) =>
        if t !in requesters {
          requesters := requesters[t := Storing];
        }
      case Store(t) =>
        if t in requesters && requesters[t].Storing? {
          shuttingDown := true;
          requesters := requesters[t := Notifying];
        }
      case Notify(t) =>
        if t in requesters && requesters[t].Notifying? {
          watcher := Wake(watcher);
          requesters := requesters - {t};
        }
    }

    // ... the watcher, ...
    method PerformWatcher(a: Action)
      requires Own(a)
      modifies this
      ensures View() == StepWatcher(old(View()), a)
    {
      if a.Lock? && watcher.Locking? {
        watcher := Checking;
      } else if a.Check? && watcher.Checking? {
        watcher := if shuttingDown then StoppingCdn else Gap;
      } else if a.Block? && watcher.Gap? {
        watcher := Blocked;
      } else if a.Spurious? && watcher.Blocked? {
        watcher := Locking;
      } else if a.StopCdn? && watcher.StoppingCdn? {
        log := log + [CdnShutdown(ByWatcher)];
        watcher := StoppingServer;
      } else if a.StopServer? && watcher.StoppingServer? {
        log, server := log + [ServerShutdown], Halt(server);
        watcher := Finished;
      }
    }

    // ... main until the gRPC server is built, ...
    method PerformStart(a: Action)
      requires a.Spawn? || a.StartCdn? || a.PublishCdn? || a.Build?
      modifies this
      ensures View() == StepMain(old(View()), a)
    {
      match a
      case Spawn =>
        if main.Spawning? {
          watcher, main := Locking, StartingCdn;
        }
      case StartCdn(ok) =>
        if main.StartingCdn? {
          log, main := log + [CdnStart(ok)], if ok then PublishingCdn else Building;
        }
      case PublishCdn =>
        if main.PublishingCdn? {
          cdnSet, main := true, Building;
        }
      case Build(ok) =>
        if main.Building? {
          log, main := log + [ServerBuild(ok)], if ok then InWait else Joining;
          if ok {
            server := Running;
          }
        }
    }

    // ... and main from there on, or leaving by an exception.
    method PerformEnd(a: Action)
      requires !(a.Spawn? || a.StartCdn? || a.PublishCdn? || a.Build?)
      modifies this
      ensures View() == StepMain(old(View()), a)
    {
      match a
      case LeaveWait =>
        if main.InWait? && server.Stopped? {
          main := Joining;
        }
      case Join =>
        if main.Joining? && watcher.Finished? {
          main := UnpublishingCdn;
        }
      case UnpublishCdn =>
        if main.UnpublishingCdn? {
          cdnSet, main := false, StoppingCdnAgain;
        }
      case StopCdnAgain =>
        if main.StoppingCdnAgain? {
          log, main := log + [CdnShutdown(ByMain)], Completing;
        }
      case Complete =>
        if main.Completing? {
          complete, main := true, NotifyingLast;
        }
      case NotifyLast =>
        if main.NotifyingLast? {
          watcher, main := Wake(watcher), Returned;
        }
      case Throw =>
        if !(main.Completing? || main.NotifyingLast? || main.Returned?) {
          main := Died;
        }
      case _ =>
    }

    method Perform(a: Action)
      modifies this
      ensures View() == Step(old(View()), a)
    {
      if main.Died? || main.Returned? {
        return;
      }
      if a.Request? || a.Store? || a.Notify? {
        PerformRequester(a);
      } else if Own(a) {
        PerformWatcher(a);
      } else if a.Spawn? || a.StartCdn? || a.PublishCdn? || a.Build? {
        PerformStart(a);
      } else {
        PerformEnd(a);
      }
    }

    /** Any interleaving, executed on the globals; what every run keeps, it keeps. */
    method Execute(sched: seq<Action>)
      requires Inv(View())
      modifies this
      ensures View() == Run(old(View()), sched) && Inv(View())
    {
      RunKeepsInv(View(), sched);
      assert sched[0..] == sched;
      for i := 0 to |sched|
        invariant Run(View(), sched[i..]) == Run(old(View()), sched)
      {
        assert sched[i..][1..] == sched[i + 1..];
        Perform(sched[i]);
      }
    }

    /** The first half of a round: wake, take the mutex, evaluate the predicate. */
    method LockAndCheck(r: Round)
      requires Waiting(View()) && Others(r)
      modifies this
      ensures View() == Checked(old(View()), r)
    {
      LockFacts(View(), r);
      Execute(r.beforeLock);
      Perform(Spurious);
      Perform(Lock);
      Execute(r.beforeCheck);
      Perform(Check);
    }

    /**
     One round, with other threads running before the mutex is taken, between that and the check, and
     between the check and the blocking.  It returns exactly when the flag is up at the check; asleep,
     it is stuck exactly when the flag was raised in the gap and nobody is left to notify.
     */
    method WaitOnce(r: Round) returns (o: Outcome)
      requires Waiting(View()) && Others(r)
      modifies this
      ensures Inv(View()) && (o.Ended? <==> Over(View()))
      ensures View() == Waited(old(View()), r)
      ensures o.Signalled? <==> Signals(old(View()), r)
      ensures o.Signalled? ==> watcher.StoppingCdn?
      ensures o.Asleep? ==> Waiting(View()) && watcher.Blocked? && SleptThrough(old(View()), r, View())
      ensures old(shuttingDown) ==> !o.Asleep?
    {
      ghost var before := View();
      CheckFacts(before, r);
      RoundFacts(before, r);
      LockAndCheck(r);
      if main.Died? || main.Returned? {
        OverRound(before, r);
        return Ended;
      }
      if watcher.StoppingCdn? {
        return Signalled;
      }
      Execute(r.beforeBlock);
      Perform(Block);
      o := if main.Died? || main.Returned? then Ended else Asleep;
    }

    /**
     `WaitForShutdownSignal`: a first round and one more per wakeup, notified or spurious.  A flag that
     is up on entry is seen in the first round.  Still asleep after the given rounds, the watcher saw
     the flag down at its last check, and only a store in the gap of that round can have stuck it.
     Whatever the outcome, the globals are what the rounds make of them.
     */
    method WaitForShutdownSignal(first: Round, more: seq<Round>) returns (o: Outcome)
      requires Waiting(View()) && Others(first) && forall r :: r in more ==> Others(r)
      modifies this
      ensures Inv(View()) && (o.Ended? <==> Over(View()))
      ensures o.Signalled? ==> watcher.StoppingCdn? && shuttingDown && WatcherEvents(log) == []
      ensures View() == WaitedAll(old(View()), [first] + more)
      ensures old(shuttingDown) ==> !o.Asleep?
      ensures o.Asleep? ==> SleptThroughAll(old(View()), [first] + more, View())
    {
      ghost var start, rounds := View(), [first] + more;
      assert rounds[1..] == more && more[0..] == more;
      o := WaitOnce(first);
      for k := 0 to |more|
        invariant Inv(View()) && (o.Ended? <==> Over(View()))
        invariant o.Signalled? ==> watcher.StoppingCdn?
        invariant old(shuttingDown) ==> !o.Asleep?
        invariant o.Asleep? ==> Waiting(View()) && watcher.Blocked?
        invariant o.Asleep? ==> WaitedAll(View(), more[k..]) == WaitedAll(start, rounds)
        invariant !o.Asleep? ==> View() == WaitedAll(start, rounds)
      {
        if o.Asleep? {
          assert more[k..][1..] == more[k + 1..];
          o := WaitOnce(more[k]);
        }
      }
      if o.Asleep? {
        AsleepMeansSleptThrough(start, rounds);
      }
    }
  }
}
