/**
 The shutdown protocol of backend/src/main.cpp as a transition system: requesters that raise
 `g_shuttingDown` and notify, the watcher thread that waits on the condition variable and shuts the
 servers down, and the main thread that starts them and joins the watcher.  `server.init`
 (backend/src/server/server.cpp) builds the gRPC server and then blocks until it has been shut down;
 shutting it down before it is built does nothing.  A condition variable may wake its waiter for no
 reason.
 */
module Shutdown {

  type Thread = nat

  datatype Requester = Storing | Notifying

  /** The watcher; in `Checking` and `Gap` it holds the mutex. */
  datatype Watcher =
    | Unborn
    | Locking          // about to take the mutex, first time or after a wakeup
    | Checking         // about to evaluate the predicate
    | Gap              // the predicate was false; about to release the mutex and block
    | Blocked
    | StoppingCdn      // the wait has returned
    | StoppingServer
    | Finished

  datatype Main =
    | Spawning
    | StartingCdn
    | PublishingCdn    // cdn.start returned true
    | Building         // about to build the gRPC server, inside server.init
    | InWait           // it is built; server.init returns when it has been shut down
    | Joining
    | UnpublishingCdn
    | StoppingCdnAgain
    | Completing
    | NotifyingLast
    | Returned
    | Died             // an exception left the try block, or std::terminate ended the process

  /** `server_` of the gRPC server: null, built and serving, or built and shut down. */
  datatype Server = Unbuilt | Running | Stopped

  datatype Who = ByWatcher | ByMain

  datatype Event = CdnStart(ok: bool) | ServerBuild(ok: bool) | CdnShutdown(who: Who) | ServerShutdown

  datatype State = State(
    shuttingDown: bool,
    complete: bool,
    cdnSet: bool,                        // g_cdn is not null
    requesters: map<Thread, Requester>,
    watcher: Watcher,
    main: Main,
    server: Server,
    log: seq<Event>)

  datatype Action =
    | Request(t: Thread)
    | Store(t: Thread)
    | Notify(t: Thread)
    | Lock
    | Check
    | Block
    | Spurious
    | StopCdn
    | StopServer
    | Spawn
    | StartCdn(ok: bool)
    | PublishCdn
    | Build(ok: bool)
    | LeaveWait
    | Join
    | UnpublishCdn
    | StopCdnAgain
    | Complete
    | NotifyLast
    | Throw

  const INIT := State(false, false, false, map[], Unborn, Spawning, Unbuilt, [])

  function Wake(w: Watcher): Watcher {
    if w.Blocked? then Locking else w
  }

  function StepRequester(s: State, a: Action): State {
    match a
    case Request(t) => if t in s.requesters then s else s.(requesters := s.requesters[t := Storing])
    case Store(t) =>
      if t in s.requesters && s.requesters[t].Storing?
      then s.(shuttingDown := true, requesters := s.requesters[t := Notifying]) else s
    case Notify(t) =>
      if t in s.requesters && s.requesters[t].Notifying?
      then s.(watcher := Wake(s.watcher), requesters := s.requesters - {t}) else s
    case _ => s
  }

  /** `CrownServer::shutdown`: nothing happens to a server that has not been built. */
  function Halt(server: Server): Server {
    if server.Running? then Stopped else server
  }

  function StepWatcher(s: State, a: Action): State {
    match (a, s.watcher)
    case (Lock, Locking) => s.(watcher := Checking)
    case (Check, Checking) => s.(watcher := if s.shuttingDown then StoppingCdn else Gap)
    case (Block, Gap) => s.(watcher := Blocked)
    case (Spurious, Blocked) => s.(watcher := Locking)
    case (StopCdn, StoppingCdn) => s.(log := s.log + [CdnShutdown(ByWatcher)], watcher := StoppingServer)
    case (StopServer, StoppingServer) =>
      s.(log := s.log + [ServerShutdown], watcher := Finished, server := Halt(s.server))
    case _ => s
  }

  function StepMain(s: State, a: Action): State {
    match a
    case Spawn =>
      if s.main.Spawning? then s.(watcher := Locking, main := StartingCdn) else s
    case StartCdn(ok) =>
      if s.main.StartingCdn?
      then s.(log := s.log + [CdnStart(ok)], main := if ok then PublishingCdn else Building) else s
    case PublishCdn =>
      if s.main.PublishingCdn? then s.(cdnSet := true, main := Building) else s
    case Build(ok) =>
      if s.main.Building?
      then s.(log := s.log + [ServerBuild(ok)],
              server := if ok then Running else s.server,
              main := if ok then InWait else Joining)
      else s
    case LeaveWait =>
      if s.main.InWait? && s.server.Stopped? then s.(main := Joining) else s
    case Join =>
      if s.main.Joining? && s.watcher.Finished? then s.(main := UnpublishingCdn) else s
    case UnpublishCdn =>
      if s.main.UnpublishingCdn? then s.(cdnSet := false, main := StoppingCdnAgain) else s
    case StopCdnAgain =>
      if s.main.StoppingCdnAgain? then s.(log := s.log + [CdnShutdown(ByMain)], main := Completing) else s
    case Complete =>
      if s.main.Completing? then s.(complete := true, main := NotifyingLast) else s
    case NotifyLast =>
      if s.main.NotifyingLast? then s.(watcher := Wake(s.watcher), main := Returned) else s
    case Throw =>
      if s.main.Completing? || s.main.NotifyingLast? || s.main.Returned? then s else s.(main := Died)
    case _ => s
  }

  /** One step; nothing runs once the process has ended. */
  function Step(s: State, a: Action): State {
    if s.main.Died? || s.main.Returned? then s
    else
      match a
      case Request(_) => StepRequester(s, a)
      case Store(_) => StepRequester(s, a)
      case Notify(_) => StepRequester(s, a)
      case Lock => StepWatcher(s, a)
      case Check => StepWatcher(s, a)
      case Block => StepWatcher(s, a)
      case Spurious => StepWatcher(s, a)
      case StopCdn => StepWatcher(s, a)
      case StopServer => StepWatcher(s, a)
      case _ => StepMain(s, a)
  }

  function Run(s: State, sched: seq<Action>): State
    decreases |sched|
  {
    if sched == [] then s else Run(Step(s, sched[0]), sched[1..])
  }

  // ---------------------------------------------------------------------------------------------
  // Safety
  // ---------------------------------------------------------------------------------------------

  function WatcherEvents(log: seq<Event>): seq<Event> {
    if log == [] then []
    else
      var e, rest := log[|log| - 1], WatcherEvents(log[..|log| - 1]);
      if e == CdnShutdown(ByWatcher) || e == ServerShutdown then rest + [e] else rest
  }

  function MainEvents(log: seq<Event>): seq<Event> {
    if log == [] then []
    else
      var e, rest := log[|log| - 1], MainEvents(log[..|log| - 1]);
      if e == CdnShutdown(ByWatcher) || e == ServerShutdown then rest else rest + [e]
  }

  lemma EventsSnoc(log: seq<Event>, e: Event)
    ensures e == CdnShutdown(ByWatcher) || e == ServerShutdown ==>
              WatcherEvents(log + [e]) == WatcherEvents(log) + [e] && MainEvents(log + [e]) == MainEvents(log)
    ensures !(e == CdnShutdown(ByWatcher) || e == ServerShutdown) ==>
              WatcherEvents(log + [e]) == WatcherEvents(log) && MainEvents(log + [e]) == MainEvents(log) + [e]
  {
    assert (log + [e])[..|log|] == log;
  }

  /** The watcher acts only on a raised flag, and in program order. */
  predicate WatcherInOrder(s: State) {
    match s.watcher
    case StoppingCdn => s.shuttingDown && WatcherEvents(s.log) == []
    case StoppingServer => s.shuttingDown && WatcherEvents(s.log) == [CdnShutdown(ByWatcher)]
    case Finished => s.shuttingDown && WatcherEvents(s.log) == [CdnShutdown(ByWatcher), ServerShutdown]
    case _ => WatcherEvents(s.log) == []
  }

  predicate StartedCdn(events: seq<Event>) {
    |events| == 1 && events[0].CdnStart?
  }

  /** Starting the CDN was the first thing main did, and it succeeded. */
  predicate CdnStarted(events: seq<Event>) {
    events != [] && events[0] == CdnStart(true)
  }

  predicate StartedBoth(events: seq<Event>) {
    |events| == 2 && events[0].CdnStart? && events[1].ServerBuild?
  }

  predicate StoppedLast(s: State) {
    && |MainEvents(s.log)| == 3 && StartedBoth(MainEvents(s.log)[..2]) && MainEvents(s.log)[2] == CdnShutdown(ByMain)
    && s.log != [] && s.log[|s.log| - 1] == CdnShutdown(ByMain)
  }

  /** Main acts in program order, and from the join on the watcher is done. */
  predicate MainInOrder(s: State) {
    && (s.complete <==> s.main.NotifyingLast? || s.main.Returned?)
    && (s.cdnSet ==> CdnStarted(MainEvents(s.log)))
    && match s.main
       case Spawning => MainEvents(s.log) == [] && s.watcher.Unborn? && !s.cdnSet
       case StartingCdn => MainEvents(s.log) == [] && !s.cdnSet
       case PublishingCdn => MainEvents(s.log) == [CdnStart(true)] && !s.cdnSet
       case Building => StartedCdn(MainEvents(s.log)) && s.cdnSet == MainEvents(s.log)[0].ok
       case InWait => StartedBoth(MainEvents(s.log)) && s.cdnSet == MainEvents(s.log)[0].ok
       case Joining => StartedBoth(MainEvents(s.log)) && s.cdnSet == MainEvents(s.log)[0].ok
       case UnpublishingCdn => StartedBoth(MainEvents(s.log)) && s.watcher.Finished?
       case StoppingCdnAgain => StartedBoth(MainEvents(s.log)) && s.watcher.Finished? && !s.cdnSet
       case Completing => StoppedLast(s) && s.watcher.Finished? && !s.cdnSet
       case NotifyingLast => StoppedLast(s) && s.watcher.Finished? && !s.cdnSet
       case Returned => StoppedLast(s) && s.watcher.Finished? && !s.cdnSet
       case Died => true
  }

  predicate Inv(s: State) {
    WatcherInOrder(s) && MainInOrder(s)
  }

  lemma RequesterKeepsInv(s: State, a: Action)
    requires Inv(s)
    ensures Inv(StepRequester(s, a))
  {
  }

  lemma WatcherKeepsInv(s: State, a: Action)
    requires Inv(s)
    ensures Inv(StepWatcher(s, a))
  {
    if a.StopCdn? {
      EventsSnoc(s.log, CdnShutdown(ByWatcher));
    } else if a.StopServer? {
      EventsSnoc(s.log, ServerShutdown);
    }
  }

  lemma MainStartsKeepInv(s: State, a: Action)
    requires Inv(s) && (a.StartCdn? || a.Build?)
    ensures Inv(StepMain(s, a))
  {
    if a.StartCdn? {
      EventsSnoc(s.log, CdnStart(a.ok));
    } else {
      EventsSnoc(s.log, ServerBuild(a.ok));
    }
  }

  lemma MainStopKeepsInv(s: State)
    requires Inv(s)
    ensures Inv(StepMain(s, StopCdnAgain))
  {
    EventsSnoc(s.log, CdnShutdown(ByMain));
  }

  lemma MainKeepsInv(s: State, a: Action)
    requires Inv(s)
    ensures Inv(StepMain(s, a))
  {
    if a.StartCdn? || a.Build? {
      MainStartsKeepInv(s, a);
    } else if a.StopCdnAgain? {
      MainStopKeepsInv(s);
    }
  }

  lemma StepKeepsInv(s: State, a: Action)
    requires Inv(s)
    ensures Inv(Step(s, a))
  {
    RequesterKeepsInv(s, a);
    WatcherKeepsInv(s, a);
    MainKeepsInv(s, a);
  }

  lemma {:induction false} RunKeepsInv(s: State, sched: seq<Action>)
    requires Inv(s)
    ensures Inv(Run(s, sched))
    decreases |sched|
  {
    if sched != [] {
      StepKeepsInv(s, sched[0]);
      RunKeepsInv(Step(s, sched[0]), sched[1..]);
    }
  }

  /** Nothing is shut down by the watcher before a shutdown was requested. */
  lemma NoShutdownUnrequested(sched: seq<Action>)
    ensures var s := Run(INIT, sched);
            WatcherEvents(s.log) != [] ==> s.shuttingDown
  {
    RunKeepsInv(INIT, sched);
  }

  /**
   When shutdown is reported complete, the watcher has stopped the CDN and then the server, `g_cdn`
   is null, and the last thing that happened was main stopping the CDN once more: no CDN start follows.
   What became of the gRPC server itself is the subject of module ShutdownOrder.
   */
  lemma CompleteMeansShutdownsRan(sched: seq<Action>)
    requires Run(INIT, sched).complete
    ensures var s := Run(INIT, sched);
            && WatcherEvents(s.log) == [CdnShutdown(ByWatcher), ServerShutdown]
            && !s.cdnSet
            && |s.log| == 5 && s.log[4] == CdnShutdown(ByMain)
            && |MainEvents(s.log)| == 3 && MainEvents(s.log)[0].CdnStart? && MainEvents(s.log)[1].ServerBuild?
            && s.shuttingDown
  {
    RunKeepsInv(INIT, sched);
    EventsAddUp(Run(INIT, sched).log);
  }

  lemma {:induction false} EventsAddUp(log: seq<Event>)
    ensures |log| == |WatcherEvents(log)| + |MainEvents(log)|
  {
    if log != [] {
      EventsAddUp(log[..|log| - 1]);
    }
  }

  /** The pointer to the CDN server is only ever set to one that started, also when main has died. */
  lemma CdnSetOnlyAfterStart(sched: seq<Action>)
    ensures var s := Run(INIT, sched);
            && (s.cdnSet ==> CdnStarted(MainEvents(s.log)))
            && (s.main.Joining? ==> (s.cdnSet <==> CdnStarted(MainEvents(s.log))))
  {
    RunKeepsInv(INIT, sched);
  }

  // ---------------------------------------------------------------------------------------------
  // The wakeup that can be lost
  // ---------------------------------------------------------------------------------------------

  function NotifyingThreads(s: State): set<Thread> {
    set t | t in s.requesters && s.requesters[t].Notifying?
  }

  predicate NotifyPending(s: State) {
    NotifyingThreads(s) != {}
  }

  /** The watcher sleeps although the flag is up and nobody is about to notify it. */
  predicate Stuck(s: State) {
    s.watcher.Blocked? && s.shuttingDown && !NotifyPending(s)
  }

  /** The process runs and the flag is raised between the watcher's check and its blocking. */
  predicate RaisesInGap(s: State, a: Action) {
    && !s.main.Died? && !s.main.Returned? && s.watcher.Gap?
    && a.Store? && a.t in s.requesters && s.requesters[a.t].Storing?
  }

  /** The flag is never raised in that moment. */
  predicate Careful(s: State, sched: seq<Action>)
    decreases |sched|
  {
    sched == [] || (!RaisesInGap(s, sched[0]) && Careful(Step(s, sched[0]), sched[1..]))
  }

  predicate Awake(s: State) {
    (s.watcher.Gap? ==> !s.shuttingDown) && !Stuck(s)
  }

  lemma StepKeepsAwake(s: State, a: Action)
    requires Awake(s) && !RaisesInGap(s, a)
    ensures Awake(Step(s, a))
  {
    var s' := Step(s, a);
    if s' != s && s'.watcher.Blocked? && s'.shuttingDown {
      if a.Store? && a.t in s.requesters && s.requesters[a.t].Storing? {
        assert a.t in NotifyingThreads(s');
      } else {
        assert NotifyPending(s);
        var t :| t in NotifyingThreads(s);
        assert t in NotifyingThreads(s');
      }
    }
  }

  lemma {:induction false} RunKeepsAwake(s: State, sched: seq<Action>)
    requires Awake(s) && Careful(s, sched)
    ensures Awake(Run(s, sched))
    decreases |sched|
  {
    if sched != [] {
      StepKeepsAwake(s, sched[0]);
      RunKeepsAwake(Step(s, sched[0]), sched[1..]);
    }
  }

  /** If no store falls into the gap, a raised flag never leaves the watcher asleep without a notification to come. */
  lemma CarefulRunsNeverStick(sched: seq<Action>)
    requires Careful(INIT, sched)
    ensures !Stuck(Run(INIT, sched))
  {
    RunKeepsAwake(INIT, sched);
  }

  lemma RunCons(s: State, a: Action, rest: seq<Action>)
    ensures Run(s, [a] + rest) == Run(Step(s, a), rest)
  {
    assert ([a] + rest)[1..] == rest;
  }

  /** What remains of the calls under way: notifications, and the watcher's blocking. */
  predicate OnlyFinishes(sched: seq<Action>) {
    forall a :: a in sched ==> a.Notify? || a.Block?
  }

  /** With the flag up in the gap, the notifications under way can all come before the watcher blocks. */
  lemma {:induction false} GapCanStick(s: State) returns (rest: seq<Action>)
    requires s.watcher.Gap? && s.shuttingDown && !s.main.Died? && !s.main.Returned?
    ensures OnlyFinishes(rest) && Stuck(Run(s, rest))
    decreases NotifyingThreads(s)
  {
    if NotifyPending(s) {
      var t :| t in NotifyingThreads(s);
      var s' := s.(requesters := s.requesters - {t});
      assert Step(s, Notify(t)) == s' && NotifyingThreads(s') == NotifyingThreads(s) - {t};
      rest := GapCanStick(s');
      RunCons(s, Notify(t), rest);
      rest := [Notify(t)] + rest;
    } else {
      rest := [Block];
      assert NotifyingThreads(Step(s, Block)) == NotifyingThreads(s);
      assert Run(s, rest) == Step(s, Block);
    }
  }

  /**
   And every schedule in which one does has a point from which the calls under way, merely finishing,
   lose the wakeup.  So the rule `Careful` states is exactly what the code lacks.
   */
  lemma {:induction false} CarelessRunsCanStick(s: State, sched: seq<Action>) returns (k: nat, rest: seq<Action>)
    requires !Careful(s, sched)
    ensures k <= |sched| && OnlyFinishes(rest) && Stuck(Run(s, sched[..k] + rest))
    decreases |sched|
  {
    var s' := Step(s, sched[0]);
    if RaisesInGap(s, sched[0]) {
      rest := GapCanStick(s');
      k := 1;
      assert sched[..1] == [sched[0]];
    } else {
      k, rest := CarelessRunsCanStick(s', sched[1..]);
      assert sched[..k + 1] + rest == [sched[0]] + (sched[1..][..k] + rest);
      k := k + 1;
    }
    RunCons(s, sched[0], if k == 1 && RaisesInGap(s, sched[0]) then rest else sched[1..][..k - 1] + rest);
  }

  /** Started and unrequested, the watcher reaches the gap. */
  lemma GapIsReached(rest: seq<Action>)
    ensures Run(INIT, [Spawn] + ([Lock] + ([Check] + rest))) == Run(INIT.(watcher := Gap, main := StartingCdn), rest)
  {
    var s1 := INIT.(watcher := Locking, main := StartingCdn);
    RunCons(INIT, Spawn, [Lock] + ([Check] + rest));
    RunCons(s1, Lock, [Check] + rest);
    RunCons(s1.(watcher := Checking), Check, rest);
  }

  lemma OneRequestInGap(s: State, t: Thread)
    requires s.watcher.Gap? && s.requesters == map[t := Storing] && !s.main.Died? && !s.main.Returned?
    ensures Stuck(Run(s, [Store(t)] + ([Notify(t)] + [Block])))
  {
    var s1 := s.(shuttingDown := true, requesters := map[t := Notifying]);
    var s2 := s.(shuttingDown := true, requesters := map[]);
    RunCons(s, Store(t), [Notify(t)] + [Block]);
    RunCons(s1, Notify(t), [Block]);
    assert Step(s1, Notify(t)) == s2 && Run(s2, [Block]) == Step(s2, Block);
  }

  /** So a lost wakeup is reachable: the one requester stores and notifies inside the gap. */
  lemma LostWakeupIsReachable(t: Thread)
    ensures Stuck(Run(INIT, [Spawn] + ([Lock] + ([Check] + ([Request(t)] + ([Store(t)] + ([Notify(t)] + [Block])))))))
  {
    var rest := [Store(t)] + ([Notify(t)] + [Block]);
    var s := INIT.(watcher := Gap, main := StartingCdn);
    GapIsReached([Request(t)] + rest);
    RunCons(s, Request(t), rest);
    OneRequestInGap(s.(requesters := map[t := Storing]), t);
  }

  /** Steps that neither request nor wake. */
  predicate Silent(a: Action) {
    !a.Spurious? && !a.Request? && !a.Store? && !a.Notify?
  }

  lemma SilentStep(s: State, a: Action)
    requires s.watcher.Blocked? && MainInOrder(s) && Silent(a)
    ensures var s' := Step(s, a);
            s'.watcher.Blocked? && s'.shuttingDown == s.shuttingDown && s'.requesters == s.requesters
  {
  }

  /** Without a spurious wakeup or another request, a stuck watcher stays stuck, and main never completes. */
  lemma {:induction false} StuckStays(s: State, sched: seq<Action>)
    requires Inv(s) && Stuck(s) && forall a :: a in sched ==> Silent(a)
    ensures Stuck(Run(s, sched)) && !Run(s, sched).complete
    decreases |sched|
  {
    if sched != [] {
      var a := sched[0];
      assert a in sched;
      SilentStep(s, a);
      RunKeepsInv(s, [a]);
      assert Run(s, [a]) == Step(s, a);
      StuckStays(Step(s, a), sched[1..]);
    }
  }
}
