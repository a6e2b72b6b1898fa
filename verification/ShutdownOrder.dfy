/**
 Whether shutdown can complete, and what it leaves running.  The watcher of backend/src/main.cpp is
 spawned before main builds the gRPC server, and it shuts the server down once.  Inside `server.init`
 main waits until the server it built has been shut down (backend/src/server/server.cpp).  So a
 completed shutdown never leaves a server running; a server built after the watcher's only shutdown
 keeps main waiting for good, and it is decided which schedules do that.
 */
module ShutdownOrder {
  import opened Shutdown

  /** The gRPC server after the events of the log. */
  function ServerAfter(log: seq<Event>): Server {
    if log == [] then Unbuilt
    else
      var before, e := ServerAfter(log[..|log| - 1]), log[|log| - 1];
      if e == ServerBuild(true) then Running else if e == ServerShutdown then Halt(before) else before
  }

  /** Whether the CDN server runs after the events of the log. */
  predicate CdnRuns(log: seq<Event>) {
    log != [] &&
    var e := log[|log| - 1];
    e == CdnStart(true) || (!e.CdnShutdown? && CdnRuns(log[..|log| - 1]))
  }

  lemma ServerSnoc(log: seq<Event>, e: Event)
    ensures ServerAfter(log + [e]) ==
            if e == ServerBuild(true) then Running
            else if e == ServerShutdown then Halt(ServerAfter(log))
            else ServerAfter(log)
  {
    assert (log + [e])[..|log|] == log;
  }

  predicate BeforeBuild(m: Main) {
    m.Spawning? || m.StartingCdn? || m.PublishingCdn? || m.Building?
  }

  /** The server is built before main waits for it, and main leaves only a stopped one behind. */
  predicate ServerInOrder(s: State) {
    && s.server == ServerAfter(s.log)
    && (s.server.Stopped? ==> s.watcher.Finished?)
    && (BeforeBuild(s.main) ==> s.server.Unbuilt?)
    && (s.main.InWait? ==> !s.server.Unbuilt?)
    && (s.server.Running? ==> s.main.InWait? || s.main.Died?)
    && (s.watcher.Unborn? ==> s.main.Spawning? || s.main.Died?)
  }

  lemma WatcherKeepsServerInOrder(s: State, a: Action)
    requires ServerInOrder(s)
    ensures ServerInOrder(StepWatcher(s, a))
  {
    if a.StopCdn? {
      ServerSnoc(s.log, CdnShutdown(ByWatcher));
    } else if a.StopServer? {
      ServerSnoc(s.log, ServerShutdown);
    }
  }

  lemma BuildKeepsServerInOrder(s: State, ok: bool)
    requires ServerInOrder(s)
    ensures ServerInOrder(StepMain(s, Build(ok)))
  {
    ServerSnoc(s.log, ServerBuild(ok));
  }

  lemma CdnKeepsServerInOrder(s: State, a: Action)
    requires ServerInOrder(s) && (a.StartCdn? || a.StopCdnAgain?)
    ensures ServerInOrder(StepMain(s, a))
  {
    ServerSnoc(s.log, if a.StartCdn? then CdnStart(a.ok) else CdnShutdown(ByMain));
  }

  lemma MainKeepsServerInOrder(s: State, a: Action)
    requires ServerInOrder(s)
    ensures ServerInOrder(StepMain(s, a))
  {
    if a.StartCdn? || a.StopCdnAgain? {
      CdnKeepsServerInOrder(s, a);
    } else if a.Build? {
      BuildKeepsServerInOrder(s, a.ok);
    }
  }

  lemma RequesterKeepsServerInOrder(s: State, a: Action)
    requires ServerInOrder(s)
    ensures ServerInOrder(StepRequester(s, a))
  {
  }

  lemma StepKeepsServerInOrder(s: State, a: Action)
    requires ServerInOrder(s)
    ensures ServerInOrder(Step(s, a))
  {
    WatcherKeepsServerInOrder(s, a);
    MainKeepsServerInOrder(s, a);
    RequesterKeepsServerInOrder(s, a);
  }

  lemma {:induction false} RunKeepsServerInOrder(s: State, sched: seq<Action>)
    requires ServerInOrder(s)
    ensures ServerInOrder(Run(s, sched))
    decreases |sched|
  {
    if sched != [] {
      StepKeepsServerInOrder(s, sched[0]);
      RunKeepsServerInOrder(Step(s, sched[0]), sched[1..]);
    }
  }

  // ---------------------------------------------------------------------------------------------
  // What a completed shutdown leaves behind
  // ---------------------------------------------------------------------------------------------

  /** Every server that was built was shut down after that. */
  predicate StoppedAfterBuild(log: seq<Event>) {
    forall k :: 0 <= k < |log| && log[k] == ServerBuild(true) ==> ServerShutdown in log[k + 1..]
  }

  lemma {:induction false} NotRunningMeansStopped(log: seq<Event>)
    ensures ServerAfter(log).Unbuilt? ==> ServerBuild(true) !in log
    ensures !ServerAfter(log).Running? ==> StoppedAfterBuild(log)
  {
    if log != [] {
      var front, e := log[..|log| - 1], log[|log| - 1];
      NotRunningMeansStopped(front);
      if !ServerAfter(log).Running? {
        forall k | 0 <= k < |log| && log[k] == ServerBuild(true)
          ensures ServerShutdown in log[k + 1..]
        {
          assert front[k] == ServerBuild(true);
          assert log[k + 1..] == front[k + 1..] + [e];
          assert e != ServerShutdown ==> ServerAfter(front) == ServerAfter(log);
        }
      }
    }
  }

  /** When shutdown is reported complete, a server that was built was shut down after that, and nothing runs. */
  lemma CompleteLeavesNothingRunning(sched: seq<Action>)
    requires Run(INIT, sched).complete
    ensures var s := Run(INIT, sched);
            !s.server.Running? && StoppedAfterBuild(s.log) && !CdnRuns(s.log)
  {
    RunKeepsInv(INIT, sched);
    RunKeepsServerInOrder(INIT, sched);
    NotRunningMeansStopped(Run(INIT, sched).log);
  }

  // ---------------------------------------------------------------------------------------------
  // A server built too late
  // ---------------------------------------------------------------------------------------------

  /** The server runs and the watcher, who would shut it down, is done. */
  predicate Stranded(s: State) {
    s.server.Running? && s.watcher.Finished?
  }

  /** The process runs and main builds the server after the watcher's only shutdown. */
  predicate BuildsTooLate(s: State, a: Action) {
    a == Build(true) && s.main.Building? && s.watcher.Finished?
  }

  predicate BuildsInTime(s: State, sched: seq<Action>)
    decreases |sched|
  {
    sched == [] || (!BuildsTooLate(s, sched[0]) && BuildsInTime(Step(s, sched[0]), sched[1..]))
  }

  lemma StepStrands(s: State, a: Action)
    requires MainInOrder(s) && ServerInOrder(s)
    ensures Stranded(Step(s, a)) <==> Stranded(s) || BuildsTooLate(s, a)
  {
  }

  lemma {:induction false} RunStrands(s: State, sched: seq<Action>)
    requires Inv(s) && ServerInOrder(s)
    ensures Stranded(Run(s, sched)) <==> Stranded(s) || !BuildsInTime(s, sched)
    decreases |sched|
  {
    if sched != [] {
      StepStrands(s, sched[0]);
      StepKeepsInv(s, sched[0]);
      StepKeepsServerInOrder(s, sched[0]);
      RunStrands(Step(s, sched[0]), sched[1..]);
    }
  }

  /** A run strands its server if and only if it builds it after the watcher's shutdown. */
  lemma StrandedExactlyWhenBuiltTooLate(sched: seq<Action>)
    ensures Stranded(Run(INIT, sched)) <==> !BuildsInTime(INIT, sched)
  {
    RunStrands(INIT, sched);
  }

  /** From then on main stays inside `server.init`, whatever happens, unless the process dies; nothing completes. */
  lemma StrandedForGood(s: State, sched: seq<Action>)
    requires Inv(s) && ServerInOrder(s) && Stranded(s)
    ensures var s' := Run(s, sched);
            Stranded(s') && !s'.complete && (s'.main.InWait? || s'.main.Died?)
  {
    RunStrands(s, sched);
    RunKeepsInv(s, sched);
    RunKeepsServerInOrder(s, sched);
  }

  // ---------------------------------------------------------------------------------------------
  // Otherwise main can finish
  // ---------------------------------------------------------------------------------------------

  /** The next step of a main that is past building the server. */
  function NextOfMain(m: Main): Action {
    match m
    case InWait => LeaveWait
    case Joining => Join
    case UnpublishingCdn => UnpublishCdn
    case StoppingCdnAgain => StopCdnAgain
    case _ => Complete
  }

  function StepsLeft(m: Main): nat {
    match m
    case InWait => 5
    case Joining => 4
    case UnpublishingCdn => 3
    case StoppingCdnAgain => 2
    case Completing => 1
    case _ => 0
  }

  predicate OnlyMain(sched: seq<Action>) {
    forall a :: a in sched ==> a.LeaveWait? || a.Join? || a.UnpublishCdn? || a.StopCdnAgain? || a.Complete?
  }

  lemma NextStep(s: State)
    requires s.watcher.Finished? && StepsLeft(s.main) > 0 && (s.main.InWait? ==> s.server.Stopped?)
    ensures var s' := Step(s, NextOfMain(s.main));
            && s'.watcher.Finished? && StepsLeft(s'.main) == StepsLeft(s.main) - 1
            && !s'.main.InWait? && (StepsLeft(s'.main) == 0 ==> s'.complete)
  {
  }

  lemma {:induction false} MainFinishes(s: State) returns (rest: seq<Action>)
    requires s.watcher.Finished? && StepsLeft(s.main) > 0 && (s.main.InWait? ==> s.server.Stopped?)
    ensures OnlyMain(rest) && Run(s, rest).complete
    decreases StepsLeft(s.main)
  {
    var a := NextOfMain(s.main);
    NextStep(s);
    rest := [];
    if StepsLeft(s.main) > 1 {
      rest := MainFinishes(Step(s, a));
    }
    RunCons(s, a, rest);
    rest := [a] + rest;
  }

  // A main that has not built the server yet can fail to; a watcher that has not finished can be
  // requested and woken.

  function StoringThreads(s: State): set<Thread> {
    set t | t in s.requesters && s.requesters[t].Storing?
  }

  function BuildsLeft(m: Main): nat {
    match m
    case Spawning => 4
    case StartingCdn => 3
    case PublishingCdn => 2
    case Building => 1
    case _ => 0
  }

  function RequestsLeft(s: State): nat {
    if s.shuttingDown then 0 else if StoringThreads(s) != {} then 1 else 2
  }

  function WatcherLeft(w: Watcher): nat {
    match w
    case Gap => 6
    case Blocked => 5
    case Locking => 4
    case Checking => 3
    case StoppingCdn => 2
    case StoppingServer => 1
    case _ => 0
  }

  predicate Open(s: State) {
    Inv(s) && ServerInOrder(s) && !Stranded(s) && !s.main.Died? && !s.complete
  }

  predicate Closer(s': State, s: State) {
    || BuildsLeft(s'.main) < BuildsLeft(s.main)
    || (BuildsLeft(s'.main) == BuildsLeft(s.main) &&
        (|| RequestsLeft(s') < RequestsLeft(s)
         || (RequestsLeft(s') == RequestsLeft(s) && WatcherLeft(s'.watcher) < WatcherLeft(s.watcher))))
  }

  lemma BuildCloser(s: State) returns (a: Action)
    requires Open(s) && BuildsLeft(s.main) > 0
    ensures a != Build(true) && !a.Throw? && BuildsLeft(Step(s, a).main) < BuildsLeft(s.main)
  {
    a := match s.main
      case Spawning => Spawn
      case StartingCdn => StartCdn(true)
      case PublishingCdn => PublishCdn
      case _ => Build(false);
  }

  lemma {:induction false} FreshThread(used: set<Thread>) returns (t: Thread)
    ensures forall u :: u in used ==> u < t
    decreases used
  {
    t := 0;
    if used != {} {
      var u :| u in used;
      var above := FreshThread(used - {u});
      t := if u < above then above else u + 1;
      assert forall x :: x in used ==> x == u || x in used - {u};
    }
  }

  lemma RequestCloser(s: State) returns (a: Action)
    requires Open(s) && !s.shuttingDown
    ensures (a.Request? || a.Store?) && RequestsLeft(Step(s, a)) < RequestsLeft(s) && Step(s, a).main == s.main
  {
    if StoringThreads(s) != {} {
      var t :| t in StoringThreads(s);
      a := Store(t);
    } else {
      var t := FreshThread(s.requesters.Keys);
      assert t !in s.requesters.Keys;
      a := Request(t);
      assert t in StoringThreads(Step(s, a));
    }
  }

  lemma WatcherCloser(s: State) returns (a: Action)
    requires Open(s) && s.shuttingDown && BuildsLeft(s.main) == 0 && !s.watcher.Finished?
    ensures a != Build(true) && !a.Throw? && WatcherLeft(Step(s, a).watcher) < WatcherLeft(s.watcher)
    ensures Step(s, a).main == s.main && Step(s, a).shuttingDown
  {
    a := match s.watcher
      case Gap => Block
      case Blocked => Spurious
      case Locking => Lock
      case Checking => Check
      case StoppingCdn => StopCdn
      case _ => StopServer;
  }

  lemma OneStepCloser(s: State) returns (a: Action)
    requires Open(s) && !(BuildsLeft(s.main) == 0 && s.watcher.Finished?)
    ensures Open(Step(s, a)) && Closer(Step(s, a), s)
  {
    if BuildsLeft(s.main) > 0 {
      a := BuildCloser(s);
    } else if !s.shuttingDown {
      a := RequestCloser(s);
    } else {
      a := WatcherCloser(s);
    }
    StepKeepsInv(s, a);
    StepKeepsServerInOrder(s, a);
    StepStrands(s, a);
  }

  lemma {:induction false} OpenCompletes(s: State) returns (rest: seq<Action>)
    requires Open(s)
    ensures Run(s, rest).complete
    decreases BuildsLeft(s.main), RequestsLeft(s), WatcherLeft(s.watcher)
  {
    if BuildsLeft(s.main) == 0 && s.watcher.Finished? {
      rest := MainFinishes(s);
    } else {
      var a := OneStepCloser(s);
      rest := OpenCompletes(Step(s, a));
      RunCons(s, a, rest);
      rest := [a] + rest;
    }
  }

  ghost predicate CanComplete(s: State) {
    exists rest :: Run(s, rest).complete
  }

  /**
   From any reachable state in which shutdown is not complete it still can be, if and only if main has
   not died and has not built the server too late.
   */
  lemma CanCompleteExactlyWhenNotStranded(sched: seq<Action>)
    requires !Run(INIT, sched).complete
    ensures var s := Run(INIT, sched);
            CanComplete(s) <==> !s.main.Died? && BuildsInTime(INIT, sched)
  {
    var s := Run(INIT, sched);
    RunKeepsInv(INIT, sched);
    RunKeepsServerInOrder(INIT, sched);
    RunStrands(INIT, sched);
    if s.main.Died? {
      forall rest
        ensures !Run(s, rest).complete
      {
        DeadStays(s, rest);
      }
    } else if Stranded(s) {
      forall rest
        ensures !Run(s, rest).complete
      {
        StrandedForGood(s, rest);
      }
    } else {
      var rest := OpenCompletes(s);
    }
  }

  lemma {:induction false} DeadStays(s: State, sched: seq<Action>)
    requires s.main.Died?
    ensures Run(s, sched) == s
    decreases |sched|
  {
    if sched != [] {
      DeadStays(s, sched[1..]);
    }
  }

  // ---------------------------------------------------------------------------------------------
  // A run that strands the server
  // ---------------------------------------------------------------------------------------------

  /** A request right after the watcher is spawned. */
  function EarlyRequest(t: Thread, rest: seq<Action>): seq<Action> {
    [Spawn] + ([Request(t)] + ([Store(t)] + rest))
  }

  /** The watcher finds the flag up and shuts both servers down. */
  function WatcherStops(rest: seq<Action>): seq<Action> {
    [Lock] + ([Check] + StopBoth(rest))
  }

  function StopBoth(rest: seq<Action>): seq<Action> {
    [StopCdn] + ([StopServer] + rest)
  }

  /** Main starts both servers as if nothing had happened. */
  function MainStarts(): seq<Action> {
    [StartCdn(true)] + ([PublishCdn] + [Build(true)])
  }

  function Requested(t: Thread): State {
    INIT.(shuttingDown := true, requesters := map[t := Notifying], watcher := Locking, main := StartingCdn)
  }

  lemma EarlyRequestState(t: Thread, rest: seq<Action>)
    ensures Run(INIT, EarlyRequest(t, rest)) == Run(Requested(t), rest)
  {
    var s1 := INIT.(watcher := Locking, main := StartingCdn);
    RunCons(INIT, Spawn, [Request(t)] + ([Store(t)] + rest));
    RunCons(s1, Request(t), [Store(t)] + rest);
    var s2 := s1.(requesters := map[t := Storing]);
    assert Step(s1, Request(t)) == s2;
    RunCons(s2, Store(t), rest);
    assert s2.requesters[t := Notifying] == map[t := Notifying];
  }

  lemma StopBothState(s: State, rest: seq<Action>)
    requires s.watcher.StoppingCdn? && !s.main.Died? && !s.main.Returned? && s.server.Unbuilt?
    ensures Run(s, StopBoth(rest)) ==
            Run(s.(watcher := Finished, log := s.log + [CdnShutdown(ByWatcher)] + [ServerShutdown]), rest)
  {
    RunCons(s, StopCdn, [StopServer] + rest);
    RunCons(s.(watcher := StoppingServer, log := s.log + [CdnShutdown(ByWatcher)]), StopServer, rest);
  }

  lemma WatcherStopsState(s: State, rest: seq<Action>)
    requires s.watcher.Locking? && s.shuttingDown && !s.main.Died? && !s.main.Returned? && s.server.Unbuilt?
    ensures Run(s, WatcherStops(rest)) ==
            Run(s.(watcher := Finished, log := s.log + [CdnShutdown(ByWatcher)] + [ServerShutdown]), rest)
  {
    RunCons(s, Lock, [Check] + StopBoth(rest));
    RunCons(s.(watcher := Checking), Check, StopBoth(rest));
    StopBothState(s.(watcher := StoppingCdn), rest);
  }

  lemma MainStartsState(s: State)
    requires s.main.StartingCdn? && s.watcher.Finished?
    ensures Stranded(Run(s, MainStarts()))
  {
    var s1 := s.(log := s.log + [CdnStart(true)], main := PublishingCdn);
    var s2 := s1.(cdnSet := true, main := Building);
    RunCons(s, StartCdn(true), [PublishCdn] + [Build(true)]);
    RunCons(s1, PublishCdn, [Build(true)]);
    assert Run(s2, [Build(true)]) == Step(s2, Build(true));
  }

  /** A request before main has started anything: the process then never shuts down by itself. */
  lemma EarlyRequestStrands(t: Thread, rest: seq<Action>)
    ensures var s := Run(INIT, EarlyRequest(t, WatcherStops(MainStarts())));
            Stranded(s) && !Run(s, rest).complete
  {
    EarlyRequestState(t, WatcherStops(MainStarts()));
    WatcherStopsState(Requested(t), MainStarts());
    var log := Requested(t).log + [CdnShutdown(ByWatcher)] + [ServerShutdown];
    MainStartsState(Requested(t).(watcher := Finished, log := log));
    var sched := EarlyRequest(t, WatcherStops(MainStarts()));
    RunKeepsInv(INIT, sched);
    RunKeepsServerInOrder(INIT, sched);
    StrandedForGood(Run(INIT, sched), rest);
  }
}
