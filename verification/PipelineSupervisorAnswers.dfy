/** What starts and stops answer, in terms of calls, processes and time limits. */
module SupervisorAnswers {
  import opened Wrappers
  import opened SupervisorMaps
  import opened SupervisorRuns
  import opened SupervisorLaws

  /** The process that runs the task's pipeline: tracked, and its exit not handled yet. */
  ghost predicate RunsFor(w: World, task: TaskId, pid: nat) {
    pid in w.children && w.children[pid].task == task && w.children[pid].committed && !w.children[pid].handled
  }

  /** Some call has claimed a start of the task with this spawn and has not resumed yet. */
  ghost predicate StartsFor(w: World, task: TaskId, sp: nat) {
    exists c :: c in w.calls && w.calls[c] == Call(task, Owning(sp))
  }

  lemma TrackedRuns(w: World, task: TaskId)
    requires ChildrenOk(w)
    ensures task in w.maps.pidMap ==> RunsFor(w, task, w.maps.pidMap[task].pid)
    ensures forall pid :: RunsFor(w, task, pid) ==> task in w.maps.pidMap && w.maps.pidMap[task].pid == pid
  {}

  lemma SlotStarts(w: World, task: TaskId)
    requires SlotsOk(w) && CallsOk(w)
    ensures task in w.maps.starting ==> StartsFor(w, task, w.maps.starting[task])
    ensures forall sp :: StartsFor(w, task, sp) ==> task in w.maps.starting && w.maps.starting[task] == sp
  {
    forall sp | StartsFor(w, task, sp) ensures task in w.maps.starting && w.maps.starting[task] == sp {
      var c :| c in w.calls && w.calls[c] == Call(task, Owning(sp));
      assert CallOk(w, c, w.calls[c]);
    }
  }

  // ----- starting -------------------------------------------------------------------

  /** The answer of a new start, in any run: deferred exactly during recovery; otherwise the pid of the process that
      runs the task; otherwise it waits for the start that is under way; otherwise it starts the task itself. */
  lemma {:induction false} StartAnswers(events: seq<Event>, c: nat, task: TaskId, sp: nat, forked: Option<nat>)
    requires var w := Run(Initial(), events);
             c !in w.calls && sp !in w.spawns && (forked.Some? ==> forked.value !in w.children)
    ensures var w := Run(Initial(), events);
            var v := Run(Initial(), events + [StartCall(c, task, sp, forked)]);
            && c in v.calls && v.calls[c].task == task
            && (v.calls[c].state == Done(Deferred, None) <==> w.maps.recovering)
            && (!w.maps.recovering ==> forall pid :: RunsFor(w, task, pid) ==>
                  v.calls[c].state == Done(AlreadyRunning(pid), None))
            && (!w.maps.recovering && (forall pid :: !RunsFor(w, task, pid)) ==> forall s :: StartsFor(w, task, s) ==>
                  v.calls[c].state == Joining(s))
            && (!w.maps.recovering && (forall pid :: !RunsFor(w, task, pid)) && (forall s :: !StartsFor(w, task, s)) ==>
                  v.calls[c].state == Owning(sp) && sp in v.spawns && v.spawns[sp] == Spawn(task, c, forked, Pending))
  {
    var w := Run(Initial(), events);
    RunInv(events);
    RunAppend(events, StartCall(c, task, sp, forked));
    TrackedRuns(w, task);
    SlotStarts(w, task);
  }

  /** The recovery guard is what the last event about it says. */
  lemma {:induction false} GuardIsLast(w: World, rest: seq<Event>, on: bool)
    requires forall i :: 0 <= i < |rest| ==> !rest[i].SetRecovering?
    ensures Run(Next(w, SetRecovering(on)), rest).maps.recovering == on
    decreases |rest|
  {
    if rest != [] {
      GuardIsLast(w, rest[..|rest| - 1], on);
      GuardStays(Run(Next(w, SetRecovering(on)), rest[..|rest| - 1]), rest[|rest| - 1]);
    }
  }

  lemma GuardStays(w: World, e: Event)
    requires !e.SetRecovering?
    ensures Next(w, e).maps.recovering == w.maps.recovering
  {}

  /** A start that waits is answered as soon as its spawn has settled: its owner is told that it started the
      process, everybody else that the process is running already, and all of them when there is none. */
  lemma {:induction false} WaitingStartIsAnswered(events: seq<Event>, c: nat)
    requires var w := Run(Initial(), events); c in w.calls && !w.calls[c].state.Done?
    ensures var w := Run(Initial(), events);
            var sp := w.calls[c].state.spawn;
            var v := Next(Next(w, SpawnSettles(sp)), CallResumes(c));
            && sp in w.spawns && sp in v.spawns && c in v.calls && v.calls[c].task == w.calls[c].task
            && (w.spawns[sp].result.Pending? ==>
                  v.spawns[sp].result == match w.spawns[sp].forked case None => Failed case Some(pid) => Started(pid))
            && v.calls[c].state == Done(
                 match v.spawns[sp].result
                 case Started(pid) => if w.calls[c].state.Owning? then StartedBy(pid) else AlreadyRunning(pid)
                 case _ => Rejected,
                 Some(sp))
  {
    var w := Run(Initial(), events);
    RunInv(events);
    assert CallOk(w, c, w.calls[c]);
    SettledSpawn(w, w.calls[c].state.spawn);
  }

  lemma SettledSpawn(w: World, sp: nat)
    requires Inv(w) && sp in w.spawns
    ensures var v := Next(w, SpawnSettles(sp));
            && sp in v.spawns && v.calls == w.calls && v.spawns[sp].forked == w.spawns[sp].forked
            && v.spawns[sp].result == (if w.spawns[sp].result.Pending?
                                       then match w.spawns[sp].forked case None => Failed case Some(pid) => Started(pid)
                                       else w.spawns[sp].result)
            && (w.spawns[sp].result.Pending? && w.spawns[sp].forked.Some? ==>
                  RunsFor(v, w.spawns[sp].task, w.spawns[sp].forked.value))
  {}

  // ----- stopping -------------------------------------------------------------------

  /** What a new stop does, in any run: it waits for the process that runs the task; or for the start under way;
      or finds nothing running. */
  lemma {:induction false} StopAnswers(events: seq<Event>, s: nat, task: TaskId, owner: Option<Owner>)
    requires s !in Run(Initial(), events).stops
    ensures var w := Run(Initial(), events);
            var v := Run(Initial(), events + [StopCall(s, task, owner)]);
            && s in v.stops && v.stops[s].task == task && v.stops[s].owner == owner
            && (forall pid :: RunsFor(w, task, pid) ==> v.stops[s].state == StopState.AwaitExit(pid, false))
            && ((forall pid :: !RunsFor(w, task, pid)) ==>
                  forall sp :: StartsFor(w, task, sp) ==> v.stops[s].state == AwaitStart(sp))
            && ((forall pid :: !RunsFor(w, task, pid)) && (forall sp :: !StartsFor(w, task, sp)) ==>
                  v.stops[s].state == Stopped(NotRunning))
  {
    var w := Run(Initial(), events);
    RunInv(events);
    RunAppend(events, StopCall(s, task, owner));
    TrackedRuns(w, task);
    SlotStarts(w, task);
  }

  /** A stop that waited for a start goes on to the process that runs the task by then, or finds none. */
  lemma {:induction false} StopGoesOn(events: seq<Event>, s: nat)
    requires var w := Run(Initial(), events);
             && s in w.stops && w.stops[s].state.AwaitStart?
             && w.stops[s].state.spawn in w.spawns && !w.spawns[w.stops[s].state.spawn].result.Pending?
    ensures var w := Run(Initial(), events);
            var v := Run(Initial(), events + [StopResumes(s)]);
            && s in v.stops
            && (forall pid :: RunsFor(w, w.stops[s].task, pid) ==> v.stops[s].state == StopState.AwaitExit(pid, false))
            && ((forall pid :: !RunsFor(w, w.stops[s].task, pid)) ==> v.stops[s].state == Stopped(NotRunning))
  {
    var w := Run(Initial(), events);
    RunInv(events);
    RunAppend(events, StopResumes(s));
    TrackedRuns(w, w.stops[s].task);
  }

  /** A stop that runs out of time waiting for a start gives up without proof. */
  lemma {:induction false} StartTimeoutIsUnproven(w: World, s: nat)
    requires s in w.stops && w.stops[s].state.AwaitStart?
    ensures var v := Next(w, StopTimesOut(s));
            s in v.stops && v.stops[s].state == Stopped(Unproven)
            && v == w.(stops := v.stops) && forall other :: other in w.stops && other != s ==> v.stops[other] == w.stops[other]
  {}

  /** How often the time limit of stop `s` ran out while it was waiting for its process. */
  ghost function Timeouts(w: World, rest: seq<Event>, s: nat): nat
    decreases |rest|
  {
    if rest == [] then 0
    else
      var before := Run(w, rest[..|rest| - 1]);
      Timeouts(w, rest[..|rest| - 1], s)
      + if rest[|rest| - 1] == StopTimesOut(s) && s in before.stops && before.stops[s].state.AwaitExit? then 1 else 0
  }

  /** The answer says how often the limit ran out: never, once with SIGKILL in between, or twice. */
  ghost predicate TellsTimeouts(w: World, s: nat, pid: nat, n: nat) {
    s in w.stops &&
    match w.stops[s].state
    case AwaitStart(_) => false
    case AwaitExit(p, forced) => p == pid && n == if forced then 1 else 0
    case Stopped(status) =>
      match status
      case NotRunning => false
      case Graceful => n == 0
      case Forced => n == 1
      case Unproven => n == 2
      case Threw => n <= 1
  }

  lemma AwaitLeavesOthers(w: World, s: nat, task: TaskId, owner: Option<Owner>, other: nat)
    requires other in w.stops && s != other
    ensures other in Await(w, s, task, owner).stops && Await(w, s, task, owner).stops[other] == w.stops[other]
  {}

  lemma StepTellsTimeouts(w: World, e: Event, s: nat, pid: nat, n: nat)
    requires TellsTimeouts(w, s, pid, n)
    ensures TellsTimeouts(Next(w, e), s, pid, n + if e == StopTimesOut(s) && w.stops[s].state.AwaitExit? then 1 else 0)
  {
    match e
    case StopCall(other, task, owner) =>
      if other !in w.stops {
        AwaitLeavesOthers(w, other, task, owner, s);
      }
    case StopResumes(other) =>
      if other in w.stops && other != s {
        AwaitLeavesOthers(w, other, w.stops[other].task, w.stops[other].owner, s);
      }
    case ExitHandled(p, resumed) =>
      if OnExitHandled(w, p, resumed) != w {
        assert Next(w, e).stops[s] == SupervisorRuns.ResumeStop(w.stops[s], p, w.children[p].rejected);
      }
    case StopTimesOut(_) =>
    case _ => assert Next(w, e).stops == w.stops;
  }

  /** From the moment a stop waits for a process: graceful means that the limit never ran out, forced that it ran out
      once, unproven that it ran out twice; it never answers that nothing was running. */
  lemma {:induction false} StopTellsTimeouts(w: World, rest: seq<Event>, s: nat, pid: nat)
    requires s in w.stops && w.stops[s].state == StopState.AwaitExit(pid, false)
    ensures TellsTimeouts(Run(w, rest), s, pid, Timeouts(w, rest, s))
    decreases |rest|
  {
    if rest != [] {
      var front := rest[..|rest| - 1];
      StopTellsTimeouts(w, front, s, pid);
      StepTellsTimeouts(Run(w, front), rest[|rest| - 1], s, pid, Timeouts(w, front, s));
    }
  }

  /** Once its process has ended and that exit is handled, every stop that still waits for it is answered. */
  lemma {:induction false} HandledExitAnswersStops(w: World, s: nat, pid: nat, forced: bool, resumed: bool)
    requires s in w.stops && w.stops[s].state == StopState.AwaitExit(pid, forced)
    requires pid in w.children && w.children[pid].committed && !w.children[pid].handled && w.children[pid].exit.Some?
    ensures var v := Next(w, ExitHandled(pid, resumed));
            s in v.stops && v.stops[s].state == Stopped(
              if w.children[pid].rejected then Threw else if forced then Forced else Graceful)
  {}

  /** The first end of a live child settles its promise for good. */
  lemma EndSettles(w: World, pid: nat, code: int)
    requires pid in w.children && w.children[pid].live && w.children[pid].exit.None?
    ensures var v := Next(w, ChildExits(pid, code)).children[pid];
            !v.live && v.exit == Some(code) && !v.rejected
    ensures var v := Next(w, ChildError(pid)).children[pid];
            v.live && v.exit == Some(1) && v.rejected
  {}
}
