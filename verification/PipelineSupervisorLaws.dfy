/** The supervisor's methods under any sequence of events, and what whole runs guarantee exactly. */
module SupervisorLaws {
  import opened Wrappers
  import opened SupervisorMaps
  import opened SupervisorRuns

  // ----- the supervisor itself takes the steps ----------------------------------

  method Start(supervisor: Supervisor, w: World, c: nat, task: TaskId, sp: nat, forked: Option<nat>)
    returns (decision: Option<Decision>)
    requires supervisor.State() == w.maps
    modifies supervisor
    ensures supervisor.State() == OnStartCall(w, c, task, sp, forked).maps
    ensures c !in w.calls && sp !in w.spawns && (forked.Some? ==> forked.value !in w.children) ==>
              decision.Some? && OnStartCall(w, c, task, sp, forked).calls[c].state ==
                match decision.value
                case Defer => Done(Deferred, None)
                case Running(pid) => Done(AlreadyRunning(pid), None)
                case Join(spawn) => Joining(spawn)
                case Claim => Owning(sp)
  {
    decision := None;
    if !(c in w.calls || sp in w.spawns || (forked.Some? && forked.value in w.children)) {
      var decided := supervisor.EnterStart(task, sp);
      decision := Some(decided);
    }
  }

  method Settle(supervisor: Supervisor, w: World, sp: nat)
    requires supervisor.State() == w.maps
    modifies supervisor
    ensures supervisor.State() == OnSpawnSettles(w, sp).maps
  {
    if sp in w.spawns && w.spawns[sp].result == Pending && w.spawns[sp].forked.Some?
       && w.spawns[sp].forked.value in w.children {
      supervisor.CommitSpawn(w.spawns[sp].task, w.spawns[sp].forked.value);
    }
  }

  method Resume(supervisor: Supervisor, w: World, c: nat)
    requires supervisor.State() == w.maps
    modifies supervisor
    ensures supervisor.State() == OnCallResumes(w, c).maps
  {
    if c in w.calls && w.calls[c].state.Owning? && w.calls[c].state.spawn in w.spawns
       && w.spawns[w.calls[c].state.spawn].result != Pending {
      supervisor.ReleaseSlot(w.calls[c].task);
    }
  }

  method HandleExit(supervisor: Supervisor, w: World, pid: nat, resumed: bool)
    requires supervisor.State() == w.maps
    modifies supervisor
    ensures supervisor.State() == OnExitHandled(w, pid, resumed).maps
  {
    if pid in w.children && !w.children[pid].handled && w.children[pid].committed && w.children[pid].exit.Some? {
      var moves := supervisor.HandleChildExit(w.children[pid].task, w.children[pid].exit.value, resumed);
      assert OnExitHandled(w, pid, resumed).children[pid].moved == moves;
    }
  }

  method AwaitExit(supervisor: Supervisor, w: World, s: nat, task: TaskId, owner: Option<Owner>)
    requires supervisor.State() == w.maps
    modifies supervisor
    ensures supervisor.State() == Await(w, s, task, owner).maps
  {
    var signalled := supervisor.ClaimCleanup(task, owner);
    assert signalled.Some? ==> Await(w, s, task, owner).stops[s].state == StopState.AwaitExit(signalled.value, false);
  }

  method Stop(supervisor: Supervisor, w: World, s: nat, task: TaskId, owner: Option<Owner>)
    requires supervisor.State() == w.maps
    modifies supervisor
    ensures supervisor.State() == OnStopCall(w, s, task, owner).maps
  {
    if s !in w.stops && !(task !in w.maps.pidMap && task in w.maps.starting) {
      AwaitExit(supervisor, w, s, task, owner);
    }
  }

  method ResumeStop(supervisor: Supervisor, w: World, s: nat)
    requires supervisor.State() == w.maps
    modifies supervisor
    ensures supervisor.State() == OnStopResumes(w, s).maps
  {
    if s in w.stops && w.stops[s].state.AwaitStart? && w.stops[s].state.spawn in w.spawns
       && w.spawns[w.stops[s].state.spawn].result != Pending {
      AwaitExit(supervisor, w, s, w.stops[s].task, w.stops[s].owner);
    }
  }

  /** One event, handled by the supervisor's own methods; `w` carries the promises, processes and stops around it. */
  method Step(supervisor: Supervisor, w: World, e: Event) returns (v: World)
    requires supervisor.State() == w.maps
    modifies supervisor
    ensures v == Next(w, e) && supervisor.State() == v.maps
  {
    v := Next(w, e);
    match e
    case StartCall(c, task, sp, forked) => var _ := Start(supervisor, w, c, task, sp, forked);
    case SpawnSettles(sp) => Settle(supervisor, w, sp);
    case CallResumes(c) => Resume(supervisor, w, c);
    case ExitHandled(pid, resumed) => HandleExit(supervisor, w, pid, resumed);
    case StopCall(s, task, owner) => Stop(supervisor, w, s, task, owner);
    case StopResumes(s) => ResumeStop(supervisor, w, s);
    case SetRecovering(on) => supervisor.SetRecovering(on);
    case ChildExits(_, _) =>
    case ChildError(_) =>
    case StopTimesOut(_) =>
  }

  /** A new supervisor driven through any sequence of events has the maps of the run, so what is proved of runs
      is proved of it. */
  method Replay(events: seq<Event>) returns (supervisor: Supervisor, w: World)
    ensures fresh(supervisor) && w == Run(Initial(), events) && supervisor.State() == w.maps && Inv(w)
  {
    supervisor := new Supervisor();
    w := Initial();
    for i := 0 to |events|
      invariant fresh(supervisor) && w == Run(Initial(), events[..i]) && supervisor.State() == w.maps
    {
      assert events[..i + 1][..i] == events[..i];
      w := Step(supervisor, w, events[i]);
    }
    assert events[..|events|] == events;
    RunInv(events);
  }

  // ----- joining runs -----------------------------------------------------------

  lemma {:induction false} RunConcat(w: World, x: seq<Event>, y: seq<Event>)
    ensures Run(w, x + y) == Run(Run(w, x), y)
    decreases |y|
  {
    if y == [] {
      assert x + y == x;
    } else {
      var n := |y| - 1;
      assert (x + y)[..|x + y| - 1] == x + y[..n] && (x + y)[|x + y| - 1] == y[n];
      RunConcat(w, x, y[..n]);
    }
  }

  lemma {:induction false} RunOne(w: World, e: Event)
    ensures Run(w, [e]) == Next(w, e)
  {
    assert [e][..0] == [];
    assert Run(w, []) == w;
  }

  lemma {:induction false} RunTwo(w: World, e: Event, f: Event)
    ensures Run(w, [e, f]) == Next(Next(w, e), f)
  {
    assert [e, f][..1] == [e];
    RunOne(w, e);
  }

  lemma {:induction false} RunInvFrom(w: World, rest: seq<Event>)
    requires Inv(w)
    ensures Inv(Run(w, rest))
    decreases |rest|
  {
    if rest != [] {
      RunInvFrom(w, rest[..|rest| - 1]);
      StepInv(Run(w, rest[..|rest| - 1]), rest[|rest| - 1]);
    }
  }

  /** A child is moved only by its exit handler, and is alive until it exits. */
  ghost predicate Tidy(child: Child) {
    (!child.handled ==> !child.moved) && (!child.live ==> child.exit.Some?)
  }

  ghost predicate AllTidy(w: World) {
    forall pid :: pid in w.children ==> Tidy(w.children[pid])
  }

  lemma AwaitTidy(w: World, s: nat, task: TaskId, owner: Option<Owner>)
    requires AllTidy(w)
    ensures AllTidy(Await(w, s, task, owner))
  {}

  lemma StepTidy(w: World, e: Event)
    requires AllTidy(w)
    ensures AllTidy(Next(w, e))
  {
    match e
    case StopCall(s, task, owner) => AwaitTidy(w, s, task, owner);
    case StopResumes(s) =>
      if s in w.stops {
        AwaitTidy(w, s, w.stops[s].task, w.stops[s].owner);
      }
    case _ =>
  }

  lemma {:induction false} RunTidy(w: World, rest: seq<Event>)
    requires AllTidy(w)
    ensures AllTidy(Run(w, rest))
    decreases |rest|
  {
    if rest != [] {
      RunTidy(w, rest[..|rest| - 1]);
      StepTidy(Run(w, rest[..|rest| - 1]), rest[|rest| - 1]);
    }
  }

  // ----- a stop that claims cleanup ---------------------------------------------

  /** No later stop of the task asks the exit handler to clean up. */
  ghost predicate HandsNothingBack(rest: seq<Event>, task: TaskId) {
    forall i :: 0 <= i < |rest| && rest[i].StopCall? && rest[i].task == task ==> rest[i].owner != Some(ChildExitHandler)
  }

  /** A stop that claims cleanup for its caller puts the tracked child under that claim. */
  lemma StopClaims(w: World, s: nat, task: TaskId)
    requires Inv(w) && AllTidy(w) && NoHandback(w, task) && s !in w.stops && task in w.maps.pidMap
    ensures var v := Next(w, StopCall(s, task, Some(Caller)));
            CallerCleansUp(v, w.maps.pidMap[task].pid, task) && NoHandback(v, task)
  {
    StopClaimsOwnChild(w, s, task, Some(Caller));
    assert Tidy(w.children[w.maps.pidMap[task].pid]);
  }

  /** In any run: after a stop that claims caller cleanup on a tracked child, the exit handler never moves that
      child's task to error-items, whatever happens and however the child ends, unless a stop that was already
      waiting or comes later hands cleanup back. */
  lemma {:induction false} CallerStopExcludesMove(before: seq<Event>, s: nat, task: TaskId, rest: seq<Event>)
    requires var w := Run(Initial(), before); s !in w.stops && task in w.maps.pidMap && NoHandback(w, task)
    requires HandsNothingBack(rest, task)
    ensures var pid := Run(Initial(), before).maps.pidMap[task].pid;
            var v := Run(Initial(), before + [StopCall(s, task, Some(Caller))] + rest);
            pid in v.children && v.children[pid].task == task && !v.children[pid].moved
  {
    var w, stop := Run(Initial(), before), StopCall(s, task, Some(Caller));
    RunInv(before);
    RunTidy(Initial(), before);
    RunAppend(before, stop);
    RunConcat(Initial(), before + [stop], rest);
    StepInv(w, stop);
    StopClaims(w, s, task);
    ClaimExcludesMove(Next(w, stop), rest, w.maps.pidMap[task].pid, task);
  }

  /** The exception is real: whenever a child that has not ended is claimed by its caller, a later stop that hands
      cleanup back lets the exit handler move the task after all. */
  lemma HandbackAllowsMove(w: World, s: nat, again: nat, task: TaskId)
    requires Inv(w) && s !in w.stops && again !in w.stops && s != again && task in w.maps.pidMap
    requires w.children[w.maps.pidMap[task].pid].exit.None? && w.children[w.maps.pidMap[task].pid].live
    ensures var pid := w.maps.pidMap[task].pid;
            var claimed := Next(w, StopCall(s, task, Some(Caller)));
            var back := Next(claimed, StopCall(again, task, Some(ChildExitHandler)));
            var v := Next(Next(back, ChildExits(pid, 1)), ExitHandled(pid, false));
            pid in v.children && v.children[pid].moved
  {
    var pid := w.maps.pidMap[task].pid;
    var claimed := Next(w, StopCall(s, task, Some(Caller)));
    StopClaimsOwnChild(w, s, task, Some(Caller));
    StepInv(w, StopCall(s, task, Some(Caller)));
    Handback(claimed, again, task, pid);
  }

  lemma Handback(w: World, s: nat, task: TaskId, pid: nat)
    requires Inv(w) && s !in w.stops && task in w.maps.pidMap && w.maps.pidMap[task].pid == pid
    requires pid in w.children && w.children[pid].exit.None? && w.children[pid].live
    ensures var back := Next(w, StopCall(s, task, Some(ChildExitHandler)));
            var v := Next(Next(back, ChildExits(pid, 1)), ExitHandled(pid, false));
            pid in v.children && v.children[pid].moved
  {
    StopClaimsOwnChild(w, s, task, Some(ChildExitHandler));
    StepInv(w, StopCall(s, task, Some(ChildExitHandler)));
    FailingExitMoves(Next(w, StopCall(s, task, Some(ChildExitHandler))), pid);
  }

  /** An unclaimed child that fails is moved by its handler. */
  lemma FailingExitMoves(w: World, pid: nat)
    requires Inv(w) && pid in w.children && w.children[pid].committed && !w.children[pid].handled
    requires w.children[pid].exit.None? && w.children[pid].live && w.children[pid].lastClaim != Some(Caller)
    ensures var v := Next(Next(w, ChildExits(pid, 1)), ExitHandled(pid, false));
            pid in v.children && v.children[pid].moved
  {
    StepInv(w, ChildExits(pid, 1));
    MovedIff(Next(w, ChildExits(pid, 1)), pid, false);
  }

  // ----- one live child per task, exactly ---------------------------------------

  ghost predicate OneLivePerTask(w: World) {
    forall p, q | p in w.children && q in w.children ::
      (w.children[p].live && w.children[q].live && w.children[p].task == w.children[q].task) ==> p == q
  }

  /** No 'error' event of this continuation reaches a child that is alive. */
  ghost predicate Calm(w: World, rest: seq<Event>) {
    forall i :: 0 <= i < |rest| && rest[i].ChildError? ==>
      var v := Run(w, rest[..i]);
      rest[i].pid in v.children ==> !v.children[rest[i].pid].live
  }

  /** No child is alive although its exit promise has settled. */
  ghost predicate NoneOutlivesItsExit(w: World) {
    forall p :: ExitedIsGone(w, p)
  }

  lemma UnhandledIsOne(w: World, p: nat, q: nat)
    requires Inv(w) && p in w.children && q in w.children && w.children[p].task == w.children[q].task
    requires !w.children[p].handled && !w.children[q].handled
    ensures p == q
  {
    if !w.children[p].committed && !w.children[q].committed {
      assert w.children[p].spawn == w.maps.starting[w.children[p].task];
      assert w.children[q].spawn == w.maps.starting[w.children[q].task];
    }
  }

  lemma GoneMeansOneLive(w: World)
    requires Inv(w) && NoneOutlivesItsExit(w)
    ensures OneLivePerTask(w)
  {
    forall p, q | p in w.children && q in w.children && w.children[p].live && w.children[q].live
                  && w.children[p].task == w.children[q].task
      ensures p == q
    {
      assert ExitedIsGone(w, p) && ExitedIsGone(w, q);
      UnhandledIsOne(w, p, q);
    }
  }

  lemma {:induction false} CalmKeepsGone(w: World, rest: seq<Event>, p: nat)
    requires Calm(w, rest) && ExitedIsGone(w, p)
    ensures ExitedIsGone(Run(w, rest), p)
    decreases |rest|
  {
    var n := |rest| - 1;
    if n >= 0 {
      assert Calm(w, rest[..n]) by {
        assert forall i :: 0 <= i < n ==> rest[..n][..i] == rest[..i];
      }
      CalmKeepsGone(w, rest[..n], p);
      GoneStep(Run(w, rest[..n]), rest[n], p);
    }
  }

  lemma {:induction false} CalmFromGone(w: World, rest: seq<Event>)
    requires Inv(w) && NoneOutlivesItsExit(w) && Calm(w, rest)
    ensures OneLivePerTask(Run(w, rest))
  {
    RunInvFrom(w, rest);
    forall p ensures ExitedIsGone(Run(w, rest), p) {
      CalmKeepsGone(w, rest, p);
    }
    GoneMeansOneLive(Run(w, rest));
  }

  // ----- ... and only then ------------------------------------------------------

  ghost predicate Errorless(rest: seq<Event>) {
    forall i :: 0 <= i < |rest| ==> !rest[i].ChildError?
  }

  lemma {:induction false} FreshNat(s: set<nat>) returns (n: nat)
    ensures forall x :: x in s ==> x < n
  {
    if s == {} {
      n := 0;
    } else {
      var x :| x in s;
      var m := FreshNat(s - {x});
      n := if x < m then m else x + 1;
      forall y | y in s ensures y < n {
        assert y == x || y in s - {x};
      }
    }
  }

  /** A child that outlives its settled exit. */
  ghost predicate Zombie(w: World, p: nat, t: TaskId) {
    p in w.children && w.children[p].task == t && w.children[p].live && w.children[p].exit.Some?
  }

  /** A world that keeps the invariants and has such a child. */
  ghost predicate Haunted(w: World, p: nat, t: TaskId) {
    Inv(w) && AllTidy(w) && Zombie(w, p, t)
  }

  lemma SettleHaunts(w: World, sp: nat, p: nat, t: TaskId)
    requires Haunted(w, p, t)
    ensures Haunted(Next(w, SpawnSettles(sp)), p, t)
  {
    StepInv(w, SpawnSettles(sp));
    StepTidy(w, SpawnSettles(sp));
  }

  lemma ResumeHaunts(w: World, c: nat, p: nat, t: TaskId)
    requires Haunted(w, p, t)
    ensures Haunted(Next(w, CallResumes(c)), p, t)
  {
    StepInv(w, CallResumes(c));
    StepTidy(w, CallResumes(c));
  }

  lemma HandledHaunts(w: World, q: nat, p: nat, t: TaskId)
    requires Haunted(w, p, t)
    ensures Haunted(Next(w, ExitHandled(q, false)), p, t)
  {
    StepInv(w, ExitHandled(q, false));
    StepTidy(w, ExitHandled(q, false));
  }

  /** A spawn that has a slot settles. */
  lemma SlotResolves(w: World, t: TaskId)
    requires SlotsOk(w) && ForksOk(w) && t in w.maps.starting
    ensures var sp := w.maps.starting[t];
            var v := Next(w, SpawnSettles(sp));
            && v.maps.starting == w.maps.starting && v.calls == w.calls && sp in w.spawns && sp in v.spawns
            && v.spawns[sp].result != Pending && v.spawns[sp].owner == w.spawns[sp].owner
  {}

  lemma OwnerFreesSlot(w: World, t: TaskId)
    requires SlotsOk(w) && t in w.maps.starting && w.maps.starting[t] in w.spawns
    requires w.spawns[w.maps.starting[t]].result != Pending
    ensures t !in Next(w, CallResumes(w.spawns[w.maps.starting[t]].owner)).maps.starting
  {}

  /** The owner of the task's slot can always be brought to resume. */
  lemma {:induction false} SlotEmpties(w: World, p: nat, t: TaskId) returns (rest: seq<Event>)
    requires Haunted(w, p, t)
    ensures Errorless(rest) && Haunted(Run(w, rest), p, t) && t !in Run(w, rest).maps.starting
  {
    rest := [];
    if t in w.maps.starting {
      var settle := SpawnSettles(w.maps.starting[t]);
      var c := OwnerResumes(w, p, t);
      RunTwo(w, settle, CallResumes(c));
      rest := [settle, CallResumes(c)];
    }
  }

  lemma OwnerResumes(w: World, p: nat, t: TaskId) returns (c: nat)
    requires Haunted(w, p, t) && t in w.maps.starting
    ensures var v := Next(Next(w, SpawnSettles(w.maps.starting[t])), CallResumes(c));
            Haunted(v, p, t) && t !in v.maps.starting
  {
    var sp := w.maps.starting[t];
    SlotResolves(w, t);
    SettleHaunts(w, sp, p, t);
    var v := Next(w, SpawnSettles(sp));
    c := v.spawns[sp].owner;
    OwnerFreesSlot(v, t);
    ResumeHaunts(v, c, p, t);
  }

  lemma HandlingUntracks(w: World, q: nat, t: TaskId)
    requires ChildrenOk(w) && t in w.maps.pidMap && w.maps.pidMap[t].pid == q && q in w.children && w.children[q].exit.Some?
    ensures var v := Next(w, ExitHandled(q, false)); v.maps.starting == w.maps.starting && t !in v.maps.pidMap
  {}

  /** With the slot empty, either two children are alive already or the exit of the tracked one can be handled. */
  lemma {:induction false} EntryEmpties(w: World, p: nat, t: TaskId) returns (rest: seq<Event>)
    requires Haunted(w, p, t) && t !in w.maps.starting
    ensures Errorless(rest)
    ensures !OneLivePerTask(Run(w, rest))
            || (Zombie(Run(w, rest), p, t) && t !in Run(w, rest).maps.starting && t !in Run(w, rest).maps.pidMap)
  {
    rest := [];
    if t in w.maps.pidMap {
      var q := w.maps.pidMap[t].pid;
      assert Tidy(w.children[q]);
      if w.children[q].exit.Some? {
        HandlingUntracks(w, q, t);
        HandledHaunts(w, q, p, t);
        RunOne(w, ExitHandled(q, false));
        rest := [ExitHandled(q, false)];
      } else {
        assert p != q && w.children[q].live && w.children[q].task == w.children[p].task;
      }
    }
  }

  /** A new start then forks a second child beside the one that outlived its exit. */
  lemma {:induction false} SecondFork(w: World, p: nat, t: TaskId) returns (rest: seq<Event>)
    requires Zombie(w, p, t) && t !in w.maps.starting && t !in w.maps.pidMap
    ensures Errorless(rest) && !OneLivePerTask(Run(w, rest))
  {
    var c := FreshNat(w.calls.Keys);
    var sp := FreshNat(w.spawns.Keys);
    var other := FreshNat(w.children.Keys);
    var guard, start := SetRecovering(false), StartCall(c, t, sp, Some(other));
    rest := [guard, start];
    RunTwo(w, guard, start);
    var v := Next(w, guard);
    assert c !in v.calls && sp !in v.spawns && other !in v.children;
    StartForks(v, c, t, sp, other);
    var u := Run(w, rest);
    assert u.children == w.children[other := Child(t, sp, true, None, false, false, false, false, None)];
    assert p != other && p in u.children && other in u.children && u.children[p].task == u.children[other].task;
  }

  lemma {:induction false} ZombieBreaksIt(w: World, p: nat, t: TaskId) returns (rest: seq<Event>)
    requires Haunted(w, p, t)
    ensures Errorless(rest) && !OneLivePerTask(Run(w, rest))
  {
    var x := SlotEmpties(w, p, t);
    var y := EntryEmpties(Run(w, x), p, t);
    RunConcat(w, x, y);
    rest := x + y;
    if OneLivePerTask(Run(w, rest)) {
      var z := SecondFork(Run(w, rest), p, t);
      RunConcat(w, x + y, z);
      rest := x + y + z;
    }
  }

  lemma ErrorlessIsCalm(w: World, rest: seq<Event>)
    requires Errorless(rest)
    ensures Calm(w, rest)
  {}

  /** After any run, every continuation that delivers no 'error' to a live child keeps one live child per task if
      and only if no child is now alive with its exit already settled. */
  lemma {:induction false} OneLivePerTaskIff(events: seq<Event>)
    ensures var w := Run(Initial(), events);
            (forall rest :: Calm(w, rest) ==> OneLivePerTask(Run(w, rest))) <==> NoneOutlivesItsExit(w)
  {
    var w := Run(Initial(), events);
    RunInv(events);
    RunTidy(Initial(), events);
    if NoneOutlivesItsExit(w) {
      forall rest | Calm(w, rest) ensures OneLivePerTask(Run(w, rest)) {
        CalmFromGone(w, rest);
      }
    } else {
      var p :| !ExitedIsGone(w, p);
      var rest := ZombieBreaksIt(w, p, w.children[p].task);
      ErrorlessIsCalm(w, rest);
      assert Calm(w, rest) && !OneLivePerTask(Run(w, rest));
    }
  }
}
