/** Spawn slots and exits of pipeline children: each synchronous stretch of the supervisor as one operation. */
module SupervisorMaps {
  import opened Wrappers

  type TaskId = string

  datatype Owner = Caller | ChildExitHandler

  /** A tracked child; `cleanupOwner` says who cleans up after a stop. */
  datatype Entry = Entry(pid: nat, cleanupOwner: Option<Owner>)

  /** The module's variables: tracked children, in-flight spawns by task, the recovery guard. */
  datatype Maps = Maps(pidMap: map<TaskId, Entry>, starting: map<TaskId, nat>, recovering: bool)

  datatype Decision = Defer | Running(pid: nat) | Join(spawn: nat) | Claim

  const CLOSEOUT_FAILURE_EXIT_CODE: int := 78

  function Decide(m: Maps, task: TaskId): Decision {
    if m.recovering then Defer
    else if task in m.pidMap then Running(m.pidMap[task].pid)
    else if task in m.starting then Join(m.starting[task])
    else Claim
  }

  function Claimed(m: Maps, task: TaskId, spawn: nat): Maps {
    m.(starting := m.starting[task := spawn])
  }

  function Committed(m: Maps, task: TaskId, pid: nat): Maps {
    m.(pidMap := m.pidMap[task := Entry(pid, None)])
  }

  function Released(m: Maps, task: TaskId): Maps {
    m.(starting := m.starting - {task})
  }

  function Untracked(m: Maps, task: TaskId): Maps {
    m.(pidMap := m.pidMap - {task})
  }

  function WithOwner(m: Maps, task: TaskId, owner: Option<Owner>): Maps {
    if owner.Some? && task in m.pidMap then m.(pidMap := m.pidMap[task := m.pidMap[task].(cleanupOwner := owner)]) else m
  }

  /** Whether the exit handler goes on to move the task to error-items. */
  function MovesToErrorItems(m: Maps, task: TaskId, code: int, resumed: bool): bool {
    var claimedByCaller := task in m.pidMap && m.pidMap[task].cleanupOwner == Some(Caller);
    !claimedByCaller && code != 0 && !(code == CLOSEOUT_FAILURE_EXIT_CODE && resumed)
  }

  class Supervisor {
    var pidMap: map<TaskId, Entry>
    var startingMap: map<TaskId, nat>
    var isRecovering: bool

    function State(): Maps
      reads this
    {
      Maps(pidMap, startingMap, isRecovering)
    }

    constructor ()
      ensures State() == Maps(map[], map[], false)
    {
      pidMap, startingMap, isRecovering := map[], map[], false;
    }

    /** startPipeline up to its first await; a claim is published before anything can interleave. */
    method EnterStart(task: TaskId, spawn: nat) returns (decision: Decision)
      modifies this
      ensures decision == Decide(old(State()), task)
      ensures State() == if decision.Claim? then Claimed(old(State()), task, spawn) else old(State())
    {
      if isRecovering {
        return Defer;
      }
      if task in pidMap {
        return Running(pidMap[task].pid);
      }
      if task in startingMap {
        return Join(startingMap[task]);
      }
      startingMap := startingMap[task := spawn];
      return Claim;
    }

    /** The continuation of the spawn that succeeded: the task is now answered with this pid, nobody has claimed
        its cleanup, and no other task, no slot and no guard is affected. */
    method CommitSpawn(task: TaskId, pid: nat)
      modifies this
      ensures State() == Committed(old(State()), task, pid)
      ensures !isRecovering ==> Decide(State(), task) == Running(pid)
      ensures task in pidMap && pidMap[task].cleanupOwner.None?
      ensures forall t :: t != task ==> Decide(State(), t) == Decide(old(State()), t)
      ensures forall t :: t != task ==> (t in pidMap <==> t in old(pidMap))
      ensures forall t :: t != task && t in pidMap ==> pidMap[t] == old(pidMap)[t]
      ensures startingMap == old(startingMap) && isRecovering == old(isRecovering)
    {
      pidMap := pidMap[task := Entry(pid, None)];
    }

    /** The owner's `finally`: nobody can join the spawn any more, so the next start of an untracked task claims
        afresh, and every other task is answered as before. */
    method ReleaseSlot(task: TaskId)
      modifies this
      ensures State() == Released(old(State()), task)
      ensures !isRecovering && task !in pidMap ==> Decide(State(), task) == Claim
      ensures task in pidMap ==> Decide(State(), task) == Decide(old(State()), task)
      ensures forall t :: t != task ==> Decide(State(), t) == Decide(old(State()), t)
      ensures pidMap == old(pidMap) && isRecovering == old(isRecovering)
    {
      startingMap := startingMap - {task};
    }

    /** handleChildExit: untrack first, then decide whether the task goes to error-items. */
    method HandleChildExit(task: TaskId, code: int, resumed: bool) returns (moves: bool)
      modifies this
      ensures State() == Untracked(old(State()), task)
      ensures moves == MovesToErrorItems(old(State()), task, code, resumed)
    {
      var callerOwns := task in pidMap && pidMap[task].cleanupOwner == Some(Caller);
      pidMap := pidMap - {task};
      if callerOwns {
        return false;
      }
      if code == 0 {
        return false;
      }
      if code == CLOSEOUT_FAILURE_EXIT_CODE {
        if resumed {
          return false;
        }
      }
      return true;
    }

    /** stopPipeline finding a tracked child: record the owner; SIGTERM goes to that child alone. */
    method ClaimCleanup(task: TaskId, owner: Option<Owner>) returns (signalled: Option<nat>)
      modifies this
      ensures State() == WithOwner(old(State()), task, owner)
      ensures signalled == if task in old(pidMap) then Some(old(pidMap)[task].pid) else None
    {
      if task !in pidMap {
        return None;
      }
      if owner.Some? {
        pidMap := pidMap[task := pidMap[task].(cleanupOwner := owner)];
      }
      return Some(pidMap[task].pid);
    }

    method SetRecovering(on: bool)
      modifies this
      ensures State() == old(State()).(recovering := on)
    {
      isRecovering := on;
    }
  }
}

/** Every interleaving of starts, spawns, exits and stops. */
module SupervisorRuns {
  import opened Wrappers
  import opened SupervisorMaps

  /** The outcome of one spawn promise. */
  datatype SpawnResult = Pending | Started(pid: nat) | Failed
  datatype Spawn = Spawn(task: TaskId, owner: nat, forked: Option<nat>, result: SpawnResult)

  datatype CallState = Owning(spawn: nat) | Joining(spawn: nat) | Done(outcome: Outcome, via: Option<nat>)
  datatype Outcome = Deferred | AlreadyRunning(pid: nat) | StartedBy(pid: nat) | Rejected
  datatype Call = Call(task: TaskId, state: CallState)

  /** A forked process. Its exit promise settles once: with a code when it exits, or rejected on an 'error'
      event, which does not mean that the process is gone. */
  datatype Child = Child(task: TaskId, spawn: nat, live: bool, exit: Option<int>, rejected: bool, committed: bool,
                         handled: bool, moved: bool, lastClaim: Option<Owner>)

  datatype StopState = AwaitStart(spawn: nat) | AwaitExit(pid: nat, forced: bool) | Stopped(status: StopStatus)
  datatype StopStatus = NotRunning | Graceful | Forced | Unproven | Threw
  datatype Stop = Stop(task: TaskId, owner: Option<Owner>, state: StopState)

  datatype World = World(
    maps: Maps, spawns: map<nat, Spawn>, calls: map<nat, Call>, children: map<nat, Child>, stops: map<nat, Stop>)

  datatype Event =
    | StartCall(call: nat, task: TaskId, spawn: nat, forked: Option<nat>)
    | SpawnSettles(spawn: nat)
    | CallResumes(call: nat)
    | ChildExits(pid: nat, code: int)
    | ChildError(pid: nat)
    | ExitHandled(pid: nat, resumed: bool)
    | StopCall(stop: nat, task: TaskId, owner: Option<Owner>)
    | StopResumes(stop: nat)
    | StopTimesOut(stop: nat)
    | SetRecovering(on: bool)

  function Initial(): World {
    World(Maps(map[], map[], false), map[], map[], map[], map[])
  }

  function OnStartCall(w: World, c: nat, task: TaskId, sp: nat, forked: Option<nat>): World {
    if c in w.calls || sp in w.spawns || (forked.Some? && forked.value in w.children) then w
    else
      match Decide(w.maps, task)
      case Defer => w.(calls := w.calls[c := Call(task, Done(Deferred, None))])
      case Running(pid) => w.(calls := w.calls[c := Call(task, Done(AlreadyRunning(pid), None))])
      case Join(spawn) => w.(calls := w.calls[c := Call(task, Joining(spawn))])
      case Claim =>
        w.(maps := Claimed(w.maps, task, sp),
           spawns := w.spawns[sp := Spawn(task, c, forked, Pending)],
           calls := w.calls[c := Call(task, Owning(sp))],
           children := if forked.None? then w.children
                       else w.children[forked.value := Child(task, sp, true, None, false, false, false, false, None)])
  }

  /** The spawn promise settles: a forked child is tracked, a failed fork rejects. */
  function OnSpawnSettles(w: World, sp: nat): World {
    if sp !in w.spawns || w.spawns[sp].result != Pending then w
    else
      var spawn := w.spawns[sp];
      match spawn.forked
      case None => w.(spawns := w.spawns[sp := spawn.(result := Failed)])
      case Some(pid) =>
        if pid !in w.children then w
        else w.(maps := Committed(w.maps, spawn.task, pid),
                spawns := w.spawns[sp := spawn.(result := Started(pid))],
                children := w.children[pid := w.children[pid].(committed := true)])
  }

  function OnCallResumes(w: World, c: nat): World {
    if c !in w.calls || w.calls[c].state.Done? then w
    else
      var call := w.calls[c];
      var sp := call.state.spawn;
      if sp !in w.spawns || w.spawns[sp].result == Pending then w
      else
        var result := w.spawns[sp].result;
        var outcome := if result.Failed? then Rejected
                       else if call.state.Owning? then StartedBy(result.pid) else AlreadyRunning(result.pid);
        w.(maps := if call.state.Owning? then Released(w.maps, call.task) else w.maps,
           calls := w.calls[c := call.(state := Done(outcome, Some(sp)))])
  }

  function OnChildEnds(w: World, pid: nat, code: int, gone: bool): World {
    if pid !in w.children || !w.children[pid].live then w
    else
      var child := w.children[pid];
      var settled := if child.exit.Some? then child else child.(exit := Some(code), rejected := !gone);
      w.(children := w.children[pid := settled.(live := !gone)])
  }

  /** The handler was registered first, so it runs before any stop that awaits the same promise; those
      stops then resume in the same turn, before a spawn started after the handler can be tracked. */
  function OnExitHandled(w: World, pid: nat, resumed: bool): World {
    if pid !in w.children || w.children[pid].handled || !w.children[pid].committed || w.children[pid].exit.None? then w
    else
      var child := w.children[pid];
      var moves := MovesToErrorItems(w.maps, child.task, child.exit.value, resumed);
      w.(maps := Untracked(w.maps, child.task),
         children := w.children[pid := child.(handled := true, moved := moves)],
         stops := map s | s in w.stops :: ResumeStop(w.stops[s], pid, child.rejected))
  }

  function ResumeStop(stop: Stop, pid: nat, rejected: bool): Stop {
    match stop.state
    case AwaitExit(p, forced) =>
      if p != pid then stop
      else stop.(state := Stopped(if rejected then Threw else if forced then Forced else Graceful))
    case _ => stop
  }

  /** Claim cleanup of the tracked child, if any, and wait for it. */
  function Await(w: World, s: nat, task: TaskId, owner: Option<Owner>): World {
    if task !in w.maps.pidMap then w.(stops := w.stops[s := Stop(task, owner, Stopped(NotRunning))])
    else
      var pid := w.maps.pidMap[task].pid;
      w.(maps := WithOwner(w.maps, task, owner),
         children := if owner.Some? && pid in w.children
                     then w.children[pid := w.children[pid].(lastClaim := owner)] else w.children,
         stops := w.stops[s := Stop(task, owner, AwaitExit(pid, false))])
  }

  function OnStopCall(w: World, s: nat, task: TaskId, owner: Option<Owner>): World {
    if s in w.stops then w
    else if task !in w.maps.pidMap && task in w.maps.starting
    then w.(stops := w.stops[s := Stop(task, owner, AwaitStart(w.maps.starting[task]))])
    else Await(w, s, task, owner)
  }

  function OnStopResumes(w: World, s: nat): World {
    if s !in w.stops || !w.stops[s].state.AwaitStart? then w
    else
      var sp := w.stops[s].state.spawn;
      if sp !in w.spawns || w.spawns[sp].result == Pending then w
      else Await(w, s, w.stops[s].task, w.stops[s].owner)
  }

  function OnStopTimesOut(w: World, s: nat): World {
    if s !in w.stops then w
    else
      var stop := w.stops[s];
      match stop.state
      case AwaitStart(_) => w.(stops := w.stops[s := stop.(state := Stopped(Unproven))])
      case AwaitExit(pid, false) => w.(stops := w.stops[s := stop.(state := AwaitExit(pid, true))])
      case AwaitExit(_, true) => w.(stops := w.stops[s := stop.(state := Stopped(Unproven))])
      case Stopped(_) => w
  }

  function Next(w: World, e: Event): World {
    match e
    case StartCall(c, task, sp, forked) => OnStartCall(w, c, task, sp, forked)
    case SpawnSettles(sp) => OnSpawnSettles(w, sp)
    case CallResumes(c) => OnCallResumes(w, c)
    case ChildExits(pid, code) => OnChildEnds(w, pid, code, true)
    case ChildError(pid) => OnChildEnds(w, pid, 1, false)
    case ExitHandled(pid, resumed) => OnExitHandled(w, pid, resumed)
    case StopCall(s, task, owner) => OnStopCall(w, s, task, owner)
    case StopResumes(s) => OnStopResumes(w, s)
    case StopTimesOut(s) => OnStopTimesOut(w, s)
    case SetRecovering(on) => w.(maps := w.maps.(recovering := on))
  }

  function Run(w: World, events: seq<Event>): World {
    if events == [] then w else Next(Run(w, events[..|events| - 1]), events[|events| - 1])
  }

  // ----- the invariant ----------------------------------------------------------

  /** The slot of a task is held by exactly the call whose spawn it names, until that call has resumed. */
  ghost predicate SlotsOk(w: World) {
    && (forall t :: t in w.maps.starting ==>
          var sp := w.maps.starting[t];
          && sp in w.spawns && w.spawns[sp].task == t
          && w.spawns[sp].owner in w.calls && w.calls[w.spawns[sp].owner] == Call(t, Owning(sp)))
    && (forall sp :: sp in w.spawns && w.spawns[sp].result == Pending ==>
          w.spawns[sp].task in w.maps.starting && w.maps.starting[w.spawns[sp].task] == sp)
    && (forall t :: t in w.maps.starting && !w.spawns[w.maps.starting[t]].result.Started? ==> t !in w.maps.pidMap)
  }

  ghost predicate CallsOk(w: World) {
    forall c :: c in w.calls ==> CallOk(w, c, w.calls[c])
  }

  ghost predicate CallOk(w: World, c: nat, call: Call) {
    match call.state
    case Owning(sp) => && sp in w.spawns && w.spawns[sp].task == call.task && w.spawns[sp].owner == c
                       && call.task in w.maps.starting && w.maps.starting[call.task] == sp
    case Joining(sp) => sp in w.spawns && w.spawns[sp].task == call.task && w.spawns[sp].owner != c
    case Done(outcome, via) => via.Some? ==> via.value in w.spawns && Observed(w.spawns[via.value], c, outcome)
  }

  /** What call `c` may see of a spawn's result; only the owner is told that it started the child. */
  ghost predicate Observed(spawn: Spawn, c: nat, outcome: Outcome) {
    match spawn.result
    case Pending => false
    case Started(pid) => outcome == if c == spawn.owner then StartedBy(pid) else AlreadyRunning(pid)
    case Failed => outcome == Rejected
  }

  /** Tracked entries are exactly the committed children whose exit has not been handled. */
  ghost predicate ChildrenOk(w: World) {
    && (forall t :: t in w.maps.pidMap ==>
          var pid := w.maps.pidMap[t].pid;
          && pid in w.children && w.children[pid].task == t && w.children[pid].committed && !w.children[pid].handled
          && w.children[pid].lastClaim == w.maps.pidMap[t].cleanupOwner)
    && (forall pid :: pid in w.children && w.children[pid].committed && !w.children[pid].handled ==>
          w.children[pid].task in w.maps.pidMap && w.maps.pidMap[w.children[pid].task].pid == pid)
    && (forall pid :: pid in w.children && !w.children[pid].committed ==>
          var sp := w.children[pid].spawn;
          && !w.children[pid].handled && w.children[pid].lastClaim == None
          && sp in w.spawns && w.spawns[sp].task == w.children[pid].task
          && w.spawns[sp].result == Pending && w.spawns[sp].forked == Some(pid))
    && (forall pid :: pid in w.children && w.children[pid].handled ==> w.children[pid].exit.Some?)
  }

  ghost predicate ForksOk(w: World) {
    forall sp :: sp in w.spawns && w.spawns[sp].result == Pending && w.spawns[sp].forked.Some? ==>
      var pid := w.spawns[sp].forked.value;
      pid in w.children && w.children[pid].spawn == sp && !w.children[pid].committed
      && w.children[pid].task == w.spawns[sp].task
  }

  ghost predicate Inv(w: World) {
    SlotsOk(w) && CallsOk(w) && ChildrenOk(w) && ForksOk(w)
  }

  /** A call that is answered at once, or joins, adds only itself. */
  lemma AnsweredInv(w: World, c: nat, call: Call)
    requires Inv(w) && c !in w.calls && !call.state.Owning?
    requires call.state.Done? ==> call.state.via.None?
    requires call.state.Joining? ==> CallOk(w, c, call)
    ensures Inv(w.(calls := w.calls[c := call]))
  {
    var v := w.(calls := w.calls[c := call]);
    assert SlotsOk(v);
    assert CallsOk(v);
    assert ChildrenOk(v) && ForksOk(v);
  }

  ghost predicate FreshClaim(w: World, c: nat, task: TaskId, sp: nat, forked: Option<nat>) {
    && c !in w.calls && sp !in w.spawns && (forked.Some? ==> forked.value !in w.children)
    && task !in w.maps.pidMap && task !in w.maps.starting && !w.maps.recovering
  }

  lemma ClaimSlots(w: World, c: nat, task: TaskId, sp: nat, forked: Option<nat>)
    requires SlotsOk(w) && FreshClaim(w, c, task, sp, forked)
    ensures SlotsOk(OnStartCall(w, c, task, sp, forked))
  {
    var v := OnStartCall(w, c, task, sp, forked);
    assert v.maps.starting == w.maps.starting[task := sp] && v.maps.pidMap == w.maps.pidMap;
    assert v.spawns == w.spawns[sp := Spawn(task, c, forked, Pending)] && v.calls == w.calls[c := Call(task, Owning(sp))];
  }

  lemma ClaimCalls(w: World, c: nat, task: TaskId, sp: nat, forked: Option<nat>)
    requires CallsOk(w) && FreshClaim(w, c, task, sp, forked)
    ensures CallsOk(OnStartCall(w, c, task, sp, forked))
  {
    var v := OnStartCall(w, c, task, sp, forked);
    assert v.calls == w.calls[c := Call(task, Owning(sp))];
    forall d | d in w.calls ensures CallOk(v, d, w.calls[d]) {
      assert CallOk(w, d, w.calls[d]);
    }
  }

  lemma ClaimChildren(w: World, c: nat, task: TaskId, sp: nat, forked: Option<nat>)
    requires ChildrenOk(w) && FreshClaim(w, c, task, sp, forked)
    ensures ChildrenOk(OnStartCall(w, c, task, sp, forked))
  {
    var v := OnStartCall(w, c, task, sp, forked);
    assert v.maps.pidMap == w.maps.pidMap && v.spawns == w.spawns[sp := Spawn(task, c, forked, Pending)];
    if forked.Some? {
      assert v.children == w.children[forked.value := Child(task, sp, true, None, false, false, false, false, None)];
    } else {
      assert v.children == w.children;
    }
  }

  lemma ClaimForks(w: World, c: nat, task: TaskId, sp: nat, forked: Option<nat>)
    requires ForksOk(w) && FreshClaim(w, c, task, sp, forked)
    ensures ForksOk(OnStartCall(w, c, task, sp, forked))
  {
    var v := OnStartCall(w, c, task, sp, forked);
    assert v.spawns == w.spawns[sp := Spawn(task, c, forked, Pending)];
  }

  lemma StartCallInv(w: World, c: nat, task: TaskId, sp: nat, forked: Option<nat>)
    requires Inv(w)
    ensures Inv(OnStartCall(w, c, task, sp, forked))
  {
    if c in w.calls || sp in w.spawns || (forked.Some? && forked.value in w.children) {
      return;
    }
    match Decide(w.maps, task)
    case Defer => AnsweredInv(w, c, Call(task, Done(Deferred, None)));
    case Running(pid) => AnsweredInv(w, c, Call(task, Done(AlreadyRunning(pid), None)));
    case Join(spawn) => AnsweredInv(w, c, Call(task, Joining(spawn)));
    case Claim =>
      ClaimSlots(w, c, task, sp, forked);
      ClaimCalls(w, c, task, sp, forked);
      ClaimChildren(w, c, task, sp, forked);
      ClaimForks(w, c, task, sp, forked);
  }

  /** A spawn whose result is filled in keeps its task and owner, so its slot and its callers stay in order. */
  lemma ResolvedSlots(w: World, v: World, sp: nat)
    requires Inv(w) && sp in w.spawns && w.spawns[sp].result == Pending
    requires v.maps.starting == w.maps.starting && v.calls == w.calls
    requires v.spawns.Keys == w.spawns.Keys && v.spawns[sp].result != Pending
    requires v.spawns[sp].task == w.spawns[sp].task && v.spawns[sp].owner == w.spawns[sp].owner
    requires forall other :: other in w.spawns && other != sp ==> v.spawns[other] == w.spawns[other]
    requires forall t :: t in v.maps.pidMap ==>
               t in w.maps.pidMap || (t == w.spawns[sp].task && v.spawns[sp].result.Started?)
    ensures SlotsOk(v)
  {
    forall t | t in v.maps.starting
      ensures v.maps.starting[t] in v.spawns && v.spawns[v.maps.starting[t]].task == t
      ensures v.spawns[v.maps.starting[t]].owner == w.spawns[w.maps.starting[t]].owner
    {
      var q := w.maps.starting[t];
      assert q in w.spawns && w.spawns[q].task == t;
    }
  }

  lemma ResolvedCalls(w: World, v: World, sp: nat)
    requires Inv(w) && sp in w.spawns && w.spawns[sp].result == Pending
    requires v.maps.starting == w.maps.starting && v.calls == w.calls
    requires v.spawns.Keys == w.spawns.Keys && v.spawns[sp].result != Pending
    requires v.spawns[sp].task == w.spawns[sp].task && v.spawns[sp].owner == w.spawns[sp].owner
    requires forall other :: other in w.spawns && other != sp ==> v.spawns[other] == w.spawns[other]
    ensures CallsOk(v)
  {}

  lemma SettleSlots(w: World, sp: nat)
    requires Inv(w) && sp in w.spawns && w.spawns[sp].result == Pending
    ensures SlotsOk(OnSpawnSettles(w, sp)) && CallsOk(OnSpawnSettles(w, sp))
  {
    var v := OnSpawnSettles(w, sp);
    ResolvedSlots(w, v, sp);
    ResolvedCalls(w, v, sp);
  }

  /** A fork that failed made no child. */
  lemma FailChildren(w: World, sp: nat)
    requires Inv(w) && sp in w.spawns && w.spawns[sp].result == Pending && w.spawns[sp].forked.None?
    ensures ChildrenOk(OnSpawnSettles(w, sp)) && ForksOk(OnSpawnSettles(w, sp))
  {}

  lemma CommitChildren(w: World, sp: nat)
    requires Inv(w) && sp in w.spawns && w.spawns[sp].result == Pending && w.spawns[sp].forked.Some?
    ensures ChildrenOk(OnSpawnSettles(w, sp))
  {
    var v := OnSpawnSettles(w, sp);
    var task, pid := w.spawns[sp].task, w.spawns[sp].forked.value;
    assert task !in w.maps.pidMap && pid in w.children && !w.children[pid].committed;
    assert v.children == w.children[pid := w.children[pid].(committed := true)];
    assert v.maps.pidMap == w.maps.pidMap[task := Entry(pid, None)];
  }

  lemma CommitForks(w: World, sp: nat)
    requires Inv(w) && sp in w.spawns && w.spawns[sp].result == Pending && w.spawns[sp].forked.Some?
    ensures ForksOk(OnSpawnSettles(w, sp))
  {
    var pid := w.spawns[sp].forked.value;
    assert pid in w.children && w.children[pid].spawn == sp;
  }

  lemma SettleChildren(w: World, sp: nat)
    requires Inv(w) && sp in w.spawns && w.spawns[sp].result == Pending
    ensures ChildrenOk(OnSpawnSettles(w, sp)) && ForksOk(OnSpawnSettles(w, sp))
  {
    if w.spawns[sp].forked.None? {
      FailChildren(w, sp);
    } else {
      CommitChildren(w, sp);
      CommitForks(w, sp);
    }
  }

  lemma SpawnSettlesInv(w: World, sp: nat)
    requires Inv(w)
    ensures Inv(OnSpawnSettles(w, sp))
  {
    if sp in w.spawns && w.spawns[sp].result == Pending {
      SettleSlots(w, sp);
      SettleChildren(w, sp);
    }
  }

  lemma CallResumesSlots(w: World, c: nat)
    requires Inv(w)
    ensures SlotsOk(OnCallResumes(w, c))
  {}

  lemma CallResumesCalls(w: World, c: nat)
    requires Inv(w)
    ensures CallsOk(OnCallResumes(w, c))
  {}

  lemma CallResumesInv(w: World, c: nat)
    requires Inv(w)
    ensures Inv(OnCallResumes(w, c))
  {
    CallResumesSlots(w, c);
    CallResumesCalls(w, c);
    var v := OnCallResumes(w, c);
    assert v.maps.pidMap == w.maps.pidMap && v.children == w.children && v.spawns == w.spawns;
  }

  lemma ChildEndsInv(w: World, pid: nat, code: int, gone: bool)
    requires Inv(w)
    ensures Inv(OnChildEnds(w, pid, code, gone))
  {
    var v := OnChildEnds(w, pid, code, gone);
    assert ChildrenOk(v);
    assert ForksOk(v);
  }

  lemma ExitHandledInv(w: World, pid: nat, resumed: bool)
    requires Inv(w)
    ensures Inv(OnExitHandled(w, pid, resumed))
  {
    var v := OnExitHandled(w, pid, resumed);
    assert SlotsOk(v);
    assert ChildrenOk(v);
    assert ForksOk(v);
  }

  lemma AwaitInv(w: World, s: nat, task: TaskId, owner: Option<Owner>)
    requires Inv(w)
    ensures Inv(Await(w, s, task, owner))
  {
    var v := Await(w, s, task, owner);
    assert v.spawns == w.spawns && v.calls == w.calls && v.maps.starting == w.maps.starting;
    if task in w.maps.pidMap && owner.Some? {
      ClaimCleanupInv(w, v, task, owner);
    }
  }

  ghost predicate CleanupClaimed(w: World, v: World, task: TaskId, owner: Option<Owner>) {
    && task in w.maps.pidMap && owner.Some?
    && v.spawns == w.spawns && v.calls == w.calls && v.maps == WithOwner(w.maps, task, owner)
    && var pid := w.maps.pidMap[task].pid;
       pid in w.children && v.children == w.children[pid := w.children[pid].(lastClaim := owner)]
  }

  lemma ClaimCleanupSlots(w: World, v: World, task: TaskId, owner: Option<Owner>)
    requires Inv(w) && CleanupClaimed(w, v, task, owner)
    ensures SlotsOk(v) && CallsOk(v) && ForksOk(v)
  {
    assert v.maps.pidMap.Keys == w.maps.pidMap.Keys;
  }

  lemma ClaimCleanupChildren(w: World, v: World, task: TaskId, owner: Option<Owner>)
    requires Inv(w) && CleanupClaimed(w, v, task, owner)
    ensures ChildrenOk(v)
  {
    assert v.maps.pidMap.Keys == w.maps.pidMap.Keys;
  }

  lemma ClaimCleanupInv(w: World, v: World, task: TaskId, owner: Option<Owner>)
    requires Inv(w) && CleanupClaimed(w, v, task, owner)
    ensures Inv(v)
  {
    ClaimCleanupSlots(w, v, task, owner);
    ClaimCleanupChildren(w, v, task, owner);
  }

  /** Stops that only wait change no map, spawn, call or child. */
  lemma QuietInv(w: World, v: World)
    requires Inv(w) && v.spawns == w.spawns && v.calls == w.calls && v.children == w.children
    requires v.maps.pidMap == w.maps.pidMap && v.maps.starting == w.maps.starting
    ensures Inv(v)
  {}

  lemma StopCallInv(w: World, s: nat, task: TaskId, owner: Option<Owner>)
    requires Inv(w)
    ensures Inv(OnStopCall(w, s, task, owner))
  {
    AwaitInv(w, s, task, owner);
    if OnStopCall(w, s, task, owner) != Await(w, s, task, owner) {
      QuietInv(w, OnStopCall(w, s, task, owner));
    }
  }

  lemma StopResumesInv(w: World, s: nat)
    requires Inv(w)
    ensures Inv(OnStopResumes(w, s))
  {
    if s in w.stops {
      AwaitInv(w, s, w.stops[s].task, w.stops[s].owner);
    }
  }

  lemma StartStepInv(w: World, e: Event)
    requires Inv(w) && (e.StartCall? || e.SpawnSettles? || e.CallResumes?)
    ensures Inv(Next(w, e))
  {
    match e
    case StartCall(c, task, sp, forked) => StartCallInv(w, c, task, sp, forked);
    case SpawnSettles(sp) => SpawnSettlesInv(w, sp);
    case CallResumes(c) => CallResumesInv(w, c);
  }

  lemma StopStepInv(w: World, e: Event)
    requires Inv(w) && (e.StopCall? || e.StopResumes? || e.StopTimesOut? || e.SetRecovering?)
    ensures Inv(Next(w, e))
  {
    match e
    case StopCall(s, task, owner) => StopCallInv(w, s, task, owner);
    case StopResumes(s) => StopResumesInv(w, s);
    case StopTimesOut(s) => QuietInv(w, OnStopTimesOut(w, s));
    case SetRecovering(on) => QuietInv(w, Next(w, e));
  }

  lemma StepInv(w: World, e: Event)
    requires Inv(w)
    ensures Inv(Next(w, e))
  {
    match e
    case ChildExits(pid, code) => ChildEndsInv(w, pid, code, true);
    case ChildError(pid) => ChildEndsInv(w, pid, 1, false);
    case ExitHandled(pid, resumed) => ExitHandledInv(w, pid, resumed);
    case _ =>
      if e.StartCall? || e.SpawnSettles? || e.CallResumes? {
        StartStepInv(w, e);
      } else {
        StopStepInv(w, e);
      }
  }

  lemma {:induction false} RunInv(events: seq<Event>)
    ensures Inv(Run(Initial(), events))
    decreases |events|
  {
    if events != [] {
      RunInv(events[..|events| - 1]);
      StepInv(Run(Initial(), events[..|events| - 1]), events[|events| - 1]);
    }
  }

  // ----- what every run keeps ---------------------------------------------------

  /** A child that was forked and whose exit has not been handled blocks every other one of its task. */
  lemma {:induction false} OneUnhandledChild(events: seq<Event>, p: nat, q: nat)
    requires var w := Run(Initial(), events);
             && p in w.children && q in w.children && w.children[p].task == w.children[q].task
             && !w.children[p].handled && !w.children[q].handled
    ensures p == q
  {
    RunInv(events);
    var w := Run(Initial(), events);
    if !w.children[p].committed && !w.children[q].committed {
      assert w.children[p].spawn == w.maps.starting[w.children[p].task];
      assert w.children[q].spawn == w.maps.starting[w.children[q].task];
    }
  }

  /** No 'error' event reaches a child process that is still alive. */
  ghost predicate NoErrorWhileLive(events: seq<Event>) {
    forall i :: 0 <= i < |events| && events[i].ChildError? ==>
      var w := Run(Initial(), events[..i]);
      events[i].pid in w.children ==> !w.children[events[i].pid].live
  }

  ghost predicate ExitedIsGone(w: World, p: nat) {
    p in w.children && w.children[p].exit.Some? ==> !w.children[p].live
  }

  lemma StartGone(w: World, c: nat, task: TaskId, sp: nat, forked: Option<nat>, p: nat)
    requires ExitedIsGone(w, p)
    ensures ExitedIsGone(OnStartCall(w, c, task, sp, forked), p)
  {}

  lemma OthersGone(w: World, p: nat, sp: nat, pid: nat, resumed: bool)
    requires ExitedIsGone(w, p)
    ensures ExitedIsGone(OnSpawnSettles(w, sp), p) && ExitedIsGone(OnExitHandled(w, pid, resumed), p)
  {}

  lemma EndGone(w: World, pid: nat, code: int, gone: bool, p: nat)
    requires ExitedIsGone(w, p) && (!gone && pid in w.children ==> !w.children[pid].live)
    ensures ExitedIsGone(OnChildEnds(w, pid, code, gone), p)
  {}

  lemma StopGone(w: World, s: nat, task: TaskId, owner: Option<Owner>, p: nat)
    requires ExitedIsGone(w, p)
    ensures ExitedIsGone(OnStopCall(w, s, task, owner), p) && ExitedIsGone(OnStopResumes(w, s), p)
  {
    assert ExitedIsGone(Await(w, s, task, owner), p);
    if s in w.stops {
      assert ExitedIsGone(Await(w, s, w.stops[s].task, w.stops[s].owner), p);
    }
  }

  lemma GoneStep(w: World, e: Event, p: nat)
    requires ExitedIsGone(w, p)
    requires e.ChildError? && e.pid in w.children ==> !w.children[e.pid].live
    ensures ExitedIsGone(Next(w, e), p)
  {
    match e
    case StartCall(c, task, sp, forked) => StartGone(w, c, task, sp, forked, p);
    case SpawnSettles(sp) => OthersGone(w, p, sp, 0, false);
    case ExitHandled(pid, resumed) => OthersGone(w, p, 0, pid, resumed);
    case ChildExits(pid, code) => EndGone(w, pid, code, true, p);
    case ChildError(pid) => EndGone(w, pid, 1, false, p);
    case StopCall(s, task, owner) => StopGone(w, s, task, owner, p);
    case StopResumes(s) => StopGone(w, s, "", None, p);
    case CallResumes(_) =>
    case StopTimesOut(_) =>
    case SetRecovering(_) =>
  }

  lemma {:induction false} ExitedMeansGone(events: seq<Event>, p: nat)
    requires NoErrorWhileLive(events)
    ensures ExitedIsGone(Run(Initial(), events), p)
    decreases |events|
  {
    var n := |events| - 1;
    if n >= 0 {
      var (before, e) := (Run(Initial(), events[..n]), events[n]);
      assert NoErrorWhileLive(events[..n]) by {
        assert forall i :: 0 <= i < n ==> events[..n][..i] == events[..i];
      }
      ExitedMeansGone(events[..n], p);
      GoneStep(before, e, p);
    }
  }

  /** In every interleaving, one live child per task. */
  lemma {:induction false} OneLiveChild(events: seq<Event>, p: nat, q: nat)
    requires NoErrorWhileLive(events)
    requires var w := Run(Initial(), events);
             && p in w.children && q in w.children && w.children[p].task == w.children[q].task
             && w.children[p].live && w.children[q].live
    ensures p == q
  {
    RunInv(events);
    ExitedMeansGone(events, p);
    ExitedMeansGone(events, q);
    OneUnhandledChild(events, p, q);
  }

  lemma {:induction false} RunAppend(events: seq<Event>, e: Event)
    ensures Run(Initial(), events + [e]) == Next(Run(Initial(), events), e)
  {
    assert (events + [e])[..|events|] == events;
  }

  /** The restriction is needed: whenever a tracked child is alive, an 'error' event on it lets the next
      start fork a second live child for its task. */
  lemma {:induction false} ErrorWhileLiveBreaksIt(events: seq<Event>, pid: nat, c: nat, sp: nat, other: nat)
    requires var w := Run(Initial(), events);
             && pid in w.children && w.children[pid].live && w.children[pid].committed && !w.children[pid].handled
             && !w.maps.recovering && w.children[pid].task !in w.maps.starting
             && c !in w.calls && sp !in w.spawns && other !in w.children
    ensures var t := Run(Initial(), events).children[pid].task;
            var v := Run(Initial(), events + [ChildError(pid)] + [ExitHandled(pid, false)] + [StartCall(c, t, sp, Some(other))]);
            && other != pid && pid in v.children && other in v.children
            && v.children[pid].live && v.children[other].live && v.children[pid].task == v.children[other].task
  {
    RunInv(events);
    SecondChild(Run(Initial(), events), pid, c, sp, other);
    var t := Run(Initial(), events).children[pid].task;
    RunAppend(events, ChildError(pid));
    RunAppend(events + [ChildError(pid)], ExitHandled(pid, false));
    RunAppend(events + [ChildError(pid)] + [ExitHandled(pid, false)], StartCall(c, t, sp, Some(other)));
  }

  lemma SecondChild(w: World, pid: nat, c: nat, sp: nat, other: nat)
    requires Inv(w) && pid in w.children && w.children[pid].live && w.children[pid].committed && !w.children[pid].handled
    requires !w.maps.recovering && w.children[pid].task !in w.maps.starting
    requires c !in w.calls && sp !in w.spawns && other !in w.children
    ensures var t := w.children[pid].task;
            var v := Next(Next(Next(w, ChildError(pid)), ExitHandled(pid, false)), StartCall(c, t, sp, Some(other)));
            && other != pid && pid in v.children && other in v.children
            && v.children[pid].live && v.children[other].live && v.children[pid].task == v.children[other].task
  {
    ErrorFreesSlot(w, pid);
    StartForks(OnExitHandled(OnChildEnds(w, pid, 1, false), pid, false), c, w.children[pid].task, sp, other);
  }

  /** Handling the 'error' of a live child untracks its task while the child lives on. */
  lemma ErrorFreesSlot(w: World, pid: nat)
    requires Inv(w) && pid in w.children && w.children[pid].live && w.children[pid].committed && !w.children[pid].handled
    ensures var v := OnExitHandled(OnChildEnds(w, pid, 1, false), pid, false);
            && v.children.Keys == w.children.Keys && v.calls == w.calls && v.spawns == w.spawns
            && v.children[pid].live && v.children[pid].task == w.children[pid].task
            && v.maps == Untracked(w.maps, w.children[pid].task)
  {}

  lemma StartForks(w: World, c: nat, task: TaskId, sp: nat, other: nat)
    requires c !in w.calls && sp !in w.spawns && other !in w.children && !w.maps.recovering
    requires task !in w.maps.pidMap && task !in w.maps.starting
    ensures OnStartCall(w, c, task, sp, Some(other)).children
            == w.children[other := Child(task, sp, true, None, false, false, false, false, None)]
  {}

  /** All callers that waited for one spawn see one pid or one failure, and only its owner "started" it. */
  lemma {:induction false} CallersAgree(events: seq<Event>, c: nat, d: nat)
    requires var w := Run(Initial(), events);
             && c in w.calls && d in w.calls && w.calls[c].state.Done? && w.calls[d].state.Done?
             && w.calls[c].state.via.Some? && w.calls[c].state.via == w.calls[d].state.via
    ensures var w := Run(Initial(), events);
            var (x, y) := (w.calls[c].state.outcome, w.calls[d].state.outcome);
            || (x == Rejected && y == Rejected)
            || ((x.StartedBy? || x.AlreadyRunning?) && (y.StartedBy? || y.AlreadyRunning?) && x.pid == y.pid
                && (x.StartedBy? && y.StartedBy? ==> c == d))
  {
    RunInv(events);
  }

  lemma AnswerStays(w: World, e: Event, c: nat)
    requires c in w.calls && w.calls[c].state.Done?
    ensures c in Next(w, e).calls && Next(w, e).calls[c] == w.calls[c]
  {}

  /** Once a call has been answered, no continuation of the run answers it differently. */
  lemma {:induction false} OutcomesAreFinal(events: seq<Event>, k: nat, c: nat)
    requires k <= |events| && c in Run(Initial(), events[..k]).calls
    requires Run(Initial(), events[..k]).calls[c].state.Done?
    ensures c in Run(Initial(), events).calls
    ensures Run(Initial(), events).calls[c] == Run(Initial(), events[..k]).calls[c]
    decreases |events|
  {
    if k == |events| {
      assert events[..k] == events;
    } else {
      var before := events[..|events| - 1];
      assert before[..k] == events[..k];
      OutcomesAreFinal(before, k, c);
      AnswerStays(Run(Initial(), before), events[|events| - 1], c);
    }
  }

  /** When the owner of a failed spawn resumes, its slot is free and the next start claims afresh. */
  lemma {:induction false} FailedSpawnFreesSlot(events: seq<Event>, c: nat)
    requires var w := Run(Initial(), events);
             c in w.calls && w.calls[c].state.Owning? && w.calls[c].state.spawn in w.spawns
             && w.spawns[w.calls[c].state.spawn].result == Failed
    ensures var w := Run(Initial(), events);
            var v := Next(w, CallResumes(c));
            && v.calls[c].state == Done(Rejected, Some(w.calls[c].state.spawn))
            && w.calls[c].task !in v.maps.starting && w.calls[c].task !in v.maps.pidMap
            && Decide(v.maps, w.calls[c].task) == if w.maps.recovering then Defer else Claim
  {
    RunInv(events);
  }

  // ----- steps stay within their task -------------------------------------------

  ghost predicate SameTask(w: World, v: World, t: TaskId) {
    && (t in w.maps.pidMap <==> t in v.maps.pidMap)
    && (t in w.maps.pidMap ==> w.maps.pidMap[t] == v.maps.pidMap[t])
    && (t in w.maps.starting <==> t in v.maps.starting)
    && (t in w.maps.starting ==> w.maps.starting[t] == v.maps.starting[t])
    && (forall p :: p in w.children && w.children[p].task == t ==> p in v.children && v.children[p] == w.children[p])
    && (forall p :: p in v.children && v.children[p].task == t ==> p in w.children)
  }

  /** The task an event is about, if it is about one. */
  function Concerns(w: World, e: Event): Option<TaskId> {
    match e
    case StartCall(_, task, _, _) => Some(task)
    case SpawnSettles(sp) => if sp in w.spawns then Some(w.spawns[sp].task) else None
    case CallResumes(c) => if c in w.calls then Some(w.calls[c].task) else None
    case ChildExits(pid, _) => if pid in w.children then Some(w.children[pid].task) else None
    case ChildError(pid) => if pid in w.children then Some(w.children[pid].task) else None
    case ExitHandled(pid, _) => if pid in w.children then Some(w.children[pid].task) else None
    case StopCall(_, task, _) => Some(task)
    case StopResumes(s) => if s in w.stops then Some(w.stops[s].task) else None
    case StopTimesOut(_) => None
    case SetRecovering(_) => None
  }

  lemma OtherTasksUntouched(w: World, e: Event, t: TaskId)
    requires Inv(w) && Concerns(w, e) != Some(t)
    ensures SameTask(w, Next(w, e), t)
  {
    if e.StopCall? || e.StopResumes? || e.StopTimesOut? || e.SetRecovering? {
      StopsStayInTask(w, e, t);
    } else {
      StartsAndExitsStayInTask(w, e, t);
    }
  }

  lemma StopsStayInTask(w: World, e: Event, t: TaskId)
    requires Inv(w) && Concerns(w, e) != Some(t)
    requires e.StopCall? || e.StopResumes? || e.StopTimesOut? || e.SetRecovering?
    ensures SameTask(w, Next(w, e), t)
  {
    match e
    case StopCall(s, task, owner) => StopStaysInTask(w, s, task, owner, t);
    case StopResumes(s) => ResumeStaysInTask(w, s, t);
    case StopTimesOut(s) => TimeoutStaysInTask(w, s, t);
    case SetRecovering(_) =>
  }

  lemma StartsAndExitsStayInTask(w: World, e: Event, t: TaskId)
    requires Inv(w) && Concerns(w, e) != Some(t)
    requires !(e.StopCall? || e.StopResumes? || e.StopTimesOut? || e.SetRecovering?)
    ensures SameTask(w, Next(w, e), t)
  {
    match e
    case StartCall(c, task, sp, forked) => StartStaysInTask(w, c, task, sp, forked, t);
    case SpawnSettles(sp) => SettleStaysInTask(w, sp, t);
    case ExitHandled(pid, resumed) => HandledStaysInTask(w, pid, resumed, t);
    case ChildExits(pid, code) => EndStaysInTask(w, pid, code, true, t);
    case ChildError(pid) => EndStaysInTask(w, pid, 1, false, t);
    case CallResumes(c) => CallStaysInTask(w, c, t);
  }

  lemma StopStaysInTask(w: World, s: nat, task: TaskId, owner: Option<Owner>, t: TaskId)
    requires Inv(w) && task != t
    ensures SameTask(w, OnStopCall(w, s, task, owner), t)
  {
    AwaitStaysInTask(w, s, task, owner, t);
  }

  lemma ResumeStaysInTask(w: World, s: nat, t: TaskId)
    requires Inv(w) && (s in w.stops ==> w.stops[s].task != t)
    ensures SameTask(w, OnStopResumes(w, s), t)
  {
    if s in w.stops {
      AwaitStaysInTask(w, s, w.stops[s].task, w.stops[s].owner, t);
    }
  }

  lemma TimeoutStaysInTask(w: World, s: nat, t: TaskId)
    ensures SameTask(w, OnStopTimesOut(w, s), t)
  {}

  lemma CallStaysInTask(w: World, c: nat, t: TaskId)
    requires c in w.calls ==> w.calls[c].task != t
    ensures SameTask(w, OnCallResumes(w, c), t)
  {}

  lemma StartStaysInTask(w: World, c: nat, task: TaskId, sp: nat, forked: Option<nat>, t: TaskId)
    requires task != t
    ensures SameTask(w, OnStartCall(w, c, task, sp, forked), t)
  {}

  lemma SettleStaysInTask(w: World, sp: nat, t: TaskId)
    requires Inv(w) && (sp in w.spawns ==> w.spawns[sp].task != t)
    ensures SameTask(w, OnSpawnSettles(w, sp), t)
  {}

  lemma HandledStaysInTask(w: World, pid: nat, resumed: bool, t: TaskId)
    requires pid in w.children ==> w.children[pid].task != t
    ensures SameTask(w, OnExitHandled(w, pid, resumed), t)
  {}

  lemma EndStaysInTask(w: World, pid: nat, code: int, gone: bool, t: TaskId)
    requires pid in w.children ==> w.children[pid].task != t
    ensures SameTask(w, OnChildEnds(w, pid, code, gone), t)
  {}

  lemma AwaitStaysInTask(w: World, s: nat, task: TaskId, owner: Option<Owner>, t: TaskId)
    requires Inv(w) && task != t
    ensures SameTask(w, Await(w, s, task, owner), t)
  {}

  // ----- who cleans up after a stop ---------------------------------------------

  /** The exit handler moves the task to error-items exactly when no stop has claimed cleanup for its
      caller last, the child failed, and no closeout was resumed. */
  lemma MovedIff(w: World, pid: nat, resumed: bool)
    requires Inv(w) && pid in w.children && w.children[pid].committed
    requires !w.children[pid].handled && w.children[pid].exit.Some?
    ensures var (before, after) := (w.children[pid], Next(w, ExitHandled(pid, resumed)).children[pid]);
            && after.handled
            && (after.moved <==> before.lastClaim != Some(Caller) && before.exit != Some(0)
                                 && !(before.exit == Some(78) && resumed))
  {
    assert w.maps.pidMap[w.children[pid].task].pid == pid;
  }

  /** A stop claims and awaits the tracked child of its own task. */
  lemma StopClaimsOwnChild(w: World, s: nat, task: TaskId, owner: Option<Owner>)
    requires Inv(w) && s !in w.stops && task in w.maps.pidMap
    ensures var v := Next(w, StopCall(s, task, owner));
            var pid := w.maps.pidMap[task].pid;
            && pid in v.children && v.children[pid].task == task && v.stops[s].state == AwaitExit(pid, false)
            && v.children[pid].lastClaim == if owner.Some? then owner else w.children[pid].lastClaim
  {}

  ghost predicate CallerCleansUp(w: World, pid: nat, task: TaskId) {
    && pid in w.children && w.children[pid].task == task && w.children[pid].committed
    && !w.children[pid].moved && (!w.children[pid].handled ==> w.children[pid].lastClaim == Some(Caller))
  }

  /** No stop still waiting for a start of `task` will hand its cleanup back to the exit handler. */
  ghost predicate NoHandback(w: World, task: TaskId) {
    forall s :: s in w.stops && w.stops[s].task == task && w.stops[s].state.AwaitStart? ==>
      w.stops[s].owner != Some(ChildExitHandler)
  }

  lemma AwaitKeepsClaim(w: World, s: nat, t: TaskId, owner: Option<Owner>, pid: nat, task: TaskId)
    requires Inv(w) && CallerCleansUp(w, pid, task) && NoHandback(w, task)
    requires t == task ==> owner != Some(ChildExitHandler)
    ensures CallerCleansUp(Await(w, s, t, owner), pid, task) && NoHandback(Await(w, s, t, owner), task)
  {
    if t in w.maps.pidMap {
      assert w.children[w.maps.pidMap[t].pid].task == t;
      assert owner.Some? ==> owner == Some(owner.value) && (owner.value.Caller? || owner.value.ChildExitHandler?);
    }
  }

  lemma StopKeepsClaim(w: World, s: nat, t: TaskId, owner: Option<Owner>, pid: nat, task: TaskId)
    requires Inv(w) && CallerCleansUp(w, pid, task) && NoHandback(w, task)
    requires t == task ==> owner != Some(ChildExitHandler)
    ensures CallerCleansUp(OnStopCall(w, s, t, owner), pid, task) && NoHandback(OnStopCall(w, s, t, owner), task)
  {
    AwaitKeepsClaim(w, s, t, owner, pid, task);
  }

  lemma StopResumesKeepsClaim(w: World, s: nat, pid: nat, task: TaskId)
    requires Inv(w) && CallerCleansUp(w, pid, task) && NoHandback(w, task)
    ensures CallerCleansUp(OnStopResumes(w, s), pid, task) && NoHandback(OnStopResumes(w, s), task)
  {
    if s in w.stops && w.stops[s].state.AwaitStart? {
      AwaitKeepsClaim(w, s, w.stops[s].task, w.stops[s].owner, pid, task);
    }
  }

  lemma CallKeepsClaim(w: World, pid: nat, task: TaskId, c: nat)
    requires CallerCleansUp(w, pid, task) && NoHandback(w, task)
    ensures CallerCleansUp(OnCallResumes(w, c), pid, task) && NoHandback(OnCallResumes(w, c), task)
  {}

  lemma EndKeepsClaim(w: World, pid: nat, task: TaskId, p: nat, code: int, gone: bool)
    requires CallerCleansUp(w, pid, task) && NoHandback(w, task)
    ensures CallerCleansUp(OnChildEnds(w, p, code, gone), pid, task) && NoHandback(OnChildEnds(w, p, code, gone), task)
  {}

  lemma TimeoutKeepsClaim(w: World, pid: nat, task: TaskId, s: nat)
    requires CallerCleansUp(w, pid, task) && NoHandback(w, task)
    ensures CallerCleansUp(OnStopTimesOut(w, s), pid, task) && NoHandback(OnStopTimesOut(w, s), task)
  {}

  lemma HandledKeepsClaim(w: World, p: nat, resumed: bool, pid: nat, task: TaskId)
    requires Inv(w) && CallerCleansUp(w, pid, task) && NoHandback(w, task)
    ensures CallerCleansUp(OnExitHandled(w, p, resumed), pid, task) && NoHandback(OnExitHandled(w, p, resumed), task)
  {
    if OnExitHandled(w, p, resumed) != w {
      MovedIff(w, p, resumed);
    }
  }

  lemma StartKeepsClaim(w: World, c: nat, t: TaskId, sp: nat, forked: Option<nat>, pid: nat, task: TaskId)
    requires CallerCleansUp(w, pid, task) && NoHandback(w, task)
    ensures CallerCleansUp(OnStartCall(w, c, t, sp, forked), pid, task)
    ensures NoHandback(OnStartCall(w, c, t, sp, forked), task)
  {}

  lemma SettleKeepsClaim(w: World, sp: nat, pid: nat, task: TaskId)
    requires CallerCleansUp(w, pid, task) && NoHandback(w, task)
    ensures CallerCleansUp(OnSpawnSettles(w, sp), pid, task) && NoHandback(OnSpawnSettles(w, sp), task)
  {}

  lemma ClaimStep(w: World, e: Event, pid: nat, task: TaskId)
    requires Inv(w) && CallerCleansUp(w, pid, task) && NoHandback(w, task)
    requires e.StopCall? && e.task == task ==> e.owner != Some(ChildExitHandler)
    ensures CallerCleansUp(Next(w, e), pid, task) && NoHandback(Next(w, e), task)
  {
    match e
    case StartCall(c, t, sp, forked) => StartKeepsClaim(w, c, t, sp, forked, pid, task);
    case SpawnSettles(sp) => SettleKeepsClaim(w, sp, pid, task);
    case ExitHandled(p, resumed) => HandledKeepsClaim(w, p, resumed, pid, task);
    case StopCall(s, t, owner) => StopKeepsClaim(w, s, t, owner, pid, task);
    case StopResumes(s) => StopResumesKeepsClaim(w, s, pid, task);
    case CallResumes(c) => CallKeepsClaim(w, pid, task, c);
    case ChildExits(p, code) => EndKeepsClaim(w, pid, task, p, code, true);
    case ChildError(p) => EndKeepsClaim(w, pid, task, p, 1, false);
    case StopTimesOut(s) => TimeoutKeepsClaim(w, pid, task, s);
    case SetRecovering(_) =>
  }

  /** A stop that claims cleanup for its caller excludes the move, whatever happens before the child exits,
      unless another stop of the same task hands cleanup back. */
  lemma {:induction false} ClaimExcludesMove(w: World, events: seq<Event>, pid: nat, task: TaskId)
    requires Inv(w) && CallerCleansUp(w, pid, task) && NoHandback(w, task)
    requires forall i :: 0 <= i < |events| && events[i].StopCall? && events[i].task == task ==>
               events[i].owner != Some(ChildExitHandler)
    ensures Inv(Run(w, events)) && CallerCleansUp(Run(w, events), pid, task) && NoHandback(Run(w, events), task)
    decreases |events|
  {
    var n := |events| - 1;
    if n >= 0 {
      ClaimExcludesMove(w, events[..n], pid, task);
      StepInv(Run(w, events[..n]), events[n]);
      ClaimStep(Run(w, events[..n]), events[n], pid, task);
    }
  }
}
