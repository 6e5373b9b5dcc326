/** What the answer of a stop says about the child it waited for. */
module SupervisorStops {
  import opened Wrappers
  import opened SupervisorMaps
  import opened SupervisorRuns
  import opened SupervisorLaws

  /** An exit promise that was not rejected settled because the process is gone. */
  ghost predicate Honest(child: Child) {
    child.exit.Some? && !child.rejected ==> !child.live
  }

  ghost predicate AllHonest(w: World) {
    forall pid :: pid in w.children ==> Honest(w.children[pid])
  }

  lemma AwaitHonest(w: World, s: nat, task: TaskId, owner: Option<Owner>)
    requires AllHonest(w)
    ensures AllHonest(Await(w, s, task, owner))
  {}

  lemma StepHonest(w: World, e: Event)
    requires AllHonest(w)
    ensures AllHonest(Next(w, e))
  {
    match e
    case StopCall(s, task, owner) => AwaitHonest(w, s, task, owner);
    case StopResumes(s) =>
      if s in w.stops {
        AwaitHonest(w, s, w.stops[s].task, w.stops[s].owner);
      }
    case _ =>
  }

  /** Stop `s` waits for child `pid`, or has answered for it: gracefully or by force only when the process is
      gone, with an exception only when its exit promise was rejected. */
  ghost predicate AnswersFor(w: World, s: nat, pid: nat) {
    s in w.stops &&
    match w.stops[s].state
    case AwaitStart(_) => false
    case AwaitExit(p, _) => p == pid
    case Stopped(status) =>
      && (status.Graceful? || status.Forced? ==> pid in w.children && !w.children[pid].live)
      && (status.Threw? ==> pid in w.children && w.children[pid].exit.Some? && w.children[pid].rejected)
  }

  /** A child that is gone stays gone, and a settled promise stays as it settled. */
  ghost predicate Settled(before: World, after: World, pid: nat) {
    pid in before.children ==>
      && pid in after.children
      && (!before.children[pid].live ==> !after.children[pid].live)
      && (before.children[pid].exit.Some? ==>
            after.children[pid].exit.Some? && after.children[pid].rejected == before.children[pid].rejected)
  }

  lemma AwaitAnswers(w: World, s: nat, task: TaskId, owner: Option<Owner>, other: nat, pid: nat)
    requires AnswersFor(w, other, pid) && s != other
    ensures AnswersFor(Await(w, s, task, owner), other, pid)
  {
    assert Settled(w, Await(w, s, task, owner), pid);
  }

  lemma HandledAnswers(w: World, p: nat, resumed: bool, s: nat, pid: nat)
    requires AllHonest(w) && AnswersFor(w, s, pid)
    ensures AnswersFor(OnExitHandled(w, p, resumed), s, pid)
  {
    var v := OnExitHandled(w, p, resumed);
    assert Settled(w, v, pid);
    if v != w {
      assert v.stops[s] == SupervisorRuns.ResumeStop(w.stops[s], p, w.children[p].rejected);
    }
  }

  lemma StepAnswers(w: World, e: Event, s: nat, pid: nat)
    requires AllHonest(w) && AnswersFor(w, s, pid)
    ensures AnswersFor(Next(w, e), s, pid)
  {
    match e
    case StopCall(other, task, owner) =>
      if other !in w.stops {
        StopAnswers(w, other, task, owner, s, pid);
      }
    case StopResumes(other) =>
      if other in w.stops && other != s {
        AwaitAnswers(w, other, w.stops[other].task, w.stops[other].owner, s, pid);
      }
    case ExitHandled(p, resumed) => HandledAnswers(w, p, resumed, s, pid);
    case StopTimesOut(other) =>
    case _ => OtherAnswers(w, e, s, pid);
  }

  lemma OtherAnswers(w: World, e: Event, s: nat, pid: nat)
    requires AnswersFor(w, s, pid)
    requires e.StartCall? || e.SpawnSettles? || e.CallResumes? || e.ChildExits? || e.ChildError? || e.SetRecovering?
    ensures AnswersFor(Next(w, e), s, pid)
  {
    assert Settled(w, Next(w, e), pid) && Next(w, e).stops == w.stops;
  }

  lemma StopAnswers(w: World, other: nat, task: TaskId, owner: Option<Owner>, s: nat, pid: nat)
    requires AnswersFor(w, s, pid) && other != s
    ensures AnswersFor(OnStopCall(w, other, task, owner), s, pid)
  {
    AwaitAnswers(w, other, task, owner, s, pid);
  }

  lemma {:induction false} RunAnswers(w: World, rest: seq<Event>, s: nat, pid: nat)
    requires AllHonest(w) && AnswersFor(w, s, pid)
    ensures AllHonest(Run(w, rest)) && AnswersFor(Run(w, rest), s, pid)
    decreases |rest|
  {
    if rest != [] {
      var before, e := Run(w, rest[..|rest| - 1]), rest[|rest| - 1];
      RunAnswers(w, rest[..|rest| - 1], s, pid);
      StepHonest(before, e);
      StepAnswers(before, e, s, pid);
    }
  }

  lemma {:induction false} RunHonest(w: World, rest: seq<Event>)
    requires AllHonest(w)
    ensures AllHonest(Run(w, rest))
    decreases |rest|
  {
    if rest != [] {
      RunHonest(w, rest[..|rest| - 1]);
      StepHonest(Run(w, rest[..|rest| - 1]), rest[|rest| - 1]);
    }
  }

  /** In any run, a stop that once waited for a child and has answered that it was stopped, gracefully or by
      force, tells the truth about that very process; it throws only after an 'error' of that child. */
  lemma {:induction false} StoppedMeansGone(before: seq<Event>, rest: seq<Event>, s: nat)
    requires var w := Run(Initial(), before); s in w.stops && w.stops[s].state.AwaitExit?
    ensures var pid := Run(Initial(), before).stops[s].state.pid;
            AnswersFor(Run(Initial(), before + rest), s, pid)
  {
    RunHonest(Initial(), before);
    RunConcat(Initial(), before, rest);
    RunAnswers(Run(Initial(), before), rest, s, Run(Initial(), before).stops[s].state.pid);
  }
}
