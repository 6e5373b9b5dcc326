/** Which rewarded tasks the settlement log accounts for. */
module RewardLog {
  import opened Wrappers
  import opened PythonText
  import opened RewardModel
  import opened RewardWrites
  import opened RewardRuns
  import opened StringSets

  ghost predicate Logged(log: seq<SettlementRecord>, taskId: string, sid: string) {
    exists j :: 0 <= j < |log| && log[j].settlementId == sid && taskId in log[j].tasksIncluded
  }

  /** The step stopped right after it had marked the tasks of a settlement, before it could log it. */
  ghost predicate StopsUnlogged(s: Store, roster: Roster, step: Step) {
    Settles3(s, roster, step.op) && step.landed == Prelude(s, roster, step.op).1 + 1
  }

  /** The settlements that were cut between marking and logging. */
  ghost function Unlogged(s: Store, roster: Roster, run: seq<Step>): set<string>
    requires ValidRun(s, roster, run)
    decreases |run|
  {
    if run == [] then {}
    else
      var before, last := run[..|run| - 1], run[|run| - 1];
      Unlogged(s, roster, before) + if StopsUnlogged(Final(s, roster, before), roster, last) then {last.op.sid} else {}
  }

  /** Every rewarded task is logged, unless its settlement is among the lost ones; and those show on the ledger. */
  ghost predicate Accounted(s: Store, lost: set<string>) {
    && (forall i :: 0 <= i < |s.ledger| && s.ledger[i].status == Rewarded && s.ledger[i].settlementId !in lost ==>
          Logged(s.settlements, s.ledger[i].taskId, s.ledger[i].settlementId))
    && (forall j :: 0 <= j < |s.settlements| ==> s.settlements[j].settlementId !in lost)
    && (forall x :: x in lost ==> OnLedger(s.ledger, x))
  }

  ghost predicate OnLedger(ledger: seq<TaskLedgerEntry>, sid: string) {
    exists i :: 0 <= i < |ledger| && ledger[i].status == Rewarded && ledger[i].settlementId == sid
  }

  /** Marking a settlement rewards its tasks under its id and leaves what was rewarded before alone. */
  lemma {:induction false} MarkRewards(ledger: seq<TaskLedgerEntry>, sid: string, i: nat)
    requires DistinctTasks(ledger) && i < |ledger|
    ensures var chosen := LastTen(Pending(ledger));
            var e := Mark(ledger, AsSet(TaskIds(chosen)), sid)[i];
            && (ledger[i].status == Rewarded ==> e == ledger[i])
            && (e.status == Rewarded ==> e == ledger[i] || (e.settlementId == sid && e.taskId in TaskIds(chosen)))
  {
    var chosen := LastTen(Pending(ledger));
    PendingFromLedger(ledger);
    if ledger[i].status == Rewarded {
      forall k | 0 <= k < |chosen| ensures chosen[k].taskId != ledger[i].taskId {
        assert chosen[k] in Pending(ledger);
      }
    }
  }

  /** A settlement of something puts its id on the ledger. */
  lemma {:induction false} MarkShows(ledger: seq<TaskLedgerEntry>, sid: string)
    requires Pending(ledger) != []
    ensures OnLedger(Mark(ledger, AsSet(TaskIds(LastTen(Pending(ledger)))), sid), sid)
  {
    var chosen := LastTen(Pending(ledger));
    PendingFromLedger(ledger);
    var e := chosen[0];
    assert e in Pending(ledger) && TaskIds(chosen)[0] == e.taskId;
    var i :| 0 <= i < |ledger| && ledger[i] == e;
    assert Mark(ledger, AsSet(TaskIds(chosen)), sid)[i].settlementId == sid;
  }

  lemma {:induction false} MarkKeepsOnLedger(ledger: seq<TaskLedgerEntry>, sid: string, x: string)
    requires DistinctTasks(ledger) && OnLedger(ledger, x)
    ensures OnLedger(Mark(ledger, AsSet(TaskIds(LastTen(Pending(ledger)))), sid), x)
  {
    var i :| 0 <= i < |ledger| && ledger[i].status == Rewarded && ledger[i].settlementId == x;
    MarkRewards(ledger, sid, i);
    var e := Mark(ledger, AsSet(TaskIds(LastTen(Pending(ledger)))), sid)[i];
    assert e.status == Rewarded && e.settlementId == x;
  }

  lemma LoggedStays(log: seq<SettlementRecord>, record: SettlementRecord, taskId: string, sid: string)
    ensures Logged(log, taskId, sid) ==> Logged(log + [record], taskId, sid)
    ensures taskId in record.tasksIncluded ==> Logged(log + [record], taskId, record.settlementId)
  {
    var more := log + [record];
    assert more[|log|] == record;
    if Logged(log, taskId, sid) {
      var j :| 0 <= j < |log| && log[j].settlementId == sid && taskId in log[j].tasksIncluded;
      assert more[j] == log[j];
    }
  }

  /** The first write of a settlement: until its record is logged, its id counts as lost. */
  lemma MarkAccounted(s: Store, roster: Roster, trigger: string, sid: string, now: nat, lost: set<string>)
    requires Inv(s) && Accounted(s, lost) && Pending(s.ledger) != []
    requires forall j :: 0 <= j < |s.settlements| ==> s.settlements[j].settlementId != sid
    ensures Accounted(SettleWrites(s, roster, trigger, sid, now)[0], lost + {sid})
  {
    var t := SettleWrites(s, roster, trigger, sid, now)[0];
    forall i | 0 <= i < |t.ledger| && t.ledger[i].status == Rewarded && t.ledger[i].settlementId !in lost + {sid}
      ensures Logged(t.settlements, t.ledger[i].taskId, t.ledger[i].settlementId)
    {
      MarkRewards(s.ledger, sid, i);
    }
    forall x | x in lost + {sid} ensures OnLedger(t.ledger, x) {
      if x == sid {
        MarkShows(s.ledger, sid);
      } else {
        MarkKeepsOnLedger(s.ledger, sid, x);
      }
    }
  }

  /** Once the record is logged, nothing of that settlement is lost. */
  lemma LogAccounted(s: Store, roster: Roster, trigger: string, sid: string, now: nat, lost: set<string>, k: nat)
    requires Inv(s) && Accounted(s, lost) && Pending(s.ledger) != [] && 2 <= k <= 3
    requires sid !in lost
    ensures Accounted(SettleState(s, roster, trigger, sid, now, k), lost)
  {
    var t := SettleState(s, roster, trigger, sid, now, k);
    var record := Settlement(Pending(s.ledger), roster, trigger, sid, now);
    assert t.settlements == s.settlements + [record];
    forall i | 0 <= i < |t.ledger| && t.ledger[i].status == Rewarded && t.ledger[i].settlementId !in lost
      ensures Logged(t.settlements, t.ledger[i].taskId, t.ledger[i].settlementId)
    {
      MarkRewards(s.ledger, sid, i);
      LoggedStays(s.settlements, record, t.ledger[i].taskId, t.ledger[i].settlementId);
    }
    forall x | x in lost ensures OnLedger(t.ledger, x) {
      MarkKeepsOnLedger(s.ledger, sid, x);
    }
  }

  /** What an operation writes before its settlement neither rewards nor logs anything. */
  lemma PreludeAccounted(s: Store, roster: Roster, op: Op, lost: set<string>)
    requires Accounted(s, lost)
    ensures Accounted(Prelude(s, roster, op).0, lost)
  {
    var p := Prelude(s, roster, op).0;
    forall x | x in lost ensures OnLedger(p.ledger, x) {
      var i :| 0 <= i < |s.ledger| && s.ledger[i].status == Rewarded && s.ledger[i].settlementId == x;
      assert p.ledger[i] == s.ledger[i];
    }
  }

  lemma SettlesSomething(s: Store, roster: Roster, op: Op)
    requires Settles3(s, roster, op)
    ensures Pending(Prelude(s, roster, op).0.ledger) != []
  {}

  lemma FreshIsNotLost(s: Store, sid: string, lost: set<string>)
    requires Accounted(s, lost) && FreshId(s, sid)
    ensures sid !in lost
  {
    assert sid in lost ==> OnLedger(s.ledger, sid);
  }

  lemma StepAccounted(s: Store, roster: Roster, step: Step, lost: set<string>)
    requires Inv(s) && ValidStep(s, roster, step) && Accounted(s, lost)
    ensures Accounted(After(s, roster, step.op, step.landed),
                      lost + if StopsUnlogged(s, roster, step) then {step.op.sid} else {})
  {
    var (p, n) := Prelude(s, roster, step.op);
    AfterAsSettle(s, roster, step.op, step.landed);
    PreludeBooks(s, roster, step.op);
    PreludeAccounted(s, roster, step.op, lost);
    OperationShape(s, roster, step.op);
    assert lost + {} == lost;
    if step.landed > n {
      var sid := step.op.sid;
      SettlesSomething(s, roster, step.op);
      FreshIsNotLost(s, sid, lost);
      if step.landed == n + 1 {
        MarkAccounted(p, roster, Trigger(step.op), sid, Clock(step.op), lost);
      } else {
        LogAccounted(p, roster, Trigger(step.op), sid, Clock(step.op), lost, step.landed - n);
      }
    }
  }

  lemma {:induction false} RunAccounted(roster: Roster, run: seq<Step>)
    requires ValidRun(EMPTY_STORE, roster, run)
    ensures Accounted(Final(EMPTY_STORE, roster, run), Unlogged(EMPTY_STORE, roster, run))
    decreases |run|
  {
    if run != [] {
      var before, last := run[..|run| - 1], run[|run| - 1];
      RunAccounted(roster, before);
      RunKeepsInv(EMPTY_STORE, roster, before);
      StepAccounted(Final(EMPTY_STORE, roster, before), roster, last, Unlogged(EMPTY_STORE, roster, before));
    }
  }

  /** A rewarded task is in the settlement log, under the id its entry carries, unless that settlement was cut
      between marking and logging; then no settlement of the log includes it. */
  lemma {:induction false} RewardedIsLoggedIff(roster: Roster, run: seq<Step>, i: nat)
    requires ValidRun(EMPTY_STORE, roster, run) && i < |Final(EMPTY_STORE, roster, run).ledger|
    requires Final(EMPTY_STORE, roster, run).ledger[i].status == Rewarded
    ensures var end := Final(EMPTY_STORE, roster, run);
            var (t, sid) := (end.ledger[i].taskId, end.ledger[i].settlementId);
            && (Logged(end.settlements, t, sid) <==> sid !in Unlogged(EMPTY_STORE, roster, run))
            && (forall j :: 0 <= j < |end.settlements| && t in end.settlements[j].tasksIncluded ==>
                  end.settlements[j].settlementId == sid)
  {
    var end := Final(EMPTY_STORE, roster, run);
    var t := end.ledger[i].taskId;
    RunAccounted(roster, run);
    RunKeepsInv(EMPTY_STORE, roster, run);
    forall j | 0 <= j < |end.settlements| && t in end.settlements[j].tasksIncluded
      ensures end.settlements[j].settlementId == end.ledger[i].settlementId
    {
      assert RewardedUnder(end.ledger, t, end.settlements[j].settlementId);
    }
  }

  ghost predicate AllLogged(s: Store) {
    forall i :: 0 <= i < |s.ledger| && s.ledger[i].status == Rewarded ==>
      Logged(s.settlements, s.ledger[i].taskId, s.ledger[i].settlementId)
  }

  lemma NothingLost(s: Store, lost: set<string>)
    requires Accounted(s, lost)
    ensures AllLogged(s) <==> lost == {}
  {
    if lost != {} {
      var x :| x in lost;
      assert OnLedger(s.ledger, x);
    }
  }

  /** The log accounts for every rewarded task exactly when no settlement was cut between its first two writes. */
  lemma {:induction false} AllLoggedIff(roster: Roster, run: seq<Step>)
    requires ValidRun(EMPTY_STORE, roster, run)
    ensures AllLogged(Final(EMPTY_STORE, roster, run)) <==> Unlogged(EMPTY_STORE, roster, run) == {}
  {
    RunAccounted(roster, run);
    NothingLost(Final(EMPTY_STORE, roster, run), Unlogged(EMPTY_STORE, roster, run));
  }

  /** In particular no run without a crash leaves a rewarded task unlogged. */
  lemma {:induction false} CrashFreeLogsAll(roster: Roster, run: seq<Step>)
    requires ValidRun(EMPTY_STORE, roster, run) && Crashes(EMPTY_STORE, roster, run) == 0
    ensures Unlogged(EMPTY_STORE, roster, run) == {}
    decreases |run|
  {
    if run != [] {
      var before, last := run[..|run| - 1], run[|run| - 1];
      CrashFreeLogsAll(roster, before);
      AfterAsSettle(Final(EMPTY_STORE, roster, before), roster, last.op, last.landed);
    }
  }

  /** One success, and a settlement that stops after its first write: the task is rewarded and in no log. */
  lemma MarkedButUnlogged(roster: Roster) returns (run: seq<Step>)
    ensures ValidRun(EMPTY_STORE, roster, run) && Crashes(EMPTY_STORE, roster, run) == 1
    ensures var end := Final(EMPTY_STORE, roster, run);
            |end.ledger| == 1 && end.ledger[0].status == Rewarded && end.settlements == []
  {
    var s := ChildTaskIsRecorded(roster);
    var first, second := Step(CHILD_TASK, 1), Step(FIVE_STARS, 1);
    run := [first, second];
    assert run[..1] == [first] && [first][..0] == [];
    assert ValidRun(EMPTY_STORE, roster, []);
    assert ValidRun(EMPTY_STORE, roster, [first]) && Final(EMPTY_STORE, roster, [first]) == s;
    assert Crashes(EMPTY_STORE, roster, [first]) == 0;
    AllPending(s.ledger);
    assert Pending(s.ledger) == s.ledger;
    assert Writes(s, roster, FIVE_STARS) == SettleWrites(s, roster, "five_star", "S2", 0);
    assert ValidStep(s, roster, second);
    assert Crashed(s, roster, second);
    assert TaskIds(s.ledger)[0] == s.ledger[0].taskId;
    assert Final(EMPTY_STORE, roster, run) == SettleWrites(s, roster, "five_star", "S2", 0)[0];
  }
}
