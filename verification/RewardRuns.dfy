/** What every run of the engine keeps, with a crash allowed after any durable write. */
module RewardRuns {
  import opened Wrappers
  import opened PythonText
  import opened RewardModel
  import opened RewardWrites
  import opened StringSets

  // ----- runs ---------------------------------------------------------------

  /** One operation together with how many of its writes reached the disk before it stopped. */
  datatype Step = Step(op: Op, landed: nat)

  /** Settlement ids are random; a run never draws one that is already on disk. */
  ghost predicate FreshId(s: Store, sid: string) {
    && (forall i :: 0 <= i < |s.ledger| ==> s.ledger[i].settlementId != sid)
    && (forall j :: 0 <= j < |s.settlements| ==> s.settlements[j].settlementId != sid)
  }

  ghost predicate ValidStep(s: Store, roster: Roster, step: Step) {
    step.landed <= |Writes(s, roster, step.op)| && FreshId(s, step.op.sid)
  }

  ghost predicate ValidRun(s: Store, roster: Roster, run: seq<Step>)
    decreases |run|, 0
  {
    run == [] ||
    (&& ValidRun(s, roster, run[..|run| - 1])
     && ValidStep(Final(s, roster, run[..|run| - 1]), roster, run[|run| - 1]))
  }

  ghost function Final(s: Store, roster: Roster, run: seq<Step>): Store
    requires ValidRun(s, roster, run)
    decreases |run|, 1
  {
    if run == [] then s
    else
      var last := run[|run| - 1];
      After(Final(s, roster, run[..|run| - 1]), roster, last.op, last.landed)
  }

  ghost predicate Crashed(s: Store, roster: Roster, step: Step) {
    step.landed < |Writes(s, roster, step.op)|
  }

  ghost function Crashes(s: Store, roster: Roster, run: seq<Step>): nat
    requires ValidRun(s, roster, run)
    decreases |run|
  {
    if run == [] then 0
    else
      var before := run[..|run| - 1];
      Crashes(s, roster, before) + if Crashed(Final(s, roster, before), roster, run[|run| - 1]) then 1 else 0
  }

  /** Settlements whose log write landed but whose pay-out write did not. */
  ghost function Unpaid(s: Store, roster: Roster, run: seq<Step>): seq<SettlementRecord>
    requires ValidRun(s, roster, run)
    decreases |run|
  {
    if run == [] then []
    else
      var before, last := run[..|run| - 1], run[|run| - 1];
      var from := Final(s, roster, before);
      Unpaid(s, roster, before) +
      if Crashed(from, roster, last) then NewlyLogged(from, After(from, roster, last.op, last.landed)) else []
  }

  function NewlyLogged(before: Store, after: Store): seq<SettlementRecord> {
    if |before.settlements| <= |after.settlements| then after.settlements[|before.settlements|..] else []
  }

  // ----- the invariant --------------------------------------------------------

  ghost predicate DistinctTasks(ledger: seq<TaskLedgerEntry>) {
    forall i, j :: 0 <= i < j < |ledger| ==> ledger[i].taskId != ledger[j].taskId
  }

  ghost predicate DistinctMemories(ms: seq<AgentRewardMemory>) {
    forall i, j :: 0 <= i < j < |ms| ==> ms[i].agentId != ms[j].agentId
  }

  /** Task id was a success, and is marked rewarded under this settlement. */
  ghost predicate RewardedUnder(ledger: seq<TaskLedgerEntry>, taskId: string, sid: string) {
    exists i :: 0 <= i < |ledger| && ledger[i].taskId == taskId && ledger[i].status == Rewarded
                && ledger[i].settlementId == sid && ledger[i].qualityOutcome == "success"
  }

  ghost predicate LogBacked(s: Store) {
    forall j, t :: 0 <= j < |s.settlements| && t in s.settlements[j].tasksIncluded ==>
      RewardedUnder(s.ledger, t, s.settlements[j].settlementId)
  }

  ghost predicate DistinctLog(log: seq<SettlementRecord>) {
    && (forall i, j :: 0 <= i < j < |log| ==> log[i].settlementId != log[j].settlementId)
    && (forall j, a, b :: 0 <= j < |log| && 0 <= a < b < |log[j].tasksIncluded| ==>
          log[j].tasksIncluded[a] != log[j].tasksIncluded[b])
  }

  /** Every reward is a whole multiple of 500: 1000, 2000 or 3000, halved for a child. */
  ghost predicate WholeRewards(ledger: seq<TaskLedgerEntry>) {
    forall i :: 0 <= i < |ledger| ==> ledger[i].effectiveReward % 500 == 0 && ledger[i].effectiveReward > 0
  }

  ghost predicate Inv(s: Store) {
    && DistinctTasks(s.ledger) && DistinctMemories(s.rewards)
    && LogBacked(s) && DistinctLog(s.settlements) && WholeRewards(s.ledger)
  }

  // ----- ledger lemmas ------------------------------------------------------

  lemma {:induction false} RewardedAppend(ledger: seq<TaskLedgerEntry>, e: TaskLedgerEntry)
    ensures RewardedTotal(ledger + [e]) == RewardedTotal(ledger) + if e.status == Rewarded then e.effectiveReward else 0
  {
    if ledger == [] {
      assert ledger + [e] == [e];
    } else {
      RewardedAppend(ledger[1..], e);
      assert (ledger + [e])[1..] == ledger[1..] + [e];
    }
  }

  lemma {:induction false} PendingFromLedger(ledger: seq<TaskLedgerEntry>)
    ensures forall e :: e in Pending(ledger) ==> e in ledger && IsPending(e)
    ensures DistinctTasks(ledger) ==> DistinctTasks(Pending(ledger))
  {
    if ledger != [] {
      var e, q := ledger[0], Pending(ledger[1..]);
      PendingFromLedger(ledger[1..]);
      if DistinctTasks(ledger) {
        forall j | 0 <= j < |q| ensures e.taskId != q[j].taskId {
          assert q[j] in ledger[1..];
        }
        assert DistinctTasks(q);
      }
    }
  }

  lemma MarkCons(e: TaskLedgerEntry, rest: seq<TaskLedgerEntry>, ids: set<string>, sid: string)
    ensures Mark([e] + rest, ids, sid) == [MarkEntry(e, ids, sid)] + Mark(rest, ids, sid)
  {}

  /** Settling `chosen` leaves exactly `keep` pending and adds exactly the chosen rewards. */
  ghost predicate Settles(ledger: seq<TaskLedgerEntry>, keep: seq<TaskLedgerEntry>, chosen: seq<TaskLedgerEntry>,
                          sid: string) {
    var marked := Mark(ledger, AsSet(TaskIds(chosen)), sid);
    Pending(marked) == keep && RewardedTotal(marked) == RewardedTotal(ledger) + SumEffective(chosen)
  }

  lemma {:induction false} MarkSuffix(ledger: seq<TaskLedgerEntry>, keep: seq<TaskLedgerEntry>,
                                      chosen: seq<TaskLedgerEntry>, sid: string)
    requires DistinctTasks(ledger) && Pending(ledger) == keep + chosen
    ensures Settles(ledger, keep, chosen, sid)
  {
    if ledger != [] {
      var e, rest := ledger[0], ledger[1..];
      assert ledger == [e] + rest;
      LedgerCons(e, rest);
      PendingFromLedger(rest);
      var p := keep + chosen;
      assert IsPending(e) ==> p[0] == e && p[1..] == Pending(rest);
      if IsPending(e) && keep == [] {
        assert chosen == [e] + chosen[1..];
        MarkSuffix(rest, [], chosen[1..], sid);
        MarkSuffixChosen(e, rest, chosen[1..], sid);
      } else {
        var kept := if IsPending(e) then keep[1..] else keep;
        assert keep == (if IsPending(e) then [e] else []) + kept;
        assert Pending(rest) == kept + chosen;
        MarkSuffix(rest, kept, chosen, sid);
        MarkSuffixKept(e, rest, kept, chosen, sid);
      }
    }
  }

  /** The first entry is left alone: everything chosen lies in the rest of the ledger. */
  lemma MarkSuffixKept(e: TaskLedgerEntry, rest: seq<TaskLedgerEntry>, kept: seq<TaskLedgerEntry>,
                       chosen: seq<TaskLedgerEntry>, sid: string)
    requires forall i :: 0 <= i < |rest| ==> rest[i].taskId != e.taskId
    requires forall x :: x in chosen ==> x in rest
    requires Settles(rest, kept, chosen, sid)
    ensures Settles([e] + rest, (if IsPending(e) then [e] else []) + kept, chosen, sid)
  {
    NotAmong(chosen, rest, e.taskId);
    var ids := AsSet(TaskIds(chosen));
    MarkCons(e, rest, ids, sid);
    LedgerCons(e, rest);
    LedgerCons(e, Mark(rest, ids, sid));
  }

  /** The first entry is settled along with every pending entry behind it. */
  lemma MarkSuffixChosen(e: TaskLedgerEntry, rest: seq<TaskLedgerEntry>, chosen: seq<TaskLedgerEntry>, sid: string)
    requires forall i :: 0 <= i < |rest| ==> rest[i].taskId != e.taskId
    requires IsPending(e) && Settles(rest, [], chosen, sid)
    ensures Settles([e] + rest, [], [e] + chosen, sid)
  {
    LedgerCons(e, rest);
    LedgerCons(e, chosen);
    IdsCons(e, chosen);
    var ids := AsSet(TaskIds(chosen)) + {e.taskId};
    MarkIgnoresStrangers(rest, AsSet(TaskIds(chosen)), e.taskId, sid);
    MarkCons(e, rest, ids, sid);
    LedgerCons(MarkEntry(e, ids, sid), Mark(rest, ids, sid));
  }

  lemma MarkIgnoresStrangers(ledger: seq<TaskLedgerEntry>, ids: set<string>, id: string, sid: string)
    requires forall i :: 0 <= i < |ledger| ==> ledger[i].taskId != id
    ensures Mark(ledger, ids + {id}, sid) == Mark(ledger, ids, sid)
  {}

  lemma NotAmong(chosen: seq<TaskLedgerEntry>, rest: seq<TaskLedgerEntry>, id: string)
    requires forall e :: e in chosen ==> e in rest
    requires forall i :: 0 <= i < |rest| ==> rest[i].taskId != id
    ensures id !in TaskIds(chosen)
  {
    forall i | 0 <= i < |chosen| ensures TaskIds(chosen)[i] != id {
      assert chosen[i] in rest;
    }
  }

  lemma IdsCons(e: TaskLedgerEntry, q: seq<TaskLedgerEntry>)
    ensures AsSet(TaskIds([e] + q)) == AsSet(TaskIds(q)) + {e.taskId}
  {
    assert TaskIds([e] + q) == [e.taskId] + TaskIds(q);
  }

  lemma {:induction false} SettleLedger(ledger: seq<TaskLedgerEntry>, sid: string)
    requires DistinctTasks(ledger)
    ensures var p := Pending(ledger); Settles(ledger, p[..|p| - |LastTen(p)|], LastTen(p), sid)
  {
    var p := Pending(ledger);
    assert p == p[..|p| - |LastTen(p)|] + LastTen(p);
    MarkSuffix(ledger, p[..|p| - |LastTen(p)|], LastTen(p), sid);
  }

  // ----- per-agent totals -----------------------------------------------------

  lemma {:induction false} FindByMembership(ms: seq<AgentRewardMemory>, a: string)
    requires DistinctMemories(ms)
    ensures Find(ms, a).Some? ==> Find(ms, a).value in ms && Find(ms, a).value.agentId == a
    ensures forall m :: m in ms && m.agentId == a ==> Find(ms, a) == Some(m)
  {
    if ms != [] {
      FindByMembership(ms[..|ms| - 1], a);
    }
  }

  lemma {:induction false} WithoutProperties(ms: seq<AgentRewardMemory>, a: string)
    requires DistinctMemories(ms)
    ensures forall m :: m in Without(ms, a) <==> m in ms && m.agentId != a
    ensures DistinctMemories(Without(ms, a))
  {
    if ms != [] {
      WithoutProperties(ms[1..], a);
    }
  }

  ghost predicate Names(ms: seq<AgentRewardMemory>, a: string) {
    exists m :: m in ms && m.agentId == a
  }

  /** An upsert of distinct records keeps ids distinct, installs every update and keeps every other record. */
  lemma {:induction false} UpsertProperties(entries: seq<AgentRewardMemory>, updates: seq<AgentRewardMemory>)
    requires DistinctMemories(entries) && DistinctMemories(updates)
    ensures DistinctMemories(Upsert(entries, updates))
    ensures forall m :: m in Upsert(entries, updates) <==> m in updates || (m in entries && !Names(updates, m.agentId))
    decreases |entries|, 1
  {
    if entries != [] {
      if Find(updates, entries[0].agentId).Some? {
        UpsertHit(entries, updates);
      } else {
        UpsertMiss(entries, updates);
      }
    }
  }

  lemma {:induction false} UpsertMiss(entries: seq<AgentRewardMemory>, updates: seq<AgentRewardMemory>)
    requires DistinctMemories(entries) && DistinctMemories(updates)
    requires entries != [] && Find(updates, entries[0].agentId).None?
    ensures DistinctMemories(Upsert(entries, updates))
    ensures forall m :: m in Upsert(entries, updates) <==> m in updates || (m in entries && !Names(updates, m.agentId))
    decreases |entries|, 0
  {
    var id, rest := entries[0].agentId, entries[1..];
    assert forall m :: m in entries <==> m == entries[0] || m in rest;
    assert forall m :: m in rest ==> m.agentId != id;
    FindByMembership(updates, id);
    UpsertProperties(rest, updates);
    var tail := Upsert(rest, updates);
    assert Upsert(entries, updates) == [entries[0]] + tail;
    assert !Names(updates, id);
    forall m | m in tail ensures m.agentId != id {
      assert m in updates || m in rest;
    }
  }

  lemma {:induction false} UpsertHit(entries: seq<AgentRewardMemory>, updates: seq<AgentRewardMemory>)
    requires DistinctMemories(entries) && DistinctMemories(updates)
    requires entries != [] && Find(updates, entries[0].agentId).Some?
    ensures DistinctMemories(Upsert(entries, updates))
    ensures forall m :: m in Upsert(entries, updates) <==> m in updates || (m in entries && !Names(updates, m.agentId))
    decreases |entries|, 0
  {
    var id, rest := entries[0].agentId, entries[1..];
    assert forall m :: m in entries <==> m == entries[0] || m in rest;
    assert forall m :: m in rest ==> m.agentId != id;
    FindByMembership(updates, id);
    var left := Without(updates, id);
    WithoutProperties(updates, id);
    UpsertProperties(rest, left);
    var out := Upsert(entries, updates);
    var u := Find(updates, id).value;
    assert out == [u] + Upsert(rest, left);
    forall m | m in rest ensures Names(updates, m.agentId) <==> Names(left, m.agentId) {
      if x :| x in updates && x.agentId == m.agentId {
        assert x in left;
      }
    }
    assert Names(updates, id);
  }

  lemma {:induction false} ShareOfRoster(shares: seq<Share>, roster: Roster, i: nat)
    requires |shares| == |roster| && i < |roster|
    requires forall j :: 0 <= j < |roster| ==> shares[j].agentId == roster[j].agentId
    ensures ShareOf(shares, roster[i].agentId) == shares[i].amount
  {
    if i > 0 {
      assert DistinctAgents(roster[1..]);
      ShareOfRoster(shares[1..], roster[1..], i - 1);
    }
  }

  lemma {:induction false} ShareOfStranger(shares: seq<Share>, a: string)
    requires forall j :: 0 <= j < |shares| ==> shares[j].agentId != a
    ensures ShareOf(shares, a) == 0
  {
    if shares != [] {
      ShareOfStranger(shares[1..], a);
    }
  }

  /** The updates of a pay-out are one record for each agent, in roster order. */
  lemma PaidIds(rewards: seq<AgentRewardMemory>, roster: Roster, shares: seq<Share>)
    requires DistinctMemories(rewards) && |shares| == |roster|
    ensures var updates := PaidMemories(rewards, roster, shares);
            && DistinctMemories(updates)
            && forall i :: 0 <= i < |roster| ==> updates[i].agentId == roster[i].agentId
  {
    forall i | 0 <= i < |roster| ensures PaidMemories(rewards, roster, shares)[i].agentId == roster[i].agentId {
      FindByMembership(rewards, roster[i].agentId);
    }
  }

  /** A pay-out adds each agent's share to that agent's lifetime total, and touches nobody else's. */
  lemma {:induction false} PayoutAddsShares(rewards: seq<AgentRewardMemory>, roster: Roster, effectiveSum: nat,
                                            a: string)
    requires DistinctMemories(rewards)
    ensures var shares := Shares(effectiveSum, roster);
            var out := Upsert(rewards, PaidMemories(rewards, roster, shares));
            DistinctMemories(out) && LifetimeReward(out, a) == LifetimeReward(rewards, a) + ShareOf(shares, a)
  {
    var shares := Shares(effectiveSum, roster);
    var updates := PaidMemories(rewards, roster, shares);
    PaidIds(rewards, roster, shares);
    UpsertProperties(rewards, updates);
    var out := Upsert(rewards, updates);
    FindByMembership(rewards, a);
    FindByMembership(out, a);
    if i :| 0 <= i < |roster| && roster[i].agentId == a {
      ShareOfRoster(shares, roster, i);
      assert updates[i] in updates;
    } else {
      ShareOfStranger(shares, a);
      assert !Names(updates, a);
    }
  }

  /** After a pay-out every agent of the roster has one record, with the roster's role and multiplier and the share
      added to what it had; the counters of an old record stay, and those of a new one are zero. */
  lemma {:induction false} PayoutRecords(rewards: seq<AgentRewardMemory>, roster: Roster, shares: seq<Share>, i: nat)
    requires DistinctMemories(rewards) && |shares| == |roster| && i < |roster|
    ensures var (was, now) := (Find(rewards, roster[i].agentId),
                               Find(Upsert(rewards, PaidMemories(rewards, roster, shares)), roster[i].agentId));
            && now.Some? && now.value.agentId == roster[i].agentId
            && now.value.role == roster[i].role && now.value.multiplier == roster[i].multiplier
            && now.value.lifetimeReward == shares[i].amount + (if was.Some? then was.value.lifetimeReward else 0)
            && now.value.unrewardedTaskCount == (if was.Some? then was.value.unrewardedTaskCount else 0)
            && now.value.unrewardedRewardTotal == (if was.Some? then was.value.unrewardedRewardTotal else 0)
  {
    var updates := PaidMemories(rewards, roster, shares);
    PaidIds(rewards, roster, shares);
    UpsertProperties(rewards, updates);
    FindByMembership(rewards, roster[i].agentId);
    FindByMembership(Upsert(rewards, updates), roster[i].agentId);
    assert updates[i] in updates;
  }

  /** Whoever is not on the roster keeps the record it had, or has none still. */
  lemma {:induction false} StrangersKeepRecords(rewards: seq<AgentRewardMemory>, roster: Roster, shares: seq<Share>,
                                                a: string)
    requires DistinctMemories(rewards) && |shares| == |roster|
    requires forall i :: 0 <= i < |roster| ==> roster[i].agentId != a
    ensures Find(Upsert(rewards, PaidMemories(rewards, roster, shares)), a) == Find(rewards, a)
  {
    var updates := PaidMemories(rewards, roster, shares);
    var out := Upsert(rewards, updates);
    PaidIds(rewards, roster, shares);
    UpsertProperties(rewards, updates);
    FindByMembership(rewards, a);
    FindByMembership(out, a);
    assert !Names(updates, a);
    assert Find(rewards, a).Some? ==> Find(rewards, a).value in out;
  }

  // ----- the invariant is kept at every write -------------------------------------

  lemma AppendKeepsInv(s: Store, e: TaskLedgerEntry)
    requires Inv(s) && !Recorded(s.ledger, e.taskId)
    requires e.effectiveReward % 500 == 0 && e.effectiveReward > 0
    ensures Inv(s.(ledger := s.ledger + [e]))
  {
    var s' := s.(ledger := s.ledger + [e]);
    forall j, t | 0 <= j < |s.settlements| && t in s.settlements[j].tasksIncluded
      ensures RewardedUnder(s'.ledger, t, s.settlements[j].settlementId)
    {
      var sid := s.settlements[j].settlementId;
      var i :| 0 <= i < |s.ledger| && s.ledger[i].taskId == t && s.ledger[i].status == Rewarded
               && s.ledger[i].settlementId == sid && s.ledger[i].qualityOutcome == "success";
      assert s'.ledger[i] == s.ledger[i];
    }
  }

  lemma MarkKeepsInv(s: Store, sid: string)
    requires Inv(s)
    ensures var chosen := LastTen(Pending(s.ledger));
            var s' := s.(ledger := Mark(s.ledger, AsSet(TaskIds(chosen)), sid));
            && Inv(s')
            && forall t :: t in TaskIds(chosen) ==> RewardedUnder(s'.ledger, t, sid)
  {
    var chosen := LastTen(Pending(s.ledger));
    var ids := AsSet(TaskIds(chosen));
    var s' := s.(ledger := Mark(s.ledger, ids, sid));
    PendingFromLedger(s.ledger);
    forall j, t | 0 <= j < |s.settlements| && t in s.settlements[j].tasksIncluded
      ensures RewardedUnder(s'.ledger, t, s.settlements[j].settlementId)
    {
      var old_sid := s.settlements[j].settlementId;
      var i :| 0 <= i < |s.ledger| && s.ledger[i].taskId == t && s.ledger[i].status == Rewarded
               && s.ledger[i].settlementId == old_sid && s.ledger[i].qualityOutcome == "success";
      forall k | 0 <= k < |chosen| ensures TaskIds(chosen)[k] != t {
        assert chosen[k] in Pending(s.ledger);
      }
      assert s'.ledger[i] == s.ledger[i];
    }
    forall t | t in TaskIds(chosen) ensures RewardedUnder(s'.ledger, t, sid) {
      var k :| 0 <= k < |chosen| && TaskIds(chosen)[k] == t;
      assert chosen[k] in Pending(s.ledger);
      var i :| 0 <= i < |s.ledger| && s.ledger[i] == chosen[k];
      assert s'.ledger[i] == MarkEntry(s.ledger[i], ids, sid);
    }
  }

  lemma LogKeepsInv(s: Store, record: SettlementRecord)
    requires Inv(s)
    requires forall j :: 0 <= j < |s.settlements| ==> s.settlements[j].settlementId != record.settlementId
    requires forall t :: t in record.tasksIncluded ==> RewardedUnder(s.ledger, t, record.settlementId)
    requires forall a, b :: 0 <= a < b < |record.tasksIncluded| ==> record.tasksIncluded[a] != record.tasksIncluded[b]
    ensures Inv(s.(settlements := s.settlements + [record]))
  {}

  ghost predicate AllInv(states: seq<Store>) {
    forall i :: 0 <= i < |states| ==> Inv(states[i])
  }

  lemma SettleKeepsInv(s: Store, roster: Roster, trigger: string, sid: string, now: nat)
    requires Inv(s) && forall j :: 0 <= j < |s.settlements| ==> s.settlements[j].settlementId != sid
    ensures AllInv(SettleWrites(s, roster, trigger, sid, now))
  {
    var w := SettleWrites(s, roster, trigger, sid, now);
    var chosen := LastTen(Pending(s.ledger));
    var record := Settlement(Pending(s.ledger), roster, trigger, sid, now);
    MarkKeepsInv(s, sid);
    PendingFromLedger(s.ledger);
    LogKeepsInv(w[0], record);
    PayoutAddsShares(s.rewards, roster, SumEffective(chosen), "");
    assert w[2] == w[1].(rewards := w[2].rewards);
  }

  lemma PrependInv(first: Store, rest: seq<Store>)
    requires Inv(first) && AllInv(rest)
    ensures AllInv([first] + rest)
  {}

  lemma RecordingKeepsInv(s: Store, roster: Roster, op: Op)
    requires Inv(s) && FreshId(s, op.sid) && op.Complete? && Writes(s, roster, op) != []
    ensures AllInv(Writes(s, roster, op))
  {
    var e := NewEntry(op.taskId, op.difficulty, op.parentTaskId, op.quality, op.now);
    var appended := s.(ledger := s.ledger + [e]);
    NewEntryReward(op.taskId, op.difficulty, op.parentTaskId, op.quality, op.now);
    AppendKeepsInv(s, e);
    SettleKeepsInv(appended, roster, "streak", op.sid, op.now);
    PrependInv(appended, SettleWrites(appended, roster, "streak", op.sid, op.now));
  }

  /** Each of the disk states an operation passes through satisfies the invariant. */
  lemma EveryWriteKeepsInv(s: Store, roster: Roster, op: Op)
    requires Inv(s) && FreshId(s, op.sid)
    ensures AllInv(Writes(s, roster, op))
  {
    match op
    case Complete(taskId, difficulty, parent, quality, sid, now) =>
      if Writes(s, roster, op) != [] {
        RecordingKeepsInv(s, roster, op);
      }
    case Settle(trigger, sid, now) => SettleKeepsInv(s, roster, trigger, sid, now);
    case Feedback(event, sid) =>
      var noted := s.(feedback := s.feedback + [event]);
      assert Inv(noted);
      SettleKeepsInv(noted, roster, "five_star", sid, event.createdAt);
      PrependInv(noted, ManualWrites(noted, roster, "five_star", sid, event.createdAt));
  }

  lemma StepKeepsInv(s: Store, roster: Roster, step: Step)
    requires Inv(s) && ValidStep(s, roster, step)
    ensures Inv(After(s, roster, step.op, step.landed))
  {
    EveryWriteKeepsInv(s, roster, step.op);
  }

  // ----- what one operation does to the books ------------------------------------

  function SettleState(s: Store, roster: Roster, trigger: string, sid: string, now: nat, k: nat): Store
    requires k <= 3
  {
    if k == 0 then s else SettleWrites(s, roster, trigger, sid, now)[k - 1]
  }

  ghost function SettleSum(s: Store): nat {
    SumEffective(LastTen(Pending(s.ledger)))
  }

  /** Where the money is after the first k writes of a settlement. */
  lemma {:induction false} SettleBooks(s: Store, roster: Roster, trigger: string, sid: string, now: nat, k: nat,
                                       a: string)
    requires Inv(s) && k <= 3
    ensures var t := SettleState(s, roster, trigger, sid, now, k);
            var record := Settlement(Pending(s.ledger), roster, trigger, sid, now);
            var share := ShareOf(Shares(SettleSum(s), roster), a);
            && t.settlements == s.settlements + (if k >= 2 then [record] else [])
            && NewlyLogged(s, t) == (if k >= 2 then [record] else [])
            && LoggedReward(t.settlements, a) == LoggedReward(s.settlements, a) + (if k >= 2 then share else 0)
            && LoggedReward([record], a) == share
            && LifetimeReward(t.rewards, a) == LifetimeReward(s.rewards, a) + (if k == 3 then share else 0)
            && RewardedTotal(t.ledger) == RewardedTotal(s.ledger) + (if k >= 1 then SettleSum(s) else 0)
            && |Pending(t.ledger)| == |Pending(s.ledger)| - (if k >= 1 then |LastTen(Pending(s.ledger))| else 0)
  {
    var record := Settlement(Pending(s.ledger), roster, trigger, sid, now);
    var t := SettleState(s, roster, trigger, sid, now, k);
    SettleLedger(s.ledger, sid);
    PayoutAddsShares(s.rewards, roster, SettleSum(s), a);
    assert [record][..0] == [];
    assert (s.settlements + [record])[..|s.settlements|] == s.settlements;
    assert t.settlements == s.settlements + (if k >= 2 then [record] else []);
  }

  /** What an operation did before its settlement began: the disk, and how many writes that took. */
  ghost function Prelude(s: Store, roster: Roster, op: Op): (Store, nat) {
    match op
    case Settle(_, _, _) => (s, 0)
    case Feedback(event, _) =>
      if Writes(s, roster, op) == [] then (s, 0) else (s.(feedback := s.feedback + [event]), 1)
    case Complete(taskId, difficulty, parent, quality, _, now) =>
      if Writes(s, roster, op) == [] then (s, 0)
      else (s.(ledger := s.ledger + [NewEntry(taskId, difficulty, parent, quality, now)]), 1)
  }

  ghost function Trigger(op: Op): string {
    match op
    case Settle(trigger, _, _) => trigger
    case Feedback(_, _) => "five_star"
    case Complete(_, _, _, _, _, _) => "streak"
  }

  ghost function Clock(op: Op): nat {
    match op
    case Settle(_, _, now) => now
    case Feedback(event, _) => event.createdAt
    case Complete(_, _, _, _, _, now) => now
  }

  ghost predicate Settles3(s: Store, roster: Roster, op: Op) {
    |Writes(s, roster, op)| >= 3
  }

  /** Every operation is an optional first write followed by nothing or by one settlement. */
  lemma OperationShape(s: Store, roster: Roster, op: Op)
    ensures var (p, n) := Prelude(s, roster, op);
            && p.settlements == s.settlements && p.rewards == s.rewards
            && Writes(s, roster, op) == (if n == 1 then [p] else []) +
               if Settles3(s, roster, op) then SettleWrites(p, roster, Trigger(op), op.sid, Clock(op)) else []
  {}

  lemma NewEntryReward(taskId: string, difficulty: string, parentTaskId: string, quality: string, now: nat)
    requires DifficultyReward(difficulty).Some?
    ensures var e := NewEntry(taskId, difficulty, parentTaskId, quality, now);
            e.effectiveReward % 500 == 0 && e.effectiveReward > 0
  {}

  /** A completion that is recorded appends one entry that no settlement has touched. */
  lemma RecordedEntry(s: Store, roster: Roster, op: Op)
    requires Inv(s) && op.Complete? && Writes(s, roster, op) != []
    ensures var p := Prelude(s, roster, op).0;
            && Inv(p) && RewardedTotal(p.ledger) == RewardedTotal(s.ledger)
            && |Pending(s.ledger)| <= |Pending(p.ledger)| <= |Pending(s.ledger)| + 1
            && (op.quality != "success" ==> |Pending(p.ledger)| == |Pending(s.ledger)|)
  {
    var e := NewEntry(op.taskId, op.difficulty, op.parentTaskId, op.quality, op.now);
    NewEntryReward(op.taskId, op.difficulty, op.parentTaskId, op.quality, op.now);
    AppendKeepsInv(s, e);
    PendingAppend(s.ledger, e);
    RewardedAppend(s.ledger, e);
  }

  lemma PreludeBooks(s: Store, roster: Roster, op: Op)
    requires Inv(s)
    ensures var (p, n) := Prelude(s, roster, op);
            && Inv(p)
            && RewardedTotal(p.ledger) == RewardedTotal(s.ledger)
            && |Pending(s.ledger)| <= |Pending(p.ledger)| <= |Pending(s.ledger)| + 1
            && (!Settles3(s, roster, op) ==>
                  |Pending(p.ledger)| == |Pending(s.ledger)| || |Pending(p.ledger)| < SETTLEMENT_STREAK_THRESHOLD)
  {
    if op.Complete? && Writes(s, roster, op) != [] {
      RecordedEntry(s, roster, op);
    }
  }

  /** The state an operation stopped in, as its prelude followed by k writes of its settlement. */
  lemma AfterAsSettle(s: Store, roster: Roster, op: Op, landed: nat)
    requires landed <= |Writes(s, roster, op)|
    ensures var (p, n) := Prelude(s, roster, op);
            && n <= 1
            && (landed < n ==> After(s, roster, op, landed) == s)
            && (landed >= n && !Settles3(s, roster, op) ==> After(s, roster, op, landed) == p)
            && (landed >= n && Settles3(s, roster, op) ==>
                  landed - n <= 3 && After(s, roster, op, landed) ==
                    SettleState(p, roster, Trigger(op), op.sid, Clock(op), landed - n))
            && |Writes(s, roster, op)| == n + if Settles3(s, roster, op) then 3 else 0
  {
    OperationShape(s, roster, op);
    var (p, n) := Prelude(s, roster, op);
    var rest := if Settles3(s, roster, op) then SettleWrites(p, roster, Trigger(op), op.sid, Clock(op)) else [];
    if landed > n {
      AfterFirst(Writes(s, roster, op), if n == 1 then [p] else [], rest, landed);
    } else if landed == n == 1 {
      assert Writes(s, roster, op)[0] == p;
    }
  }

  lemma AfterFirst<T>(all: seq<T>, first: seq<T>, rest: seq<T>, k: nat)
    requires all == first + rest && |first| < k <= |all|
    ensures all[k - 1] == rest[k - |first| - 1]
  {}

  /** Between s and t the log grew by what was paid out plus what was lost. */
  ghost predicate Balanced(s: Store, t: Store, lost: seq<SettlementRecord>, a: string) {
    LoggedReward(t.settlements, a) - LoggedReward(s.settlements, a) ==
    LifetimeReward(t.rewards, a) - LifetimeReward(s.rewards, a) + LoggedReward(lost, a)
  }

  lemma SettleBalanced(p: Store, roster: Roster, trigger: string, sid: string, now: nat, k: nat, a: string)
    requires Inv(p) && k <= 3
    ensures var t := SettleState(p, roster, trigger, sid, now, k);
            Balanced(p, t, if k < 3 then NewlyLogged(p, t) else [], a)
  {
    SettleBooks(p, roster, trigger, sid, now, k, a);
  }

  /** Lifetime totals lag the settlement log by exactly what a crash cost. */
  lemma StepConserves(s: Store, roster: Roster, step: Step, a: string)
    requires Inv(s) && ValidStep(s, roster, step)
    ensures var t := After(s, roster, step.op, step.landed);
            Balanced(s, t, if Crashed(s, roster, step) then NewlyLogged(s, t) else [], a)
  {
    var (p, n) := Prelude(s, roster, step.op);
    var t := After(s, roster, step.op, step.landed);
    PreludeBooks(s, roster, step.op);
    OperationShape(s, roster, step.op);
    AfterAsSettle(s, roster, step.op, step.landed);
    if step.landed >= n && Settles3(s, roster, step.op) {
      SettleBalanced(p, roster, Trigger(step.op), step.op.sid, Clock(step.op), step.landed - n, a);
      SameBooks(s, p, t, a);
    } else {
      NoBooks(s, t, a);
    }
  }

  lemma SameBooks(s: Store, p: Store, t: Store, a: string)
    requires p.settlements == s.settlements && p.rewards == s.rewards
    ensures NewlyLogged(s, t) == NewlyLogged(p, t)
    ensures forall lost :: Balanced(s, t, lost, a) <==> Balanced(p, t, lost, a)
  {}

  lemma NoBooks(s: Store, t: Store, a: string)
    requires t.settlements == s.settlements && t.rewards == s.rewards
    ensures NewlyLogged(s, t) == [] && Balanced(s, t, [], a)
  {}

  lemma StepPending(s: Store, roster: Roster, step: Step)
    requires Inv(s) && ValidStep(s, roster, step)
    ensures var before, after := |Pending(s.ledger)|, |Pending(After(s, roster, step.op, step.landed).ledger)|;
            && after <= before + 1
            && (!Crashed(s, roster, step) ==> after < SETTLEMENT_STREAK_THRESHOLD || after <= before)
  {
    var (p, n) := Prelude(s, roster, step.op);
    PreludeBooks(s, roster, step.op);
    AfterAsSettle(s, roster, step.op, step.landed);
    if step.landed >= n && Settles3(s, roster, step.op) {
      SettlePending(p, roster, Trigger(step.op), step.op.sid, Clock(step.op), step.landed - n);
    }
  }

  lemma SettlePending(p: Store, roster: Roster, trigger: string, sid: string, now: nat, k: nat)
    requires Inv(p) && k <= 3
    ensures |Pending(SettleState(p, roster, trigger, sid, now, k).ledger)|
            == |Pending(p.ledger)| - (if k >= 1 then |LastTen(Pending(p.ledger))| else 0)
  {
    SettleBooks(p, roster, trigger, sid, now, k, "");
  }

  // ----- theorems over whole runs --------------------------------------------------

  lemma {:induction false} RunKeepsInv(s: Store, roster: Roster, run: seq<Step>)
    requires Inv(s) && ValidRun(s, roster, run)
    ensures Inv(Final(s, roster, run))
    decreases |run|
  {
    if run != [] {
      RunKeepsInv(s, roster, run[..|run| - 1]);
      StepKeepsInv(Final(s, roster, run[..|run| - 1]), roster, run[|run| - 1]);
    }
  }

  /** However often the engine crashes, no task is paid for by two settlements. */
  lemma {:induction false} AtMostOncePerTask(roster: Roster, run: seq<Step>, i: nat, j: nat, t: string)
    requires ValidRun(EMPTY_STORE, roster, run)
    requires var log := Final(EMPTY_STORE, roster, run).settlements;
             i < |log| && j < |log| && t in log[i].tasksIncluded && t in log[j].tasksIncluded
    ensures i == j
    ensures var end := Final(EMPTY_STORE, roster, run);
            RewardedUnder(end.ledger, t, end.settlements[i].settlementId)
  {
    RunKeepsInv(EMPTY_STORE, roster, run);
    var end := Final(EMPTY_STORE, roster, run);
    assert RewardedUnder(end.ledger, t, end.settlements[i].settlementId);
    assert RewardedUnder(end.ledger, t, end.settlements[j].settlementId);
  }

  lemma {:induction false} LoggedRewardConcat(x: seq<SettlementRecord>, y: seq<SettlementRecord>, a: string)
    ensures LoggedReward(x + y, a) == LoggedReward(x, a) + LoggedReward(y, a)
    decreases |y|
  {
    if y == [] {
      assert x + y == x;
    } else {
      assert (x + y)[..|x + y| - 1] == x + y[..|y| - 1];
      LoggedRewardConcat(x, y[..|y| - 1], a);
    }
  }

  /** An agent's lifetime total plus the pay-outs lost to crashes is exactly what the log says was earned. */
  lemma {:induction false} Conservation(roster: Roster, run: seq<Step>, a: string)
    requires ValidRun(EMPTY_STORE, roster, run)
    ensures var end := Final(EMPTY_STORE, roster, run);
            && LifetimeReward(end.rewards, a) + LoggedReward(Unpaid(EMPTY_STORE, roster, run), a)
               == LoggedReward(end.settlements, a)
            && LifetimeReward(end.rewards, a) <= LoggedReward(end.settlements, a)
    decreases |run|
  {
    if run != [] {
      var before, last := run[..|run| - 1], run[|run| - 1];
      var from := Final(EMPTY_STORE, roster, before);
      Conservation(roster, before, a);
      RunKeepsInv(EMPTY_STORE, roster, before);
      StepConserves(from, roster, last, a);
      var lost := if Crashed(from, roster, last) then NewlyLogged(from, After(from, roster, last.op, last.landed)) else [];
      LoggedRewardConcat(Unpaid(EMPTY_STORE, roster, before), lost, a);
    }
  }

  /** At most nine pending successes, plus one for each crash. */
  lemma {:induction false} PendingBound(roster: Roster, run: seq<Step>)
    requires ValidRun(EMPTY_STORE, roster, run)
    ensures |Pending(Final(EMPTY_STORE, roster, run).ledger)|
            < 10 + Crashes(EMPTY_STORE, roster, run)
    decreases |run|
  {
    if run != [] {
      var before, last := run[..|run| - 1], run[|run| - 1];
      PendingBound(roster, before);
      RunKeepsInv(EMPTY_STORE, roster, before);
      StepPending(Final(EMPTY_STORE, roster, before), roster, last);
    }
  }

  // ----- the bound is reached ---------------------------------------------------

  function PileName(k: nat): string {
    seq(k + 1, _ => 'a')
  }

  function PileTask(k: nat): Op {
    Complete(PileName(k), "easy", "", "success", "S", k)
  }

  /** n recorded successes, none of which any settlement has touched. */
  ghost predicate Piled(s: Store, n: nat) {
    && |s.ledger| == n && s.settlements == []
    && forall i :: 0 <= i < n ==> s.ledger[i].taskId == PileName(i) && IsPending(s.ledger[i]) && s.ledger[i].settlementId == ""
  }

  lemma {:induction false} AllPending(ledger: seq<TaskLedgerEntry>)
    requires forall i :: 0 <= i < |ledger| ==> IsPending(ledger[i])
    ensures Pending(ledger) == ledger
  {
    if ledger != [] {
      AllPending(ledger[1..]);
    }
  }

  /** The next success is recorded, and from the tenth on a settlement would follow. */
  lemma PileGrows(s: Store, roster: Roster, n: nat)
    requires Piled(s, n)
    ensures var w := Writes(s, roster, PileTask(n));
            && |w| >= 1 && Piled(w[0], n + 1) && (|w| > 1 <==> n + 1 >= SETTLEMENT_STREAK_THRESHOLD)
  {
    var e := NewEntry(PileName(n), "easy", "", "success", n);
    var t := s.(ledger := s.ledger + [e]);
    assert PileName(n)[0] == 'a' && !IsSpace('a');
    forall i | 0 <= i < n ensures s.ledger[i].taskId != PileName(n) {
      assert |PileName(i)| != |PileName(n)|;
    }
    assert Piled(t, n + 1);
    AllPending(t.ledger);
  }

  lemma PileStep(s: Store, roster: Roster, n: nat) returns (step: Step)
    requires Piled(s, n)
    ensures ValidStep(s, roster, step) && Piled(After(s, roster, step.op, step.landed), n + 1)
    ensures Crashed(s, roster, step) <==> n + 1 >= SETTLEMENT_STREAK_THRESHOLD
  {
    PileGrows(s, roster, n);
    step := Step(PileTask(n), 1);
  }

  /** n successes in a row, each cut after its entry was written. */
  lemma {:induction false} PilingRun(roster: Roster, n: nat) returns (run: seq<Step>)
    ensures ValidRun(EMPTY_STORE, roster, run) && Piled(Final(EMPTY_STORE, roster, run), n)
    ensures Crashes(EMPTY_STORE, roster, run) == if n < SETTLEMENT_STREAK_THRESHOLD then 0 else n + 1 - SETTLEMENT_STREAK_THRESHOLD
  {
    if n == 0 {
      run := [];
    } else {
      var before := PilingRun(roster, n - 1);
      var last := PileStep(Final(EMPTY_STORE, roster, before), roster, n - 1);
      run := before + [last];
      RunSnoc(roster, before, last);
    }
  }

  lemma {:induction false} RunSnoc(roster: Roster, before: seq<Step>, last: Step)
    requires ValidRun(EMPTY_STORE, roster, before) && ValidStep(Final(EMPTY_STORE, roster, before), roster, last)
    ensures var (run, from) := (before + [last], Final(EMPTY_STORE, roster, before));
            && ValidRun(EMPTY_STORE, roster, run)
            && Final(EMPTY_STORE, roster, run) == After(from, roster, last.op, last.landed)
            && Crashes(EMPTY_STORE, roster, run)
               == Crashes(EMPTY_STORE, roster, before) + if Crashed(from, roster, last) then 1 else 0
  {
    var run := before + [last];
    assert run[..|run| - 1] == before && run[|run| - 1] == last;
  }

  /** For every number of crashes some run with exactly that many leaves nine pending successes and one more for
      each of them: the bound cannot be improved. */
  lemma {:induction false} PendingBoundIsTight(roster: Roster, crashes: nat) returns (run: seq<Step>)
    ensures ValidRun(EMPTY_STORE, roster, run) && Crashes(EMPTY_STORE, roster, run) == crashes
    ensures |Pending(Final(EMPTY_STORE, roster, run).ledger)| == 9 + crashes
  {
    run := PilingRun(roster, SETTLEMENT_STREAK_THRESHOLD - 1 + crashes);
    AllPending(Final(EMPTY_STORE, roster, run).ledger);
  }

  /** Without crashes the last-ten cap never drops a task: each settlement takes every pending
      success, in order, and leaves every other entry as it was. */
  lemma {:induction false} SettlementTakesAllPending(roster: Roster, run: seq<Step>, op: Op)
    requires ValidRun(EMPTY_STORE, roster, run) && Crashes(EMPTY_STORE, roster, run) == 0
    requires FreshId(Final(EMPTY_STORE, roster, run), op.sid)
    requires Settles3(Final(EMPTY_STORE, roster, run), roster, op)
    ensures var s := Final(EMPTY_STORE, roster, run);
            var (p, n) := Prelude(s, roster, op);
            var end := After(s, roster, op, |Writes(s, roster, op)|);
            && |end.settlements| == |s.settlements| + 1
            && end.settlements[|s.settlements|].tasksIncluded == TaskIds(Pending(p.ledger))
            && Pending(end.ledger) == []
            && |end.ledger| == |p.ledger|
            && (forall i :: 0 <= i < |p.ledger| ==>
                 end.ledger[i] == if IsPending(p.ledger[i])
                                  then p.ledger[i].(status := Rewarded, settlementId := op.sid)
                                  else p.ledger[i])
  {
    var s := Final(EMPTY_STORE, roster, run);
    var (p, n) := Prelude(s, roster, op);
    PendingBound(roster, run);
    RunKeepsInv(EMPTY_STORE, roster, run);
    PreludeBooks(s, roster, op);
    OperationShape(s, roster, op);
    AfterAsSettle(s, roster, op, |Writes(s, roster, op)|);
    SettleTakesAll(p, roster, Trigger(op), op.sid, Clock(op));
  }

  /** With at most ten successes pending the cap is no cap. */
  lemma SettleTakesAll(p: Store, roster: Roster, trigger: string, sid: string, now: nat)
    requires Inv(p) && |Pending(p.ledger)| <= 10
    ensures var end := SettleState(p, roster, trigger, sid, now, 3);
            && |end.settlements| == |p.settlements| + 1
            && end.settlements[|p.settlements|].tasksIncluded == TaskIds(Pending(p.ledger))
            && Pending(end.ledger) == []
            && |end.ledger| == |p.ledger|
            && (forall i :: 0 <= i < |p.ledger| ==>
                 end.ledger[i] == if IsPending(p.ledger[i])
                                  then p.ledger[i].(status := Rewarded, settlementId := sid)
                                  else p.ledger[i])
  {
    SettleBooks(p, roster, trigger, sid, now, 3, "");
    forall i | 0 <= i < |p.ledger|
      ensures p.ledger[i].taskId in AsSet(TaskIds(Pending(p.ledger))) <==> IsPending(p.ledger[i])
    {
      PendingMembership(p.ledger, i);
    }
  }

  lemma {:induction false} PendingMembership(ledger: seq<TaskLedgerEntry>, i: nat)
    requires DistinctTasks(ledger) && i < |ledger|
    ensures ledger[i].taskId in TaskIds(Pending(ledger)) <==> IsPending(ledger[i])
  {
    var p := Pending(ledger);
    PendingFromLedger(ledger);
    if IsPending(ledger[i]) {
      PendingComplete(ledger, i);
      var k :| 0 <= k < |p| && p[k] == ledger[i];
      assert TaskIds(p)[k] == ledger[i].taskId;
    } else {
      forall k | 0 <= k < |p| ensures TaskIds(p)[k] != ledger[i].taskId {
        assert p[k] in ledger;
      }
    }
  }

  lemma {:induction false} PendingComplete(ledger: seq<TaskLedgerEntry>, i: nat)
    requires i < |ledger| && IsPending(ledger[i])
    ensures ledger[i] in Pending(ledger)
  {
    if i > 0 {
      PendingComplete(ledger[1..], i - 1);
    }
  }

  // ----- rounding over a run --------------------------------------------------------

  /** Twice the agent's denominator times how far its pay lies from multiplier times work. */
  ghost function Drift(s: Store, a: AgentSpec): int {
    2 * (a.multiplier.den * LoggedReward(s.settlements, a.agentId) - a.multiplier.num * RewardedTotal(s.ledger))
  }

  lemma ShareIsRounded(roster: Roster, i: nat, effectiveSum: nat)
    requires i < |roster|
    ensures ShareOf(Shares(effectiveSum, roster), roster[i].agentId) ==
            RoundHalfEven(effectiveSum * roster[i].multiplier.num, roster[i].multiplier.den)
  {
    ShareOfRoster(Shares(effectiveSum, roster), roster, i);
  }

  /** What a whole settlement adds to the log and to the work rewarded. */
  lemma SettledBooks(p: Store, roster: Roster, trigger: string, sid: string, now: nat, i: nat)
    requires Inv(p) && i < |roster|
    ensures var (t, a) := (SettleState(p, roster, trigger, sid, now, 3), roster[i]);
            && |t.settlements| == |p.settlements| + 1
            && LoggedReward(t.settlements, a.agentId) == LoggedReward(p.settlements, a.agentId)
                 + RoundHalfEven(SettleSum(p) * a.multiplier.num, a.multiplier.den)
            && RewardedTotal(t.ledger) == RewardedTotal(p.ledger) + SettleSum(p)
  {
    SettleBooks(p, roster, trigger, sid, now, 3, roster[i].agentId);
    ShareIsRounded(roster, i, SettleSum(p));
  }

  /** One rounded payment moves the drift by at most half a unit. */
  lemma SettleDrift(p: Store, roster: Roster, trigger: string, sid: string, now: nat, i: nat)
    requires Inv(p) && i < |roster|
    ensures var t := SettleState(p, roster, trigger, sid, now, 3);
            && |t.settlements| == |p.settlements| + 1
            && Abs(Drift(t, roster[i]) - Drift(p, roster[i])) <= roster[i].multiplier.den
  {
    var t, a, e := SettleState(p, roster, trigger, sid, now, 3), roster[i], SettleSum(p);
    SettledBooks(p, roster, trigger, sid, now, i);
    RoundedDrift(a.multiplier.den, a.multiplier.num, e, LoggedReward(p.settlements, a.agentId), RewardedTotal(p.ledger),
                 LoggedReward(t.settlements, a.agentId), RewardedTotal(t.ledger));
  }

  /** It moves it by nothing when 500 times the multiplier is whole. */
  lemma SettleExactly(p: Store, roster: Roster, trigger: string, sid: string, now: nat, i: nat)
    requires Inv(p) && i < |roster| && 500 * roster[i].multiplier.num % roster[i].multiplier.den == 0
    ensures Drift(SettleState(p, roster, trigger, sid, now, 3), roster[i]) == Drift(p, roster[i])
  {
    var t, a, e := SettleState(p, roster, trigger, sid, now, 3), roster[i], SettleSum(p);
    SettlesWhole(p, a.multiplier);
    SettledBooks(p, roster, trigger, sid, now, i);
    ExactDrift(a.multiplier.den, a.multiplier.num, e, LoggedReward(p.settlements, a.agentId), RewardedTotal(p.ledger),
               LoggedReward(t.settlements, a.agentId), RewardedTotal(t.ledger));
  }

  /** What a settlement pays is a multiple of 500 before the multiplier. */
  lemma SettlesWhole(p: Store, m: Multiplier)
    requires Inv(p) && 500 * m.num % m.den == 0
    ensures SettleSum(p) * m.num % m.den == 0
  {
    WholeSum(p.ledger);
    SumOfWhole(LastTen(Pending(p.ledger)));
    MultipleOf500(SettleSum(p), m.num, m.den);
  }

  lemma RoundedDrift(den: nat, num: nat, e: nat, logged: int, total: int, logged': int, total': int)
    requires den > 0 && logged' == logged + RoundHalfEven(e * num, den) && total' == total + e
    ensures Abs(2 * (den * logged' - num * total') - 2 * (den * logged - num * total)) <= den
  {
    var r := RoundHalfEven(e * num, den);
    RoundHalfEvenIsTheRounding(e * num, den, r);
    DriftAlgebra(den, num, logged, r, total, e);
  }

  lemma ExactDrift(den: nat, num: nat, e: nat, logged: int, total: int, logged': int, total': int)
    requires den > 0 && logged' == logged + RoundHalfEven(e * num, den) && total' == total + e
    requires e * num % den == 0
    ensures 2 * (den * logged' - num * total') == 2 * (den * logged - num * total)
  {
    var r := RoundHalfEven(e * num, den);
    RoundExact(e * num, den);
    DriftAlgebra(den, num, logged, r, total, e);
  }

  /** From s to t at most one settlement was logged, which moved the drift by at most half a unit, or not at all
      when 500 times the multiplier is whole. */
  ghost predicate DriftsOnce(s: Store, t: Store, a: AgentSpec) {
    && (|t.settlements| == |s.settlements| || |t.settlements| == |s.settlements| + 1)
    && (|t.settlements| == |s.settlements| || WholePay(a) ==> Drift(t, a) == Drift(s, a))
    && Abs(Drift(t, a) - Drift(s, a)) <= a.multiplier.den
  }

  ghost predicate WholePay(a: AgentSpec) {
    500 * a.multiplier.num % a.multiplier.den == 0
  }

  lemma StepDrift(s: Store, roster: Roster, step: Step, i: nat)
    requires Inv(s) && ValidStep(s, roster, step) && !Crashed(s, roster, step) && i < |roster|
    ensures DriftsOnce(s, After(s, roster, step.op, step.landed), roster[i])
  {
    var (p, n) := Prelude(s, roster, step.op);
    PreludeBooks(s, roster, step.op);
    OperationShape(s, roster, step.op);
    AfterAsSettle(s, roster, step.op, step.landed);
    if Settles3(s, roster, step.op) {
      SettleDrift(p, roster, Trigger(step.op), step.op.sid, Clock(step.op), i);
      if WholePay(roster[i]) {
        SettleExactly(p, roster, Trigger(step.op), step.op.sid, Clock(step.op), i);
      }
    }
  }

  lemma DriftAlgebra(den: int, num: int, logged: int, r: int, total: int, e: int)
    ensures 2 * (den * (logged + r) - num * (total + e)) - 2 * (den * logged - num * total) == 2 * (den * r) - 2 * (e * num)
    ensures 2 * den * r == 2 * (den * r)
  {}

  lemma MultipleOf500(e: nat, num: nat, den: nat)
    requires den > 0 && e % 500 == 0 && 500 * num % den == 0
    ensures e * num % den == 0
  {
    var k, q := e / 500, 500 * num / den;
    assert e == 500 * k && 500 * num == den * q;
    assert e * num == k * (500 * num) == k * (den * q) == den * (k * q);
    ModMultiple(den, k * q);
  }

  lemma ModMultiple(den: nat, x: int)
    requires den > 0
    ensures den * x % den == 0
  {
    var q, r := den * x / den, den * x % den;
    assert den * x == den * q + r;
    assert r == den * (x - q);
    if x - q >= 1 {
      MulBound(den, 1, x - q);
    } else if x - q <= -1 {
      MulBound(den, x - q, -1);
    }
  }

  lemma {:induction false} WholeSum(ledger: seq<TaskLedgerEntry>)
    requires WholeRewards(ledger)
    ensures WholeRewards(LastTen(Pending(ledger)))
  {
    PendingFromLedger(ledger);
    var c := LastTen(Pending(ledger));
    forall i | 0 <= i < |c| ensures c[i].effectiveReward % 500 == 0 && c[i].effectiveReward > 0 {
      assert c[i] in Pending(ledger);
    }
  }

  lemma {:induction false} SumOfWhole(es: seq<TaskLedgerEntry>)
    requires WholeRewards(es)
    ensures SumEffective(es) % 500 == 0
  {
    if es != [] {
      SumOfWhole(es[1..]);
    }
  }

  lemma Accumulate(den: nat, was: int, now: int, x: nat, y: nat)
    requires Abs(was) <= den * x
    requires (y == x && now == was) || (y == x + 1 && Abs(now - was) <= den)
    ensures Abs(now) <= den * y
  {
    assert den * (x + 1) == den * x + den;
  }

  lemma {:induction false} LastDrift(roster: Roster, run: seq<Step>, i: nat)
    requires ValidRun(EMPTY_STORE, roster, run) && Crashes(EMPTY_STORE, roster, run) == 0 && i < |roster| && run != []
    ensures DriftsOnce(Final(EMPTY_STORE, roster, run[..|run| - 1]), Final(EMPTY_STORE, roster, run), roster[i])
  {
    LastStep(roster, run);
    StepDrift(Final(EMPTY_STORE, roster, run[..|run| - 1]), roster, run[|run| - 1], i);
  }

  lemma {:induction false} LastStep(roster: Roster, run: seq<Step>)
    requires ValidRun(EMPTY_STORE, roster, run) && Crashes(EMPTY_STORE, roster, run) == 0 && run != []
    ensures var (before, last) := (run[..|run| - 1], run[|run| - 1]);
            var from := Final(EMPTY_STORE, roster, before);
            && Inv(from) && ValidStep(from, roster, last) && !Crashed(from, roster, last)
            && Crashes(EMPTY_STORE, roster, before) == 0
            && Final(EMPTY_STORE, roster, run) == After(from, roster, last.op, last.landed)
  {
    RunKeepsInv(EMPTY_STORE, roster, run[..|run| - 1]);
  }

  lemma {:induction false} DriftBound(roster: Roster, run: seq<Step>, i: nat)
    requires ValidRun(EMPTY_STORE, roster, run) && Crashes(EMPTY_STORE, roster, run) == 0 && i < |roster|
    ensures var end, m := Final(EMPTY_STORE, roster, run), roster[i].multiplier;
            && Abs(Drift(end, roster[i])) <= m.den * |end.settlements|
            && (WholePay(roster[i]) ==> Drift(end, roster[i]) == 0)
    decreases |run|
  {
    if run != [] {
      var before := run[..|run| - 1];
      DriftBound(roster, before, i);
      var from, end := Final(EMPTY_STORE, roster, before), Final(EMPTY_STORE, roster, run);
      LastDrift(roster, run, i);
      Accumulate(roster[i].multiplier.den, Drift(from, roster[i]), Drift(end, roster[i]),
                 |from.settlements|, |end.settlements|);
    }
  }

  /** Without crashes pay equals the log, and strays from multiplier times work by at most half a unit
      per settlement; it never strays when 500 times the multiplier is whole. */
  lemma {:induction false} RoundingBound(roster: Roster, run: seq<Step>, i: nat)
    requires ValidRun(EMPTY_STORE, roster, run) && Crashes(EMPTY_STORE, roster, run) == 0 && i < |roster|
    ensures var end, m := Final(EMPTY_STORE, roster, run), roster[i].multiplier;
            && LifetimeReward(end.rewards, roster[i].agentId) == LoggedReward(end.settlements, roster[i].agentId)
            && Abs(Drift(end, roster[i])) <= m.den * |end.settlements|
            && (500 * m.num % m.den == 0 ==> Drift(end, roster[i]) == 0)
  {
    Conservation(roster, run, roster[i].agentId);
    NothingUnpaid(roster, run);
    DriftBound(roster, run, i);
  }

  lemma {:induction false} NothingUnpaid(roster: Roster, run: seq<Step>)
    requires ValidRun(EMPTY_STORE, roster, run) && Crashes(EMPTY_STORE, roster, run) == 0
    ensures Unpaid(EMPTY_STORE, roster, run) == []
    decreases |run|
  {
    if run != [] {
      NothingUnpaid(roster, run[..|run| - 1]);
    }
  }

  /** Pay is exact in every crash-free run precisely when 500 times the multiplier is whole;
      otherwise one child task of the lowest difficulty, settled on its own, already strays. */
  lemma {:induction false} ExactPayIffWhole(roster: Roster, i: nat)
    requires i < |roster|
    ensures (forall run :: ValidRun(EMPTY_STORE, roster, run) && Crashes(EMPTY_STORE, roster, run) == 0 ==>
               Drift(Final(EMPTY_STORE, roster, run), roster[i]) == 0)
            <==> 500 * roster[i].multiplier.num % roster[i].multiplier.den == 0
  {
    var m := roster[i].multiplier;
    if 500 * m.num % m.den == 0 {
      forall run | ValidRun(EMPTY_STORE, roster, run) && Crashes(EMPTY_STORE, roster, run) == 0
        ensures Drift(Final(EMPTY_STORE, roster, run), roster[i]) == 0
      {
        RoundingBound(roster, run, i);
      }
    } else {
      var run := OneChildTask(roster, i);
    }
  }

  const CHILD_TASK: Op := Complete("t", "easy", "parent", "success", "S1", 0)
  const FIVE_STARS: Op := Settle("five_star", "S2", 0)

  lemma ChildTaskIsRecorded(roster: Roster) returns (s: Store)
    ensures Writes(EMPTY_STORE, roster, CHILD_TASK) == [s]
    ensures |s.ledger| == 1 && s.ledger[0].effectiveReward == 500 && IsPending(s.ledger[0]) && s.ledger[0].settlementId == ""
    ensures s.settlements == [] && s.rewards == []
  {
    var e := NewEntry("t", "easy", "parent", "success", 0);
    s := EMPTY_STORE.(ledger := EMPTY_STORE.ledger + [e]);
    assert 't' in "t" && !IsSpace('t');
    LedgerCons(e, []);
    assert s.ledger == [e] + [];
    assert |Pending(s.ledger)| == 1;
  }

  lemma {:induction false} TwoStepRun(roster: Roster, s: Store, first: Step, second: Step)
    requires ValidStep(EMPTY_STORE, roster, first) && !Crashed(EMPTY_STORE, roster, first)
    requires After(EMPTY_STORE, roster, first.op, first.landed) == s
    requires ValidStep(s, roster, second) && !Crashed(s, roster, second)
    ensures ValidRun(EMPTY_STORE, roster, [first, second]) && Crashes(EMPTY_STORE, roster, [first, second]) == 0
    ensures Final(EMPTY_STORE, roster, [first, second]) == After(s, roster, second.op, second.landed)
  {
    var run := [first, second];
    assert run[..1] == [first] && [first][..0] == [];
    assert ValidRun(EMPTY_STORE, roster, []);
    assert ValidRun(EMPTY_STORE, roster, [first]) && Final(EMPTY_STORE, roster, [first]) == s;
    assert Crashes(EMPTY_STORE, roster, [first]) == 0;
  }

  /** Settling the child task alone is off by the rounding of 500 times the multiplier. */
  lemma ChildTaskDrift(roster: Roster, s: Store, i: nat)
    requires Inv(s) && i < |roster| && 500 * roster[i].multiplier.num % roster[i].multiplier.den != 0
    requires |s.ledger| == 1 && s.ledger[0].effectiveReward == 500 && IsPending(s.ledger[0])
    requires s.settlements == [] && s.rewards == []
    ensures Drift(SettleState(s, roster, "five_star", "S2", 0, 3), roster[i]) != 0
  {
    var e, m := s.ledger[0], roster[i].multiplier;
    assert s.ledger == [e] + [];
    LedgerCons(e, []);
    assert LastTen(Pending(s.ledger)) == [e] + [];
    SettleBooks(s, roster, "five_star", "S2", 0, 3, roster[i].agentId);
    ShareIsRounded(roster, i, 500);
    RoundExact(500 * m.num, m.den);
    DriftAlgebra(m.den, m.num, 0, RoundHalfEven(500 * m.num, m.den), 0, 500);
  }

  lemma OneChildTask(roster: Roster, i: nat) returns (run: seq<Step>)
    requires i < |roster| && 500 * roster[i].multiplier.num % roster[i].multiplier.den != 0
    ensures ValidRun(EMPTY_STORE, roster, run) && Crashes(EMPTY_STORE, roster, run) == 0
    ensures Drift(Final(EMPTY_STORE, roster, run), roster[i]) != 0
  {
    var s := ChildTaskIsRecorded(roster);
    var first, second := Step(CHILD_TASK, 1), Step(FIVE_STARS, 3);
    run := [first, second];
    assert Pending(s.ledger) != [] by {
      assert s.ledger == [s.ledger[0]] + [];
      LedgerCons(s.ledger[0], []);
    }
    assert Writes(s, roster, FIVE_STARS) == SettleWrites(s, roster, "five_star", "S2", 0);
    TwoStepRun(roster, s, first, second);
    EveryWriteKeepsInv(EMPTY_STORE, roster, CHILD_TASK);
    assert Inv(Writes(EMPTY_STORE, roster, CHILD_TASK)[0]);
    ChildTaskDrift(roster, s, i);
  }
}
