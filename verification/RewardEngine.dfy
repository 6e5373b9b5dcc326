/** The engine's operations, as the list of durable writes each one makes. */
module RewardWrites {
  import opened Wrappers
  import opened RewardModel
  import opened StringSets

  datatype Op =
    | Complete(taskId: string, difficulty: string, parentTaskId: string, quality: string, sid: string, now: nat)
    | Settle(trigger: string, sid: string, now: nat)
    | Feedback(event: FeedbackEvent, sid: string)

  function NewEntry(taskId: string, difficulty: string, parentTaskId: string, quality: string,
                    now: nat): TaskLedgerEntry
    requires DifficultyReward(difficulty).Some?
  {
    var base := DifficultyReward(difficulty).value;
    var isChild := parentTaskId != "";
    TaskLedgerEntry(taskId, parentTaskId, isChild, difficulty, base, EffectiveReward(base, isChild),
                    Unrewarded, quality, "", now)
  }

  predicate Recorded(ledger: seq<TaskLedgerEntry>, taskId: string) {
    exists i :: 0 <= i < |ledger| && ledger[i].taskId == taskId
  }

  /** Ledger first, then the settlement log, then the per-agent totals. */
  function SettleWrites(s: Store, roster: Roster, trigger: string, sid: string, now: nat): seq<Store> {
    var record := Settlement(Pending(s.ledger), roster, trigger, sid, now);
    var marked := s.(ledger := Mark(s.ledger, AsSet(record.tasksIncluded), sid));
    var logged := marked.(settlements := s.settlements + [record]);
    var paid := logged.(rewards := Upsert(s.rewards, PaidMemories(s.rewards, roster, record.perAgentRewards)));
    [marked, logged, paid]
  }

  function ManualWrites(s: Store, roster: Roster, trigger: string, sid: string, now: nat): seq<Store> {
    if Pending(s.ledger) == [] then [] else SettleWrites(s, roster, trigger, sid, now)
  }

  function CompleteWrites(s: Store, roster: Roster, op: Op): seq<Store>
    requires op.Complete?
  {
    if !ValidCompletion(op.taskId, op.difficulty, op.quality) || Recorded(s.ledger, op.taskId) then []
    else
      var entry := NewEntry(op.taskId, op.difficulty, op.parentTaskId, op.quality, op.now);
      var appended := s.(ledger := s.ledger + [entry]);
      [appended] +
      if op.quality == "success" && |Pending(appended.ledger)| >= SETTLEMENT_STREAK_THRESHOLD
      then SettleWrites(appended, roster, "streak", op.sid, op.now)
      else []
  }

  function FeedbackWrites(s: Store, roster: Roster, op: Op): seq<Store>
    requires op.Feedback?
  {
    if !ValidFeedback(op.event.taskId, op.event.feedbackType, op.event.starRating) then []
    else
      var noted := s.(feedback := s.feedback + [op.event]);
      [noted] +
      if op.event.starRating == Some(5) then ManualWrites(noted, roster, "five_star", op.sid, op.event.createdAt) else []
  }

  /** Every disk state an operation passes through, in order. */
  function Writes(s: Store, roster: Roster, op: Op): seq<Store> {
    match op
    case Complete(_, _, _, _, _, _) => CompleteWrites(s, roster, op)
    case Settle(trigger, sid, now) => ManualWrites(s, roster, trigger, sid, now)
    case Feedback(_, _) => FeedbackWrites(s, roster, op)
  }

  /** The disk once the first k writes of an operation have landed. */
  function After(s: Store, roster: Roster, op: Op, k: nat): Store
    requires k <= |Writes(s, roster, op)|
  {
    if k == 0 then s else Writes(s, roster, op)[k - 1]
  }
}

/** Orchestrates completions, settlements and feedback over a store. */
module RewardEngine {
  import opened Wrappers
  import opened PythonText
  import opened RewardModel
  import opened RewardStore
  import opened RewardWrites
  import opened StringSets

  datatype CompletionResult =
    | ValidationError
    | Duplicate
    | RecordedOnly(entry: TaskLedgerEntry)
    | RecordedAndSettled(entry: TaskLedgerEntry, settlement: SettlementRecord)

  datatype SettleResult = NoUnrewardedTasks | Settled(settlement: SettlementRecord)

  /** Builds the settlement record, filling the per-agent table one agent at a time. */
  method SettleTasks(unrewarded: seq<TaskLedgerEntry>, roster: Roster, trigger: string, sid: string, now: nat)
    returns (record: SettlementRecord)
    ensures record == Settlement(unrewarded, roster, trigger, sid, now)
    ensures PaysOut(record, unrewarded, roster, trigger, sid, now)
  {
    var capped := LastTen(unrewarded);
    var effectiveSum := SumEffective(capped);
    var perAgent: seq<Share> := [];
    for i := 0 to |roster|
      invariant perAgent == Shares(effectiveSum, roster)[..i]
    {
      var m := roster[i].multiplier;
      perAgent := perAgent + [Share(roster[i].agentId, RoundHalfEven(effectiveSum * m.num, m.den))];
    }
    SettlementPaysOut(unrewarded, roster, trigger, sid, now);
    return SettlementRecord(sid, trigger, TaskIds(capped), perAgent, now);
  }

  class ReinforcementEngine {
    const store: ReinforcementStore
    const roster: Roster

    constructor (store: ReinforcementStore, roster: Roster)
      ensures this.store == store && this.roster == roster
    {
      this.store, this.roster := store, roster;
    }

    /** validate_no_double_reward: scan the ledger for the task id. */
    method IsDuplicate(taskId: string) returns (found: bool)
      ensures found == Recorded(store.ledger, taskId)
    {
      for i := 0 to |store.ledger|
        invariant forall j :: 0 <= j < i ==> store.ledger[j].taskId != taskId
      {
        if store.ledger[i].taskId == taskId {
          return true;
        }
      }
      return false;
    }

    method UpdateAgentRewards(record: SettlementRecord)
      requires |record.perAgentRewards| == |roster|
      modifies store`rewards, store`history
      ensures store.rewards ==
              Upsert(old(store.rewards), PaidMemories(old(store.rewards), roster, record.perAgentRewards))
      ensures store.history == old(store.history) + [store.Disk()]
    {
      var updated: seq<AgentRewardMemory> := [];
      for i := 0 to |roster|
        invariant updated == PaidMemories(store.rewards, roster, record.perAgentRewards)[..i]
      {
        var a, share := roster[i], record.perAgentRewards[i];
        var existing := Find(store.rewards, a.agentId);
        var mem;
        if existing.Some? {
          mem := existing.value.(role := a.role, multiplier := a.multiplier,
                                 lifetimeReward := existing.value.lifetimeReward + share.amount);
        } else {
          mem := AgentRewardMemory(a.agentId, a.role, a.multiplier, share.amount, 0, 0);
        }
        updated := updated + [mem];
      }
      assert updated == PaidMemories(store.rewards, roster, record.perAgentRewards);
      store.BulkUpdateAgentRewards(updated);
    }

    method ExecuteSettlementHeld(unrewarded: seq<TaskLedgerEntry>, trigger: string, sid: string, now: nat)
      returns (record: SettlementRecord)
      requires store.lockHeld && unrewarded == Pending(store.ledger)
      modifies store
      ensures store.lockHeld
      ensures record == Settlement(unrewarded, roster, trigger, sid, now)
      ensures var writes := SettleWrites(old(store.Disk()), roster, trigger, sid, now);
              store.Disk() == writes[2] && store.history == old(store.history) + writes
    {
      ghost var writes := SettleWrites(store.Disk(), roster, trigger, sid, now);
      record := SettleTasks(unrewarded, roster, trigger, sid, now);
      store.MarkTasksRewardedHeld(AsSet(record.tasksIncluded), record.settlementId);
      assert store.Disk() == writes[0];
      store.AppendSettlement(record);
      assert store.Disk() == writes[1];
      UpdateAgentRewards(record);
      assert store.Disk() == writes[2];
    }

    /** Settles once the streak is long enough; the caller holds the lock. */
    method MaybeTriggerSettlementHeld(sid: string, now: nat) returns (record: Option<SettlementRecord>)
      requires store.lockHeld
      modifies store
      ensures store.lockHeld
      ensures record.Some? <==> |Pending(old(store.ledger))| >= SETTLEMENT_STREAK_THRESHOLD
      ensures var writes := if record.Some? then SettleWrites(old(store.Disk()), roster, "streak", sid, now) else [];
              && store.history == old(store.history) + writes
              && store.Disk() == (if writes == [] then old(store.Disk()) else writes[2])
      ensures record.Some? ==> store.settlements == old(store.settlements) + [record.value]
      ensures record.Some? ==> record.value == Settlement(Pending(old(store.ledger)), roster, "streak", sid, now)
    {
      var unrewarded := Pending(store.ledger);
      if |unrewarded| < SETTLEMENT_STREAK_THRESHOLD {
        return None;
      }
      var settlement := ExecuteSettlementHeld(unrewarded, "streak", sid, now);
      return Some(settlement);
    }

    /** Appends a new entry and settles when it completes a streak; the caller holds the lock. */
    method AppendAndSettleHeld(entry: TaskLedgerEntry, sid: string, now: nat) returns (record: Option<SettlementRecord>)
      requires store.lockHeld && entry.status == Unrewarded && entry.settlementId == ""
      modifies store
      ensures store.lockHeld
      ensures record.Some? <==> entry.qualityOutcome == "success" && |Pending(old(store.ledger))| + 1 >= 10
      ensures record.Some? <==>
                entry.qualityOutcome == "success" && |Pending(old(store.ledger) + [entry])| >= SETTLEMENT_STREAK_THRESHOLD
      ensures var appended := old(store.Disk()).(ledger := old(store.ledger) + [entry]);
              var writes := [appended] + if record.Some? then SettleWrites(appended, roster, "streak", sid, now) else [];
              store.history == old(store.history) + writes && store.Disk() == writes[|writes| - 1]
      ensures |store.ledger| == |old(store.ledger)| + 1
      ensures store.ledger[|old(store.ledger)|].(status := Unrewarded, settlementId := "") == entry
      ensures record.Some? ==>
                && store.settlements == old(store.settlements) + [record.value]
                && record.value.settlementId == sid && record.value.trigger == "streak"
                && entry.taskId in record.value.tasksIncluded
    {
      PendingAppend(store.ledger, entry);
      store.AppendTaskEntryHeld(entry);
      record := None;
      if entry.qualityOutcome == "success" {
        record := MaybeTriggerSettlementHeld(sid, now);
        LastIsSettled(Pending(old(store.ledger)), entry);
      }
    }

    method RecordTaskCompletion(taskId: string, difficulty: string, parentTaskId: string, quality: string,
                                sid: string, now: nat)
      returns (result: CompletionResult)
      requires !store.lockHeld
      modifies store
      ensures !store.lockHeld
      ensures var op := Complete(taskId, difficulty, parentTaskId, quality, sid, now);
              var writes := Writes(old(store.Disk()), roster, op);
              && store.Disk() == After(old(store.Disk()), roster, op, |writes|)
              && store.history == old(store.history) + writes
              && (result.ValidationError? || result.Duplicate? <==> writes == [])
              && (result.RecordedAndSettled? <==> |writes| == 4)
      ensures result.ValidationError? <==>
                || (forall c :: c in taskId ==> IsSpace(c))
                || (difficulty != "easy" && difficulty != "medium" && difficulty != "hard")
                || (quality != "success" && quality != "error")
      ensures result.Duplicate? <==>
                !result.ValidationError? && exists i :: 0 <= i < |old(store.ledger)| && old(store.ledger)[i].taskId == taskId
      ensures result.RecordedOnly? || result.RecordedAndSettled? ==>
                && RecordsTask(result.entry, taskId, difficulty, parentTaskId, quality, now)
                && |store.ledger| == |old(store.ledger)| + 1
                && store.ledger[|old(store.ledger)|].(status := Unrewarded, settlementId := "") == result.entry
      ensures result.RecordedOnly? ==> store.ledger == old(store.ledger) + [result.entry]
      ensures result.RecordedAndSettled? <==>
                (result.RecordedOnly? || result.RecordedAndSettled?) && quality == "success"
                && |Pending(old(store.ledger))| + 1 >= 10
      ensures result.RecordedAndSettled? ==>
                && store.settlements == old(store.settlements) + [result.settlement]
                && result.settlement.settlementId == sid && result.settlement.trigger == "streak"
                && taskId in result.settlement.tasksIncluded
    {
      if !ValidCompletion(taskId, difficulty, quality) {
        return ValidationError;
      }
      store.AcquireLedgerLock();
      result := RecordHeld(taskId, difficulty, parentTaskId, quality, sid, now);
      store.ReleaseLedgerLock();
    }

    /** The part under the lock, for a completion that is valid. */
    method RecordHeld(taskId: string, difficulty: string, parentTaskId: string, quality: string, sid: string, now: nat)
      returns (result: CompletionResult)
      requires store.lockHeld && ValidCompletion(taskId, difficulty, quality)
      modifies store
      ensures store.lockHeld && !result.ValidationError?
      ensures result.Duplicate? <==> Recorded(old(store.ledger), taskId)
      ensures var writes := CompleteWrites(old(store.Disk()), roster,
                                           Complete(taskId, difficulty, parentTaskId, quality, sid, now));
              && store.Disk() == (if writes == [] then old(store.Disk()) else writes[|writes| - 1])
              && store.history == old(store.history) + writes && (result.Duplicate? <==> writes == [])
              && (result.RecordedAndSettled? <==> |writes| == 4)
      ensures !result.Duplicate? ==>
                && RecordsTask(result.entry, taskId, difficulty, parentTaskId, quality, now)
                && |store.ledger| == |old(store.ledger)| + 1
                && store.ledger[|old(store.ledger)|].(status := Unrewarded, settlementId := "") == result.entry
      ensures result.RecordedOnly? ==> store.ledger == old(store.ledger) + [result.entry]
      ensures result.RecordedAndSettled? <==>
                !result.Duplicate? && quality == "success" && |Pending(old(store.ledger))| + 1 >= 10
      ensures result.RecordedAndSettled? ==>
                && store.settlements == old(store.settlements) + [result.settlement]
                && result.settlement.settlementId == sid && result.settlement.trigger == "streak"
                && taskId in result.settlement.tasksIncluded
    {
      var duplicate := IsDuplicate(taskId);
      if duplicate {
        return Duplicate;
      }
      var isChild := parentTaskId != "";
      var base := DifficultyReward(difficulty).value;
      var entry := TaskLedgerEntry(taskId, parentTaskId, isChild, difficulty, base, EffectiveReward(base, isChild),
                                   Unrewarded, quality, "", now);
      var record := AppendAndSettleHeld(entry, sid, now);
      result := if record.Some? then RecordedAndSettled(entry, record.value) else RecordedOnly(entry);
    }

    method TriggerSettlement(trigger: string, sid: string, now: nat) returns (result: SettleResult)
      requires !store.lockHeld
      modifies store
      ensures !store.lockHeld
      ensures var writes := ManualWrites(old(store.Disk()), roster, trigger, sid, now);
              && store.Disk() == (if writes == [] then old(store.Disk()) else writes[2])
              && store.history == old(store.history) + writes
              && (result.NoUnrewardedTasks? <==> writes == [])
      ensures result.NoUnrewardedTasks? <==> Pending(old(store.ledger)) == []
      ensures result.Settled? ==>
                && store.settlements == old(store.settlements) + [result.settlement]
                && result.settlement.settlementId == sid && result.settlement.trigger == trigger
    {
      store.AcquireLedgerLock();
      var unrewarded := Pending(store.ledger);
      if unrewarded == [] {
        store.ReleaseLedgerLock();
        return NoUnrewardedTasks;
      }
      var record := ExecuteSettlementHeld(unrewarded, trigger, sid, now);
      store.ReleaseLedgerLock();
      return Settled(record);
    }

    /** A five-star rating settles whatever is pending; every other rating is only noted. */
    method RecordFeedback(event: FeedbackEvent, sid: string) returns (valid: bool)
      requires !store.lockHeld
      modifies store
      ensures !store.lockHeld
      ensures valid <==>
                && (exists c :: c in event.taskId && !IsSpace(c))
                && (event.feedbackType == "none" || event.feedbackType == "positive" || event.feedbackType == "negative")
                && (event.starRating.Some? ==> 1 <= event.starRating.value <= 5)
      ensures store.feedback == if valid then old(store.feedback) + [event] else old(store.feedback)
      ensures var settles := valid && event.starRating == Some(5) && Pending(old(store.ledger)) != [];
              && (settles ==> |store.settlements| == |old(store.settlements)| + 1
                              && store.settlements[|old(store.settlements)|].trigger == "five_star")
              && (!settles ==> store.ledger == old(store.ledger) && store.settlements == old(store.settlements)
                               && store.rewards == old(store.rewards))
      ensures var op := Feedback(event, sid);
              var writes := Writes(old(store.Disk()), roster, op);
              && store.Disk() == After(old(store.Disk()), roster, op, |writes|)
              && store.history == old(store.history) + writes
    {
      if !ValidFeedback(event.taskId, event.feedbackType, event.starRating) {
        return false;
      }
      store.AppendFeedbackEvent(event);
      if event.starRating == Some(5) {
        var _ := TriggerSettlement("five_star", sid, event.createdAt);
      }
      return true;
    }
  }
}
