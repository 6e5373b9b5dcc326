/** The reinforcement store: four files rewritten whole, one ledger lock. */
module RewardStore {
  import opened Wrappers
  import opened RewardModel

  lemma SameTail<T>(a: seq<T>, b: seq<T>, i: nat)
    requires i < |a| && i < |b| && a[i..] == b[i..]
    ensures a[i] == b[i] && a[i + 1..] == b[i + 1..]
  {
    assert a[i..][0] == b[i..][0] && a[i..][1..] == b[i..][1..];
  }

  lemma ReplacedAt<T>(was: seq<T>, now: seq<T>, i: nat)
    requires i < |was| == |now| && now == was[i := now[i]]
    ensures now[..i + 1] == was[..i] + [now[i]] && now[i + 1..] == was[i + 1..]
  {}

  class ReinforcementStore {
    var ledger: seq<TaskLedgerEntry>
    var settlements: seq<SettlementRecord>
    var rewards: seq<AgentRewardMemory>
    var feedback: seq<FeedbackEvent>
    var lockHeld: bool
    /** The disk after every durable write so far, oldest first: the states a crash can leave behind. */
    ghost var history: seq<Store>

    function Disk(): Store
      reads this
    {
      Store(ledger, settlements, rewards, feedback)
    }

    constructor ()
      ensures Disk() == EMPTY_STORE && history == [] && !lockHeld
    {
      ledger, settlements, rewards, feedback, lockHeld := [], [], [], [], false;
      history := [];
    }

    /** The lock is not re-entrant: a holder that acquired it again would block on itself. */
    method AcquireLedgerLock()
      requires !lockHeld
      modifies this`lockHeld
      ensures lockHeld
    {
      lockHeld := true;
    }

    method ReleaseLedgerLock()
      requires lockHeld
      modifies this`lockHeld
      ensures !lockHeld
    {
      lockHeld := false;
    }

    method AppendTaskEntryHeld(entry: TaskLedgerEntry)
      requires lockHeld
      modifies this`ledger, this`history
      ensures ledger == old(ledger) + [entry]
      ensures history == old(history) + [Disk()]
    {
      ledger := ledger + [entry];
      history := history + [Disk()];
    }

    method MarkTasksRewardedHeld(ids: set<string>, settlementId: string)
      requires lockHeld
      modifies this`ledger, this`history
      ensures ledger == Mark(old(ledger), ids, settlementId)
      ensures history == old(history) + [Disk()]
    {
      var entries := ledger;
      for i := 0 to |entries|
        invariant |entries| == |ledger|
        invariant forall j :: 0 <= j < i ==> entries[j] == MarkEntry(ledger[j], ids, settlementId)
        invariant entries[i..] == ledger[i..]
      {
        if entries[i].taskId in ids {
          entries := entries[i := entries[i].(status := Rewarded, settlementId := settlementId)];
        }
      }
      ledger := entries;
      history := history + [Disk()];
    }

    method AppendSettlement(record: SettlementRecord)
      modifies this`settlements, this`history
      ensures settlements == old(settlements) + [record]
      ensures history == old(history) + [Disk()]
    {
      settlements := settlements + [record];
      history := history + [Disk()];
    }

    method BulkUpdateAgentRewards(updates: seq<AgentRewardMemory>)
      modifies this`rewards, this`history
      ensures rewards == Upsert(old(rewards), updates)
      ensures history == old(history) + [Disk()]
    {
      var stored, byId := rewards, updates;
      var entries := stored;
      for i := 0 to |stored|
        invariant history == old(history) && |entries| == |stored| && entries[i..] == stored[i..]
        invariant Upsert(stored, updates) == entries[..i] + Upsert(stored[i..], byId)
      {
        ghost var was := entries;
        UpsertStep(entries[..i], stored, i, byId);
        SameTail(entries, stored, i);
        var update := Find(byId, entries[i].agentId);
        if update.Some? {
          byId := Without(byId, entries[i].agentId);
          entries := entries[i := update.value];
        }
        ReplacedAt(was, entries, i);
      }
      assert entries[..|stored|] == entries && stored[|stored|..] == [];
      rewards := entries + byId;
      history := history + [Disk()];
    }

    method AppendFeedbackEvent(event: FeedbackEvent)
      modifies this`feedback, this`history
      ensures feedback == old(feedback) + [event]
      ensures history == old(history) + [Disk()]
    {
      feedback := feedback + [event];
      history := history + [Disk()];
    }
  }
}
