/** Entities, constants and arithmetic of the reinforcement ledger. */
module RewardModel {
  import opened Wrappers
  import opened PythonText

  const SETTLEMENT_STREAK_THRESHOLD: nat := 10

  datatype SettlementStatus = Unrewarded | Rewarded

  datatype TaskLedgerEntry = TaskLedgerEntry(
    taskId: string,
    parentTaskId: string,
    isChild: bool,
    difficulty: string,
    baseReward: nat,
    effectiveReward: nat,
    status: SettlementStatus,
    qualityOutcome: string,
    settlementId: string,
    createdAt: nat)

  /** A multiplier num/den; the registry's floats are read as exact rationals. */
  datatype Ratio = Ratio(num: nat, den: nat)
  type Multiplier = r: Ratio | r.den > 0 witness Ratio(1, 1)

  datatype AgentSpec = AgentSpec(agentId: string, role: string, multiplier: Multiplier)

  /** The registry is a dictionary keyed by agent id, so ids do not repeat. */
  type Roster = r: seq<AgentSpec> | DistinctAgents(r) witness []

  predicate DistinctAgents(r: seq<AgentSpec>) {
    forall i, j :: 0 <= i < j < |r| ==> r[i].agentId != r[j].agentId
  }

  datatype AgentRewardMemory = AgentRewardMemory(
    agentId: string,
    role: string,
    multiplier: Multiplier,
    lifetimeReward: nat,
    unrewardedTaskCount: nat,
    unrewardedRewardTotal: nat)

  /** One agent's share of a settlement, in registry order. */
  datatype Share = Share(agentId: string, amount: nat)

  datatype SettlementRecord = SettlementRecord(
    settlementId: string,
    trigger: string,
    tasksIncluded: seq<string>,
    perAgentRewards: seq<Share>,
    settledAt: nat)

  datatype FeedbackEvent = FeedbackEvent(
    feedbackId: string,
    taskId: string,
    feedbackType: string,
    starRating: Option<int>,
    comment: string,
    createdAt: nat)

  /** The durable contents of the four files. */
  datatype Store = Store(
    ledger: seq<TaskLedgerEntry>,
    settlements: seq<SettlementRecord>,
    rewards: seq<AgentRewardMemory>,
    feedback: seq<FeedbackEvent>)

  const EMPTY_STORE := Store([], [], [], [])

  // ----- validation -------------------------------------------------------

  function DifficultyReward(difficulty: string): Option<nat> {
    if difficulty == "easy" then Some(1000)
    else if difficulty == "medium" then Some(2000)
    else if difficulty == "hard" then Some(3000)
    else None
  }

  predicate ValidCompletion(taskId: string, difficulty: string, quality: string) {
    !IsBlank(taskId) && DifficultyReward(difficulty).Some? && (quality == "success" || quality == "error")
  }

  predicate ValidFeedback(taskId: string, feedbackType: string, star: Option<int>) {
    && !IsBlank(taskId)
    && feedbackType in {"none", "positive", "negative"}
    && (star.Some? ==> 1 <= star.value <= 5)
  }

  // ----- reward arithmetic ------------------------------------------------

  /** int(base * 0.5) for a child task; base is never negative. */
  function EffectiveReward(baseReward: nat, isChild: bool): nat {
    if isChild then baseReward / 2 else baseReward
  }

  /** Python's round() of the exact rational n/d. */
  function RoundHalfEven(n: nat, d: nat): nat
    requires d > 0
  {
    var q, r := n / d, n % d;
    if 2 * r < d then q
    else if 2 * r > d then q + 1
    else if q % 2 == 0 then q else q + 1
  }

  function Abs(x: int): nat {
    if x < 0 then -x else x
  }

  /** x is a nearest integer to n/d, and the even one when two are nearest. */
  ghost predicate IsRounding(x: int, n: nat, d: nat) {
    && Abs(2 * d * x - 2 * n) <= d
    && (Abs(2 * d * x - 2 * n) == d ==> x % 2 == 0)
  }

  lemma RoundHalfEvenIsTheRounding(n: nat, d: nat, x: int)
    requires d > 0
    ensures IsRounding(x, n, d) <==> x == RoundHalfEven(n, d)
  {
    var q, r := n / d, n % d;
    Doubled(n, d, q, r, x);
    Apart(d, x - q);
    NearestOf(q, r, d, x, d * (x - q));
  }

  lemma Apart(d: nat, steps: int)
    ensures steps == 0 ==> d * steps == 0
    ensures steps == 1 ==> d * steps == d
    ensures steps < 0 ==> d * steps + d <= 0
    ensures steps > 1 ==> d * steps >= 2 * d
  {
    if steps < 0 {
      MulBound(d, steps, -1);
    } else if steps > 1 {
      MulBound(d, 2, steps);
    }
  }

  lemma Doubled(n: int, d: int, q: int, r: int, x: int)
    requires n == d * q + r
    ensures 2 * d * x - 2 * n == 2 * (d * (x - q)) - 2 * r
  {}

  /** The case distinction of the rounding, with `apart` standing for d times the distance of x from q. */
  lemma NearestOf(q: int, r: int, d: int, x: int, apart: int)
    requires 0 <= r < d
    requires x == q ==> apart == 0
    requires x == q + 1 ==> apart == d
    requires x < q ==> apart <= -d
    requires x > q + 1 ==> apart >= 2 * d
    ensures (Abs(2 * apart - 2 * r) <= d && (Abs(2 * apart - 2 * r) == d ==> x % 2 == 0))
            <==> x == if 2 * r < d then q else if 2 * r > d then q + 1 else if q % 2 == 0 then q else q + 1
  {}

  lemma MulBound(d: int, x: int, y: int)
    requires d >= 0 && x <= y
    ensures d * x <= d * y
  {}

  lemma RoundExact(n: nat, d: nat)
    requires d > 0
    ensures d * RoundHalfEven(n, d) == n <==> n % d == 0
  {
    var q, r := n / d, n % d;
    assert n == d * q + r;
    assert d * (q + 1) == d * q + d;
  }

  // ----- ledger queries ---------------------------------------------------

  predicate IsPending(e: TaskLedgerEntry) {
    e.status == Unrewarded && e.qualityOutcome == "success"
  }

  function Pending(ledger: seq<TaskLedgerEntry>): seq<TaskLedgerEntry> {
    if ledger == [] then []
    else (if IsPending(ledger[0]) then [ledger[0]] else []) + Pending(ledger[1..])
  }

  /** unrewarded[-10:] */
  function LastTen(es: seq<TaskLedgerEntry>): seq<TaskLedgerEntry> {
    if |es| <= SETTLEMENT_STREAK_THRESHOLD then es else es[|es| - SETTLEMENT_STREAK_THRESHOLD..]
  }

  function SumEffective(es: seq<TaskLedgerEntry>): nat {
    if es == [] then 0 else es[0].effectiveReward + SumEffective(es[1..])
  }

  function TaskIds(es: seq<TaskLedgerEntry>): seq<string> {
    seq(|es|, i requires 0 <= i < |es| => es[i].taskId)
  }

  function MarkEntry(e: TaskLedgerEntry, ids: set<string>, sid: string): TaskLedgerEntry {
    if e.taskId in ids then e.(status := Rewarded, settlementId := sid) else e
  }

  function Mark(ledger: seq<TaskLedgerEntry>, ids: set<string>, sid: string): seq<TaskLedgerEntry> {
    seq(|ledger|, i requires 0 <= i < |ledger| => MarkEntry(ledger[i], ids, sid))
  }

  lemma {:induction false} LedgerCons(e: TaskLedgerEntry, rest: seq<TaskLedgerEntry>)
    ensures Pending([e] + rest) == (if IsPending(e) then [e] else []) + Pending(rest)
    ensures RewardedTotal([e] + rest) == (if e.status == Rewarded then e.effectiveReward else 0) + RewardedTotal(rest)
    ensures SumEffective([e] + rest) == e.effectiveReward + SumEffective(rest)
  {
    assert ([e] + rest)[1..] == rest;
  }

  lemma {:induction false} PendingAppend(ledger: seq<TaskLedgerEntry>, e: TaskLedgerEntry)
    ensures Pending(ledger + [e]) == Pending(ledger) + if IsPending(e) then [e] else []
  {
    if ledger == [] {
      assert ledger + [e] == [e] + [];
    } else {
      var first, rest := ledger[0], ledger[1..];
      PendingAppend(rest, e);
      LedgerCons(first, rest + [e]);
      assert ledger + [e] == [first] + (rest + [e]);
    }
  }

  /** What the ledger says of a completed task: as reported, unrewarded, worth its difficulty, and half of that when
      it is a child. */
  ghost predicate RecordsTask(e: TaskLedgerEntry, taskId: string, difficulty: string, parentTaskId: string,
                              quality: string, now: nat)
  {
    && e.taskId == taskId && e.parentTaskId == parentTaskId && (e.isChild <==> parentTaskId != "")
    && e.difficulty == difficulty && e.qualityOutcome == quality && e.createdAt == now
    && e.status == Unrewarded && e.settlementId == ""
    && (difficulty == "easy" ==> e.baseReward == 1000)
    && (difficulty == "medium" ==> e.baseReward == 2000)
    && (difficulty == "hard" ==> e.baseReward == 3000)
    && (if parentTaskId == "" then e.effectiveReward == e.baseReward else 2 * e.effectiveReward == e.baseReward)
  }

  // ----- settlements and per-agent totals ----------------------------------

  function Shares(effectiveSum: nat, roster: Roster): seq<Share> {
    seq(|roster|, i requires 0 <= i < |roster| =>
      Share(roster[i].agentId, RoundHalfEven(effectiveSum * roster[i].multiplier.num, roster[i].multiplier.den)))
  }

  function Settlement(unrewarded: seq<TaskLedgerEntry>, roster: Roster, trigger: string, sid: string, now: nat)
    : SettlementRecord
  {
    var capped := LastTen(unrewarded);
    SettlementRecord(sid, trigger, TaskIds(capped), Shares(SumEffective(capped), roster), now)
  }

  /** A settlement takes the last ten pending tasks, in order, and pays every agent of the roster the rounding of its
      multiplier times what they are worth. */
  ghost predicate PaysOut(record: SettlementRecord, unrewarded: seq<TaskLedgerEntry>, roster: Roster, trigger: string,
                          sid: string, now: nat)
  {
    var n := |record.tasksIncluded|;
    && record.settlementId == sid && record.trigger == trigger && record.settledAt == now
    && n == (if |unrewarded| < 10 then |unrewarded| else 10)
    && (forall k :: 0 <= k < n ==> record.tasksIncluded[k] == unrewarded[|unrewarded| - n + k].taskId)
    && |record.perAgentRewards| == |roster|
    && (forall i :: 0 <= i < |roster| ==> IsShare(record.perAgentRewards[i], roster[i], unrewarded[|unrewarded| - n..]))
  }

  ghost predicate IsShare(share: Share, a: AgentSpec, tasks: seq<TaskLedgerEntry>) {
    share.agentId == a.agentId && IsRounding(share.amount, SumEffective(tasks) * a.multiplier.num, a.multiplier.den)
  }

  lemma SettlementPaysOut(unrewarded: seq<TaskLedgerEntry>, roster: Roster, trigger: string, sid: string, now: nat)
    ensures PaysOut(Settlement(unrewarded, roster, trigger, sid, now), unrewarded, roster, trigger, sid, now)
  {
    var record, capped := Settlement(unrewarded, roster, trigger, sid, now), LastTen(unrewarded);
    assert capped == unrewarded[|unrewarded| - |record.tasksIncluded|..];
    forall i | 0 <= i < |roster| ensures IsShare(record.perAgentRewards[i], roster[i], capped) {
      var a := roster[i];
      RoundHalfEvenIsTheRounding(SumEffective(capped) * a.multiplier.num, a.multiplier.den, record.perAgentRewards[i].amount);
    }
  }

  /** The newest task is always among the last ten. */
  lemma LastIsSettled(before: seq<TaskLedgerEntry>, e: TaskLedgerEntry)
    ensures e.taskId in TaskIds(LastTen(before + [e]))
  {
    var chosen := LastTen(before + [e]);
    assert chosen[|chosen| - 1] == e;
    assert TaskIds(chosen)[|chosen| - 1] == e.taskId;
  }

  /** Dictionary lookup where a later record with the same id wins. */
  function Find(ms: seq<AgentRewardMemory>, agentId: string): Option<AgentRewardMemory> {
    if ms == [] then None
    else if ms[|ms| - 1].agentId == agentId then Some(ms[|ms| - 1])
    else Find(ms[..|ms| - 1], agentId)
  }

  function Without(ms: seq<AgentRewardMemory>, agentId: string): seq<AgentRewardMemory> {
    if ms == [] then []
    else (if ms[0].agentId == agentId then [] else [ms[0]]) + Without(ms[1..], agentId)
  }

  function PaidMemory(rewards: seq<AgentRewardMemory>, a: AgentSpec, share: Share): AgentRewardMemory
  {
    match Find(rewards, a.agentId)
    case Some(m) => m.(role := a.role, multiplier := a.multiplier, lifetimeReward := m.lifetimeReward + share.amount)
    case None => AgentRewardMemory(a.agentId, a.role, a.multiplier, share.amount, 0, 0)
  }

  function PaidMemories(rewards: seq<AgentRewardMemory>, roster: Roster, shares: seq<Share>): seq<AgentRewardMemory>
    requires |shares| == |roster|
  {
    seq(|roster|, i requires 0 <= i < |roster| => PaidMemory(rewards, roster[i], shares[i]))
  }

  /** Replace records in place, popping each update as it is used, then append what is left. */
  function Upsert(entries: seq<AgentRewardMemory>, updates: seq<AgentRewardMemory>): seq<AgentRewardMemory> {
    if entries == [] then updates
    else
      match Find(updates, entries[0].agentId)
      case Some(m) => [m] + Upsert(entries[1..], Without(updates, entries[0].agentId))
      case None => [entries[0]] + Upsert(entries[1..], updates)
  }

  /** One turn of the upsert: `done` is what has been replaced so far. */
  lemma {:induction false} UpsertStep(done: seq<AgentRewardMemory>, entries: seq<AgentRewardMemory>, i: nat,
                                      updates: seq<AgentRewardMemory>)
    requires i < |entries|
    ensures var update := Find(updates, entries[i].agentId);
            done + Upsert(entries[i..], updates)
            == if update.Some? then done + [update.value] + Upsert(entries[i + 1..], Without(updates, entries[i].agentId))
               else done + [entries[i]] + Upsert(entries[i + 1..], updates)
  {
    assert entries[i..][0] == entries[i] && entries[i..][1..] == entries[i + 1..];
  }

  function LifetimeReward(rewards: seq<AgentRewardMemory>, agentId: string): nat {
    match Find(rewards, agentId)
    case Some(m) => m.lifetimeReward
    case None => 0
  }

  function ShareOf(shares: seq<Share>, agentId: string): nat {
    if shares == [] then 0
    else if shares[0].agentId == agentId then shares[0].amount
    else ShareOf(shares[1..], agentId)
  }

  /** What the settlement log says an agent has earned. */
  function LoggedReward(log: seq<SettlementRecord>, agentId: string): nat {
    if log == [] then 0
    else LoggedReward(log[..|log| - 1], agentId) + ShareOf(log[|log| - 1].perAgentRewards, agentId)
  }

  function RewardedTotal(ledger: seq<TaskLedgerEntry>): nat {
    if ledger == [] then 0
    else (if ledger[0].status == Rewarded then ledger[0].effectiveReward else 0) + RewardedTotal(ledger[1..])
  }
}
