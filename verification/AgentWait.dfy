/** Waiting for an agent process: timers, abort, escalation to SIGKILL and output tails. */
module AgentWait {
  import opened JsText
  import opened Wrappers

  const MAX_OUTPUT_TAIL_CHARS: nat := 4000
  const KILL_GRACE_MS: nat := 5000

  datatype TerminationReason = Exited | Aborted | WallClockTimeout | IdleTimeout | SpawnError
  datatype Signal = SIGTERM | SIGKILL
  datatype Sent = Sent(signal: Signal, at: nat, exitCode: Option<int>, signalCode: Option<string>)

  datatype RunSummary = RunSummary(
    exitCode: int, stdoutTail: string, stderrTail: string, reason: TerminationReason, signalCode: Option<string>)

  /** The variables of one wait, the child's exit fields, and the signals sent so far. */
  datatype State = State(
    settled: Option<RunSummary>,
    stdoutTail: string,
    stderrTail: string,
    reason: TerminationReason,
    termSent: bool,
    aborted: bool,
    wallDeadline: Option<nat>,
    idleDeadline: Option<nat>,
    graceDeadline: Option<nat>,
    abortListening: bool,
    dataListening: bool,
    exitCode: Option<int>,
    signalCode: Option<string>,
    sent: seq<Sent>)

  datatype Options = Options(wallClockTimeoutMs: Option<int>, idleTimeoutMs: Option<int>, abortedAtEntry: bool)

  datatype Event =
    | Stdout(chunk: string)
    | Stderr(chunk: string)
    | WallTimer
    | IdleTimer
    | GraceTimer
    | AbortEvent
    | ChildExits(code: Option<int>, signal: Option<string>)
    | Close(code: Option<int>)
    | ErrorEvent

  datatype Timed = Timed(at: nat, event: Event)

  // ----- text -------------------------------------------------------------------

  function LastChars(s: string): string {
    if |s| <= MAX_OUTPUT_TAIL_CHARS then s else s[|s| - MAX_OUTPUT_TAIL_CHARS..]
  }

  function AppendTail(existing: string, chunk: string): string {
    LastChars(existing + chunk)
  }

  // ----- handlers as functions of the state --------------------------------------

  /** The first settlement wins. Timers and the abort listener are dropped; the data listeners are dropped
      too, except by a settlement that happens before the promise constructor has returned. */
  function Settle(s: State, code: int, atEntry: bool): State {
    if s.settled.Some? then s
    else s.(settled := Some(RunSummary(code, Trim(s.stdoutTail), Trim(s.stderrTail), s.reason, s.signalCode)),
            wallDeadline := None, idleDeadline := None, graceDeadline := None,
            abortListening := false, dataListening := atEntry && s.dataListening)
  }

  function Send(s: State, signal: Signal, now: nat): State {
    s.(sent := s.sent + [Sent(signal, now, s.exitCode, s.signalCode)])
  }

  function KillChild(s: State, now: nat): State {
    if s.termSent then s
    else Send(s.(termSent := true), SIGTERM, now).(graceDeadline := Some(now + KILL_GRACE_MS))
  }

  function OnAbort(s: State, now: nat): State {
    KillChild(s.(aborted := true, reason := Aborted), now)
  }

  predicate Due(deadline: Option<nat>, now: nat) {
    deadline.Some? && deadline.value <= now
  }

  predicate Positive(ms: Option<int>) {
    ms.Some? && ms.value > 0
  }

  function ResetIdle(s: State, o: Options, now: nat): State {
    if Positive(o.idleTimeoutMs) then s.(idleDeadline := Some(now + o.idleTimeoutMs.value)) else s
  }

  function OnData(s: State, o: Options, chunk: string, isStdout: bool, now: nat): State {
    if !s.dataListening then s
    else if isStdout then ResetIdle(s.(stdoutTail := AppendTail(s.stdoutTail, chunk)), o, now)
    else ResetIdle(s.(stderrTail := AppendTail(s.stderrTail, chunk)), o, now)
  }

  /** An armed timer fires once, never early; a cleared one does not fire. */
  function OnWallTimer(s: State, now: nat): State {
    if Due(s.wallDeadline, now) then KillChild(s.(wallDeadline := None, reason := WallClockTimeout), now) else s
  }

  function OnIdleTimer(s: State, now: nat): State {
    if Due(s.idleDeadline, now) then KillChild(s.(idleDeadline := None, reason := IdleTimeout), now) else s
  }

  function OnGraceTimer(s: State, now: nat): State {
    if !Due(s.graceDeadline, now) then s
    else if s.exitCode.None? && s.signalCode.None? then Send(s.(graceDeadline := None), SIGKILL, now)
    else s.(graceDeadline := None)
  }

  function OnAbortEvent(s: State, now: nat): State {
    if s.abortListening then OnAbort(s.(abortListening := false), now) else s
  }

  function OnClose(s: State, code: Option<int>): State {
    Settle(s, if s.aborted then 130 else code.GetOr(1), false)
  }

  function OnError(s: State): State {
    Settle(s.(reason := SpawnError), if s.aborted then 130 else 1, false)
  }

  function Next(s: State, o: Options, e: Timed): State {
    match e.event
    case Stdout(chunk) => OnData(s, o, chunk, true, e.at)
    case Stderr(chunk) => OnData(s, o, chunk, false, e.at)
    case WallTimer => OnWallTimer(s, e.at)
    case IdleTimer => OnIdleTimer(s, e.at)
    case GraceTimer => OnGraceTimer(s, e.at)
    case AbortEvent => OnAbortEvent(s, e.at)
    case ChildExits(code, signal) => s.(exitCode := code, signalCode := signal)
    case Close(code) => OnClose(s, code)
    case ErrorEvent => OnError(s)
  }

  /** Everything done before the promise constructor returns. */
  function Entry(o: Options, exitCode: Option<int>, signalCode: Option<string>, now: nat): State {
    var idle := State(None, "", "", Exited, false, false,
                       if Positive(o.wallClockTimeoutMs) then Some(now + o.wallClockTimeoutMs.value) else None,
                       if Positive(o.idleTimeoutMs) then Some(now + o.idleTimeoutMs.value) else None,
                       None, !o.abortedAtEntry, true, exitCode, signalCode, []);
    var armed := if o.abortedAtEntry then OnAbort(idle, now) else idle;
    if exitCode.Some? then Settle(armed, exitCode.value, true) else armed
  }

  function Run(s: State, o: Options, events: seq<Timed>): State {
    if events == [] then s else Next(Run(s, o, events[..|events| - 1]), o, events[|events| - 1])
  }

  // ----- the wait as an object whose handlers update it -----------------------------

  class Waiter {
    const options: Options
    var settled: Option<RunSummary>
    var stdoutTail: string
    var stderrTail: string
    var terminationReason: TerminationReason
    var termSent: bool
    var aborted: bool
    var wallTimer: Option<nat>
    var idleTimer: Option<nat>
    var graceTimer: Option<nat>
    var abortListening: bool
    var dataListening: bool
    var exitCode: Option<int>
    var signalCode: Option<string>
    var sent: seq<Sent>

    function St(): State
      reads this
    {
      State(settled, stdoutTail, stderrTail, terminationReason, termSent, aborted, wallTimer, idleTimer, graceTimer,
            abortListening, dataListening, exitCode, signalCode, sent)
    }

    constructor (options: Options, exitCode: Option<int>, signalCode: Option<string>, now: nat)
      ensures this.options == options && St() == Entry(options, exitCode, signalCode, now)
    {
      this.options := options;
      settled, stdoutTail, stderrTail, terminationReason := None, "", "", Exited;
      termSent, aborted, dataListening, sent := false, false, true, [];
      graceTimer := None;
      wallTimer := if Positive(options.wallClockTimeoutMs) then Some(now + options.wallClockTimeoutMs.value) else None;
      idleTimer := if Positive(options.idleTimeoutMs) then Some(now + options.idleTimeoutMs.value) else None;
      abortListening := !options.abortedAtEntry;
      this.exitCode, this.signalCode := exitCode, signalCode;
      new;
      if options.abortedAtEntry {
        HandleAbort(now);
      }
      if exitCode.Some? {
        SettleWith(exitCode.value, true);
      }
    }

    /** Until the constructor's last line replaces it, cleanup leaves the data listeners attached. */
    method Cleanup(atEntry: bool)
      modifies this`wallTimer, this`idleTimer, this`graceTimer, this`abortListening, this`dataListening
      ensures wallTimer == idleTimer == graceTimer == None && !abortListening
      ensures dataListening == (atEntry && old(dataListening))
    {
      wallTimer, idleTimer, graceTimer := None, None, None;
      abortListening := false;
      if !atEntry {
        dataListening := false;
      }
    }

    method SettleWith(code: int, atEntry: bool)
      modifies this
      ensures St() == Settle(old(St()), code, atEntry)
    {
      if settled.Some? {
        return;
      }
      settled := Some(RunSummary(code, Trim(stdoutTail), Trim(stderrTail), terminationReason, signalCode));
      Cleanup(atEntry);
    }

    method Terminate(signal: Signal, now: nat)
      modifies this`sent
      ensures St() == Send(old(St()), signal, now)
    {
      sent := sent + [Sent(signal, now, exitCode, signalCode)];
    }

    method Kill(now: nat)
      modifies this
      ensures St() == KillChild(old(St()), now)
    {
      if termSent {
        return;
      }
      termSent := true;
      Terminate(SIGTERM, now);
      graceTimer := Some(now + KILL_GRACE_MS);
    }

    method HandleAbort(now: nat)
      modifies this
      ensures St() == OnAbort(old(St()), now)
    {
      aborted := true;
      terminationReason := Aborted;
      Kill(now);
    }

    method HandleData(chunk: string, isStdout: bool, now: nat)
      modifies this
      ensures St() == OnData(old(St()), options, chunk, isStdout, now)
    {
      if !dataListening {
        return;
      }
      if isStdout {
        stdoutTail := AppendTail(stdoutTail, chunk);
      } else {
        stderrTail := AppendTail(stderrTail, chunk);
      }
      if Positive(options.idleTimeoutMs) {
        idleTimer := Some(now + options.idleTimeoutMs.value);
      }
    }

    method FireWallTimer(now: nat)
      modifies this
      ensures St() == OnWallTimer(old(St()), now)
    {
      if Due(wallTimer, now) {
        wallTimer, terminationReason := None, WallClockTimeout;
        Kill(now);
      }
    }

    method FireIdleTimer(now: nat)
      modifies this
      ensures St() == OnIdleTimer(old(St()), now)
    {
      if Due(idleTimer, now) {
        idleTimer, terminationReason := None, IdleTimeout;
        Kill(now);
      }
    }

    method FireGraceTimer(now: nat)
      modifies this
      ensures St() == OnGraceTimer(old(St()), now)
    {
      if Due(graceTimer, now) {
        graceTimer := None;
        if exitCode.None? && signalCode.None? {
          Terminate(SIGKILL, now);
        }
      }
    }

    method HandleAbortEvent(now: nat)
      modifies this
      ensures St() == OnAbortEvent(old(St()), now)
    {
      if abortListening {
        abortListening := false;
        HandleAbort(now);
      }
    }

    method HandleClose(code: Option<int>)
      modifies this
      ensures St() == OnClose(old(St()), code)
    {
      SettleWith(if aborted then 130 else code.GetOr(1), false);
    }

    method HandleError()
      modifies this
      ensures St() == OnError(old(St()))
    {
      terminationReason := SpawnError;
      SettleWith(if aborted then 130 else 1, false);
    }

    /** One event, handled by the handler registered for it. */
    method Handle(e: Timed)
      modifies this
      ensures St() == Next(old(St()), options, e)
    {
      match e.event
      case Stdout(chunk) => HandleData(chunk, true, e.at);
      case Stderr(chunk) => HandleData(chunk, false, e.at);
      case WallTimer => FireWallTimer(e.at);
      case IdleTimer => FireIdleTimer(e.at);
      case GraceTimer => FireGraceTimer(e.at);
      case AbortEvent => HandleAbortEvent(e.at);
      case ChildExits(code, signal) => exitCode, signalCode := code, signal;
      case Close(code) => HandleClose(code);
      case ErrorEvent => HandleError();
    }
  }

  /** A whole wait: whatever happens to the child, the signals sent keep the discipline, the reported code is the
      right one, and when the child had not exited before the wait, its tails are those of the whole streams. */
  method WaitForAgentDetailed(options: Options, exitCode: Option<int>, signalCode: Option<string>, now: nat,
                              events: seq<Timed>)
    returns (waiter: Waiter)
    ensures fresh(waiter) && waiter.options == options
    ensures waiter.St() == Run(Entry(options, exitCode, signalCode, now), options, events)
    ensures SignalsOk(waiter.sent) && CodeOk(waiter.St(), exitCode)
    ensures exitCode.Some? ==>
              waiter.settled == Some(RunSummary(exitCode.value, "", "", if options.abortedAtEntry then Aborted else Exited,
                                                signalCode))
    ensures exitCode.None? && Open(events) ==> waiter.settled.None?
    ensures exitCode.None? ==> forall k :: EndsAt(events, k) ==>
              waiter.settled.Some? && waiter.settled.value.exitCode == EndCode(options, events, k)
    ensures exitCode.None? ==> forall k :: EndsAt(events, k) ==> Reports(waiter.St(), options, signalCode, now, events, k)
    ensures var start := Entry(options, None, signalCode, now);
            exitCode.None? ==>
              TailsOf(waiter.St(), Delivered(start, options, events, true), Delivered(start, options, events, false))
  {
    waiter := new Waiter(options, exitCode, signalCode, now);
    ghost var start := Entry(options, exitCode, signalCode, now);
    for i := 0 to |events|
      invariant fresh(waiter) && waiter.options == options
      invariant waiter.St() == Run(start, options, events[..i])
    {
      assert events[..i + 1][..i] == events[..i];
      waiter.Handle(events[i]);
    }
    assert events[..|events|] == events;
    SignalDiscipline(options, exitCode, signalCode, now, events);
    AbortedMeans130(options, exitCode, signalCode, now, events);
    TailsAreSuffixes(options, signalCode, now, events);
    SummaryOfEvents(options, signalCode, now, events);
    if exitCode.Some? {
      SettledAtEntry(options, exitCode, signalCode, now, events);
    }
  }

  // ----- what holds over every event sequence --------------------------------------

  /** The signals are nothing, one SIGTERM, or one SIGTERM and a later SIGKILL to a child still running. */
  ghost predicate SignalsOk(sent: seq<Sent>) {
    && |sent| <= 2
    && (|sent| >= 1 ==> sent[0].signal == SIGTERM)
    && (|sent| == 2 ==>
          && sent[1].signal == SIGKILL && sent[1].at >= sent[0].at + 5000
          && sent[1].exitCode.None? && sent[1].signalCode.None?)
  }

  ghost predicate Inv(s: State) {
    && SignalsOk(s.sent)
    && (s.termSent <==> s.sent != [])
    && (s.graceDeadline.Some? ==> |s.sent| == 1 && s.graceDeadline.value == s.sent[0].at + KILL_GRACE_MS)
    && (s.aborted ==> s.termSent)
    && (s.settled.Some? ==> s.wallDeadline == None && !s.abortListening)
    && (s.settled.None? ==> s.dataListening)
  }

  lemma EntryInv(o: Options, exitCode: Option<int>, signalCode: Option<string>, now: nat)
    ensures Inv(Entry(o, exitCode, signalCode, now))
  {}

  /** What every handler does to a state: keep the invariant, only add signals, keep a settlement and an abort. */
  ghost predicate Good(s: State, t: State) {
    && Inv(t) && s.sent <= t.sent
    && (s.settled.Some? ==> t.settled == s.settled)
    && (s.aborted ==> t.aborted)
  }

  lemma KillGood(s: State, now: nat)
    requires Inv(s)
    ensures Good(s, KillChild(s, now))
  {}

  lemma TimersGood(s: State, now: nat)
    requires Inv(s)
    ensures Good(s, OnWallTimer(s, now)) && Good(s, OnIdleTimer(s, now))
  {
    KillGood(s.(wallDeadline := None, reason := WallClockTimeout), now);
    KillGood(s.(idleDeadline := None, reason := IdleTimeout), now);
  }

  lemma GraceGood(s: State, now: nat)
    requires Inv(s)
    ensures Good(s, OnGraceTimer(s, now))
  {}

  lemma AbortGood(s: State, now: nat)
    requires Inv(s)
    ensures Good(s, OnAbortEvent(s, now))
  {}

  lemma SettleGood(s: State, code: Option<int>)
    requires Inv(s)
    ensures Good(s, OnClose(s, code)) && Good(s, OnError(s))
  {}

  lemma DataGood(s: State, o: Options, chunk: string, isStdout: bool, now: nat)
    requires Inv(s)
    ensures Good(s, OnData(s, o, chunk, isStdout, now))
  {}

  lemma StepInv(s: State, o: Options, e: Timed)
    requires Inv(s)
    ensures Good(s, Next(s, o, e))
  {
    match e.event
    case Stdout(chunk) => DataGood(s, o, chunk, true, e.at);
    case Stderr(chunk) => DataGood(s, o, chunk, false, e.at);
    case WallTimer => TimersGood(s, e.at);
    case IdleTimer => TimersGood(s, e.at);
    case GraceTimer => GraceGood(s, e.at);
    case AbortEvent => AbortGood(s, e.at);
    case ChildExits(code, signal) =>
    case Close(code) => SettleGood(s, code);
    case ErrorEvent => SettleGood(s, None);
  }

  lemma {:induction false} RunInv(s: State, o: Options, events: seq<Timed>)
    requires Inv(s)
    ensures Inv(Run(s, o, events))
    decreases |events|
  {
    if events != [] {
      RunInv(s, o, events[..|events| - 1]);
      StepInv(Run(s, o, events[..|events| - 1]), o, events[|events| - 1]);
    }
  }

  /** From entry on, whatever happens, the signal log is always one of the allowed ones. */
  lemma {:induction false} SignalDiscipline(o: Options, exitCode: Option<int>, signalCode: Option<string>, now: nat,
                                            events: seq<Timed>)
    ensures SignalsOk(Run(Entry(o, exitCode, signalCode, now), o, events).sent)
  {
    EntryInv(o, exitCode, signalCode, now);
    RunInv(Entry(o, exitCode, signalCode, now), o, events);
  }

  /** Once settled, the summary never changes. */
  lemma {:induction false} SettlesOnce(s: State, o: Options, events: seq<Timed>, k: nat)
    requires Inv(s) && k <= |events| && Run(s, o, events[..k]).settled.Some?
    ensures Run(s, o, events).settled == Run(s, o, events[..k]).settled
    decreases |events|
  {
    if k == |events| {
      assert events[..k] == events;
    } else {
      var before := events[..|events| - 1];
      assert before[..k] == events[..k];
      SettlesOnce(s, o, before, k);
      RunInv(s, o, before);
      StepInv(Run(s, o, before), o, events[|events| - 1]);
    }
  }

  /** A child that had exited already is reported at once, with nothing read from it. */
  lemma {:induction false} SettledAtEntry(o: Options, exitCode: Option<int>, signalCode: Option<string>, now: nat,
                                          events: seq<Timed>)
    requires exitCode.Some?
    ensures Run(Entry(o, exitCode, signalCode, now), o, events).settled
            == Some(RunSummary(exitCode.value, "", "", if o.abortedAtEntry then Aborted else Exited, signalCode))
  {
    var start := Entry(o, exitCode, signalCode, now);
    EntryInv(o, exitCode, signalCode, now);
    assert events[..0] == [];
    SettlesOnce(start, o, events, 0);
    assert Trim("") == "";
  }

  // ----- silence after settling --------------------------------------------------------

  /** A settled wait has nothing left that could send a signal. */
  ghost predicate Disarmed(s: State, o: Options) {
    s.settled.Some? ==>
      && s.wallDeadline == None && s.graceDeadline == None && !s.abortListening
      && (s.termSent || (s.idleDeadline == None && (!s.dataListening || !Positive(o.idleTimeoutMs))))
  }

  lemma StepDisarmed(s: State, o: Options, e: Timed)
    requires Disarmed(s, o)
    ensures Disarmed(Next(s, o, e), o)
    ensures s.settled.Some? ==> Next(s, o, e).settled.Some? && Next(s, o, e).sent == s.sent
  {
    match e.event
    case Stdout(chunk) =>
    case Stderr(chunk) =>
    case WallTimer =>
    case IdleTimer =>
    case GraceTimer =>
    case AbortEvent =>
    case ChildExits(code, signal) =>
    case Close(code) =>
    case ErrorEvent =>
  }

  lemma {:induction false} StaysDisarmed(s: State, o: Options, events: seq<Timed>, k: nat)
    requires Disarmed(s, o) && k <= |events|
    ensures Disarmed(Run(s, o, events), o)
    ensures Run(s, o, events[..k]).settled.Some? ==>
              Run(s, o, events).settled.Some? && Run(s, o, events).sent == Run(s, o, events[..k]).sent
    decreases |events|
  {
    if events == [] {
      assert events[..k] == events;
    } else {
      var before := events[..|events| - 1];
      StaysDisarmed(s, o, before, 0);
      StepDisarmed(Run(s, o, before), o, events[|events| - 1]);
      if k == |events| {
        assert events[..k] == events;
      } else {
        assert before[..k] == events[..k];
        StaysDisarmed(s, o, before, k);
      }
    }
  }

  ghost predicate SilentAfterSettling(o: Options, exitCode: Option<int>, signalCode: Option<string>, now: nat,
                                      events: seq<Timed>, k: nat)
    requires k <= |events|
  {
    var s := Entry(o, exitCode, signalCode, now);
    Run(s, o, events[..k]).settled.Some? ==> Run(s, o, events).sent == Run(s, o, events[..k]).sent
  }

  /** Nothing is signalled after settling, in every run - unless the child had exited before the wait began
      while an idle timeout was set and no abort was pending: output still in the pipe then re-arms the idle
      timer behind the settled wait. */
  lemma SilenceAfterSettling(o: Options, exitCode: Option<int>, signalCode: Option<string>, now: nat)
    ensures (forall events, k :: 0 <= k <= |events| ==> SilentAfterSettling(o, exitCode, signalCode, now, events, k))
            <==> exitCode.None? || o.abortedAtEntry || !Positive(o.idleTimeoutMs)
  {
    var s := Entry(o, exitCode, signalCode, now);
    if exitCode.None? || o.abortedAtEntry || !Positive(o.idleTimeoutMs) {
      forall events: seq<Timed>, k | 0 <= k <= |events|
        ensures SilentAfterSettling(o, exitCode, signalCode, now, events, k)
      {
        StaysDisarmed(s, o, events, k);
      }
    } else {
      var data, fire := Timed(now, Stdout("")), Timed(now + o.idleTimeoutMs.value, IdleTimer);
      var events := [data, fire];
      assert events[..0] == [] && events[..1] == [data] && [data][..0] == [];
      assert Run(s, o, [data]) == Next(s, o, data);
      assert Run(s, o, events) == Next(Next(s, o, data), o, fire);
      assert |Run(s, o, events).sent| == 1 && Run(s, o, events[..0]).sent == [];
      assert !SilentAfterSettling(o, exitCode, signalCode, now, events, 0);
    }
  }

  /** The code a settled wait reports. */
  ghost predicate CodeOk(s: State, exitCode: Option<int>) {
    && (exitCode.Some? ==> s.settled.Some? && s.settled.value.exitCode == exitCode.value)
    && (s.settled.Some? && exitCode.None? && s.aborted ==> s.settled.value.exitCode == 130)
  }

  lemma KillCode(s: State, now: nat, exitCode: Option<int>)
    requires CodeOk(s, exitCode)
    ensures CodeOk(KillChild(s, now), exitCode)
  {}

  lemma TimerCode(s: State, now: nat, exitCode: Option<int>)
    requires CodeOk(s, exitCode)
    ensures CodeOk(OnWallTimer(s, now), exitCode) && CodeOk(OnIdleTimer(s, now), exitCode)
    ensures CodeOk(OnGraceTimer(s, now), exitCode)
  {
    KillCode(s.(wallDeadline := None, reason := WallClockTimeout), now, exitCode);
    KillCode(s.(idleDeadline := None, reason := IdleTimeout), now, exitCode);
  }

  lemma AbortCode(s: State, now: nat, exitCode: Option<int>)
    requires Inv(s) && CodeOk(s, exitCode)
    ensures CodeOk(OnAbortEvent(s, now), exitCode)
  {}

  lemma DataCode(s: State, o: Options, chunk: string, isStdout: bool, now: nat, exitCode: Option<int>)
    requires CodeOk(s, exitCode)
    ensures CodeOk(OnData(s, o, chunk, isStdout, now), exitCode)
  {}

  lemma SettleCode(s: State, code: Option<int>, exitCode: Option<int>)
    requires CodeOk(s, exitCode)
    ensures CodeOk(OnClose(s, code), exitCode) && CodeOk(OnError(s), exitCode)
  {}

  lemma StepCode(s: State, o: Options, e: Timed, exitCode: Option<int>)
    requires Inv(s) && CodeOk(s, exitCode)
    ensures CodeOk(Next(s, o, e), exitCode)
  {
    match e.event
    case Stdout(chunk) => DataCode(s, o, chunk, true, e.at, exitCode);
    case Stderr(chunk) => DataCode(s, o, chunk, false, e.at, exitCode);
    case WallTimer => TimerCode(s, e.at, exitCode);
    case IdleTimer => TimerCode(s, e.at, exitCode);
    case GraceTimer => TimerCode(s, e.at, exitCode);
    case AbortEvent => AbortCode(s, e.at, exitCode);
    case ChildExits(_, _) =>
    case Close(code) => SettleCode(s, code, exitCode);
    case ErrorEvent => SettleCode(s, None, exitCode);
  }

  /** An aborted wait reports 130 - except when the child had already exited at entry, where its own code wins. */
  lemma {:induction false} AbortedMeans130(o: Options, exitCode: Option<int>, signalCode: Option<string>, now: nat,
                                           events: seq<Timed>)
    ensures CodeOk(Run(Entry(o, exitCode, signalCode, now), o, events), exitCode)
    decreases |events|
  {
    var start := Entry(o, exitCode, signalCode, now);
    EntryInv(o, exitCode, signalCode, now);
    if events != [] {
      var before := events[..|events| - 1];
      AbortedMeans130(o, exitCode, signalCode, now, before);
      RunInv(start, o, before);
      StepCode(Run(start, o, before), o, events[|events| - 1], exitCode);
    }
  }

  // ----- tails -------------------------------------------------------------------------

  /** All text one stream delivered while the wait was unsettled. */
  ghost function Delivered(s: State, o: Options, events: seq<Timed>, isStdout: bool): string
    decreases |events|
  {
    if events == [] then ""
    else
      var before, last := events[..|events| - 1], events[|events| - 1].event;
      Delivered(s, o, before, isStdout) +
      if Run(s, o, before).settled.Some? then ""
      else if isStdout && last.Stdout? then last.chunk
      else if !isStdout && last.Stderr? then last.chunk
      else ""
  }

  /** Cutting early or late makes no difference to the last 4000 characters. */
  lemma TailOfTail(x: string, y: string)
    ensures LastChars(LastChars(x) + y) == LastChars(x + y)
  {}

  /** The tails of s are the last 4000 characters of these two texts, and a settlement holds them trimmed. */
  ghost predicate TailsOf(s: State, out: string, err: string) {
    && s.stdoutTail == (if |out| <= 4000 then out else out[|out| - 4000..])
    && s.stderrTail == (if |err| <= 4000 then err else err[|err| - 4000..])
    && (s.settled.Some? ==> s.settled.value.stdoutTail == Trim(s.stdoutTail)
                            && s.settled.value.stderrTail == Trim(s.stderrTail))
  }

  ghost predicate Listening(s: State) {
    s.dataListening <==> s.settled.None?
  }

  lemma DataTails(s: State, o: Options, chunk: string, isStdout: bool, now: nat, out: string, err: string)
    requires TailsOf(s, out, err) && Listening(s)
    ensures var t := OnData(s, o, chunk, isStdout, now);
            && Listening(t)
            && TailsOf(t, if s.settled.None? && isStdout then out + chunk else out,
                          if s.settled.None? && !isStdout then err + chunk else err)
  {
    TailOfTail(out, chunk);
    TailOfTail(err, chunk);
  }

  lemma SettleTails(s: State, code: int, out: string, err: string)
    requires TailsOf(s, out, err) && Listening(s)
    ensures TailsOf(Settle(s, code, false), out, err) && Listening(Settle(s, code, false))
  {}

  lemma QuietFields(s: State, o: Options, e: Timed)
    requires !e.event.Stdout? && !e.event.Stderr? && !e.event.Close? && !e.event.ErrorEvent?
    ensures var t := Next(s, o, e);
            t.stdoutTail == s.stdoutTail && t.stderrTail == s.stderrTail
            && t.settled == s.settled && t.dataListening == s.dataListening
  {
    match e.event
    case WallTimer => KillIsQuiet(s.(wallDeadline := None, reason := WallClockTimeout), e.at);
    case IdleTimer => KillIsQuiet(s.(idleDeadline := None, reason := IdleTimeout), e.at);
    case AbortEvent => AbortIsQuiet(s, e.at);
    case GraceTimer =>
    case ChildExits(_, _) =>
  }

  lemma KillIsQuiet(s: State, now: nat)
    ensures var t := KillChild(s, now);
            t.stdoutTail == s.stdoutTail && t.stderrTail == s.stderrTail
            && t.settled == s.settled && t.dataListening == s.dataListening
  {}

  lemma AbortIsQuiet(s: State, now: nat)
    ensures var t := OnAbortEvent(s, now);
            t.stdoutTail == s.stdoutTail && t.stderrTail == s.stderrTail
            && t.settled == s.settled && t.dataListening == s.dataListening
  {}

  lemma OtherTails(s: State, o: Options, e: Timed, out: string, err: string)
    requires TailsOf(s, out, err) && Listening(s) && !e.event.Stdout? && !e.event.Stderr?
    ensures TailsOf(Next(s, o, e), out, err) && Listening(Next(s, o, e))
  {
    if e.event.Close? {
      SettleTails(s, if s.aborted then 130 else e.event.code.GetOr(1), out, err);
    } else if e.event.ErrorEvent? {
      SettleTails(s.(reason := SpawnError), if s.aborted then 130 else 1, out, err);
    } else {
      QuietFields(s, o, e);
    }
  }

  /** However the streams were chunked, the tails are the last 4000 characters of each whole stream. */
  lemma {:induction false} TailsAreSuffixes(o: Options, signalCode: Option<string>, now: nat, events: seq<Timed>)
    ensures var start := Entry(o, None, signalCode, now);
            var s := Run(start, o, events);
            && TailsOf(s, Delivered(start, o, events, true), Delivered(start, o, events, false))
            && Listening(s)
    decreases |events|
  {
    var start := Entry(o, None, signalCode, now);
    if events != [] {
      var before, last := events[..|events| - 1], events[|events| - 1];
      TailsAreSuffixes(o, signalCode, now, before);
      StepTails(Run(start, o, before), o, last, Delivered(start, o, before, true), Delivered(start, o, before, false));
    }
  }

  /** What one event adds to the text of a stream. */
  ghost function Adds(s: State, e: Event, isStdout: bool): string {
    if s.settled.Some? then ""
    else if isStdout && e.Stdout? then e.chunk
    else if !isStdout && e.Stderr? then e.chunk
    else ""
  }

  lemma StepTails(s: State, o: Options, e: Timed, out: string, err: string)
    requires TailsOf(s, out, err) && Listening(s)
    ensures TailsOf(Next(s, o, e), out + Adds(s, e.event, true), err + Adds(s, e.event, false)) && Listening(Next(s, o, e))
  {
    assert out + "" == out && err + "" == err;
    match e.event
    case Stdout(chunk) => DataTails(s, o, chunk, true, e.at, out, err);
    case Stderr(chunk) => DataTails(s, o, chunk, false, e.at, out, err);
    case _ => OtherTails(s, o, e, out, err);
  }

  // ----- the whole wait, read off its events ---------------------------------------------

  predicate IsEnd(e: Event) {
    e.Close? || e.ErrorEvent?
  }

  ghost predicate Open(events: seq<Timed>) {
    forall i :: 0 <= i < |events| ==> !IsEnd(events[i].event)
  }

  /** The first 'close' or 'error' of the child. */
  ghost predicate EndsAt(events: seq<Timed>, k: nat) {
    k < |events| && IsEnd(events[k].event) && Open(events[..k])
  }

  ghost predicate AbortRequested(o: Options, events: seq<Timed>) {
    o.abortedAtEntry || exists i :: 0 <= i < |events| && events[i].event.AbortEvent?
  }

  /** What a wait on a running child reports when its first 'close' or 'error' is event k. */
  ghost function EndCode(o: Options, events: seq<Timed>, k: nat): int
    requires k < |events|
  {
    if AbortRequested(o, events[..k]) then 130
    else match events[k].event case Close(code) => code.GetOr(1) case _ => 1
  }

  predicate WallRanOut(o: Options, now: nat, e: Timed) {
    Positive(o.wallClockTimeoutMs) && e.event.WallTimer? && e.at >= now + o.wallClockTimeoutMs.value
  }

  ghost predicate WallRanOutIn(o: Options, now: nat, events: seq<Timed>) {
    exists i :: 0 <= i < |events| && WallRanOut(o, now, events[i])
  }

  /** The last output, or the beginning of the wait, unless the idle limit has run out since. */
  function IdleSince(o: Options, now: nat, events: seq<Timed>): Option<nat> {
    if events == [] then Some(now)
    else
      var before, last := events[..|events| - 1], events[|events| - 1];
      if last.event.Stdout? || last.event.Stderr? then Some(last.at)
      else if IdleRanOut(o, IdleSince(o, now, before), last) then None
      else IdleSince(o, now, before)
  }

  predicate IdleRanOut(o: Options, since: Option<nat>, e: Timed) {
    Positive(o.idleTimeoutMs) && e.event.IdleTimer? && since.Some? && e.at >= since.value + o.idleTimeoutMs.value
  }

  /** Why event e, after these, stops the child, if it does. */
  ghost function Cause(o: Options, now: nat, before: seq<Timed>, e: Timed): Option<TerminationReason> {
    if e.event.AbortEvent? && !AbortRequested(o, before) then Some(Aborted)
    else if WallRanOut(o, now, e) && !WallRanOutIn(o, now, before) then Some(WallClockTimeout)
    else if IdleRanOut(o, IdleSince(o, now, before), e) then Some(IdleTimeout)
    else None
  }

  ghost function LastCause(o: Options, now: nat, events: seq<Timed>): TerminationReason {
    if events == [] then (if o.abortedAtEntry then Aborted else Exited)
    else Cause(o, now, events[..|events| - 1], events[|events| - 1]).GetOr(LastCause(o, now, events[..|events| - 1]))
  }

  /** When the child was first told to stop. */
  ghost function StoppedAt(o: Options, now: nat, events: seq<Timed>): Option<nat> {
    if events == [] then (if o.abortedAtEntry then Some(now) else None)
    else
      var before, last := events[..|events| - 1], events[|events| - 1];
      if StoppedAt(o, now, before).Some? then StoppedAt(o, now, before)
      else if Cause(o, now, before, last).Some? then Some(last.at)
      else None
  }

  /** The child's own exit fields after these events. */
  function ExitFields(signalCode: Option<string>, events: seq<Timed>): (Option<int>, Option<string>) {
    if events == [] then (None, signalCode)
    else
      match events[|events| - 1].event
      case ChildExits(code, signal) => (code, signal)
      case _ => ExitFields(signalCode, events[..|events| - 1])
  }

  /** The grace period is over at this event, and was not at an earlier one. */
  ghost predicate GraceEnds(o: Options, now: nat, events: seq<Timed>, i: nat) {
    && i < |events| && GraceOver(o, now, events, i)
    && forall j :: 0 <= j < i ==> !GraceOver(o, now, events, j)
  }

  ghost predicate GraceOver(o: Options, now: nat, events: seq<Timed>, i: nat)
    requires i < |events|
  {
    && events[i].event.GraceTimer? && StoppedAt(o, now, events[..i]).Some?
    && events[i].at >= StoppedAt(o, now, events[..i]).value + 5000
  }

  ghost predicate GraceOverIn(o: Options, now: nat, events: seq<Timed>) {
    exists i :: 0 <= i < |events| && GraceOver(o, now, events, i)
  }

  ghost predicate KillsAt(o: Options, signalCode: Option<string>, now: nat, events: seq<Timed>, i: nat) {
    GraceEnds(o, now, events, i) && ExitFields(signalCode, events[..i]) == (None, None)
  }

  /** The timers and flags of a wait that has not ended, as its history says. */
  ghost predicate Follows(s: State, o: Options, signalCode: Option<string>, now: nat, events: seq<Timed>) {
    && s.settled.None? && s.dataListening
    && (s.aborted <==> AbortRequested(o, events)) && (s.abortListening <==> !AbortRequested(o, events))
    && s.wallDeadline == (if Positive(o.wallClockTimeoutMs) && !WallRanOutIn(o, now, events)
                          then Some(now + o.wallClockTimeoutMs.value) else None)
    && s.idleDeadline == (if Positive(o.idleTimeoutMs) && IdleSince(o, now, events).Some?
                          then Some(IdleSince(o, now, events).value + o.idleTimeoutMs.value) else None)
    && s.reason == LastCause(o, now, events)
    && (s.exitCode, s.signalCode) == ExitFields(signalCode, events)
  }

  /** And its signals: SIGTERM when first told to stop, SIGKILL when the grace period ended on a running child. */
  ghost predicate Signalled(s: State, o: Options, signalCode: Option<string>, now: nat, events: seq<Timed>) {
    var stopped := StoppedAt(o, now, events);
    && (s.termSent <==> stopped.Some?) && (s.sent == [] <==> stopped.None?)
    && (s.sent != [] ==> s.sent[0].signal == SIGTERM && s.sent[0].at == stopped.value)
    && s.graceDeadline == (if stopped.Some? && !GraceOverIn(o, now, events)
                           then Some(stopped.value + KILL_GRACE_MS) else None)
    && (|s.sent| == 2 <==> exists i :: KillsAt(o, signalCode, now, events, i))
  }

  lemma HistorySnoc(o: Options, now: nat, events: seq<Timed>)
    requires events != []
    ensures var (before, last) := (events[..|events| - 1], events[|events| - 1]);
            && (Open(events) ==> Open(before) && !IsEnd(last.event))
            && (AbortRequested(o, events) <==> AbortRequested(o, before) || last.event.AbortEvent?)
            && (WallRanOutIn(o, now, events) <==> WallRanOutIn(o, now, before) || WallRanOut(o, now, last))
  {
    var n := |events| - 1;
    assert forall i :: 0 <= i < n ==> events[..n][i] == events[i];
  }

  lemma GraceSnoc(o: Options, signalCode: Option<string>, now: nat, events: seq<Timed>)
    requires events != []
    ensures var (before, n) := (events[..|events| - 1], |events| - 1);
            && (GraceOverIn(o, now, events) <==> GraceOverIn(o, now, before) || GraceOver(o, now, events, n))
            && ((exists i :: KillsAt(o, signalCode, now, events, i)) <==>
                  (exists i :: KillsAt(o, signalCode, now, before, i)) || KillsAt(o, signalCode, now, events, n))
  {
    var before, n := events[..|events| - 1], |events| - 1;
    forall i | 0 <= i < n
      ensures GraceOver(o, now, events, i) <==> GraceOver(o, now, before, i)
      ensures ExitFields(signalCode, before[..i]) == ExitFields(signalCode, events[..i])
    {
      assert before[..i] == events[..i];
    }
    forall i | 0 <= i < n ensures KillsAt(o, signalCode, now, events, i) <==> KillsAt(o, signalCode, now, before, i) {
      assert GraceEnds(o, now, events, i) <==> GraceEnds(o, now, before, i);
    }
  }

  lemma {:induction false} FollowsStep(s: State, o: Options, signalCode: Option<string>, now: nat, events: seq<Timed>)
    requires events != [] && Open(events) && Follows(s, o, signalCode, now, events[..|events| - 1])
    ensures Follows(Next(s, o, events[|events| - 1]), o, signalCode, now, events)
  {
    match events[|events| - 1].event
    case WallTimer => FollowsWall(s, o, signalCode, now, events);
    case IdleTimer => FollowsIdle(s, o, signalCode, now, events);
    case AbortEvent => FollowsAbort(s, o, signalCode, now, events);
    case Stdout(_) => FollowsData(s, o, signalCode, now, events);
    case Stderr(_) => FollowsData(s, o, signalCode, now, events);
    case _ => FollowsOther(s, o, signalCode, now, events);
  }

  lemma {:induction false} FollowsWall(s: State, o: Options, signalCode: Option<string>, now: nat, events: seq<Timed>)
    requires events != [] && Open(events) && Follows(s, o, signalCode, now, events[..|events| - 1])
    requires events[|events| - 1].event.WallTimer?
    ensures Follows(Next(s, o, events[|events| - 1]), o, signalCode, now, events)
  {
    var e := events[|events| - 1];
    HistorySnoc(o, now, events);
    if Due(s.wallDeadline, e.at) {
      KillKeeps(s.(wallDeadline := None, reason := WallClockTimeout), e.at);
    }
  }

  lemma {:induction false} FollowsIdle(s: State, o: Options, signalCode: Option<string>, now: nat, events: seq<Timed>)
    requires events != [] && Open(events) && Follows(s, o, signalCode, now, events[..|events| - 1])
    requires events[|events| - 1].event.IdleTimer?
    ensures Follows(Next(s, o, events[|events| - 1]), o, signalCode, now, events)
  {
    var e := events[|events| - 1];
    HistorySnoc(o, now, events);
    if Due(s.idleDeadline, e.at) {
      KillKeeps(s.(idleDeadline := None, reason := IdleTimeout), e.at);
    }
  }

  lemma {:induction false} FollowsAbort(s: State, o: Options, signalCode: Option<string>, now: nat, events: seq<Timed>)
    requires events != [] && Open(events) && Follows(s, o, signalCode, now, events[..|events| - 1])
    requires events[|events| - 1].event.AbortEvent?
    ensures Follows(Next(s, o, events[|events| - 1]), o, signalCode, now, events)
  {
    var e := events[|events| - 1];
    HistorySnoc(o, now, events);
    if s.abortListening {
      KillKeeps(s.(abortListening := false, aborted := true, reason := Aborted), e.at);
    }
  }

  lemma {:induction false} FollowsOther(s: State, o: Options, signalCode: Option<string>, now: nat, events: seq<Timed>)
    requires events != [] && Open(events) && Follows(s, o, signalCode, now, events[..|events| - 1])
    requires events[|events| - 1].event.GraceTimer? || events[|events| - 1].event.ChildExits?
    ensures Follows(Next(s, o, events[|events| - 1]), o, signalCode, now, events)
  {
    var e := events[|events| - 1];
    HistorySnoc(o, now, events);
  }

  lemma {:induction false} FollowsData(s: State, o: Options, signalCode: Option<string>, now: nat, events: seq<Timed>)
    requires events != [] && Open(events) && Follows(s, o, signalCode, now, events[..|events| - 1])
    requires events[|events| - 1].event.Stdout? || events[|events| - 1].event.Stderr?
    ensures Follows(Next(s, o, events[|events| - 1]), o, signalCode, now, events)
  {
    var e := events[|events| - 1];
    HistorySnoc(o, now, events);
  }

  /** Telling the child to stop changes nothing but the signals and the grace timer. */
  lemma KillKeeps(s: State, now: nat)
    ensures var t := KillChild(s, now);
            t == s.(termSent := true, sent := t.sent, graceDeadline := t.graceDeadline)
  {}

  lemma {:induction false} SignalledStep(s: State, o: Options, signalCode: Option<string>, now: nat, events: seq<Timed>)
    requires events != [] && Open(events) && Follows(s, o, signalCode, now, events[..|events| - 1])
    requires Inv(s) && Signalled(s, o, signalCode, now, events[..|events| - 1])
    ensures Signalled(Next(s, o, events[|events| - 1]), o, signalCode, now, events)
  {
    var before, e := events[..|events| - 1], events[|events| - 1];
    HistorySnoc(o, now, events);
    GraceSnoc(o, signalCode, now, events);
    if Cause(o, now, before, e).Some? {
      StopStep(s, o, signalCode, now, events);
    } else if e.event.GraceTimer? {
      GraceStep(s, o, signalCode, now, events);
    } else {
      NoCauseIsQuiet(s, o, signalCode, now, events);
    }
  }

  lemma {:induction false} NoCauseIsQuiet(s: State, o: Options, signalCode: Option<string>, now: nat, events: seq<Timed>)
    requires events != [] && Open(events) && Follows(s, o, signalCode, now, events[..|events| - 1])
    requires Cause(o, now, events[..|events| - 1], events[|events| - 1]).None? && !events[|events| - 1].event.GraceTimer?
    ensures var t := Next(s, o, events[|events| - 1]);
            t.sent == s.sent && t.termSent == s.termSent && t.graceDeadline == s.graceDeadline
  {}

  lemma {:induction false} StopStep(s: State, o: Options, signalCode: Option<string>, now: nat, events: seq<Timed>)
    requires events != [] && Open(events) && Follows(s, o, signalCode, now, events[..|events| - 1])
    requires Inv(s) && Signalled(s, o, signalCode, now, events[..|events| - 1])
    requires Cause(o, now, events[..|events| - 1], events[|events| - 1]).Some?
    ensures Signalled(Next(s, o, events[|events| - 1]), o, signalCode, now, events)
  {
    GraceSnoc(o, signalCode, now, events);
    CauseKills(s, o, signalCode, now, events);
    if !s.termSent {
      NoGraceYet(o, now, events[..|events| - 1]);
    }
  }

  lemma {:induction false} CauseKills(s: State, o: Options, signalCode: Option<string>, now: nat, events: seq<Timed>)
    requires events != [] && Open(events) && Follows(s, o, signalCode, now, events[..|events| - 1])
    requires Cause(o, now, events[..|events| - 1], events[|events| - 1]).Some?
    ensures var (e, t) := (events[|events| - 1], Next(s, o, events[|events| - 1]));
            && t.termSent
            && t.sent == (if s.termSent then s.sent else s.sent + [Sent(SIGTERM, e.at, s.exitCode, s.signalCode)])
            && t.graceDeadline == (if s.termSent then s.graceDeadline else Some(e.at + KILL_GRACE_MS))
  {}

  lemma {:induction false} NoGraceYet(o: Options, now: nat, events: seq<Timed>)
    requires StoppedAt(o, now, events).None?
    ensures !GraceOverIn(o, now, events)
  {
    forall i | 0 <= i < |events| ensures StoppedAt(o, now, events[..i]).None? {
      if StoppedAt(o, now, events[..i]).Some? {
        StoppedStays(o, now, events, i);
      }
    }
  }

  lemma {:induction false} StoppedStays(o: Options, now: nat, events: seq<Timed>, i: nat)
    requires i <= |events| && StoppedAt(o, now, events[..i]).Some?
    ensures StoppedAt(o, now, events) == StoppedAt(o, now, events[..i])
    decreases |events|
  {
    if i < |events| {
      assert events[..|events| - 1][..i] == events[..i];
      StoppedStays(o, now, events[..|events| - 1], i);
    } else {
      assert events[..i] == events;
    }
  }

  lemma {:induction false} GraceStep(s: State, o: Options, signalCode: Option<string>, now: nat, events: seq<Timed>)
    requires events != [] && Open(events) && Follows(s, o, signalCode, now, events[..|events| - 1])
    requires Inv(s) && Signalled(s, o, signalCode, now, events[..|events| - 1])
    requires events[|events| - 1].event.GraceTimer?
    ensures Signalled(Next(s, o, events[|events| - 1]), o, signalCode, now, events)
  {
    var before, n := events[..|events| - 1], |events| - 1;
    GraceSnoc(o, signalCode, now, events);
    assert GraceEnds(o, now, events, n) <==> GraceOver(o, now, events, n) && !GraceOverIn(o, now, before) by {
      forall j | 0 <= j < n ensures GraceOver(o, now, events, j) <==> GraceOver(o, now, before, j) {
        assert before[..j] == events[..j];
      }
    }
  }

  /** A wait on a running child, as long as it has not ended. */
  lemma {:induction false} OpenWait(o: Options, signalCode: Option<string>, now: nat, events: seq<Timed>)
    requires Open(events)
    ensures var s := Run(Entry(o, None, signalCode, now), o, events);
            Inv(s) && Follows(s, o, signalCode, now, events) && Signalled(s, o, signalCode, now, events)
    decreases |events|
  {
    var start := Entry(o, None, signalCode, now);
    EntryInv(o, None, signalCode, now);
    if events == [] {
      assert !WallRanOutIn(o, now, events) && !GraceOverIn(o, now, events);
    } else {
      var before := events[..|events| - 1];
      HistorySnoc(o, now, events);
      OpenWait(o, signalCode, now, before);
      StepInv(Run(start, o, before), o, events[|events| - 1]);
      FollowsStep(Run(start, o, before), o, signalCode, now, events);
      SignalledStep(Run(start, o, before), o, signalCode, now, events);
    }
  }

  /** A wait on a running child is open until the first 'close' or 'error' of the child, which settles it for good:
      with 130 when an abort was requested before, else with the code it closes with, else with 1; and with the last
      cause that stopped the child as the reason, or the spawn error. */
  lemma {:induction false} SummaryOfEvents(o: Options, signalCode: Option<string>, now: nat, events: seq<Timed>)
    ensures var s := Run(Entry(o, None, signalCode, now), o, events);
            && (Open(events) ==> s.settled.None?)
            && forall k :: EndsAt(events, k) ==> Reports(s, o, signalCode, now, events, k)
  {
    var start := Entry(o, None, signalCode, now);
    if Open(events) {
      OpenWait(o, signalCode, now, events);
    }
    forall k: nat | EndsAt(events, k)
      ensures Reports(Run(start, o, events), o, signalCode, now, events, k)
    {
      EndSettles(o, signalCode, now, events, k);
      EntryInv(o, None, signalCode, now);
      SettlesOnce(start, o, events, k + 1);
    }
  }

  ghost predicate Reports(s: State, o: Options, signalCode: Option<string>, now: nat, events: seq<Timed>, k: nat)
    requires k < |events|
  {
    && s.settled.Some? && s.settled.value.exitCode == EndCode(o, events, k)
    && s.settled.value.reason == (if events[k].event.ErrorEvent? then SpawnError else LastCause(o, now, events[..k]))
    && s.settled.value.signalCode == ExitFields(signalCode, events[..k]).1
  }

  lemma {:induction false} EndSettles(o: Options, signalCode: Option<string>, now: nat, events: seq<Timed>, k: nat)
    requires EndsAt(events, k)
    ensures Reports(Run(Entry(o, None, signalCode, now), o, events[..k + 1]), o, signalCode, now, events, k)
  {
    var start := Entry(o, None, signalCode, now);
    OpenWait(o, signalCode, now, events[..k]);
    assert events[..k + 1][..k] == events[..k] && events[..k + 1][k] == events[k];
    assert Run(start, o, events[..k + 1]) == Next(Run(start, o, events[..k]), o, events[k]);
  }

  /** The signals a wait on a running child has sent, as long as it is open: SIGTERM at the first cause - an abort, the
      wall-clock limit or the idle limit running out - and SIGKILL when the grace period ends on a child that is still
      running; and nothing once it has ended. */
  lemma {:induction false} SignalsOfEvents(o: Options, signalCode: Option<string>, now: nat, events: seq<Timed>, k: nat)
    requires k <= |events| && Open(events[..k]) && (k < |events| ==> IsEnd(events[k].event))
    ensures var sent := Run(Entry(o, None, signalCode, now), o, events).sent;
            && (sent == [] <==> StoppedAt(o, now, events[..k]).None?)
            && (sent != [] ==> sent[0].signal == SIGTERM && sent[0].at == StoppedAt(o, now, events[..k]).value)
            && (|sent| == 2 <==> exists i :: KillsAt(o, signalCode, now, events[..k], i))
  {
    OpenWait(o, signalCode, now, events[..k]);
    if k < |events| {
      EndIsSilent(o, signalCode, now, events, k);
    } else {
      assert events[..k] == events;
    }
  }

  lemma {:induction false} EndIsSilent(o: Options, signalCode: Option<string>, now: nat, events: seq<Timed>, k: nat)
    requires EndsAt(events, k)
    ensures var start := Entry(o, None, signalCode, now);
            Run(start, o, events).sent == Run(start, o, events[..k]).sent
  {
    var start := Entry(o, None, signalCode, now);
    OpenWait(o, signalCode, now, events[..k]);
    assert events[..k + 1][..k] == events[..k] && events[..k + 1][k] == events[k];
    assert Run(start, o, events[..k + 1]) == Next(Run(start, o, events[..k]), o, events[k]);
    SilenceAfterSettling(o, None, signalCode, now);
    assert SilentAfterSettling(o, None, signalCode, now, events, k + 1);
  }

  /** It was told to stop exactly when some event was a cause, or it was aborted from the start. */
  lemma {:induction false} StoppedIff(o: Options, now: nat, events: seq<Timed>)
    ensures StoppedAt(o, now, events).Some? <==>
            o.abortedAtEntry || exists i :: 0 <= i < |events| && Cause(o, now, events[..i], events[i]).Some?
  {
    if events != [] {
      var before, n := events[..|events| - 1], |events| - 1;
      StoppedIff(o, now, before);
      forall i | 0 <= i < n ensures Cause(o, now, events[..i], events[i]) == Cause(o, now, before[..i], before[i]) {
        assert before[..i] == events[..i];
      }
    }
  }
}
