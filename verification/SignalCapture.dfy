/**
 The signal-cookie capture protocol of src/signalEvent.cpp and src/profiler.cpp as a state machine:
 any number of signal handlers, each one atomic operation at a time, interleaved with the lifecycle
 commands, which hold the profiler's state lock.
 */
module SignalCapture {
  import opened Bytes

  const CLOSED: nat := 0x8000_0000_0000_0000

  /** Number of admitted handlers in a gate word. */
  function Count(gate: u64): nat { if IsClosed(gate) then gate - CLOSED else gate }

  predicate IsClosed(gate: u64) { gate >= CLOSED }

  /** `gate | CLOSED`. */
  function Close(gate: u64): u64 { if IsClosed(gate) then gate else gate + CLOSED }

  function HighWord(cookie: u64): u32 { cookie / 0x1_0000_0000 }

  function LowWord(cookie: u64): u32 { cookie % 0x1_0000_0000 }

  datatype Signal = Signal(allowed: bool, cookie: u64)

  /** Where a thread is in `cookieSignalHandler`. */
  datatype Handler =
    | Outside
    | Loaded(gate: u64, sig: Signal)
    | Admitted(sig: Signal)
    | Counted(sig: Signal)
    | EpochRead(sig: Signal, epoch: u32)
    | Accepted(sig: Signal)
    | Recorded(ok: bool)
    | Leaving

  datatype Counters = Counters(admitted: nat, invalid: nat, zeroCookie: nat, zeroSequence: nat, stale: nat,
                               accepted: nat, failures: nat, submitted: nat)

  function NoSignals(): Counters { Counters(0, 0, 0, 0, 0, 0, 0, 0) }

  datatype Terminal = NoTerminal | Terminal(id: string, epoch: u32, stats: Counters, stoppedAt: u64, finalized: bool, reason: string)

  /** Characters of a reason that the terminal record has room for. */
  const REASON_ROOM: nat := 31

  /** A reason as the record keeps it. */
  function InRecord(reason: string): string { if |reason| <= REASON_ROOM then reason else reason[..REASON_ROOM] }

  datatype ProfilerState = New | Idle | Active | Terminated

  /** What the holder of the state lock is doing. */
  datatype Phase =
    | Free
    | Burned(id: string)
    | Preparing(id: string)
    | Reserved
    | Publishing
    | Aborting
    | AbortDrained
    | Stopping(reason: string)
    | Drained(reason: string)
    | Frozen(reason: string)

  /** A recorded sample, with the capture (a position in `burned`) it landed in. */
  datatype Sample = Sample(cookie: u64, capture: nat)

  /** A signal that was sorted into a class, with the capture that admitted it. */
  datatype Decision = Decision(sig: Signal, capture: nat)

  /** `burned`, `log` and `decided` are history: all epochs ever reserved, samples recorded, signals sorted. */
  datatype Sys = Sys(gate: u64, nextEpoch: u32, epoch: u32, ready: bool, id: string,
                     counters: Counters, stopped: Counters, stoppedAt: u64, terminal: Terminal,
                     profiler: ProfilerState, cookieMode: bool, phase: Phase, handlers: seq<Handler>,
                     burned: seq<u32>, log: seq<Sample>, decided: seq<Decision>)

  datatype Action =
    | Deliver(t: nat, sig: Signal)
    | TryEnter(t: nat)
    | CountAdmission(t: nat)
    | Classify(t: nat)
    | CheckEpoch(t: nat)
    | Record(t: nat, ok: bool)
    | CountOutcome(t: nat)
    | Leave(t: nat)
    | StartCookie(session: string)
    | ReserveSignal(available: bool)
    | FinishReserve
    | StartComponents(ok: bool)
    | OpenGate
    | DrainAbort
    | ClearAbort
    | StartOther
    | Stop(reason: Option<string>, now: u64)
    | GuardedStop(target: Option<string>, targetEpoch: u64, at: u64)
    | Drain
    | Snapshot
    | FinishStop(finalized: bool)
    | Shutdown

  function Initial(threads: nat): Sys {
    Sys(CLOSED, 0, 0, false, "", NoSignals(), NoSignals(), 0, NoTerminal, New, false, Free, seq(threads, _ => Outside), [], [], [])
  }

  // ------------------------------------------------------------------ handler steps

  function AfterEntry(s: Sys, t: nat, h: Handler): Sys
    requires t < |s.handlers| && h.Loaded?
  {
    if IsClosed(h.gate) then s.(handlers := s.handlers[t := Outside])
    else if s.gate == h.gate then
      s.(gate := s.gate + 1, handlers := s.handlers[t := Admitted(h.sig)])
    else s.(handlers := s.handlers[t := Loaded(s.gate, h.sig)])
  }

  /** The history with `sig` sorted by the capture that was reserved last. */
  function Sorted(s: Sys, sig: Signal): seq<Decision> {
    if s.burned == [] then s.decided else s.decided + [Decision(sig, |s.burned| - 1)]
  }

  function AfterClassify(s: Sys, t: nat, sig: Signal): Sys
    requires t < |s.handlers|
  {
    var c := s.counters;
    if !sig.allowed then
      s.(counters := c.(invalid := c.invalid + 1), handlers := s.handlers[t := Leaving], decided := Sorted(s, sig))
    else if sig.cookie == 0 then
      s.(counters := c.(zeroCookie := c.zeroCookie + 1), handlers := s.handlers[t := Leaving], decided := Sorted(s, sig))
    else if LowWord(sig.cookie) == 0 then
      s.(counters := c.(zeroSequence := c.zeroSequence + 1), handlers := s.handlers[t := Leaving], decided := Sorted(s, sig))
    else s.(handlers := s.handlers[t := EpochRead(sig, s.epoch)])
  }

  function AfterCheck(s: Sys, t: nat, h: Handler): Sys
    requires t < |s.handlers| && h.EpochRead?
  {
    var c := s.counters;
    if HighWord(h.sig.cookie) != h.epoch then
      s.(counters := c.(stale := c.stale + 1), handlers := s.handlers[t := Leaving], decided := Sorted(s, h.sig))
    else
      s.(counters := c.(accepted := c.accepted + 1), handlers := s.handlers[t := Accepted(h.sig)], decided := Sorted(s, h.sig))
  }

  /** The recording the sample goes to is the one of the last reserved capture. */
  function AfterRecord(s: Sys, t: nat, sig: Signal, ok: bool): Sys
    requires t < |s.handlers|
  {
    s.(log := if ok && s.burned != [] then s.log + [Sample(sig.cookie, |s.burned| - 1)] else s.log,
       handlers := s.handlers[t := Recorded(ok)])
  }

  function AfterOutcome(s: Sys, t: nat, ok: bool): Sys
    requires t < |s.handlers|
  {
    var c := s.counters;
    s.(counters := if ok then c.(submitted := c.submitted + 1) else c.(failures := c.failures + 1),
       handlers := s.handlers[t := Leaving])
  }

  predicate ByHandler(a: Action) {
    a.Deliver? || a.TryEnter? || a.CountAdmission? || a.Classify? || a.CheckEpoch? || a.Record? || a.CountOutcome? || a.Leave?
  }

  /** One atomic operation of the handler on thread `a.t`. */
  function HandlerStep(s: Sys, a: Action): Sys
    requires ByHandler(a)
  {
    if a.t >= |s.handlers| then s
    else
      var h := s.handlers[a.t];
      if a.Deliver? && h.Outside? then s.(handlers := s.handlers[a.t := Loaded(s.gate, a.sig)])
      else if a.TryEnter? && h.Loaded? then AfterEntry(s, a.t, h)
      else if a.CountAdmission? && h.Admitted? then
        s.(counters := s.counters.(admitted := s.counters.admitted + 1), handlers := s.handlers[a.t := Counted(h.sig)])
      else if a.Classify? && h.Counted? then AfterClassify(s, a.t, h.sig)
      else if a.CheckEpoch? && h.EpochRead? then AfterCheck(s, a.t, h)
      else if a.Record? && h.Accepted? then AfterRecord(s, a.t, h.sig, a.ok)
      else if a.CountOutcome? && h.Recorded? then AfterOutcome(s, a.t, h.ok)
      else if a.Leave? && h.Leaving? then
        s.(gate := if s.gate == 0 then 2 * CLOSED - 1 else s.gate - 1, handlers := s.handlers[a.t := Outside])
      else s
  }

  // ------------------------------------------------------------------ lifecycle steps

  datatype Lookup = Inactive | ActiveCapture | TerminalCapture | Mismatch

  function LookupCapture(s: Sys, id: Option<string>, epoch: u64): Lookup {
    if s.ready && id == Some(s.id) && (epoch == 0 || epoch == s.epoch) then ActiveCapture
    else if s.terminal.Terminal? && id == Some(s.terminal.id) && (epoch == 0 || epoch == s.terminal.epoch) then TerminalCapture
    else if s.ready || s.terminal.Terminal? then Mismatch
    else Inactive
  }

  /** `Profiler::stop`: refused when nothing runs, or when a cookie capture would stop without a reason. */
  function BeginStop(s: Sys, reason: Option<string>, now: u64): Sys {
    if s.profiler != Active then s
    else if s.cookieMode && reason.None? then s
    else if s.cookieMode then s.(gate := Close(s.gate), stoppedAt := now, phase := Stopping(reason.value))
    else s.(profiler := Idle)
  }

  function LifecycleStep(s: Sys, a: Action): Sys {
    match a
    case StartCookie(id) =>
      if s.phase.Free? && (s.profiler == New || s.profiler == Idle) && s.nextEpoch < 0xFFFF_FFFF then
        s.(nextEpoch := s.nextEpoch + 1, burned := s.burned + [s.nextEpoch + 1], phase := Burned(id))
      else s
    case ReserveSignal(available) =>
      if !s.phase.Burned? then s
      else if !available then s.(phase := Free)
      else s.(epoch := s.nextEpoch, phase := Preparing(s.phase.id))
    case FinishReserve =>
      if !s.phase.Preparing? then s
      else s.(id := s.phase.id, ready := false, stoppedAt := 0, gate := CLOSED, counters := NoSignals(), cookieMode := true, phase := Reserved)
    case StartComponents(ok) =>
      if !s.phase.Reserved? then s
      else if ok then s.(profiler := Active, ready := true, phase := Publishing)
      else s.(gate := Close(s.gate), phase := Aborting)
    case OpenGate =>
      if s.phase.Publishing? then s.(gate := 0, phase := Free) else s
    case DrainAbort =>
      if s.phase.Aborting? && Count(s.gate) == 0 then s.(phase := AbortDrained) else s
    case ClearAbort =>
      if s.phase.AbortDrained? then s.(ready := false, epoch := 0, id := "", phase := Free) else s
    case StartOther =>
      if s.phase.Free? && (s.profiler == New || s.profiler == Idle) then s.(profiler := Active, cookieMode := false) else s
    case Stop(reason, now) =>
      // without a reason this is the plain stop command, which a ready capture refuses
      if !s.phase.Free? || (reason.None? && s.ready) then s else BeginStop(s, reason, now)
    case GuardedStop(id, epoch, now) =>
      if s.phase.Free? && LookupCapture(s, id, epoch) == ActiveCapture then BeginStop(s, Some("guarded-stop"), now) else s
    case Drain =>
      if s.phase.Stopping? && Count(s.gate) == 0 then s.(phase := Drained(s.phase.reason)) else s
    case Snapshot =>
      if s.phase.Drained? then s.(ready := false, stopped := s.counters, phase := Frozen(s.phase.reason)) else s
    case FinishStop(finalized) =>
      if !s.phase.Frozen? then s
      else s.(terminal := Terminal(s.id, s.epoch, s.stopped, s.stoppedAt, finalized, InRecord(if finalized then s.phase.reason else "finalization-failed")),
              epoch := 0, id := "", profiler := Idle, phase := Free)
    case Shutdown =>
      if s.phase.Free? && !(s.profiler == Active && s.cookieMode) then s.(profiler := Terminated) else s
    case _ => s
  }

  function Step(s: Sys, a: Action): Sys {
    if ByHandler(a) then HandlerStep(s, a) else LifecycleStep(s, a)
  }

  function Run(s: Sys, actions: seq<Action>): Sys
    decreases |actions|
  {
    if actions == [] then s else Run(Step(s, actions[0]), actions[1..])
  }
}
