/** What the capture protocol promises over whole runs. */
module SignalGuarantees {
  import opened Bytes
  import opened SignalCapture
  import opened SignalInvariant

  ghost predicate Reachable(s: Sys) {
    exists threads: nat, actions: seq<Action> :: threads < CLOSED && s == Run(Initial(threads), actions)
  }

  lemma ReachableInv(s: Sys)
    requires Reachable(s)
    ensures Inv(s)
  {
    hide *;
    assert exists threads: nat, actions: seq<Action> :: threads < CLOSED && s == Run(Initial(threads), actions) by { ReachableRun(s); }
    var threads: nat, actions: seq<Action> :| threads < CLOSED && s == Run(Initial(threads), actions);
    InvInitial(threads);
    RunKeeps(Initial(threads), actions);
  }

  lemma ReachableRun(s: Sys)
    requires Reachable(s)
    ensures exists threads: nat, actions: seq<Action> :: threads < CLOSED && s == Run(Initial(threads), actions)
  {
    hide Run, Initial;
  }

  // ------------------------------------------------------------------ the counts

  /**
   A finished capture's statistics are exact, for every interleaving: each class counter is the number of
   admitted signals of that class, the classes partition the admitted signals, and the submitted count is
   the number of samples in that capture's recording.
   */
  lemma TerminalRecordExact(s: Sys)
    requires Reachable(s) && s.terminal.Terminal?
    ensures var c := s.terminal.stats;
      && s.terminal.epoch > 0
      && c.admitted == c.invalid + c.zeroCookie + c.zeroSequence + c.stale + c.accepted
      && c.accepted == c.failures + c.submitted
      && c.submitted == Landed(s.log, s.terminal.epoch - 1)
      && CountsAre(c, s.decided, s.terminal.epoch - 1)
  {
    ReachableInv(s);
  }

  /** The gate word counts the handlers inside, and is closed whenever no capture is published. */
  lemma GateCountsHandlers(s: Sys)
    requires Reachable(s)
    ensures Count(s.gate) == Tally(s.handlers, InGate)
    ensures !s.ready ==> s.gate == CLOSED && forall t | 0 <= t < |s.handlers| :: !InGate(s.handlers[t])
  {
    ReachableInv(s);
    if !s.ready { QuietIsEmpty(s); }
  }

  predicate AllByHandlers(actions: seq<Action>) { forall a | a in actions :: ByHandler(a) }

  /** Once drained, no handler can move anything but itself until a capture is published. */
  lemma {:induction false} DrainedIsFinal(s: Sys, actions: seq<Action>)
    requires Inv(s) && Quiet(s) && AllByHandlers(actions)
    ensures var s' := Run(s, actions); s' == s.(handlers := s'.handlers)
    decreases |actions|
  {
    hide Inv, Step, Quiet;
    if actions != [] {
      QuietStep(s, actions[0]);
      StepKeeps(s, actions[0]);
      DrainedIsFinal(Step(s, actions[0]), actions[1..]);
    }
  }

  /** A handler outside the quiet gate moves only itself. */
  lemma QuietStep(s: Sys, a: Action)
    requires Inv(s) && Quiet(s) && ByHandler(a)
    ensures var s' := Step(s, a); s' == s.(handlers := s'.handlers) && Quiet(s')
  {
    hide Inv, HandlerStep, InGate, IsClosed;
    QuietGate(s);
    QuietIsEmpty(s);
    OutsideStep(s, a);
  }

  lemma QuietGate(s: Sys)
    requires Inv(s) && Quiet(s)
    ensures s.gate == CLOSED && IsClosed(s.gate)
  {
    hide Tally, LogOk, DecidedOk, TerminalOk, Fresh;
  }

  lemma OutsideStep(s: Sys, a: Action)
    requires ByHandler(a) && IsClosed(s.gate) && (a.t < |s.handlers| ==> !InGate(s.handlers[a.t]))
    ensures var s' := HandlerStep(s, a); s' == s.(handlers := s'.handlers)
  {
    hide AfterClassify, AfterCheck, AfterRecord, AfterOutcome;
  }

  /** Operations a handler still has to do before it has left the gate. */
  function Remaining(h: Handler): nat {
    match h
    case Outside => 0
    case Loaded(_, _) => 0
    case Admitted(_) => 6
    case Counted(_) => 5
    case EpochRead(_, _) => 4
    case Accepted(_) => 3
    case Recorded(_) => 2
    case Leaving => 1
  }

  function Work(hs: seq<Handler>): nat {
    if hs == [] then 0 else Remaining(hs[0]) + Work(hs[1..])
  }

  lemma {:induction false} WorkUpdate(hs: seq<Handler>, t: nat, h: Handler)
    requires t < |hs|
    ensures Work(hs[t := h]) == Work(hs) - Remaining(hs[t]) + Remaining(h)
  {
    if t == 0 {
      assert hs[0 := h][1..] == hs[1..];
    } else {
      WorkUpdate(hs[1..], t - 1, h);
      assert hs[t := h][1..] == hs[1..][t - 1 := h];
    }
  }

  /** Nobody entered, no work was added, and any visible effect used work up. */
  predicate DrainsTo(s: Sys, s': Sys) {
    && IsClosed(s'.gate)
    && |s'.handlers| == |s.handlers|
    && (forall t | 0 <= t < |s.handlers| :: InGate(s'.handlers[t]) ==> InGate(s.handlers[t]))
    && Work(s'.handlers) <= Work(s.handlers)
    && (Visible(s, s') ==> Work(s'.handlers) < Work(s.handlers))
  }

  predicate Visible(s: Sys, s': Sys) { s'.counters != s.counters || s'.log != s.log || s'.gate != s.gate }

  /** What an operation on a closed gate may do to its own handler. */
  predicate UsesUp(s: Sys, s': Sys, t: nat)
    requires t < |s.handlers| == |s'.handlers|
  {
    && s'.gate == s.gate
    && (InGate(s'.handlers[t]) ==> InGate(s.handlers[t]))
    && Remaining(s'.handlers[t]) <= Remaining(s.handlers[t])
    && (Visible(s, s') ==> Remaining(s'.handlers[t]) < Remaining(s.handlers[t]))
  }

  lemma ClosedStep(s: Sys, a: Action)
    requires IsClosed(s.gate) && ByHandler(a) && a.t < |s.handlers| && !a.Leave?
    ensures OnlyMoves(s, HandlerStep(s, a), a.t) && UsesUp(s, HandlerStep(s, a), a.t)
  {
    hide AfterEntry, AfterClassify, AfterCheck, AfterRecord, AfterOutcome, OnlyMoves;
    HandlerFrame(s, a);
    var h := s.handlers[a.t];
    if a.TryEnter? && h.Loaded? { EntryUses(s, a.t, h); }
    if a.Classify? && h.Counted? { ClassifyUses(s, a.t, h.sig); }
    if a.CheckEpoch? && h.EpochRead? { CheckUses(s, a.t, h); }
    if a.Record? && h.Accepted? { RecordUses(s, a.t, h.sig, a.ok); }
    if a.CountOutcome? && h.Recorded? { OutcomeUses(s, a.t, h.ok); }
  }

  lemma EntryUses(s: Sys, t: nat, h: Handler)
    requires IsClosed(s.gate) && t < |s.handlers| && h == s.handlers[t] && h.Loaded?
    ensures |AfterEntry(s, t, h).handlers| == |s.handlers| && UsesUp(s, AfterEntry(s, t, h), t)
  {
  }

  lemma ClassifyUses(s: Sys, t: nat, sig: Signal)
    requires t < |s.handlers| && s.handlers[t] == Counted(sig)
    ensures |AfterClassify(s, t, sig).handlers| == |s.handlers| && UsesUp(s, AfterClassify(s, t, sig), t)
  {
    hide LowWord, Sorted;
  }

  lemma CheckUses(s: Sys, t: nat, h: Handler)
    requires t < |s.handlers| && h == s.handlers[t] && h.EpochRead?
    ensures |AfterCheck(s, t, h).handlers| == |s.handlers| && UsesUp(s, AfterCheck(s, t, h), t)
  {
    hide HighWord, Sorted;
  }

  lemma RecordUses(s: Sys, t: nat, sig: Signal, ok: bool)
    requires t < |s.handlers| && s.handlers[t] == Accepted(sig)
    ensures |AfterRecord(s, t, sig, ok).handlers| == |s.handlers| && UsesUp(s, AfterRecord(s, t, sig, ok), t)
  {
  }

  lemma OutcomeUses(s: Sys, t: nat, ok: bool)
    requires t < |s.handlers| && s.handlers[t] == Recorded(ok)
    ensures |AfterOutcome(s, t, ok).handlers| == |s.handlers| && UsesUp(s, AfterOutcome(s, t, ok), t)
  {
  }

  /**
   A closed gate admits nobody, and drains: every handler operation that has any effect outside its own
   thread uses up part of the work left, and none adds to it.
   */
  lemma ClosedGateDrains(s: Sys, a: Action)
    requires Inv(s) && IsClosed(s.gate) && ByHandler(a)
    ensures DrainsTo(s, Step(s, a))
  {
    var s' := Step(s, a);
    HandlerFrame(s, a);
    if a.t < |s.handlers| {
      assert s'.handlers == s.handlers[a.t := s'.handlers[a.t]];
      WorkUpdate(s.handlers, a.t, s'.handlers[a.t]);
      if a.Leave? {
        if s.handlers[a.t].Leaving? { InsideIsLive(s, a.t); }
        hide Inv, Work;
      } else {
        ClosedStep(s, a);
        hide Inv, HandlerStep, Work;
      }
    }
  }

  /** The next operation of a handler inside the gate. */
  function NextOperation(h: Handler, t: nat): Action
    requires InGate(h)
  {
    match h
    case Admitted(_) => CountAdmission(t)
    case Counted(_) => Classify(t)
    case EpochRead(_, _) => CheckEpoch(t)
    case Accepted(_) => Record(t, false)
    case Recorded(_) => CountOutcome(t)
    case Leaving => Leave(t)
  }

  lemma {:induction false} SomebodyInside(hs: seq<Handler>) returns (t: nat)
    requires Tally(hs, InGate) > 0
    ensures t < |hs| && InGate(hs[t])
  {
    if InGate(hs[0]) {
      t := 0;
    } else {
      t := SomebodyInside(hs[1..]);
      t := t + 1;
    }
  }

  /** While a closed gate counts a handler, the next operation of one inside is always possible and uses up work. */
  lemma DrainingGoesOn(s: Sys) returns (a: Action)
    requires Inv(s) && IsClosed(s.gate) && Count(s.gate) > 0
    ensures ByHandler(a) && a.t < |s.handlers| && InGate(s.handlers[a.t]) && a == NextOperation(s.handlers[a.t], a.t)
    ensures Work(Step(s, a).handlers) < Work(s.handlers)
  {
    var t := SomebodyInside(s.handlers);
    var h := s.handlers[t];
    a := NextOperation(h, t);
    var s' := Step(s, a);
    HandlerFrame(s, a);
    hide Work, Inv, HighWord, LowWord, Sorted, Tally;
    assert Remaining(s'.handlers[t]) < Remaining(h);
    assert s'.handlers == s.handlers[t := s'.handlers[t]];
    WorkUpdate(s.handlers, t, s'.handlers[t]);
  }

  /** So a closed gate empties in as many operations of its handlers as there is work, whatever happened before. */
  lemma {:induction false} ClosedGateEmpties(s: Sys) returns (actions: seq<Action>)
    requires Inv(s) && IsClosed(s.gate)
    ensures AllByHandlers(actions) && |actions| <= Work(s.handlers)
    ensures IsClosed(Run(s, actions).gate) && Count(Run(s, actions).gate) == 0
    decreases Work(s.handlers)
  {
    if Count(s.gate) == 0 {
      actions := [];
    } else {
      var a := DrainingGoesOn(s);
      StepKeeps(s, a);
      ClosedGateDrains(s, a);
      hide Inv, Step, Work, Tally, IsClosed, Count;
      var rest := ClosedGateEmpties(Step(s, a));
      actions := [a] + rest;
      assert actions[0] == a && actions[1..] == rest;
    }
  }

  // ------------------------------------------------------------------ epochs and samples

  /** Every reserved epoch is new and nonzero, and every sample is in the capture its cookie names. */
  lemma SamplesLandInTheirCapture(s: Sys)
    requires Reachable(s)
    ensures forall i, j | 0 <= i < j < |s.burned| :: 0 < s.burned[i] < s.burned[j]
    ensures forall i | 0 <= i < |s.log| ::
      && s.log[i].capture < |s.burned|
      && HighWord(s.log[i].cookie) == s.burned[s.log[i].capture]
      && LowWord(s.log[i].cookie) != 0
  {
    ReachableInv(s);
    forall i | 0 <= i < |s.log| ensures SampleOk(s.log[i], s.burned) {}
  }

  lemma StepBurns(s: Sys, a: Action)
    ensures s.burned <= Step(s, a).burned && s.nextEpoch <= Step(s, a).nextEpoch
    ensures s.nextEpoch == 0xFFFF_FFFF ==> Step(s, a).burned == s.burned
  {
    if ByHandler(a) { HandlerFrame(s, a); }
    hide HandlerStep;
  }

  /** Epochs are never given back, and when they are used up no capture can start any more. */
  lemma {:induction false} EpochsOnlyGrow(s: Sys, actions: seq<Action>)
    ensures s.burned <= Run(s, actions).burned
    ensures s.nextEpoch == 0xFFFF_FFFF ==> Run(s, actions).burned == s.burned
    decreases |actions|
  {
    hide Step;
    if actions != [] {
      StepBurns(s, actions[0]);
      EpochsOnlyGrow(Step(s, actions[0]), actions[1..]);
    }
  }

  // ------------------------------------------------------------------ stopping

  predicate Running(s: Sys, id: string, epoch: u32) {
    s.phase.Free? && s.ready && s.profiler == Active && s.cookieMode && s.id == id && s.epoch == epoch
  }

  /** A stop that names the capture, or that carries a reason. */
  predicate Ends(a: Action, id: string, epoch: u32) {
    || (a.Stop? && a.reason.Some?)
    || (a.GuardedStop? && a.target == Some(id) && (a.targetEpoch == 0 || a.targetEpoch == epoch))
  }

  lemma StepRuns(s: Sys, a: Action, id: string, epoch: u32)
    requires Running(s, id, epoch) && !Ends(a, id, epoch)
    ensures Running(Step(s, a), id, epoch)
  {
    if ByHandler(a) { HandlerFrame(s, a); }
    hide HandlerStep;
    hide HighWord, LowWord;
  }

  /** A published capture runs on, under its own identity, until a stop with a reason or one that names it. */
  lemma {:induction false} RunsUntilStopped(s: Sys, actions: seq<Action>, id: string, epoch: u32)
    requires Running(s, id, epoch)
    requires forall a | a in actions :: !Ends(a, id, epoch)
    ensures Running(Run(s, actions), id, epoch)
    decreases |actions|
  {
    hide Step, Running, Ends;
    if actions != [] {
      StepRuns(s, actions[0], id, epoch);
      RunsUntilStopped(Step(s, actions[0]), actions[1..], id, epoch);
    }
  }

  /** The stop is under way, or the terminal record of the capture says who stopped it and when. */
  predicate Ending(s: Sys, id: string, epoch: u32, reason: string, at: u64) {
    || ((s.phase == Stopping(reason) || s.phase == Drained(reason) || s.phase == Frozen(reason)) && s.id == id && s.epoch == epoch && s.stoppedAt == at)
    || (s.terminal.Terminal? && s.terminal.epoch > epoch)
    || (s.terminal.Terminal? && s.terminal.epoch == epoch && s.terminal.id == id && s.terminal.stoppedAt == at
        && s.terminal.reason == if s.terminal.finalized then InRecord(reason) else "finalization-failed")
  }

  /** Only the last step of a stop writes the terminal record. */
  lemma TerminalFrame(s: Sys, a: Action)
    requires !a.FinishStop?
    ensures Step(s, a).terminal == s.terminal
    ensures s.phase.Stopping? || s.phase.Drained? || s.phase.Frozen? ==>
      var s' := Step(s, a);
      && s'.id == s.id && s'.epoch == s.epoch && s'.stoppedAt == s.stoppedAt
      && (s'.phase.Stopping? || s'.phase.Drained? || s'.phase.Frozen?) && s'.phase.reason == s.phase.reason
  {
    if ByHandler(a) { HandlerFrame(s, a); }
    hide HandlerStep, LookupCapture;
  }

  lemma StepEnds(s: Sys, a: Action, id: string, epoch: u32, reason: string, at: u64)
    requires Inv(s) && Ending(s, id, epoch, reason, at)
    ensures Ending(Step(s, a), id, epoch, reason, at)
  {
    if a.FinishStop? {
      hide GateOk, HandlersOk, CountersOk, LogOk, DecidedOk, HandlerStep;
    } else {
      TerminalFrame(s, a);
      hide Inv, Step;
    }
  }

  lemma {:induction false} RunEnds(s: Sys, actions: seq<Action>, id: string, epoch: u32, reason: string, at: u64)
    requires Inv(s) && Ending(s, id, epoch, reason, at)
    ensures Ending(Run(s, actions), id, epoch, reason, at)
    decreases |actions|
  {
    hide Step, Inv, Ending;
    if actions != [] {
      StepEnds(s, actions[0], id, epoch, reason, at);
      StepKeeps(s, actions[0]);
      RunEnds(Step(s, actions[0]), actions[1..], id, epoch, reason, at);
    }
  }

  /** However the run goes on, the capture a guarded stop named ends with that stop in its record. */
  lemma GuardedStopIsRecorded(s: Sys, id: string, epoch: u64, now: u64, actions: seq<Action>)
    requires Reachable(s) && s.phase.Free? && LookupCapture(s, Some(id), epoch) == ActiveCapture
    ensures Ending(Run(Step(s, GuardedStop(Some(id), epoch, now)), actions), id, s.epoch, "guarded-stop", now)
    ensures InRecord("guarded-stop") == "guarded-stop"
  {
    ReachableInv(s);
    var s' := Step(s, GuardedStop(Some(id), epoch, now));
    assert Ending(s', id, s.epoch, "guarded-stop", now);
    StepKeeps(s, GuardedStop(Some(id), epoch, now));
    RunEnds(s', actions, id, s.epoch, "guarded-stop", now);
  }

  /** The same for an expiry or a shutdown, which stop with a reason of their own. */
  lemma ReasonIsRecorded(s: Sys, reason: string, now: u64, actions: seq<Action>)
    requires Reachable(s) && s.phase.Free? && s.ready
    ensures Ending(Run(Step(s, Stop(Some(reason), now)), actions), s.id, s.epoch, reason, now)
  {
    ReachableInv(s);
    var s' := Step(s, Stop(Some(reason), now));
    assert Ending(s', s.id, s.epoch, reason, now);
    StepKeeps(s, Stop(Some(reason), now));
    RunEnds(s', actions, s.id, s.epoch, reason, now);
  }

  predicate RecordKept(s: Sys, s': Sys) {
    s.terminal.Terminal? ==>
      s'.terminal.Terminal? && s'.terminal.epoch >= s.terminal.epoch && (s'.terminal.epoch == s.terminal.epoch ==> s'.terminal == s.terminal)
  }

  lemma StepKeepsRecord(s: Sys, a: Action)
    requires Inv(s)
    ensures RecordKept(s, Step(s, a))
  {
    if a.FinishStop? {
      hide GateOk, HandlersOk, CountersOk, LogOk, DecidedOk, HandlerStep;
    } else {
      TerminalFrame(s, a);
      hide Inv, Step;
    }
  }

  lemma {:induction false} RunKeepsRecord(s: Sys, actions: seq<Action>)
    requires Inv(s)
    ensures RecordKept(s, Run(s, actions))
    decreases |actions|
  {
    if actions != [] {
      StepKeepsRecord(s, actions[0]);
      StepKeeps(s, actions[0]);
      hide Step, Inv;
      RunKeepsRecord(Step(s, actions[0]), actions[1..]);
    }
  }

  /**
   Asking again about a finished capture gives the same record, in every later state until another capture
   has finished, even while a new capture runs under the same id; and asking changes nothing.
   */
  lemma RepeatedStopAnswersTheSame(s: Sys, actions: seq<Action>, now: u64)
    requires Reachable(s) && s.terminal.Terminal?
    requires Run(s, actions).terminal.Terminal? ==> Run(s, actions).terminal.epoch == s.terminal.epoch
    ensures var s' := Run(s, actions);
      && s'.terminal == s.terminal
      && LookupCapture(s', Some(s.terminal.id), s.terminal.epoch) == TerminalCapture
      && Step(s', GuardedStop(Some(s.terminal.id), s.terminal.epoch, now)) == s'
  {
    ReachableInv(s);
    RunKeepsRecord(s, actions);
    RunKeeps(s, actions);
    hide Run;
  }

  /** A capture found active is running, so a guarded stop never finds one it cannot stop. */
  lemma ActiveCaptureRuns(s: Sys, id: Option<string>, epoch: u64)
    requires Reachable(s) && s.phase.Free?
    ensures LookupCapture(s, id, epoch) == ActiveCapture ==> Running(s, s.id, s.epoch) && s.epoch > 0
  {
    ReachableInv(s);
  }
}
