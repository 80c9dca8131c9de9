/** What the capture protocol does, and not only what it never does: handlers handle, captures start and end. */
module SignalProgress {
  import opened Bytes
  import opened SignalCapture
  import opened SignalInvariant
  import opened SignalGuarantees

  lemma RunOne(s: Sys, a: Action)
    ensures Run(s, [a]) == Step(s, a)
  {
  }

  lemma RunTwo(s: Sys, a: Action, b: Action)
    ensures Run(s, [a, b]) == Step(Step(s, a), b)
  {
    hide Step;
    RunOne(Step(s, a), b);
    assert [a, b][1..] == [b];
  }

  lemma RunThree(s: Sys, a: Action, b: Action, c: Action)
    ensures Run(s, [a, b, c]) == Step(Step(Step(s, a), b), c)
  {
    hide Step;
    RunTwo(Step(s, a), b, c);
    assert [a, b, c][1..] == [b, c];
  }

  lemma RunFour(s: Sys, a: Action, b: Action, c: Action, d: Action)
    ensures Run(s, [a, b, c, d]) == Step(Step(Step(Step(s, a), b), c), d)
  {
    hide Step;
    RunThree(Step(s, a), b, c, d);
    assert [a, b, c, d][1..] == [b, c, d];
  }

  lemma RunFive(s: Sys, a: Action, b: Action, c: Action, d: Action, e: Action)
    ensures Run(s, [a, b, c, d, e]) == Step(Step(Step(Step(Step(s, a), b), c), d), e)
  {
    hide Step;
    RunFour(Step(s, a), b, c, d, e);
    assert [a, b, c, d, e][1..] == [b, c, d, e];
  }

  lemma RunSix(s: Sys, a: Action, b: Action, c: Action, d: Action, e: Action, f: Action)
    ensures Run(s, [a, b, c, d, e, f]) == Step(Step(Step(Step(Step(Step(s, a), b), c), d), e), f)
  {
    hide Step;
    RunFive(Step(s, a), b, c, d, e, f);
    assert [a, b, c, d, e, f][1..] == [b, c, d, e, f];
  }

  lemma {:induction false} RunJoins(s: Sys, first: seq<Action>, rest: seq<Action>)
    ensures Run(s, first + rest) == Run(Run(s, first), rest)
    decreases |first|
  {
    hide Step;
    if first == [] {
      assert first + rest == rest;
    } else {
      RunJoins(Step(s, first[0]), first[1..], rest);
      assert (first + rest)[1..] == first[1..] + rest;
    }
  }

  // ------------------------------------------------------------------ one signal

  /** All operations of the handler of one signal. Those that a rejected signal does not reach change nothing. */
  function Handling(t: nat, sig: Signal, ok: bool): seq<Action> {
    [Deliver(t, sig), TryEnter(t), CountAdmission(t), Classify(t)] + ([CheckEpoch(t), Record(t, ok), CountOutcome(t)] + [Leave(t)])
  }

  /** One signal of class `k` more, whose recording, if it got that far, went as `ok` says. */
  ghost predicate Raised(c: Counters, c': Counters, k: Class, ok: bool) {
    && c'.admitted == c.admitted + 1
    && (forall j: Class :: CountOf(c', j) == CountOf(c, j) + (if j == k then 1 else 0))
    && c'.submitted == c.submitted + (if k.Acceptable? && ok then 1 else 0)
    && c'.failures == c.failures + (if k.Acceptable? && !ok then 1 else 0)
  }

  /** The handler of thread `t` is at `h` inside the gate, and nothing else has happened yet. */
  function Inside(s: Sys, t: nat, c: Counters, h: Handler): Sys
    requires t < |s.handlers| && s.gate < CLOSED
  {
    s.(gate := s.gate + 1, counters := c, handlers := s.handlers[t := h])
  }

  lemma Enters(s: Sys, t: nat, sig: Signal)
    requires s.gate < CLOSED && t < |s.handlers| && s.handlers[t].Outside?
    ensures Run(s, [Deliver(t, sig), TryEnter(t), CountAdmission(t), Classify(t)])
         == AfterClassify(Inside(s, t, s.counters.(admitted := s.counters.admitted + 1), Counted(sig)), t, sig)
  {
    hide AfterClassify, AfterCheck, AfterRecord, AfterOutcome;
    var s1 := s.(handlers := s.handlers[t := Loaded(s.gate, sig)]);
    var s2 := Inside(s, t, s.counters, Admitted(sig));
    var s3 := Inside(s, t, s.counters.(admitted := s.counters.admitted + 1), Counted(sig));
    assert Step(s, Deliver(t, sig)) == s1;
    assert s1.handlers[t := Admitted(sig)] == s.handlers[t := Admitted(sig)];
    assert Step(s1, TryEnter(t)) == s2;
    assert s2.handlers[t := Counted(sig)] == s.handlers[t := Counted(sig)];
    assert Step(s2, CountAdmission(t)) == s3;
    assert Step(s3, Classify(t)) == AfterClassify(s3, t, sig);
    hide Step, Inside;
    RunFour(s, Deliver(t, sig), TryEnter(t), CountAdmission(t), Classify(t));
  }

  /** A rejected handler waits to leave. */
  lemma Waits(s: Sys, t: nat, ok: bool)
    requires t < |s.handlers| && s.handlers[t].Leaving?
    ensures Run(s, [CheckEpoch(t), Record(t, ok), CountOutcome(t)]) == s
  {
    hide AfterClassify, AfterCheck, AfterRecord, AfterOutcome, AfterEntry;
    assert Step(s, CheckEpoch(t)) == s && Step(s, Record(t, ok)) == s && Step(s, CountOutcome(t)) == s;
    hide Step;
    RunThree(s, CheckEpoch(t), Record(t, ok), CountOutcome(t));
  }

  lemma Stale(s: Sys, t: nat, sig: Signal, ok: bool)
    requires t < |s.handlers| && s.handlers[t] == EpochRead(sig, s.epoch) && HighWord(sig.cookie) != s.epoch
    ensures Run(s, [CheckEpoch(t), Record(t, ok), CountOutcome(t)])
         == s.(counters := s.counters.(stale := s.counters.stale + 1), handlers := s.handlers[t := Leaving], decided := Sorted(s, sig))
  {
    hide Sorted, HighWord, Run;
    var s1 := Step(s, CheckEpoch(t));
    var s2 := Step(s1, Record(t, ok));
    RunThree(s, CheckEpoch(t), Record(t, ok), CountOutcome(t));
  }

  lemma Accepts(s: Sys, t: nat, sig: Signal, ok: bool)
    requires t < |s.handlers| && s.handlers[t] == EpochRead(sig, s.epoch) && HighWord(sig.cookie) == s.epoch && s.burned != []
    ensures
      var c := s.counters.(accepted := s.counters.accepted + 1);
      Run(s, [CheckEpoch(t), Record(t, ok), CountOutcome(t)])
         == s.(counters := if ok then c.(submitted := c.submitted + 1) else c.(failures := c.failures + 1),
               log := if ok then s.log + [Sample(sig.cookie, |s.burned| - 1)] else s.log,
               handlers := s.handlers[t := Leaving], decided := Sorted(s, sig))
  {
    hide HighWord, Run, Sorted;
    var s1 := Step(s, CheckEpoch(t));
    var s2 := Step(s1, Record(t, ok));
    RunThree(s, CheckEpoch(t), Record(t, ok), CountOutcome(t));
    assert s1.handlers[t := Recorded(ok)] == s.handlers[t := Recorded(ok)];
    assert s2.handlers[t := Leaving] == s.handlers[t := Leaving];
  }

  /** What the middle operations make of a handler that has just been sorted or has read the epoch. */
  lemma Decides(s: Sys, t: nat, sig: Signal, ok: bool)
    requires t < |s.handlers| && s.burned != []
    ensures var s' := Run(AfterClassify(s, t, sig), [CheckEpoch(t), Record(t, ok), CountOutcome(t)]);
      && s' == s.(counters := s'.counters, handlers := s.handlers[t := Leaving], decided := s.decided + [Decision(sig, |s.burned| - 1)],
                  log := if ClassOf(sig, s.epoch).Acceptable? && ok then s.log + [Sample(sig.cookie, |s.burned| - 1)] else s.log)
      && Raised(s.counters, s'.counters.(admitted := s'.counters.admitted + 1), ClassOf(sig, s.epoch), ok)
  {
    hide Run, HighWord, LowWord;
    var r := AfterClassify(s, t, sig);
    if ClassOf(sig, s.epoch).Acceptable? || ClassOf(sig, s.epoch).StaleEpoch? {
      assert r.handlers[t := Leaving] == s.handlers[t := Leaving];
      if ClassOf(sig, s.epoch).Acceptable? { Accepts(r, t, sig, ok); } else { Stale(r, t, sig, ok); }
    } else {
      Waits(r, t, ok);
    }
  }

  lemma Leaves(s: Sys, t: nat)
    requires t < |s.handlers| && s.handlers[t].Leaving? && s.gate > 0
    ensures Run(s, [Leave(t)]) == s.(gate := s.gate - 1, handlers := s.handlers[t := Outside])
  {
    RunOne(s, Leave(t));
  }

  lemma RunningOpen(s: Sys, id: string, epoch: u32)
    requires Inv(s) && Running(s, id, epoch)
    ensures s.gate < CLOSED && s.burned != [] && s.epoch == |s.burned|
  {
    hide Tally, LogOk, DecidedOk, TerminalOk, CountersOk, HandlersOk;
  }

  /** The state after all operations of one signal: only the counters and the histories have moved. */
  ghost predicate Handled(s: Sys, s': Sys, sig: Signal, ok: bool) {
    && s.burned != []
    && s' == s.(counters := s'.counters, decided := s.decided + [Decision(sig, |s.burned| - 1)],
                log := if ClassOf(sig, s.epoch).Acceptable? && ok then s.log + [Sample(sig.cookie, |s.burned| - 1)] else s.log)
    && Raised(s.counters, s'.counters, ClassOf(sig, s.epoch), ok)
  }

  lemma {:induction false} HandlingSplits(s: Sys, t: nat, sig: Signal, ok: bool)
    ensures Run(s, Handling(t, sig, ok))
         == Run(Run(Run(s, [Deliver(t, sig), TryEnter(t), CountAdmission(t), Classify(t)]), [CheckEpoch(t), Record(t, ok), CountOutcome(t)]), [Leave(t)])
  {
    hide Run;
    var middle := [CheckEpoch(t), Record(t, ok), CountOutcome(t)];
    var entry := [Deliver(t, sig), TryEnter(t), CountAdmission(t), Classify(t)];
    RunJoins(s, entry, middle + [Leave(t)]);
    RunJoins(Run(s, entry), middle, [Leave(t)]);
  }

  lemma LeavesAsWas(s: Sys, s1: Sys, s2: Sys, t: nat, sig: Signal, ok: bool)
    requires s.gate < CLOSED && s.burned != [] && t < |s.handlers| && s.handlers[t].Outside?
    requires s1 == Inside(s, t, s.counters.(admitted := s.counters.admitted + 1), Counted(sig))
    requires s2 == s1.(counters := s2.counters, handlers := s1.handlers[t := Leaving], decided := s1.decided + [Decision(sig, |s.burned| - 1)],
                       log := if ClassOf(sig, s.epoch).Acceptable? && ok then s1.log + [Sample(sig.cookie, |s.burned| - 1)] else s1.log)
    requires Raised(s1.counters, s2.counters.(admitted := s2.counters.admitted + 1), ClassOf(sig, s.epoch), ok)
    ensures Handled(s, Run(s2, [Leave(t)]), sig, ok)
  {
    hide Run, CountOf, ClassOf;
    Leaves(s2, t);
    assert s2.handlers[t := Outside] == s.handlers;
    RaisedOnce(s.counters, s1.counters, s2.counters, ClassOf(sig, s.epoch), ok);
  }

  lemma HandlesOpen(s: Sys, t: nat, sig: Signal, ok: bool)
    requires s.gate < CLOSED && s.burned != [] && t < |s.handlers| && s.handlers[t].Outside?
    ensures Handled(s, Run(s, Handling(t, sig, ok)), sig, ok)
  {
    HandlingSplits(s, t, sig, ok);
    hide Run, AfterClassify, CountOf, ClassOf, Handling, Raised, Handled;
    var s1 := Inside(s, t, s.counters.(admitted := s.counters.admitted + 1), Counted(sig));
    Enters(s, t, sig);
    Decides(s1, t, sig, ok);
    var s2 := Run(AfterClassify(s1, t, sig), [CheckEpoch(t), Record(t, ok), CountOutcome(t)]);
    LeavesAsWas(s, s1, s2, t, sig, ok);
  }

  lemma RaisedOnce(c: Counters, c1: Counters, c2: Counters, k: Class, ok: bool)
    requires c1 == c.(admitted := c.admitted + 1) && Raised(c1, c2.(admitted := c2.admitted + 1), k, ok)
    ensures Raised(c, c2, k, ok)
  {
    forall j: Class ensures CountOf(c2, j) == CountOf(c, j) + (if j == k then 1 else 0) {
      assert CountOf(c2.(admitted := c2.admitted + 1), j) == CountOf(c1, j) + (if j == k then 1 else 0);
    }
  }

  /**
   While a capture runs, a signal that reaches a thread outside the handler is handled to the end by the operations of that
   thread alone: it is admitted, counted in its class, and recorded exactly if it is acceptable and the recording succeeds; the
   gate and all handlers are then as they were.
   */
  lemma SignalIsHandled(s: Sys, t: nat, sig: Signal, ok: bool, id: string, epoch: u32)
    requires Reachable(s) && Running(s, id, epoch) && t < |s.handlers| && s.handlers[t].Outside?
    ensures Handled(s, Run(s, Handling(t, sig, ok)), sig, ok)
  {
    hide *;
    assert s.handlers[t].Outside?;
    ReachableInv(s);
    RunningOpen(s, id, epoch);
    HandlesOpen(s, t, sig, ok);
  }

  // ------------------------------------------------------------------ what was delivered

  /** For each thread the last signal that was delivered to it while it was outside the handler. */
  function BroughtNext(s: Sys, brought: seq<Option<Signal>>, a: Action): seq<Option<Signal>> {
    if a.Deliver? && a.t < |s.handlers| && a.t < |brought| && s.handlers[a.t].Outside? then brought[a.t := Some(a.sig)] else brought
  }

  /** A handler is sorted: its signal is rejected or accepted. */
  predicate SortedMove(h: Handler, h': Handler) { Unclassified(h) && (h'.Leaving? || h'.Accepted?) }

  /** A handler has recorded its sample. */
  predicate RecordedMove(h: Handler, h': Handler) { h.Accepted? && RecordedWell(h') }

  predicate Sorts(s: Sys, a: Action) {
    ByHandler(a) && a.t < |s.handlers| && a.t < |Step(s, a).handlers| && SortedMove(s.handlers[a.t], Step(s, a).handlers[a.t])
  }

  predicate Records(s: Sys, a: Action) {
    ByHandler(a) && a.t < |s.handlers| && a.t < |Step(s, a).handlers| && RecordedMove(s.handlers[a.t], Step(s, a).handlers[a.t])
  }

  /** What one step sorts, as it was delivered, with the number of captures begun by then less one. */
  function SortsNow(s: Sys, brought: seq<Option<Signal>>, a: Action): seq<Decision> {
    if Sorts(s, a) && a.t < |brought| && brought[a.t].Some? && s.burned != [] then [Decision(brought[a.t].value, |s.burned| - 1)] else []
  }

  /** What one step records. */
  function RecordsNow(s: Sys, brought: seq<Option<Signal>>, a: Action): seq<Sample> {
    if Records(s, a) && a.t < |brought| && brought[a.t].Some? && s.burned != [] then [Sample(brought[a.t].value.cookie, |s.burned| - 1)] else []
  }

  /** The signals a run sorts. */
  function SortedIn(s: Sys, brought: seq<Option<Signal>>, actions: seq<Action>): seq<Decision>
    decreases |actions|
  {
    if actions == [] then []
    else SortsNow(s, brought, actions[0]) + SortedIn(Step(s, actions[0]), BroughtNext(s, brought, actions[0]), actions[1..])
  }

  /** The samples a run records. */
  function RecordedIn(s: Sys, brought: seq<Option<Signal>>, actions: seq<Action>): seq<Sample>
    decreases |actions|
  {
    if actions == [] then []
    else RecordsNow(s, brought, actions[0]) + RecordedIn(Step(s, actions[0]), BroughtNext(s, brought, actions[0]), actions[1..])
  }

  /** The signal a handler is about. */
  function About(h: Handler): Option<Signal> {
    match h
    case Loaded(_, sig) => Some(sig)
    case Admitted(sig) => Some(sig)
    case Counted(sig) => Some(sig)
    case EpochRead(sig, _) => Some(sig)
    case Accepted(sig) => Some(sig)
    case _ => None
  }

  /** Every handler is about the signal that was delivered to its thread last. */
  predicate AllBrought(s: Sys, brought: seq<Option<Signal>>) {
    |brought| == |s.handlers| && forall t | 0 <= t < |brought| && About(s.handlers[t]).Some? :: About(s.handlers[t]) == brought[t]
  }

  lemma KeepsAbout(s: Sys, a: Action)
    requires ByHandler(a) && a.t < |s.handlers|
    ensures var s' := Step(s, a);
      && OnlyMoves(s, s', a.t)
      && (About(s'.handlers[a.t]).Some? ==>
            About(s'.handlers[a.t]) == if a.Deliver? && s.handlers[a.t].Outside? then Some(a.sig) else About(s.handlers[a.t]))
  {
    HandlerFrame(s, a);
    hide Sorted, HighWord, LowWord, OnlyMoves;
  }

  lemma BroughtStep(s: Sys, brought: seq<Option<Signal>>, a: Action)
    requires AllBrought(s, brought)
    ensures AllBrought(Step(s, a), BroughtNext(s, brought, a))
  {
    if ByHandler(a) {
      if a.t < |s.handlers| { KeepsAbout(s, a); } else { HandlerFrame(s, a); }
      hide HandlerStep, About;
    } else {
      SameHandlers(s, a);
      hide LifecycleStep, About;
    }
  }

  lemma SameHandlers(s: Sys, a: Action)
    requires !ByHandler(a)
    ensures Step(s, a).handlers == s.handlers && Step(s, a).log == s.log && Step(s, a).decided == s.decided
  {
    hide LookupCapture, Close, Count;
  }

  /** The histories after a move of thread `t`: one decision more if it was sorted, one sample more if it was recorded. */
  predicate HistoryMoved(s: Sys, s': Sys, t: nat)
    requires t < |s.handlers| == |s'.handlers|
  {
    var h, h' := s.handlers[t], s'.handlers[t];
    && (if SortedMove(h, h') then s.burned != [] && s'.decided == s.decided + [Decision(About(h).value, |s.burned| - 1)] else s'.decided == s.decided)
    && (if RecordedMove(h, h') then s.burned != [] && s'.log == s.log + [Sample(About(h).value.cookie, |s.burned| - 1)] else s'.log == s.log)
  }

  lemma ClassifyMovesHistory(s: Sys, t: nat, sig: Signal)
    requires t < |s.handlers| && s.handlers[t] == Counted(sig) && s.burned != []
    ensures |AfterClassify(s, t, sig).handlers| == |s.handlers| && HistoryMoved(s, AfterClassify(s, t, sig), t)
  {
    hide LowWord;
  }

  lemma CheckMovesHistory(s: Sys, t: nat, h: Handler)
    requires t < |s.handlers| && s.handlers[t] == h && h.EpochRead? && s.burned != []
    ensures |AfterCheck(s, t, h).handlers| == |s.handlers| && HistoryMoved(s, AfterCheck(s, t, h), t)
  {
    hide HighWord;
  }

  lemma RecordMovesHistory(s: Sys, t: nat, sig: Signal, ok: bool)
    requires t < |s.handlers| && s.handlers[t] == Accepted(sig) && s.burned != []
    ensures |AfterRecord(s, t, sig, ok).handlers| == |s.handlers| && HistoryMoved(s, AfterRecord(s, t, sig, ok), t)
  {
  }

  lemma EntryMovesHistory(s: Sys, t: nat, h: Handler)
    requires t < |s.handlers| && s.handlers[t] == h && h.Loaded?
    ensures |AfterEntry(s, t, h).handlers| == |s.handlers| && HistoryMoved(s, AfterEntry(s, t, h), t)
  {
    hide IsClosed;
  }

  lemma OutcomeMovesHistory(s: Sys, t: nat, ok: bool)
    requires t < |s.handlers| && s.handlers[t] == Recorded(ok)
    ensures |AfterOutcome(s, t, ok).handlers| == |s.handlers| && HistoryMoved(s, AfterOutcome(s, t, ok), t)
  {
  }

  /** One handler step adds to the histories what was sorted or recorded. */
  lemma HistoryStep(s: Sys, a: Action)
    requires ByHandler(a) && a.t < |s.handlers| && (InGate(s.handlers[a.t]) ==> s.burned != [])
    ensures |Step(s, a).handlers| == |s.handlers| && HistoryMoved(s, Step(s, a), a.t)
  {
    hide AfterEntry, AfterClassify, AfterCheck, AfterRecord, AfterOutcome;
    var t, h := a.t, s.handlers[a.t];
    if a.TryEnter? && h.Loaded? { EntryMovesHistory(s, t, h); }
    if a.Classify? && h.Counted? { ClassifyMovesHistory(s, t, h.sig); }
    if a.CheckEpoch? && h.EpochRead? { CheckMovesHistory(s, t, h); }
    if a.Record? && h.Accepted? { RecordMovesHistory(s, t, h.sig, a.ok); }
    if a.CountOutcome? && h.Recorded? { OutcomeMovesHistory(s, t, h.ok); }
  }

  lemma InsideBurned(s: Sys, t: nat)
    requires Inv(s) && t < |s.handlers| && InGate(s.handlers[t])
    ensures s.burned != []
  {
    InsideIsLive(s, t);
    hide Tally, LogOk, DecidedOk, TerminalOk, CountersOk, HandlersOk;
  }

  lemma LifecycleMoves(s: Sys, brought: seq<Option<Signal>>, a: Action)
    requires !ByHandler(a)
    ensures Step(s, a).decided == s.decided + SortsNow(s, brought, a) && Step(s, a).log == s.log + RecordsNow(s, brought, a)
  {
    hide Step;
    SameHandlers(s, a);
  }

  lemma NoThreadMoves(s: Sys, brought: seq<Option<Signal>>, a: Action)
    requires ByHandler(a) && a.t >= |s.handlers|
    ensures Step(s, a).decided == s.decided + SortsNow(s, brought, a) && Step(s, a).log == s.log + RecordsNow(s, brought, a)
  {
    hide AfterEntry, AfterClassify, AfterCheck, AfterRecord, AfterOutcome;
  }

  lemma ThreadMoves(s: Sys, brought: seq<Option<Signal>>, a: Action)
    requires ByHandler(a) && a.t < |s.handlers| == |brought| && (InGate(s.handlers[a.t]) ==> s.burned != [])
    requires About(s.handlers[a.t]).Some? ==> About(s.handlers[a.t]) == brought[a.t]
    ensures Step(s, a).decided == s.decided + SortsNow(s, brought, a) && Step(s, a).log == s.log + RecordsNow(s, brought, a)
  {
    hide Step;
    HistoryStep(s, a);
  }

  /** Both histories over one step, from what was delivered. */
  lemma HistoryMoves(s: Sys, brought: seq<Option<Signal>>, a: Action)
    requires Inv(s) && AllBrought(s, brought)
    ensures Step(s, a).decided == s.decided + SortsNow(s, brought, a) && Step(s, a).log == s.log + RecordsNow(s, brought, a)
  {
    hide Step, Inv, SortsNow, RecordsNow, About, InGate;
    if !ByHandler(a) {
      LifecycleMoves(s, brought, a);
    } else if a.t >= |s.handlers| {
      NoThreadMoves(s, brought, a);
    } else {
      if InGate(s.handlers[a.t]) { InsideBurned(s, a.t); }
      ThreadMoves(s, brought, a);
    }
  }

  lemma {:induction false} HistoryRun(s: Sys, brought: seq<Option<Signal>>, actions: seq<Action>)
    requires Inv(s) && AllBrought(s, brought)
    ensures Run(s, actions).decided == s.decided + SortedIn(s, brought, actions)
    ensures Run(s, actions).log == s.log + RecordedIn(s, brought, actions)
    decreases |actions|
  {
    hide Inv, AllBrought, Step, SortsNow, RecordsNow, BroughtNext;
    if actions != [] {
      var a := actions[0];
      HistoryMoves(s, brought, a);
      BroughtStep(s, brought, a);
      StepKeeps(s, a);
      HistoryRun(Step(s, a), BroughtNext(s, brought, a), actions[1..]);
    }
  }

  /**
   The signals that are counted and the samples that are recorded, over any run, are those that were delivered to the threads
   that sorted and recorded them, in the order in which they did, none twice and none left out.
   */
  lemma HistoryIsDelivered(threads: nat, actions: seq<Action>)
    requires threads < CLOSED
    ensures var s, none := Initial(threads), seq(threads, _ => None);
      && Run(s, actions).decided == SortedIn(s, none, actions)
      && Run(s, actions).log == RecordedIn(s, none, actions)
  {
    InvInitial(threads);
    hide Inv, Run, SortedIn, RecordedIn;
    var none: seq<Option<Signal>> := seq(threads, _ => None);
    HistoryRun(Initial(threads), none, actions);
  }

  // ------------------------------------------------------------------ a capture's life

  /** The commands of a start that succeeds. */
  function Starts(id: string): seq<Action> { [StartCookie(id), ReserveSignal(true), FinishReserve, StartComponents(true), OpenGate] }

  /** A start with a free signal and working components publishes a capture of the next epoch, with nothing counted yet. */
  lemma StartsRunning(s: Sys, id: string)
    requires Reachable(s) && s.phase.Free? && (s.profiler == New || s.profiler == Idle) && s.nextEpoch < 0xFFFF_FFFF
    ensures var s' := Run(s, Starts(id));
      && Running(s', id, s.nextEpoch + 1)
      && s'.gate == 0 && s'.counters == NoSignals() && s'.burned == s.burned + [s.nextEpoch + 1] && s'.nextEpoch == s.nextEpoch + 1
      && s'.terminal == s.terminal && s'.handlers == s.handlers && s'.log == s.log && s'.decided == s.decided
  {
    hide Reachable, Run;
    RunFive(s, StartCookie(id), ReserveSignal(true), FinishReserve, StartComponents(true), OpenGate);
  }

  /** A start whose signal is taken changes nothing but the epoch, which is used up. */
  lemma StartWithoutSignal(s: Sys, id: string)
    requires s.phase.Free? && (s.profiler == New || s.profiler == Idle) && s.nextEpoch < 0xFFFF_FFFF
    ensures Run(s, [StartCookie(id), ReserveSignal(false)]) == s.(nextEpoch := s.nextEpoch + 1, burned := s.burned + [s.nextEpoch + 1])
  {
    hide Run;
    RunTwo(s, StartCookie(id), ReserveSignal(false));
  }

  /** A start whose components fail leaves no capture behind: the gate is closed, and the profiler where it was. */
  lemma StartWithoutComponents(s: Sys, id: string)
    requires Reachable(s) && s.phase.Free? && (s.profiler == New || s.profiler == Idle) && s.nextEpoch < 0xFFFF_FFFF
    ensures var s' := Run(s, [StartCookie(id), ReserveSignal(true), FinishReserve, StartComponents(false), DrainAbort, ClearAbort]);
      && s'.phase.Free? && !s'.ready && s'.gate == CLOSED && s'.epoch == 0 && s'.profiler == s.profiler && s'.nextEpoch == s.nextEpoch + 1
      && s'.terminal == s.terminal && s'.handlers == s.handlers && s'.log == s.log && s'.decided == s.decided
  {
    hide Reachable, Run;
    RunSix(s, StartCookie(id), ReserveSignal(true), FinishReserve, StartComponents(false), DrainAbort, ClearAbort);
  }

  /** When and why the stop `a` of the running capture happens. */
  function StopReason(a: Action): string
    requires a.GuardedStop? || (a.Stop? && a.reason.Some?)
  {
    if a.GuardedStop? then "guarded-stop" else a.reason.value
  }

  function StopTime(a: Action): u64
    requires a.GuardedStop? || a.Stop?
  {
    if a.GuardedStop? then a.at else a.now
  }

  lemma StopBegins(s: Sys, a: Action, id: string, epoch: u32)
    requires Running(s, id, epoch) && Ends(a, id, epoch)
    ensures Step(s, a) == s.(gate := Close(s.gate), stoppedAt := StopTime(a), phase := Stopping(StopReason(a)))
  {
  }

  /** Handlers leave the lifecycle alone. */
  lemma {:induction false} HandlersLeave(s: Sys, actions: seq<Action>)
    requires AllByHandlers(actions)
    ensures var s' := Run(s, actions); s' == s.(gate := s'.gate, counters := s'.counters, log := s'.log, decided := s'.decided, handlers := s'.handlers)
    decreases |actions|
  {
    hide HandlerStep;
    if actions != [] {
      HandlerFrame(s, actions[0]);
      HandlersLeave(Step(s, actions[0]), actions[1..]);
    }
  }

  lemma Finishes(s: Sys, finalized: bool)
    requires s.phase.Stopping? && Count(s.gate) == 0
    ensures Run(s, [Drain, Snapshot, FinishStop(finalized)])
         == s.(ready := false, stopped := s.counters, epoch := 0, id := "", profiler := Idle, phase := Free,
               terminal := Terminal(s.id, s.epoch, s.counters, s.stoppedAt, finalized,
                                    if finalized then InRecord(s.phase.reason) else "finalization-failed"))
  {
    hide Run, Count, HandlerStep, LookupCapture, BeginStop;
    RunThree(s, Drain, Snapshot, FinishStop(finalized));
  }

  /** What a capture that has ended leaves behind. */
  predicate Ended(s: Sys, id: string, epoch: u32, at: u64, finalized: bool, reason: string) {
    && s.phase.Free? && !s.ready && s.profiler == Idle && s.epoch == 0
    && s.terminal.Terminal? && s.terminal.id == id && s.terminal.epoch == epoch && s.terminal.stoppedAt == at && s.terminal.finalized == finalized
    && s.terminal.reason == if finalized then InRecord(reason) else "finalization-failed"
  }

  /**
   A running capture that is stopped can always end: its handlers empty the gate in as many operations as they have left, and
   the stop then leaves its record and an idle profiler.
   */
  lemma StopsRunning(s: Sys, a: Action, finalized: bool, id: string, epoch: u32) returns (left: seq<Action>)
    requires Reachable(s) && Running(s, id, epoch) && Ends(a, id, epoch)
    ensures AllByHandlers(left) && |left| <= Work(s.handlers)
    ensures Ended(Run(s, [a] + (left + [Drain, Snapshot, FinishStop(finalized)])), id, epoch, StopTime(a), finalized, StopReason(a))
  {
    ReachableInv(s);
    StopBegins(s, a, id, epoch);
    StepKeeps(s, a);
    var s1 := Step(s, a);
    hide Reachable, Inv, Step, Run, Count, InRecord, Work, AllByHandlers, Ends;
    left := ClosedGateEmpties(s1);
    HandlersLeave(s1, left);
    Finishes(Run(s1, left), finalized);
    RunOne(s, a);
    RunJoins(s, [a], left + [Drain, Snapshot, FinishStop(finalized)]);
    RunJoins(s1, left, [Drain, Snapshot, FinishStop(finalized)]);
  }
}
