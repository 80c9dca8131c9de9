/** What every interleaving of the capture protocol keeps. */
module SignalInvariant {
  import opened Bytes
  import opened SignalCapture

  // ------------------------------------------------------------------ counting handlers

  function Tally(hs: seq<Handler>, p: Handler -> bool): nat {
    if hs == [] then 0 else (if p(hs[0]) then 1 else 0) + Tally(hs[1..], p)
  }

  lemma {:induction false} TallyUpdate(hs: seq<Handler>, t: nat, h: Handler, p: Handler -> bool)
    requires t < |hs|
    ensures Tally(hs[t := h], p) == Tally(hs, p) - (if p(hs[t]) then 1 else 0) + (if p(h) then 1 else 0)
  {
    if t == 0 {
      assert hs[0 := h][1..] == hs[1..];
    } else {
      TallyUpdate(hs[1..], t - 1, h, p);
      assert hs[t := h][1..] == hs[1..][t - 1 := h];
    }
  }

  lemma {:induction false} TallyBound(hs: seq<Handler>, p: Handler -> bool)
    ensures Tally(hs, p) <= |hs|
  {
    if hs != [] { TallyBound(hs[1..], p); }
  }

  lemma {:induction false} TallyMember(hs: seq<Handler>, t: nat, p: Handler -> bool)
    requires t < |hs| && p(hs[t])
    ensures Tally(hs, p) > 0
  {
    if t > 0 { TallyMember(hs[1..], t - 1, p); }
  }

  /** A larger class of handlers has a larger tally. */
  lemma {:induction false} TallyMonotone(hs: seq<Handler>, p: Handler -> bool, q: Handler -> bool)
    requires forall h | h in hs :: p(h) ==> q(h)
    ensures Tally(hs, p) <= Tally(hs, q)
  {
    if hs != [] { TallyMonotone(hs[1..], p, q); }
  }

  predicate InGate(h: Handler) { !h.Outside? && !h.Loaded? }

  /** Admitted and counted, but not yet classified. */
  predicate Unclassified(h: Handler) { h.Counted? || h.EpochRead? }

  /** Accepted, but the outcome of the recording not yet counted. */
  predicate Recording(h: Handler) { h.Accepted? || h.Recorded? }

  predicate RecordedWell(h: Handler) { h.Recorded? && h.ok }

  // ------------------------------------------------------------------ samples of one capture

  function Landed(log: seq<Sample>, capture: nat): nat {
    if log == [] then 0
    else Landed(log[..|log| - 1], capture) + (if log[|log| - 1].capture == capture then 1 else 0)
  }

  lemma LandedSnoc(log: seq<Sample>, x: Sample, capture: nat)
    ensures Landed(log + [x], capture) == Landed(log, capture) + (if x.capture == capture then 1 else 0)
  {
    assert (log + [x])[..|log|] == log;
  }

  lemma {:induction false} LandedNowhere(log: seq<Sample>, capture: nat)
    requires forall x | x in log :: x.capture < capture
    ensures Landed(log, capture) == 0
  {
    if log != [] { LandedNowhere(log[..|log| - 1], capture); }
  }

  // ------------------------------------------------------------------ classes of signals

  datatype Class = InvalidCode | ZeroCookie | ZeroSequence | StaleEpoch | Acceptable

  /** What a signal is to a capture with the given epoch. */
  function ClassOf(sig: Signal, epoch: u32): Class {
    if !sig.allowed then InvalidCode
    else if sig.cookie == 0 then ZeroCookie
    else if LowWord(sig.cookie) == 0 then ZeroSequence
    else if HighWord(sig.cookie) != epoch then StaleEpoch
    else Acceptable
  }

  function CountOf(c: Counters, k: Class): nat {
    match k
    case InvalidCode => c.invalid
    case ZeroCookie => c.zeroCookie
    case ZeroSequence => c.zeroSequence
    case StaleEpoch => c.stale
    case Acceptable => c.accepted
  }

  /** Number of signals of class `k` that were sorted by the given capture, whose epoch is one more than its position. */
  function Among(ds: seq<Decision>, capture: nat, k: Class): nat {
    if ds == [] then 0
    else
      var d := ds[|ds| - 1];
      Among(ds[..|ds| - 1], capture, k) + (if d.capture == capture && ClassOf(d.sig, U32(capture + 1)) == k then 1 else 0)
  }

  lemma AmongSnoc(ds: seq<Decision>, d: Decision, capture: nat, k: Class)
    ensures Among(ds + [d], capture, k) == Among(ds, capture, k) + (if d.capture == capture && ClassOf(d.sig, U32(capture + 1)) == k then 1 else 0)
  {
    assert (ds + [d])[..|ds|] == ds;
  }

  lemma {:induction false} AmongNone(ds: seq<Decision>, capture: nat, k: Class)
    requires forall d | d in ds :: d.capture < capture
    ensures Among(ds, capture, k) == 0
  {
    if ds != [] { AmongNone(ds[..|ds| - 1], capture, k); }
  }

  /** The class counters are the true numbers of signals of each class. */
  predicate CountsAre(c: Counters, ds: seq<Decision>, capture: nat) {
    forall k: Class :: CountOf(c, k) == Among(ds, capture, k)
  }

  // ------------------------------------------------------------------ the invariant

  /** Handlers can be inside the gate only while a published capture runs or drains. */
  predicate Quiet(s: Sys) { !(s.phase.Free? && s.ready) && !s.phase.Stopping? }

  predicate GateOk(s: Sys) {
    && |s.handlers| < CLOSED
    && Count(s.gate) == Tally(s.handlers, InGate)
    && (IsClosed(s.gate) <==> !(s.phase.Free? && s.ready))
    && (Quiet(s) ==> s.gate == CLOSED)
  }

  predicate Starting(p: Phase) { p.Burned? || p.Preparing? || p.Reserved? || p.Aborting? || p.AbortDrained? }

  predicate LifecycleOk(s: Sys) {
    && (s.ready ==> s.cookieMode && s.profiler == Active && (s.phase.Free? || s.phase.Publishing? || s.phase.Stopping? || s.phase.Drained?))
    && (s.phase.Publishing? || s.phase.Stopping? || s.phase.Drained? ==> s.ready)
    && (s.phase.Frozen? ==> s.profiler == Active && s.cookieMode)
    && (Starting(s.phase) ==> s.profiler == New || s.profiler == Idle)
    && (s.phase.Reserved? ==> s.cookieMode)
    && (s.profiler == Active && s.cookieMode && s.phase.Free? ==> s.ready)
  }

  predicate EpochOk(s: Sys) {
    && s.nextEpoch == |s.burned|
    && (forall i | 0 <= i < |s.burned| :: s.burned[i] == i + 1)
    && (s.epoch != 0 ==> s.epoch == s.nextEpoch)
    && (s.epoch == 0 <==> (s.phase.Free? && !s.ready) || s.phase.Burned?)
    && (s.phase.Burned? ==> s.nextEpoch > 0)
  }

  /** What a handler inside the gate knows stays true until it leaves. */
  predicate Fresh(h: Handler, epoch: u32) {
    && (h.EpochRead? ==> h.epoch == epoch && h.sig.allowed && LowWord(h.sig.cookie) != 0)
    && (h.Accepted? ==> HighWord(h.sig.cookie) == epoch && LowWord(h.sig.cookie) != 0)
  }

  predicate HandlersOk(s: Sys) {
    forall t | 0 <= t < |s.handlers| :: Fresh(s.handlers[t], s.epoch)
  }

  /** Admitted signals that are in no class yet. */
  function Unsorted(c: Counters): int { c.admitted - c.invalid - c.zeroCookie - c.zeroSequence - c.stale - c.accepted }

  /** Accepted signals without an outcome yet. */
  function Undecided(c: Counters): int { c.accepted - c.failures - c.submitted }

  /** Every admitted signal is in exactly one class, every accepted one has exactly one outcome. */
  predicate Balanced(c: Counters) { Unsorted(c) == 0 && Undecided(c) == 0 }

  predicate CountersOk(s: Sys) {
    Unsorted(s.counters) == Tally(s.handlers, Unclassified) && Undecided(s.counters) == Tally(s.handlers, Recording)
  }

  predicate SampleOk(x: Sample, burned: seq<u32>) {
    x.capture < |burned| && HighWord(x.cookie) == burned[x.capture] && LowWord(x.cookie) != 0
  }

  predicate LogOk(s: Sys) {
    && (forall i | 0 <= i < |s.log| :: SampleOk(s.log[i], s.burned))
    && (s.nextEpoch > 0 && (s.phase.Burned? || s.phase.Preparing?) ==> Landed(s.log, s.nextEpoch - 1) == 0)
    && (s.epoch != 0 && !s.phase.Preparing? ==>
          s.counters.submitted + Tally(s.handlers, RecordedWell) == Landed(s.log, s.epoch - 1))
  }

  predicate DecidedOk(s: Sys) {
    && (forall i | 0 <= i < |s.decided| :: s.decided[i].capture < |s.burned|)
    && (s.nextEpoch > 0 && (s.phase.Burned? || s.phase.Preparing?) ==> CountsAre(NoSignals(), s.decided, s.nextEpoch - 1))
    && (s.epoch != 0 && !s.phase.Preparing? ==> CountsAre(s.counters, s.decided, s.epoch - 1))
  }

  /** The terminal record is exact: it counts the signals and the samples of its own capture, class by class. */
  predicate TerminalOk(s: Sys) {
    && (s.phase.Frozen? ==> s.stopped == s.counters && !s.ready)
    && (s.terminal.Terminal? ==>
          && 0 < s.terminal.epoch <= s.nextEpoch
          && (s.epoch != 0 ==> s.terminal.epoch < s.epoch)
          && (s.phase.Burned? ==> s.terminal.epoch < s.nextEpoch)
          && Balanced(s.terminal.stats)
          && s.terminal.stats.submitted == Landed(s.log, s.terminal.epoch - 1)
          && CountsAre(s.terminal.stats, s.decided, s.terminal.epoch - 1))
  }

  predicate Inv(s: Sys) {
    GateOk(s) && LifecycleOk(s) && EpochOk(s) && HandlersOk(s) && CountersOk(s) && LogOk(s) && DecidedOk(s) && TerminalOk(s)
  }

  lemma {:induction false} TallyNone(hs: seq<Handler>, p: Handler -> bool)
    requires forall h | h in hs :: !p(h)
    ensures Tally(hs, p) == 0
  {
    if hs != [] { TallyNone(hs[1..], p); }
  }

  lemma NobodyInside(hs: seq<Handler>)
    requires forall t | 0 <= t < |hs| :: hs[t] == Outside
    ensures Tally(hs, InGate) == 0 && Tally(hs, Unclassified) == 0 && Tally(hs, Recording) == 0
  {
    TallyNone(hs, InGate);
    TallyNone(hs, Unclassified);
    TallyNone(hs, Recording);
  }

  lemma InvInitial(threads: nat)
    requires threads < CLOSED
    ensures Inv(Initial(threads))
  {
    var s := Initial(threads);
    var hs := s.handlers;
    NobodyInside(hs);
    hide Tally, Landed;
    assert s.phase == Free && !s.ready && s.gate == CLOSED && s.epoch == 0 && s.log == [] && s.burned == [] && |hs| == threads && s.nextEpoch == 0;
    assert s.counters == NoSignals() && s.terminal.NoTerminal?;
    hide Initial;
    assert GateOk(s);
    assert LifecycleOk(s);
    assert EpochOk(s);
    assert CountersOk(s);
    assert LogOk(s) && DecidedOk(s);
    assert TerminalOk(s);
  }

  // ------------------------------------------------------------------ handler steps keep it

  /** The effect on the tallies of moving thread `t` to `h`. */
  lemma Moved(s: Sys, t: nat, h: Handler)
    requires t < |s.handlers|
    ensures var hs := s.handlers[t := h]; var g := s.handlers[t];
      && Tally(hs, InGate) == Tally(s.handlers, InGate) - (if InGate(g) then 1 else 0) + (if InGate(h) then 1 else 0)
      && Tally(hs, Unclassified) == Tally(s.handlers, Unclassified) - (if Unclassified(g) then 1 else 0) + (if Unclassified(h) then 1 else 0)
      && Tally(hs, Recording) == Tally(s.handlers, Recording) - (if Recording(g) then 1 else 0) + (if Recording(h) then 1 else 0)
      && Tally(hs, RecordedWell) == Tally(s.handlers, RecordedWell) - (if RecordedWell(g) then 1 else 0) + (if RecordedWell(h) then 1 else 0)
  {
    TallyUpdate(s.handlers, t, h, InGate);
    TallyUpdate(s.handlers, t, h, Unclassified);
    TallyUpdate(s.handlers, t, h, Recording);
    TallyUpdate(s.handlers, t, h, RecordedWell);
  }

  /** A handler inside the gate is inside a published, still identified capture. */
  lemma InsideIsLive(s: Sys, t: nat)
    requires Inv(s) && t < |s.handlers| && InGate(s.handlers[t])
    ensures !Quiet(s) && s.epoch == s.nextEpoch == |s.burned| && s.epoch > 0 && Count(s.gate) > 0
  {
    TallyMember(s.handlers, t, InGate);
  }

  /** Nobody is inside a quiet gate. */
  lemma QuietIsEmpty(s: Sys)
    requires Inv(s) && s.gate == CLOSED
    ensures forall t | 0 <= t < |s.handlers| :: !InGate(s.handlers[t])
    ensures Tally(s.handlers, Unclassified) == 0 && Tally(s.handlers, Recording) == 0 && Tally(s.handlers, RecordedWell) == 0
  {
    forall t | 0 <= t < |s.handlers| ensures !InGate(s.handlers[t]) {
      if InGate(s.handlers[t]) { TallyMember(s.handlers, t, InGate); }
    }
    TallyMonotone(s.handlers, Unclassified, InGate);
    TallyMonotone(s.handlers, Recording, InGate);
    TallyMonotone(s.handlers, RecordedWell, InGate);
  }

  // ------------------------------------------------------------------ one handler moves

  function Bit(b: bool): int { if b then 1 else 0 }

  /** The log is as before, or one sample of the live capture longer, and the books follow. */
  predicate LogMoved(s: Sys, t: nat, h: Handler, s': Sys)
    requires t < |s.handlers|
  {
    var gain := s'.counters.submitted + Bit(RecordedWell(h)) - s.counters.submitted - Bit(RecordedWell(s.handlers[t]));
    || (s'.log == s.log && gain == 0)
    || (s.log < s'.log && |s'.log| == |s.log| + 1 && gain == 1 && !Quiet(s) && 0 < s.epoch == |s.burned| && s'.log[|s.log|].capture == s.epoch - 1 && SampleOk(s'.log[|s.log|], s.burned))
  }

  /** Nothing was sorted, or one signal was sorted by the live capture and its class counter went up. */
  predicate DecidedMoved(s: Sys, s': Sys) {
    || (s'.decided == s.decided && forall k: Class :: CountOf(s'.counters, k) == CountOf(s.counters, k))
    || (&& s.decided < s'.decided && |s'.decided| == |s.decided| + 1 && !Quiet(s) && 0 < s.epoch == |s.burned|
        && s'.decided[|s.decided|].capture == s.epoch - 1
        && forall k: Class :: CountOf(s'.counters, k) == CountOf(s.counters, k) + Bit(k == ClassOf(s'.decided[|s.decided|].sig, s.epoch)))
  }

  /** `s'` is `s` after the handler on thread `t` moved to `h`. */
  predicate MovedTo(s: Sys, t: nat, h: Handler, s': Sys)
    requires t < |s.handlers|
  {
    var g := s.handlers[t];
    && s' == s.(gate := s'.gate, counters := s'.counters, log := s'.log, decided := s'.decided, handlers := s.handlers[t := h])
    && Count(s'.gate) - Bit(InGate(h)) == Count(s.gate) - Bit(InGate(g))
    && IsClosed(s'.gate) == IsClosed(s.gate)
    && (Quiet(s) ==> s'.gate == s.gate && s'.counters == s.counters)
    && Fresh(h, s.epoch)
    && Unsorted(s'.counters) - Bit(Unclassified(h)) == Unsorted(s.counters) - Bit(Unclassified(g))
    && Undecided(s'.counters) - Bit(Recording(h)) == Undecided(s.counters) - Bit(Recording(g))
    && LogMoved(s, t, h, s')
    && DecidedMoved(s, s')
  }

  lemma MoveKeepsLog(s: Sys, t: nat, h: Handler, s': Sys)
    requires t < |s.handlers| && EpochOk(s) && LogOk(s) && MovedTo(s, t, h, s')
    ensures LogOk(s')
  {
    hide GateOk, Fresh, HighWord, LowWord;
    Moved(s, t, h);
    if s'.log != s.log {
      var x := s'.log[|s.log|];
      assert s'.log == s.log + [x];
      LandedSnoc(s.log, x, s.epoch - 1);
    }
  }

  lemma SortedCounts(s: Sys, s': Sys, c: Counters, c': Counters, capture: nat, k: Class)
    requires DecidedMoved(s, s') && capture < 0xFFFF_FFFF
    requires CountOf(c, k) == Among(s.decided, capture, k)
    requires (c' == s'.counters && c == s.counters && capture == s.epoch - 1) || (c' == c && capture != s.epoch - 1)
    ensures CountOf(c', k) == Among(s'.decided, capture, k)
  {
    hide ClassOf, Among, CountOf, Quiet;
    if s'.decided != s.decided {
      var d := s'.decided[|s.decided|];
      assert s'.decided == s.decided + [d];
      AmongSnoc(s.decided, d, capture, k);
    }
  }

  lemma MoveKeepsDecided(s: Sys, t: nat, h: Handler, s': Sys)
    requires t < |s.handlers| && EpochOk(s) && DecidedOk(s) && MovedTo(s, t, h, s')
    ensures DecidedOk(s')
  {
    hide GateOk, Fresh, HighWord, LowWord, LogMoved, Among, CountOf, ClassOf, Unsorted, Undecided;
    if s.epoch != 0 && !s.phase.Preparing? {
      forall k: Class ensures CountOf(s'.counters, k) == Among(s'.decided, s.epoch - 1, k) {
        SortedCounts(s, s', s.counters, s'.counters, s.epoch - 1, k);
      }
    }
  }

  lemma MoveKeepsTerminal(s: Sys, t: nat, h: Handler, s': Sys)
    requires t < |s.handlers| && EpochOk(s) && TerminalOk(s) && MovedTo(s, t, h, s')
    ensures TerminalOk(s')
  {
    hide GateOk, Fresh, HighWord, LowWord, SampleOk, Among, CountOf, ClassOf;
    if s.terminal.Terminal? {
      forall k: Class ensures CountOf(s.terminal.stats, k) == Among(s'.decided, s.terminal.epoch - 1, k) {
        if s.epoch == 0 || s.terminal.epoch != s.epoch {
          SortedCounts(s, s', s.terminal.stats, s.terminal.stats, s.terminal.epoch - 1, k);
        }
      }
    }
    if s'.log != s.log && s.terminal.Terminal? {
      var x := s'.log[|s.log|];
      assert s'.log == s.log + [x];
      LandedSnoc(s.log, x, s.terminal.epoch - 1);
    }
  }

  lemma MoveKeeps(s: Sys, t: nat, h: Handler, s': Sys)
    requires t < |s.handlers| && Inv(s) && MovedTo(s, t, h, s')
    ensures Inv(s')
  {
    MoveKeepsLog(s, t, h, s');
    MoveKeepsDecided(s, t, h, s');
    MoveKeepsTerminal(s, t, h, s');
    Moved(s, t, h);
    hide LogOk, DecidedOk, DecidedMoved, TerminalOk, LogMoved, Fresh;
  }

  /** `s'` differs from `s` only in thread `t`, the gate, the counters and the history. */
  predicate OnlyMoves(s: Sys, s': Sys, t: nat) {
    && s' == s.(gate := s'.gate, counters := s'.counters, log := s'.log, decided := s'.decided, handlers := s'.handlers)
    && |s'.handlers| == |s.handlers|
    && (t < |s.handlers| ==> s'.handlers == s.handlers[t := s'.handlers[t]])
  }

  lemma HandlerFrame(s: Sys, a: Action)
    requires ByHandler(a)
    ensures OnlyMoves(s, HandlerStep(s, a), a.t)
  {
    hide HighWord, LowWord, IsClosed, Sorted;
    if a.t < |s.handlers| {
      var h := s.handlers[a.t];
      if a.TryEnter? && h.Loaded? { assert OnlyMoves(s, AfterEntry(s, a.t, h), a.t); }
      if a.Classify? && h.Counted? { assert OnlyMoves(s, AfterClassify(s, a.t, h.sig), a.t); }
      if a.CheckEpoch? && h.EpochRead? { assert OnlyMoves(s, AfterCheck(s, a.t, h), a.t); }
      if a.Record? && h.Accepted? { assert OnlyMoves(s, AfterRecord(s, a.t, h.sig, a.ok), a.t); }
      if a.CountOutcome? && h.Recorded? { assert OnlyMoves(s, AfterOutcome(s, a.t, h.ok), a.t); }
      hide AfterEntry, AfterClassify, AfterCheck, AfterRecord, AfterOutcome;
    }
  }

  /** There are too few threads for an admission to run into the closed bit. */
  lemma RoomToEnter(s: Sys, t: nat)
    requires GateOk(s) && t < |s.handlers| && s.handlers[t].Loaded? && !IsClosed(s.gate)
    ensures s.gate + 1 < CLOSED
  {
    TallyBound(s.handlers[t := Leaving], InGate);
    TallyUpdate(s.handlers, t, Leaving, InGate);
  }

  lemma EntryMoves(s: Sys, t: nat)
    requires Inv(s) && t < |s.handlers| && s.handlers[t].Loaded?
    ensures Inv(AfterEntry(s, t, s.handlers[t]))
  {
    var h, s' := s.handlers[t], AfterEntry(s, t, s.handlers[t]);
    if !IsClosed(s.gate) { RoomToEnter(s, t); }
    assert Quiet(s) ==> s'.gate == s.gate;
    hide GateOk, LifecycleOk, EpochOk, HandlersOk, CountersOk, LogOk, TerminalOk, Quiet, HighWord, LowWord;
    MoveKeeps(s, t, s'.handlers[t], s');
  }

  lemma ClassifyMoves(s: Sys, t: nat)
    requires Inv(s) && t < |s.handlers| && s.handlers[t].Counted?
    ensures Inv(AfterClassify(s, t, s.handlers[t].sig))
  {
    var s' := AfterClassify(s, t, s.handlers[t].sig);
    InsideIsLive(s, t);
    MoveKeeps(s, t, s'.handlers[t], s');
  }

  lemma CheckMoves(s: Sys, t: nat)
    requires Inv(s) && t < |s.handlers| && s.handlers[t].EpochRead?
    ensures Inv(AfterCheck(s, t, s.handlers[t]))
  {
    var s' := AfterCheck(s, t, s.handlers[t]);
    InsideIsLive(s, t);
    MoveKeeps(s, t, s'.handlers[t], s');
  }

  lemma RecordMoves(s: Sys, t: nat, ok: bool)
    requires Inv(s) && t < |s.handlers| && s.handlers[t].Accepted?
    ensures Inv(AfterRecord(s, t, s.handlers[t].sig, ok))
  {
    var s' := AfterRecord(s, t, s.handlers[t].sig, ok);
    InsideIsLive(s, t);
    MoveKeeps(s, t, s'.handlers[t], s');
  }

  lemma OutcomeMoves(s: Sys, t: nat)
    requires Inv(s) && t < |s.handlers| && s.handlers[t].Recorded?
    ensures Inv(AfterOutcome(s, t, s.handlers[t].ok))
  {
    var s' := AfterOutcome(s, t, s.handlers[t].ok);
    InsideIsLive(s, t);
    MoveKeeps(s, t, s'.handlers[t], s');
  }

  lemma DeliverMoves(s: Sys, t: nat, sig: Signal)
    requires Inv(s) && t < |s.handlers| && s.handlers[t].Outside?
    ensures Inv(s.(handlers := s.handlers[t := Loaded(s.gate, sig)]))
  {
    MoveKeeps(s, t, Loaded(s.gate, sig), s.(handlers := s.handlers[t := Loaded(s.gate, sig)]));
  }

  lemma CountMoves(s: Sys, t: nat)
    requires Inv(s) && t < |s.handlers| && s.handlers[t].Admitted?
    ensures Inv(HandlerStep(s, CountAdmission(t)))
  {
    InsideIsLive(s, t);
    MoveKeeps(s, t, Counted(s.handlers[t].sig), HandlerStep(s, CountAdmission(t)));
  }

  lemma LeaveMoves(s: Sys, t: nat)
    requires Inv(s) && t < |s.handlers| && s.handlers[t].Leaving?
    ensures Inv(HandlerStep(s, Leave(t)))
  {
    InsideIsLive(s, t);
    MoveKeeps(s, t, Outside, HandlerStep(s, Leave(t)));
  }

  lemma HandlerKeeps(s: Sys, a: Action)
    requires Inv(s) && ByHandler(a)
    ensures Inv(HandlerStep(s, a))
  {
    hide Inv, AfterEntry, AfterClassify, AfterCheck, AfterRecord, AfterOutcome;
    if a.t < |s.handlers| {
      var h := s.handlers[a.t];
      if a.Deliver? && h.Outside? { DeliverMoves(s, a.t, a.sig); }
      if a.CountAdmission? && h.Admitted? { CountMoves(s, a.t); }
      if a.Leave? && h.Leaving? { LeaveMoves(s, a.t); }
      if a.TryEnter? && h.Loaded? { EntryMoves(s, a.t); }
      if a.Classify? && h.Counted? { ClassifyMoves(s, a.t); }
      if a.CheckEpoch? && h.EpochRead? { CheckMoves(s, a.t); }
      if a.Record? && h.Accepted? { RecordMoves(s, a.t, a.ok); }
      if a.CountOutcome? && h.Recorded? { OutcomeMoves(s, a.t); }
    }
  }

  // ------------------------------------------------------------------ lifecycle steps keep it

  lemma StartKeeps(s: Sys, id: string)
    requires Inv(s)
    ensures Inv(LifecycleStep(s, StartCookie(id)))
  {
    var s' := LifecycleStep(s, StartCookie(id));
    if s' != s {
      assert s.phase.Free? && !s.ready;
      assert forall x | x in s.log :: SampleOk(x, s.burned);
      LandedNowhere(s.log, s.nextEpoch);
      forall k: Class ensures Among(s.decided, s.nextEpoch, k) == 0 { AmongNone(s.decided, s.nextEpoch, k); }
      forall i | 0 <= i < |s'.log| ensures SampleOk(s'.log[i], s'.burned) { assert SampleOk(s.log[i], s.burned); }
      hide Tally, Landed, SampleOk, HighWord, LowWord;
    }
  }

  lemma ReserveKeeps(s: Sys, available: bool)
    requires Inv(s)
    ensures Inv(LifecycleStep(s, ReserveSignal(available)))
  {
    if s.phase.Burned? { QuietIsEmpty(s); }
    hide Tally, Landed, SampleOk, HighWord, LowWord;
  }

  lemma FinishReserveKeeps(s: Sys)
    requires Inv(s)
    ensures Inv(LifecycleStep(s, FinishReserve))
  {
    if s.phase.Preparing? { QuietIsEmpty(s); }
    hide Tally, Landed, SampleOk, HighWord, LowWord;
  }

  lemma ComponentsKeep(s: Sys, ok: bool)
    requires Inv(s)
    ensures Inv(LifecycleStep(s, StartComponents(ok)))
  {
    if s.phase.Reserved? { QuietIsEmpty(s); }
    hide Tally, Landed, SampleOk, HighWord, LowWord, Fresh;
  }

  lemma OpenKeeps(s: Sys)
    requires Inv(s)
    ensures Inv(LifecycleStep(s, OpenGate))
  {
    if s.phase.Publishing? { QuietIsEmpty(s); }
    hide Tally, Landed, SampleOk, HighWord, LowWord, Fresh;
  }

  lemma AbortKeeps(s: Sys, a: Action)
    requires Inv(s) && (a.DrainAbort? || a.ClearAbort?)
    ensures Inv(LifecycleStep(s, a))
  {
    hide Tally, Landed, SampleOk, HighWord, LowWord;
    if a.DrainAbort? { AbortDrains(s); } else if s.phase.AbortDrained? { AbortClears(s); }
  }

  lemma AbortDrains(s: Sys)
    requires Inv(s)
    ensures s.phase.Aborting? && Count(s.gate) == 0 ==> Inv(s.(phase := AbortDrained))
  {
    hide Tally, Landed, SampleOk, HighWord, LowWord;
  }

  lemma AbortClears(s: Sys)
    requires Inv(s) && s.phase.AbortDrained?
    ensures Inv(s.(ready := false, epoch := 0, id := "", phase := Free))
  {
    hide Tally, Landed, SampleOk, HighWord, LowWord;
    QuietIsEmpty(s);
  }

  lemma StopKeeps(s: Sys, reason: Option<string>, now: u64)
    requires Inv(s) && s.phase.Free? && (reason.None? ==> !s.ready)
    ensures Inv(BeginStop(s, reason, now))
  {
    hide Tally, Landed, SampleOk, HighWord, LowWord;
  }

  lemma OtherKeeps(s: Sys, a: Action)
    requires Inv(s) && (a.StartOther? || a.Shutdown? || a.Drain?)
    ensures Inv(LifecycleStep(s, a))
  {
    hide Tally, Landed, SampleOk, HighWord, LowWord;
  }

  lemma SnapshotKeeps(s: Sys)
    requires Inv(s)
    ensures Inv(LifecycleStep(s, Snapshot))
  {
    hide Tally, Landed, SampleOk, HighWord, LowWord, Fresh, CountsAre, Unsorted, Undecided;
  }

  lemma FinishKeeps(s: Sys, finalized: bool)
    requires Inv(s)
    ensures Inv(LifecycleStep(s, FinishStop(finalized)))
  {
    hide Tally, Landed, SampleOk, HighWord, LowWord, CountsAre, Unsorted, Undecided;
    if s.phase.Frozen? { QuietIsEmpty(s); }
  }

  lemma StepKeeps(s: Sys, a: Action)
    requires Inv(s)
    ensures Inv(Step(s, a))
  {
    hide Inv, HandlerStep, BeginStop, LookupCapture;
    match a
    case StartCookie(id) => StartKeeps(s, id);
    case ReserveSignal(available) => ReserveKeeps(s, available);
    case FinishReserve => FinishReserveKeeps(s);
    case StartComponents(ok) => ComponentsKeep(s, ok);
    case OpenGate => OpenKeeps(s);
    case DrainAbort => AbortKeeps(s, a);
    case ClearAbort => AbortKeeps(s, a);
    case Stop(reason, now) =>
      if s.phase.Free? && !(reason.None? && s.ready) { StopKeeps(s, reason, now); }
    case GuardedStop(_, _, now) =>
      if s.phase.Free? { StopKeeps(s, Some("guarded-stop"), now); }
    case StartOther => OtherKeeps(s, a);
    case Shutdown => OtherKeeps(s, a);
    case Drain => OtherKeeps(s, a);
    case Snapshot => SnapshotKeeps(s);
    case FinishStop(finalized) => FinishKeeps(s, finalized);
    case _ => HandlerKeeps(s, a);
  }

  lemma {:induction false} RunKeeps(s: Sys, actions: seq<Action>)
    requires Inv(s)
    ensures Inv(Run(s, actions))
    decreases |actions|
  {
    hide Inv, Step;
    if actions != [] {
      StepKeeps(s, actions[0]);
      RunKeeps(Step(s, actions[0]), actions[1..]);
    }
  }
}
