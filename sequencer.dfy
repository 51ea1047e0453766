/** The acquisition sequence of `DataAcquisitionWindow` as a state machine.
    Every phase callback shows an instruction and arms one or two one-shot
    timers (`QTimer.singleShot`); the event loop then runs the timer that is
    due first, in the order they were armed when two are due together. The
    timer clock counts milliseconds; the wall clock `time.time()` that stamps
    trial rows is a separate input. */
module Sequencer {
  import opened Optional
  import opened Trials
  import Filters
  import Export

  /** The callback a one-shot timer runs. */
  datatype Callback =
    | DoShowCrossBeforeLeft
    | DoPhaseLeft
    | DoStartRecording
    | DoStopRecordingAndRestAfterLeft
    | DoShowCrossBeforeRight
    | DoPhaseRight
    | DoStopRecordingAndFinishRound
    | DoRunRound

  /** An armed one-shot timer: when it is due, and what it runs. */
  datatype Timer = Timer(due: int, callback: Callback)

  /** The window's state. `shown` is every instruction shown so far, oldest
      first; `saves` is the trial log each `saveCSV` call wrote. */
  datatype Session = Session(
    clock: int,
    timers: seq<Timer>,
    recording: bool,
    currentClass: Option<Label>,
    roundsRemaining: int,
    restTime: int,
    leftTime: int,
    rightTime: int,
    instruction: string,
    shown: seq<string>,
    startEnabled: bool,
    acquisitionStart: Option<real>,
    acquired: seq<TrialRow>,
    saves: seq<seq<TrialRow>>)

  /** The state `__init__` leaves: not recording, no class, durations of
      1 s, 3 s and 3 s, start enabled, nothing acquired. */
  function Initial(): (s: Session)
    ensures !s.recording && s.timers == [] && s.startEnabled && s.acquired == []
  {
    Session(0, [], false, None, 0, 1000, 3000, 3000, "", [], true, None, [], [])
  }

  // ---------------------------------------------------------------------
  // Primitive effects

  /** `instruction_widget.setInstruction(text)`. */
  function Show(s: Session, text: string): Session {
    s.(instruction := text, shown := s.shown + [text])
  }

  /** `QTimer.singleShot(ms, callback)`; Qt refuses a negative timeout, so
      such a timer is never armed. */
  function Schedule(s: Session, ms: int, callback: Callback): (r: Session)
    ensures ms >= 0 ==> r == s.(timers := s.timers + [Timer(s.clock + ms, callback)])
    ensures ms < 0 ==> r == s
  {
    if ms < 0 then s else s.(timers := s.timers + [Timer(s.clock + ms, callback)])
  }

  /** `int(x * 1000)`: seconds to milliseconds, truncated toward zero. */
  function Millis(x: real): int {
    if x >= 0.0 then (x * 1000.0).Floor else -((-x * 1000.0).Floor)
  }

  /** `Millis` drops the fraction of a millisecond toward zero, so it is
      negative exactly when the duration is -1 ms or less. */
  lemma MillisTruncates(x: real)
    ensures x >= 0.0 ==> Millis(x) as real <= x * 1000.0 < Millis(x) as real + 1.0
    ensures x < 0.0 ==> Millis(x) as real - 1.0 < x * 1000.0 <= Millis(x) as real
    ensures Millis(x) < 0 <==> x * 1000.0 <= -1.0
  {
  }

  /** A duration field: its milliseconds, or `fallback` where `float(...)`
      raised. */
  function MillisOr(x: Option<real>, fallback: int): int {
    match x
    case Some(v) => Millis(v)
    case None => fallback
  }

  // ---------------------------------------------------------------------
  // The window's methods

  /** `startAcquisition`: each input is `None` where its `int(...)` or
      `float(...)` raises, and then falls back to its default; the trial log
      is cleared, start disabled, the start time taken, and `runRound` run. */
  function StartAcquisition(s: Session, rounds: Option<int>, rest: Option<real>, left: Option<real>,
                            right: Option<real>, now: real): Session
  {
    RunRound(Configure(s, rounds, rest, left, right, now))
  }

  /** The part of `startAcquisition` before `runRound`. */
  function Configure(s: Session, rounds: Option<int>, rest: Option<real>, left: Option<real>,
                     right: Option<real>, now: real): Session
  {
    ResetLog(ReadSettings(s, rounds, rest, left, right), now)
  }

  /** The four `try` blocks: the round count and the three durations. */
  function ReadSettings(s: Session, rounds: Option<int>, rest: Option<real>, left: Option<real>,
                        right: Option<real>): Session
  {
    s.(roundsRemaining := rounds.GetOr(1),
       restTime := MillisOr(rest, 1000),
       leftTime := MillisOr(left, 3000),
       rightTime := MillisOr(right, 3000))
  }

  /** Clear the trial log, disable start, and take the start time. */
  function ResetLog(s: Session, now: real): Session {
    s.(acquired := [], startEnabled := false, acquisitionStart := Some(now))
  }

  /** `runRound`: with no round left, show "Collection finish", save, and
      enable start; otherwise show "Rest" and arm the cross after `rest`. */
  function RunRound(s: Session): Session {
    if s.roundsRemaining <= 0 then
      Show(s, "Collection finish").(saves := s.saves + [s.acquired], startEnabled := true)
    else
      Schedule(Show(s, "Rest"), s.restTime, DoShowCrossBeforeLeft)
  }

  function ShowCrossBeforeLeft(s: Session): Session {
    Schedule(Show(s, ""), 1000, DoPhaseLeft)
  }

  function PhaseLeft(s: Session): Session {
    var t := Show(s, "Left").(currentClass := Some(Left));
    Schedule(Schedule(t, 300, DoStartRecording), s.leftTime, DoStopRecordingAndRestAfterLeft)
  }

  function StopRecordingAndRestAfterLeft(s: Session): Session {
    Schedule(Show(StopRecording(s), "Rest"), s.restTime, DoShowCrossBeforeRight)
  }

  function ShowCrossBeforeRight(s: Session): Session {
    Schedule(Show(s, ""), 1000, DoPhaseRight)
  }

  function PhaseRight(s: Session): Session {
    var t := Show(s, "Right").(currentClass := Some(Right));
    Schedule(Schedule(t, 300, DoStartRecording), s.rightTime, DoStopRecordingAndFinishRound)
  }

  /** The instruction stays "Right" during the one-second gap before the
      next round. */
  function StopRecordingAndFinishRound(s: Session): Session {
    Schedule(StopRecording(s).(roundsRemaining := s.roundsRemaining - 1), 1000, DoRunRound)
  }

  function StartRecording(s: Session): Session {
    s.(recording := true)
  }

  function StopRecording(s: Session): Session {
    s.(recording := false)
  }

  /** `handle_serial_data(raw)` at wall-clock time `now`: while recording,
      a `Channel:` line becomes a row stamped with the time since the start
      and labelled with the current class. */
  function HandleSerialData(s: Session, raw: string, now: real): (r: Session)
    ensures r.acquired == s.acquired || (s.recording && |r.acquired| == |s.acquired| + 1
                                         && r.acquired[..|s.acquired|] == s.acquired)
    ensures r.(acquired := s.acquired) == s
  {
    match LoggedRow(s, raw, now)
    case None => s
    case Some(row) => s.(acquired := s.acquired + [row])
  }

  /** The row `handle_serial_data` logs for `raw`: only while recording, and
      only for a line `TrialRowOf` accepts. */
  function LoggedRow(s: Session, raw: string, now: real): Option<TrialRow> {
    if s.recording && s.acquisitionStart.Some? then
      TrialRowOf(raw, now - s.acquisitionStart.value, s.currentClass)
    else
      None
  }

  /** A row is appended exactly while recording, for a `Channel:` line whose
      fields parse; it carries the payload's fields 2 to 9 and the class of
      the phase being recorded. */
  lemma HandleSerialDataAppends(s: Session, raw: string, now: real)
    requires s.acquisitionStart.Some?
    ensures var r := HandleSerialData(s, raw, now);
            var row := TrialRowOf(raw, now - s.acquisitionStart.value, s.currentClass);
            (r.acquired != s.acquired <==> s.recording && row.Some?)
            && (r.acquired != s.acquired ==> r.acquired == s.acquired + [row.value]
                                             && row.value.trialClass == s.currentClass
                                             && IsChannelLine(raw))
  {
    var row := TrialRowOf(raw, now - s.acquisitionStart.value, s.currentClass);
    if s.recording && row.Some? {
      assert LoggedRow(s, raw, now) == row;
      assert |s.acquired + [row.value]| == |s.acquired| + 1;
    } else {
      assert LoggedRow(s, raw, now) == None;
    }
  }

  function Dispatch(s: Session, callback: Callback): Session {
    match callback
    case DoShowCrossBeforeLeft => ShowCrossBeforeLeft(s)
    case DoPhaseLeft => PhaseLeft(s)
    case DoStartRecording => StartRecording(s)
    case DoStopRecordingAndRestAfterLeft => StopRecordingAndRestAfterLeft(s)
    case DoShowCrossBeforeRight => ShowCrossBeforeRight(s)
    case DoPhaseRight => PhaseRight(s)
    case DoStopRecordingAndFinishRound => StopRecordingAndFinishRound(s)
    case DoRunRound => RunRound(s)
  }

  // ---------------------------------------------------------------------
  // The event loop

  /** The timer the event loop runs next (see `EarliestIndexIsFirstDue`). */
  function EarliestIndex(timers: seq<Timer>): (i: nat)
    requires |timers| > 0
    ensures i < |timers|
  {
    EarliestFrom(timers, 0, 1)
  }

  /** A scan of `timers[j..]` that keeps `best` unless a later timer is due
      strictly earlier. */
  function EarliestFrom(timers: seq<Timer>, best: nat, j: nat): (i: nat)
    requires best < j <= |timers|
    ensures i < |timers|
    decreases |timers| - j
  {
    if j == |timers| then best
    else if timers[j].due < timers[best].due then EarliestFrom(timers, j, j + 1)
    else EarliestFrom(timers, best, j + 1)
  }

  /** The timer run next is the one due first, and among those due together
      the one armed first. */
  lemma EarliestIndexIsFirstDue(timers: seq<Timer>)
    requires |timers| > 0
    ensures var i := EarliestIndex(timers);
            (forall m :: 0 <= m < |timers| ==> timers[i].due <= timers[m].due)
            && (forall m :: 0 <= m < i ==> timers[m].due > timers[i].due)
  {
    EarliestFromIsFirstDue(timers, 0, 1);
  }

  lemma {:induction false} EarliestFromIsFirstDue(timers: seq<Timer>, best: nat, j: nat)
    requires best < j <= |timers|
    requires forall m :: 0 <= m < j ==> timers[best].due <= timers[m].due
    requires forall m :: 0 <= m < best ==> timers[m].due > timers[best].due
    ensures var i := EarliestFrom(timers, best, j);
            (forall m :: 0 <= m < |timers| ==> timers[i].due <= timers[m].due)
            && (forall m :: 0 <= m < i ==> timers[m].due > timers[i].due)
    decreases |timers| - j
  {
    if j < |timers| {
      if timers[j].due < timers[best].due {
        EarliestFromIsFirstDue(timers, j, j + 1);
      } else {
        EarliestFromIsFirstDue(timers, best, j + 1);
      }
    }
  }

  /** Advance the clock to the next timer, disarm it and run its callback;
      with no timer armed nothing happens. */
  function Fire(s: Session): Session {
    if s.timers == [] then s
    else
      var i := EarliestIndex(s.timers);
      var t := s.timers[i];
      Dispatch(s.(clock := t.due, timers := s.timers[..i] + s.timers[i + 1..]), t.callback)
  }

  /** The state after `k` timers have fired. */
  function Iterate(s: Session, k: nat): Session {
    Iter(Fire, s, k)
  }

  /** `k` applications of `f`. */
  function Iter<T>(f: T -> T, x: T, k: nat): T {
    if k == 0 then x else f(Iter(f, x, k - 1))
  }

  // ---------------------------------------------------------------------
  // Properties

  /** No armed timer is due before the clock. */
  predicate TimersAhead(s: Session) {
    forall j :: 0 <= j < |s.timers| ==> s.timers[j].due >= s.clock
  }

  /** Firing keeps every timer ahead of the clock and never moves the clock back. */
  lemma FireMovesForward(s: Session)
    requires TimersAhead(s)
    ensures TimersAhead(Fire(s)) && Fire(s).clock >= s.clock
  {
    if s.timers != [] {
      var i := EarliestIndex(s.timers);
      var t := s.timers[i];
      var u := s.(clock := t.due, timers := s.timers[..i] + s.timers[i + 1..]);
      EarliestIndexIsFirstDue(s.timers);
      assert TimersAhead(u) by {
        forall j | 0 <= j < |u.timers| ensures u.timers[j].due >= u.clock {
          if j < i { assert u.timers[j] == s.timers[j]; } else { assert u.timers[j] == s.timers[j + 1]; }
        }
      }
      DispatchMovesForward(u, t.callback);
    }
  }

  lemma DispatchMovesForward(s: Session, callback: Callback)
    requires TimersAhead(s)
    ensures TimersAhead(Dispatch(s, callback)) && Dispatch(s, callback).clock == s.clock
  {
  }

  /** The fall-backs of `startAcquisition`: with every input unreadable a
      session has one round, 1 s of rest and 3 s per phase; the log is
      cleared, start disabled, and the first round begins with "Rest". */
  lemma StartFallbacks(s: Session, now: real)
    ensures var r := StartAcquisition(s, None, None, None, None, now);
            r.roundsRemaining == 1 && r.restTime == 1000 && r.leftTime == 3000 && r.rightTime == 3000
            && r.acquired == [] && !r.startEnabled && r.acquisitionStart == Some(now)
            && r.shown == s.shown + ["Rest"] && r.instruction == "Rest"
            && r.timers == s.timers + [Timer(s.clock + 1000, DoShowCrossBeforeLeft)]
  {
  }

  /** `runRound` with no round left finishes: "Collection finish" is shown,
      the log is saved once, start is enabled again, and no timer is armed. */
  lemma RunRoundFinishes(s: Session)
    requires s.roundsRemaining <= 0
    ensures var r := RunRound(s);
            r.instruction == "Collection finish" && r.shown == s.shown + ["Collection finish"]
            && r.saves == s.saves + [s.acquired] && r.startEnabled && r.timers == s.timers
            && r.roundsRemaining == s.roundsRemaining && r.recording == s.recording
  {
  }

  /** What is left after a timer callback that may raise: the session goes
      on, or an exception escaped the callback and ended the application,
      leaving behind only the raw file written before it. PyQt5 turns an
      unhandled exception in a slot invoked by Qt into a fatal error. */
  datatype Outcome = Continues(next: Session) | Aborted(rawFile: seq<TrialRow>)

  /** `runRound` as written: when it finishes, `saveCSV` writes the raw
      file and then raises on a log that `apply_bandpass_filter` refuses.
      The exception escapes the `singleShot` callback before start is
      enabled again, and the application ends. */
  function RunRoundAsWritten(s: Session, filt: Filters.ZeroPhaseFilter): Outcome {
    if s.roundsRemaining <= 0 then
      match Export.CsvOfAsWritten(s.acquired, filt)
      case None => Aborted(s.acquired)
      case Some(_) => Continues(Show(s, "Collection finish").(saves := s.saves + [s.acquired], startEnabled := true))
    else
      Continues(RunRound(s))
  }

  /** As written, a finishing round whose log has 15 to 33 rows ends the
      application once the raw file holds the log; in every other case
      `runRound` does what the corrected `RunRound` does. */
  lemma RunRoundAsWrittenAborts(s: Session, filt: Filters.ZeroPhaseFilter)
    ensures RunRoundAsWritten(s, filt).Aborted? <==> s.roundsRemaining <= 0 && 15 <= |s.acquired| <= 33
    ensures RunRoundAsWritten(s, filt).Aborted? ==>
              RunRoundAsWritten(s, filt).rawFile == s.acquired == Export.CsvOf(s.acquired, filt).raw
    ensures RunRoundAsWritten(s, filt).Continues? ==> RunRoundAsWritten(s, filt).next == RunRound(s)
  {
    Export.CsvAsWrittenRaises(s.acquired, filt);
  }

  /** A start asking for no rounds finishes at once. */
  lemma StartWithoutRounds(s: Session, n: int, now: real)
    requires n <= 0
    ensures var r := StartAcquisition(s, Some(n), None, None, None, now);
            r.shown == s.shown + ["Collection finish"] && r.startEnabled && r.saves == s.saves + [[]]
  {
  }

  /** `Resting`: "Rest" is shown at the start of a round and only the timer
      for the cross before Left is armed; the durations are ones Qt accepts
      and each phase lasts at least the 300 ms before recording starts. */
  predicate Resting(s: Session) {
    s.timers == [Timer(s.clock + s.restTime, DoShowCrossBeforeLeft)]
    && !s.recording && s.instruction == "Rest" && s.roundsRemaining >= 1
    && s.restTime >= 0 && s.leftTime >= 300 && s.rightTime >= 300
  }

  /** Recording happens only while a class is shown, and rows are labelled
      with the class shown. */
  predicate RecordsShownClass(s: Session) {
    s.recording ==>
      (s.instruction == "Left" && s.currentClass == Some(Left))
      || (s.instruction == "Right" && s.currentClass == Some(Right))
  }

  /** What holds in every state `y` reached by firing timers from the start
      `s` of a round: recording only under a shown class, and `s`'s log
      saved at most once, after which no timer is armed and nothing is
      recorded. */
  predicate Settled(s: Session, y: Session) {
    RecordsShownClass(y)
    && (y.saves == s.saves || (y.saves == s.saves + [s.acquired] && y.timers == [] && !y.recording))
  }

  /** Before the end of a round: recording only under a shown class, and
      the saved logs still `saves`. */
  predicate MidRound(saves: seq<seq<TrialRow>>, y: Session) {
    RecordsShownClass(y) && y.saves == saves
  }

  /** The instructions of one round after its opening "Rest". */
  const RoundBody: seq<string> := ["", "Left", "Rest", "", "Right"]

  /** A whole round as shown: "Rest", cross, "Left", "Rest", cross, "Right". */
  const Round: seq<string> := ["Rest", "", "Left", "Rest", "", "Right"]

  function Repeat(block: seq<string>, n: nat): seq<string> {
    if n == 0 then [] else block + Repeat(block, n - 1)
  }

  /** The state after the round's first timer, and so on: nine timers make
      one round. */
  lemma FireOne(s: Session, t: Timer)
    requires s.timers == [t]
    ensures Fire(s) == Dispatch(s.(clock := t.due, timers := []), t.callback)
  {
    assert EarliestIndex(s.timers) == 0;
    assert s.timers[..0] + s.timers[1..] == [];
  }

  lemma FireFirstOfTwo(s: Session, a: Timer, b: Timer)
    requires s.timers == [a, b] && a.due <= b.due
    ensures Fire(s) == Dispatch(s.(clock := a.due, timers := [b]), a.callback)
  {
    EarliestOfTwo(a, b);
    assert s.timers[..0] + s.timers[1..] == [b];
  }

  lemma FireSecondOfTwo(s: Session, a: Timer, b: Timer)
    requires s.timers == [a, b] && b.due < a.due
    ensures Fire(s) == Dispatch(s.(clock := b.due, timers := [a]), b.callback)
  {
    EarliestOfTwo(a, b);
    assert s.timers[..1] + s.timers[2..] == [a];
  }

  /** Of two timers the later-armed one runs first only when it is due
      strictly earlier. */
  lemma EarliestOfTwo(a: Timer, b: Timer)
    ensures EarliestIndex([a, b]) == if b.due < a.due then 1 else 0
  {
    var ts := [a, b];
    if b.due < a.due {
      assert EarliestFrom(ts, 1, 2) == 1;
    } else {
      assert EarliestFrom(ts, 0, 2) == 0;
    }
  }

  /** Iterating follows a chain of values each of which steps to the next. */
  lemma {:induction false} IterChain<T>(f: T -> T, chain: seq<T>, k: nat)
    requires IsChain(f, chain) && k < |chain|
    ensures Iter(f, chain[0], k) == chain[k]
  {
    if k > 0 {
      IterChain(f, chain, k - 1);
    }
  }

  lemma {:induction false} IterAdd<T>(f: T -> T, x: T, a: nat, b: nat)
    ensures Iter(f, x, a + b) == Iter(f, Iter(f, x, a), b)
  {
    if b > 0 {
      IterAdd(f, x, a, b - 1);
    }
  }

  lemma {:induction false} IterFixed<T>(f: T -> T, x: T, k: nat)
    requires f(x) == x
    ensures Iter(f, x, k) == x
  {
    if k > 0 {
      IterFixed(f, x, k - 1);
    }
  }

  lemma IterateChain(states: seq<Session>, k: nat)
    requires IsChain(Fire, states) && k < |states|
    ensures Iterate(states[0], k) == states[k]
  {
    IterChain(Fire, states, k);
  }

  lemma IterateAdd(s: Session, a: nat, b: nat)
    ensures Iterate(s, a + b) == Iterate(Iterate(s, a), b)
  {
    IterAdd(Fire, s, a, b);
  }

  // Each callback fired from the shape a round gives it.

  lemma FireCrossBeforeLeft(s: Session, d: int)
    requires s.timers == [Timer(d, DoShowCrossBeforeLeft)]
    ensures Fire(s) == s.(clock := d, timers := [Timer(d + 1000, DoPhaseLeft)], instruction := "",
                          shown := s.shown + [""])
  {
    FireOne(s, Timer(d, DoShowCrossBeforeLeft));
  }

  lemma FirePhaseLeft(s: Session, d: int)
    requires s.timers == [Timer(d, DoPhaseLeft)] && s.leftTime >= 0
    ensures Fire(s) == s.(clock := d, timers := [Timer(d + 300, DoStartRecording),
                                                 Timer(d + s.leftTime, DoStopRecordingAndRestAfterLeft)],
                          instruction := "Left", shown := s.shown + ["Left"], currentClass := Some(Left))
  {
    FireOne(s, Timer(d, DoPhaseLeft));
  }

  lemma FireStartRecording(s: Session, d: int, next: Timer)
    requires s.timers == [Timer(d, DoStartRecording), next] && d <= next.due
    ensures Fire(s) == s.(clock := d, timers := [next], recording := true)
  {
    FireFirstOfTwo(s, Timer(d, DoStartRecording), next);
  }

  lemma FireStopAfterLeft(s: Session, d: int)
    requires s.timers == [Timer(d, DoStopRecordingAndRestAfterLeft)] && s.restTime >= 0
    ensures Fire(s) == s.(clock := d, timers := [Timer(d + s.restTime, DoShowCrossBeforeRight)],
                          recording := false, instruction := "Rest", shown := s.shown + ["Rest"])
  {
    FireOne(s, Timer(d, DoStopRecordingAndRestAfterLeft));
  }

  lemma FireCrossBeforeRight(s: Session, d: int)
    requires s.timers == [Timer(d, DoShowCrossBeforeRight)]
    ensures Fire(s) == s.(clock := d, timers := [Timer(d + 1000, DoPhaseRight)], instruction := "",
                          shown := s.shown + [""])
  {
    FireOne(s, Timer(d, DoShowCrossBeforeRight));
  }

  lemma FirePhaseRight(s: Session, d: int)
    requires s.timers == [Timer(d, DoPhaseRight)] && s.rightTime >= 0
    ensures Fire(s) == s.(clock := d, timers := [Timer(d + 300, DoStartRecording),
                                                 Timer(d + s.rightTime, DoStopRecordingAndFinishRound)],
                          instruction := "Right", shown := s.shown + ["Right"], currentClass := Some(Right))
  {
    FireOne(s, Timer(d, DoPhaseRight));
  }

  lemma FireFinishRound(s: Session, d: int)
    requires s.timers == [Timer(d, DoStopRecordingAndFinishRound)]
    ensures Fire(s) == s.(clock := d, timers := [Timer(d + 1000, DoRunRound)], recording := false,
                          roundsRemaining := s.roundsRemaining - 1)
  {
    FireOne(s, Timer(d, DoStopRecordingAndFinishRound));
  }

  lemma FireRunRound(s: Session, d: int)
    requires s.timers == [Timer(d, DoRunRound)]
    ensures Fire(s) == RunRound(s.(clock := d, timers := []))
  {
    FireOne(s, Timer(d, DoRunRound));
  }

  /** The start of a Left trial: cross, "Left", and recording 300 ms later. */
  lemma LeftTrial(s: Session, d: int) returns (states: seq<Session>)
    requires s.timers == [Timer(d, DoShowCrossBeforeLeft)] && !s.recording && s.leftTime >= 300
    ensures |states| == 4 && states[0] == s && IsChain(Fire, states)
    ensures forall i :: 0 <= i < 4 ==> MidRound(s.saves, states[i])
    ensures states[3] == s.(clock := d + 1300, timers := [Timer(d + 1000 + s.leftTime, DoStopRecordingAndRestAfterLeft)],
                            instruction := "Left", shown := s.shown + ["", "Left"], currentClass := Some(Left),
                            recording := true)
  {
    var c := d + 1000;
    var s1 := s.(clock := d, timers := [Timer(c, DoPhaseLeft)], instruction := "", shown := s.shown + [""]);
    FireCrossBeforeLeft(s, d);
    var stop := Timer(c + s.leftTime, DoStopRecordingAndRestAfterLeft);
    var s2 := s1.(clock := c, timers := [Timer(c + 300, DoStartRecording), stop],
                  instruction := "Left", shown := s1.shown + ["Left"], currentClass := Some(Left));
    FirePhaseLeft(s1, c);
    FireStartRecording(s2, c + 300, stop);
    assert s1.shown + ["Left"] == s.shown + ["", "Left"];
    var s3 := s2.(clock := c + 300, timers := [stop], recording := true);
    ChainOfFour(Fire, s, s1, s2, s3);
    states := [s, s1, s2, s3];
    assert MidRound(s.saves, s1) && MidRound(s.saves, s2) && MidRound(s.saves, s3);
  }

  /** The start of a Right trial: cross, "Right", and recording 300 ms later. */
  lemma RightTrial(s: Session, d: int) returns (states: seq<Session>)
    requires s.timers == [Timer(d, DoShowCrossBeforeRight)] && !s.recording && s.rightTime >= 300
    ensures |states| == 4 && states[0] == s && IsChain(Fire, states)
    ensures forall i :: 0 <= i < 4 ==> MidRound(s.saves, states[i])
    ensures states[3] == s.(clock := d + 1300, timers := [Timer(d + 1000 + s.rightTime, DoStopRecordingAndFinishRound)],
                            instruction := "Right", shown := s.shown + ["", "Right"], currentClass := Some(Right),
                            recording := true)
  {
    var c := d + 1000;
    var s1 := s.(clock := d, timers := [Timer(c, DoPhaseRight)], instruction := "", shown := s.shown + [""]);
    FireCrossBeforeRight(s, d);
    var stop := Timer(c + s.rightTime, DoStopRecordingAndFinishRound);
    var s2 := s1.(clock := c, timers := [Timer(c + 300, DoStartRecording), stop],
                  instruction := "Right", shown := s1.shown + ["Right"], currentClass := Some(Right));
    FirePhaseRight(s1, c);
    FireStartRecording(s2, c + 300, stop);
    assert s1.shown + ["Right"] == s.shown + ["", "Right"];
    var s3 := s2.(clock := c + 300, timers := [stop], recording := true);
    ChainOfFour(Fire, s, s1, s2, s3);
    states := [s, s1, s2, s3];
    assert MidRound(s.saves, s1) && MidRound(s.saves, s2) && MidRound(s.saves, s3);
  }

  /** Each element of `c` is `f` of the one before. */
  ghost predicate IsChain<T>(f: T -> T, c: seq<T>) {
    forall i :: 0 <= i < |c| - 1 ==> c[i + 1] == f(c[i])
  }

  lemma ChainAppend<T>(f: T -> T, a: seq<T>, b: seq<T>)
    requires IsChain(f, a) && IsChain(f, b) && |a| > 0 && |b| > 0 && b[0] == f(a[|a| - 1])
    ensures IsChain(f, a + b)
  {
    forall i | 0 <= i < |a + b| - 1 ensures (a + b)[i + 1] == f((a + b)[i]) {
      if i + 1 >= |a| {
        assert (a + b)[i + 1] == b[i + 1 - |a|];
      }
    }
  }

  /** What a round does from `Resting` state `s` to state `t`: one round
      fewer, the same durations and log, recording off, and either "Rest"
      again or "Collection finish" with the log saved and start enabled. */
  ghost predicate RoundStep(s: Session, t: Session) {
    t.roundsRemaining == s.roundsRemaining - 1
    && t.restTime == s.restTime && t.leftTime == s.leftTime && t.rightTime == s.rightTime
    && t.acquired == s.acquired && !t.recording
    && (s.roundsRemaining > 1 ==>
          Resting(t) && t.shown == s.shown + RoundBody + ["Rest"] && t.saves == s.saves)
    && (s.roundsRemaining == 1 ==>
          t.timers == [] && t.startEnabled && t.saves == s.saves + [s.acquired]
          && t.shown == s.shown + RoundBody + ["Collection finish"])
  }

  /** One round from `Resting`: nine timers show cross, "Left", "Rest",
      cross, "Right" and then either "Rest" again, with one round fewer, or
      "Collection finish" with the log saved; recording is only ever on while
      a class is shown (`OneRoundRecords`). */
  lemma OneRound(s: Session)
    requires Resting(s)
    ensures RoundStep(s, Iterate(s, 9))
  {
    var u := RoundFirings(s);
    RoundEnd(s, u);
  }

  /** Within a round recording is only ever on while a class is shown, and
      the log is saved only by the last firing, which arms nothing more. */
  lemma OneRoundRecords(s: Session)
    requires Resting(s)
    ensures forall k :: 0 <= k <= 9 ==> Settled(s, Iterate(s, k))
  {
    var u := RoundFirings(s);
  }

  /** The nine firings of a round leave the state `runRound` starts from. */
  lemma RoundFirings(s: Session) returns (u: Session)
    requires Resting(s)
    ensures u == s.(clock := u.clock, timers := [], instruction := "Right", shown := s.shown + RoundBody,
                    currentClass := Some(Right), recording := false, roundsRemaining := s.roundsRemaining - 1)
    ensures Iterate(s, 9) == RunRound(u)
    ensures forall k :: 0 <= k <= 9 ==> Settled(s, Iterate(s, k))
  {
    var all: seq<Session>;
    all, u := RoundChain(s);
    forall k | 0 <= k <= 9 ensures Iterate(s, k) == all[k] {
      IterateChain(all, k);
    }
    RoundEnd(s, u);
  }

  /** The ten states of a round as one chain of firings. */
  lemma RoundChain(s: Session) returns (all: seq<Session>, u: Session)
    requires Resting(s)
    ensures |all| == 10 && all[0] == s && IsChain(Fire, all)
    ensures forall k :: 0 <= k < 9 ==> MidRound(s.saves, all[k])
    ensures u == s.(clock := u.clock, timers := [], instruction := "Right", shown := s.shown + RoundBody,
                    currentClass := Some(Right), recording := false, roundsRemaining := s.roundsRemaining - 1)
    ensures all[9] == RunRound(u)
  {
    var d1 := s.clock + s.restTime;
    var left := LeftTrial(s, d1);
    var s3 := left[3];
    var d4 := d1 + 1000 + s.leftTime;
    var s4 := s3.(clock := d4, timers := [Timer(d4 + s.restTime, DoShowCrossBeforeRight)],
                  recording := false, instruction := "Rest", shown := s3.shown + ["Rest"]);
    FireStopAfterLeft(s3, d4);
    var right := RightTrial(s4, d4 + s.restTime);
    var s7 := right[3];
    var d8 := d4 + s.restTime + 1000 + s.rightTime;
    var s8 := s7.(clock := d8, timers := [Timer(d8 + 1000, DoRunRound)], recording := false,
                  roundsRemaining := s.roundsRemaining - 1);
    FireFinishRound(s7, d8);
    u := s8.(clock := d8 + 1000, timers := []);
    FireRunRound(s8, d8 + 1000);
    ChainAppend(Fire, left, right);
    ChainAppend(Fire, left + right, [s8, RunRound(u)]);
    all := left + right + [s8, RunRound(u)];
    assert s8.shown == s.shown + RoundBody;
  }

  /** `runRound` at the end of a round either rests again or finishes. */
  lemma RoundEnd(s: Session, u: Session)
    requires Resting(s)
    requires u == s.(clock := u.clock, timers := [], instruction := "Right", shown := s.shown + RoundBody,
                     currentClass := Some(Right), recording := false, roundsRemaining := s.roundsRemaining - 1)
    ensures RoundStep(s, RunRound(u))
  {
  }

  /** The `n` rounds after the opening "Rest". */
  function RoundsAfterRest(n: nat): seq<string>
    requires n >= 1
  {
    if n == 1 then RoundBody + ["Collection finish"] else RoundBody + ["Rest"] + RoundsAfterRest(n - 1)
  }

  /** From `Resting` with `n` rounds left, `9 * n` timers run every remaining
      round and finish: the log is saved once and start is enabled again. */
  lemma RemainingRounds(s: Session, n: nat)
    requires Resting(s) && s.roundsRemaining == n
    ensures var t := Iterate(s, 9 * n);
            t.shown == s.shown + RoundsAfterRest(n) && t.roundsRemaining == 0
            && t.timers == [] && t.startEnabled && !t.recording && t.saves == s.saves + [s.acquired]
  {
    forall x {:trigger Iter(Fire, x, 9)} | Resting(x) ensures RoundStep(x, Iter(Fire, x, 9)) {
      OneRound(x);
    }
    RoundsBy(Fire, s, n);
  }

  /** In every state of the remaining rounds, recording is on only while a
      class is shown, and the log is saved at most once, after which nothing
      is armed or recorded. */
  lemma RemainingRoundsRecord(s: Session, n: nat)
    requires Resting(s) && s.roundsRemaining == n
    ensures forall k :: 0 <= k <= 9 * n ==> Settled(s, Iterate(s, k))
  {
    forall x | Resting(x) ensures RoundRecords(Fire, x) {
      RoundFacts(x);
    }
    RecordsBy(Fire, s, n);
  }

  lemma RoundFacts(s: Session)
    requires Resting(s)
    ensures RoundRecords(Fire, s)
  {
    OneRound(s);
    OneRoundRecords(s);
    forall k | 0 <= k <= 9 ensures Settled(s, Iter(Fire, s, k)) {
      assert Iterate(s, k) == Iter(Fire, s, k);
    }
  }

  /** Nine steps of `f` make a round from `s`, recording only while a class
      is shown in every state on the way. */
  ghost predicate RoundRecords(f: Session -> Session, s: Session) {
    RoundStep(s, Iter(f, s, 9)) && RecordsThroughRound(f, s)
  }

  ghost predicate RecordsThroughRound(f: Session -> Session, s: Session) {
    forall k :: 0 <= k <= 9 ==> Settled(s, Iter(f, s, k))
  }

  /** Rounds chained: any step function of which nine steps make a round
      runs all `n` remaining rounds in `9 * n` steps. */
  lemma {:induction false} RoundsBy(f: Session -> Session, s: Session, n: nat)
    decreases n
    requires forall x {:trigger Iter(f, x, 9)} :: Resting(x) ==> RoundStep(x, Iter(f, x, 9))
    requires Resting(s) && s.roundsRemaining == n
    ensures var t := Iter(f, s, 9 * n);
            t.shown == s.shown + RoundsAfterRest(n) && t.roundsRemaining == 0
            && t.timers == [] && t.startEnabled && !t.recording && t.saves == s.saves + [s.acquired]
  {
    var s9 := Iter(f, s, 9);
    assert RoundStep(s, s9);
    if n > 1 {
      RoundsBy(f, s9, n - 1);
      IterAdd(f, s, 9, 9 * (n - 1));
      assert 9 + 9 * (n - 1) == 9 * n;
      var t := Iter(f, s9, 9 * (n - 1));
      assert t.shown == s9.shown + RoundsAfterRest(n - 1);
      assert t.shown == s.shown + (RoundBody + ["Rest"] + RoundsAfterRest(n - 1));
    } else {
      assert 9 * n == 9;
    }
  }

  lemma {:induction false} RecordsBy(f: Session -> Session, s: Session, n: nat)
    decreases n
    requires forall x :: Resting(x) ==> RoundRecords(f, x)
    requires Resting(s) && s.roundsRemaining == n
    ensures forall k :: 0 <= k <= 9 * n ==> Settled(s, Iter(f, s, k))
  {
    var s9 := Iter(f, s, 9);
    assert RoundRecords(f, s);
    assert RoundStep(s, s9) && RecordsThroughRound(f, s);
    if n > 1 {
      RecordsBy(f, s9, n - 1);
      forall k | 9 < k <= 9 * n ensures Settled(s, Iter(f, s, k)) {
        IterAdd(f, s, 9, k - 9);
        assert k - 9 <= 9 * (n - 1);
        assert Settled(s9, Iter(f, s9, k - 9));
      }
    }
  }

  lemma {:induction false} RoundsShown(n: nat)
    requires n >= 1
    ensures ["Rest"] + RoundsAfterRest(n) == Repeat(Round, n) + ["Collection finish"]
  {
    if n > 1 {
      RoundsShown(n - 1);
      assert ["Rest"] + RoundsAfterRest(n) == Round + (["Rest"] + RoundsAfterRest(n - 1));
    }
  }

  /** A start with `n >= 1` rounds, a non-negative rest and phases of at
      least 300 ms runs exactly `n` rounds in `9 * n` timers: the window
      shows "Rest", cross, "Left", "Rest", cross, "Right" `n` times and then
      "Collection finish", saves the log once and enables start again; in
      every state on the way recording is on only while a class is shown. */
  lemma AcquisitionRunsAllRounds(s: Session, n: int, rest: real, left: real, right: real, now: real)
    requires s.timers == [] && !s.recording && n >= 1
    requires rest >= 0.0 && left >= 0.3 && right >= 0.3
    ensures var r := StartAcquisition(s, Some(n), Some(rest), Some(left), Some(right), now);
            var t := Iterate(r, 9 * n);
            t.shown == s.shown + Repeat(Round, n) + ["Collection finish"]
            && t.roundsRemaining == 0 && t.timers == [] && t.startEnabled && !t.recording
            && t.saves == s.saves + [[]]
    ensures var r := StartAcquisition(s, Some(n), Some(rest), Some(left), Some(right), now);
            forall k :: 0 <= k <= 9 * n ==> RecordsShownClass(Iterate(r, k))
  {
    StartRests(s, n, rest, left, right, now);
    RoundsFromFirstRest(StartAcquisition(s, Some(n), Some(rest), Some(left), Some(right), now), n, s.shown, s.saves);
  }

  lemma RoundsFromFirstRest(r: Session, n: nat, shown: seq<string>, saves: seq<seq<TrialRow>>)
    requires Resting(r) && r.roundsRemaining == n && n >= 1
    requires r.shown == shown + ["Rest"] && r.saves == saves && r.acquired == []
    ensures var t := Iterate(r, 9 * n);
            t.shown == shown + Repeat(Round, n) + ["Collection finish"]
            && t.roundsRemaining == 0 && t.timers == [] && t.startEnabled && !t.recording
            && t.saves == saves + [[]]
    ensures forall k :: 0 <= k <= 9 * n ==> RecordsShownClass(Iterate(r, k))
  {
    RemainingRounds(r, n);
    RemainingRoundsRecord(r, n);
    RoundsShown(n);
    assert Iterate(r, 9 * n).shown == shown + (["Rest"] + RoundsAfterRest(n));
  }

  lemma StartRests(s: Session, n: int, rest: real, left: real, right: real, now: real)
    requires s.timers == [] && !s.recording && n >= 1
    requires rest >= 0.0 && left >= 0.3 && right >= 0.3
    ensures var r := StartAcquisition(s, Some(n), Some(rest), Some(left), Some(right), now);
            Resting(r) && r.roundsRemaining == n && r.shown == s.shown + ["Rest"]
            && r.saves == s.saves && r.acquired == []
  {
    MillisTruncates(rest);
    MillisTruncates(left);
    MillisTruncates(right);
  }

  /** A rest of -1 ms or less (Qt refuses the timer) stalls the sequence at
      its first "Rest": no timer is armed, so nothing further ever happens. */
  lemma NegativeRestStalls(s: Session, n: int, rest: real, now: real, k: nat)
    requires s.timers == [] && n >= 1 && rest <= -0.001
    ensures var r := StartAcquisition(s, Some(n), Some(rest), None, None, now);
            r.timers == [] && Iterate(r, k) == r && r.instruction == "Rest" && !r.startEnabled
  {
    MillisTruncates(rest);
    var r := StartAcquisition(s, Some(n), Some(rest), None, None, now);
    IdleStays(r, k);
  }

  lemma IdleStays(s: Session, k: nat)
    requires s.timers == []
    ensures Iterate(s, k) == s
  {
    IterFixed(Fire, s, k);
  }

  /** A Left phase shorter than the 300 ms before recording starts ends
      first, so recording is switched on while "Rest" is shown (with a rest
      of at least 300 ms), and the rows recorded then are labelled Left. */
  lemma ShortLeftPhaseRecordsDuringRest(s: Session)
    requires s.timers == [Timer(s.clock + s.restTime, DoShowCrossBeforeLeft)]
    requires !s.recording && s.restTime >= 300 && 0 <= s.leftTime < 300
    ensures var t := Iterate(s, 4);
            t.recording && t.instruction == "Rest" && t.currentClass == Some(Left) && !RecordsShownClass(t)
  {
    var states := ShortLeftChain(s);
    IterateChain(states, 4);
  }

  lemma ShortLeftChain(s: Session) returns (states: seq<Session>)
    requires s.timers == [Timer(s.clock + s.restTime, DoShowCrossBeforeLeft)]
    requires !s.recording && s.restTime >= 300 && 0 <= s.leftTime < 300
    ensures |states| == 5 && states[0] == s && IsChain(Fire, states)
    ensures states[4].recording && states[4].instruction == "Rest" && states[4].currentClass == Some(Left)
  {
    var d := s.clock + s.restTime;
    var c := d + 1000;
    var s1 := s.(clock := d, timers := [Timer(c, DoPhaseLeft)], instruction := "", shown := s.shown + [""]);
    FireCrossBeforeLeft(s, d);
    var start := Timer(c + 300, DoStartRecording);
    var stop := Timer(c + s.leftTime, DoStopRecordingAndRestAfterLeft);
    var s2 := s1.(clock := c, timers := [start, stop], instruction := "Left", shown := s1.shown + ["Left"],
                  currentClass := Some(Left));
    FirePhaseLeft(s1, c);
    var cross := Timer(c + s.leftTime + s.restTime, DoShowCrossBeforeRight);
    var s3 := s2.(clock := c + s.leftTime, timers := [start, cross], recording := false, instruction := "Rest",
                  shown := s2.shown + ["Rest"]);
    FireStopBeforeRecording(s2, c);
    var s4 := s3.(clock := c + 300, timers := [cross], recording := true);
    FireStartRecording(s3, c + 300, cross);
    states := [s, s1, s2, s3, s4];
    ChainOfFive(Fire, s, s1, s2, s3, s4);
  }

  /** A Left phase under 300 ms ends before its recording starts. */
  lemma FireStopBeforeRecording(s: Session, c: int)
    requires s.timers == [Timer(c + 300, DoStartRecording), Timer(c + s.leftTime, DoStopRecordingAndRestAfterLeft)]
    requires 0 <= s.leftTime < 300 && s.restTime >= 0
    ensures Fire(s) == s.(clock := c + s.leftTime,
                          timers := [Timer(c + 300, DoStartRecording),
                                     Timer(c + s.leftTime + s.restTime, DoShowCrossBeforeRight)],
                          recording := false, instruction := "Rest", shown := s.shown + ["Rest"])
  {
    FireSecondOfTwo(s, Timer(c + 300, DoStartRecording), Timer(c + s.leftTime, DoStopRecordingAndRestAfterLeft));
  }

  lemma ChainOfFour<T>(f: T -> T, a: T, b: T, c: T, d: T)
    requires b == f(a) && c == f(b) && d == f(c)
    ensures IsChain(f, [a, b, c, d])
  {
    var chain := [a, b, c, d];
    forall i | 0 <= i < 3 ensures chain[i + 1] == f(chain[i]) {
      if i == 0 {} else if i == 1 {} else {}
    }
  }

  lemma ChainOfFive<T>(f: T -> T, a: T, b: T, c: T, d: T, e: T)
    requires b == f(a) && c == f(b) && d == f(c) && e == f(d)
    ensures IsChain(f, [a, b, c, d, e])
  {
    var chain := [a, b, c, d, e];
    forall i | 0 <= i < 4 ensures chain[i + 1] == f(chain[i]) {
      if i == 0 {} else if i == 1 {} else if i == 2 {} else {}
    }
  }
}
