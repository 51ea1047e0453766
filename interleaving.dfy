/** The acquisition window with the serial thread running beside the event
    loop: between two timer firings any number of `data_received` signals
    may reach `handle_serial_data`. The round sequence does not depend on
    them; only the trial log and the files written from it do. */
module Interleaving {
  import opened Optional
  import opened Trials
  import opened Sequencer

  /** What reaches the window: the event loop running the timer due next,
      or a line from the serial thread, received at wall-clock time `now`. */
  datatype Event = Tick | Line(raw: string, now: real)

  function Step(s: Session, e: Event): Session {
    match e
    case Tick => Fire(s)
    case Line(raw, now) => HandleSerialData(s, raw, now)
  }

  /** The state after the events `evs`, oldest first. */
  function Replay(s: Session, evs: seq<Event>): Session {
    if evs == [] then s else Step(Replay(s, evs[..|evs| - 1]), evs[|evs| - 1])
  }

  /** How many of the events are timer firings. */
  function Ticks(evs: seq<Event>): (k: nat)
    ensures k <= |evs|
  {
    if evs == [] then 0 else Ticks(evs[..|evs| - 1]) + (if evs[|evs| - 1].Tick? then 1 else 0)
  }

  /** The rows logged along the events: one for each line that arrives while
      recording and yields a row. */
  function Recorded(s: Session, evs: seq<Event>): seq<TrialRow> {
    if evs == [] then []
    else
      var before := Recorded(s, evs[..|evs| - 1]);
      match evs[|evs| - 1]
      case Tick => before
      case Line(raw, now) =>
        match LoggedRow(Replay(s, evs[..|evs| - 1]), raw, now)
        case None => before
        case Some(row) => before + [row]
  }

  /** Everything but the trial log and the files saved from it. */
  function Control(s: Session): Session {
    s.(acquired := [], saves := [])
  }

  // ---------------------------------------------------------------------
  // Lines change only the log; timers never read it

  lemma HandleControl(s: Session, raw: string, now: real)
    ensures Control(HandleSerialData(s, raw, now)) == Control(s)
  {
    var r := HandleSerialData(s, raw, now);
    assert r.(acquired := s.acquired) == s;
  }

  /** A callback reads neither the log nor the saved files: from states
      alike in everything else it leads to states alike in everything else,
      it keeps the log, and it saves the log in both or in neither. */
  lemma DispatchControl(x: Session, y: Session, callback: Callback)
    requires Control(x) == Control(y)
    ensures Control(Dispatch(x, callback)) == Control(Dispatch(y, callback))
    ensures Dispatch(x, callback).acquired == x.acquired
    ensures (Dispatch(x, callback).saves == x.saves && Dispatch(y, callback).saves == y.saves)
            || (Dispatch(x, callback).saves == x.saves + [x.acquired]
                && Dispatch(y, callback).saves == y.saves + [y.acquired])
  {
    var c := Control(y);
    assert x == c.(acquired := x.acquired, saves := x.saves);
    assert y == c.(acquired := y.acquired, saves := y.saves);
    DispatchFrame(c, x.acquired, x.saves, callback);
    DispatchFrame(c, y.acquired, y.saves, callback);
  }

  /** Whether `callback` is the `runRound` that finishes and saves. */
  predicate Finishes(s: Session, callback: Callback) {
    callback == DoRunRound && s.roundsRemaining <= 0
  }

  /** Running a callback with another log and other saved files gives the
      same state with that log, and with the saved files grown by that log
      exactly when the callback finishes the acquisition. */
  lemma DispatchFrame(c: Session, log: seq<TrialRow>, saves: seq<seq<TrialRow>>, callback: Callback)
    ensures Dispatch(c.(acquired := log, saves := saves), callback)
            == Dispatch(c, callback).(acquired := log, saves := if Finishes(c, callback) then saves + [log] else saves)
  {
    match callback
    case DoRunRound =>
    case DoShowCrossBeforeLeft => LeftHalfFrame(c, log, saves, callback);
    case DoPhaseLeft => LeftHalfFrame(c, log, saves, callback);
    case DoStartRecording => LeftHalfFrame(c, log, saves, callback);
    case DoStopRecordingAndRestAfterLeft => LeftHalfFrame(c, log, saves, callback);
    case DoShowCrossBeforeRight => RightHalfFrame(c, log, saves, callback);
    case DoPhaseRight => RightHalfFrame(c, log, saves, callback);
    case DoStopRecordingAndFinishRound => RightHalfFrame(c, log, saves, callback);
  }

  lemma LeftHalfFrame(c: Session, log: seq<TrialRow>, saves: seq<seq<TrialRow>>, callback: Callback)
    requires callback.DoShowCrossBeforeLeft? || callback.DoPhaseLeft? || callback.DoStartRecording?
             || callback.DoStopRecordingAndRestAfterLeft?
    ensures Dispatch(c.(acquired := log, saves := saves), callback)
            == Dispatch(c, callback).(acquired := log, saves := saves)
  {
  }

  lemma RightHalfFrame(c: Session, log: seq<TrialRow>, saves: seq<seq<TrialRow>>, callback: Callback)
    requires callback.DoShowCrossBeforeRight? || callback.DoPhaseRight? || callback.DoStopRecordingAndFinishRound?
    ensures Dispatch(c.(acquired := log, saves := saves), callback)
            == Dispatch(c, callback).(acquired := log, saves := saves)
  {
  }

  /** `Fire` likewise: the timer run next is chosen from the timers alone. */
  lemma FireControl(x: Session, y: Session)
    requires Control(x) == Control(y)
    ensures Control(Fire(x)) == Control(Fire(y))
    ensures Fire(x).acquired == x.acquired
    ensures (Fire(x).saves == x.saves && Fire(y).saves == y.saves)
            || (Fire(x).saves == x.saves + [x.acquired] && Fire(y).saves == y.saves + [y.acquired])
  {
    var c := Control(y);
    assert x == c.(acquired := x.acquired, saves := x.saves);
    assert y == c.(acquired := y.acquired, saves := y.saves);
    FireFrame(c, x.acquired, x.saves);
    FireFrame(c, y.acquired, y.saves);
  }

  /** Whether the timer run next is the `runRound` that finishes. */
  predicate FiresFinish(s: Session) {
    s.timers != [] && Finishes(s, s.timers[EarliestIndex(s.timers)].callback)
  }

  lemma FireFrame(c: Session, log: seq<TrialRow>, saves: seq<seq<TrialRow>>)
    ensures Fire(c.(acquired := log, saves := saves))
            == Fire(c).(acquired := log, saves := if FiresFinish(c) then saves + [log] else saves)
  {
    var x := c.(acquired := log, saves := saves);
    if c.timers != [] {
      var i := EarliestIndex(c.timers);
      var t := c.timers[i];
      var u := c.(clock := t.due, timers := c.timers[..i] + c.timers[i + 1..]);
      assert x.timers == c.timers;
      assert Fire(x) == Dispatch(u.(acquired := log, saves := saves), t.callback);
      assert Fire(c) == Dispatch(u, t.callback);
      assert FiresFinish(c) == Finishes(u, t.callback);
      DispatchFrame(u, log, saves, t.callback);
    }
  }

  /** Whatever lines arrive in between, everything but the log and the
      saved files evolves exactly as under the timer firings alone, so
      every `Sequencer` theorem about `Iterate` holds of such a run. */
  lemma {:induction false} ReplayControl(s: Session, evs: seq<Event>)
    ensures Control(Replay(s, evs)) == Control(Iterate(s, Ticks(evs)))
  {
    if evs != [] {
      var init := evs[..|evs| - 1];
      ReplayControl(s, init);
      var x := Replay(s, init);
      match evs[|evs| - 1]
      case Tick =>
        FireControl(x, Iterate(s, Ticks(init)));
      case Line(raw, now) =>
        HandleControl(x, raw, now);
    }
  }

  /** The log after the events is the log before them followed by the rows
      logged on the way. */
  lemma {:induction false} ReplayLog(s: Session, evs: seq<Event>)
    ensures Replay(s, evs).acquired == s.acquired + Recorded(s, evs)
  {
    if evs != [] {
      var init := evs[..|evs| - 1];
      ReplayLog(s, init);
      var x := Replay(s, init);
      match evs[|evs| - 1]
      case Tick =>
        FireControl(x, x);
      case Line(raw, now) =>
        assert Replay(s, evs) == HandleSerialData(x, raw, now);
    }
  }

  // ---------------------------------------------------------------------
  // Whole acquisitions

  /** Every row of the log carries a class the window showed. */
  predicate LabelledLog(rows: seq<TrialRow>) {
    forall i :: 0 <= i < |rows| ==> rows[i].trialClass == Some(Left) || rows[i].trialClass == Some(Right)
  }

  /** How a run `x` from `r` stands to the timer firings alone, `y`: alike
      in everything but the log and the files, as many saves, the log saved
      at most once and then nothing armed or recorded, and every logged row
      labelled. */
  ghost predicate Tracks(r: Session, x: Session, y: Session) {
    Control(x) == Control(y) && |x.saves| == |y.saves|
    && (x.saves == r.saves || (x.saves == r.saves + [x.acquired] && x.timers == [] && !x.recording))
    && LabelledLog(x.acquired)
  }

  /** From `Resting`, every state the timers reach is `Settled`, also after
      the last round, when nothing is armed any more. */
  lemma AllSettled(r: Session, n: nat, k: nat)
    requires Resting(r) && r.roundsRemaining == n
    ensures Settled(r, Iterate(r, k))
  {
    RemainingRoundsRecord(r, n);
    if k > 9 * n {
      RemainingRounds(r, n);
      IterAdd(Fire, r, 9 * n, k - 9 * n);
      IdleStays(Iterate(r, 9 * n), k - 9 * n);
    }
  }

  lemma {:induction false} ReplayTracks(r: Session, n: nat, evs: seq<Event>)
    requires Resting(r) && r.roundsRemaining == n && r.acquired == []
    ensures Tracks(r, Replay(r, evs), Iterate(r, Ticks(evs)))
  {
    if evs != [] {
      var init := evs[..|evs| - 1];
      ReplayTracks(r, n, init);
      var x := Replay(r, init);
      var k := Ticks(init);
      match evs[|evs| - 1]
      case Tick =>
        assert Replay(r, evs) == Fire(x) && Ticks(evs) == k + 1;
        TickTracks(r, n, x, k);
      case Line(raw, now) =>
        assert Replay(r, evs) == HandleSerialData(x, raw, now) && Ticks(evs) == k;
        AllSettled(r, n, k);
        LineTracks(r, x, Iterate(r, k), raw, now);
    }
  }

  lemma LineTracks(r: Session, x: Session, y: Session, raw: string, now: real)
    requires Tracks(r, x, y) && Settled(r, y)
    ensures Tracks(r, HandleSerialData(x, raw, now), y)
  {
    var x' := HandleSerialData(x, raw, now);
    HandleControl(x, raw, now);
    assert RecordsShownClass(x) by {
      assert x.recording == y.recording && x.instruction == y.instruction && x.currentClass == y.currentClass by {
        assert Control(x) == Control(y);
      }
    }
    if x.acquisitionStart.Some? {
      HandleSerialDataAppends(x, raw, now);
      if x'.acquired != x.acquired {
        var row := x'.acquired[|x.acquired|];
        assert LabelledLog(x'.acquired) by {
          forall i | 0 <= i < |x'.acquired|
            ensures x'.acquired[i].trialClass == Some(Left) || x'.acquired[i].trialClass == Some(Right)
          {
            if i < |x.acquired| { assert x'.acquired[i] == x.acquired[i]; }
          }
        }
      }
    } else {
      assert LoggedRow(x, raw, now) == None;
    }
  }

  lemma TickTracks(r: Session, n: nat, x: Session, k: nat)
    requires Resting(r) && r.roundsRemaining == n && r.acquired == []
    requires Tracks(r, x, Iterate(r, k))
    ensures Tracks(r, Fire(x), Iterate(r, k + 1))
  {
    var y := Iterate(r, k);
    AllSettled(r, n, k);
    AllSettled(r, n, k + 1);
    assert Iterate(r, k + 1) == Fire(y);
    FireControl(x, y);
    assert Fire(x).timers == Fire(y).timers && Fire(x).recording == Fire(y).recording by {
      assert Control(Fire(x)) == Control(Fire(y));
    }
  }

  /** A start with `n >= 1` rounds, a non-negative rest and phases of at
      least 300 ms, with any serial lines arriving between the `9 * n`
      timer firings: the window shows the `n` rounds and "Collection
      finish", enables start again, and saves once exactly the rows logged
      on the way, each labelled with a class it showed; in every state on
      the way recording is on only while a class is shown. */
  lemma AcquisitionWithLines(s: Session, n: int, rest: real, left: real, right: real, now: real,
                             evs: seq<Event>)
    requires s.timers == [] && !s.recording && n >= 1
    requires rest >= 0.0 && left >= 0.3 && right >= 0.3
    requires Ticks(evs) == 9 * n
    ensures var r := StartAcquisition(s, Some(n), Some(rest), Some(left), Some(right), now);
            var t := Replay(r, evs);
            t.shown == s.shown + Repeat(Round, n) + ["Collection finish"]
            && t.roundsRemaining == 0 && t.timers == [] && t.startEnabled && !t.recording
            && t.saves == s.saves + [Recorded(r, evs)] && LabelledLog(Recorded(r, evs))
    ensures var r := StartAcquisition(s, Some(n), Some(rest), Some(left), Some(right), now);
            forall i :: 0 <= i <= |evs| ==> RecordsShownClass(Replay(r, evs[..i]))
  {
    var r := StartAcquisition(s, Some(n), Some(rest), Some(left), Some(right), now);
    StartRests(s, n, rest, left, right, now);
    RoundsWithLines(r, n, s.shown, s.saves, evs);
    forall i | 0 <= i <= |evs| ensures RecordsShownClass(Replay(r, evs[..i])) {
      ReplayRecordsShownClass(r, n, evs[..i]);
    }
  }

  /** From the first "Rest" of `n` rounds, with any lines between the
      `9 * n` firings. */
  lemma RoundsWithLines(r: Session, n: nat, shown: seq<string>, saves: seq<seq<TrialRow>>, evs: seq<Event>)
    requires Resting(r) && r.roundsRemaining == n && n >= 1
    requires r.shown == shown + ["Rest"] && r.saves == saves && r.acquired == []
    requires Ticks(evs) == 9 * n
    ensures var t := Replay(r, evs);
            t.shown == shown + Repeat(Round, n) + ["Collection finish"]
            && t.roundsRemaining == 0 && t.timers == [] && t.startEnabled && !t.recording
            && t.saves == saves + [Recorded(r, evs)] && LabelledLog(Recorded(r, evs))
  {
    RoundsFromFirstRest(r, n, shown, saves);
    ReplayTracks(r, n, evs);
    ReplayLog(r, evs);
    var t := Replay(r, evs);
    var y := Iterate(r, 9 * n);
    assert t.shown == y.shown && t.roundsRemaining == y.roundsRemaining && t.timers == y.timers
           && t.startEnabled == y.startEnabled && t.recording == y.recording by {
      assert Control(t) == Control(y);
    }
    assert t.acquired == Recorded(r, evs);
  }

  /** After any events from `Resting`, recording is on only while a class
      is shown. */
  lemma ReplayRecordsShownClass(r: Session, n: nat, evs: seq<Event>)
    requires Resting(r) && r.roundsRemaining == n && r.acquired == []
    ensures RecordsShownClass(Replay(r, evs))
  {
    ReplayTracks(r, n, evs);
    AllSettled(r, n, Ticks(evs));
    var x := Replay(r, evs);
    var z := Iterate(r, Ticks(evs));
    assert x.recording == z.recording && x.instruction == z.instruction && x.currentClass == z.currentClass by {
      assert Control(x) == Control(z);
    }
  }
}
