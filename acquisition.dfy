/** `DataAcquisitionWindow` as an object: its fields are updated in place by
    the start button, by the one-shot timers of the acquisition sequence and
    by the lines the TCP thread delivers. Each method is proved to move the
    window exactly as the matching function of `Sequencer` moves a `Session`,
    so every theorem proved there about rounds, instructions and recording
    holds of the window; the files `saveCSV` writes are kept as `files`. */
module Acquisition {
  import opened Optional
  import opened Trials
  import opened Filters
  import Export
  import Sequencer

  class AcquisitionWindow {
    /** Milliseconds on the timer clock, and the armed one-shot timers. */
    var clock: int
    var timers: seq<Sequencer.Timer>
    var recording: bool
    var currentClass: Option<Label>
    var roundsRemaining: int
    var restTime: int
    var leftTime: int
    var rightTime: int
    /** The text `instruction_widget` shows, and every text it was given. */
    var instruction: string
    ghost var shown: seq<string>
    /** Whether `start_button` is enabled. */
    var startEnabled: bool
    var acquisitionStart: Option<real>
    /** `acquired_data`. */
    var acquired: seq<TrialRow>
    /** The trial log of every `saveCSV` call, and the files it wrote. */
    ghost var saves: seq<seq<TrialRow>>
    var files: seq<Export.CsvOutput>
    /** The Butterworth `filtfilt` numerics the export uses. */
    const filt: ZeroPhaseFilter

    /** The window's state as a `Sequencer.Session`. */
    ghost function State(): Sequencer.Session
      reads this
    {
      Sequencer.Session(clock, timers, recording, currentClass, roundsRemaining, restTime, leftTime,
                        rightTime, instruction, shown, startEnabled, acquisitionStart, acquired, saves)
    }

    /** Every file written is the export of the log saved at that call. */
    ghost predicate Valid()
      reads this
    {
      |files| == |saves| && forall i :: 0 <= i < |saves| ==> files[i] == Export.CsvOf(saves[i], filt)
    }

    /** `__init__`. */
    constructor (filt: ZeroPhaseFilter)
      ensures State() == Sequencer.Initial() && files == [] && this.filt == filt
      ensures Valid()
    {
      clock, timers := 0, [];
      recording, currentClass := false, None;
      roundsRemaining := 0;
      restTime, leftTime, rightTime := 1000, 3000, 3000;
      instruction, shown := "", [];
      startEnabled, acquisitionStart := true, None;
      acquired, saves, files := [], [], [];
      this.filt := filt;
    }

    /** `instruction_widget.setInstruction(text)`. */
    method ShowInstruction(text: string)
      requires Valid()
      modifies this
      ensures State() == Sequencer.Show(old(State()), text) && files == old(files)
      ensures Valid()
    {
      instruction := text;
      shown := shown + [text];
    }

    /** `QTimer.singleShot(ms, callback)`. */
    method SingleShot(ms: int, callback: Sequencer.Callback)
      requires Valid()
      modifies this
      ensures State() == Sequencer.Schedule(old(State()), ms, callback) && files == old(files)
      ensures Valid()
    {
      if ms >= 0 {
        timers := timers + [Sequencer.Timer(clock + ms, callback)];
      }
    }

    /** `startAcquisition` at wall-clock time `now`, with the four text
        fields already converted (`None` where the conversion raises). */
    method StartAcquisition(rounds: Option<int>, rest: Option<real>, left: Option<real>,
                            right: Option<real>, now: real)
      requires Valid()
      modifies this
      ensures State() == Sequencer.StartAcquisition(old(State()), rounds, rest, left, right, now)
      ensures Valid()
    {
      Configure(rounds, rest, left, right, now);
      RunRound();
    }

    /** Read the durations, clear the log, disable start, take the time. */
    method Configure(rounds: Option<int>, rest: Option<real>, left: Option<real>,
                     right: Option<real>, now: real)
      requires Valid()
      modifies this
      ensures State() == Sequencer.Configure(old(State()), rounds, rest, left, right, now)
      ensures files == old(files)
      ensures Valid()
    {
      ReadSettings(rounds, rest, left, right);
      ResetLog(now);
    }

    /** The fields `startAcquisition` reads, with their fallbacks. */
    method ReadSettings(rounds: Option<int>, rest: Option<real>, left: Option<real>, right: Option<real>)
      requires Valid()
      modifies this
      ensures State() == Sequencer.ReadSettings(old(State()), rounds, rest, left, right)
      ensures files == old(files)
      ensures Valid()
    {
      roundsRemaining := rounds.GetOr(1);
      restTime := Sequencer.MillisOr(rest, 1000);
      leftTime := Sequencer.MillisOr(left, 3000);
      rightTime := Sequencer.MillisOr(right, 3000);
    }

    method ResetLog(now: real)
      requires Valid()
      modifies this
      ensures State() == Sequencer.ResetLog(old(State()), now) && files == old(files)
      ensures Valid()
    {
      acquired := [];
      startEnabled := false;
      acquisitionStart := Some(now);
    }

    /** `runRound`; the last round writes both files of `saveCSV`. */
    method RunRound()
      requires Valid()
      modifies this
      ensures State() == Sequencer.RunRound(old(State()))
      ensures Valid()
    {
      if roundsRemaining <= 0 {
        ShowInstruction("Collection finish");
        var out := Export.SaveCsv(acquired, filt);
        saves := saves + [acquired];
        files := files + [out];
        startEnabled := true;
      } else {
        ShowInstruction("Rest");
        SingleShot(restTime, Sequencer.DoShowCrossBeforeLeft);
      }
    }

    method ShowCrossBeforeLeft()
      requires Valid()
      modifies this
      ensures State() == Sequencer.ShowCrossBeforeLeft(old(State())) && files == old(files)
      ensures Valid()
    {
      ShowInstruction("");
      SingleShot(1000, Sequencer.DoPhaseLeft);
    }

    method PhaseLeft()
      requires Valid()
      modifies this
      ensures State() == Sequencer.PhaseLeft(old(State())) && files == old(files)
      ensures Valid()
    {
      ShowInstruction("Left");
      currentClass := Some(Left);
      SingleShot(300, Sequencer.DoStartRecording);
      SingleShot(leftTime, Sequencer.DoStopRecordingAndRestAfterLeft);
    }

    method StopRecordingAndRestAfterLeft()
      requires Valid()
      modifies this
      ensures State() == Sequencer.StopRecordingAndRestAfterLeft(old(State())) && files == old(files)
      ensures Valid()
    {
      StopRecording();
      ShowInstruction("Rest");
      SingleShot(restTime, Sequencer.DoShowCrossBeforeRight);
    }

    method ShowCrossBeforeRight()
      requires Valid()
      modifies this
      ensures State() == Sequencer.ShowCrossBeforeRight(old(State())) && files == old(files)
      ensures Valid()
    {
      ShowInstruction("");
      SingleShot(1000, Sequencer.DoPhaseRight);
    }

    method PhaseRight()
      requires Valid()
      modifies this
      ensures State() == Sequencer.PhaseRight(old(State())) && files == old(files)
      ensures Valid()
    {
      ShowInstruction("Right");
      currentClass := Some(Right);
      SingleShot(300, Sequencer.DoStartRecording);
      SingleShot(rightTime, Sequencer.DoStopRecordingAndFinishRound);
    }

    method StopRecordingAndFinishRound()
      requires Valid()
      modifies this
      ensures State() == Sequencer.StopRecordingAndFinishRound(old(State())) && files == old(files)
      ensures Valid()
    {
      StopRecording();
      roundsRemaining := roundsRemaining - 1;
      SingleShot(1000, Sequencer.DoRunRound);
    }

    method StartRecording()
      requires Valid()
      modifies this
      ensures State() == Sequencer.StartRecording(old(State())) && files == old(files)
      ensures Valid()
    {
      recording := true;
    }

    method StopRecording()
      requires Valid()
      modifies this
      ensures State() == Sequencer.StopRecording(old(State())) && files == old(files)
      ensures Valid()
    {
      recording := false;
    }

    /** `handle_serial_data(raw)`, the slot of the TCP thread's signal, at
        wall-clock time `now`. */
    method HandleSerialData(raw: string, now: real)
      requires Valid()
      modifies this
      ensures State() == Sequencer.HandleSerialData(old(State()), raw, now) && files == old(files)
      ensures Valid()
    {
      if recording && acquisitionStart.Some? {
        var row := TrialRowOf(raw, now - acquisitionStart.value, currentClass);
        if row.Some? {
          acquired := acquired + [row.value];
        }
      }
    }

    /** Run the callback a timer carries. */
    method Run(callback: Sequencer.Callback)
      requires Valid()
      modifies this
      ensures State() == Sequencer.Dispatch(old(State()), callback)
      ensures Valid()
    {
      match callback {
        case DoShowCrossBeforeLeft => ShowCrossBeforeLeft();
        case DoPhaseLeft => PhaseLeft();
        case DoStartRecording => StartRecording();
        case DoStopRecordingAndRestAfterLeft => StopRecordingAndRestAfterLeft();
        case DoShowCrossBeforeRight => ShowCrossBeforeRight();
        case DoPhaseRight => PhaseRight();
        case DoStopRecordingAndFinishRound => StopRecordingAndFinishRound();
        case DoRunRound => RunRound();
      }
    }

    /** One turn of the Qt event loop: the timer due first (the one armed
        first among those due together) fires; with none armed nothing
        happens. */
    method FireNext()
      requires Valid()
      modifies this
      ensures State() == Sequencer.Fire(old(State()))
      ensures Valid()
    {
      if timers != [] {
        var i := Sequencer.EarliestIndex(timers);
        var t := timers[i];
        clock := t.due;
        timers := timers[..i] + timers[i + 1..];
        assert State() == old(State()).(clock := t.due, timers := old(timers)[..i] + old(timers)[i + 1..]);
        Run(t.callback);
      }
    }
  }
}
