/** The live viewer `ADCPlotter`: every 100 ms `update_plot` redraws the
    eight EEG channels (channel 0 of a sample is not shown) from the reader's
    buffers, a text box keeps the last lines received, a button switches the
    board between its normal and test modes, and a head map colours each
    electrode by the size of its latest sample. Plot widgets are replaced by
    the data handed to them; the FFT is replaced by the window it is taken
    over. */
module Viewer {
  import opened Optional
  import opened Text
  import opened Framing
  import opened Filters
  import Reader

  /** Channels drawn: sample fields 1 to 8. */
  const Shown := 8
  /** The viewer asks `get_latest_data` for `data_len` values. */
  const DataLen := 750
  /** Lines the text box keeps. */
  const LogLines := 10
  /** Samples of the spectrum window. */
  const FftSize := 256

  function Abs(x: real): (r: real)
    ensures r >= 0.0 && (r == x || r == -x)
  {
    if x < 0.0 then -x else x
  }

  // ---------------------------------------------------------------------
  // The text box

  /** `handle_serial_data(raw)`: split the box's text into lines, add the
      new line, keep the last ten, and join them again. */
  function AppendLog(text: string, line: string): string {
    var lines := Split(text, '\n') + [line];
    var kept := if |lines| > LogLines then lines[|lines| - LogLines..] else lines;
    Join(kept, '\n')
  }

  /** For a line without a line feed (every line the reader emits), the box
      afterwards holds the last ten of its old lines followed by the new
      one: at most ten lines, the new line last, the survivors in order. */
  lemma AppendLogLines(text: string, line: string)
    requires '\n' !in line
    ensures Split(AppendLog(text, line), '\n') == Suffix(Split(text, '\n') + [line], LogLines)
    ensures |Split(AppendLog(text, line), '\n')| <= LogLines
    ensures Last(Split(AppendLog(text, line), '\n')) == line
  {
    var kept := Suffix(Split(text, '\n') + [line], LogLines);
    KeptLines(text, line);
    SplitJoin(kept, '\n');
  }

  /** The box's new text joins the kept lines, none of which holds a line
      feed. */
  lemma KeptLines(text: string, line: string)
    requires '\n' !in line
    ensures AppendLog(text, line) == Join(Suffix(Split(text, '\n') + [line], LogLines), '\n')
    ensures NoLineFeeds(Suffix(Split(text, '\n') + [line], LogLines))
  {
    var lines := Split(text, '\n') + [line];
    assert NoLineFeeds(lines) by {
      assert forall i :: 0 <= i < |lines| - 1 ==> lines[i] == Split(text, '\n')[i];
    }
    SuffixNoLineFeeds(lines, LogLines);
  }

  /** No piece contains a line feed. */
  ghost predicate NoLineFeeds(lines: seq<string>) {
    forall i :: 0 <= i < |lines| ==> '\n' !in lines[i]
  }

  lemma SuffixNoLineFeeds(lines: seq<string>, n: nat)
    requires NoLineFeeds(lines)
    ensures NoLineFeeds(Suffix(lines, n))
  {
    var kept := Suffix(lines, n);
    forall i | 0 <= i < |kept| ensures '\n' !in kept[i] {
      assert kept[i] == lines[|lines| - |kept| + i];
    }
  }

  /** The statements of `handle_serial_data` on the box's text. */
  method AppendLine(text: string, line: string) returns (r: string)
    ensures r == AppendLog(text, line)
  {
    var lines := Split(text, '\n');
    lines := lines + [line];
    if |lines| > LogLines {
      lines := lines[|lines| - LogLines..];
    }
    r := Join(lines, '\n');
  }

  /** The box's text after the lines `received`, starting from an empty box. */
  function LogAfter(received: seq<string>): string {
    if received == [] then "" else AppendLog(LogAfter(Init(received)), Last(received))
  }

  /** The box shows the last ten of the lines received, preceded by the
      empty line the empty box splits into until ten lines have arrived. */
  lemma {:induction false} LogShowsLastLines(received: seq<string>)
    requires forall i :: 0 <= i < |received| ==> '\n' !in received[i]
    ensures Split(LogAfter(received), '\n') == Suffix([""] + received, LogLines)
  {
    if received != [] {
      var prev, x := Init(received), Last(received);
      NoLineFeedInInit(received);
      LogShowsLastLines(prev);
      AppendLogLines(LogAfter(prev), x);
      SuffixPush([""] + prev, x, LogLines);
      ConsInitLast("", received);
    }
  }

  lemma NoLineFeedInInit(lines: seq<string>)
    requires lines != [] && forall i :: 0 <= i < |lines| ==> '\n' !in lines[i]
    ensures forall i :: 0 <= i < |Init(lines)| ==> '\n' !in Init(lines)[i]
  {
    forall i | 0 <= i < |Init(lines)| ensures '\n' !in Init(lines)[i] {
      assert Init(lines)[i] == lines[i];
    }
  }

  lemma ConsInitLast<T>(h: T, s: seq<T>)
    requires s != []
    ensures [h] + s == ([h] + Init(s)) + [Last(s)]
  {
    assert s == Init(s) + [Last(s)];
  }

  /** Keeping the last `n` after each append keeps the last `n` overall. */
  lemma SuffixPush<T>(h: seq<T>, x: T, n: nat)
    ensures Suffix(Suffix(h, n) + [x], n) == Suffix(h + [x], n)
  {
    var q := Suffix(h, n);
    if |h| > n {
      var s := Suffix(h + [x], n);
      var t := Suffix(q + [x], n);
      assert |s| == |t|;
      forall i | 0 <= i < |s| ensures s[i] == t[i] {
        if i < |s| - 1 {
          assert s[i] == h[|h| + 1 - |s| + i];
        }
      }
    }
  }

  // ---------------------------------------------------------------------
  // The mode button

  /** `mod_switch` on the button text `buttonText`: the command sent to the
      board and the button's new text. */
  function SwitchMode(buttonText: string): (r: (string, string))
    ensures r.0 == "3" <==> buttonText == "Normal"
    ensures r.0 == "1" <==> buttonText != "Normal"
    ensures r.1 == "Test" <==> buttonText == "Normal"
    ensures r.1 == "Normal" <==> buttonText != "Normal"
  {
    if buttonText == "Normal" then ("3", "Test") else ("1", "Normal")
  }

  /** The button only ever reads "Normal" or "Test", and switching twice
      restores it, having sent one "3" and one "1". */
  lemma SwitchModeTwice(buttonText: string)
    requires buttonText == "Normal" || buttonText == "Test"
    ensures var next := SwitchMode(buttonText).1;
            (next == "Normal" || next == "Test")
            && SwitchMode(next).1 == buttonText
            && {SwitchMode(buttonText).0, SwitchMode(next).0} == {"1", "3"}
  {
  }

  // ---------------------------------------------------------------------
  // The plots

  /** The time-domain series of one channel: its low-pass filtered values
      (`apply_lowpass_filter` with cutoff 50 Hz, 500 Hz and order 5) when
      the channel is checked, nothing otherwise. */
  function Series(wave: seq<real>, on: bool, filt: ZeroPhaseFilter): (r: seq<real>)
    ensures !on ==> r == []
    ensures on ==> |r| == |wave|
    ensures on && |wave| < 19 ==> r == wave
    ensures on && |wave| >= 19 ==> r == filt(Design(5, LowPass(50.0 / 250.0)), wave)
  {
    if on then
      LowpassNeverFails(wave, 50.0, 500.0, 5, filt);
      LowpassFilter(wave, 50.0, 500.0, 5, filt).value
    else []
  }

  /** The samples the spectrum of one channel is taken over: the last 256,
      or all when there are fewer; none when the channel is unchecked or
      has at most two samples. */
  function SpectrumWindow(wave: seq<real>, on: bool): (w: seq<real>)
    ensures on && |wave| > 2 ==> w == Suffix(wave, FftSize)
    ensures !on || |wave| <= 2 ==> w == []
  {
    if !on then []
    else
      var window := if |wave| > FftSize then wave[|wave| - FftSize..] else wave;
      if |window| > 2 then window else []
  }

  /** The head map's amplitude for one channel: the size of its latest
      sample, whether or not the channel is checked. */
  function HeadAmplitude(wave: seq<real>): (a: real)
    ensures a >= 0.0
    ensures wave == [] ==> a == 0.0
    ensures wave != [] ==> a == Abs(wave[|wave| - 1])
  {
    if |wave| > 0 then Abs(wave[|wave| - 1]) else 0.0
  }

  /** `[lo, hi]` is the y-range of the checked channels: every value of a
      checked channel lies in it, and both ends are such values. */
  ghost predicate IsYRange(rows: seq<seq<real>>, checked: seq<bool>, lo: real, hi: real)
    requires |rows| == |checked|
  {
    (forall i, k :: 0 <= i < |rows| && checked[i] && 0 <= k < |rows[i]| ==> lo <= rows[i][k] <= hi)
    && (exists i, k :: 0 <= i < |rows| && checked[i] && 0 <= k < |rows[i]| && rows[i][k] == lo)
    && (exists i, k :: 0 <= i < |rows| && checked[i] && 0 <= k < |rows[i]| && rows[i][k] == hi)
  }

  /** The waves of the checked channels, one each, in channel order. */
  function CheckedWaves(rows: seq<seq<real>>, checked: seq<bool>): seq<seq<real>>
    requires |rows| == |checked|
  {
    if rows == [] then []
    else CheckedWaves(Init(rows), Init(checked)) + (if Last(checked) then [Last(rows)] else [])
  }

  /** `selected_data`: the waves of the checked channels, in channel order. */
  method SelectChecked(rows: seq<seq<real>>, checked: seq<bool>) returns (selected: seq<seq<real>>)
    requires |rows| == |checked|
    ensures selected == CheckedWaves(rows, checked)
    ensures forall j :: 0 <= j < |selected| ==>
              exists i :: 0 <= i < |rows| && checked[i] && selected[j] == rows[i]
    ensures forall i :: 0 <= i < |rows| && checked[i] ==> rows[i] in selected
    ensures selected == [] <==> forall i :: 0 <= i < |rows| ==> !checked[i]
  {
    selected := [];
    for i := 0 to |rows|
      invariant selected == CheckedWaves(rows[..i], checked[..i])
      invariant forall j :: 0 <= j < |selected| ==>
                  exists m :: 0 <= m < i && checked[m] && selected[j] == rows[m]
      invariant forall m :: 0 <= m < i && checked[m] ==> rows[m] in selected
      invariant selected == [] <==> forall m :: 0 <= m < i ==> !checked[m]
    {
      assert Init(rows[..i + 1]) == rows[..i] && Last(rows[..i + 1]) == rows[i];
      assert Init(checked[..i + 1]) == checked[..i] && Last(checked[..i + 1]) == checked[i];
      if checked[i] {
        selected := selected + [rows[i]];
      }
    }
    assert rows[..|rows|] == rows && checked[..|checked|] == checked;
  }

  /** A checked channel's wave is selected once for each checked channel
      before it: the selection has one wave per checked channel. */
  lemma {:induction false} CheckedWavesCount(rows: seq<seq<real>>, checked: seq<bool>)
    requires |rows| == |checked|
    ensures |CheckedWaves(rows, checked)| == |set i | 0 <= i < |checked| && checked[i]|
  {
    if rows != [] {
      var n := |rows| - 1;
      CheckedWavesCount(Init(rows), Init(checked));
      var before := set i | 0 <= i < n && Init(checked)[i];
      var all := set i | 0 <= i < |checked| && checked[i];
      if checked[n] {
        assert all == before + {n};
      } else {
        assert all == before;
      }
    }
  }

  /** `np.min([d.min() for d in selected])` and the matching maximum. */
  method Bounds(selected: seq<seq<real>>) returns (lo: real, hi: real)
    requires |selected| > 0 && forall j :: 0 <= j < |selected| ==> |selected[j]| > 0
    ensures forall j, k :: 0 <= j < |selected| && 0 <= k < |selected[j]| ==> lo <= selected[j][k] <= hi
    ensures exists j, k :: 0 <= j < |selected| && 0 <= k < |selected[j]| && selected[j][k] == lo
    ensures exists j, k :: 0 <= j < |selected| && 0 <= k < |selected[j]| && selected[j][k] == hi
  {
    lo, hi := selected[0][0], selected[0][0];
    for j := 0 to |selected|
      invariant forall m, k :: 0 <= m < j && 0 <= k < |selected[m]| ==> lo <= selected[m][k] <= hi
      invariant exists m, k :: 0 <= m < |selected| && 0 <= k < |selected[m]| && selected[m][k] == lo
      invariant exists m, k :: 0 <= m < |selected| && 0 <= k < |selected[m]| && selected[m][k] == hi
    {
      var d := selected[j];
      for k := 0 to |d|
        invariant forall m, q :: 0 <= m < j && 0 <= q < |selected[m]| ==> lo <= selected[m][q] <= hi
        invariant forall q :: 0 <= q < k ==> lo <= d[q] <= hi
        invariant exists m, q :: 0 <= m < |selected| && 0 <= q < |selected[m]| && selected[m][q] == lo
        invariant exists m, q :: 0 <= m < |selected| && 0 <= q < |selected[m]| && selected[m][q] == hi
      {
        if d[k] < lo {
          lo := d[k];
        }
        if d[k] > hi {
          hi := d[k];
        }
      }
    }
  }

  // ---------------------------------------------------------------------
  // The head map

  /** The three colours of an electrode. */
  datatype Colour = Green | Orange | Red

  /** The threshold choice of `HeadPlotWidget.paintEvent`. */
  function ColourOf(amp: real): (c: Colour)
    ensures c == Red <==> Abs(amp) > 0.45
    ensures c == Orange <==> 0.3 < Abs(amp) <= 0.45
    ensures c == Green <==> Abs(amp) <= 0.3
  {
    var a := Abs(amp);
    if a > 0.45 then Red else if a > 0.3 then Orange else Green
  }

  function Severity(c: Colour): nat {
    match c
    case Green => 0
    case Orange => 1
    case Red => 2
  }

  /** A larger amplitude never shows a milder colour, and the sign of a
      sample does not matter. */
  lemma ColourMonotone(a: real, b: real)
    requires Abs(a) <= Abs(b)
    ensures Severity(ColourOf(a)) <= Severity(ColourOf(b))
    ensures ColourOf(-a) == ColourOf(a)
  {
  }

  /** The most recent of the last `n` values of a channel is its latest
      value, so the head map shows the size of each channel's latest
      sample. */
  lemma LatestOfRecent(samples: seq<Reading>, ch: nat, n: nat)
    requires ch < Channels && samples != [] && n > 0
    ensures var w := Suffix(History(samples, ch), n);
            w != [] && w[|w| - 1] == samples[|samples| - 1][ch]
            && HeadAmplitude(w) == Abs(samples[|samples| - 1][ch])
  {
  }

  // ---------------------------------------------------------------------
  // The window

  class Plotter {
    /** The reader thread. */
    const reader: Reader.TcpReader
    /** The Butterworth `filtfilt` numerics of `apply_lowpass_filter`. */
    const filt: ZeroPhaseFilter
    /** The text of `adc_button`. */
    var buttonText: string
    /** The text of `text_box`. */
    var logText: string
    /** Which of the eight channel checkboxes are checked. */
    var checked: seq<bool>
    /** The data of the eight time-domain curves and of the eight spectrum
        curves (as the window the FFT is taken over). */
    var series: seq<seq<real>>
    var spectra: seq<seq<real>>
    /** The y-range last set on the time-domain plot. */
    var yRange: Option<(real, real)>
    /** The amplitudes the head map last received. */
    var amplitudes: seq<real>

    ghost predicate Valid()
      reads this, reader
    {
      reader.Valid()
      && |checked| == Shown && |series| == Shown && |spectra| == Shown && |amplitudes| == Shown
      && (buttonText == "Normal" || buttonText == "Test")
    }

    /** The last `DataLen` values channel `ch + 1` received. */
    ghost function Recent(ch: nat): seq<real>
      reads reader
      requires ch < Shown
    {
      Suffix(History(Samples(reader.emitted), ch + 1), DataLen)
    }

    /** `__init__`: every channel checked, the button reading "Normal", an
        empty text box and an all-zero head map. */
    constructor (reader: Reader.TcpReader, filt: ZeroPhaseFilter)
      requires reader.Valid()
      ensures Valid() && this.reader == reader && this.filt == filt
      ensures buttonText == "Normal" && logText == "" && yRange == None
      ensures checked == seq(Shown, _ => true) && amplitudes == seq(Shown, _ => 0.0)
      ensures series == seq(Shown, _ => []) && spectra == seq(Shown, _ => [])
    {
      this.reader := reader;
      this.filt := filt;
      buttonText := "Normal";
      logText := "";
      checked := seq(Shown, _ => true);
      series := seq(Shown, _ => []);
      spectra := seq(Shown, _ => []);
      yRange := None;
      amplitudes := seq(Shown, _ => 0.0);
    }

    /** `send_data`: the text of the send box goes to the board. */
    method SendData(text: string)
      requires Valid()
      modifies reader
      ensures Valid()
      ensures reader.sent == old(reader.sent) + (if reader.connected then [text + "\n"] else [])
      ensures reader.emitted == old(reader.emitted) && reader.connected == old(reader.connected)
      ensures reader.received == old(reader.received) && reader.buffer == old(reader.buffer)
      ensures reader.pool == old(reader.pool) && reader.running == old(reader.running)
    {
      reader.SendData(text);
    }

    /** `mod_switch`. */
    method ModSwitch()
      requires Valid()
      modifies this, reader
      ensures Valid()
      ensures buttonText == SwitchMode(old(buttonText)).1
      ensures reader.sent == old(reader.sent) + (if reader.connected then [SwitchMode(old(buttonText)).0 + "\n"] else [])
      ensures reader.emitted == old(reader.emitted) && reader.connected == old(reader.connected)
      ensures reader.received == old(reader.received) && reader.buffer == old(reader.buffer)
      ensures reader.pool == old(reader.pool) && reader.running == old(reader.running)
      ensures logText == old(logText) && checked == old(checked) && series == old(series)
      ensures spectra == old(spectra) && yRange == old(yRange) && amplitudes == old(amplitudes)
    {
      var (command, next) := SwitchMode(buttonText);
      reader.SendData(command);
      assert reader.Valid();
      buttonText := next;
    }

    /** A click on checkbox `ch`. */
    method SetChecked(ch: nat, on: bool)
      requires Valid() && ch < Shown
      modifies this
      ensures Valid() && checked == old(checked)[ch := on]
      ensures buttonText == old(buttonText) && logText == old(logText) && series == old(series)
      ensures spectra == old(spectra) && yRange == old(yRange) && amplitudes == old(amplitudes)
    {
      checked := checked[ch := on];
    }

    /** `handle_serial_data(raw)`: the line joins the text box. */
    method HandleSerialData(raw: string)
      requires Valid()
      modifies this
      ensures Valid() && logText == AppendLog(old(logText), raw)
      ensures '\n' !in raw ==> Split(logText, '\n') == Suffix(Split(old(logText), '\n') + [raw], LogLines)
      ensures buttonText == old(buttonText) && checked == old(checked) && series == old(series)
      ensures spectra == old(spectra) && yRange == old(yRange) && amplitudes == old(amplitudes)
    {
      var text := AppendLine(logText, raw);
      if '\n' !in raw {
        AppendLogLines(logText, raw);
      }
      logText := text;
    }

    /** The last `DataLen` values of each of the eight channels. */
    ghost function Recents(): (rows: seq<seq<real>>)
      reads reader
      ensures |rows| == Shown && forall i :: 0 <= i < Shown ==> rows[i] == Recent(i)
    {
      seq(Shown, i requires 0 <= i < Shown reads reader => Recent(i))
    }

    /** `get_latest_data(data_len)[1:9]`: nothing before the first sample,
        then the last 750 values of each shown channel. */
    method LatestShown() returns (rows: Option<seq<seq<real>>>)
      requires Valid()
      ensures rows.None? <==> Samples(reader.emitted) == []
      ensures rows.Some? ==> |rows.value| == Shown && forall i :: 0 <= i < Shown ==> rows.value[i] == Recent(i)
    {
      var latest := reader.LatestData(DataLen);
      if latest.None? {
        return None;
      }
      var all := latest.value;
      rows := Some(seq(Shown, i requires 0 <= i < Shown => all[i + 1]));
    }

    /** `update_plot`: without a sample nothing changes; otherwise every
        channel's curve, spectrum window and head amplitude is derived from
        its last 750 values, and the y-range spans the checked channels. */
    method UpdatePlot()
      requires Valid()
      modifies this
      ensures Valid()
      ensures buttonText == old(buttonText) && logText == old(logText) && checked == old(checked)
      ensures Samples(reader.emitted) == [] ==>
                series == old(series) && spectra == old(spectra)
                && yRange == old(yRange) && amplitudes == old(amplitudes)
      ensures Samples(reader.emitted) != [] ==> Drawn(Recents())
    {
      var latest := LatestShown();
      if latest.None? {
        return;
      }
      var rows := latest.value;
      assert rows == Recents();
      ghost var samples := Samples(reader.emitted);
      forall i | 0 <= i < Shown ensures rows[i] != [] {
        LatestOfRecent(samples, i + 1, DataLen);
      }
      Draw(rows);
    }

    /** The plots show the eight waves `rows`. */
    ghost predicate Drawn(rows: seq<seq<real>>)
      reads this
      requires |rows| == Shown && |checked| == Shown
    {
      Plots(rows, checked, filt, series, spectra, amplitudes, yRange)
    }

    /** The drawing steps of `update_plot` for the waves `rows`. */
    method Draw(rows: seq<seq<real>>)
      requires |rows| == Shown && |checked| == Shown
      requires forall i :: 0 <= i < Shown ==> rows[i] != []
      modifies this
      ensures buttonText == old(buttonText) && logText == old(logText) && checked == old(checked)
      ensures Drawn(rows)
    {
      series, spectra, amplitudes, yRange := Plot(rows, checked, filt);
    }
  }

  /** Everything `update_plot` computes from the waves `rows`. */
  method Plot(rows: seq<seq<real>>, checked: seq<bool>, filt: ZeroPhaseFilter)
    returns (curves: seq<seq<real>>, windows: seq<seq<real>>, heads: seq<real>, range: Option<(real, real)>)
    requires |rows| == Shown && |checked| == Shown
    requires forall i :: 0 <= i < Shown ==> rows[i] != []
    ensures Plots(rows, checked, filt, curves, windows, heads, range)
  {
    curves := Curves(rows, checked, filt);
    range := YRange(rows, checked);
    windows := SpectrumWindows(rows, checked);
    heads := HeadAmplitudes(rows);
  }

  /** Curves, spectrum windows and head amplitudes derived from each wave
      of `rows`, and a y-range spanning the checked channels' values, or
      [-4.5, 4.5] when none is checked. */
  ghost predicate Plots(rows: seq<seq<real>>, checked: seq<bool>, filt: ZeroPhaseFilter, series: seq<seq<real>>,
                        spectra: seq<seq<real>>, amplitudes: seq<real>, yRange: Option<(real, real)>)
    requires |rows| == Shown && |checked| == Shown
  {
    |series| == Shown && |spectra| == Shown && |amplitudes| == Shown
    && (forall i :: 0 <= i < Shown ==>
          series[i] == Series(rows[i], checked[i], filt)
          && spectra[i] == SpectrumWindow(rows[i], checked[i])
          && amplitudes[i] == HeadAmplitude(rows[i]))
    && yRange.Some?
    && ((exists i :: 0 <= i < Shown && checked[i]) ==> IsYRange(rows, checked, yRange.value.0, yRange.value.1))
    && ((forall i :: 0 <= i < Shown ==> !checked[i]) ==> yRange.value == (-4.5, 4.5))
  }

  method Curves(rows: seq<seq<real>>, checked: seq<bool>, filt: ZeroPhaseFilter) returns (curves: seq<seq<real>>)
    requires |rows| == Shown && |checked| == Shown
    ensures |curves| == Shown
    ensures forall i :: 0 <= i < Shown ==> curves[i] == Series(rows[i], checked[i], filt)
  {
    curves := [];
    for i := 0 to Shown
      invariant |curves| == i
      invariant forall m :: 0 <= m < i ==> curves[m] == Series(rows[m], checked[m], filt)
    {
      if checked[i] {
        var filtered := Series(rows[i], true, filt);
        curves := curves + [filtered];
      } else {
        curves := curves + [[]];
      }
    }
  }

  /** The y-range `update_plot` sets: the span of the checked channels, or
      [-4.5, 4.5] when none is checked. */
  method YRange(rows: seq<seq<real>>, checked: seq<bool>) returns (range: Option<(real, real)>)
    requires |rows| == Shown && |checked| == Shown
    requires forall i :: 0 <= i < Shown ==> rows[i] != []
    ensures range.Some?
    ensures (exists i :: 0 <= i < Shown && checked[i]) ==> IsYRange(rows, checked, range.value.0, range.value.1)
    ensures (forall i :: 0 <= i < Shown ==> !checked[i]) ==> range.value == (-4.5, 4.5)
  {
    var selected := SelectChecked(rows, checked);
    if selected != [] {
      forall j | 0 <= j < |selected| ensures |selected[j]| > 0 {
        var i :| 0 <= i < |rows| && checked[i] && selected[j] == rows[i];
      }
      var lo, hi := Bounds(selected);
      ghost var j, k :| 0 <= j < |selected| && 0 <= k < |selected[j]| && selected[j][k] == lo;
      ghost var i :| 0 <= i < |rows| && checked[i] && selected[j] == rows[i];
      assert rows[i][k] == lo;
      ghost var j', k' :| 0 <= j' < |selected| && 0 <= k' < |selected[j']| && selected[j'][k'] == hi;
      ghost var i' :| 0 <= i' < |rows| && checked[i'] && selected[j'] == rows[i'];
      assert rows[i'][k'] == hi;
      forall m, q | 0 <= m < |rows| && checked[m] && 0 <= q < |rows[m]|
        ensures lo <= rows[m][q] <= hi
      {
        var n :| 0 <= n < |selected| && selected[n] == rows[m];
      }
      range := Some((lo, hi));
    } else {
      range := Some((-4.5, 4.5));
    }
  }

  /** The eight spectrum windows of `update_plot`. */
  method SpectrumWindows(rows: seq<seq<real>>, checked: seq<bool>) returns (windows: seq<seq<real>>)
    requires |rows| == Shown && |checked| == Shown
    ensures |windows| == Shown
    ensures forall i :: 0 <= i < Shown ==> windows[i] == SpectrumWindow(rows[i], checked[i])
  {
    windows := [];
    for i := 0 to Shown
      invariant |windows| == i
      invariant forall m :: 0 <= m < i ==> windows[m] == SpectrumWindow(rows[m], checked[m])
    {
      if checked[i] {
        var wave := rows[i];
        wave := if |wave| > FftSize then wave[|wave| - FftSize..] else wave;
        if |wave| > 2 {
          windows := windows + [wave];
        } else {
          windows := windows + [[]];
        }
      } else {
        windows := windows + [[]];
      }
    }
  }

  /** The amplitudes `update_plot` hands to the head map. */
  method HeadAmplitudes(rows: seq<seq<real>>) returns (heads: seq<real>)
    requires |rows| == Shown
    ensures |heads| == Shown
    ensures forall i :: 0 <= i < Shown ==> heads[i] == HeadAmplitude(rows[i])
  {
    heads := [];
    for i := 0 to Shown
      invariant |heads| == i
      invariant forall m :: 0 <= m < i ==> heads[m] == HeadAmplitude(rows[m])
    {
      var wave := rows[i];
      var amp := 0.0;
      if |wave| > 0 {
        amp := Abs(wave[|wave| - 1]);
      }
      heads := heads + [amp];
    }
  }
}
