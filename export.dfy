/** `saveCSV` of the acquisition window, as a row and column transformation:
    the raw trial log is written as it is; unless it is empty, each of the
    eight EEG columns is band-pass filtered on its own and the filtered
    columns are recombined with the untouched timestamps and classes. */
module Export {
  import opened Optional
  import opened Trials
  import opened Filters

  /** `self.lowcut`, `self.highcut`, and the `fs` and `order` of the call. */
  const Lowcut := 0.5
  const Highcut := 30.0
  const SampleRate := 500.0
  const Order := 5

  /** The two files `saveCSV` writes: the raw rows, and the filtered rows,
      absent when the log is empty. */
  datatype CsvOutput = CsvOutput(raw: seq<TrialRow>, filtered: Option<seq<TrialRow>>)

  /** `data_array[:, 1 + ch]`: channel `ch` of every row, in row order. */
  function Column(rows: seq<TrialRow>, ch: nat): (column: seq<real>)
    requires ch < EegChannels
    ensures |column| == |rows|
    ensures forall r :: 0 <= r < |rows| ==> column[r] == rows[r].channels[ch]
  {
    seq(|rows|, r requires 0 <= r < |rows| => rows[r].channels[ch])
  }

  /** One channel after `apply_bandpass_filter`, taken with its evidently
      intended guard (`Filters.BandpassFilterSafe`). */
  function FilteredColumn(rows: seq<TrialRow>, ch: nat, filt: ZeroPhaseFilter): (column: seq<real>)
    requires ch < EegChannels
    ensures |column| == |rows|
  {
    BandpassFilterSafe(Column(rows, ch), Lowcut, Highcut, SampleRate, Order, filt)
  }

  /** One channel through `apply_bandpass_filter` as written; `None` where
      `filtfilt` raises. */
  function FilteredColumnAsWritten(rows: seq<TrialRow>, ch: nat, filt: ZeroPhaseFilter): (column: Option<seq<real>>)
    requires ch < EegChannels
    ensures column.Some? ==> |column.value| == |rows|
  {
    BandpassFilter(Column(rows, ch), Lowcut, Highcut, SampleRate, Order, filt)
  }

  /** As written, a log of 15 to 33 rows passes the guard of 15 and is
      refused by `filtfilt`, so `saveCSV` raises on its first channel (and
      the application ends); a log of any other length is
      filtered exactly as by the corrected guard. */
  lemma AsWrittenFailsOnShortLogs(rows: seq<TrialRow>, ch: nat, filt: ZeroPhaseFilter)
    requires ch < EegChannels
    ensures FilteredColumnAsWritten(rows, ch, filt).None? <==> 15 <= |rows| <= 33
    ensures FilteredColumnAsWritten(rows, ch, filt).Some? ==>
              FilteredColumnAsWritten(rows, ch, filt).value == FilteredColumn(rows, ch, filt)
  {
    assert PadLen(BandDesign(Lowcut, Highcut, SampleRate, Order)) == 33;
    SafeAgreesWhereDefined(Column(rows, ch), Lowcut, Highcut, SampleRate, Order, filt);
  }

  /** `np.column_stack((timestamps, filtered_eeg, classes))`. */
  function FilteredRows(rows: seq<TrialRow>, filt: ZeroPhaseFilter): seq<TrialRow> {
    seq(|rows|, r requires 0 <= r < |rows| =>
      TrialRow(rows[r].timestamp,
               seq(EegChannels, ch requires 0 <= ch < EegChannels => FilteredColumn(rows, ch, filt)[r]),
               rows[r].trialClass))
  }

  /** What `saveCSV` writes for the trial log `rows`. */
  function CsvOf(rows: seq<TrialRow>, filt: ZeroPhaseFilter): CsvOutput {
    CsvOutput(rows, if rows == [] then None else Some(FilteredRows(rows, filt)))
  }

  /** `saveCSV`: the filtered channels are written into a fresh `n x 8`
      table one column at a time, and the rows are then reassembled. */
  method SaveCsv(rows: seq<TrialRow>, filt: ZeroPhaseFilter) returns (out: CsvOutput)
    ensures out == CsvOf(rows, filt)
  {
    if |rows| == 0 {
      return CsvOutput(rows, None);
    }
    var n := |rows|;
    var filtered := new real[n, EegChannels];
    for ch := 0 to EegChannels
      invariant forall c, r :: 0 <= c < ch && 0 <= r < n ==> filtered[r, c] == FilteredColumn(rows, c, filt)[r]
    {
      var column := BandpassFilterSafe(Column(rows, ch), Lowcut, Highcut, SampleRate, Order, filt);
      for r := 0 to n
        invariant forall c, q :: 0 <= c < ch && 0 <= q < n ==> filtered[q, c] == FilteredColumn(rows, c, filt)[q]
        invariant forall q :: 0 <= q < r ==> filtered[q, ch] == column[q]
      {
        filtered[r, ch] := column[r];
      }
    }
    var result: seq<TrialRow> := [];
    for r := 0 to n
      invariant |result| == r
      invariant forall q :: 0 <= q < r ==> result[q] == FilteredRows(rows, filt)[q]
    {
      var eeg := seq(EegChannels, c requires 0 <= c < EegChannels reads filtered => filtered[r, c]);
      assert eeg == FilteredRows(rows, filt)[r].channels;
      result := result + [TrialRow(rows[r].timestamp, eeg, rows[r].trialClass)];
    }
    assert result == FilteredRows(rows, filt);
    out := CsvOutput(rows, Some(result));
  }

  /** The filtered channels `0 .. ch - 1` as the loop of `saveCSV` computes
      them with `apply_bandpass_filter` as written; `None` once a channel
      raises. */
  function ColumnsAsWritten(rows: seq<TrialRow>, ch: nat, filt: ZeroPhaseFilter): (columns: Option<seq<seq<real>>>)
    requires ch <= EegChannels
    ensures columns.Some? <==> forall c :: 0 <= c < ch ==> FilteredColumnAsWritten(rows, c, filt).Some?
    ensures columns.Some? ==>
              |columns.value| == ch
              && forall c :: 0 <= c < ch ==> Some(columns.value[c]) == FilteredColumnAsWritten(rows, c, filt)
  {
    if ch == 0 then Some([])
    else
      match ColumnsAsWritten(rows, ch - 1, filt)
      case None => None
      case Some(columns) =>
        match FilteredColumnAsWritten(rows, ch - 1, filt)
        case None => None
        case Some(column) => Some(columns + [column])
  }

  /** `saveCSV` as written: the raw file is written first, then the filtered
      one; `None` stands for the exception raised between the two, once the
      raw file exists. */
  function CsvOfAsWritten(rows: seq<TrialRow>, filt: ZeroPhaseFilter): Option<CsvOutput> {
    if rows == [] then Some(CsvOutput(rows, None))
    else
      match ColumnsAsWritten(rows, EegChannels, filt)
      case None => None
      case Some(columns) =>
        Some(CsvOutput(rows, Some(seq(|rows|, r requires 0 <= r < |rows| =>
          TrialRow(rows[r].timestamp,
                   seq(EegChannels, ch requires 0 <= ch < EegChannels => columns[ch][r]),
                   rows[r].trialClass)))))
  }

  /** As written, `saveCSV` raises exactly on a log of 15 to 33 rows, and
      writes no filtered file then; on a log of any other length it writes
      what the corrected `SaveCsv` writes. */
  lemma {:induction false} CsvAsWrittenRaises(rows: seq<TrialRow>, filt: ZeroPhaseFilter)
    ensures CsvOfAsWritten(rows, filt).None? <==> 15 <= |rows| <= 33
    ensures CsvOfAsWritten(rows, filt).Some? ==> CsvOfAsWritten(rows, filt).value == CsvOf(rows, filt)
  {
    AsWrittenFailsOnShortLogs(rows, 0, filt);
    if rows != [] && !(15 <= |rows| <= 33) {
      forall c | 0 <= c < EegChannels
        ensures FilteredColumnAsWritten(rows, c, filt) == Some(FilteredColumn(rows, c, filt))
      {
        AsWrittenFailsOnShortLogs(rows, c, filt);
      }
      var columns := ColumnsAsWritten(rows, EegChannels, filt).value;
      var written := CsvOfAsWritten(rows, filt).value.filtered.value;
      forall r | 0 <= r < |rows| ensures written[r] == FilteredRows(rows, filt)[r] {
        assert written[r].channels == FilteredRows(rows, filt)[r].channels;
      }
      assert written == FilteredRows(rows, filt);
    }
  }

  /** The raw file is always the log; the filtered file exists exactly when
      the log is not empty, and then has one row per logged row with the
      same timestamp and class. */
  lemma CsvShape(rows: seq<TrialRow>, filt: ZeroPhaseFilter)
    ensures CsvOf(rows, filt).raw == rows
    ensures CsvOf(rows, filt).filtered.Some? <==> rows != []
    ensures CsvOf(rows, filt).filtered.Some? ==>
              var f := CsvOf(rows, filt).filtered.value;
              |f| == |rows|
              && forall r :: 0 <= r < |rows| ==>
                   f[r].timestamp == rows[r].timestamp && f[r].trialClass == rows[r].trialClass
  {
  }

  /** Each channel of the filtered file is the filtered channel of the log:
      column `ch` of the output depends on column `ch` of the input and on
      nothing else. */
  lemma ChannelsFilteredIndependently(rows: seq<TrialRow>, ch: nat, filt: ZeroPhaseFilter)
    requires ch < EegChannels
    ensures Column(FilteredRows(rows, filt), ch) == FilteredColumn(rows, ch, filt)
  {
  }

  lemma SameColumnSameOutput(rows: seq<TrialRow>, other: seq<TrialRow>, ch: nat, filt: ZeroPhaseFilter)
    requires ch < EegChannels && Column(rows, ch) == Column(other, ch)
    ensures Column(FilteredRows(rows, filt), ch) == Column(FilteredRows(other, filt), ch)
  {
    ChannelsFilteredIndependently(rows, ch, filt);
    ChannelsFilteredIndependently(other, ch, filt);
  }

  /** With the corrected guard, a log of at most 33 rows, too short for the
      band-pass, is written unfiltered; as written, only a log under 15 rows
      is (`CsvAsWrittenRaises`). */
  lemma ShortLogUnfiltered(rows: seq<TrialRow>, filt: ZeroPhaseFilter)
    requires |rows| <= 33
    ensures FilteredRows(rows, filt) == rows
  {
    assert PadLen(BandDesign(Lowcut, Highcut, SampleRate, Order)) == 33;
    forall r | 0 <= r < |rows| ensures FilteredRows(rows, filt)[r] == rows[r] {
      assert FilteredRows(rows, filt)[r].channels == rows[r].channels;
    }
  }
}
