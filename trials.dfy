/** Trial rows of the acquisition window: while recording, a line that starts
    with `Channel:` followed by nine numeric fields becomes one row of the
    trial log: the time since the start, the payload's fields 2 to 9 (the
    eight EEG channels), and the class of the current phase. */
module Trials {
  import opened Optional
  import opened Text
  import opened Patterns
  import opened Decimal
  import opened Framing

  /** The two imagined-movement classes (`current_class`). */
  datatype Label = Left | Right

  /** EEG channels in a trial row. */
  const EegChannels := 8

  type Eeg = c: seq<real> | |c| == EegChannels witness [0.0, 0.0, 0.0, 0.0, 0.0, 0.0, 0.0, 0.0]

  /** `[timestamp] + eeg_values + [current_class]`; the class is `None` until
      a Left or Right phase has begun. */
  datatype TrialRow = TrialRow(timestamp: real, channels: Eeg, trialClass: Option<Label>)

  const Marker := "Channel:"

  predicate StartsWithMarker(t: string) {
    |t| >= |Marker| && t[..|Marker|] == Marker
  }

  /** `re.match(r'Channel:([\d\.\-]+,){8}[\d\.\-]+', raw)` succeeds: the
      marker, then nine fields over `[0-9.-]`; anything may follow. */
  predicate IsChannelLine(raw: string) {
    StartsWithMarker(raw) && MatchesPrefix(ChannelChars, raw[|Marker|..], Framing.Channels - 1)
  }

  /** The text of `t` before the first `Channel:` in it (all of `t` if none). */
  function BeforeMarker(t: string): (r: string)
    ensures |r| <= |t| && r == t[..|r|]
  {
    if t == [] || StartsWithMarker(t) then "" else [t[0]] + BeforeMarker(t[1..])
  }

  /** `BeforeMarker` stops at the first marker: none starts inside the text
      it returns, and one starts right after it unless it is all of `t`. */
  lemma {:induction false} BeforeFirstMarker(t: string)
    ensures var r := BeforeMarker(t);
            (forall i :: 0 <= i < |r| ==> !StartsWithMarker(t[i..]))
            && (|r| == |t| || StartsWithMarker(t[|r|..]))
  {
    if t != [] && !StartsWithMarker(t) {
      BeforeFirstMarker(t[1..]);
      assert forall i :: 1 <= i <= |t| ==> t[i..] == t[1..][i - 1..];
    }
  }

  /** `raw.split('Channel:')[1]` for a line that starts with the marker: the
      text up to the next marker, if any. */
  function Payload(raw: string): string
    requires StartsWithMarker(raw)
  {
    BeforeMarker(raw[|Marker|..])
  }

  /** The row `handle_serial_data` appends for `raw` at `timestamp` in the
      phase `trialClass`; `None` when the pattern does not match, or when a
      payload field does not parse (the source raises there). */
  function TrialRowOf(raw: string, timestamp: real, trialClass: Option<Label>): (r: Option<TrialRow>)
    ensures r.Some? ==> IsChannelLine(raw) && r.value.timestamp == timestamp && r.value.trialClass == trialClass
    ensures r.Some? ==>
              var fields := Split(Payload(raw), ',');
              |fields| >= Framing.Channels
              && forall i :: 0 <= i < EegChannels ==> ParseFloat(fields[i + 1]) == Some(r.value.channels[i])
  {
    if IsChannelLine(raw) then RowOfFields(Split(Payload(raw), ','), timestamp, trialClass) else None
  }

  /** `values = [float(x) for x in fields]`, then the row of `values[1:9]`. */
  function RowOfFields(fields: seq<string>, timestamp: real, trialClass: Option<Label>): (r: Option<TrialRow>)
    ensures r.Some? ==> r.value.timestamp == timestamp && r.value.trialClass == trialClass
    ensures r.Some? ==>
              |fields| >= Framing.Channels
              && forall i :: 0 <= i < EegChannels ==> ParseFloat(fields[i + 1]) == Some(r.value.channels[i])
    ensures |fields| >= Framing.Channels ==> (r.Some? <==> ParseAll(fields).Some?)
  {
    match ParseAll(fields)
    case None => None
    case Some(values) =>
      if |values| >= Framing.Channels then Some(TrialRow(timestamp, values[1..Framing.Channels], trialClass))
      else None
  }

  /** A line the `Channel:` pattern accepts always has at least nine payload
      fields, so it yields a row exactly when all its fields parse. */
  lemma TrialRowIff(raw: string, timestamp: real, trialClass: Option<Label>)
    requires IsChannelLine(raw)
    ensures |Split(Payload(raw), ',')| >= Framing.Channels
    ensures TrialRowOf(raw, timestamp, trialClass).Some?
            <==> forall i :: 0 <= i < |Split(Payload(raw), ',')| ==> ParseFloat(Split(Payload(raw), ',')[i]).Some?
  {
    PayloadFieldCount(raw[|Marker|..], Framing.Channels - 1);
  }

  /** The two patterns are disjoint: a line the sample pattern accepts (what
      the reader's buffers take) is never a `Channel:` line, so it never
      yields a trial row. */
  lemma SampleLineIsNoTrial(raw: string, timestamp: real, trialClass: Option<Label>)
    requires MatchesWhole(SampleChars, raw, Framing.Channels - 1)
    ensures !IsChannelLine(raw) && TrialRowOf(raw, timestamp, trialClass) == None
  {
    FirstCharInClass(SampleChars, raw, Framing.Channels - 1);
    NoMarkerWithoutC(raw);
  }

  /** A line a pattern accepts starts with a character of its class. */
  lemma FirstCharInClass(cls: CharClass, t: string, groups: nat)
    requires MatchesWhole(cls, t, groups)
    ensures t != [] && InClass(cls, t[0]) && t[0] != 'C'
  {
    var n := RunLength(cls, t);
    assert InClass(cls, t[..n][0]);
  }

  /** The marker starts with `C`. */
  lemma NoMarkerWithoutC(t: string)
    requires t != [] && t[0] != 'C'
    ensures !StartsWithMarker(t)
  {
    if |t| >= |Marker| {
      assert Marker[0] == 'C';
      assert t[..|Marker|][0] == t[0];
    }
  }

  /** Each of the `g + 1` fields the pattern consumes ends before any later
      marker, so the payload holds at least `g` commas. */
  lemma {:induction false} PayloadFieldCount(t: string, g: nat)
    requires MatchesPrefix(ChannelChars, t, g)
    ensures Count(BeforeMarker(t), ',') >= g
    decreases g
  {
    if g > 0 {
      var group, rest := PayloadFirstGroup(t, g);
      PayloadFieldCount(rest, g - 1);
      CountConcat(group, BeforeMarker(rest), ',');
    }
  }

  /** The payload of a match starts with its first group, comma included,
      and the rest of the line matches the remaining groups. */
  lemma PayloadFirstGroup(t: string, g: nat) returns (group: string, rest: string)
    requires g > 0 && MatchesPrefix(ChannelChars, t, g)
    ensures MatchesPrefix(ChannelChars, rest, g - 1)
    ensures BeforeMarker(t) == group + BeforeMarker(rest) && Count(group, ',') >= 1
  {
    var n := RunLength(ChannelChars, t);
    assert n < |t| && MatchesPrefix(ChannelChars, t[n + 1..], g - 1);
    group, rest := t[..n + 1], t[n + 1..];
    FirstGroupHasNoMarker(t, g);
    BeforeMarkerSkip(t, n + 1);
    CommaEndsGroup(t, n);
  }

  /** The first group `[\d\.\-]+,` of a match holds no `C`, and the rest of
      the line matches the remaining groups. */
  lemma FirstGroupHasNoMarker(t: string, g: nat)
    requires g > 0 && MatchesPrefix(ChannelChars, t, g)
    ensures var n := RunLength(ChannelChars, t);
            n < |t| && t[n] == ',' && MatchesPrefix(ChannelChars, t[n + 1..], g - 1)
            && forall i :: 0 <= i < n + 1 ==> t[i] != 'C'
  {
    var n := RunLength(ChannelChars, t);
    forall i | 0 <= i < n ensures t[i] != 'C' {
      assert InClass(ChannelChars, t[..n][i]);
    }
  }

  lemma CommaEndsGroup(t: string, n: nat)
    requires n < |t| && t[n] == ','
    ensures Count(t[..n + 1], ',') >= 1
  {
    assert t[..n + 1] == t[..n] + [','];
    CountConcat(t[..n], [','], ',');
  }

  /** No marker starts inside a prefix free of `C`. */
  lemma {:induction false} BeforeMarkerSkip(t: string, m: nat)
    requires m <= |t| && forall i :: 0 <= i < m ==> t[i] != 'C'
    ensures BeforeMarker(t) == t[..m] + BeforeMarker(t[m..])
  {
    if m > 0 {
      BeforeMarkerStep(t);
      BeforeMarkerSkip(t[1..], m - 1);
      ConsPrefix(t, m, BeforeMarker(t[m..]));
    }
  }

  lemma ConsPrefix<T>(t: seq<T>, m: nat, x: seq<T>)
    requires 0 < m <= |t|
    ensures t[1..][m - 1..] == t[m..]
    ensures [t[0]] + (t[1..][..m - 1] + x) == t[..m] + x
  {
    assert t[..m] == [t[0]] + t[1..][..m - 1];
  }

  lemma BeforeMarkerStep(t: string)
    requires t != [] && t[0] != 'C'
    ensures BeforeMarker(t) == [t[0]] + BeforeMarker(t[1..])
  {
    assert !StartsWithMarker(t) by { assert t[0] != Marker[0]; }
  }
}
