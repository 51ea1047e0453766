/** The reader thread `TCPThread` of both tools (the copy in the viewer adds
    `send_data` and `get_latest_data`). The socket is replaced by the sequence
    of outcomes its `recv` calls produce, and the `data_received` signal by
    the log `emitted` of every line sent out on it. */
module Reader {
  import opened Optional
  import opened Text
  import opened Patterns
  import opened Decimal
  import opened Framing

  /** What one `sock.recv(1024).decode(errors='ignore')` produced. */
  datatype RecvResult =
    | Data(chunk: string)  // text, possibly empty
    | TimedOut             // `socket.timeout`: the loop continues
    | Failed               // any other exception: the loop breaks

  /** The text the receive loop appends: every chunk up to the first failure. */
  function Delivered(events: seq<RecvResult>): string {
    if events == [] then ""
    else
      match events[0]
      case Data(c) => c + Delivered(events[1..])
      case TimedOut => Delivered(events[1..])
      case Failed => ""
  }

  /** Every channel buffer holds the last 750 values that channel received
      from the sample lines among `emitted`. */
  ghost predicate PoolMatches(pool: seq<seq<real>>, emitted: seq<string>) {
    |pool| == Channels
    && forall ch :: 0 <= ch < Channels ==> pool[ch] == Suffix(History(Samples(emitted), ch), Capacity)
  }

  /** The reader's state as a function of the text received so far. */
  ghost predicate Consistent(received: string, buffer: string, emitted: seq<string>, pool: seq<seq<real>>) {
    buffer == Pending(received) && emitted == CompleteLines(received) && PoolMatches(pool, emitted)
  }

  /** A chunk appended to `t`: the lines it completes are emitted and the
      last piece is the new fragment. */
  lemma ConsistentAfterChunk(t: string, c: string, emitted: seq<string>, pool: seq<seq<real>>)
    requires emitted == CompleteLines(t) + Emit(Init(Split(Pending(t) + c, '\n')))
    requires PoolMatches(pool, emitted)
    ensures Consistent(t + c, Last(Split(Pending(t) + c, '\n')), emitted, pool)
  {
    ReceiveExtends(t, c);
  }

  class TcpReader {
    /** The `running` flag that keeps the receive loop going. */
    var running: bool
    /** The socket is connected and not yet closed. */
    var connected: bool
    /** The incomplete last line kept between chunks. */
    var buffer: string
    /** `data_pool`: one bounded buffer per channel. */
    var pool: seq<seq<real>>
    /** Every line emitted on `data_received`, in order. */
    var emitted: seq<string>
    /** Every message handed to `sendall`, in order. */
    var sent: seq<string>
    /** All text received so far. */
    ghost var received: string

    /** The reader's state is a function of the text received so far: the
        fragment after its last line feed, its complete non-empty lines, and
        for every channel the last 750 values of the lines that are samples. */
    ghost predicate Valid()
      reads this
    {
      Consistent(received, buffer, emitted, pool)
    }

    ghost predicate BuffersMatch()
      reads this
    {
      PoolMatches(pool, emitted)
    }

    /** `__init__`: `connects` is whether `sock.connect` succeeds; when it does
        not, `running` starts false. */
    constructor(connects: bool)
      ensures Valid() && received == ""
      ensures running == connects && connected == connects
      ensures emitted == [] && sent == [] && buffer == ""
      ensures pool == seq(Channels, _ => [])
    {
      running, connected := connects, connects;
      buffer, emitted, sent := "", [], [];
      pool := seq(Channels, _ => []);
      received := "";
    }

    /** One pass of the loop in `run` for a chunk: append it to the buffer,
        handle every complete line, and keep the incomplete rest. */
    method Receive(chunk: string)
      requires Valid()
      modifies this
      ensures Valid() && received == old(received) + chunk
      ensures running == old(running) && connected == old(connected) && sent == old(sent)
      ensures chunk == [] ==> emitted == old(emitted) && buffer == old(buffer) && pool == old(pool)
    {
      if chunk == [] {
        assert received + chunk == received;
        return;
      }
      ghost var t := received;
      var lines := Split(buffer + chunk, '\n');
      assert lines == Split(Pending(t) + chunk, '\n');
      HandleLines(lines);
      ConsistentAfterChunk(t, chunk, emitted, pool);
      buffer := lines[|lines| - 1];
      received := t + chunk;
    }

    /** `for line in lines[:-1]`: handle every piece but the last. */
    method HandleLines(lines: seq<string>)
      requires BuffersMatch() && |lines| > 0
      requires forall k :: 0 <= k < |lines| ==> '\n' !in lines[k]
      modifies this
      ensures BuffersMatch() && emitted == old(emitted) + Emit(Init(lines))
      ensures buffer == old(buffer) && received == old(received) && running == old(running)
      ensures connected == old(connected) && sent == old(sent)
    {
      var i := 0;
      while i < |lines| - 1
        invariant 0 <= i <= |lines| - 1
        invariant emitted == old(emitted) + Emit(lines[..i]) && BuffersMatch()
        invariant buffer == old(buffer) && received == old(received) && running == old(running)
        invariant connected == old(connected) && sent == old(sent)
      {
        EmitStep(lines, i);
        ConcatAssoc(old(emitted), Emit(lines[..i]), EmitOne(lines[i]));
        HandleLine(lines[i]);
        i := i + 1;
      }
      assert lines[..i] == Init(lines);
    }

    /** The body of the loop over complete lines: strip, skip if empty, emit,
        and push the nine values of a sample line into the nine buffers. A
        line that fits the pattern but fails to parse changes no buffer. */
    method HandleLine(piece: string)
      requires BuffersMatch() && '\n' !in piece
      modifies this
      ensures BuffersMatch() && emitted == old(emitted) + EmitOne(piece)
      ensures buffer == old(buffer) && received == old(received) && running == old(running)
      ensures connected == old(connected) && sent == old(sent)
    {
      var line := Strip(piece);
      if line == [] {
        return;
      }
      NoLineFeedInLine(piece);
      ghost var samples := Samples(emitted);
      SamplesAppend(emitted, line);
      emitted := emitted + [line];
      if MatchesWhole(SampleChars, line, Channels - 1) {
        var parsed := ParseAll(Split(line, ','));
        if parsed.Some? {
          ParsedSample(line, parsed.value);
          AppendReading(parsed.value, samples);
          assert Samples(emitted) == samples + [parsed.value];
        } else {
          assert Samples(emitted) == samples;
        }
      } else {
        assert Samples(emitted) == samples;
      }
    }

    /** Push one sample into buffers that hold the last 750 values of each
        channel of `samples`. */
    method AppendReading(values: Reading, ghost samples: seq<Reading>)
      requires |pool| == Channels
      requires forall c :: 0 <= c < Channels ==> pool[c] == Suffix(History(samples, c), Capacity)
      modifies this
      ensures |pool| == Channels
      ensures forall c :: 0 <= c < Channels ==> pool[c] == Suffix(History(samples + [values], c), Capacity)
      ensures emitted == old(emitted) && buffer == old(buffer) && received == old(received)
      ensures running == old(running) && connected == old(connected) && sent == old(sent)
    {
      ghost var full := pool;
      PushSample(values);
      PoolStep(pool, full, samples, values);
    }

    /** `for i in range(9): self.data_pool[i].append(values[i])`. */
    method PushSample(values: seq<real>)
      requires |pool| == Channels && |values| >= Channels
      modifies this
      ensures |pool| == Channels
      ensures forall c :: 0 <= c < Channels ==> pool[c] == Push(old(pool)[c], values[c])
      ensures emitted == old(emitted) && buffer == old(buffer) && received == old(received)
      ensures running == old(running) && connected == old(connected) && sent == old(sent)
    {
      var ch := 0;
      while ch < Channels
        invariant 0 <= ch <= Channels && |pool| == Channels
        invariant forall c :: 0 <= c < ch ==> pool[c] == Push(old(pool)[c], values[c])
        invariant forall c :: ch <= c < Channels ==> pool[c] == old(pool)[c]
        invariant emitted == old(emitted) && buffer == old(buffer) && received == old(received)
        invariant running == old(running) && connected == old(connected) && sent == old(sent)
      {
        pool := pool[ch := Push(pool[ch], values[ch])];
        ch := ch + 1;
      }
    }

    /** `run`: while `running`, receive; a time-out goes round again, any
        other failure ends the loop. The loop stops when `events` runs out. */
    method Run(events: seq<RecvResult>)
      requires Valid()
      modifies this
      ensures Valid()
      ensures received == old(received) + (if old(running) then Delivered(events) else "")
      ensures running == old(running) && connected == old(connected) && sent == old(sent)
    {
      var k := 0;
      while running && k < |events|
        decreases |events| - k
        invariant Valid() && 0 <= k <= |events|
        invariant running == old(running) && connected == old(connected) && sent == old(sent)
        invariant running ==> received + Delivered(events[k..]) == old(received) + Delivered(events)
        invariant !running ==> received == old(received)
      {
        DeliveredStep(events, k);
        ghost var prev := received;
        match events[k] {
          case Data(c) =>
            Receive(c);
            ConcatAssoc(prev, c, Delivered(events[k + 1..]));
          case TimedOut =>
          case Failed =>
            break;
        }
        k := k + 1;
      }
      if running && k == |events| {
        assert events[k..] == [];
      }
    }

    /** The nine buffers always have the same length, at most 750: one entry
        per sample line, for the last 750 of them. */
    lemma BuffersAligned()
      requires Valid()
      ensures forall ch :: 0 <= ch < Channels ==> |pool[ch]| == |pool[0]|
      ensures |pool[0]| == if |Samples(emitted)| <= Capacity then |Samples(emitted)| else Capacity
    {
    }

    /** `stop`: clear `running` and close the socket. */
    method Stop()
      requires Valid()
      modifies this
      ensures Valid() && !running && !connected
      ensures received == old(received) && emitted == old(emitted) && pool == old(pool)
      ensures buffer == old(buffer) && sent == old(sent)
    {
      assert Consistent(received, buffer, emitted, pool);
      running, connected := false, false;
    }

    /** `send_data`: `data` and a line feed go out when the socket is usable;
        otherwise the failure is swallowed and nothing is sent. */
    method SendData(data: string)
      requires Valid()
      modifies this
      ensures Valid()
      ensures sent == old(sent) + (if connected then [data + "\n"] else [])
      ensures running == old(running) && connected == old(connected) && received == old(received)
      ensures emitted == old(emitted) && pool == old(pool) && buffer == old(buffer)
    {
      assert Consistent(received, buffer, emitted, pool);
      if connected {
        sent := sent + [data + "\n"];
      }
    }

    /** `get_latest_data(size)`: nothing before the first sample; afterwards
        the nine rows `list(pool[i])[-min(size, available):]`. For a positive
        `size` every row is the `size` most recent values of that channel
        over the whole stream, capped at the 750 a buffer keeps. */
    function LatestData(size: int): (r: Option<seq<seq<real>>>)
      reads this
      requires Valid()
      ensures r.None? <==> Samples(emitted) == []
      ensures r.Some? ==> |r.value| == Channels
      ensures r.Some? && size > 0 ==>
                forall ch :: 0 <= ch < Channels ==>
                  r.value[ch] == Suffix(History(Samples(emitted), ch), if size < Capacity then size else Capacity)
      ensures r.Some? && size <= 0 ==>
                forall ch :: 0 <= ch < Channels ==>
                  r.value[ch] == PyTail(Suffix(History(Samples(emitted), ch), Capacity), size)
    {
      BuffersAligned();
      var available := |pool[0]|;
      if available == 0 then None
      else
        var n := if size < available then size else available;
        var buffers := pool;
        var rows := seq(Channels, ch requires 0 <= ch < Channels => PyTail(buffers[ch], n));
        LatestRows(pool, Samples(emitted), size, rows);
        Some(rows)
    }
  }

  lemma DeliveredStep(events: seq<RecvResult>, k: nat)
    requires k < |events|
    ensures events[k].Data? ==> Delivered(events[k..]) == events[k].chunk + Delivered(events[k + 1..])
    ensures events[k].TimedOut? ==> Delivered(events[k..]) == Delivered(events[k + 1..])
    ensures events[k].Failed? ==> Delivered(events[k..]) == ""
  {
    assert events[k..][1..] == events[k + 1..];
  }

  /** A stripped piece of a `'\n'`-split holds no line feed. */
  lemma NoLineFeedInLine(piece: string)
    requires '\n' !in piece
    ensures '\n' !in Strip(piece)
  {
    var r := Strip(piece);
    var i := |piece| - |StripLeading(piece)|;
    forall k | 0 <= k < |r| ensures r[k] != '\n' {
      assert r[k] == piece[i + k];
    }
  }

  /** A line the pattern accepts has nine fields, so when they all parse
      their values are the line's sample. */
  lemma ParsedSample(line: string, values: seq<real>)
    requires '\n' !in line && MatchesWhole(SampleChars, line, Channels - 1)
    requires ParseAll(Split(line, ',')) == Some(values)
    ensures |values| == Channels && ParseSample(line) == Some(values)
  {
    MatchesWholeIffFields(SampleChars, line, Channels - 1);
  }

  lemma EmitStep(lines: seq<string>, i: nat)
    requires i < |lines|
    ensures Emit(lines[..i + 1]) == Emit(lines[..i]) + EmitOne(lines[i])
  {
    assert Init(lines[..i + 1]) == lines[..i];
  }

  lemma SamplesAppend(lines: seq<string>, line: string)
    ensures Samples(lines + [line])
            == Samples(lines) + match ParseSample(line) case Some(v) => [v] case None => []
  {
    assert Init(lines + [line]) == lines;
  }

  /** Pushing one sample's values into buffers that hold the last 750 values
      of each channel's history gives the last 750 of the extended history. */
  lemma PoolStep(pool: seq<seq<real>>, full: seq<seq<real>>, samples: seq<Reading>, v: Reading)
    requires |pool| == Channels && |full| == Channels
    requires forall c :: 0 <= c < Channels ==> full[c] == Suffix(History(samples, c), Capacity)
    requires forall c :: 0 <= c < Channels ==> pool[c] == Push(full[c], v[c])
    ensures forall c :: 0 <= c < Channels ==> pool[c] == Suffix(History(samples + [v], c), Capacity)
  {
    forall c | 0 <= c < Channels
      ensures pool[c] == Suffix(History(samples + [v], c), Capacity)
    {
      PushKeepsSuffix(History(samples, c), v[c]);
      HistoryAppend(samples, v, c);
    }
  }

  lemma LatestRows(pool: seq<seq<real>>, samples: seq<Reading>, size: int, rows: seq<seq<real>>)
    requires |pool| == Channels && |rows| == Channels
    requires forall c :: 0 <= c < Channels ==> pool[c] == Suffix(History(samples, c), Capacity)
    requires |pool[0]| > 0
    requires var n := if size < |pool[0]| then size else |pool[0]|;
             forall c :: 0 <= c < Channels ==> rows[c] == PyTail(pool[c], n)
    ensures size > 0 ==>
              forall c :: 0 <= c < Channels ==>
                rows[c] == Suffix(History(samples, c), if size < Capacity then size else Capacity)
    ensures size <= 0 ==>
              forall c :: 0 <= c < Channels ==> rows[c] == PyTail(Suffix(History(samples, c), Capacity), size)
  {
    forall c | 0 <= c < Channels
      ensures size > 0 ==> rows[c] == Suffix(History(samples, c), if size < Capacity then size else Capacity)
    {
      var h := History(samples, c);
      assert |pool[c]| == |pool[0]|;
      if size > 0 {
        SuffixOfSuffix(h, if size < Capacity then size else Capacity);
      }
    }
  }
}
