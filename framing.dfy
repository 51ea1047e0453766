/** What the stream reader of both tools computes from the text received so
    far: the newline framing of the stream, the nine-field sample records, and
    the nine per-channel ring buffers of `deque(maxlen=750)`. The reader class
    in module Reader is proved to keep its state equal to these functions of
    the received text. */
module Framing {
  import opened Optional
  import opened Text
  import opened Patterns
  import opened Decimal

  /** Values per sample line: one per channel. */
  const Channels := 9
  /** `maxlen` of every channel buffer (`data_len`). */
  const Capacity := 750

  /** One parsed sample line: a value for each of the nine channels. */
  type Reading = r: seq<real> | |r| == Channels witness [0.0, 0.0, 0.0, 0.0, 0.0, 0.0, 0.0, 0.0, 0.0]

  // ---------------------------------------------------------------------
  // Line framing

  /** What one `'\n'`-separated piece contributes: its stripped text, unless
      that is empty. */
  function EmitOne(piece: string): seq<string> {
    var line := Strip(piece);
    if line == [] then [] else [line]
  }

  /** The stripped, non-empty pieces, in order. */
  function Emit(pieces: seq<string>): (lines: seq<string>)
    ensures |lines| <= |pieces|
    ensures forall i :: 0 <= i < |lines| ==> lines[i] != []
  {
    if pieces == [] then [] else Emit(Init(pieces)) + EmitOne(Last(pieces))
  }

  /** The lines emitted once `received` has arrived: every piece but the
      last, which may still be incomplete. */
  function CompleteLines(received: string): seq<string> {
    Emit(Init(Split(received, '\n')))
  }

  /** The fragment kept back for the next chunk: the text after the last `'\n'`. */
  function Pending(received: string): (fragment: string)
    ensures '\n' !in fragment
    ensures |fragment| <= |received| && fragment == received[|received| - |fragment|..]
    ensures |fragment| == |received| || received[|received| - |fragment| - 1] == '\n'
  {
    var pieces := Split(received, '\n');
    SplitLastIsSuffix(received);
    SplitLastAfterSeparator(received);
    Last(pieces)
  }

  /** The last piece is the whole text or starts right after a line feed. */
  lemma {:induction false} SplitLastAfterSeparator(s: string)
    ensures var last := Last(Split(s, '\n'));
            |last| <= |s| && (|last| == |s| || s[|s| - |last| - 1] == '\n')
  {
    SplitLastIsSuffix(s);
    if s != [] {
      if s[0] != '\n' && |Split(s[1..], '\n')| == 1 {
        SplitLastSingle(s);
      } else {
        var t := s[1..];
        var last := Last(Split(t, '\n'));
        SplitLastAfterSeparator(t);
        SplitLastIsSuffix(t);
        SplitLastOfLonger(s);
        if |last| == |t| && s[0] != '\n' {
          assert last == t;
          SplitWithoutSeparator(t, '\n');
          assert false;
        }
        if |last| < |t| {
          assert s[|s| - |last| - 1] == t[|t| - |last| - 1];
        }
      }
    }
  }

  lemma {:induction false} SplitLastIsSuffix(s: string)
    ensures var last := Last(Split(s, '\n'));
            |last| <= |s| && last == s[|s| - |last|..]
  {
    if s != [] {
      if s[0] != '\n' && |Split(s[1..], '\n')| == 1 {
        SplitLastSingle(s);
      } else {
        SplitLastIsSuffix(s[1..]);
        SplitLastOfLonger(s);
        SuffixOfTail(s, Last(Split(s[1..], '\n')));
      }
    }
  }

  /** Text with a single piece after a first character that is not a line
      feed is a single piece. */
  lemma SplitLastSingle(s: string)
    requires s != [] && s[0] != '\n' && |Split(s[1..], '\n')| == 1
    ensures Split(s, '\n') == [s]
  {
    CountAbsent(s[1..], '\n');
    assert s == [s[0]] + s[1..];
    SplitWithoutSeparator(s, '\n');
  }

  /** When the first piece is not the last, the last piece is that of the tail. */
  lemma SplitLastOfLonger(s: string)
    requires s != [] && (s[0] == '\n' || |Split(s[1..], '\n')| > 1)
    ensures Last(Split(s, '\n')) == Last(Split(s[1..], '\n')) && |Split(s, '\n')| > 1
  {
    var rest := Split(s[1..], '\n');
    if s[0] == '\n' {
      assert Split(s, '\n') == [""] + rest;
      LastOfCons("", rest);
    } else {
      assert Split(s, '\n') == [[s[0]] + rest[0]] + rest[1..];
      LastOfReplacedHead([s[0]] + rest[0], rest);
    }
  }

  lemma InitLastOfConcat<T>(a: seq<T>, b: seq<T>)
    requires |b| > 0
    ensures |a + b| > 0 && Init(a + b) == a + Init(b) && Last(a + b) == Last(b)
  {
  }

  lemma LastOfCons<T>(x: T, r: seq<T>)
    requires |r| > 0
    ensures |[x] + r| > 1 && Last([x] + r) == Last(r)
  {
  }

  lemma LastOfReplacedHead<T>(x: T, r: seq<T>)
    requires |r| > 1
    ensures |[x] + r[1..]| > 1 && Last([x] + r[1..]) == Last(r)
  {
  }

  lemma SuffixOfTail(s: string, r: string)
    requires |s| > 0 && |r| < |s| && r == s[1..][|s| - 1 - |r|..]
    ensures r == s[|s| - |r|..]
  {
  }

  lemma {:induction false} EmitConcat(a: seq<string>, b: seq<string>)
    ensures Emit(a + b) == Emit(a) + Emit(b)
  {
    if b == [] {
      assert a + b == a;
    } else {
      calc {
        Emit(a + b);
        { InitLastOfConcat(a, b); }
        Emit(a + Init(b)) + EmitOne(Last(b));
        { EmitConcat(a, Init(b)); }
        (Emit(a) + Emit(Init(b))) + EmitOne(Last(b));
        { ConcatAssoc(Emit(a), Emit(Init(b)), EmitOne(Last(b))); }
        Emit(a) + Emit(b);
      }
    }
  }

  /** Splitting `t + c` keeps every complete piece of `t` and splits the
      pending fragment of `t` together with `c`: exactly what the reader does
      when it appends a chunk to its buffer. */
  lemma SplitExtends(t: string, c: string)
    ensures Split(t + c, '\n') == Init(Split(t, '\n')) + Split(Pending(t) + c, '\n')
  {
    var A, B := Split(t, '\n'), Split(c, '\n');
    SplitConcat(t, c, '\n');
    PendingConcat(t, c);
    FuseAfterInit(A, B, Split(t + c, '\n'), Split(Pending(t) + c, '\n'));
  }

  /** The fragment is a single piece, so a chunk fuses with it directly. */
  lemma PendingConcat(t: string, c: string)
    ensures var A, B := Split(t, '\n'), Split(c, '\n');
            Split(Pending(t) + c, '\n') == [Last(A) + B[0]] + B[1..]
  {
    var p := Pending(t);
    SplitWithoutSeparator(p, '\n');
    SplitConcat(p, c, '\n');
    FuseWithSingle(p, Split(c, '\n'), Split(p + c, '\n'));
  }

  lemma FuseWithSingle(p: string, B: seq<string>, X: seq<string>)
    requires |B| > 0 && X == Init([p]) + [Last([p]) + B[0]] + B[1..]
    ensures X == [p + B[0]] + B[1..]
  {
  }

  lemma FuseAfterInit(A: seq<string>, B: seq<string>, X: seq<string>, Y: seq<string>)
    requires |A| > 0 && |B| > 0
    requires X == Init(A) + [Last(A) + B[0]] + B[1..]
    requires Y == [Last(A) + B[0]] + B[1..]
    ensures X == Init(A) + Y
  {
  }

  /** Receiving chunk `c` after `t` emits the complete pieces of the old
      fragment plus `c`, and keeps the last of them as the new fragment: the
      framing depends only on the concatenated text, never on where the chunk
      boundaries fall. */
  lemma ReceiveExtends(t: string, c: string)
    ensures var pieces := Split(Pending(t) + c, '\n');
            CompleteLines(t + c) == CompleteLines(t) + Emit(Init(pieces))
            && Pending(t + c) == Last(pieces)
  {
    var A, P := Split(t, '\n'), Split(Pending(t) + c, '\n');
    SplitExtends(t, c);
    assert Init(Init(A) + P) == Init(A) + Init(P);
    assert Last(Init(A) + P) == Last(P);
    EmitConcat(Init(A), Init(P));
  }

  // ---------------------------------------------------------------------
  // Sample records

  /** `[float(x) for x in fields]`; `None` when any `float` would raise. */
  function ParseAll(fields: seq<string>): (r: Option<seq<real>>)
    ensures r.Some? <==> forall i :: 0 <= i < |fields| ==> ParseFloat(fields[i]).Some?
    ensures r.Some? ==> |r.value| == |fields|
                        && forall i :: 0 <= i < |fields| ==> ParseFloat(fields[i]) == Some(r.value[i])
  {
    if fields == [] then Some([])
    else
      match ParseFloat(fields[0])
      case None => None
      case Some(x) =>
        match ParseAll(fields[1..])
        case None => None
        case Some(xs) => Some([x] + xs)
  }

  /** A line that the sample pattern `^([\d.\-eE]+,){8}[\d.\-eE]+$` accepts
      and whose nine fields all parse; anything else is no sample. */
  function ParseSample(line: string): Option<Reading> {
    if MatchesWhole(SampleChars, line, Channels - 1) then
      match ParseAll(Split(line, ','))
      case Some(v) => if |v| == Channels then Some(v) else None
      case None => None
    else None
  }

  /** A line (which never holds `'\n'`) is a sample exactly when it is nine
      comma-separated non-empty fields over `[0-9.eE-]` that all parse, and
      then each channel receives its own field. */
  lemma ParseSampleIff(line: string)
    requires '\n' !in line
    ensures ParseSample(line).Some? <==>
            (FieldsInClass(SampleChars, line, Channels)
             && forall i :: 0 <= i < Channels ==> ParseFloat(Split(line, ',')[i]).Some?)
    ensures ParseSample(line).Some? ==>
            forall i :: 0 <= i < Channels ==> ParseFloat(Split(line, ',')[i]) == Some(ParseSample(line).value[i])
  {
    MatchesWholeIffFields(SampleChars, line, Channels - 1);
  }

  /** A field that `float` rejects keeps the whole line out of the buffers. */
  lemma UnparsableFieldRejects(line: string, i: nat)
    requires i < |Split(line, ',')| && ParseFloat(Split(line, ',')[i]) == None
    ensures ParseSample(line) == None
  {
  }

  /** `--` is spelled with the pattern's characters but `float('--')` raises:
      a line whose first field is `--` and which otherwise has the sample's
      shape passes the pattern and still reaches no buffer. */
  lemma DoubleDashRejected(line: string)
    requires '\n' !in line && FieldsInClass(SampleChars, line, Channels)
    requires Split(line, ',')[0] == "--"
    ensures MatchesWhole(SampleChars, line, Channels - 1)
    ensures ParseSample(line) == None
  {
    FieldsGiveWholeMatch(SampleChars, line, Channels - 1);
    DoubleDashFails();
    UnparsableFieldRejects(line, 0);
  }

  lemma DoubleDashFails()
    ensures AllInClass(SampleChars, "--")
    ensures ParseFloat("--") == None
  {
    assert ExponentMark("-") == 1;
    assert DecimalPoint("-") == 1;
  }

  /** The sample of every line that parses as one, in arrival order. */
  function Samples(lines: seq<string>): (s: seq<Reading>)
    ensures |s| <= |lines|
  {
    if lines == [] then []
    else
      Samples(Init(lines))
      + match ParseSample(Last(lines)) case Some(v) => [v] case None => []
  }

  /** Everything channel `ch` has ever received, oldest first. */
  function History(samples: seq<Reading>, ch: nat): (h: seq<real>)
    requires ch < Channels
    ensures |h| == |samples|
  {
    seq(|samples|, k requires 0 <= k < |samples| => samples[k][ch])
  }

  lemma HistoryAppend(samples: seq<Reading>, v: Reading, ch: nat)
    requires ch < Channels
    ensures History(samples + [v], ch) == History(samples, ch) + [v[ch]]
  {
  }

  // ---------------------------------------------------------------------
  // Bounded buffers

  /** `deque(maxlen=750).append(x)`: a full buffer drops its oldest value. */
  function Push(q: seq<real>, x: real): seq<real> {
    if |q| < Capacity then q + [x] else q[1..] + [x]
  }

  /** A buffer that holds the last 750 values of a history still holds the
      last 750 once one more value is pushed: it never exceeds 750, the new
      value is last, and a full buffer loses exactly its oldest value. */
  lemma PushKeepsSuffix(h: seq<real>, x: real)
    ensures Push(Suffix(h, Capacity), x) == Suffix(h + [x], Capacity)
    ensures |Suffix(h, Capacity)| == Capacity ==> Push(Suffix(h, Capacity), x) == Suffix(h, Capacity)[1..] + [x]
  {
    var q := Suffix(h, Capacity);
    if |h| < Capacity {
      assert q == h;
    } else {
      assert q == h[|h| - Capacity..];
      var s := Suffix(h + [x], Capacity);
      assert s == (h + [x])[|h| + 1 - Capacity..];
      assert |s| == |q[1..] + [x]|;
      forall i | 0 <= i < |s| ensures s[i] == (q[1..] + [x])[i] {
        if i < Capacity - 1 {
          assert s[i] == h[|h| + 1 - Capacity + i];
        }
      }
    }
  }

  /** The `n` most recent of the last 750 values are the `n` most recent
      values overall, for any `n` up to 750. */
  lemma SuffixOfSuffix<T>(h: seq<T>, n: nat)
    requires n <= Capacity
    ensures Suffix(Suffix(h, Capacity), n) == Suffix(h, n)
  {
    if |h| > Capacity {
      var k := h[|h| - Capacity..];
      assert Suffix(h, Capacity) == k;
      if n < Capacity {
        assert k[Capacity - n..] == h[|h| - n..];
      }
    }
  }
}
