/** The Python string primitives the tools rely on: `str.split` with a
    one-character separator, `str.join`, `str.strip()`, and the negative-index
    slices `xs[-n:]`. */
module Text {

  /** `str.isspace()` for one character: the characters `str.strip()` removes. */
  predicate IsSpace(c: char) {
    ('\t' <= c <= '\r') || ('\U{1C}' <= c <= '\U{1F}') || c == ' ' || c == '\U{85}' || c == '\U{A0}'
    || c == '\U{1680}' || ('\U{2000}' <= c <= '\U{200A}') || c == '\U{2028}' || c == '\U{2029}'
    || c == '\U{202F}' || c == '\U{205F}' || c == '\U{3000}'
  }

  /** Number of occurrences of `x` in `s`. */
  function Count<T(==)>(s: seq<T>, x: T): nat {
    if s == [] then 0 else (if s[0] == x then 1 else 0) + Count(s[1..], x)
  }

  /** `s.split(sep)`: the pieces between separators; there is always one more
      piece than there are separators, and no piece holds the separator. */
  function Split(s: string, sep: char): (pieces: seq<string>)
    ensures |pieces| == Count(s, sep) + 1
    ensures forall i :: 0 <= i < |pieces| ==> sep !in pieces[i]
  {
    if s == [] then [""]
    else
      var rest := Split(s[1..], sep);
      if s[0] == sep then [""] + rest
      else [[s[0]] + rest[0]] + rest[1..]
  }

  /** `sep.join(parts)`. */
  function Join(parts: seq<string>, sep: char): string {
    if |parts| == 0 then ""
    else if |parts| == 1 then parts[0]
    else parts[0] + [sep] + Join(parts[1..], sep)
  }

  /** All pieces but the last (`lines[:-1]`). */
  function Init<T>(s: seq<T>): seq<T>
    requires |s| > 0
  {
    s[..|s| - 1]
  }

  /** The last piece (`lines[-1]`). */
  function Last<T>(s: seq<T>): T
    requires |s| > 0
  {
    s[|s| - 1]
  }

  /** The `n` most recent elements, or all of them when there are fewer
      (`xs[-n:]` for `n > 0`, which is also what `deque(maxlen=n)` keeps). */
  function Suffix<T>(s: seq<T>, n: nat): (r: seq<T>)
    ensures |r| == if |s| <= n then |s| else n
    ensures r == s[|s| - |r|..]
  {
    if |s| <= n then s else s[|s| - n..]
  }

  /** `s[-n:]` for any integer `n`: the `n` most recent elements when `n` is
      positive, everything when `n` is zero (`s[-0:]` is `s[0:]`), and all
      but the first `-n` elements when `n` is negative. */
  function PyTail<T>(s: seq<T>, n: int): (r: seq<T>)
    ensures n > 0 ==> r == Suffix(s, n)
    ensures n <= 0 ==> (-n <= |s| ==> r == s[-n..]) && (-n > |s| ==> r == [])
  {
    var start := if n > 0 then |s| - n else -n;
    if start <= 0 then s else if start >= |s| then [] else s[start..]
  }

  /** `s.lstrip()`. */
  function StripLeading(s: string): (r: string)
    ensures |r| <= |s| && r == s[|s| - |r|..]
    ensures forall k :: 0 <= k < |s| - |r| ==> IsSpace(s[k])
    ensures r == [] || !IsSpace(r[0])
  {
    if |s| > 0 && IsSpace(s[0]) then StripLeading(s[1..]) else s
  }

  /** `s.rstrip()`. */
  function StripTrailing(s: string): (r: string)
    ensures |r| <= |s| && r == s[..|r|]
    ensures forall k :: |r| <= k < |s| ==> IsSpace(s[k])
    ensures r == [] || !IsSpace(r[|r| - 1])
  {
    if |s| > 0 && IsSpace(s[|s| - 1]) then StripTrailing(s[..|s| - 1]) else s
  }

  /** `s.strip()`: the longest infix of `s` that neither starts nor ends with
      whitespace, everything around it being whitespace. */
  function Strip(s: string): (r: string)
    ensures var i := |s| - |StripLeading(s)|;
            i + |r| <= |s| && r == s[i..i + |r|]
            && (forall k :: 0 <= k < i ==> IsSpace(s[k]))
            && (forall k :: i + |r| <= k < |s| ==> IsSpace(s[k]))
    ensures r == [] || (!IsSpace(r[0]) && !IsSpace(r[|r| - 1]))
  {
    SpacesAfter(s, |s| - |StripLeading(s)|, StripLeading(s), |StripTrailing(StripLeading(s))|);
    StripTrailing(StripLeading(s))
  }

  /** Whitespace at the end of a suffix of `s` is whitespace at the end of `s`. */
  lemma SpacesAfter(s: string, i: nat, lead: string, n: nat)
    requires i <= |s| && lead == s[i..] && n <= |lead|
    requires forall k :: n <= k < |lead| ==> IsSpace(lead[k])
    ensures forall k :: i + n <= k < |s| ==> IsSpace(s[k])
  {
    forall k | i + n <= k < |s|
      ensures IsSpace(s[k])
    {
      assert s[k] == lead[k - i];
    }
  }

  lemma {:induction false} CountConcat<T>(a: seq<T>, b: seq<T>, x: T)
    ensures Count(a + b, x) == Count(a, x) + Count(b, x)
  {
    if a != [] {
      assert (a + b)[1..] == a[1..] + b;
      CountConcat(a[1..], b, x);
    } else {
      assert a + b == b;
    }
  }

  lemma ConcatAssoc<T>(a: seq<T>, b: seq<T>, c: seq<T>)
    ensures (a + b) + c == a + (b + c)
  {
  }

  /** No occurrence is counted only when there is none. */
  lemma {:induction false} CountAbsent<T>(s: seq<T>, x: T)
    requires Count(s, x) == 0
    ensures x !in s
  {
    if s != [] {
      CountAbsent(s[1..], x);
      assert s == [s[0]] + s[1..];
    }
  }

  /** Splitting a concatenation: the last piece of `a` and the first piece of
      `b` fuse, every other piece is kept. */
  lemma {:induction false} SplitConcat(a: string, b: string, sep: char)
    ensures var A, B := Split(a, sep), Split(b, sep);
            Split(a + b, sep) == Init(A) + [Last(A) + B[0]] + B[1..]
  {
    var B := Split(b, sep);
    if a == [] {
      assert a + b == b;
      FuseAfterEmpty(B);
    } else {
      var A', X := Split(a[1..], sep), Split(a[1..] + b, sep);
      assert X == Init(A') + [Last(A') + B[0]] + B[1..] by {
        SplitConcat(a[1..], b, sep);
      }
      assert (a + b)[0] == a[0] && (a + b)[1..] == a[1..] + b;
      if a[0] == sep {
        SplitConsSeparator(A', B, X);
      } else if |A'| == 1 {
        SplitConsSingle(a[0], A', B, X);
      } else {
        SplitConsMany(a[0], A', B, X);
      }
    }
  }

  lemma FuseAfterEmpty(B: seq<string>)
    requires |B| > 0
    ensures B == Init([""]) + [Last([""]) + B[0]] + B[1..]
  {
    assert Init([""]) == [] && Last([""]) + B[0] == B[0];
    assert B == [B[0]] + B[1..];
  }

  lemma SplitConsSeparator(A': seq<string>, B: seq<string>, X: seq<string>)
    requires |A'| > 0 && |B| > 0
    requires X == Init(A') + [Last(A') + B[0]] + B[1..]
    ensures var A := [""] + A'; [""] + X == Init(A) + [Last(A) + B[0]] + B[1..]
  {
    var A := [""] + A';
    assert Init(A) == [""] + Init(A');
  }

  lemma SplitConsSingle(c: char, A': seq<string>, B: seq<string>, X: seq<string>)
    requires |A'| == 1 && |B| > 0
    requires X == Init(A') + [Last(A') + B[0]] + B[1..]
    ensures var A := [[c] + A'[0]] + A'[1..];
            [[c] + X[0]] + X[1..] == Init(A) + [Last(A) + B[0]] + B[1..]
  {
    assert X == [A'[0] + B[0]] + B[1..];
    assert [c] + (A'[0] + B[0]) == ([c] + A'[0]) + B[0];
  }

  lemma SplitConsMany(c: char, A': seq<string>, B: seq<string>, X: seq<string>)
    requires |A'| > 1 && |B| > 0
    requires X == Init(A') + [Last(A') + B[0]] + B[1..]
    ensures var A := [[c] + A'[0]] + A'[1..];
            [[c] + X[0]] + X[1..] == Init(A) + [Last(A) + B[0]] + B[1..]
  {
    var A := [[c] + A'[0]] + A'[1..];
    assert X[0] == A'[0];
    assert X[1..] == Init(A')[1..] + [Last(A') + B[0]] + B[1..];
    assert Init(A) == [[c] + A'[0]] + Init(A')[1..];
  }

  /** Text without the separator is a single piece. */
  lemma {:induction false} SplitWithoutSeparator(s: string, sep: char)
    requires sep !in s
    ensures Split(s, sep) == [s]
  {
    if s != [] {
      assert s[0] in s;
      assert sep !in s[1..];
      SplitWithoutSeparator(s[1..], sep);
      assert s == [s[0]] + s[1..];
    }
  }

  /** Splitting at the first separator, at index `k`. */
  lemma SplitAt(t: string, k: nat, sep: char)
    requires k < |t| && t[k] == sep && sep !in t[..k]
    ensures Split(t, sep) == [t[..k]] + Split(t[k + 1..], sep)
  {
    var rest := t[k + 1..];
    assert t == t[..k] + ([sep] + rest);
    SplitAfterSeparator(rest, sep);
    SplitWithoutSeparator(t[..k], sep);
    SplitConcat(t[..k], [sep] + rest, sep);
    FuseWithEmptyHead(t[..k], Split(rest, sep), Split(t[..k] + ([sep] + rest), sep));
  }

  lemma FuseWithEmptyHead(p: string, R: seq<string>, X: seq<string>)
    requires X == Init([p]) + [Last([p]) + ([""] + R)[0]] + ([""] + R)[1..]
    ensures X == [p] + R
  {
    assert p + "" == p;
  }

  /** Joining the pieces of a split gives back the text. */
  lemma {:induction false} JoinSplit(s: string, sep: char)
    ensures Join(Split(s, sep), sep) == s
  {
    if s != [] {
      var R := Split(s[1..], sep);
      JoinSplit(s[1..], sep);
      if s[0] == sep {
        assert Split(s, sep) == [""] + R;
        assert ([""] + R)[1..] == R;
      } else if |R| > 1 {
        assert Join(R, sep) == R[0] + [sep] + Join(R[1..], sep);
      }
    }
  }

  /** A leading separator opens an empty first piece. */
  lemma SplitAfterSeparator(rest: string, sep: char)
    ensures Split([sep] + rest, sep) == [""] + Split(rest, sep)
  {
    assert ([sep] + rest)[0] == sep && ([sep] + rest)[1..] == rest;
  }

  /** Splitting a join gives back the parts, when no part holds the separator. */
  lemma {:induction false} SplitJoin(parts: seq<string>, sep: char)
    requires |parts| > 0
    requires forall i :: 0 <= i < |parts| ==> sep !in parts[i]
    ensures Split(Join(parts, sep), sep) == parts
  {
    if |parts| == 1 {
      SplitWithoutSeparator(parts[0], sep);
    } else {
      var rest := Join(parts[1..], sep);
      assert Join(parts, sep) == parts[0] + ([sep] + rest);
      assert Split([sep] + rest, sep) == [""] + parts[1..] by {
        SplitJoin(parts[1..], sep);
        SplitAfterSeparator(rest, sep);
      }
      assert Split(parts[0] + ([sep] + rest), sep) == parts by {
        SplitWithoutSeparator(parts[0], sep);
        SplitConcat(parts[0], [sep] + rest, sep);
        assert parts[0] + "" == parts[0];
        assert parts == [parts[0]] + parts[1..];
      }
    }
  }
}
