/** The two regular expressions of the source, written as direct matchers.
    `wifi_plot_filter.py` and `wifi_plot_only.py` both admit a sample line with
    `^([\d\.\-eE]+,){8}[\d\.\-eE]+$`; the acquisition window keeps a trial row
    for `Channel:([\d\.\-]+,){8}[\d\.\-]+` matched at the start of the line.
    Because a comma is in neither class, every `[C]+,` group consumes one whole
    comma-separated field, so no backtracking is ever needed. */
module Patterns {
  import opened Text

  /** `[\d\.\-eE]` (sample lines) and `[\d\.\-]` (`Channel:` lines); `\d` is
      taken as the ASCII digits. */
  datatype CharClass = SampleChars | ChannelChars

  predicate InClass(cls: CharClass, c: char) {
    ('0' <= c <= '9') || c == '.' || c == '-' || (cls == SampleChars && (c == 'e' || c == 'E'))
  }

  predicate AllInClass(cls: CharClass, s: string) {
    forall i :: 0 <= i < |s| ==> InClass(cls, s[i])
  }

  /** Length of the longest prefix of `t` made of class characters (what a
      greedy `[C]+` consumes). */
  function RunLength(cls: CharClass, t: string): (n: nat)
    ensures n <= |t|
    ensures AllInClass(cls, t[..n])
    ensures n < |t| ==> !InClass(cls, t[n])
  {
    if t != [] && InClass(cls, t[0]) then 1 + RunLength(cls, t[1..]) else 0
  }

  /** `re.match(r'([C]+,){g}[C]+', t)` succeeds: a prefix of `t` matches. */
  predicate MatchesPrefix(cls: CharClass, t: string, groups: nat)
    decreases groups
  {
    var n := RunLength(cls, t);
    n > 0 && (groups == 0 || (n < |t| && t[n] == ',' && MatchesPrefix(cls, t[n + 1..], groups - 1)))
  }

  /** `re.match(r'^([C]+,){g}[C]+$', t)` succeeds; `$` also matches just before
      a final line feed. */
  predicate MatchesWhole(cls: CharClass, t: string, groups: nat)
    decreases groups
  {
    var n := RunLength(cls, t);
    n > 0 &&
    if groups == 0 then n == |t| || (n + 1 == |t| && t[n] == '\n')
    else n < |t| && t[n] == ',' && MatchesWhole(cls, t[n + 1..], groups - 1)
  }

  /** The comma-separated fields of `t` are `count` non-empty runs of class characters. */
  predicate FieldsInClass(cls: CharClass, t: string, count: nat) {
    var f := Split(t, ',');
    |f| == count && forall i :: 0 <= i < |f| ==> f[i] != "" && AllInClass(cls, f[i])
  }

  lemma NoCommaInClass(cls: CharClass, s: string)
    requires AllInClass(cls, s)
    ensures ',' !in s
  {
    forall i | 0 <= i < |s| ensures s[i] != ',' {
      assert InClass(cls, s[i]);
    }
  }

  /** The anchored pattern, on a line without a line feed, holds exactly when
      the line has `groups + 1` comma-separated fields, each a non-empty run
      of class characters. */
  lemma {:induction false} MatchesWholeIffFields(cls: CharClass, t: string, groups: nat)
    requires '\n' !in t
    ensures MatchesWhole(cls, t, groups) <==> FieldsInClass(cls, t, groups + 1)
    decreases groups
  {
    if MatchesWhole(cls, t, groups) {
      WholeMatchGivesFields(cls, t, groups);
    }
    if FieldsInClass(cls, t, groups + 1) {
      FieldsGiveWholeMatch(cls, t, groups);
    }
  }

  lemma {:induction false} WholeMatchGivesFields(cls: CharClass, t: string, groups: nat)
    requires '\n' !in t && MatchesWhole(cls, t, groups)
    ensures FieldsInClass(cls, t, groups + 1)
    decreases groups
  {
    var n := RunLength(cls, t);
    if groups == 0 {
      assert t[..n] == t;
      NoCommaInClass(cls, t);
      SplitWithoutSeparator(t, ',');
    } else {
      var rest := t[n + 1..];
      NoCommaInClass(cls, t[..n]);
      SplitAt(t, n, ',');
      assert '\n' !in rest by { assert forall i :: 0 <= i < |rest| ==> rest[i] == t[n + 1 + i]; }
      WholeMatchGivesFields(cls, rest, groups - 1);
      FieldsCons(cls, t[..n], Split(rest, ','));
    }
  }

  /** A non-empty run of class characters in front of fields that are. */
  lemma FieldsCons(cls: CharClass, head: string, f: seq<string>)
    requires head != "" && AllInClass(cls, head)
    requires forall i :: 0 <= i < |f| ==> f[i] != "" && AllInClass(cls, f[i])
    ensures forall i :: 0 <= i < |[head] + f| ==> ([head] + f)[i] != "" && AllInClass(cls, ([head] + f)[i])
  {
  }

  lemma {:induction false} FieldsGiveWholeMatch(cls: CharClass, t: string, groups: nat)
    requires '\n' !in t
    requires FieldsInClass(cls, t, groups + 1)
    ensures MatchesWhole(cls, t, groups)
    decreases groups
  {
    var n := RunLength(cls, t);
    var f := Split(t, ',');
    if n == |t| {
      assert t[..n] == t;
      NoCommaInClass(cls, t);
      SplitWithoutSeparator(t, ',');
      assert f == [t];
      assert groups == 0;
    } else {
      FirstFieldIsRun(cls, t);
      assert t[n] == ',';
      NoCommaInClass(cls, t[..n]);
      SplitAt(t, n, ',');
      assert groups > 0;
      var rest := t[n + 1..];
      assert Split(rest, ',') == f[1..];
      assert '\n' !in rest;
      assert FieldsInClass(cls, rest, groups);
      FieldsGiveWholeMatch(cls, rest, groups - 1);
    }
  }

  /** When the first field is a run of class characters, the greedy run stops
      at the first comma, or at the end of the line. */
  lemma FirstFieldIsRun(cls: CharClass, t: string)
    requires AllInClass(cls, Split(t, ',')[0])
    ensures var n := RunLength(cls, t); n == |t| || t[n] == ','
  {
    var n := RunLength(cls, t);
    if n < |t| && t[n] != ',' {
      NoCommaInClass(cls, t[..n]);
      FirstFieldCovers(t, n + 1);
    }
  }

  /** The first field of `t` starts with any comma-free prefix of `t`. */
  lemma FirstFieldCovers(t: string, m: nat)
    requires m <= |t| && ',' !in t[..m]
    ensures |Split(t, ',')[0]| >= m && Split(t, ',')[0][..m] == t[..m]
  {
    var a, b := t[..m], t[m..];
    SplitWithoutSeparator(a, ',');
    SplitConcat(a, b, ',');
    assert t == a + b;
  }
}
