/** The staging label read off the name in one pass: its words, and what stands between them. */
module LabelWords {
  import opened Text
  import opened LabelPath

  predicate IsWordChar(c: char) {
    'a' <= c <= 'z' || '0' <= c <= '9'
  }

  predicate IsGap(c: char) {
    !IsWordChar(c)
  }

  /** What a gap between two words becomes: a single hyphen stays, everything else is one underscore. */
  function GapMark(gap: string): string {
    if gap == "-" then "-" else "_"
  }

  /** The words of a text, with a mark in place of each gap between two of them; `started` when a word came before. */
  function Words(s: string, started: bool): string
    decreases |s|
  {
    if s == "" then ""
    else
      var n := RunLength(s, IsGap);
      if n == 0 then [s[0]] + Words(s[1..], true)
      else if n == |s| then ""
      else (if started then GapMark(s[..n]) else "") + Words(s[n..], started)
  }

  // ---- the two replacements on a gap and on a word ----

  /** The two replacements together. */
  function Collapsed(s: string): string {
    ReplaceRuns(ReplaceRuns(s, IsBad, 1), IsSeparator, 2)
  }

  /** All gaps marked, those at the ends too. */
  function Marked(s: string): string
    decreases |s|
  {
    if s == "" then ""
    else
      var n := RunLength(s, IsGap);
      if n == 0 then [s[0]] + Marked(s[1..]) else GapMark(s[..n]) + Marked(s[n..])
  }

  lemma {:induction false} RunLengthSplits(a: string, b: string, p: char -> bool)
    requires (forall k :: 0 <= k < |a| ==> p(a[k])) && (b == "" || !p(b[0]))
    ensures RunLength(a + b, p) == |a|
  {
    if a != "" {
      assert (a + b)[1..] == a[1..] + b;
      RunLengthSplits(a[1..], b, p);
    } else {
      assert a + b == b;
    }
  }

  /** A replacement of runs works on both sides of a character that is in no run. */
  lemma {:induction false} ReplaceSplits(a: string, b: string, p: char -> bool, least: nat)
    requires b == "" || !p(b[0])
    ensures ReplaceRuns(a + b, p, least) == ReplaceRuns(a, p, least) + ReplaceRuns(b, p, least)
    decreases |a|
  {
    hide ReplaceRuns;
    if a == "" {
      EmptyStays(p, least);
      assert a + b == b;
    } else {
      var n := RunLength(a, p);
      hide RunLength;
      if n == 0 {
        WordStays(a, p, least);
        WordStays(a + b, p, least);
        assert (a + b)[1..] == a[1..] + b;
        ReplaceSplits(a[1..], b, p, least);
        RunsJoin([a[0]], ReplaceRuns(a[1..], p, least), ReplaceRuns(b, p, least));
      } else {
        RunThenRest(a[..n], a[n..], p, least);
        RunThenRest(a[..n], a[n..] + b, p, least);
        assert a == a[..n] + a[n..] && a + b == a[..n] + (a[n..] + b);
        ReplaceSplits(a[n..], b, p, least);
        RunsJoin(if n >= least then "_" else a[..n], ReplaceRuns(a[n..], p, least), ReplaceRuns(b, p, least));
      }
    }
  }

  lemma RunsJoin(a: string, b: string, c: string)
    ensures a + (b + c) == (a + b) + c
  {
  }

  lemma RunThenRest(run: string, rest: string, p: char -> bool, least: nat)
    requires run != "" && (forall k :: 0 <= k < |run| ==> p(run[k])) && (rest == "" || !p(rest[0]))
    ensures ReplaceRuns(run + rest, p, least) == (if |run| >= least then "_" else run) + ReplaceRuns(rest, p, least)
  {
    RunLengthSplits(run, rest, p);
    assert (run + rest)[..|run|] == run && (run + rest)[|run|..] == rest;
  }

  /** Replacing bad runs turns a gap into separators: into the same single one only when it was that. */
  lemma {:induction false} GapBecomesSeparators(gap: string)
    requires forall k :: 0 <= k < |gap| ==> IsGap(gap[k])
    ensures var r := ReplaceRuns(gap, IsBad, 1);
      && (forall k :: 0 <= k < |r| ==> IsSeparator(r[k])) && (r == "" <==> gap == "")
      && (r == "-" <==> gap == "-")
    decreases |gap|
  {
    if gap != "" {
      var n := RunLength(gap, IsBad);
      GapBecomesSeparators(if n == 0 then gap[1..] else gap[n..]);
      var r := ReplaceRuns(gap, IsBad, 1);
      if n == 0 {
        assert r[0] == gap[0] && r[1..] == ReplaceRuns(gap[1..], IsBad, 1);
        assert gap == [gap[0]] + gap[1..] && r == [r[0]] + r[1..];
        assert r == "-" <==> r[0] == '-' && r[1..] == "";
      } else {
        assert r[0] == '_' && gap[0] != '-';
      }
    }
  }

  lemma SeparatorsCollapse(s: string)
    requires s != "" && forall k :: 0 <= k < |s| ==> IsSeparator(s[k])
    ensures ReplaceRuns(s, IsSeparator, 2) == if s == "-" then "-" else "_"
  {
    RunLengthSplits(s, "", IsSeparator);
    assert s + "" == s && s[..|s|] == s && s[|s|..] == "";
    assert ReplaceRuns("", IsSeparator, 2) == "";
    if |s| == 1 { assert s == [s[0]]; }
  }

  lemma {:induction false} GapCollapses(gap: string, rest: string)
    requires gap != "" && (forall k :: 0 <= k < |gap| ==> IsGap(gap[k])) && (rest == "" || IsWordChar(rest[0]))
    ensures Collapsed(gap + rest) == GapMark(gap) + Collapsed(rest)
  {
    hide ReplaceRuns;
    var (r, t) := (ReplaceRuns(gap, IsBad, 1), ReplaceRuns(rest, IsBad, 1));
    ReplaceSplits(gap, rest, IsBad, 1);
    GapBecomesSeparators(gap);
    if rest != "" { WordStays(rest, IsBad, 1); } else { EmptyStays(IsBad, 1); }
    ReplaceSplits(r, t, IsSeparator, 2);
    SeparatorsCollapse(r);
  }

  lemma EmptyStays(p: char -> bool, least: nat)
    ensures ReplaceRuns("", p, least) == ""
  {
  }

  lemma WordStays(s: string, p: char -> bool, least: nat)
    requires s != "" && !p(s[0])
    ensures ReplaceRuns(s, p, least) == [s[0]] + ReplaceRuns(s[1..], p, least)
  {
  }

  lemma WordCollapses(s: string)
    requires s != "" && IsWordChar(s[0])
    ensures Collapsed(s) == [s[0]] + Collapsed(s[1..])
  {
    hide ReplaceRuns;
    WordStays(s, IsBad, 1);
    var r := [s[0]] + ReplaceRuns(s[1..], IsBad, 1);
    WordStays(r, IsSeparator, 2);
    assert r[1..] == ReplaceRuns(s[1..], IsBad, 1);
  }

  lemma {:induction false} CollapsedIsMarked(s: string)
    ensures Collapsed(s) == Marked(s)
    decreases |s|
  {
    hide Collapsed;
    if s == "" {
      NothingCollapses();
    } else {
      var n := RunLength(s, IsGap);
      if n == 0 {
        WordCollapses(s);
        CollapsedIsMarked(s[1..]);
      } else {
        assert s == s[..n] + s[n..];
        GapCollapses(s[..n], s[n..]);
        CollapsedIsMarked(s[n..]);
      }
    }
  }

  lemma NothingCollapses()
    ensures Collapsed("") == ""
  {
  }

  // ---- the trimmed ends ----

  lemma {:induction false} MarkedStarts(s: string)
    ensures s != "" ==> Marked(s) != ""
    ensures s != "" && IsWordChar(s[0]) ==> Marked(s)[0] == s[0]
  {
  }

  lemma TrimFrontOfMarked(s: string)
    ensures var n := RunLength(s, IsGap); TrimFront(Marked(s), IsEdge) == Marked(s[n..])
  {
    var n := RunLength(s, IsGap);
    MarkedStarts(s[n..]);
    if n > 0 {
      assert Marked(s) == GapMark(s[..n]) + Marked(s[n..]);
      assert |GapMark(s[..n])| == 1 && IsEdge(GapMark(s[..n])[0]);
      assert Marked(s)[1..] == Marked(s[n..]);
    } else {
      assert s[0..] == s;
    }
  }

  lemma {:induction false} TrimBackAfter(a: string, b: string)
    requires TrimBack(b, IsEdge) != ""
    ensures TrimBack(a + b, IsEdge) == a + TrimBack(b, IsEdge)
    decreases |b|
  {
    if b != "" && IsEdge(b[|b| - 1]) {
      assert (a + b)[..|a + b| - 1] == a + b[..|b| - 1];
      TrimBackAfter(a, b[..|b| - 1]);
    }
  }

  lemma {:induction false} TrimBackAll(a: string, b: string)
    requires TrimBack(b, IsEdge) == ""
    ensures TrimBack(a + b, IsEdge) == TrimBack(a, IsEdge)
    decreases |b|
  {
    if b == "" {
      assert a + b == a;
    } else {
      assert (a + b)[..|a + b| - 1] == a + b[..|b| - 1];
      TrimBackAll(a, b[..|b| - 1]);
    }
  }

  lemma {:induction false} TrimBackOfMarked(s: string)
    ensures TrimBack(Marked(s), IsEdge) == Words(s, true)
    ensures s != "" && IsWordChar(s[0]) ==> Words(s, true) != ""
    decreases |s|
  {
    if s != "" {
      var n := RunLength(s, IsGap);
      if n == 0 {
        TrimBackOfMarked(s[1..]);
        var rest := Marked(s[1..]);
        if TrimBack(rest, IsEdge) == "" { TrimBackAll([s[0]], rest); } else { TrimBackAfter([s[0]], rest); }
      } else if n == |s| {
        assert s[n..] == "" && Marked(s) == GapMark(s[..n]);
        assert Marked(s)[..0] == "";
      } else {
        TrimBackOfMarked(s[n..]);
        TrimBackAfter(GapMark(s[..n]), Marked(s[n..]));
      }
    }
  }

  lemma WordsSkipsGap(s: string)
    ensures var n := RunLength(s, IsGap); Words(s[n..], true) == Words(s, false)
  {
    var n := RunLength(s, IsGap);
    if n == 0 { assert s[0..] == s; }
    else if n < |s| { assert RunLength(s[n..], IsGap) == 0; }
  }

  /**
   * The label of a name is its lower-cased words in order, with a hyphen where exactly one hyphen stood between two of them
   * and an underscore for anything else between them, and nothing at the ends; a name without words gets the fallback.
   */
  lemma LabelIsWords(name: Option<string>, lower: string -> string)
    ensures var words := Words(lower(Strip(name.GetOr(""))), false);
      Sanitize(name, lower) == if words == "" then "unnamed_source" else words
  {
    hide Marked, Words, TrimFront, TrimBack, RunLength, ReplaceRuns;
    var raw := lower(Strip(name.GetOr("")));
    CollapsedIsMarked(raw);
    TrimFrontOfMarked(raw);
    TrimBackOfMarked(raw[RunLength(raw, IsGap)..]);
    WordsSkipsGap(raw);
  }
}
