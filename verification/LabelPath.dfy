/** The staging label of a source: a chain of replacements that projects every text onto a small language of names. */
module LabelPath {
  import opened Text

  const UNNAMED := "unnamed_source"

  predicate IsSeparator(c: char) {
    c == '_' || c == '-'
  }

  predicate IsLabelChar(c: char) {
    'a' <= c <= 'z' || '0' <= c <= '9' || IsSeparator(c)
  }

  predicate IsBad(c: char) {
    !IsLabelChar(c)
  }

  predicate IsEdge(c: char) {
    IsSeparator(c) || c == ' '
  }

  // ---- the replacements ----

  /** The length of the run of such characters at the front. */
  function RunLength(s: string, p: char -> bool): (n: nat)
    ensures n <= |s|
    ensures forall k :: 0 <= k < n ==> p(s[k])
    ensures n < |s| ==> !p(s[n])
    ensures s != "" && p(s[0]) ==> n > 0
  {
    if s == "" || !p(s[0]) then 0 else 1 + RunLength(s[1..], p)
  }

  /** Replace every maximal run of at least `least` such characters by one underscore. */
  function ReplaceRuns(s: string, p: char -> bool, least: nat): string
    decreases |s|
  {
    if s == "" then ""
    else
      var n := RunLength(s, p);
      if n == 0 then [s[0]] + ReplaceRuns(s[1..], p, least)
      else (if n >= least then "_" else s[..n]) + ReplaceRuns(s[n..], p, least)
  }

  function TrimFront(s: string, p: char -> bool): string {
    if s != "" && p(s[0]) then TrimFront(s[1..], p) else s
  }

  function TrimBack(s: string, p: char -> bool): string {
    if s != "" && p(s[|s| - 1]) then TrimBack(s[..|s| - 1], p) else s
  }

  /** `lower` is Python's `str.lower`. */
  function Sanitize(name: Option<string>, lower: string -> string): string {
    var raw := lower(Strip(name.GetOr("")));
    var replaced := ReplaceRuns(raw, IsBad, 1);
    var collapsed := ReplaceRuns(replaced, IsSeparator, 2);
    var trimmed := TrimBack(TrimFront(collapsed, IsEdge), IsEdge);
    if trimmed == "" then UNNAMED else trimmed
  }

  // ---- the language of labels ----

  predicate LabelText(s: string) {
    forall k :: 0 <= k < |s| ==> IsLabelChar(s[k])
  }

  ghost predicate SeparatorsApart(s: string) {
    forall i, j :: 0 <= i && j == i + 1 && j < |s| ==> !(IsSeparator(s[i]) && IsSeparator(s[j]))
  }

  ghost predicate IsLabel(s: string) {
    s != "" && LabelText(s) && SeparatorsApart(s) && !IsSeparator(s[0]) && !IsSeparator(s[|s| - 1])
  }

  /** Lower-casing leaves lower-case letters, digits and separators as they are. */
  ghost predicate LeavesLabelText(lower: string -> string) {
    forall s :: LabelText(s) ==> lower(s) == s
  }

  lemma {:induction false} BadRunsReplaced(s: string)
    ensures LabelText(ReplaceRuns(s, IsBad, 1))
    decreases |s|
  {
    if s != "" {
      var n := RunLength(s, IsBad);
      BadRunsReplaced(if n == 0 then s[1..] else s[n..]);
    }
  }

  lemma {:induction false} SeparatorRunsCollapsed(s: string)
    requires LabelText(s)
    ensures var r := ReplaceRuns(s, IsSeparator, 2);
      && LabelText(r) && SeparatorsApart(r) && (r == "" <==> s == "")
      && (s != "" ==> (IsSeparator(r[0]) <==> IsSeparator(s[0])))
    decreases |s|
  {
    if s != "" {
      var n := RunLength(s, IsSeparator);
      SeparatorRunsCollapsed(if n == 0 then s[1..] else s[n..]);
    }
  }

  lemma {:induction false} FrontTrimmed(s: string)
    requires LabelText(s) && SeparatorsApart(s)
    ensures var t := TrimFront(s, IsEdge);
      LabelText(t) && SeparatorsApart(t) && (t == "" || !IsSeparator(t[0]))
  {
    if s != "" && IsEdge(s[0]) { FrontTrimmed(s[1..]); }
  }

  lemma {:induction false} BackTrimmed(s: string)
    requires LabelText(s) && SeparatorsApart(s) && (s == "" || !IsSeparator(s[0]))
    ensures TrimBack(s, IsEdge) == "" || IsLabel(TrimBack(s, IsEdge))
  {
    if s != "" && IsEdge(s[|s| - 1]) { BackTrimmed(s[..|s| - 1]); }
  }

  lemma {:induction false} NothingBad(s: string)
    requires LabelText(s)
    ensures ReplaceRuns(s, IsBad, 1) == s
  {
    if s != "" { NothingBad(s[1..]); }
  }

  lemma {:induction false} NothingToCollapse(s: string)
    requires SeparatorsApart(s)
    ensures ReplaceRuns(s, IsSeparator, 2) == s
    decreases |s|
  {
    if s != "" {
      var n := RunLength(s, IsSeparator);
      assert |s| > 1 ==> !(IsSeparator(s[0]) && IsSeparator(s[1]));
      NothingToCollapse(s[1..]);
    }
  }

  lemma LabelsAreStripped(s: string)
    requires IsLabel(s)
    ensures Strip(s) == s
  {
    StripIsProjection(s);
  }

  /** Whatever the name, and whatever lower-casing does to other characters, the result is in the language. */
  lemma SanitizedIsLabel(name: Option<string>, lower: string -> string)
    ensures IsLabel(Sanitize(name, lower))
  {
    hide Strip, IsLabel, IsBad, IsSeparator, IsEdge, LabelText, SeparatorsApart;
    var raw := lower(Strip(name.GetOr("")));
    var replaced := ReplaceRuns(raw, IsBad, 1);
    BadRunsReplaced(raw);
    SeparatorRunsCollapsed(replaced);
    FrontTrimmed(ReplaceRuns(replaced, IsSeparator, 2));
    BackTrimmed(TrimFront(ReplaceRuns(replaced, IsSeparator, 2), IsEdge));
    UnnamedIsLabel();
  }

  lemma UnnamedIsLabel()
    ensures IsLabel(UNNAMED)
  {
  }

  /** A text of the language is its own label. */
  lemma LabelIsKept(s: string, lower: string -> string)
    requires IsLabel(s) && LeavesLabelText(lower)
    ensures Sanitize(Some(s), lower) == s
  {
    hide Strip;
    LabelsAreStripped(s);
    NothingBad(s);
    NothingToCollapse(s);
    assert TrimFront(s, IsEdge) == s;
  }

  /** The normaliser is a projection: idempotent, and its image is exactly the language. */
  lemma SanitizeIsProjection(name: Option<string>, s: string, lower: string -> string)
    requires LeavesLabelText(lower)
    ensures Sanitize(Some(Sanitize(name, lower)), lower) == Sanitize(name, lower)
    ensures IsLabel(s) <==> exists l :: Sanitize(l, lower) == s
  {
    hide Sanitize, IsLabel;
    SanitizedIsLabel(name, lower);
    LabelIsKept(Sanitize(name, lower), lower);
    if IsLabel(s) { LabelIsKept(s, lower); }
    if l :| Sanitize(l, lower) == s { SanitizedIsLabel(l, lower); }
  }

  // ---- what of a name its label keeps ----

  /** The lower-case letters and digits of a text, in order. */
  function Letters(s: string): string {
    if s == "" then "" else (if IsLabelChar(s[0]) && !IsSeparator(s[0]) then [s[0]] else "") + Letters(s[1..])
  }

  lemma {:induction false} LettersJoined(a: string, b: string)
    ensures Letters(a + b) == Letters(a) + Letters(b)
  {
    hide IsLabelChar, IsSeparator;
    if a == "" {
      assert a + b == b;
    } else {
      LettersJoined(a[1..], b);
      assert (a + b)[1..] == a[1..] + b;
    }
  }

  lemma {:induction false} NoLetters(s: string)
    ensures Letters(s) == "" <==> forall k :: 0 <= k < |s| ==> IsBad(s[k]) || IsSeparator(s[k])
  {
    if s != "" {
      NoLetters(s[1..]);
      assert forall k :: 0 < k < |s| ==> s[k] == s[1..][k - 1];
    }
  }

  lemma {:induction false} RunsHaveNoLetters(s: string, p: char -> bool, least: nat)
    requires forall c :: p(c) ==> IsBad(c) || IsSeparator(c)
    ensures Letters(ReplaceRuns(s, p, least)) == Letters(s)
    decreases |s|
  {
    if s != "" {
      var n := RunLength(s, p);
      if n == 0 {
        RunsHaveNoLetters(s[1..], p, least);
        assert ([s[0]] + ReplaceRuns(s[1..], p, least))[1..] == ReplaceRuns(s[1..], p, least);
      } else {
        RunsHaveNoLetters(s[n..], p, least);
        NoLetters(s[..n]);
        NoLetters("_");
        assert s == s[..n] + s[n..];
        LettersJoined(s[..n], s[n..]);
        LettersJoined(if n >= least then "_" else s[..n], ReplaceRuns(s[n..], p, least));
      }
    }
  }

  lemma {:induction false} FrontKeepsLetters(s: string)
    ensures Letters(TrimFront(s, IsEdge)) == Letters(s)
  {
    if s != "" && IsEdge(s[0]) { FrontKeepsLetters(s[1..]); }
  }

  lemma {:induction false} BackKeepsLetters(s: string)
    ensures Letters(TrimBack(s, IsEdge)) == Letters(s)
  {
    hide Letters;
    if s != "" && IsEdge(s[|s| - 1]) {
      var n := |s| - 1;
      BackKeepsLetters(s[..n]);
      assert s == s[..n] + [s[n]];
      LettersJoined(s[..n], [s[n]]);
      NoLetters([s[n]]);
    }
  }

  /** The label has exactly the letters and digits of the lower-cased name, in order; without any it is the fallback. */
  lemma LettersAreKept(name: Option<string>, lower: string -> string)
    ensures var letters := Letters(lower(Strip(name.GetOr(""))));
      && (letters != "" ==> Letters(Sanitize(name, lower)) == letters)
      && (letters == "" ==> Sanitize(name, lower) == UNNAMED)
  {
    hide Strip, ReplaceRuns, TrimFront, TrimBack;
    var raw := lower(Strip(name.GetOr("")));
    var replaced := ReplaceRuns(raw, IsBad, 1);
    var collapsed := ReplaceRuns(replaced, IsSeparator, 2);
    var front := TrimFront(collapsed, IsEdge);
    RunsHaveNoLetters(raw, IsBad, 1);
    RunsHaveNoLetters(replaced, IsSeparator, 2);
    FrontKeepsLetters(collapsed);
    BackKeepsLetters(front);
    BadRunsReplaced(raw);
    SeparatorRunsCollapsed(replaced);
    FrontTrimmed(collapsed);
    BackTrimmed(front);
    NoLetters(TrimBack(front, IsEdge));
  }

  // ---- the staging path ----

  /** The parts of a relative path text; empty parts and single dots are dropped. */
  function Parts(text: string): seq<string> {
    if text == "" then []
    else
      var n := RunLength(text, NoSlash);
      var rest := if n < |text| then Parts(text[n + 1..]) else [];
      (if n == 0 || text[..n] == "." then [] else [text[..n]]) + rest
  }

  predicate NoSlash(c: char) {
    c != '/'
  }

  /** Joining a text to a root: an absolute text replaces the root. */
  function Join(root: seq<string>, text: string): seq<string> {
    if text != "" && text[0] == '/' then Parts(text) else root + Parts(text)
  }

  /** The staging path is the exports root and one more component, which is not a parent reference. */
  lemma StagingPathIsOneBelow(root: seq<string>, name: Option<string>, lower: string -> string)
    ensures Join(root, Sanitize(name, lower)) == root + [Sanitize(name, lower)]
    ensures Sanitize(name, lower) != ".."
  {
    hide Sanitize;
    SanitizedIsLabel(name, lower);
    LabelIsOnePart(Sanitize(name, lower));
  }

  lemma LabelIsOnePart(s: string)
    requires IsLabel(s)
    ensures Parts(s) == [s] && s[0] != '/' && s != ".."
  {
    assert IsLabelChar(s[0]);
    var n := RunLength(s, NoSlash);
    assert n < |s| ==> IsLabelChar(s[n]);
    assert s[..n] == s;
  }
}
