/**
 Marker-block replacement (`_replace_marker` in src/development_conveyor/feature_decisions.py):
 every marked block is cut out and the new block is appended at the end of the text.
 The two markers are a parameter; `CONTROLLER_MARKERS` are the ones in use.
 */
module Markers {
  import opened Prelude
  import opened Text

  datatype Markers = Markers(begin: string, end: string)

  const CONTROLLER_MARKERS: Markers := Markers(
    "<!-- CONVEYOR_FEATURE_" + "DECISION_RESOLUTION_" + "BEGIN -->",
    "<!-- CONVEYOR_FEATURE_" + "DECISION_RESOLUTION_" + "END -->")

  /** One line each, told apart by their text, opened by a character that occurs nowhere else in them. */
  ghost predicate Proper(m: Markers) {
    && |m.begin| >= 2 && |m.end| >= 2
    && m.begin[0] == m.end[0]
    && (forall i :: 0 < i < |m.begin| ==> m.begin[i] != m.begin[0])
    && (forall i :: 0 < i < |m.end| ==> m.end[i] != m.end[0])
    && '\n' !in m.begin && '\n' !in m.end
    && !(m.begin <= m.end) && !(m.end <= m.begin)
    && !IsSpace(m.begin[|m.begin| - 1]) && !IsSpace(m.end[|m.end| - 1])
  }

  // ---------------------------------------------------------------- the substitution

  predicate At(text: string, mark: string, i: int) {
    0 <= i && i + |mark| <= |text| && text[i..i + |mark|] == mark
  }

  /** The first occurrence at or after `from`. */
  function Find(text: string, mark: string, from: nat): (r: Option<nat>)
    ensures r.Some? ==> from <= r.value && At(text, mark, r.value)
    ensures r.Some? ==> forall i :: from <= i < r.value ==> !At(text, mark, i)
    ensures r.None? ==> forall i :: from <= i ==> !At(text, mark, i)
    decreases |text| - from
  {
    if from + |mark| > |text| then None
    else if At(text, mark, from) then Some(from)
    else if from == |text| then None
    else Find(text, mark, from + 1)
  }

  /** The leftmost match of `\n?BEGIN.*?END\n?` as its start and stop positions. */
  function FirstMatch(m: Markers, text: string): (r: Option<(nat, nat)>)
    ensures r.Some? ==> r.value.0 < r.value.1 <= |text| || |m.begin| == 0
    ensures r.Some? ==> r.value.0 <= |text| && r.value.1 <= |text|
  {
    match Find(text, m.begin, 0)
    case None => None
    case Some(b) =>
      match Find(text, m.end, b + |m.begin|)
      case None => None
      case Some(e) =>
        var start := if b > 0 && text[b - 1] == '\n' then b - 1 else b;
        var stop := e + |m.end|;
        Some((start, if stop < |text| && text[stop] == '\n' then stop + 1 else stop))
  }

  /** `pattern.sub("\n", text)`. */
  function Cut(m: Markers, text: string): string
    requires m.begin != ""
    decreases |text|
  {
    match FirstMatch(m, text)
    case None => text
    case Some((start, stop)) => text[..start] + "\n" + Cut(m, text[stop..])
  }

  function RStrip(s: string): string {
    DropTrailing(s, IsSpace)
  }

  function ReplaceMarker(m: Markers, text: string, block: string): string
    requires m.begin != ""
  {
    RStrip(Cut(m, text)) + "\n\n" + RStrip(block) + "\n"
  }

  // ---------------------------------------------------------------- what a text and a block may hold

  ghost predicate HasBegin(m: Markers, text: string) {
    exists i :: At(text, m.begin, i)
  }

  ghost predicate ClosedAt(m: Markers, text: string, i: int) {
    exists j :: i + |m.begin| <= j && At(text, m.end, j)
  }

  /** Some begin marker has no later end marker. */
  ghost predicate Dangling(m: Markers, text: string) {
    exists i :: At(text, m.begin, i) && !ClosedAt(m, text, i)
  }

  /** A block holds its markers only at its two ends. */
  ghost predicate IsBlock(m: Markers, block: string) {
    var k := RStrip(block);
    && |k| >= |m.begin| + |m.end|
    && (forall i :: At(k, m.begin, i) <==> i == 0)
    && (forall j :: j >= |m.begin| ==> (At(k, m.end, j) <==> j == |k| - |m.end|))
  }

  // ---------------------------------------------------------------- lemmas

  ghost predicate Tail(s: string) {
    forall i :: 0 <= i < |s| ==> s[i] != '<' && s[i] != '\n'
  }

  lemma StemShape(stem: string, middle: string)
    requires stem == "<!-- CONVEYOR_FEATURE_" && middle == "DECISION_RESOLUTION_"
    ensures |stem| == 22 && stem[0] == '<' && Tail(stem[1..])
    ensures |middle| == 20 && Tail(middle)
  {
  }

  lemma EndingShape(begin: string, end: string)
    requires begin == "BEGIN -->" && end == "END -->"
    ensures |begin| == 9 && begin[0] == 'B' && begin[8] == '>' && Tail(begin)
    ensures |end| == 7 && end[0] == 'E' && end[6] == '>' && Tail(end)
  {
  }

  lemma MarkerShape(stem: string, middle: string, ending: string)
    requires |stem| == 22 && stem[0] == '<' && Tail(stem[1..]) && |middle| == 20 && Tail(middle)
    requires |ending| > 0 && Tail(ending)
    ensures var s := stem + middle + ending;
      && s[0] == '<' && s[42] == ending[0] && s[|s| - 1] == ending[|ending| - 1] && |s| == 42 + |ending|
      && forall i :: 0 < i < |s| ==> s[i] != '<' && s[i] != '\n'
  {
    forall i | 0 < i < 22 ensures stem[i] != '<' && stem[i] != '\n' {
      assert stem[1..][i - 1] == stem[i];
    }
  }

  lemma ProperByShape(m: Markers)
    requires |m.begin| == 51 && m.begin[0] == '<' && m.begin[42] == 'B' && m.begin[50] == '>'
    requires forall i :: 0 < i < |m.begin| ==> m.begin[i] != '<' && m.begin[i] != '\n'
    requires |m.end| == 49 && m.end[0] == '<' && m.end[42] == 'E' && m.end[48] == '>'
    requires forall i :: 0 < i < |m.end| ==> m.end[i] != '<' && m.end[i] != '\n'
    ensures Proper(m)
  {
  }

  /** The markers in use are proper. */
  lemma ControllerMarkersProper()
    ensures Proper(CONTROLLER_MARKERS)
  {
    hide Proper, Tail;
    StemShape("<!-- CONVEYOR_FEATURE_", "DECISION_RESOLUTION_");
    EndingShape("BEGIN -->", "END -->");
    MarkerShape("<!-- CONVEYOR_FEATURE_", "DECISION_RESOLUTION_", "BEGIN -->");
    MarkerShape("<!-- CONVEYOR_FEATURE_", "DECISION_RESOLUTION_", "END -->");
    ProperByShape(CONTROLLER_MARKERS);
  }

  lemma AtSuffix(text: string, mark: string, from: nat, i: int)
    requires from <= |text| && 0 <= i
    ensures At(text[from..], mark, i) <==> At(text, mark, from + i)
  {
    if i + |mark| <= |text| - from {
      assert text[from..][i..i + |mark|] == text[from + i..from + i + |mark|];
    }
  }

  lemma AtPrefix(text: string, mark: string, to: nat, i: int)
    requires to <= |text|
    ensures At(text[..to], mark, i) <==> At(text, mark, i) && i + |mark| <= to
  {
    if 0 <= i && i + |mark| <= to {
      assert text[..to][i..i + |mark|] == text[i..i + |mark|];
    }
  }

  lemma AtChar(text: string, mark: string, i: int, k: nat)
    requires At(text, mark, i) && k < |mark|
    ensures text[i + k] == mark[k]
  {
    assert text[i..i + |mark|][k] == text[i + k];
  }

  /** A marker without a line feed cannot straddle one. */
  lemma AtAroundNewline(left: string, right: string, mark: string, i: int)
    requires '\n' !in mark && mark != ""
    ensures At(left + "\n" + right, mark, i) <==> At(left, mark, i) || At(right, mark, i - |left| - 1)
  {
    var text := left + "\n" + right;
    assert text[..|left|] == left;
    assert text[|left| + 1..] == right;
    AtPrefix(text, mark, |left|, i);
    if i > |left| {
      AtSuffix(text, mark, |left| + 1, i - |left| - 1);
    }
    if At(text, mark, i) && i <= |left| < i + |mark| {
      AtChar(text, mark, i, |left| - i);
    }
  }

  lemma FirstMatchParts(m: Markers, text: string) returns (b: nat, e: nat)
    requires Proper(m) && FirstMatch(m, text).Some?
    ensures At(text, m.begin, b) && forall i :: i < b ==> !At(text, m.begin, i)
    ensures b + |m.begin| <= e && At(text, m.end, e)
    ensures var (start, stop) := FirstMatch(m, text).value;
      && 0 < stop
      && (start == b || (start == b - 1 && text[start] == '\n'))
      && (stop == e + |m.end| || (stop == e + |m.end| + 1 && text[stop - 1] == '\n'))
      && stop <= |text|
  {
    b := Find(text, m.begin, 0).value;
    e := Find(text, m.end, b + |m.begin|).value;
  }

  lemma ClosedSuffix(m: Markers, text: string, stop: nat)
    requires stop <= |text| && !Dangling(m, text)
    ensures !Dangling(m, text[stop..])
  {
    var rest := text[stop..];
    forall i | At(rest, m.begin, i) ensures ClosedAt(m, rest, i) {
      AtSuffix(text, m.begin, stop, i);
      assert ClosedAt(m, text, stop + i);
      var j :| stop + i + |m.begin| <= j && At(text, m.end, j);
      AtSuffix(text, m.end, stop, j - stop);
    }
  }

  lemma NoBeginAroundNewline(m: Markers, left: string, right: string)
    requires Proper(m) && !HasBegin(m, left) && !HasBegin(m, right)
    ensures !HasBegin(m, left + "\n" + right)
  {
    hide At;
    forall i ensures !At(left + "\n" + right, m.begin, i) {
      AtAroundNewline(left, right, m.begin, i);
    }
  }

  lemma NoBeginBefore(m: Markers, text: string, start: nat, b: nat)
    requires Proper(m) && start <= |text| && start <= b
    requires forall i :: i < b ==> !At(text, m.begin, i)
    ensures !HasBegin(m, text[..start])
  {
    forall i ensures !At(text[..start], m.begin, i) {
      AtPrefix(text, m.begin, start, i);
    }
  }

  lemma NoMatchNoBegin(m: Markers, text: string)
    requires m.begin != "" && FirstMatch(m, text).None? && !Dangling(m, text)
    ensures !HasBegin(m, text)
  {
    var begin := Find(text, m.begin, 0);
    assert begin.Some? ==> !ClosedAt(m, text, begin.value);
    forall i ensures !At(text, m.begin, i) {
    }
  }

  /** If every begin marker is closed, cutting leaves no begin marker. */
  lemma {:induction false} CutCleans(m: Markers, text: string)
    requires Proper(m) && !Dangling(m, text)
    ensures !HasBegin(m, Cut(m, text))
    decreases |text|
  {
    hide Proper, At;
    NotEmptyMarkers(m);
    if FirstMatch(m, text).None? {
      NoMatchNoBegin(m, text);
    } else {
      var (start, stop) := FirstMatch(m, text).value;
      var b, e := FirstMatchParts(m, text);
      ClosedSuffix(m, text, stop);
      CutCleans(m, text[stop..]);
      NoBeginBefore(m, text, start, b);
      NoBeginAroundNewline(m, text[..start], Cut(m, text[stop..]));
    }
  }

  lemma SamePlace(text: string, a: string, b: string, i: int)
    requires At(text, a, i) && At(text, b, i)
    ensures a <= b || b <= a
  {
    var n := if |a| <= |b| then |a| else |b|;
    assert text[i..i + n] == text[i..i + |a|][..n] == text[i..i + |b|][..n];
  }

  /** Two marker occurrences never overlap. */
  lemma NoOverlap(m: Markers, text: string, i: int, e: int)
    requires Proper(m) && At(text, m.begin, i) && At(text, m.end, e) && e < i + |m.begin|
    ensures e + |m.end| <= i
  {
    hide At;
    AtChar(text, m.begin, i, 0);
    AtChar(text, m.end, e, 0);
    if i < e {
      AtChar(text, m.begin, i, e - i);
    } else if i == e {
      SamePlace(text, m.begin, m.end, i);
    } else if i < e + |m.end| {
      AtChar(text, m.end, e, i - e);
    }
  }

  lemma BeginBehindNewline(m: Markers, left: string, right: string)
    requires Proper(m) && HasBegin(m, right)
    ensures HasBegin(m, left + "\n" + right)
  {
    var k :| At(right, m.begin, k);
    AtAroundNewline(left, right, m.begin, k + |left| + 1);
    assert At(left + "\n" + right, m.begin, k + |left| + 1);
  }

  /** A dangling begin marker lies wholly behind any end marker that does not close it. */
  lemma OpenAfterCut(m: Markers, text: string, i: int, e: int)
    requires Proper(m) && At(text, m.begin, i) && !ClosedAt(m, text, i) && At(text, m.end, e)
    ensures e + |m.end| <= i < |text| && text[i] != '\n'
  {
    assert e < i + |m.begin|;
    NoOverlap(m, text, i, e);
    AtChar(text, m.begin, i, 0);
    assert m.begin[0] in m.begin;
  }

  lemma DanglingSuffix(m: Markers, text: string, stop: nat, i: int)
    requires stop <= i && stop <= |text| && At(text, m.begin, i) && !ClosedAt(m, text, i)
    ensures Dangling(m, text[stop..])
  {
    var rest := text[stop..];
    AtSuffix(text, m.begin, stop, i - stop);
    forall j | i - stop + |m.begin| <= j ensures !At(rest, m.end, j) {
      if 0 <= j { AtSuffix(text, m.end, stop, j); }
    }
    assert !ClosedAt(m, rest, i - stop);
  }

  /** A begin marker that is never closed survives every cut. */
  lemma {:induction false} DanglingSurvives(m: Markers, text: string)
    requires Proper(m) && Dangling(m, text)
    ensures HasBegin(m, Cut(m, text))
    decreases |text|
  {
    hide Proper, FirstMatch, ClosedAt, At;
    NotEmptyMarkers(m);
    var i :| At(text, m.begin, i) && !ClosedAt(m, text, i);
    if FirstMatch(m, text).Some? {
      var (start, stop) := FirstMatch(m, text).value;
      var b, e := FirstMatchParts(m, text);
      OpenAfterCut(m, text, i, e);
      var rest := text[stop..];
      DanglingSuffix(m, text, stop, i);
      DanglingSurvives(m, rest);
      BeginBehindNewline(m, text[..start], Cut(m, rest));
    }
  }

  lemma RStripPrefix(s: string)
    ensures RStrip(s) <= s && RStrip(RStrip(s)) == RStrip(s)
    ensures forall i :: |RStrip(s)| <= i < |s| ==> IsSpace(s[i])
  {
    DropTrailingIsPrefix(s, IsSpace);
  }

  /** Stripping the end neither adds nor removes a begin marker. */
  lemma RStripKeepsBegin(m: Markers, s: string)
    requires Proper(m)
    ensures HasBegin(m, RStrip(s)) <==> HasBegin(m, s)
  {
    RStripPrefix(s);
    var n := |RStrip(s)|;
    forall i ensures At(RStrip(s), m.begin, i) <==> At(s, m.begin, i) {
      AtPrefix(s, m.begin, n, i);
      if At(s, m.begin, i) {
        assert s[i + |m.begin| - 1] == m.begin[|m.begin| - 1];
      }
    }
  }

  lemma RStripBlankLines(s: string)
    requires RStrip(s) == s
    ensures RStrip(s + "\n\n") == s
  {
    DropTrailingPadded(s, "\n\n", IsSpace);
  }

  ghost function Sheet(base: string, k: string): string {
    base + "\n\n" + k + "\n"
  }

  /** Where a mark occurs in `base`, blank line, block, line feed. */
  lemma SheetAt(base: string, k: string, mark: string, i: int)
    requires '\n' !in mark && mark != ""
    ensures At(Sheet(base, k), mark, i) <==> At(base, mark, i) || At(k, mark, i - |base| - 2)
  {
    hide At;
    assert Sheet(base, k) == base + "\n" + ("" + "\n" + (k + "\n" + ""));
    AtAroundNewline(base, "" + "\n" + (k + "\n" + ""), mark, i);
    AtAroundNewline("", k + "\n" + "", mark, i - |base| - 1);
    AtAroundNewline(k, "", mark, i - |base| - 2);
    NeverInEmpty(mark, i - |base| - 1);
    NeverInEmpty(mark, i - |base| - 2 - |k| - 1);
  }

  lemma NeverInEmpty(mark: string, i: int)
    requires mark != ""
    ensures !At("", mark, i)
  {
  }

  lemma AtFits(text: string, mark: string, i: int)
    requires At(text, mark, i)
    ensures 0 <= i && i + |mark| <= |text|
  {
  }

  /** Where the markers of `base`, blank line, block, line feed are. */
  lemma SheetMarks(m: Markers, base: string, block: string, i: int)
    requires Proper(m) && IsBlock(m, block)
    ensures var k := RStrip(block);
      && (At(Sheet(base, k), m.begin, i) <==> At(base, m.begin, i) || i == |base| + 2)
      && (i >= |base| + 2 + |m.begin| ==> (At(Sheet(base, k), m.end, i) <==> i == |base| + 2 + |k| - |m.end|))
  {
    hide At, RStrip, Sheet;
    var k := RStrip(block);
    NotEmptyMarkers(m);
    SheetAt(base, k, m.begin, i);
    SheetAt(base, k, m.end, i);
    if At(base, m.end, i) {
      AtFits(base, m.end, i);
    }
  }

  lemma FindAt(text: string, mark: string, from: nat, i: nat)
    requires from <= i && forall j :: from <= j ==> (At(text, mark, j) <==> j == i)
    ensures Find(text, mark, from) == Some(i)
  {
    hide At;
    assert At(text, mark, i);
  }

  lemma SheetMatch(m: Markers, base: string, block: string)
    requires Proper(m) && IsBlock(m, block) && !HasBegin(m, base)
    ensures var text := Sheet(base, RStrip(block));
      |text| > |base| + 1 && FirstMatch(m, text) == Some((|base| + 1, |text|))
  {
    hide At, Find, Proper;
    NotEmptyMarkers(m);
    var k := RStrip(block);
    var text := Sheet(base, k);
    forall i ensures At(text, m.begin, i) <==> i == |base| + 2 {
      SheetMarks(m, base, block, i);
    }
    forall j | j >= |base| + 2 + |m.begin|
      ensures At(text, m.end, j) <==> j == |base| + 2 + |k| - |m.end|
    {
      SheetMarks(m, base, block, j);
    }
    FindAt(text, m.begin, 0, |base| + 2);
    FindAt(text, m.end, |base| + 2 + |m.begin|, |base| + 2 + |k| - |m.end|);
    assert text[|base| + 1] == '\n' && text[|text| - 1] == '\n';
  }

  lemma CutNothing(m: Markers)
    requires Proper(m)
    ensures Cut(m, "") == ""
  {
    assert Find("", m.begin, 0).None?;
  }

  /** Cutting a sheet whose base has no begin marker leaves the base and two line feeds. */
  lemma CutSheet(m: Markers, base: string, block: string)
    requires Proper(m) && IsBlock(m, block) && !HasBegin(m, base)
    ensures Cut(m, Sheet(base, RStrip(block))) == base + "\n\n"
  {
    hide FirstMatch, IsBlock, HasBegin, RStrip;
    SheetMatch(m, base, block);
    CutNothing(m);
    var text := Sheet(base, RStrip(block));
    assert text[|text|..] == "";
    assert text[..|base| + 1] == base + "\n";
    assert base + "\n" + "\n" + "" == base + "\n\n";
  }

  /** Every begin marker of a sheet is closed by the block at its end. */
  lemma SheetCloses(m: Markers, base: string, block: string)
    requires Proper(m) && IsBlock(m, block)
    ensures !Dangling(m, Sheet(base, RStrip(block)))
  {
    var k := RStrip(block);
    var text := Sheet(base, k);
    var j := |base| + 2 + |k| - |m.end|;
    SheetMarks(m, base, block, j);
    forall i | At(text, m.begin, i) ensures ClosedAt(m, text, i) {
      SheetMarks(m, base, block, i);
      assert i + |m.begin| <= j && At(text, m.end, j);
    }
  }

  /**
   Replacement is last-write-wins exactly on the texts in which every begin marker has a
   later end marker: a dangling begin marker makes the second replacement swallow old text.
   */
  lemma LastWriteWins(m: Markers, text: string, first: string, second: string)
    requires Proper(m) && IsBlock(m, first) && IsBlock(m, second)
    ensures ReplaceMarker(m, ReplaceMarker(m, text, first), second) == ReplaceMarker(m, text, second)
            <==> !Dangling(m, text)
  {
    hide Cut, RStrip, IsBlock, Proper, Dangling, HasBegin;
    NotEmptyMarkers(m);
    var base := RStrip(Cut(m, text));
    RStripPrefix(Cut(m, text));
    RStripKeepsBegin(m, Cut(m, text));
    var sheet := Sheet(base, RStrip(first));
    assert ReplaceMarker(m, text, first) == sheet;
    assert ReplaceMarker(m, text, second) == Sheet(base, RStrip(second));
    assert ReplaceMarker(m, sheet, second) == Sheet(RStrip(Cut(m, sheet)), RStrip(second));
    if Dangling(m, text) {
      DanglingSurvives(m, text);
      SheetCloses(m, base, first);
      CutCleans(m, sheet);
      RStripKeepsBegin(m, Cut(m, sheet));
      SheetInjective(base, RStrip(Cut(m, sheet)), RStrip(second));
    } else {
      CutCleans(m, text);
      CutSheet(m, base, first);
      RStripBlankLines(base);
    }
  }

  /** The smallest such text: a bare begin marker, whatever the two blocks are. */
  lemma BareBeginIsSwallowed(m: Markers, first: string, second: string)
    requires Proper(m) && IsBlock(m, first) && IsBlock(m, second)
    ensures ReplaceMarker(m, ReplaceMarker(m, m.begin, first), second) != ReplaceMarker(m, m.begin, second)
  {
    assert Dangling(m, m.begin) by {
      assert At(m.begin, m.begin, 0);
      assert !ClosedAt(m, m.begin, 0);
    }
    hide Cut, RStrip, IsBlock, Proper, Dangling;
    LastWriteWins(m, m.begin, first, second);
  }

  lemma NotEmptyMarkers(m: Markers)
    requires Proper(m)
    ensures m.begin != ""
  {
  }

  lemma SheetInjective(a: string, b: string, k: string)
    ensures Sheet(a, k) == Sheet(b, k) <==> a == b
  {
    if Sheet(a, k) == Sheet(b, k) {
      assert |a| == |b|;
      assert Sheet(a, k)[..|a|] == a && Sheet(b, k)[..|b|] == b;
    }
  }

  /**
   On a text without dangling begin marker the result holds exactly one block, at its end,
   and replacing by the same block again changes nothing.
   */
  lemma OneBlockAtEnd(m: Markers, text: string, block: string)
    requires Proper(m) && IsBlock(m, block) && !Dangling(m, text)
    ensures var result := ReplaceMarker(m, text, block);
      && |result| >= |RStrip(block)| + 1
      && result[|result| - 1 - |RStrip(block)|..] == RStrip(block) + "\n"
      && (forall i :: At(result, m.begin, i) <==> i == |result| - 1 - |RStrip(block)|)
      && ReplaceMarker(m, result, block) == result
  {
    LastWriteWins(m, text, block, block);
    hide Cut, RStrip, IsBlock, Proper, Dangling;
    var base := RStrip(Cut(m, text));
    CutCleans(m, text);
    RStripKeepsBegin(m, Cut(m, text));
    var result := ReplaceMarker(m, text, block);
    assert result == Sheet(base, RStrip(block));
    forall i ensures At(result, m.begin, i) <==> i == |base| + 2 {
      SheetMarks(m, base, block, i);
    }
  }
}
