/**
 The fragment of Python's `str` that the controller relies on: white space, `strip`,
 `splitlines`, `split`/`join` on one character, code-point order and `sorted`.
 A `char` is a Unicode scalar value, so lone surrogates do not occur.
 */
module Text {

  // ---------------------------------------------------------------- white space

  /** `str.isspace` of a single character, by code point. */
  predicate IsSpace(c: char) {
    var n := c as int;
    || 0x09 <= n <= 0x0d || 0x1c <= n <= 0x20 || n == 0x85 || n == 0xa0 || n == 0x1680
    || 0x2000 <= n <= 0x200a || n == 0x2028 || n == 0x2029 || n == 0x202f || n == 0x205f || n == 0x3000
  }

  /** The characters at which `str.splitlines` breaks a line, by code point. */
  predicate IsLineBreak(c: char) {
    var n := c as int;
    0x0a <= n <= 0x0d || 0x1c <= n <= 0x1e || n == 0x85 || n == 0x2028 || n == 0x2029
  }

  /** `[ \t]` of the regular expressions. */
  predicate IsBlank(c: char) {
    c == ' ' || c == '\t'
  }

  ghost predicate Without(s: string, p: char -> bool) {
    forall i :: 0 <= i < |s| ==> !p(s[i])
  }

  /** No line break inside `s`, so `s` is one line for `splitlines`. */
  ghost predicate SingleLine(s: string) {
    Without(s, IsLineBreak)
  }

  function DropLeading(s: string, p: char -> bool): (r: string)
    ensures |r| <= |s|
  {
    if s != "" && p(s[0]) then DropLeading(s[1..], p) else s
  }

  function DropTrailing(s: string, p: char -> bool): (r: string)
    ensures |r| <= |s|
  {
    if s != "" && p(s[|s| - 1]) then DropTrailing(s[..|s| - 1], p) else s
  }

  lemma {:induction false} DropLeadingIsSuffix(s: string, p: char -> bool)
    ensures var r := DropLeading(s, p);
      && r == s[|s| - |r|..] && (r != "" ==> !p(r[0])) && forall i :: 0 <= i < |s| - |r| ==> p(s[i])
  {
    if s != "" && p(s[0]) {
      DropLeadingIsSuffix(s[1..], p);
    }
  }

  lemma {:induction false} DropTrailingIsPrefix(s: string, p: char -> bool)
    ensures var r := DropTrailing(s, p);
      && r == s[..|r|] && (r != "" ==> !p(r[|r| - 1])) && forall i :: |r| <= i < |s| ==> p(s[i])
  {
    if s != "" && p(s[|s| - 1]) {
      DropTrailingIsPrefix(s[..|s| - 1], p);
    }
  }

  /** Trimmed at both ends of the characters of class `p`. */
  function Trim(s: string, p: char -> bool): (r: string)
  {
    DropTrailing(DropLeading(s, p), p)
  }

  /** A trim result is an infix of its text that neither starts nor ends in the class. */
  lemma TrimIsTrimmed(s: string, p: char -> bool)
    ensures Trimmed(Trim(s, p), p)
    ensures exists a, b :: 0 <= a <= b <= |s| && Trim(s, p) == s[a..b]
    ensures Trim(s, p) == "" ==> forall i :: 0 <= i < |s| ==> p(s[i])
  {
    var l := DropLeading(s, p);
    DropLeadingIsSuffix(s, p);
    var r := DropTrailing(l, p);
    DropTrailingIsPrefix(l, p);
    var a := |s| - |l|;
    assert r == s[a..a + |r|];
  }

  predicate Trimmed(s: string, p: char -> bool) {
    s != "" ==> !p(s[0]) && !p(s[|s| - 1])
  }

  /** `str.strip()`. */
  function Strip(s: string): string {
    Trim(s, IsSpace)
  }

  lemma TrimKeepsTrimmed(s: string, p: char -> bool)
    requires Trimmed(s, p)
    ensures Trim(s, p) == s
  {
  }

  lemma {:induction false} DropLeadingPadded(front: string, rest: string, p: char -> bool)
    requires forall i :: 0 <= i < |front| ==> p(front[i])
    ensures DropLeading(front + rest, p) == DropLeading(rest, p)
  {
    if front == "" {
      assert front + rest == rest;
    } else {
      assert (front + rest)[1..] == front[1..] + rest;
      DropLeadingPadded(front[1..], rest, p);
    }
  }

  lemma {:induction false} DropTrailingPadded(rest: string, back: string, p: char -> bool)
    requires forall i :: 0 <= i < |back| ==> p(back[i])
    ensures DropTrailing(rest + back, p) == DropTrailing(rest, p)
  {
    if back == "" {
      assert rest + back == rest;
    } else {
      var s := rest + back;
      assert s[..|s| - 1] == rest + back[..|back| - 1];
      DropTrailingPadded(rest, back[..|back| - 1], p);
    }
  }

  /** Leading and trailing characters of the class around a trimmed core do not matter. */
  lemma TrimPadded(front: string, core: string, back: string, p: char -> bool)
    requires forall i :: 0 <= i < |front| ==> p(front[i])
    requires forall i :: 0 <= i < |back| ==> p(back[i])
    requires Trimmed(core, p)
    ensures Trim(front + core + back, p) == core
  {
    assert front + core + back == front + (core + back);
    DropLeadingPadded(front, core + back, p);
    if core == "" {
      assert core + back == back + "";
      DropLeadingPadded(back, "", p);
    } else {
      DropTrailingPadded(core, back, p);
    }
  }

  // ---------------------------------------------------------------- lines

  /** The position of the first line break, or the length of `s`. */
  function LineLength(s: string): (k: nat)
    ensures k <= |s|
    ensures SingleLine(s[..k])
    ensures k < |s| ==> IsLineBreak(s[k])
  {
    if s == "" || IsLineBreak(s[0]) then 0
    else
      var k := 1 + LineLength(s[1..]);
      assert forall i :: 0 < i < k ==> s[..k][i] == s[1..][..k - 1][i - 1];
      k
  }

  /** `str.splitlines()`; CR LF counts as one break. */
  function SplitLines(s: string): (lines: seq<string>)
    ensures forall i :: 0 <= i < |lines| ==> SingleLine(lines[i])
    decreases |s|
  {
    if s == "" then []
    else
      var k := LineLength(s);
      if k == |s| then
        assert s[..k] == s;
        [s]
      else
        var width := if s[k] == '\r' && k + 1 < |s| && s[k + 1] == '\n' then 2 else 1;
        [s[..k]] + SplitLines(s[k + width..])
  }

  /** Every line followed by LF. */
  function Unlines(lines: seq<string>): string {
    if lines == [] then "" else lines[0] + "\n" + Unlines(lines[1..])
  }

  lemma FirstLine(s: string, k: nat)
    requires k < |s| && LineLength(s) == k && s[k] == '\n'
    ensures SplitLines(s) == [s[..k]] + SplitLines(s[k + 1..])
  {
    hide LineLength, SingleLine;
  }

  lemma {:induction false} SplitLinesUnlines(lines: seq<string>)
    requires forall i :: 0 <= i < |lines| ==> SingleLine(lines[i])
    ensures SplitLines(Unlines(lines)) == lines
  {
    hide LineLength, SingleLine, SplitLines;
    if lines == [] {
      NoLines();
    } else {
      var head, tail := lines[0], Unlines(lines[1..]);
      var s := head + "\n" + tail;
      LineLengthOf(head, tail);
      FirstLine(s, |head|);
      assert s[..|head|] == head;
      assert s[|head| + 1..] == tail;
      SplitLinesUnlines(lines[1..]);
      assert [head] + lines[1..] == lines;
    }
  }

  lemma NoLines()
    ensures SplitLines("") == []
  {
  }

  lemma {:induction false} LineLengthOf(head: string, tail: string)
    requires SingleLine(head)
    ensures LineLength(head + "\n" + tail) == |head|
  {
    var s := head + "\n" + tail;
    if head != "" {
      assert head[0] == s[0];
      assert s[1..] == head[1..] + "\n" + tail;
      LineLengthOf(head[1..], tail);
    }
  }

  // ---------------------------------------------------------------- split and join

  /** `text.split(sep)` for a one-character separator. */
  function Split(text: string, sep: char): (parts: seq<string>)
    ensures |parts| > 0
    ensures forall i :: 0 <= i < |parts| ==> sep !in parts[i]
  {
    if text == "" then [""]
    else
      var rest := Split(text[1..], sep);
      if text[0] == sep then [""] + rest else [[text[0]] + rest[0]] + rest[1..]
  }

  /** `sep.join(parts)`. */
  function Join(parts: seq<string>, sep: string): string {
    if parts == [] then ""
    else if |parts| == 1 then parts[0]
    else parts[0] + sep + Join(parts[1..], sep)
  }

  lemma {:induction false} JoinSplit(text: string, sep: char)
    ensures Join(Split(text, sep), [sep]) == text
  {
    if text != "" {
      JoinSplit(text[1..], sep);
      var rest := Split(text[1..], sep);
      var all := Split(text, sep);
      if text[0] == sep {
        assert all[1..] == rest;
        assert Join(all, [sep]) == "" + [sep] + text[1..];
      } else if |rest| > 1 {
        assert all[1..] == rest[1..];
        assert Join(all, [sep]) == [text[0]] + rest[0] + [sep] + Join(rest[1..], [sep]);
        assert Join(all, [sep]) == [text[0]] + (rest[0] + [sep] + Join(rest[1..], [sep]));
      } else {
        assert Join(all, [sep]) == [text[0]] + rest[0];
      }
    }
  }

  lemma {:induction false} SplitJoin(parts: seq<string>, sep: char)
    requires |parts| > 0
    requires forall i :: 0 <= i < |parts| ==> sep !in parts[i]
    ensures Split(Join(parts, [sep]), sep) == parts
    decreases |parts|, |parts[0]|
  {
    var text := Join(parts, [sep]);
    if parts[0] == "" {
      if |parts| > 1 {
        assert text == [sep] + Join(parts[1..], [sep]);
        assert text[1..] == Join(parts[1..], [sep]);
        SplitJoin(parts[1..], sep);
      }
    } else {
      var fewer := [parts[0][1..]] + parts[1..];
      assert fewer[1..] == parts[1..];
      assert parts[0] == [parts[0][0]] + parts[0][1..];
      assert text == [parts[0][0]] + Join(fewer, [sep]);
      assert text[1..] == Join(fewer, [sep]);
      SplitJoin(fewer, sep);
      assert parts[0][0] in parts[0];
    }
  }

  // ---------------------------------------------------------------- order

  /** Code-point order of strings. */
  predicate StrLe(a: string, b: string) {
    a == "" || (b != "" && (a[0] < b[0] || (a[0] == b[0] && StrLe(a[1..], b[1..]))))
  }

  lemma {:induction false} StrLeTotal(a: string, b: string)
    ensures StrLe(a, b) || StrLe(b, a)
  {
    if a != "" && b != "" && a[0] == b[0] {
      StrLeTotal(a[1..], b[1..]);
    }
  }

  lemma {:induction false} StrLeAntisymmetric(a: string, b: string)
    requires StrLe(a, b) && StrLe(b, a)
    ensures a == b
  {
    if a != "" {
      StrLeAntisymmetric(a[1..], b[1..]);
      assert a == [a[0]] + a[1..] && b == [b[0]] + b[1..];
    }
  }

  lemma {:induction false} StrLeTransitive(a: string, b: string, c: string)
    requires StrLe(a, b) && StrLe(b, c)
    ensures StrLe(a, c)
  {
    if a != "" && a[0] == b[0] == c[0] {
      StrLeTransitive(a[1..], b[1..], c[1..]);
    }
  }

  predicate Sorted(s: seq<string>) {
    forall i, j :: 0 <= i < j < |s| ==> StrLe(s[i], s[j])
  }

  predicate Distinct<T(==)>(s: seq<T>) {
    forall i, j :: 0 <= i < j < |s| ==> s[i] != s[j]
  }

  function Insert(x: string, s: seq<string>): (r: seq<string>)
    ensures multiset(r) == multiset(s) + multiset{x}
  {
    if s == [] || StrLe(x, s[0]) then [x] + s
    else
      assert s == [s[0]] + s[1..];
      [s[0]] + Insert(x, s[1..])
  }

  lemma {:induction false} InsertSorted(x: string, s: seq<string>)
    requires Sorted(s)
    ensures Sorted(Insert(x, s))
  {
    var r := Insert(x, s);
    if s == [] {
    } else if StrLe(x, s[0]) {
      forall j | 0 < j < |r| ensures StrLe(r[0], r[j]) {
        if j > 1 { StrLeTransitive(x, s[0], s[j - 1]); }
      }
    } else {
      StrLeTotal(x, s[0]);
      InsertSorted(x, s[1..]);
      var t := Insert(x, s[1..]);
      forall j | 0 < j < |r| ensures StrLe(r[0], r[j]) {
        assert t[j - 1] in multiset(t);
        if t[j - 1] != x {
          assert t[j - 1] in s[1..];
        }
      }
    }
  }

  /** `sorted(s)`. */
  function Sort(s: seq<string>): (r: seq<string>)
    ensures multiset(r) == multiset(s)
    ensures Sorted(r)
  {
    if s == [] then []
    else
      var t := Sort(s[1..]);
      InsertSorted(s[0], t);
      assert s == [s[0]] + s[1..];
      Insert(s[0], t)
  }

  lemma {:induction false} SortKeepsSorted(s: seq<string>)
    requires Sorted(s)
    ensures Sort(s) == s
  {
    if s != [] {
      SortKeepsSorted(s[1..]);
      assert s == [s[0]] + s[1..];
      if |s| > 1 { assert StrLe(s[0], s[1]); }
    }
  }

  lemma SameMultiset(r: seq<string>, s: seq<string>)
    requires multiset(r) == multiset(s)
    ensures |r| == |s|
    ensures forall x :: x in r <==> x in s
  {
    assert |multiset(r)| == |multiset(s)|;
    forall x ensures x in r <==> x in s {
      assert x in multiset(r) <==> x in multiset(s);
    }
  }

  lemma {:induction false} DistinctByMultiset(r: seq<string>, s: seq<string>)
    requires multiset(r) == multiset(s) && Distinct(s)
    ensures Distinct(r)
  {
    forall i, j | 0 <= i < j < |r| ensures r[i] != r[j] {
      if r[i] == r[j] {
        TwoOccurrences(r, i, j);
        OneOccurrence(s, r[i]);
      }
    }
  }

  lemma TwoOccurrences(r: seq<string>, i: nat, j: nat)
    requires i < j < |r| && r[i] == r[j]
    ensures multiset(r)[r[i]] >= 2
  {
    assert r == r[..j] + [r[j]] + r[j + 1..];
    assert r[..j][i] == r[i];
    assert r[i] in multiset(r[..j]);
  }

  lemma {:induction false} OneOccurrence(s: seq<string>, x: string)
    requires Distinct(s)
    ensures multiset(s)[x] <= 1
  {
    if s != [] {
      OneOccurrence(s[1..], x);
      assert s == [s[0]] + s[1..];
      if x == s[0] {
        assert x !in s[1..];
        assert x !in multiset(s[1..]);
      }
    }
  }

  /** `sorted(set(s))`. */
  function SortedSet(s: seq<string>): (r: seq<string>)
    ensures Sorted(r) && Distinct(r)
    ensures forall x :: x in r <==> x in s
  {
    if s == [] then []
    else
      var t := SortedSet(s[1..]);
      if s[0] in t then t
      else
        var r := Insert(s[0], t);
        InsertSorted(s[0], t);
        InsertFresh(s[0], t);
        r
  }

  lemma InsertFresh(x: string, s: seq<string>)
    requires x !in s && Distinct(s)
    ensures Distinct(Insert(x, s))
    ensures forall y :: y in Insert(x, s) <==> y == x || y in s
  {
    var r := Insert(x, s);
    var l := [x] + s;
    assert multiset(r) == multiset(l);
    DistinctByMultiset(r, l);
    SameMultiset(r, l);
    assert forall y :: y in l <==> y == x || y in s;
  }

  lemma {:induction false} SortedSetFixedPoint(s: seq<string>)
    requires Sorted(s) && Distinct(s)
    ensures SortedSet(s) == s
  {
    if s != [] {
      SortedSetFixedPoint(s[1..]);
      assert s == [s[0]] + s[1..];
      assert s[0] !in s[1..];
      if |s| > 1 { assert StrLe(s[0], s[1]); }
    }
  }
}
