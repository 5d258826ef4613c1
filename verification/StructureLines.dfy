/** Which lines of the manuscript a paragraph is made of, and which chapter and scene it belongs to
    (backend/pipeline/agents/structure_parser.py:104-186), seen from the lines and not from the parser. */
module StructureLines {
  import opened Wrappers
  import opened Text
  import opened StructureParser

  /** A line that ends a paragraph and belongs to none. */
  predicate Ends(p: Patterns, line: string) {
    Strip(line) == "" || IsBreak(p, line) || IsHeading(p, line)
  }

  /** Lines a..b-1 are a whole paragraph: no line among them ends one, and the lines around them do. */
  predicate IsRun(p: Patterns, lines: seq<string>, a: nat, b: nat) {
    && a < b <= |lines|
    && (forall i :: a <= i < b ==> !Ends(p, lines[i]))
    && (a > 0 ==> Ends(p, lines[a-1])) && (b < |lines| ==> Ends(p, lines[b]))
  }

  predicate SaysLines(p: Patterns, lines: seq<string>, a: nat, b: nat, q: Paragraph)
    requires a <= b <= |lines|
  {
    && q.text == Strip(Join(lines[a..b], "\n"))
    && (q.isDialogue <==> p.dialogue(q.text))
    && q.hint == if q.isDialogue then p.attribution(q.text) else None
  }

  function Headings(p: Patterns, lines: seq<string>): nat {
    if lines == [] then 0 else (if IsHeading(p, lines[0]) then 1 else 0) + Headings(p, lines[1..])
  }

  function Breaks(p: Patterns, lines: seq<string>): nat {
    if lines == [] then 0 else (if IsBreak(p, lines[0]) then 1 else 0) + Breaks(p, lines[1..])
  }

  lemma {:induction false} CountsJoin(p: Patterns, a: seq<string>, b: seq<string>)
    ensures Headings(p, a + b) == Headings(p, a) + Headings(p, b)
    ensures Breaks(p, a + b) == Breaks(p, a) + Breaks(p, b)
  {
    hide IsHeading, IsBreak;
    if a == [] {
      assert a + b == b;
    } else {
      assert (a + b)[1..] == a[1..] + b;
      CountsJoin(p, a[1..], b);
    }
  }

  lemma {:induction false} NoneToCount(p: Patterns, lines: seq<string>)
    ensures (forall i :: 0 <= i < |lines| ==> !IsHeading(p, lines[i])) ==> Headings(p, lines) == 0
    ensures (forall i :: 0 <= i < |lines| ==> !IsBreak(p, lines[i])) ==> Breaks(p, lines) == 0
  {
    hide IsHeading, IsBreak;
    if lines != [] {
      NoneToCount(p, lines[1..]);
    }
  }

  lemma CountOne(p: Patterns, line: string)
    ensures Headings(p, [line]) == if IsHeading(p, line) then 1 else 0
    ensures Breaks(p, [line]) == if IsBreak(p, line) then 1 else 0
  {
    hide IsHeading, IsBreak;
    assert [line][1..] == [];
  }

  lemma SliceOfSlice(lines: seq<string>, m: nat, n: nat, a: nat, b: nat)
    requires m <= n <= |lines| && a <= b <= n - m
    ensures lines[m..n][a..b] == lines[m+a..m+b]
  {
    forall i | 0 <= i < b - a ensures lines[m..n][a..b][i] == lines[m+a..m+b][i] {
      assert lines[m..n][a..b][i] == lines[m..n][a+i];
    }
  }

  /** A paragraph of a stretch of lines that stands between lines that end paragraphs. */
  lemma RunShifts(p: Patterns, lines: seq<string>, m: nat, n: nat, a: nat, b: nat, q: Paragraph)
    requires m <= n <= |lines| && IsRun(p, lines[m..n], a, b) && SaysLines(p, lines[m..n], a, b, q)
    requires (m > 0 && a == 0 ==> Ends(p, lines[m-1])) && (n < |lines| ==> Ends(p, lines[n]))
    ensures IsRun(p, lines, m + a, m + b) && SaysLines(p, lines, m + a, m + b, q)
  {
    hide Ends, Join, Strip;
    var part := lines[m..n];
    SliceOfSlice(lines, m, n, a, b);
    forall i | m + a <= i < m + b ensures !Ends(p, lines[i]) { assert lines[i] == part[i-m]; }
    assert a > 0 ==> lines[m+a-1] == part[a-1];
    assert b < |part| ==> lines[m+b] == part[b];
  }

  lemma FirstParagraph(p: Patterns, lines: seq<string>, index: nat, n: nat)
    requires n == NextBlank(lines) > 0
    requires forall i :: 0 <= i < |lines| ==> !IsBreak(p, lines[i]) && !IsHeading(p, lines[i])
    ensures IsRun(p, lines, 0, n)
    ensures SaysLines(p, lines, 0, n, MakeParagraph(p, index, Strip(Join(lines[..n], "\n"))))
  {
    hide Strip, Join, IsBreak, IsHeading;
    assert lines[0..n] == lines[..n];
  }

  lemma {:induction false} ParagraphIsARun(p: Patterns, lines: seq<string>, index: nat, k: nat)
      returns (a: nat, b: nat)
    requires forall i :: 0 <= i < |lines| ==> !IsBreak(p, lines[i]) && !IsHeading(p, lines[i])
    requires k < |ParagraphsOf(p, lines, index)|
    ensures IsRun(p, lines, a, b) && SaysLines(p, lines, a, b, ParagraphsOf(p, lines, index)[k])
    decreases |lines|
  {
    hide IsRun, SaysLines, Strip, Join, IsBreak, IsHeading;
    var n := NextBlank(lines);
    if n == 0 {
      a, b := ParagraphIsARun(p, lines[1..], index, k);
      assert lines[1..] == lines[1..|lines|];
      RunShifts(p, lines, 1, |lines|, a, b, ParagraphsOf(p, lines, index)[k]);
      a, b := a + 1, b + 1;
    } else if k == 0 {
      FirstParagraph(p, lines, index, n);
      a, b := 0, n;
    } else {
      a, b := ParagraphIsARun(p, lines[n..], index + 1, k - 1);
      assert lines[n..] == lines[n..|lines|];
      RunStarts(p, lines[n..], a, b);
      RunShifts(p, lines, n, |lines|, a, b, ParagraphsOf(p, lines, index)[k]);
      a, b := a + n, b + n;
    }
  }

  lemma RunStarts(p: Patterns, lines: seq<string>, a: nat, b: nat)
    requires IsRun(p, lines, a, b)
    ensures lines != [] && (Strip(lines[0]) == "" ==> a > 0)
  {
  }

  /** In the lines of a chapter: the run stands in the scene that counts the breaks before it. */
  lemma {:induction false} SceneParagraphIsARun(p: Patterns, lines: seq<string>, index: nat, s: nat, k: nat)
      returns (a: nat, b: nat)
    requires forall i :: 0 <= i < |lines| ==> !IsHeading(p, lines[i])
    requires s < |ScenesOf(p, lines, index)| && k < |ScenesOf(p, lines, index)[s].paragraphs|
    ensures IsRun(p, lines, a, b) && SaysLines(p, lines, a, b, ScenesOf(p, lines, index)[s].paragraphs[k])
    ensures a <= |lines| && Breaks(p, lines[..a]) == s
    decreases |lines|
  {
    hide IsRun, SaysLines, ParagraphsOf, ScenesOf, IsBreak, IsHeading, Headings, Breaks, Ends;
    var n := NextBreak(p, lines);
    FirstScene(p, lines, index);
    BreakEnds(p, lines, n);
    if s == 0 {
      a, b := ParagraphIsARun(p, lines[..n], 0, k);
      assert lines[0..n] == lines[..n];
      RunShifts(p, lines, 0, n, a, b, ParagraphsOf(p, lines[..n], 0)[k]);
      RunBounds(p, lines[..n], a, b);
      NoneToCount(p, lines[..a]);
    } else {
      var rest := lines[n+1..];
      a, b := SceneParagraphIsARun(p, rest, index + 1, s - 1, k);
      assert lines[n+1..|lines|] == rest;
      RunShifts(p, lines, n + 1, |lines|, a, b, ScenesOf(p, rest, index + 1)[s-1].paragraphs[k]);
      BreaksAfter(p, lines, n, a);
      a, b := n + 1 + a, n + 1 + b;
    }
  }

  lemma FirstScene(p: Patterns, lines: seq<string>, index: nat)
    ensures
      var n := NextBreak(p, lines);
      ScenesOf(p, lines, index) == [Scene(index, ParagraphsOf(p, lines[..n], 0))]
          + (if n < |lines| then ScenesOf(p, lines[n+1..], index + 1) else [])
  {
  }

  lemma BreaksAfter(p: Patterns, lines: seq<string>, n: nat, a: nat)
    requires n == NextBreak(p, lines) < |lines| && a <= |lines| - n - 1
    ensures Breaks(p, lines[..n+1+a]) == 1 + Breaks(p, lines[n+1..][..a])
  {
    hide IsBreak, Headings, Breaks;
    NoneToCount(p, lines[..n]);
    CountOne(p, lines[n]);
    CountsJoin(p, lines[..n], [lines[n]]);
    CountsJoin(p, lines[..n] + [lines[n]], lines[n+1..][..a]);
    assert lines[..n+1+a] == lines[..n] + [lines[n]] + lines[n+1..][..a];
  }

  lemma BreakEnds(p: Patterns, lines: seq<string>, n: nat)
    requires n == NextBreak(p, lines)
    ensures n < |lines| ==> Ends(p, lines[n])
  {
  }

  lemma HeadingEnds(p: Patterns, line: string)
    requires IsHeading(p, line)
    ensures Ends(p, line)
  {
  }

  lemma RunBounds(p: Patterns, lines: seq<string>, a: nat, b: nat)
    requires IsRun(p, lines, a, b)
    ensures a < b <= |lines|
  {
  }

  /** The run belongs to the chapter that line h heads and to the scene that counts the breaks after h. */
  predicate StandsIn(p: Patterns, lines: seq<string>, h: nat, a: nat, c: nat, s: nat, title: string) {
    && h < a <= |lines| && IsHeading(p, lines[h]) && title == Strip(lines[h])
    && (forall i :: h < i < a ==> !IsHeading(p, lines[i]))
    && Headings(p, lines[..a]) == c + 1 && Breaks(p, lines[h+1..a]) == s
  }

  lemma {:induction false} ChapterParagraphIsARun(p: Patterns, lines: seq<string>, number: nat, c: nat, s: nat, k: nat)
      returns (h: nat, a: nat, b: nat)
    requires lines != [] ==> IsHeading(p, lines[0])
    requires c < |ChaptersOf(p, lines, number)| && s < |ChaptersOf(p, lines, number)[c].scenes|
    requires k < |ChaptersOf(p, lines, number)[c].scenes[s].paragraphs|
    ensures IsRun(p, lines, a, b)
    ensures SaysLines(p, lines, a, b, ChaptersOf(p, lines, number)[c].scenes[s].paragraphs[k])
    ensures StandsIn(p, lines, h, a, c, s, ChaptersOf(p, lines, number)[c].title)
    decreases |lines|
  {
    hide IsRun, SaysLines, ScenesOf, ChaptersOf, StandsIn, IsHeading, Headings, Ends, Strip;
    NoChapter(p, number);
    var n := FirstChapter(p, lines, number);
    if c == 0 {
      a, b := SceneParagraphIsARun(p, lines[1..n], 0, s, k);
      RunShifts(p, lines, 1, n, a, b, ScenesOf(p, lines[1..n], 0)[s].paragraphs[k]);
      FirstChapterStands(p, lines, n, a, s);
      h, a, b := 0, 1 + a, 1 + b;
    } else {
      var rest := lines[n..];
      h, a, b := ChapterParagraphIsARun(p, rest, number + 1, c - 1, s, k);
      assert rest == lines[n..|lines|];
      StandsParts(p, rest, h, a, c - 1, s, ChaptersOf(p, rest, number + 1)[c-1].title);
      RunShifts(p, lines, n, |lines|, a, b, ChaptersOf(p, rest, number + 1)[c-1].scenes[s].paragraphs[k]);
      LaterChapterCounts(p, lines, n, a);
      StandsLater(p, lines, n, h, a, c - 1, c, s, ChaptersOf(p, rest, number + 1)[c-1].title);
      h, a, b := n + h, n + a, n + b;
    }
  }

  lemma NoChapter(p: Patterns, number: nat)
    ensures ChaptersOf(p, [], number) == []
  {
  }

  lemma FirstChapter(p: Patterns, lines: seq<string>, number: nat) returns (n: nat)
    requires lines != [] && IsHeading(p, lines[0])
    ensures 1 <= n <= |lines| && (n < |lines| ==> IsHeading(p, lines[n]) && Ends(p, lines[n])) && Ends(p, lines[0])
    ensures forall i :: 1 <= i < n ==> !IsHeading(p, lines[i])
    ensures ChaptersOf(p, lines, number)
            == [Chapter(number, Strip(lines[0]), ScenesOf(p, lines[1..n], 0))]
               + ChaptersOf(p, lines[n..], number + 1)
  {
    hide ScenesOf, IsHeading, Ends, Strip;
    n := 1 + NextHeading(p, lines[1..]);
    HeadingEnds(p, lines[0]);
    assert n < |lines| ==> lines[n] == lines[1..][n-1];
    if n < |lines| { HeadingEnds(p, lines[n]); }
    forall i | 1 <= i < n ensures !IsHeading(p, lines[i]) { assert lines[i] == lines[1..][i-1]; }
  }

  lemma FirstChapterStands(p: Patterns, lines: seq<string>, n: nat, a: nat, s: nat)
    requires lines != [] && IsHeading(p, lines[0]) && 1 <= n <= |lines| && a <= n - 1
    requires (forall i :: 1 <= i < n ==> !IsHeading(p, lines[i])) && Breaks(p, lines[1..n][..a]) == s
    ensures StandsIn(p, lines, 0, 1 + a, 0, s, Strip(lines[0]))
  {
    hide IsHeading, Headings, Breaks, Strip;
    FirstChapterCounts(p, lines, lines[1..n], a);
    assert lines[1..1+a] == lines[1..n][..a];
  }

  lemma FirstChapterCounts(p: Patterns, lines: seq<string>, own: seq<string>, a: nat)
    requires a <= |own| < |lines| && own == lines[1..|own|+1] && IsHeading(p, lines[0])
    requires forall i :: 0 <= i < |own| ==> !IsHeading(p, own[i])
    ensures Headings(p, lines[..1+a]) == 1
  {
    hide IsHeading, Headings, Breaks;
    CountOne(p, lines[0]);
    NoneToCount(p, own[..a]);
    CountsJoin(p, [lines[0]], own[..a]);
    assert lines[..1+a] == [lines[0]] + own[..a];
  }

  lemma LaterChapterCounts(p: Patterns, lines: seq<string>, n: nat, a: nat)
    requires lines != [] && IsHeading(p, lines[0]) && 1 <= n <= |lines| && a <= |lines| - n
    requires forall i :: 1 <= i < n ==> !IsHeading(p, lines[i])
    ensures Headings(p, lines[..n+a]) == 1 + Headings(p, lines[n..][..a])
  {
    hide IsHeading, Headings, Breaks;
    FirstChapterCounts(p, lines, lines[1..n], n - 1);
    CountsJoin(p, lines[..n], lines[n..][..a]);
    assert lines[..n+a] == lines[..n] + lines[n..][..a];
  }

  /** In a manuscript with a heading every paragraph is a maximal run of lines that are neither blank nor breaks
      nor headings, joined; its chapter is the one of the last heading before it, by number and title, and its
      scene counts the breaks since that heading. */
  lemma EveryParagraphIsARun(p: Patterns, text: string, c: nat, s: nat, k: nat) returns (h: nat, a: nat, b: nat)
    requires Parsed(p, text).Some? && NextHeading(p, SplitOn(text, '\n')) < |SplitOn(text, '\n')|
    requires c < |Parsed(p, text).value.chapters| && s < |Parsed(p, text).value.chapters[c].scenes|
    requires k < |Parsed(p, text).value.chapters[c].scenes[s].paragraphs|
    ensures
      var lines, chapter := SplitOn(text, '\n'), Parsed(p, text).value.chapters[c];
      && IsRun(p, lines, a, b) && SaysLines(p, lines, a, b, chapter.scenes[s].paragraphs[k])
      && StandsIn(p, lines, h, a, c, s, chapter.title)
  {
    hide IsRun, SaysLines, IsBreak, IsHeading, Headings, Breaks, Ends, NextHeading, Strip, SplitOn, Join, ChaptersOf,
      StandsIn, LineParagraphs;
    var lines := SplitOn(text, '\n');
    var n := NextHeading(p, lines);
    var rest := lines[n..];
    h, a, b := ChapterParagraphIsARun(p, rest, 1, c, s, k);
    assert rest == lines[n..|lines|];
    StandsParts(p, rest, h, a, c, s, ChaptersOf(p, rest, 1)[c].title);
    RunShifts(p, lines, n, |lines|, a, b, ChaptersOf(p, rest, 1)[c].scenes[s].paragraphs[k]);
    NoneToCount(p, lines[..n]);
    CountsJoin(p, lines[..n], rest[..a]);
    assert lines[..n+a] == lines[..n] + rest[..a];
    StandsLater(p, lines, n, h, a, c, c, s, ChaptersOf(p, rest, 1)[c].title);
    h, a, b := n + h, n + a, n + b;
  }

  lemma StandsParts(p: Patterns, lines: seq<string>, h: nat, a: nat, c: nat, s: nat, title: string)
    requires StandsIn(p, lines, h, a, c, s, title)
    ensures 0 < a <= |lines| && Headings(p, lines[..a]) == c + 1
  {
  }

  lemma StandsLater(p: Patterns, lines: seq<string>, n: nat, h: nat, a: nat, c: nat, d: nat, s: nat, title: string)
    requires n <= |lines| && StandsIn(p, lines[n..], h, a, c, s, title) && Headings(p, lines[..n+a]) == d + 1
    ensures StandsIn(p, lines, n + h, n + a, d, s, title)
  {
    hide IsHeading, Headings, Breaks, Strip;
    var rest := lines[n..];
    assert lines[n+h+1..n+a] == rest[h+1..a];
    forall i | n + h < i < n + a ensures !IsHeading(p, lines[i]) { assert lines[i] == rest[i-n]; }
  }

  // ---------- how many ----------

  lemma {:induction false} ScenesCountBreaks(p: Patterns, lines: seq<string>, index: nat)
    ensures |ScenesOf(p, lines, index)| == 1 + Breaks(p, lines)
    decreases |lines|
  {
    hide ScenesOf, ParagraphsOf, IsBreak, IsHeading, Headings, Breaks;
    var n := NextBreak(p, lines);
    FirstScene(p, lines, index);
    if n < |lines| {
      var rest := lines[n+1..];
      ScenesCountBreaks(p, rest, index + 1);
      BreaksAfter(p, lines, n, |rest|);
      assert rest[..|rest|] == rest && lines[..n+1+|rest|] == lines;
    } else {
      NoneToCount(p, lines);
    }
  }

  lemma {:induction false} ChaptersCountHeadings(p: Patterns, lines: seq<string>, number: nat)
    requires lines != [] ==> IsHeading(p, lines[0])
    ensures |ChaptersOf(p, lines, number)| == Headings(p, lines)
    decreases |lines|
  {
    hide ScenesOf, ChaptersOf, IsHeading, Headings, Strip;
    NoChapter(p, number);
    NoneToCount(p, []);
    if lines != [] {
      var n := FirstChapter(p, lines, number);
      var rest := lines[n..];
      ChaptersCountHeadings(p, rest, number + 1);
      LaterChapterCounts(p, lines, n, |rest|);
      assert rest[..|rest|] == rest && lines[..n+|rest|] == lines;
    }
  }

  /** Lines h..n-1 are the chapter: its heading and everything up to the next heading. */
  predicate Spans(p: Patterns, lines: seq<string>, h: nat, n: nat, c: nat, chapter: Chapter) {
    && h < n <= |lines| && IsHeading(p, lines[h]) && Headings(p, lines[..h]) == c
    && (forall i :: h < i < n ==> !IsHeading(p, lines[i])) && (n < |lines| ==> IsHeading(p, lines[n]))
    && chapter.title == Strip(lines[h]) && |chapter.scenes| == 1 + Breaks(p, lines[h+1..n])
  }

  ghost predicate Spanned(p: Patterns, lines: seq<string>, c: nat, chapter: Chapter) {
    exists h, n :: Spans(p, lines, h, n, c, chapter)
  }

  ghost predicate AllSpanned(p: Patterns, lines: seq<string>, chapters: seq<Chapter>) {
    forall c :: 0 <= c < |chapters| ==> Spanned(p, lines, c, chapters[c])
  }

  lemma SpansShift(p: Patterns, lines: seq<string>, m: nat, h: nat, n: nat, c: nat, d: nat, chapter: Chapter)
    requires m <= |lines| && Spans(p, lines[m..], h, n, c, chapter) && Headings(p, lines[..m+h]) == d
    ensures Spans(p, lines, m + h, m + n, d, chapter)
  {
    hide IsHeading, Headings, Breaks, Strip;
    var rest := lines[m..];
    assert lines[m+h+1..m+n] == rest[h+1..n];
    forall i | m + h < i < m + n ensures !IsHeading(p, lines[i]) { assert lines[i] == rest[i-m]; }
    assert n < |rest| ==> lines[m+n] == rest[n];
  }

  lemma SpanParts(p: Patterns, lines: seq<string>, h: nat, n: nat, c: nat, chapter: Chapter)
    requires Spans(p, lines, h, n, c, chapter)
    ensures h < n <= |lines| && Headings(p, lines[..h]) == c
  {
  }

  lemma {:induction false} ChapterSpans(p: Patterns, lines: seq<string>, number: nat, c: nat) returns (h: nat, n: nat)
    requires (lines != [] ==> IsHeading(p, lines[0])) && c < |ChaptersOf(p, lines, number)|
    ensures Spans(p, lines, h, n, c, ChaptersOf(p, lines, number)[c])
    decreases |lines|
  {
    hide ScenesOf, ChaptersOf, IsHeading, Headings, Breaks, Strip, Spans;
    NoChapter(p, number);
    var m := FirstChapter(p, lines, number);
    if c == 0 {
      FirstSpan(p, lines, number, m);
      h, n := 0, m;
    } else {
      var rest := lines[m..];
      h, n := ChapterSpans(p, rest, number + 1, c - 1);
      var chapter := ChaptersOf(p, rest, number + 1)[c-1];
      SpanParts(p, rest, h, n, c - 1, chapter);
      LaterChapterCounts(p, lines, m, h);
      SpansShift(p, lines, m, h, n, c - 1, c, chapter);
      h, n := m + h, m + n;
    }
  }

  lemma FirstSpan(p: Patterns, lines: seq<string>, number: nat, m: nat)
    requires lines != [] && IsHeading(p, lines[0]) && 1 <= m <= |lines| && (m < |lines| ==> IsHeading(p, lines[m]))
    requires forall i :: 1 <= i < m ==> !IsHeading(p, lines[i])
    ensures Spans(p, lines, 0, m, 0, Chapter(number, Strip(lines[0]), ScenesOf(p, lines[1..m], 0)))
  {
    hide ScenesOf, IsHeading, Headings, Breaks, Strip;
    ScenesCountBreaks(p, lines[1..m], 0);
    NoneToCount(p, lines[..0]);
  }

  lemma ParsedParts(p: Patterns, text: string)
    requires Parsed(p, text).Some? && NextHeading(p, SplitOn(text, '\n')) < |SplitOn(text, '\n')|
    ensures
      var lines, r := SplitOn(text, '\n'), Parsed(p, text).value;
      var n := NextHeading(p, lines);
      r.chapters == ChaptersOf(p, lines[n..], 1) && r.frontMatter == Strip(Join(lines[..n], "\n"))
  {
    hide ChaptersOf, LineParagraphs, Strip, SplitOn, Join, IsHeading;
  }

  /** There is a chapter for every heading, numbered from 1, and, in it, one scene more than breaks up to the next
      heading; what stands before the first heading is the front matter. */
  lemma HeadingsAndBreaksCount(p: Patterns, text: string)
    requires Parsed(p, text).Some? && NextHeading(p, SplitOn(text, '\n')) < |SplitOn(text, '\n')|
    ensures
      var lines, r := SplitOn(text, '\n'), Parsed(p, text).value;
      && |r.chapters| == Headings(p, lines)
      && r.frontMatter == Strip(Join(lines[..NextHeading(p, lines)], "\n"))
      && AllSpanned(p, lines, r.chapters) && ChaptersNumbered(r.chapters, 1)
  {
    hide *;
    ParsedParts(p, text);
    var lines, r := SplitOn(text, '\n'), Parsed(p, text).value;
    var first := NextHeading(p, lines);
    var rest := lines[first..];
    ChaptersCountHeadings(p, rest, 1);
    ChaptersAreNumbered(p, rest, 1);
    NoneToCount(p, lines[..first]);
    CountsJoin(p, lines[..first], rest);
    assert lines[..first] + rest == lines;
    forall c | 0 <= c < |r.chapters| ensures Spanned(p, lines, c, r.chapters[c]) {
      var h, n := ChapterSpans(p, rest, 1, c);
      SpanParts(p, rest, h, n, c, r.chapters[c]);
      CountsJoin(p, lines[..first], rest[..h]);
      assert lines[..first] + rest[..h] == lines[..first+h];
      SpansShift(p, lines, first, h, n, c, c, r.chapters[c]);
      HasSpan(p, lines, first + h, first + n, c, r.chapters[c]);
    }
    SpannedAll(p, lines, r.chapters);
  }

  lemma HasSpan(p: Patterns, lines: seq<string>, h: nat, n: nat, c: nat, chapter: Chapter)
    requires Spans(p, lines, h, n, c, chapter)
    ensures Spanned(p, lines, c, chapter)
  {
    hide Spans;
  }

  lemma SpannedAll(p: Patterns, lines: seq<string>, chapters: seq<Chapter>)
    requires forall c :: 0 <= c < |chapters| ==> Spanned(p, lines, c, chapters[c])
    ensures AllSpanned(p, lines, chapters)
  {
    hide Spanned;
  }

  // ---------- without headings ----------

  lemma {:induction false} LineParagraphIsALine(p: Patterns, lines: seq<string>, at: nat, k: nat) returns (i: nat)
    requires k < |LineParagraphs(p, lines, at)|
    ensures i < |lines| && LineParagraphs(p, lines, at)[k].index == at + i
    ensures SaysLines(p, lines, i, i + 1, LineParagraphs(p, lines, at)[k]) && Strip(lines[i]) != ""
  {
    hide Strip;
    if Strip(lines[0]) != "" && k == 0 {
      assert lines[0..1] == [lines[0]];
      i := 0;
    } else {
      i := LineParagraphIsALine(p, lines[1..], at + 1, if Strip(lines[0]) != "" then k - 1 else k);
      assert lines[1..][i..i+1] == lines[i+1..i+2];
      i := i + 1;
    }
  }

  /** Without a heading there is one chapter with one scene, named "Chapter 1", in which every non-blank line is
      a paragraph with the number of its line. */
  lemma EveryLineIsAParagraph(p: Patterns, text: string, k: nat) returns (i: nat)
    requires Parsed(p, text).Some? && NextHeading(p, SplitOn(text, '\n')) == |SplitOn(text, '\n')|
    ensures
      var chapters := Parsed(p, text).value.chapters;
      && |chapters| == 1 && chapters[0].number == 1 && chapters[0].title == "Chapter 1" && |chapters[0].scenes| == 1
      && (k < |chapters[0].scenes[0].paragraphs| ==>
            var q := chapters[0].scenes[0].paragraphs[k];
            var lines := SplitOn(text, '\n');
            && i == q.index < |lines| && Strip(lines[i]) != "" && SaysLines(p, lines, i, i + 1, q))
  {
    hide SaysLines, Strip, SplitOn, NextHeading, Join, LineParagraphs;
    var lines := SplitOn(text, '\n');
    i := 0;
    if k < |LineParagraphs(p, lines, 0)| {
      i := LineParagraphIsALine(p, lines, 0, k);
    }
  }
}
