/** The rule-based structure parser (backend/pipeline/agents/structure_parser.py:85-228).  Heading,
    scene-break and dialogue patterns are arbitrary predicates on the stripped line. */
module StructureParser {
  import opened Wrappers
  import opened Text
  import opened TextWords

  datatype Patterns = Patterns(
    heading: string -> bool,
    sceneBreak: string -> bool,
    dialogue: string -> bool,
    attribution: string -> Option<string>)

  datatype Paragraph = Paragraph(index: nat, text: string, isDialogue: bool, hint: Option<string>)
  datatype Scene = Scene(index: nat, paragraphs: seq<Paragraph>)
  datatype Chapter = Chapter(number: nat, title: string, scenes: seq<Scene>)

  datatype Structure = Structure(chapters: seq<Chapter>, frontMatter: string)

  predicate IsHeading(p: Patterns, line: string) {
    Strip(line) != "" && p.heading(Strip(line))
  }

  predicate IsBreak(p: Patterns, line: string) {
    Strip(line) != "" && p.sceneBreak(Strip(line))
  }

  function MakeParagraph(p: Patterns, index: nat, text: string): Paragraph {
    var d := p.dialogue(text);
    Paragraph(index, text, d, if d then p.attribution(text) else None)
  }

  // ---------- the reference: split at headings, then at breaks, then at blank lines ----------

  /** The first heading in `lines`, or the end. */
  function NextHeading(p: Patterns, lines: seq<string>): (n: nat)
    ensures n <= |lines| && (n < |lines| ==> IsHeading(p, lines[n]))
    ensures forall i :: 0 <= i < n ==> !IsHeading(p, lines[i])
  {
    if lines == [] || IsHeading(p, lines[0]) then 0 else 1 + NextHeading(p, lines[1..])
  }

  function NextBreak(p: Patterns, lines: seq<string>): (n: nat)
    ensures n <= |lines| && (n < |lines| ==> IsBreak(p, lines[n]))
    ensures forall i :: 0 <= i < n ==> !IsBreak(p, lines[i])
  {
    if lines == [] || IsBreak(p, lines[0]) then 0 else 1 + NextBreak(p, lines[1..])
  }

  function NextBlank(lines: seq<string>): (n: nat)
    ensures n <= |lines| && (n < |lines| ==> Strip(lines[n]) == "")
    ensures forall i :: 0 <= i < n ==> Strip(lines[i]) != ""
  {
    if lines == [] || Strip(lines[0]) == "" then 0 else 1 + NextBlank(lines[1..])
  }

  /** Paragraphs are the maximal runs of non-blank lines, numbered from `index`. */
  function ParagraphsOf(p: Patterns, lines: seq<string>, index: nat): seq<Paragraph>
    decreases |lines|
  {
    if lines == [] then []
    else
      var n := NextBlank(lines);
      if n == 0 then ParagraphsOf(p, lines[1..], index)
      else [MakeParagraph(p, index, Strip(Join(lines[..n], "\n")))] + ParagraphsOf(p, lines[n..], index + 1)
  }

  function ScenesOf(p: Patterns, lines: seq<string>, index: nat): seq<Scene>
    decreases |lines|
  {
    var n := NextBreak(p, lines);
    [Scene(index, ParagraphsOf(p, lines[..n], 0))]
    + (if n < |lines| then ScenesOf(p, lines[n+1..], index + 1) else [])
  }

  /** `lines` starts with a heading. */
  function ChaptersOf(p: Patterns, lines: seq<string>, number: nat): seq<Chapter>
    decreases |lines|
  {
    if lines == [] then []
    else
      var n := 1 + NextHeading(p, lines[1..]);
      [Chapter(number, Strip(lines[0]), ScenesOf(p, lines[1..n], 0))] + ChaptersOf(p, lines[n..], number + 1)
  }

  /** Without any heading: one chapter, one paragraph per non-blank line, numbered by line. */
  function LineParagraphs(p: Patterns, lines: seq<string>, at: nat): seq<Paragraph> {
    if lines == [] then []
    else (if Strip(lines[0]) != "" then [MakeParagraph(p, at, Strip(lines[0]))] else [])
         + LineParagraphs(p, lines[1..], at + 1)
  }

  function Parsed(p: Patterns, text: string): Option<Structure> {
    if Strip(text) == "" then None
    else
      var lines := SplitOn(text, '\n');
      var n := NextHeading(p, lines);
      var front := Strip(Join(lines[..n], "\n"));
      if n < |lines| then Some(Structure(ChaptersOf(p, lines[n..], 1), front))
      else Some(Structure([Chapter(1, "Chapter 1", [Scene(0, LineParagraphs(p, lines, 0))])], front))
  }

  // ---------- the parser's state ----------

  /** The chapter, scene and paragraph being built. */
  datatype Current = Current(number: nat, title: string, scenes: seq<Scene>, paragraphs: seq<Paragraph>,
      buffer: seq<string>)

  function Opened(number: nat, line: string): Current {
    Current(number, Strip(line), [], [], [])
  }

  /** The paragraphs once the pending lines are flushed. */
  function WithPending(p: Patterns, paragraphs: seq<Paragraph>, buffer: seq<string>): seq<Paragraph> {
    var text := Strip(Join(buffer, "\n"));
    if buffer != [] && text != "" then paragraphs + [MakeParagraph(p, |paragraphs|, text)] else paragraphs
  }

  function Flushed(p: Patterns, c: Current): Current {
    c.(paragraphs := WithPending(p, c.paragraphs, c.buffer), buffer := [])
  }

  function NewScene(p: Patterns, c: Current): Current {
    var f := Flushed(p, c);
    f.(scenes := f.scenes + [Scene(|f.scenes|, f.paragraphs)], paragraphs := [])
  }

  function Closed(p: Patterns, c: Current): Chapter {
    var f := Flushed(p, c);
    Chapter(f.number, f.title, f.scenes + [Scene(|f.scenes|, f.paragraphs)])
  }

  /** One line that is not a heading. */
  function Step(p: Patterns, c: Current, line: string): Current {
    if IsBreak(p, line) then NewScene(p, c)
    else if Strip(line) == "" then Flushed(p, c)
    else c.(buffer := c.buffer + [line])
  }

  function Fold(p: Patterns, c: Current, lines: seq<string>): seq<Chapter>
    decreases |lines|
  {
    if lines == [] then [Closed(p, c)]
    else if IsHeading(p, lines[0]) then [Closed(p, c)] + Fold(p, Opened(c.number + 1, lines[0]), lines[1..])
    else Fold(p, Step(p, c, lines[0]), lines[1..])
  }

  // ---------- the loop ----------

  /** `flush_paragraph` */
  method FlushParagraph(p: Patterns, paragraphs: seq<Paragraph>, buffer: seq<string>) returns (flushed: seq<Paragraph>)
    ensures flushed == WithPending(p, paragraphs, buffer)
  {
    flushed := paragraphs;
    if buffer != [] {
      var text := Strip(Join(buffer, "\n"));
      if text != "" {
        flushed := flushed + [MakeParagraph(p, |paragraphs|, text)];
      }
    }
  }

  /** `StructureParser.run` */
  method Run(p: Patterns, text: string) returns (r: Option<Structure>)
    ensures r == Parsed(p, text)
  {
    hide IsHeading, IsBreak, Strip, ChaptersOf, LineParagraphs, Fold, Step, Closed, Opened, WithPending, ScenesOf,
        NextHeading, SplitOn, Join;
    if Strip(text) == "" {
      return None;
    }
    var lines := SplitOn(text, '\n');
    var chapters: seq<Chapter> := [];
    var inFrontMatter, front: seq<string> := true, [];
    var number: nat, title: string, scenes: seq<Scene>, paragraphs: seq<Paragraph>, buffer: seq<string> := 0, "", [],
        [], [];
    ghost var h := NextHeading(p, lines);
    for i := 0 to |lines|
      invariant inFrontMatter ==> chapters == [] && i <= h && front == lines[..i]
      invariant !inFrontMatter ==>
                  && h < i && front == lines[..h] && number == |chapters| + 1
                  && chapters + Fold(p, Current(number, title, scenes, paragraphs, buffer), lines[i..])
                     == ChaptersOf(p, lines[h..], 1)
    {
      var line := lines[i];
      ghost var current := Current(number, title, scenes, paragraphs, buffer);
      assert lines[i..][1..] == lines[i+1..] && lines[i..][0] == line;
      if IsHeading(p, line) {
        if !inFrontMatter {
          FoldHeading(p, current, lines[i..]);
          ClosedIs(p, current);
          paragraphs := FlushParagraph(p, paragraphs, buffer);
          chapters := chapters + [Chapter(number, title, scenes + [Scene(|scenes|, paragraphs)])];
        } else {
          OpenedIs(1, line);
          FoldIsReference(p, Opened(1, line), lines[i+1..]);
          ReferenceFirst(p, lines[h..], 1);
        }
        OpenedIs(|chapters| + 1, line);
        inFrontMatter := false;
        number, title, scenes, paragraphs, buffer := |chapters| + 1, Strip(line), [], [], [];
      } else if inFrontMatter {
        front := front + [line];
      } else {
        FoldLine(p, current, lines[i..]);
        StepIs(p, current, line);
        if IsBreak(p, line) {
          paragraphs := FlushParagraph(p, paragraphs, buffer);
          scenes, paragraphs, buffer := scenes + [Scene(|scenes|, paragraphs)], [], [];
        } else if Strip(line) == "" {
          paragraphs := FlushParagraph(p, paragraphs, buffer);
          buffer := [];
        } else {
          buffer := buffer + [line];
        }
      }
    }
    assert lines[|lines|..] == [];
    if !inFrontMatter {
      ghost var current := Current(number, title, scenes, paragraphs, buffer);
      FoldEnd(p, current);
      ClosedIs(p, current);
      ReferenceNonEmpty(p, lines[h..]);
      paragraphs := FlushParagraph(p, paragraphs, buffer);
      chapters := chapters + [Chapter(number, title, scenes + [Scene(|scenes|, paragraphs)])];
    }
    if chapters == [] {
      var all := LineLoop(p, lines);
      chapters := [Chapter(1, "Chapter 1", [Scene(0, all)])];
    }
    r := Some(Structure(chapters, Strip(Join(front, "\n"))));
  }

  lemma ClosedIs(p: Patterns, c: Current)
    ensures Closed(p, c)
            == Chapter(c.number, c.title, c.scenes + [Scene(|c.scenes|, WithPending(p, c.paragraphs, c.buffer))])
  {
  }

  lemma OpenedIs(number: nat, line: string)
    ensures Opened(number, line) == Current(number, Strip(line), [], [], [])
  {
  }

  lemma StepIs(p: Patterns, c: Current, line: string)
    ensures
      var flushed := WithPending(p, c.paragraphs, c.buffer);
      Step(p, c, line)
      == if IsBreak(p, line) then c.(scenes := c.scenes + [Scene(|c.scenes|, flushed)], paragraphs := [], buffer := [])
         else if Strip(line) == "" then c.(paragraphs := flushed, buffer := [])
         else c.(buffer := c.buffer + [line])
  {
  }

  method LineLoop(p: Patterns, lines: seq<string>) returns (paragraphs: seq<Paragraph>)
    ensures paragraphs == LineParagraphs(p, lines, 0)
  {
    hide Strip, MakeParagraph, LineParagraphs;
    paragraphs := [];
    assert lines[0..] == lines;
    for i := 0 to |lines|
      invariant paragraphs + LineParagraphs(p, lines[i..], i) == LineParagraphs(p, lines, 0)
    {
      LineParagraphsNext(p, lines[i..], i);
      assert lines[i..][1..] == lines[i+1..];
      var stripped := Strip(lines[i]);
      if stripped != "" {
        paragraphs := paragraphs + [MakeParagraph(p, i, stripped)];
      }
    }
    NoLineParagraphs(p, |lines|);
  }

  lemma LineParagraphsNext(p: Patterns, lines: seq<string>, at: nat)
    requires lines != []
    ensures LineParagraphs(p, lines, at)
            == (if Strip(lines[0]) != "" then [MakeParagraph(p, at, Strip(lines[0]))] else [])
               + LineParagraphs(p, lines[1..], at + 1)
  {
  }

  lemma NoLineParagraphs(p: Patterns, at: nat)
    ensures LineParagraphs(p, [], at) == []
  {
  }

  lemma FoldHeading(p: Patterns, c: Current, lines: seq<string>)
    requires lines != [] && IsHeading(p, lines[0])
    ensures Fold(p, c, lines) == [Closed(p, c)] + Fold(p, Opened(c.number + 1, lines[0]), lines[1..])
  {
  }

  lemma FoldLine(p: Patterns, c: Current, lines: seq<string>)
    requires lines != [] && !IsHeading(p, lines[0])
    ensures Fold(p, c, lines) == Fold(p, Step(p, c, lines[0]), lines[1..])
    ensures Step(p, c, lines[0]).number == c.number && Step(p, c, lines[0]).title == c.title
  {
  }

  lemma FoldEnd(p: Patterns, c: Current)
    ensures Fold(p, c, []) == [Closed(p, c)]
  {
  }

  lemma ReferenceNonEmpty(p: Patterns, lines: seq<string>)
    ensures lines != [] ==> ChaptersOf(p, lines, 1) != []
  {
  }

  // ---------- the state machine is the reference ----------

  /** Nothing but a complete run of non-blank lines is pending. */
  lemma {:induction false} ReferenceParagraphs(p: Patterns, buffer: seq<string>, lines: seq<string>, index: nat)
    requires forall i :: 0 <= i < |buffer| ==> Strip(buffer[i]) != ""
    requires lines == [] || Strip(lines[0]) == ""
    ensures ParagraphsOf(p, buffer + lines, index)
            == (if buffer != [] then [MakeParagraph(p, index, Strip(Join(buffer, "\n")))] else [])
               + ParagraphsOf(p, lines, if buffer != [] then index + 1 else index)
  {
    hide Strip, MakeParagraph, Join;
    if buffer == [] {
      assert buffer + lines == lines;
    } else {
      BlankAfter(buffer, lines);
      var all := buffer + lines;
      assert all[..|buffer|] == buffer && all[|buffer|..] == lines;
    }
  }

  lemma {:induction false} BlankAfter(buffer: seq<string>, lines: seq<string>)
    requires forall i :: 0 <= i < |buffer| ==> Strip(buffer[i]) != ""
    requires lines == [] || Strip(lines[0]) == ""
    ensures NextBlank(buffer + lines) == |buffer|
  {
    hide Strip;
    if buffer == [] {
      assert buffer + lines == lines;
    } else {
      assert (buffer + lines)[1..] == buffer[1..] + lines;
      BlankAfter(buffer[1..], lines);
    }
  }

  /** Non-blank lines never join to a blank paragraph. */
  lemma {:induction false} JoinedIsNotBlank(buffer: seq<string>)
    requires buffer != [] && forall i :: 0 <= i < |buffer| ==> Strip(buffer[i]) != ""
    ensures Strip(Join(buffer, "\n")) != ""
  {
    hide Strip, NonSpace;
    NonSpaceOfStrip(Join(buffer, "\n"));
    NonSpaceOfStrip(buffer[0]);
    NonSpaceOfJoin(buffer, "\n");
    NonSpaceConcat(buffer[0], Concat(buffer[1..]));
    NonSpaceOfBlank(buffer[0]);
    NonSpaceOfBlank(Join(buffer, "\n"));
  }

  predicate Pending(buffer: seq<string>) {
    forall i :: 0 <= i < |buffer| ==> Strip(buffer[i]) != ""
  }

  /** The scene being built, completed by the lines that remain of it. */
  function SceneRest(p: Patterns, c: Current, lines: seq<string>): seq<Paragraph> {
    c.paragraphs + ParagraphsOf(p, c.buffer + lines, |c.paragraphs|)
  }

  lemma FlushedRest(p: Patterns, c: Current, lines: seq<string>)
    requires Pending(c.buffer) && (lines == [] || Strip(lines[0]) == "")
    ensures SceneRest(p, c, lines) == Flushed(p, c).paragraphs + ParagraphsOf(p, lines, |Flushed(p, c).paragraphs|)
    ensures Flushed(p, c).buffer == [] && Flushed(p, c).scenes == c.scenes
  {
    hide Strip, MakeParagraph, Join, ParagraphsOf;
    ReferenceParagraphs(p, c.buffer, lines, |c.paragraphs|);
    if c.buffer != [] { JoinedIsNotBlank(c.buffer); }
  }

  /** The scenes from the next break on. */
  function LaterScenes(p: Patterns, lines: seq<string>, index: nat): seq<Scene> {
    var n := NextBreak(p, lines);
    if n < |lines| then ScenesOf(p, lines[n+1..], index) else []
  }

  /** The chapter being built, completed by its remaining lines: scenes split at breaks. */
  function ChapterRest(p: Patterns, c: Current, lines: seq<string>): seq<Scene> {
    var n := NextBreak(p, lines);
    c.scenes + [Scene(|c.scenes|, SceneRest(p, c, lines[..n]))] + LaterScenes(p, lines, |c.scenes| + 1)
  }

  lemma NoParagraphs(p: Patterns, index: nat)
    ensures ParagraphsOf(p, [], index) == []
  {
  }

  lemma BlankSkipped(p: Patterns, lines: seq<string>, index: nat)
    requires lines != [] && Strip(lines[0]) == ""
    ensures ParagraphsOf(p, lines, index) == ParagraphsOf(p, lines[1..], index)
  {
  }

  lemma BreakKeepsRest(p: Patterns, c: Current, lines: seq<string>)
    requires Pending(c.buffer) && lines != [] && IsBreak(p, lines[0])
    ensures ChapterRest(p, c, lines) == ChapterRest(p, NewScene(p, c), lines[1..]) && NewScene(p, c).buffer == []
  {
    hide Strip, Join, ParagraphsOf, ScenesOf, Flushed;
    assert lines[..0] == [];
    FlushedRest(p, c, []);
    NoParagraphs(p, |Flushed(p, c).paragraphs|);
    assert SceneRest(p, c, lines[..0]) == Flushed(p, c).paragraphs;
    FreshScene(p, NewScene(p, c), lines[1..]);
  }

  /** A line that is no scene break leaves the later scenes where they are. */
  lemma LaterStay(p: Patterns, lines: seq<string>, index: nat)
    requires lines != [] && !IsBreak(p, lines[0])
    ensures
      var n := NextBreak(p, lines[1..]);
      && NextBreak(p, lines) == n + 1 && lines[..n+1] == [lines[0]] + lines[1..][..n]
      && LaterScenes(p, lines, index) == LaterScenes(p, lines[1..], index)
  {
    hide IsBreak, ScenesOf;
    var n := NextBreak(p, lines[1..]);
    assert n < |lines[1..]| ==> lines[n+2..] == lines[1..][n+1..];
  }

  lemma SceneStep(p: Patterns, c: Current, line: string, more: seq<string>)
    requires Pending(c.buffer) && !IsBreak(p, line)
    ensures SceneRest(p, c, [line] + more) == SceneRest(p, Step(p, c, line), more)
    ensures Step(p, c, line).scenes == c.scenes && Pending(Step(p, c, line).buffer)
  {
    hide Strip, Join, ParagraphsOf, IsBreak, Flushed;
    if Strip(line) == "" {
      FlushedRest(p, c, [line] + more);
      BlankSkipped(p, [line] + more, |Flushed(p, c).paragraphs|);
      assert ([line] + more)[1..] == more;
      assert [] + more == more;
    } else {
      assert c.buffer + ([line] + more) == (c.buffer + [line]) + more;
    }
  }

  lemma StepKeepsRest(p: Patterns, c: Current, lines: seq<string>)
    requires Pending(c.buffer) && lines != []
    ensures Pending(Step(p, c, lines[0]).buffer)
    ensures ChapterRest(p, c, lines) == ChapterRest(p, Step(p, c, lines[0]), lines[1..])
  {
    hide Strip, Flushed, SceneRest, LaterScenes, IsBreak;
    if IsBreak(p, lines[0]) {
      BreakKeepsRest(p, c, lines);
    } else {
      LaterStay(p, lines, |c.scenes| + 1);
      SceneStep(p, c, lines[0], lines[1..][..NextBreak(p, lines[1..])]);
    }
  }

  lemma ScenesFirst(p: Patterns, lines: seq<string>, index: nat)
    ensures ScenesOf(p, lines, index)
            == [Scene(index, ParagraphsOf(p, lines[..NextBreak(p, lines)], 0))] + LaterScenes(p, lines, index + 1)
  {
    hide ParagraphsOf, NextBreak;
  }

  lemma FreshScene(p: Patterns, c: Current, lines: seq<string>)
    requires c.paragraphs == [] && c.buffer == []
    ensures ChapterRest(p, c, lines) == c.scenes + ScenesOf(p, lines, |c.scenes|)
  {
    hide ParagraphsOf, NextBreak, ScenesOf, LaterScenes;
    var n := NextBreak(p, lines);
    assert c.buffer + lines[..n] == lines[..n];
    assert SceneRest(p, c, lines[..n]) == ParagraphsOf(p, lines[..n], 0);
    ScenesFirst(p, lines, |c.scenes|);
    assert c.scenes + [Scene(|c.scenes|, ParagraphsOf(p, lines[..n], 0))] + LaterScenes(p, lines, |c.scenes| + 1)
        == c.scenes + ([Scene(|c.scenes|, ParagraphsOf(p, lines[..n], 0))] + LaterScenes(p, lines, |c.scenes| + 1));
  }

  lemma FlushedName(p: Patterns, c: Current)
    ensures Flushed(p, c).number == c.number && Flushed(p, c).title == c.title
  {
  }

  lemma ClosedRest(p: Patterns, c: Current)
    requires Pending(c.buffer)
    ensures Closed(p, c) == Chapter(c.number, c.title, ChapterRest(p, c, []))
  {
    hide Strip, Join, ParagraphsOf, Flushed;
    FlushedRest(p, c, []);
    NoParagraphs(p, |Flushed(p, c).paragraphs|);
    FlushedName(p, c);
    var none: seq<string> := [];
    assert none[..0] == [];
    assert SceneRest(p, c, []) == Flushed(p, c).paragraphs;
  }

  /** The line-by-line parser yields the grouping by headings, breaks and blank lines. */
  lemma {:induction false} FoldIsGrouping(p: Patterns, c: Current, lines: seq<string>)
    requires Pending(c.buffer)
    ensures
      var n := NextHeading(p, lines);
      Fold(p, c, lines)
      == [Chapter(c.number, c.title, ChapterRest(p, c, lines[..n]))] + ChaptersOf(p, lines[n..], c.number + 1)
    decreases |lines|
  {
    hide *;
    var n := NextHeading(p, lines);
    if lines == [] {
      ClosedRest(p, c);
      FoldEnd(p, c);
      NoChapters(p, c.number + 1);
      assert lines[..n] == [] && lines[n..] == [];
    } else if IsHeading(p, lines[0]) {
      ClosedRest(p, c);
      FoldHeading(p, c, lines);
      var rest := lines[1..];
      var opening := OpenedAt(c.number + 1, lines[0]);
      FoldIsGrouping(p, opening, rest);
      FreshScene(p, opening, rest[..NextHeading(p, rest)]);
      ReferenceFirst(p, lines, c.number + 1);
      assert n == 0 && lines[..n] == [] && lines[n..] == lines;
      var scenes := ScenesOf(p, rest[..NextHeading(p, rest)], 0);
      assert opening.scenes + scenes == scenes;
    } else {
      var rest := lines[1..];
      HeadingAfter(p, lines);
      assert lines[..n][0] == lines[0] && lines[..n][1..] == rest[..n-1] && lines[n..] == rest[n-1..];
      StepKeepsRest(p, c, lines[..n]);
      FoldIsGrouping(p, Step(p, c, lines[0]), rest);
      FoldLine(p, c, lines);
    }
  }

  lemma OpenedAt(number: nat, line: string) returns (c: Current)
    ensures c == Opened(number, line) && Pending(c.buffer)
    ensures c.number == number && c.title == Strip(line) && c.scenes == [] && c.paragraphs == [] && c.buffer == []
  {
    c := Opened(number, line);
  }

  lemma HeadingAfter(p: Patterns, lines: seq<string>)
    requires lines != [] && !IsHeading(p, lines[0])
    ensures NextHeading(p, lines) == 1 + NextHeading(p, lines[1..])
  {
  }

  lemma NoChapters(p: Patterns, number: nat)
    ensures ChaptersOf(p, [], number) == []
  {
  }

  lemma FoldIsReference(p: Patterns, c: Current, lines: seq<string>)
    requires c.scenes == [] && c.paragraphs == [] && c.buffer == []
    ensures
      var n := NextHeading(p, lines);
      Fold(p, c, lines)
      == [Chapter(c.number, c.title, ScenesOf(p, lines[..n], 0))] + ChaptersOf(p, lines[n..], c.number + 1)
  {
    hide Fold, ChaptersOf, ScenesOf, ChapterRest;
    FoldIsGrouping(p, c, lines);
    FreshScene(p, c, lines[..NextHeading(p, lines)]);
    assert [] + ScenesOf(p, lines[..NextHeading(p, lines)], 0) == ScenesOf(p, lines[..NextHeading(p, lines)], 0);
  }

  lemma ReferenceFirst(p: Patterns, lines: seq<string>, number: nat)
    requires lines != []
    ensures
      var n := NextHeading(p, lines[1..]);
      ChaptersOf(p, lines, number)
      == [Chapter(number, Strip(lines[0]), ScenesOf(p, lines[1..][..n], 0))]
          + ChaptersOf(p, lines[1..][n..], number + 1)
  {
    hide ScenesOf, NextHeading, Strip, IsHeading;
    var n := 1 + NextHeading(p, lines[1..]);
    assert lines[1..n] == lines[1..][..n-1] && lines[n..] == lines[1..][n-1..];
  }

  // ---------- nothing is lost, and everything is numbered ----------

  function ParagraphWords(paragraphs: seq<Paragraph>): seq<string> {
    if paragraphs == [] then [] else Words(paragraphs[0].text) + ParagraphWords(paragraphs[1..])
  }

  function SceneWords(scenes: seq<Scene>): seq<string> {
    if scenes == [] then [] else ParagraphWords(scenes[0].paragraphs) + SceneWords(scenes[1..])
  }

  /** The words of titles and paragraphs in reading order. */
  function ChapterWords(chapters: seq<Chapter>): seq<string> {
    if chapters == [] then []
    else Words(chapters[0].title) + SceneWords(chapters[0].scenes) + ChapterWords(chapters[1..])
  }

  /** The words of the lines of a manuscript from its first heading on, without scene breaks. */
  function KeptWords(p: Patterns, lines: seq<string>): seq<string> {
    if lines == [] then []
    else (if IsBreak(p, lines[0]) && !IsHeading(p, lines[0]) then [] else Words(lines[0]))
         + KeptWords(p, lines[1..])
  }

  lemma {:induction false} KeptAppend(p: Patterns, a: seq<string>, b: seq<string>)
    ensures KeptWords(p, a + b) == KeptWords(p, a) + KeptWords(p, b)
  {
    hide IsBreak, IsHeading, Words;
    if a == [] {
      assert a + b == b;
    } else {
      assert (a + b)[1..] == a[1..] + b;
      KeptAppend(p, a[1..], b);
    }
  }

  lemma {:induction false} KeptWithoutBreaks(p: Patterns, lines: seq<string>)
    requires forall i :: 0 <= i < |lines| ==> !IsBreak(p, lines[i])
    ensures KeptWords(p, lines) == AllWords(lines)
  {
    hide IsBreak, IsHeading;
    if lines != [] {
      KeptWithoutBreaks(p, lines[1..]);
    }
  }

  lemma {:induction false} ParagraphsKeepText(p: Patterns, lines: seq<string>, index: nat)
    ensures ParagraphWords(ParagraphsOf(p, lines, index)) == AllWords(lines)
    decreases |lines|
  {
    hide Strip, Join, IsSpace, Words, NextBlank;
    if lines == [] {
      AllWordsOne("");
    } else {
      var n := NextBlank(lines);
      if n == 0 {
        ParagraphsKeepText(p, lines[1..], index);
        BlankLineFirst(lines);
      } else {
        ParagraphsKeepText(p, lines[n..], index + 1);
        ParagraphText(lines, n);
        var first := MakeParagraph(p, index, Strip(Join(lines[..n], "\n")));
        var rest := ParagraphsOf(p, lines[n..], index + 1);
        assert ([first] + rest)[1..] == rest;
      }
    }
  }

  lemma BlankLineFirst(lines: seq<string>)
    requires lines != [] && Strip(lines[0]) == ""
    ensures AllWords(lines) == AllWords(lines[1..])
  {
    hide IsSpace, Strip, Words;
    WordlessWhenStrippedAway(lines[0]);
  }

  lemma ParagraphText(lines: seq<string>, n: nat)
    requires n <= |lines|
    ensures Words(Strip(Join(lines[..n], "\n"))) + AllWords(lines[n..]) == AllWords(lines)
  {
    hide IsSpace, Strip, Join, Words;
    assert lines == lines[..n] + lines[n..];
    WordsOfStrip(Join(lines[..n], "\n"));
    NewlineIsBlank();
    WordsOfJoin(lines[..n], "\n");
    AllWordsAppend(lines[..n], lines[n..]);
  }

  lemma NewlineIsBlank()
    ensures Blank("\n") && IsSpace('\n')
  {
  }

  lemma {:induction false} ScenesKeepText(p: Patterns, lines: seq<string>, index: nat)
    requires forall i :: 0 <= i < |lines| ==> !IsHeading(p, lines[i])
    ensures SceneWords(ScenesOf(p, lines, index)) == KeptWords(p, lines)
    decreases |lines|
  {
    hide IsBreak, IsHeading, ParagraphsOf, ParagraphWords, KeptWords, NextBreak, Words;
    var n := NextBreak(p, lines);
    ParagraphsKeepText(p, lines[..n], 0);
    KeptWithoutBreaks(p, lines[..n]);
    var first := Scene(index, ParagraphsOf(p, lines[..n], 0));
    assert lines == lines[..n] + lines[n..];
    KeptAppend(p, lines[..n], lines[n..]);
    if n < |lines| {
      var rest := ScenesOf(p, lines[n+1..], index + 1);
      assert ([first] + rest)[1..] == rest;
      ScenesKeepText(p, lines[n+1..], index + 1);
      KeptSkipsBreak(p, lines[n..]);
      assert lines[n..][1..] == lines[n+1..];
    } else {
      KeptNothing(p);
      assert SceneWords([first]) == ParagraphWords(first.paragraphs) + SceneWords([]);
    }
  }

  lemma KeptSkipsBreak(p: Patterns, lines: seq<string>)
    requires lines != [] && IsBreak(p, lines[0]) && !IsHeading(p, lines[0])
    ensures KeptWords(p, lines) == KeptWords(p, lines[1..])
  {
  }

  lemma KeptNothing(p: Patterns)
    ensures KeptWords(p, []) == []
  {
  }

  lemma KeptHeading(p: Patterns, lines: seq<string>)
    requires lines != [] && IsHeading(p, lines[0])
    ensures KeptWords(p, lines) == Words(Strip(lines[0])) + KeptWords(p, lines[1..])
  {
    hide Strip, Words;
    WordsOfStrip(lines[0]);
  }

  lemma {:induction false} ChaptersKeepText(p: Patterns, lines: seq<string>, number: nat)
    requires lines != [] ==> IsHeading(p, lines[0])
    ensures ChapterWords(ChaptersOf(p, lines, number)) == KeptWords(p, lines)
    decreases |lines|
  {
    hide IsHeading, ScenesOf, SceneWords, KeptWords, NextHeading, Words, Strip;
    if lines == [] {
      KeptNothing(p);
    } else {
      var n := 1 + NextHeading(p, lines[1..]);
      forall i | 0 <= i < n - 1 ensures !IsHeading(p, lines[1..n][i]) {
        assert lines[1..n][i] == lines[1..][i];
      }
      ScenesKeepText(p, lines[1..n], 0);
      ChaptersKeepText(p, lines[n..], number + 1);
      KeptHeading(p, lines);
      assert lines[1..] == lines[1..n] + lines[n..];
      KeptAppend(p, lines[1..n], lines[n..]);
      var first := Chapter(number, Strip(lines[0]), ScenesOf(p, lines[1..n], 0));
      var rest := ChaptersOf(p, lines[n..], number + 1);
      assert ([first] + rest)[1..] == rest;
    }
  }

  /** Every word of a manuscript with a heading is in the front matter, a title, a
      paragraph or a scene break, whole, once and in order; only scene breaks are dropped, and only
      after the first heading. */
  lemma ParsingKeepsText(p: Patterns, text: string)
    requires Strip(text) != ""
    requires NextHeading(p, SplitOn(text, '\n')) < |SplitOn(text, '\n')|
    ensures
      var lines := SplitOn(text, '\n');
      var n := NextHeading(p, lines);
      var r := Parsed(p, text).value;
      && Words(r.frontMatter) == AllWords(lines[..n])
      && ChapterWords(r.chapters) == KeptWords(p, lines[n..])
      && Words(text) == Words(r.frontMatter) + AllWords(lines[n..])
  {
    hide Strip, Join, Words, IsSpace, ChaptersOf, ChapterWords, KeptWords, IsHeading;
    var lines := SplitOn(text, '\n');
    var n := NextHeading(p, lines);
    ChaptersKeepText(p, lines[n..], 1);
    WordsOfStrip(Join(lines[..n], "\n"));
    NewlineIsBlank();
    WordsOfJoin(lines[..n], "\n");
    WordsOfSplit(text, '\n');
    assert lines == lines[..n] + lines[n..];
    AllWordsAppend(lines[..n], lines[n..]);
  }

  lemma {:induction false} LineParagraphsKeepText(p: Patterns, lines: seq<string>, at: nat)
    ensures ParagraphWords(LineParagraphs(p, lines, at)) == AllWords(lines)
  {
    hide Strip, Words, IsSpace;
    if lines == [] {
      AllWordsOne("");
    } else {
      LineParagraphsKeepText(p, lines[1..], at + 1);
      WordsOfStrip(lines[0]);
      WordlessWhenStrippedAway(lines[0]);
      var rest := LineParagraphs(p, lines[1..], at + 1);
      assert ([MakeParagraph(p, at, Strip(lines[0]))] + rest)[1..] == rest;
      assert [] + rest == rest;
    }
  }

  /** Without a heading the whole text is kept twice: as the front matter and as the one chapter. */
  lemma NoHeadingKeepsTextTwice(p: Patterns, text: string)
    requires Strip(text) != ""
    requires NextHeading(p, SplitOn(text, '\n')) == |SplitOn(text, '\n')|
    ensures
      var r := Parsed(p, text).value;
      && Words(r.frontMatter) == Words(text)
      && |r.chapters| == 1 && SceneWords(r.chapters[0].scenes) == Words(text)
  {
    hide Strip, Join, Words, IsSpace, LineParagraphs, IsHeading;
    var lines := SplitOn(text, '\n');
    LineParagraphsKeepText(p, lines, 0);
    NewlineIsBlank();
    WordsOfSplit(text, '\n');
    assert lines[..|lines|] == lines;
    WordsOfStrip(Join(lines, "\n"));
    WordsOfJoin(lines, "\n");
    var scenes := [Scene(0, LineParagraphs(p, lines, 0))];
    assert SceneWords(scenes[1..]) == [];
  }

  predicate ParagraphsNumbered(paragraphs: seq<Paragraph>, index: nat) {
    forall i :: 0 <= i < |paragraphs| ==> paragraphs[i].index == index + i && paragraphs[i].text != ""
  }

  predicate ScenesNumbered(scenes: seq<Scene>, index: nat) {
    forall i :: 0 <= i < |scenes| ==> scenes[i].index == index + i && ParagraphsNumbered(scenes[i].paragraphs, 0)
  }

  lemma {:induction false} ParagraphsAreNumbered(p: Patterns, lines: seq<string>, index: nat)
    ensures ParagraphsNumbered(ParagraphsOf(p, lines, index), index)
    decreases |lines|
  {
    hide Strip, Join, NextBlank;
    if lines != [] {
      var n := NextBlank(lines);
      if n == 0 {
        ParagraphsAreNumbered(p, lines[1..], index);
      } else {
        ParagraphsAreNumbered(p, lines[n..], index + 1);
        JoinedIsNotBlank(lines[..n]);
      }
    }
  }

  lemma {:induction false} ScenesAreNumbered(p: Patterns, lines: seq<string>, index: nat)
    ensures ScenesOf(p, lines, index) != [] && ScenesNumbered(ScenesOf(p, lines, index), index)
    decreases |lines|
  {
    hide ParagraphsOf, ParagraphsNumbered, NextBreak, IsBreak;
    var n := NextBreak(p, lines);
    ParagraphsAreNumbered(p, lines[..n], 0);
    var scene := Scene(index, ParagraphsOf(p, lines[..n], 0));
    if n < |lines| {
      ScenesAreNumbered(p, lines[n+1..], index + 1);
      assert ScenesOf(p, lines, index) == [scene] + ScenesOf(p, lines[n+1..], index + 1);
    } else {
      assert ScenesOf(p, lines, index) == [scene];
    }
  }

  predicate ChaptersNumbered(chapters: seq<Chapter>, number: nat) {
    forall i :: 0 <= i < |chapters| ==>
      chapters[i].number == number + i && chapters[i].scenes != [] && ScenesNumbered(chapters[i].scenes, 0)
  }

  /** Chapters count from `number`, the scenes of a chapter and the paragraphs of a scene from 0,
      without gaps, and no chapter is without a scene. */
  lemma {:induction false} ChaptersAreNumbered(p: Patterns, lines: seq<string>, number: nat)
    ensures ChaptersNumbered(ChaptersOf(p, lines, number), number)
    decreases |lines|
  {
    hide ScenesNumbered, ScenesOf, NextHeading, IsHeading, Strip, NextBreak;
    if lines != [] {
      var n := 1 + NextHeading(p, lines[1..]);
      ScenesAreNumbered(p, lines[1..n], 0);
      ChaptersAreNumbered(p, lines[n..], number + 1);
    }
  }
}
