/** Chapters split at explicit markers (backend/services/text_processor.py:58-75). */
module MarkerSplitter {
  import opened Text
  import opened TextWords
  import opened ChapterSplitter

  const CHAPTER_MARKER := "@@CHAPTER@@"

  predicate IsMarker(line: string) {
    CHAPTER_MARKER <= Strip(line)
  }

  /** What follows the marker, or a number; `decimal` is Python's `str` of an int. */
  function MarkerTitle(line: string, count: nat, decimal: nat -> string): string
    requires IsMarker(line)
  {
    var rest := Strip(Strip(line)[|CHAPTER_MARKER|..]);
    if rest != "" then rest else "Chapter " + decimal(count + 1)
  }

  // ---------- the reference: the runs between markers ----------

  function NextMarker(lines: seq<string>): (n: nat)
    ensures n <= |lines| && (n < |lines| ==> IsMarker(lines[n]))
    ensures forall i :: 0 <= i < n ==> !IsMarker(lines[i])
  {
    if lines == [] || IsMarker(lines[0]) then 0 else 1 + NextMarker(lines[1..])
  }

  function IfAny(title: string, lines: seq<string>): seq<Chapter> {
    if Body(lines) != "" then [Chapter(title, Body(lines))] else []
  }

  /** One chapter for each marker that has text before the next one; `lines` starts with a marker. */
  function MarkedFrom(lines: seq<string>, count: nat, decimal: nat -> string): seq<Chapter>
    requires lines != [] ==> IsMarker(lines[0])
    decreases |lines|
  {
    if lines == [] then []
    else
      var n := 1 + NextMarker(lines[1..]);
      var first := IfAny(MarkerTitle(lines[0], count, decimal), lines[1..n]);
      first + MarkedFrom(lines[n..], count + |first|, decimal)
  }

  /** A run under way, then the marked chapters. */
  function Marked(title: string, lines: seq<string>, count: nat, decimal: nat -> string): seq<Chapter> {
    var n := NextMarker(lines);
    var first := IfAny(title, lines[..n]);
    first + MarkedFrom(lines[n..], count + |first|, decimal)
  }

  function SplitAtMarkers(text: string, decimal: nat -> string): seq<Chapter> {
    var chapters := Marked("Front Matter", SplitOn(text, '\n'), 0, decimal);
    if chapters != [] then chapters else [Chapter("Full Book", Strip(text))]
  }

  // ---------- the loop ----------

  /** `_split_by_marker` */
  method SplitByMarker(text: string, decimal: nat -> string) returns (chapters: seq<Chapter>)
    ensures chapters == SplitAtMarkers(text, decimal)
  {
    hide Strip, Body, IsMarker, Marked, MarkedFrom, NextMarker, MarkerTitle, SplitOn, IfAny, Join;
    var lines := SplitOn(text, '\n');
    chapters := [];
    var title, buf := "Front Matter", [];
    assert [] + lines[0..] == lines;
    for i := 0 to |lines|
      invariant forall k :: 0 <= k < |buf| ==> !IsMarker(buf[k])
      invariant chapters + Marked(title, buf + lines[i..], |chapters|, decimal)
          == Marked("Front Matter", lines, 0, decimal)
    {
      var line := lines[i];
      MarkerTest(line);
      if CHAPTER_MARKER <= Strip(line) {
        AtMarker(chapters, title, buf, lines, i, decimal);
        IfAnyIs(title, buf);
        var body := Body(buf);
        if body != "" {
          chapters := chapters + [Chapter(title, body)];
        }
        title := MarkerTitle(line, |chapters|, decimal);
        buf := [];
      } else {
        assert buf + lines[i..] == (buf + [line]) + lines[i+1..];
        buf := buf + [line];
      }
    }
    assert buf + lines[|lines|..] == buf;
    MarkedEnd(title, buf, |chapters|, decimal);
    IfAnyIs(title, buf);
    var body := Body(buf);
    if body != "" {
      chapters := chapters + [Chapter(title, body)];
    }
    if chapters == [] {
      chapters := [Chapter("Full Book", Strip(text))];
    }
  }

  lemma IfAnyIs(title: string, lines: seq<string>)
    ensures IfAny(title, lines) == if Body(lines) != "" then [Chapter(title, Body(lines))] else []
  {
  }

  lemma MarkerTest(line: string)
    ensures IsMarker(line) <==> CHAPTER_MARKER <= Strip(line)
  {
  }

  lemma {:induction false} MarkerAfter(buf: seq<string>, lines: seq<string>)
    requires forall k :: 0 <= k < |buf| ==> !IsMarker(buf[k])
    requires lines == [] || IsMarker(lines[0])
    ensures NextMarker(buf + lines) == |buf|
  {
    hide IsMarker;
    if buf == [] {
      assert buf + lines == lines;
    } else {
      assert (buf + lines)[1..] == buf[1..] + lines;
      MarkerAfter(buf[1..], lines);
    }
  }

  /** At a marker the run under way is complete and the next one is empty. */
  lemma MarkedAt(title: string, buf: seq<string>, lines: seq<string>, count: nat, decimal: nat -> string)
    requires forall k :: 0 <= k < |buf| ==> !IsMarker(buf[k])
    requires lines != [] && IsMarker(lines[0])
    ensures
      var first := IfAny(title, buf);
      Marked(title, buf + lines, count, decimal)
      == first + Marked(MarkerTitle(lines[0], count + |first|, decimal), lines[1..], count + |first|, decimal)
  {
    hide IsMarker, MarkerTitle, IfAny, NextMarker;
    MarkerAfter(buf, lines);
    var all := buf + lines;
    assert all[..|buf|] == buf && all[|buf|..] == lines;
    var n := NextMarker(lines[1..]);
    assert lines[1..n+1] == lines[1..][..n] && lines[n+1..] == lines[1..][n..];
  }

  lemma AtMarker(chapters: seq<Chapter>, title: string, buf: seq<string>, lines: seq<string>, i: nat,
                 decimal: nat -> string)
    requires forall k :: 0 <= k < |buf| ==> !IsMarker(buf[k])
    requires i < |lines| && IsMarker(lines[i])
    ensures
      var before := chapters + IfAny(title, buf);
      before + Marked(MarkerTitle(lines[i], |before|, decimal), [] + lines[i+1..], |before|, decimal)
      == chapters + Marked(title, buf + lines[i..], |chapters|, decimal)
    ensures IfAny(title, buf) == [] ==> chapters + IfAny(title, buf) == chapters
  {
    hide IsMarker, MarkerTitle, IfAny, Marked;
    MarkedAt(title, buf, lines[i..], |chapters|, decimal);
    assert lines[i..][1..] == [] + lines[i+1..];
  }

  lemma MarkedEnd(title: string, buf: seq<string>, count: nat, decimal: nat -> string)
    requires forall k :: 0 <= k < |buf| ==> !IsMarker(buf[k])
    ensures Marked(title, buf, count, decimal) == IfAny(title, buf)
  {
    hide IsMarker, Body;
    MarkerAfter(buf, []);
    assert buf + [] == buf && buf[..|buf|] == buf && buf[|buf|..] == [];
  }

  // ---------- conservation ----------

  /** The words of the lines that are not markers. */
  function UnmarkedWords(lines: seq<string>): seq<string> {
    if lines == [] then []
    else (if IsMarker(lines[0]) then [] else Words(lines[0])) + UnmarkedWords(lines[1..])
  }

  lemma {:induction false} UnmarkedAppend(a: seq<string>, b: seq<string>)
    ensures UnmarkedWords(a + b) == UnmarkedWords(a) + UnmarkedWords(b)
  {
    hide IsMarker, Words;
    if a == [] {
      assert a + b == b;
    } else {
      assert (a + b)[1..] == a[1..] + b;
      UnmarkedAppend(a[1..], b);
    }
  }

  lemma {:induction false} UnmarkedRun(lines: seq<string>)
    requires forall k :: 0 <= k < |lines| ==> !IsMarker(lines[k])
    ensures UnmarkedWords(lines) == AllWords(lines)
  {
    hide IsMarker, Words;
    if lines != [] {
      UnmarkedRun(lines[1..]);
    }
  }

  function BodyWords(chapters: seq<Chapter>): seq<string> {
    if chapters == [] then [] else Words(chapters[0].text) + BodyWords(chapters[1..])
  }

  lemma BodyOfRun(title: string, lines: seq<string>, rest: seq<Chapter>)
    requires forall k :: 0 <= k < |lines| ==> !IsMarker(lines[k])
    ensures BodyWords(IfAny(title, lines) + rest) == UnmarkedWords(lines) + BodyWords(rest)
    ensures IfAny(title, lines) == [] <==> UnmarkedWords(lines) == []
  {
    hide Body, IsMarker, Words, UnmarkedWords;
    UnmarkedRun(lines);
    WordsOfBody(lines);
    BodyBlank(lines);
    if Body(lines) == "" {
      assert [] + rest == rest;
    } else {
      assert ([Chapter(title, Body(lines))] + rest)[1..] == rest;
    }
  }

  lemma BodyBlank(lines: seq<string>)
    ensures Body(lines) == "" <==> Words(Body(lines)) == []
  {
    hide IsSpace, Strip, Join;
    var a, b := StripSplits(Join(lines, "\n"));
    NoWords(Body(lines), "");
    if Body(lines) != "" { assert !Blank(Body(lines)) by { NotBlankWhenStripped(Body(lines)); } }
  }

  lemma NotBlankWhenStripped(s: string)
    requires Stripped(s) && s != ""
    ensures !Blank(s)
  {
    hide IsSpace;
  }

  lemma MarkedUnfolds(lines: seq<string>, count: nat, decimal: nat -> string) returns (n: nat)
    requires lines != [] && IsMarker(lines[0])
    ensures 1 <= n <= |lines| && (n < |lines| ==> IsMarker(lines[n]))
    ensures forall i :: 1 <= i < n ==> !IsMarker(lines[i])
    ensures
      var first := IfAny(MarkerTitle(lines[0], count, decimal), lines[1..n]);
      MarkedFrom(lines, count, decimal) == first + MarkedFrom(lines[n..], count + |first|, decimal)
  {
    hide IsMarker, MarkerTitle, IfAny;
    n := 1 + NextMarker(lines[1..]);
    forall i | 1 <= i < n ensures !IsMarker(lines[i]) { assert lines[i] == lines[1..][i-1]; }
  }

  lemma {:induction false} MarkedKeepsText(lines: seq<string>, count: nat, decimal: nat -> string)
    requires lines != [] ==> IsMarker(lines[0])
    ensures BodyWords(MarkedFrom(lines, count, decimal)) == UnmarkedWords(lines)
    ensures MarkedFrom(lines, count, decimal) == [] <==> UnmarkedWords(lines) == []
    decreases |lines|
  {
    hide IsMarker, Words, IfAny, MarkerTitle, BodyWords, UnmarkedWords, MarkedFrom;
    NothingMarked(count, decimal);
    if lines == [] {
      NoBodies();
    } else {
      MarkerSkipped(lines);
      var n := MarkedUnfolds(lines, count, decimal);
      var title := MarkerTitle(lines[0], count, decimal);
      var first := IfAny(title, lines[1..n]);
      MarkedKeepsText(lines[n..], count + |first|, decimal);
      BodyOfRun(title, lines[1..n], MarkedFrom(lines[n..], count + |first|, decimal));
      assert lines[1..] == lines[1..n] + lines[n..];
      UnmarkedAppend(lines[1..n], lines[n..]);
    }
  }

  lemma NoBodies()
    ensures BodyWords([]) == [] && UnmarkedWords([]) == []
  {
  }

  lemma MarkerSkipped(lines: seq<string>)
    requires lines != [] && IsMarker(lines[0])
    ensures UnmarkedWords(lines) == UnmarkedWords(lines[1..])
  {
  }

  /** Every word of a line that is not a marker is in exactly one chapter, whole and in order; a text with
      nothing between its markers becomes one chapter holding the markers themselves. */
  lemma MarkersConserveText(text: string, decimal: nat -> string)
    ensures
      var lines, chapters := SplitOn(text, '\n'), SplitAtMarkers(text, decimal);
      if UnmarkedWords(lines) != [] then BodyWords(chapters) == UnmarkedWords(lines)
      else chapters == [Chapter("Full Book", Strip(text))]
  {
    hide IsMarker, Words, IfAny, BodyWords, UnmarkedWords, Strip, SplitOn, MarkedFrom;
    var lines := SplitOn(text, '\n');
    var n := NextMarker(lines);
    var first := IfAny("Front Matter", lines[..n]);
    MarkedKeepsText(lines[n..], |first|, decimal);
    BodyOfRun("Front Matter", lines[..n], MarkedFrom(lines[n..], |first|, decimal));
    assert lines == lines[..n] + lines[n..];
    UnmarkedAppend(lines[..n], lines[n..]);
  }

  // ---------- titles and bounds ----------

  /** The lines between two neighbouring markers, or before the first or after the last one, as the chapter
      titled by the marker before them. */
  predicate IsRunOf(lines: seq<string>, decimal: nat -> string, number: nat, c: Chapter, a: int, b: int) {
    && -1 <= a < b <= |lines| && (a >= 0 ==> IsMarker(lines[a])) && (b < |lines| ==> IsMarker(lines[b]))
    && (forall i :: a < i < b ==> !IsMarker(lines[i]))
    && c.text == Strip(Join(lines[a+1..b], "\n")) && c.text != ""
    && if a < 0 then c.title == "Front Matter" && number == 1
       else
         var rest := Strip(Strip(lines[a])[11..]);
         c.title == if rest != "" then rest else "Chapter " + decimal(number)
  }

  lemma RunShifts(lines: seq<string>, n: nat, decimal: nat -> string, number: nat, c: Chapter, a: int, b: int)
    requires n <= |lines| && 0 <= a && IsRunOf(lines[n..], decimal, number, c, a, b)
    ensures IsRunOf(lines, decimal, number, c, n + a, n + b)
  {
    hide IsMarker, Strip, Join;
    assert lines[n..][a+1..b] == lines[n+a+1..n+b];
  }

  lemma FirstRun(lines: seq<string>, decimal: nat -> string, count: nat, n: nat)
    requires lines != [] && IsMarker(lines[0]) && 1 <= n <= |lines| && Body(lines[1..n]) != ""
    requires (forall i :: 1 <= i < n ==> !IsMarker(lines[i])) && (n < |lines| ==> IsMarker(lines[n]))
    ensures IsRunOf(lines, decimal, count + 1, Chapter(MarkerTitle(lines[0], count, decimal), Body(lines[1..n])), 0, n)
  {
    hide Strip, Join;
  }

  lemma FirstMarked(lines: seq<string>, n: nat, title: string, decimal: nat -> string, count: nat)
    requires lines != [] && IsMarker(lines[0]) && 1 <= n <= |lines| && title == MarkerTitle(lines[0], count, decimal)
    requires (forall i :: 1 <= i < n ==> !IsMarker(lines[i])) && (n < |lines| ==> IsMarker(lines[n]))
    ensures |IfAny(title, lines[1..n])| <= 1
    ensures IfAny(title, lines[1..n]) != [] ==>
              IsRunOf(lines, decimal, count + 1, IfAny(title, lines[1..n])[0], 0, n)
  {
    hide IsMarker, MarkerTitle, Body, IsRunOf;
    if Body(lines[1..n]) != "" {
      FirstRun(lines, decimal, count, n);
    }
  }

  lemma MarkedFirst(lines: seq<string>, count: nat, decimal: nat -> string) returns (n: nat, first: seq<Chapter>)
    requires lines != [] && IsMarker(lines[0])
    ensures 1 <= n <= |lines| && (n < |lines| ==> IsMarker(lines[n])) && |first| <= 1
    ensures MarkedFrom(lines, count, decimal) == first + MarkedFrom(lines[n..], count + |first|, decimal)
    ensures first != [] ==> IsRunOf(lines, decimal, count + 1, first[0], 0, n)
  {
    hide IsMarker, MarkerTitle, IfAny, IsRunOf, MarkedFrom, NextMarker;
    n := MarkedUnfolds(lines, count, decimal);
    first := IfAny(MarkerTitle(lines[0], count, decimal), lines[1..n]);
    FirstMarked(lines, n, MarkerTitle(lines[0], count, decimal), decimal, count);
  }

  lemma {:induction false} MarkedChapterIsARun(lines: seq<string>, count: nat, decimal: nat -> string, k: nat)
      returns (a: int, b: int)
    requires (lines != [] ==> IsMarker(lines[0])) && k < |MarkedFrom(lines, count, decimal)|
    ensures 0 <= a && IsRunOf(lines, decimal, count + k + 1, MarkedFrom(lines, count, decimal)[k], a, b)
    decreases |lines|
  {
    hide IsMarker, IsRunOf, MarkedFrom;
    NothingMarked(count, decimal);
    var n, first := MarkedFirst(lines, count, decimal);
    if k < |first| {
      a, b := 0, n;
    } else {
      a, b := MarkedChapterIsARun(lines[n..], count + |first|, decimal, k - |first|);
      RunShifts(lines, n, decimal, count + k + 1, MarkedFrom(lines, count, decimal)[k], a, b);
      a, b := n + a, n + b;
    }
  }

  lemma NothingMarked(count: nat, decimal: nat -> string)
    ensures MarkedFrom([], count, decimal) == []
  {
  }

  lemma FrontRun(lines: seq<string>, decimal: nat -> string, n: nat)
    requires n <= |lines| && Body(lines[..n]) != ""
    requires (forall i :: 0 <= i < n ==> !IsMarker(lines[i])) && (n < |lines| ==> IsMarker(lines[n]))
    ensures IsRunOf(lines, decimal, 1, Chapter("Front Matter", Body(lines[..n])), -1, n)
  {
    hide Strip, Join, IsMarker;
    assert lines[0..n] == lines[..n];
  }

  /** Every chapter is what stands between two neighbouring markers, titled by what follows the marker before it
      or, when nothing does, by its own number; what stands before the first marker is front matter. */
  lemma ChapterIsARun(text: string, decimal: nat -> string, k: nat) returns (a: int, b: int)
    requires UnmarkedWords(SplitOn(text, '\n')) != [] && k < |SplitAtMarkers(text, decimal)|
    ensures IsRunOf(SplitOn(text, '\n'), decimal, k + 1, SplitAtMarkers(text, decimal)[k], a, b)
  {
    hide IsMarker, Words, UnmarkedWords, Strip, SplitOn, MarkedFrom, Body, BodyWords, IsRunOf;
    var lines := SplitOn(text, '\n');
    var n := NextMarker(lines);
    var first := IfAny("Front Matter", lines[..n]);
    var chapters := first + MarkedFrom(lines[n..], |first|, decimal);
    if chapters == [] {
      MarkedKeepsText(lines[n..], |first|, decimal);
      BodyOfRun("Front Matter", lines[..n], []);
      assert lines == lines[..n] + lines[n..];
      UnmarkedAppend(lines[..n], lines[n..]);
      assert false;
    }
    assert SplitAtMarkers(text, decimal) == chapters;
    if k < |first| {
      FrontRun(lines, decimal, n);
      a, b := -1, n;
    } else {
      a, b := MarkedChapterIsARun(lines[n..], |first|, decimal, k - |first|);
      RunShifts(lines, n, decimal, k + 1, chapters[k], a, b);
      a, b := n + a, n + b;
    }
  }
}
