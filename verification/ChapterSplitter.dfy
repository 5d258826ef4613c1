/** Heuristic chapter detection on the raw text (backend/services/text_processor.py:77-104).  What
    counts as a heading is a set of patterns, here any predicate on the stripped line. */
module ChapterSplitter {
  import opened Text
  import opened TextWords

  const MIN_CHAPTER_BODY := 500
  const MAX_HEADING := 80

  datatype Chapter = Chapter(title: string, text: string)

  predicate IsHeading(line: string, matches: string -> bool) {
    Strip(line) != "" && |Strip(line)| <= MAX_HEADING && matches(Strip(line))
  }

  /** Lines a..b-1 without those that became titles. */
  function Selected(lines: seq<string>, kept: seq<bool>, a: int, b: int): seq<string>
    requires 0 <= a && b <= |kept| <= |lines|
    decreases b - a
  {
    if a >= b then []
    else Selected(lines, kept, a, b - 1) + (if kept[b-1] then [lines[b-1]] else [])
  }

  function Body(buf: seq<string>): string {
    Strip(Join(buf, "\n"))
  }

  /** Line i is left out of segment a.. of the k-th chapter: its first line, a heading; or, before
      the first chapter has any text, a heading that only renames it. */
  predicate LeftOut(lines: seq<string>, matches: string -> bool, kept: seq<bool>, k: nat, a: nat, i: nat)
    requires i < |kept| <= |lines|
  {
    IsHeading(lines[i], matches) && if k > 0 then i == a else Body(Selected(lines, kept, 0, i)) == ""
  }

  /** Line i is left out, and no later line before b is. */
  predicate LastOut(kept: seq<bool>, i: nat, b: nat)
    requires i < b <= |kept|
  {
    !kept[i] && forall j :: i < j < b ==> kept[j]
  }

  /** A later chapter is titled by its first line; the first one by the last heading left out of it, if any. */
  predicate TitleOf(lines: seq<string>, kept: seq<bool>, k: nat, a: nat, b: nat, title: string)
    requires b <= |kept| <= |lines|
  {
    if k > 0 then a < b && !kept[a] && title == Strip(lines[a])
    else
      || (title == "Introduction" && forall i :: a <= i < b ==> kept[i])
      || exists i :: a <= i < b && LastOut(kept, i, b) && title == Strip(lines[i])
  }

  /** Segment k holds the lines a..b-1: exactly the headings above are left out of it, the title is right, and
      no heading inside it comes after a long enough body. */
  predicate Segment(lines: seq<string>, matches: string -> bool, kept: seq<bool>, k: nat, a: nat, b: nat, title: string)
    requires |kept| <= |lines|
  {
    && a <= b <= |kept|
    && (forall i :: a <= i < b ==> (kept[i] <==> !LeftOut(lines, matches, kept, k, a, i)))
    && (forall i :: a <= i < b ==> NoCut(lines, matches, kept, a, i))
    && TitleOf(lines, kept, k, a, b, title)
  }

  predicate NoCut(lines: seq<string>, matches: string -> bool, kept: seq<bool>, a: nat, i: nat)
    requires i < |kept| <= |lines|
  {
    IsHeading(lines[i], matches) ==> |Body(Selected(lines, kept, a, i))| <= MIN_CHAPTER_BODY
  }

  predicate HasText(lines: seq<string>, kept: seq<bool>, chapter: Chapter, a: nat, b: nat)
    requires |kept| <= |lines|
  {
    b <= |kept| && chapter.text == Body(Selected(lines, kept, a, b))
  }

  /** The finished chapters are consecutive segments of the first n lines, each body over the minimum. */
  predicate Laid(lines: seq<string>, matches: string -> bool, chapters: seq<Chapter>, bounds: seq<nat>, kept: seq<bool>)
    requires |kept| <= |lines|
  {
    && |bounds| == |chapters| + 1 && bounds[0] == 0
    && forall k :: 0 <= k < |chapters| ==>
         && Segment(lines, matches, kept, k, bounds[k], bounds[k+1], chapters[k].title)
         && HasText(lines, kept, chapters[k], bounds[k], bounds[k+1])
         && |chapters[k].text| > MIN_CHAPTER_BODY
  }

  lemma {:induction false} SelectedFrame(lines: seq<string>, kept: seq<bool>, x: bool, a: int, b: int)
    requires 0 <= a && b <= |kept| < |lines|
    ensures Selected(lines, kept + [x], a, b) == Selected(lines, kept, a, b)
    decreases b - a
  {
    if a < b {
      SelectedFrame(lines, kept, x, a, b - 1);
    }
  }

  lemma SegmentFrame(lines: seq<string>, matches: string -> bool, kept: seq<bool>, x: bool, k: nat, a: nat, b: nat,
                     title: string)
    requires |kept| < |lines| && Segment(lines, matches, kept, k, a, b, title)
    ensures Segment(lines, matches, kept + [x], k, a, b, title)
  {
    hide IsHeading, Body;
    var kept' := kept + [x];
    forall i | a <= i < b
      ensures kept'[i] <==> !LeftOut(lines, matches, kept', k, a, i)
      ensures NoCut(lines, matches, kept', a, i)
    {
      assert kept'[i] == kept[i] && NoCut(lines, matches, kept, a, i);
      assert kept[i] <==> !LeftOut(lines, matches, kept, k, a, i);
      SelectedFrame(lines, kept, x, 0, i);
      SelectedFrame(lines, kept, x, a, i);
    }
    TitleFrame(lines, kept, x, k, a, b, title);
  }

  lemma TitleFrame(lines: seq<string>, kept: seq<bool>, x: bool, k: nat, a: nat, b: nat, title: string)
    requires b <= |kept| < |lines| && TitleOf(lines, kept, k, a, b, title)
    ensures TitleOf(lines, kept + [x], k, a, b, title)
  {
    if k == 0 && !(title == "Introduction" && forall i :: a <= i < b ==> kept[i]) {
      var i :| a <= i < b && LastOut(kept, i, b) && title == Strip(lines[i]);
      assert LastOut(kept + [x], i, b);
    }
  }

  /** A line that is kept keeps the title. */
  lemma TitleKept(lines: seq<string>, kept: seq<bool>, k: nat, a: nat, title: string)
    requires |kept| < |lines| && TitleOf(lines, kept, k, a, |kept|, title)
    ensures TitleOf(lines, kept + [true], k, a, |kept| + 1, title)
  {
    if k == 0 && !(title == "Introduction" && forall i :: a <= i < |kept| ==> kept[i]) {
      var i :| a <= i < |kept| && LastOut(kept, i, |kept|) && title == Strip(lines[i]);
      assert LastOut(kept + [true], i, |kept| + 1);
    }
  }

  lemma LaidFrame(lines: seq<string>, matches: string -> bool, chapters: seq<Chapter>, bounds: seq<nat>,
                  kept: seq<bool>, x: bool)
    requires |kept| < |lines| && Laid(lines, matches, chapters, bounds, kept)
    ensures Laid(lines, matches, chapters, bounds, kept + [x])
  {
    hide Segment, Body;
    forall k | 0 <= k < |chapters|
      ensures Segment(lines, matches, kept + [x], k, bounds[k], bounds[k+1], chapters[k].title)
      ensures HasText(lines, kept + [x], chapters[k], bounds[k], bounds[k+1])
    {
      SegmentFrame(lines, matches, kept, x, k, bounds[k], bounds[k+1], chapters[k].title);
      SegmentBounds(lines, matches, kept, k, bounds[k], bounds[k+1], chapters[k].title);
      SelectedFrame(lines, kept, x, bounds[k], bounds[k+1]);
    }
  }

  lemma SegmentBounds(lines: seq<string>, matches: string -> bool, kept: seq<bool>, k: nat, a: nat, b: nat,
      title: string)
    requires |kept| <= |lines| && Segment(lines, matches, kept, k, a, b, title)
    ensures a <= b <= |kept|
  {
  }

  /** The pending segment from the last bound to line |kept|. */
  predicate Open(lines: seq<string>, matches: string -> bool, chapters: seq<Chapter>, bounds: seq<nat>, kept: seq<bool>,
                 title: string, buf: seq<string>)
    requires |kept| <= |lines|
  {
    && |bounds| == |chapters| + 1
    && Segment(lines, matches, kept, |chapters|, bounds[|chapters|], |kept|, title)
    && buf == Selected(lines, kept, bounds[|chapters|], |kept|)
  }

  lemma KeepLine(lines: seq<string>, matches: string -> bool, chapters: seq<Chapter>, bounds: seq<nat>, kept: seq<bool>,
                 title: string, buf: seq<string>)
    requires |kept| < |lines| && Laid(lines, matches, chapters, bounds, kept)
    requires Open(lines, matches, chapters, bounds, kept, title, buf)
    requires IsHeading(lines[|kept|], matches) ==>
               |Body(buf)| <= MIN_CHAPTER_BODY && (chapters != [] || Body(buf) != "")
    ensures Laid(lines, matches, chapters, bounds, kept + [true])
    ensures Open(lines, matches, chapters, bounds, kept + [true], title, buf + [lines[|kept|]])
  {
    hide IsHeading, Body, TitleOf;
    var k, a, n, kept' := |chapters|, bounds[|chapters|], |kept|, kept + [true];
    LaidFrame(lines, matches, chapters, bounds, kept, true);
    SegmentFrame(lines, matches, kept, true, k, a, n, title);
    SelectedFrame(lines, kept, true, a, n);
    TitleKept(lines, kept, k, a, title);
    LaterBound(lines, kept, k, a, n, title);
    LaidBegins(lines, matches, chapters, bounds, kept);
    forall i | a <= i < n + 1
      ensures kept'[i] <==> !LeftOut(lines, matches, kept', k, a, i)
      ensures NoCut(lines, matches, kept', a, i)
    {
    }
  }

  lemma LaterBound(lines: seq<string>, kept: seq<bool>, k: nat, a: nat, b: nat, title: string)
    requires b <= |kept| <= |lines| && TitleOf(lines, kept, k, a, b, title)
    ensures k > 0 ==> a < b
  {
  }

  lemma LaidBegins(lines: seq<string>, matches: string -> bool, chapters: seq<Chapter>, bounds: seq<nat>,
                   kept: seq<bool>)
    requires |kept| <= |lines| && Laid(lines, matches, chapters, bounds, kept)
    ensures |bounds| == |chapters| + 1 && bounds[0] == 0
  {
  }

  /** The closed segment is one more chapter. */
  lemma LaidClosed(lines: seq<string>, matches: string -> bool, chapters: seq<Chapter>, bounds: seq<nat>,
                   kept: seq<bool>, title: string, buf: seq<string>)
    requires |kept| < |lines| && Laid(lines, matches, chapters, bounds, kept)
    requires Open(lines, matches, chapters, bounds, kept, title, buf) && |Body(buf)| > MIN_CHAPTER_BODY
    ensures Laid(lines, matches, chapters + [Chapter(title, Body(buf))], bounds + [|kept|], kept + [false])
  {
    hide Segment, Body, Selected;
    var k, a, n := |chapters|, bounds[|chapters|], |kept|;
    LaidFrame(lines, matches, chapters, bounds, kept, false);
    SegmentFrame(lines, matches, kept, false, k, a, n, title);
    SegmentBounds(lines, matches, kept, k, a, n, title);
    SelectedFrame(lines, kept, false, a, n);
    var chapters', bounds' := chapters + [Chapter(title, Body(buf))], bounds + [n];
    forall i | 0 <= i < |chapters'|
      ensures Segment(lines, matches, kept + [false], i, bounds'[i], bounds'[i+1], chapters'[i].title)
      ensures HasText(lines, kept + [false], chapters'[i], bounds'[i], bounds'[i+1])
      ensures |chapters'[i].text| > MIN_CHAPTER_BODY
    {
      if i < k {
        assert chapters'[i] == chapters[i] && bounds'[i] == bounds[i] && bounds'[i+1] == bounds[i+1];
      }
    }
  }

  /** An accepted heading closes the segment and opens the next with itself as first line. */
  lemma CloseChapter(lines: seq<string>, matches: string -> bool, chapters: seq<Chapter>, bounds: seq<nat>,
                     kept: seq<bool>, title: string, buf: seq<string>)
    requires |kept| < |lines| && Laid(lines, matches, chapters, bounds, kept)
    requires Open(lines, matches, chapters, bounds, kept, title, buf)
    requires IsHeading(lines[|kept|], matches) && |Body(buf)| > MIN_CHAPTER_BODY
    ensures
      var chapters', bounds' := chapters + [Chapter(title, Body(buf))], bounds + [|kept|];
      && Laid(lines, matches, chapters', bounds', kept + [false])
      && Open(lines, matches, chapters', bounds', kept + [false], Strip(lines[|kept|]), [])
  {
    hide IsHeading, Body, Laid;
    LaidClosed(lines, matches, chapters, bounds, kept, title, buf);
    var k, n, kept' := |chapters|, |kept|, kept + [false];
    assert Selected(lines, kept', n, n + 1) == Selected(lines, kept', n, n) + [];
    assert Selected(lines, kept', n, n) == [];
    EmptyBody();
  }

  lemma EmptyBody()
    ensures Body([]) == ""
  {
  }

  /** Before the first chapter has text, a heading replaces its title. */
  lemma Retitle(lines: seq<string>, matches: string -> bool, bounds: seq<nat>, kept: seq<bool>, title: string,
                buf: seq<string>)
    requires |kept| < |lines| && Laid(lines, matches, [], bounds, kept)
    requires Open(lines, matches, [], bounds, kept, title, buf)
    requires IsHeading(lines[|kept|], matches) && Body(buf) == ""
    ensures Laid(lines, matches, [], bounds, kept + [false])
    ensures Open(lines, matches, [], bounds, kept + [false], Strip(lines[|kept|]), buf)
  {
    hide IsHeading, Body;
    var n := |kept|;
    SegmentFrame(lines, matches, kept, false, 0, 0, n, title);
    SelectedFrame(lines, kept, false, 0, n);
    var kept' := kept + [false];
    assert buf + [] == buf;
    forall i | 0 <= i < n + 1 && !kept'[i]
      ensures LeftOut(lines, matches, kept', 0, 0, i)
    {
    }
    assert 0 <= n < n + 1 && !kept'[n];
  }

  /** `_split_by_heuristics`.  The chapters are consecutive runs of lines.  A chapter's body is its
      lines joined and stripped, but for the heading that titles it; every later chapter starts with its
      heading; only headings are left out.  Every chapter but a sole one has a long enough body, and
      what is dropped at the end is at most one run that is too short, when chapters precede it. */
  method SplitByHeuristics(text: string, matches: string -> bool)
      returns (chapters: seq<Chapter>, ghost laid: seq<Chapter>, ghost bounds: seq<nat>, ghost kept: seq<bool>,
               ghost lastTitle: string)
    ensures |kept| == |SplitOn(text, '\n')|
    ensures Laid(SplitOn(text, '\n'), matches, laid, bounds, kept)
    ensures var lines := SplitOn(text, '\n');
            Segment(lines, matches, kept, |laid|, bounds[|laid|], |lines|, lastTitle)
    ensures var lines := SplitOn(text, '\n');
            var tail := Body(Selected(lines, kept, bounds[|laid|], |lines|));
            chapters == if |tail| > MIN_CHAPTER_BODY then laid + [Chapter(lastTitle, tail)]
                        else if laid != [] then laid
                        else [Chapter(lastTitle, if tail != "" then tail else Strip(text))]
    ensures chapters != [] && (|chapters| > 1 ==> forall c :: c in chapters ==> |c.text| > MIN_CHAPTER_BODY)
  {
    hide Laid, Open, IsHeading, Selected, Body;
    var lines := SplitOn(text, '\n');
    chapters, bounds, kept := [], [0], [];
    var title, buf := "Introduction", [];
    StartOfSplit(lines, matches);
    for n := 0 to |lines|
      invariant |kept| == n && (chapters == [] ==> bounds == [0])
      invariant Laid(lines, matches, chapters, bounds, kept)
      invariant Open(lines, matches, chapters, bounds, kept, title, buf)
    {
      var line := lines[n];
      var stripped := Strip(line);
      var heading := stripped != "" && |stripped| <= MAX_HEADING && matches(stripped);
      HeadingTest(line, matches);
      if heading {
        var body := Body(buf);
        if |body| > MIN_CHAPTER_BODY {
          CloseChapter(lines, matches, chapters, bounds, kept, title, buf);
          chapters, bounds, kept := chapters + [Chapter(title, body)], bounds + [n], kept + [false];
          buf, title := [], stripped;
        } else if chapters == [] && body == "" {
          Retitle(lines, matches, bounds, kept, title, buf);
          title, kept := stripped, kept + [false];
        } else {
          KeepLine(lines, matches, chapters, bounds, kept, title, buf);
          buf, kept := buf + [line], kept + [true];
        }
      } else {
        KeepLine(lines, matches, chapters, bounds, kept, title, buf);
        buf, kept := buf + [line], kept + [true];
      }
    }
    laid, lastTitle := chapters, title;
    OpenParts(lines, matches, chapters, bounds, kept, title, buf);
    LaidBodies(lines, matches, chapters, bounds, kept);
    var body := Body(buf);
    if |body| > MIN_CHAPTER_BODY || chapters == [] {
      chapters := chapters + [Chapter(title, if body != "" then body else Strip(text))];
    }
  }

  lemma StartOfSplit(lines: seq<string>, matches: string -> bool)
    ensures Laid(lines, matches, [], [0], []) && Open(lines, matches, [], [0], [], "Introduction", [])
  {
  }

  lemma HeadingTest(line: string, matches: string -> bool)
    ensures IsHeading(line, matches) == (Strip(line) != "" && |Strip(line)| <= MAX_HEADING && matches(Strip(line)))
  {
  }

  lemma OpenParts(lines: seq<string>, matches: string -> bool, chapters: seq<Chapter>, bounds: seq<nat>,
      kept: seq<bool>, title: string, buf: seq<string>)
    requires |kept| <= |lines| && Open(lines, matches, chapters, bounds, kept, title, buf)
    ensures |bounds| == |chapters| + 1 && bounds[|chapters|] <= |kept|
    ensures Segment(lines, matches, kept, |chapters|, bounds[|chapters|], |kept|, title)
    ensures buf == Selected(lines, kept, bounds[|chapters|], |kept|)
  {
  }

  lemma LaidBodies(lines: seq<string>, matches: string -> bool, chapters: seq<Chapter>, bounds: seq<nat>,
      kept: seq<bool>)
    requires |kept| <= |lines| && Laid(lines, matches, chapters, bounds, kept)
    ensures forall c :: c in chapters ==> |c.text| > MIN_CHAPTER_BODY
  {
  }

  // ---------- conservation ----------

  function Texts(chapters: seq<Chapter>): seq<string> {
    seq(|chapters|, k requires 0 <= k < |chapters| => chapters[k].text)
  }

  /** A body keeps the words of its lines apart. */
  lemma WordsOfBody(buf: seq<string>)
    ensures Words(Body(buf)) == AllWords(buf)
  {
    hide Words, Strip;
    assert Blank("\n");
    WordsOfStrip(Join(buf, "\n"));
    WordsOfJoin(buf, "\n");
  }

  lemma {:induction false} SelectedSplits(lines: seq<string>, kept: seq<bool>, a: nat, b: nat, c: nat)
    requires a <= b <= c <= |kept| <= |lines|
    ensures Selected(lines, kept, a, c) == Selected(lines, kept, a, b) + Selected(lines, kept, b, c)
    decreases c - b
  {
    if b < c {
      SelectedSplits(lines, kept, a, b, c - 1);
    }
  }

  /** The bodies, in order, have the words of the lines kept up to the last bound. */
  lemma {:induction false} BodiesConserve(lines: seq<string>, matches: string -> bool, chapters: seq<Chapter>,
                                          bounds: seq<nat>, kept: seq<bool>)
    requires |kept| <= |lines| && Laid(lines, matches, chapters, bounds, kept)
    ensures bounds[|chapters|] <= |kept|
    ensures AllWords(Texts(chapters)) == AllWords(Selected(lines, kept, 0, bounds[|chapters|]))
    decreases |chapters|
  {
    hide Words, Body, Segment, Selected;
    if chapters == [] {
      SelectedNone(lines, kept);
    } else {
      var m := |chapters| - 1;
      var init := chapters[..m];
      assert Laid(lines, matches, init, bounds[..m+1], kept);
      BodiesConserve(lines, matches, init, bounds[..m+1], kept);
      SegmentBounds(lines, matches, kept, m, bounds[m], bounds[m+1], chapters[m].title);
      assert Texts(chapters) == Texts(init) + [chapters[m].text];
      AllWordsAppend(Texts(init), [chapters[m].text]);
      AllWordsOne(chapters[m].text);
      WordsOfBody(Selected(lines, kept, bounds[m], bounds[m+1]));
      SelectedSplits(lines, kept, 0, bounds[m], bounds[m+1]);
      AllWordsAppend(Selected(lines, kept, 0, bounds[m]), Selected(lines, kept, bounds[m], bounds[m+1]));
    }
  }

  lemma SelectedNone(lines: seq<string>, kept: seq<bool>)
    requires |kept| <= |lines|
    ensures Selected(lines, kept, 0, 0) == [] && Texts([]) == []
  {
  }

  /** The words of every line that is not a heading land in exactly one body, in order and whole; the tail is
      what a final short run may drop. */
  lemma SplitConservesText(text: string, matches: string -> bool, laid: seq<Chapter>, bounds: seq<nat>, kept: seq<bool>,
                           lastTitle: string)
    requires |kept| == |SplitOn(text, '\n')| && Laid(SplitOn(text, '\n'), matches, laid, bounds, kept)
    requires Segment(SplitOn(text, '\n'), matches, kept, |laid|, bounds[|laid|], |kept|, lastTitle)
    ensures
      var lines := SplitOn(text, '\n');
      var tail := Body(Selected(lines, kept, bounds[|laid|], |lines|));
      && (forall i :: 0 <= i < |lines| && !kept[i] ==> IsHeading(lines[i], matches))
      && AllWords(Texts(laid)) + Words(tail) == AllWords(Selected(lines, kept, 0, |lines|))
  {
    hide Words, Body;
    var lines := SplitOn(text, '\n');
    var b := bounds[|laid|];
    BodiesConserve(lines, matches, laid, bounds, kept);
    WordsOfBody(Selected(lines, kept, b, |lines|));
    SelectedSplits(lines, kept, 0, b, |lines|);
    AllWordsAppend(Selected(lines, kept, 0, b), Selected(lines, kept, b, |lines|));
    OnlyHeadingsLeftOut(lines, matches, laid, bounds, kept, lastTitle);
  }

  lemma OnlyHeadingsLeftOut(lines: seq<string>, matches: string -> bool, laid: seq<Chapter>, bounds: seq<nat>,
                            kept: seq<bool>, lastTitle: string)
    requires |kept| == |lines| && Laid(lines, matches, laid, bounds, kept)
    requires Segment(lines, matches, kept, |laid|, bounds[|laid|], |kept|, lastTitle)
    ensures forall i :: 0 <= i < |lines| && !kept[i] ==> IsHeading(lines[i], matches)
  {
    hide Body, IsHeading;
    forall i | 0 <= i < |lines| && !kept[i]
      ensures IsHeading(lines[i], matches)
    {
      var k := SegmentContaining(bounds, i);
      assert LeftOut(lines, matches, kept, k, bounds[k], i);
    }
  }

  lemma {:induction false} SegmentContaining(bounds: seq<nat>, i: nat) returns (k: nat)
    requires bounds != [] && bounds[0] == 0
    ensures k < |bounds| && bounds[k] <= i && (k + 1 < |bounds| ==> i < bounds[k+1])
    decreases |bounds|
  {
    k := |bounds| - 1;
    if i < bounds[k] {
      k := SegmentContaining(bounds[..k], i);
    }
  }
}
