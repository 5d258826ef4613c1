/** What packing text into chunks keeps and how full the chunks are (backend/services/text_processor.py:126-185):
    words stay whole and apart, paragraphs and sentences that fit stay whole, and a chunk ends only where the
    next piece does not fit. */
module ChunkPacking {
  import opened Text
  import opened TextWords
  import opened Utf8
  import opened TextChunker

  // ---------- words ----------

  function TextsOf(units: seq<Unit>): seq<string> {
    if units == [] then [] else [units[0].text] + TextsOf(units[1..])
  }

  predicate Separated(units: seq<Unit>) {
    forall u :: u in units ==> Blank(u.sep) && u.sep != ""
  }

  /** What follows does not continue a word. */
  predicate Complete(current: string) {
    current == "" || IsSpace(current[|current|-1])
  }

  lemma WordsBehind(current: string, text: string, sep: string)
    requires Complete(current) && Blank(sep) && sep != ""
    ensures Words(current + text + sep) == Words(current) + Words(text)
    ensures Complete(current + text + sep)
  {
    hide IsSpace, Words;
    SpaceLast(sep);
    WordsBeforeBlank(current + text, sep);
    if current == "" {
      assert current + text == text;
      WordsAfterBlank("", "");
    } else {
      var x, c := current[..|current|-1], current[|current|-1..];
      assert current == x + c;
      WordsApart(x, c, text);
      WordsBeforeBlank(x, c);
    }
  }

  lemma SpaceLast(sep: string)
    requires Blank(sep) && sep != ""
    ensures IsSpace(sep[|sep|-1])
  {
  }

  lemma EmittedWords(current: string)
    ensures AllWords(Emitted(current)) == Words(current)
  {
    hide Strip, Words;
    WordsOfStrip(current);
    WordlessWhenStrippedAway(current);
    AllWordsOne(Strip(current));
  }

  /** Packing keeps the words of its units, in order. */
  lemma {:induction false} PackedWords(units: seq<Unit>, current: string, max: nat)
    requires Separated(units) && Complete(current)
    ensures AllWords(Packed(units, current, max)) == Words(current) + AllWords(TextsOf(units))
    decreases |units|
  {
    hide *;
    EmittedWords(current);
    NothingPacked(current, max);
    if units != [] {
      var u, rest := units[0], units[1..];
      FirstUnit(units);
      PackOne(u, rest, current, max);
      assert [u] + rest == units;
      if !u.starts && FitsBehind(current, u, max) {
        WordsBehind(current, u.text, u.sep);
        PackedWords(rest, current + u.text + u.sep, max);
      } else {
        NothingBefore();
        WordsBehind("", u.text, u.sep);
        assert "" + u.text + u.sep == u.text + u.sep;
        PackedWords(rest, u.text + u.sep, max);
        AllWordsAppend(Emitted(current), Packed(rest, u.text + u.sep, max));
      }
    }
  }

  lemma NothingPacked(current: string, max: nat)
    ensures Packed([], current, max) == Emitted(current) && AllWords(TextsOf([])) == []
  {
  }

  lemma FirstUnit(units: seq<Unit>)
    requires units != [] && Separated(units)
    ensures AllWords(TextsOf(units)) == Words(units[0].text) + AllWords(TextsOf(units[1..]))
    ensures Separated(units[1..]) && Blank(units[0].sep) && units[0].sep != ""
  {
    hide Words, IsSpace;
    assert TextsOf(units)[1..] == TextsOf(units[1..]);
  }

  lemma NothingBefore()
    ensures Complete("") && Words("") == []
  {
  }

  lemma {:induction false} TextsAppend(a: seq<Unit>, b: seq<Unit>)
    ensures TextsOf(a + b) == TextsOf(a) + TextsOf(b)
  {
    if a == [] {
      assert a + b == b;
    } else {
      assert (a + b)[1..] == a[1..] + b;
      TextsAppend(a[1..], b);
    }
  }

  lemma {:induction false} FreshTexts(slices: seq<string>)
    ensures TextsOf(FreshUnits(slices)) == slices && Separated(FreshUnits(slices))
  {
    if slices != [] {
      FreshTexts(slices[1..]);
      assert FreshUnits(slices)[1..] == FreshUnits(slices[1..]);
      WhitespaceCharacters();
    }
  }

  /** The pieces of sentences: a sentence that fits, or the slices of one that does not. */
  function Pieces(sents: seq<string>, max: nat): seq<string>
    requires max >= 1
  {
    if sents == [] then []
    else (if |Encode(sents[0])| <= max then [sents[0]] else Slices(sents[0], 0, max)) + Pieces(sents[1..], max)
  }

  lemma {:induction false} SentenceTexts(sents: seq<string>, max: nat, starts: bool)
    requires max >= 1
    ensures TextsOf(SentenceUnits(sents, max, starts)) == Pieces(sents, max)
    ensures Separated(SentenceUnits(sents, max, starts))
    decreases |sents|
  {
    hide Encode, Slices, FreshUnits, IsSpace;
    if sents != [] {
      WhitespaceCharacters();
      FreshTexts(Slices(sents[0], 0, max));
      SentenceTexts(sents[1..], max, false);
      var u := Unit(sents[0], " ", starts);
      assert [u][1..] == [] && TextsOf([u]) == [u.text];
      TextsAppend(if |Encode(sents[0])| <= max then [u] else FreshUnits(Slices(sents[0], 0, max)),
                  SentenceUnits(sents[1..], max, false));
    }
  }

  function PiecesOfAll(paras: seq<string>, max: nat): seq<string>
    requires max >= 1
  {
    if paras == [] then []
    else (if |Encode(paras[0])| <= max then [paras[0]] else Pieces(Sentences(paras[0]), max))
         + PiecesOfAll(paras[1..], max)
  }

  lemma {:induction false} UnitTexts(paras: seq<string>, max: nat)
    requires max >= 1
    ensures TextsOf(Units(paras, max)) == PiecesOfAll(paras, max) && Separated(Units(paras, max))
    decreases |paras|
  {
    hide Encode, Sentences, SentenceUnits, IsSpace, Pieces;
    if paras != [] {
      WhitespaceCharacters();
      SentenceTexts(Sentences(paras[0]), max, true);
      UnitTexts(paras[1..], max);
      var u := Unit(paras[0], "\n\n", false);
      assert [u][1..] == [] && TextsOf([u]) == [u.text];
      TextsAppend(if |Encode(paras[0])| <= max then [u] else SentenceUnits(Sentences(paras[0]), max, true),
                  Units(paras[1..], max));
    }
  }

  lemma {:induction false} WordsOfSentences(para: string)
    ensures AllWords(Sentences(para)) == Words(para)
    decreases |para|
  {
    hide Words, IsSpace;
    var i := FindSentenceEnd(para);
    if i == |para| {
      AllWordsOne(para);
    } else {
      var tail := LStrip(para[i..]);
      LStripSplits(para[i..]);
      var gap := para[i..][..|para[i..]| - |tail|];
      assert gap != "" by { LStripDrops(para[i..]); }
      assert para == para[..i] + gap + tail;
      WordsApart(para[..i], gap, tail);
      WordsOfSentences(tail);
      assert Sentences(para)[1..] == Sentences(tail);
    }
  }

  lemma LStripDrops(s: string)
    requires s != "" && IsSpace(s[0])
    ensures |LStrip(s)| < |s|
  {
  }

  lemma {:induction false} WordsOfParagraphs(text: string)
    ensures AllWords(Paragraphs(text)) == Words(text)
    decreases |text|
  {
    hide Words, IsSpace;
    var i := FindBreak(text);
    if i == |text| {
      AllWordsOne(text);
    } else {
      WhitespaceCharacters();
      assert text == text[..i] + "\n\n" + text[i+2..];
      WordsApart(text[..i], "\n\n", text[i+2..]);
      WordsOfParagraphs(text[i+2..]);
      assert Paragraphs(text)[1..] == Paragraphs(text[i+2..]);
    }
  }

  lemma {:induction false} UncutPieces(sents: seq<string>, max: nat)
    requires max >= 1 && forall s :: s in sents ==> |Encode(s)| <= max
    ensures Pieces(sents, max) == sents
  {
    hide Encode, Slices;
    if sents != [] {
      assert sents[0] in sents;
      UncutPieces(sents[1..], max);
    }
  }

  /** Every sentence fits. */
  predicate Uncut(paras: seq<string>, max: nat) {
    forall p :: p in paras ==> forall s :: s in Sentences(p) ==> |Encode(s)| <= max
  }

  lemma {:induction false} UncutWords(paras: seq<string>, max: nat)
    requires max >= 1 && Uncut(paras, max)
    ensures AllWords(PiecesOfAll(paras, max)) == AllWords(paras)
    decreases |paras|
  {
    hide Encode, Words, Sentences, Pieces;
    if paras != [] {
      var p := paras[0];
      assert p in paras;
      UncutPieces(Sentences(p), max);
      WordsOfSentences(p);
      AllWordsOne(p);
      assert Uncut(paras[1..], max);
      UncutWords(paras[1..], max);
      AllWordsAppend(if |Encode(p)| <= max then [p] else Sentences(p), PiecesOfAll(paras[1..], max));
    }
  }

  /** The chunks hold the words of the pieces, whole and in order: of paragraphs and sentences that fit and of the
      slices of sentences that do not.  So words are cut only where a sentence is over the limit, and when none
      is the chunks hold the words of the text.  A text within the limit is one chunk. */
  lemma WordsAreKept(text: string, max: nat)
    requires max >= 1
    ensures |Encode(text)| <= max ==> Chunked(text, max) == if Strip(text) != "" then [Strip(text)] else []
    ensures |Encode(text)| <= max || Uncut(Paragraphs(text), max) ==> AllWords(Chunked(text, max)) == Words(text)
    ensures
      var packed := Packed(Units(Paragraphs(text), max), "", max);
      && AllWords(packed) == AllWords(PiecesOfAll(Paragraphs(text), max))
      && (|Encode(text)| > max && packed != [] ==> Chunked(text, max) == packed)
  {
    hide Encode, Words, AllWords, Paragraphs, Units, Packed, Strip, Uncut, PiecesOfAll, Separated;
    var units := Units(Paragraphs(text), max);
    EmittedWords(text);
    UnitTexts(Paragraphs(text), max);
    NothingBefore();
    PackedWords(units, "", max);
    WordsOfParagraphs(text);
    if Uncut(Paragraphs(text), max) {
      UncutWords(Paragraphs(text), max);
      WordlessWhenStrippedAway(text);
      AllWordsOne("");
    }
  }

  // ---------- how full the chunks are ----------

  function GroupText(group: seq<Unit>): string {
    if group == [] then "" else GroupText(group[..|group|-1]) + group[|group|-1].text + group[|group|-1].sep
  }

  /** Each unit but the first fits behind the ones before it. */
  predicate IsGroup(group: seq<Unit>, max: nat) {
    && group != []
    && forall k :: 0 < k < |group| ==> !group[k].starts && FitsBehind(GroupText(group[..k]), group[k], max)
  }

  /** A unit that could go into a chunk did. */
  predicate Greedy(groups: seq<seq<Unit>>, max: nat) {
    && (forall i :: 0 <= i < |groups| ==> IsGroup(groups[i], max))
    && forall i :: 0 < i < |groups| ==>
         groups[i] != [] && (groups[i][0].starts || !FitsBehind(GroupText(groups[i-1]), groups[i][0], max))
  }

  function Flat(groups: seq<seq<Unit>>): seq<Unit> {
    if groups == [] then [] else groups[0] + Flat(groups[1..])
  }

  /** The chunks: the texts of the groups, stripped, but for blank ones. */
  function ChunksOf(groups: seq<seq<Unit>>): seq<string> {
    if groups == [] then []
    else (if Strip(GroupText(groups[0])) != "" then [Strip(GroupText(groups[0]))] else []) + ChunksOf(groups[1..])
  }

  lemma GroupGrows(group: seq<Unit>, u: Unit, max: nat)
    requires IsGroup(group, max) && !u.starts && FitsBehind(GroupText(group), u, max)
    ensures IsGroup(group + [u], max) && GroupText(group + [u]) == GroupText(group) + u.text + u.sep
  {
    hide FitsBehind;
    var more := group + [u];
    assert more[..|group|] == group;
    forall k | 0 < k < |more| ensures !more[k].starts && FitsBehind(GroupText(more[..k]), more[k], max) {
      assert k < |group| ==> more[..k] == group[..k];
    }
  }

  lemma GroupOfOne(u: Unit, max: nat)
    ensures IsGroup([u], max) && GroupText([u]) == u.text + u.sep
  {
    assert [u][..0] == [];
    assert GroupText([u]) == GroupText([]) + u.text + u.sep;
  }

  lemma EmittedIs(current: string)
    ensures Emitted(current) == if Strip(current) != "" then [Strip(current)] else []
  {
  }

  lemma GreedyFirst(group: seq<Unit>, groups: seq<seq<Unit>>, u: Unit, max: nat)
    requires IsGroup(group, max) && Greedy(groups, max) && groups != [] && groups[0] != [] && groups[0][0] == u
    requires u.starts || !FitsBehind(GroupText(group), u, max)
    ensures Greedy([group] + groups, max)
  {
    hide IsGroup, FitsBehind, GroupText;
  }

  lemma {:induction false} PackFrom(units: seq<Unit>, open: seq<Unit>, max: nat) returns (groups: seq<seq<Unit>>)
    requires IsGroup(open, max)
    ensures groups != [] && groups[0] != [] && open != [] && groups[0][0] == open[0]
    ensures Flat(groups) == open + units && Greedy(groups, max)
    ensures ChunksOf(groups) == Packed(units, GroupText(open), max)
    decreases |units|
  {
    hide IsGroup, FitsBehind, GroupText, Greedy, Emitted;
    GroupIsSomething(open, max);
    EmittedIs(GroupText(open));
    if units == [] {
      groups := [open];
      OneGroup(open, max);
    } else {
      var u := units[0];
      if !u.starts && FitsBehind(GroupText(open), u, max) {
        GroupGrows(open, u, max);
        groups := PackFrom(units[1..], open + [u], max);
        assert open + [u] + units[1..] == open + units;
      } else {
        GroupOfOne(u, max);
        var rest := PackFrom(units[1..], [u], max);
        groups := [open] + rest;
        GreedyFirst(open, rest, u, max);
        assert groups[1..] == rest && [u] + units[1..] == units;
      }
    }
  }

  lemma GroupIsSomething(group: seq<Unit>, max: nat)
    requires IsGroup(group, max)
    ensures group != []
  {
  }

  lemma OneGroup(group: seq<Unit>, max: nat)
    requires IsGroup(group, max)
    ensures Greedy([group], max) && Flat([group]) == group
    ensures ChunksOf([group]) == if Strip(GroupText(group)) != "" then [Strip(GroupText(group))] else []
  {
    hide IsGroup, Strip, GroupText;
    GroupIsSomething(group, max);
    assert [group][1..] == [];
    assert Flat([]) == [] && ChunksOf([]) == [];
  }

  lemma PackedGroups(units: seq<Unit>, max: nat) returns (groups: seq<seq<Unit>>)
    ensures Flat(groups) == units && Greedy(groups, max) && ChunksOf(groups) == Packed(units, "", max)
  {
    hide FitsBehind, IsGroup, GroupText, Emitted;
    NothingEmitted();
    if units == [] {
      groups := [];
    } else {
      var u := units[0];
      GroupOfOne(u, max);
      groups := PackFrom(units[1..], [u], max);
      assert [u] + units[1..] == units && [u] + units[1..] == [u] + units[1..];
      PackOne(u, units[1..], "", max);
      assert "" + u.text == u.text;
    }
  }

  /** A text over the limit is grouped into runs of neighbouring units, one chunk for each: a chunk ends only
      where the next unit does not fit behind it or always starts a chunk, as the first sentence of a paragraph
      over the limit and every slice do. */
  lemma ChunksAreGreedy(text: string, max: nat) returns (groups: seq<seq<Unit>>)
    requires max >= 1 && |Encode(text)| > max
    ensures Flat(groups) == Units(Paragraphs(text), max) && Greedy(groups, max)
    ensures ChunksOf(groups) != [] || Strip(text) == "" ==> Chunked(text, max) == ChunksOf(groups)
  {
    hide Encode, Packed, Paragraphs, Units, Strip, Flat, Greedy, ChunksOf;
    groups := PackedGroups(Units(Paragraphs(text), max), max);
  }

  // ---------- what is not cut ----------

  ghost predicate Contains(s: string, t: string) {
    exists i :: 0 <= i <= |s| && t <= s[i..]
  }

  /** A stripped text stays inside when what surrounds it is stripped. */
  lemma StripKeepsInside(a: string, t: string, b: string)
    requires Strip(t) != ""
    ensures Strip(a + t + b) != "" && Contains(Strip(a + t + b), Strip(t))
  {
    hide Strip, IsSpace;
    var x := a + t + b;
    var a1, b1 := StripSplits(x);
    var a2, b2 := StripSplits(t);
    var s, inner := Strip(x), Strip(t);
    var from, to := |a| + |a2|, |a| + |a2| + |inner|;
    assert x == (a + a2) + inner + (b2 + b);
    assert x[from] == inner[0] && x[to-1] == inner[|inner|-1];
    assert x[from..to] == inner;
    NotInBlank(x, a1, s, b1, from);
    NotInBlank(x, a1, s, b1, to - 1);
    assert s == x[|a1|..|a1|+|s|];
    assert s[from-|a1|..] == x[from..|a1|+|s|];
    assert inner <= s[from-|a1|..];
  }

  lemma NotInBlank(x: string, a: string, s: string, b: string, i: nat)
    requires x == a + s + b && Blank(a) && Blank(b) && i < |x| && !IsSpace(x[i])
    ensures |a| <= i < |a| + |s|
  {
    hide IsSpace;
  }

  lemma {:induction false} UnitInGroup(group: seq<Unit>, u: Unit) returns (a: string, b: string)
    requires u in group
    ensures GroupText(group) == a + u.text + b
    decreases |group|
  {
    var n := |group| - 1;
    if group[n] == u {
      a, b := GroupText(group[..n]), u.sep;
    } else {
      var a1, b1 := UnitInGroup(group[..n], u);
      a, b := a1, b1 + group[n].text + group[n].sep;
    }
  }

  lemma {:induction false} UnitInChunk(groups: seq<seq<Unit>>, u: Unit) returns (k: nat)
    requires u in Flat(groups) && Strip(u.text) != ""
    ensures k < |ChunksOf(groups)| && Contains(ChunksOf(groups)[k], Strip(u.text))
  {
    hide Strip, GroupText, Contains;
    if u in groups[0] {
      var a, b := UnitInGroup(groups[0], u);
      StripKeepsInside(a, u.text, b);
      k := 0;
    } else {
      k := UnitInChunk(groups[1..], u);
      k := k + |ChunksOf(groups)| - |ChunksOf(groups[1..])|;
    }
  }

  lemma {:induction false} SentenceIsUnit(sents: seq<string>, max: nat, starts: bool, s: string) returns (u: Unit)
    requires max >= 1 && s in sents && |Encode(s)| <= max
    ensures u in SentenceUnits(sents, max, starts) && u.text == s
  {
    hide Encode, Slices, FreshUnits;
    if sents[0] == s {
      u := Unit(s, " ", starts);
    } else {
      u := SentenceIsUnit(sents[1..], max, false, s);
    }
  }

  /** It fits: a paragraph, or a sentence of a paragraph that does not. */
  predicate FitsWhole(paras: seq<string>, piece: string, max: nat) {
    |Encode(piece)| <= max
    && (piece in paras || exists p :: p in paras && |Encode(p)| > max && piece in Sentences(p))
  }

  lemma {:induction false} PieceIsUnit(paras: seq<string>, piece: string, max: nat) returns (u: Unit)
    requires max >= 1 && FitsWhole(paras, piece, max)
    ensures u in Units(paras, max) && u.text == piece
  {
    hide Encode, Sentences, SentenceUnits;
    if paras[0] == piece {
      u := Unit(piece, "\n\n", false);
    } else if |Encode(paras[0])| > max && piece in Sentences(paras[0]) {
      u := SentenceIsUnit(Sentences(paras[0]), max, true, piece);
    } else {
      u := PieceIsUnit(paras[1..], piece, max);
    }
  }

  /** A paragraph that fits, and a sentence that fits, is inside one chunk. */
  lemma FittingPiecesStayWhole(text: string, max: nat, piece: string) returns (k: nat)
    requires max >= 1 && |Encode(text)| > max && Strip(piece) != "" && FitsWhole(Paragraphs(text), piece, max)
    ensures k < |Chunked(text, max)| && Contains(Chunked(text, max)[k], Strip(piece))
  {
    hide Encode, Paragraphs, Units, Flat, Greedy, ChunksOf, Strip, FitsWhole, Contains, Chunked;
    var u := PieceIsUnit(Paragraphs(text), piece, max);
    var groups := ChunksAreGreedy(text, max);
    k := UnitInChunk(groups, u);
  }

  // ---------- where text may be cut ----------

  predicate Mark(c: char) {
    c == '.' || c == '!' || c == '?'
  }

  lemma {:induction false} FirstSentenceEnd(s: string)
    ensures
      var e := FindSentenceEnd(s);
      && (forall i :: 0 <= i && i + 1 < e ==> !(Mark(s[i]) && IsSpace(s[i+1])))
      && (e < |s| ==> e > 0 && Mark(s[e-1]) && IsSpace(s[e]))
  {
    hide IsSpace;
    if |s| >= 2 && !(EndsSentence(s[0]) && IsSpace(s[1])) {
      FirstSentenceEnd(s[1..]);
    }
  }

  predicate OneSentence(s: string) {
    forall i :: 0 <= i && i + 1 < |s| ==> !(Mark(s[i]) && IsSpace(s[i+1]))
  }

  /** A paragraph is cut at every mark before whitespace, and nowhere else. */
  lemma {:induction false} SentencesAreCutAtMarks(para: string)
    ensures forall s :: s in Sentences(para) ==> OneSentence(s)
    ensures forall k :: 0 <= k < |Sentences(para)| - 1 ==>
              Sentences(para)[k] != "" && Mark(Sentences(para)[k][|Sentences(para)[k]|-1])
    decreases |para|
  {
    hide IsSpace, Mark;
    FirstSentenceEnd(para);
    var e := FindSentenceEnd(para);
    if e < |para| {
      assert OneSentence(para[..e]);
      SentencesAreCutAtMarks(LStrip(para[e..]));
      assert para[..e][|para[..e]|-1] == para[e-1];
    } else {
      assert OneSentence(para);
    }
  }

  predicate OneParagraph(s: string) {
    forall i :: 0 <= i && i + 1 < |s| ==> !(s[i] == '\n' && s[i+1] == '\n')
  }

  lemma {:induction false} FirstBreak(s: string)
    ensures OneParagraph(s[..FindBreak(s)])
  {
    if |s| >= 2 && !(s[0] == '\n' && s[1] == '\n') {
      var n := FindBreak(s[1..]);
      FirstBreak(s[1..]);
      forall i | 0 <= i && i + 1 < n + 1 ensures !(s[i] == '\n' && s[i+1] == '\n') {
        if i > 0 { assert s[i] == s[1..][..n][i-1] && s[i+1] == s[1..][..n][i]; }
      }
    }
  }

  /** And the text at every empty line. */
  lemma {:induction false} ParagraphsAreCutAtEmptyLines(text: string)
    ensures forall p :: p in Paragraphs(text) ==> OneParagraph(p)
    decreases |text|
  {
    hide OneParagraph;
    FirstBreak(text);
    var i := FindBreak(text);
    if i < |text| {
      ParagraphsAreCutAtEmptyLines(text[i+2..]);
    } else {
      assert text[..i] == text;
    }
  }

  /** So the text is its paragraphs with empty lines between them. */
  lemma {:induction false} ParagraphsJoin(text: string)
    ensures Join(Paragraphs(text), "\n\n") == text
    decreases |text|
  {
    var i := FindBreak(text);
    if i < |text| {
      ParagraphsJoin(text[i+2..]);
      assert Paragraphs(text)[1..] == Paragraphs(text[i+2..]);
      assert text == text[..i] + "\n\n" + text[i+2..];
    }
  }
}
