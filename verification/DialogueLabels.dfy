/** What a dialogue segment must say of each of its characters (backend/services/voice_city/direction_engine.py:
    80-147), read off the manuscript by looking back from the character: its line, its scene, the quote it is in;
    and where segments end. */
module DialogueLabels {
  import opened Wrappers
  import opened Text
  import opened DialogueSegments

  // ---------- lines ----------

  /** A line begins at i: at the start, or after a line break that "\r\n" does not continue. */
  predicate BeginsLine(s: string, i: nat)
    requires i <= |s|
  {
    i == 0 || (IsLineBreak(s[i-1]) && !(i < |s| && s[i-1] == '\r' && s[i] == '\n'))
  }

  function LineStart(s: string, i: nat): (a: nat)
    requires i < |s|
    ensures a <= i && BeginsLine(s, a)
  {
    if BeginsLine(s, i) then i else LineStart(s, i - 1)
  }

  function LineEnd(s: string, i: nat): (b: nat)
    requires i < |s|
    ensures i < b <= |s|
    decreases |s| - i
  {
    if i + 1 == |s| || BeginsLine(s, i + 1) then i + 1 else LineEnd(s, i + 1)
  }

  function LineAt(s: string, i: nat): string
    requires i < |s|
  {
    s[LineStart(s, i)..LineEnd(s, i)]
  }

  /** How many scene breaks stand before the line of i. */
  function SceneAt(p: Patterns, s: string, i: nat): nat
    requires i < |s|
  {
    var a := LineStart(s, i);
    if a == 0 then 0
    else SceneAt(p, s, a - 1) + (if p.isSceneBreak(WithoutBreak(LineAt(s, a - 1))) then 1 else 0)
  }

  // ---------- quotes ----------

  /** A quote can begin at k: some closing mark stands behind at least one character. */
  predicate Opens(line: string, k: nat) {
    k < |line| && IsOpener(line[k]) && exists c :: k + 2 <= c < |line| && IsCloser(line[c])
  }

  /** Where the quote that holds position k began; it ends with the first closing mark behind a character. */
  function QuoteAt(line: string, k: nat): Option<nat>
    requires k < |line|
  {
    var before := if k == 0 then None else QuoteAt(line, k - 1);
    if before.Some? && !(before.value + 2 <= k - 1 && IsCloser(line[k-1])) then before
    else if Opens(line, k) then Some(k)
    else None
  }

  predicate ClosesAt(line: string, a: nat, b: nat) {
    && a + 3 <= b <= |line| && IsCloser(line[b-1])
    && forall c :: a + 2 <= c < b - 1 ==> !IsCloser(line[c])
  }

  /** Where the dialogue that holds position k of a line began. */
  function Portion(p: Patterns, line: string, k: nat): Option<nat>
    requires k < |line|
  {
    var plain := WithoutBreak(line);
    if p.isSceneBreak(plain) then None
    else
      match p.stageLine(plain)
      case Some(stage) => if k < Find(line, stage.body) then None else Some(Find(line, stage.body))
      case None => QuoteAt(line, k)
  }

  predicate LineLabel(p: Patterns, line: string, k: nat, kind: Kind, speaker: Option<string>)
    requires k < |line|
  {
    match Portion(p, line, k)
    case None => kind == Narration && speaker == None
    case Some(a) =>
      && kind == Dialogue
      && match p.stageLine(WithoutBreak(line))
         case Some(stage) => speaker == stage.speaker
         case None =>
           exists b :: 0 <= b <= |line| && ClosesAt(line, a, b) && speaker == p.inferSpeaker(line[..a], line[b..])
  }

  predicate Labelled(p: Patterns, s: string, i: nat, kind: Kind, speaker: Option<string>, scene: nat)
    requires i < |s|
  {
    scene == SceneAt(p, s, i) && i - LineStart(s, i) < |LineAt(s, i)|
    && LineLabel(p, LineAt(s, i), i - LineStart(s, i), kind, speaker)
  }

  /** i and i + 1 are in one line, and in one quote or stretch of narration. */
  predicate Together(p: Patterns, s: string, i: nat)
    requires i + 1 < |s|
  {
    var a := LineStart(s, i);
    && LineStart(s, i + 1) == a && i + 1 - a < |LineAt(s, i)|
    && Portion(p, LineAt(s, i), i - a) == Portion(p, LineAt(s, i), i + 1 - a)
  }

  // ---------- the quote scan ----------

  lemma {:induction false} FindCloseIsFirst(s: string, k: nat)
    ensures forall c :: k <= c < FindClose(s, k) ==> !IsCloser(s[c])
    decreases |s| - k
  {
    if k < |s| && !IsCloser(s[k]) {
      FindCloseIsFirst(s, k + 1);
    }
  }

  lemma {:induction false} FindQuoteIsFirst(line: string, from: nat)
    ensures
      match FindQuote(line, from)
      case Some((a, b)) => Opens(line, a) && ClosesAt(line, a, b) && forall k :: from <= k < a ==> !Opens(line, k)
      case None => forall k :: from <= k < |line| ==> !Opens(line, k)
    decreases |line| - from
  {
    hide IsOpener, IsCloser;
    if from < |line| {
      FindCloseIsFirst(line, from + 2);
      FindQuoteIsFirst(line, from + 1);
    }
  }

  /** No quote reaches from before `cursor` to it. */
  predicate Fresh(line: string, cursor: nat)
    requires cursor <= |line|
  {
    cursor < |line| ==> QuoteAt(line, cursor) == if Opens(line, cursor) then Some(cursor) else None
  }

  lemma {:induction false} NoQuoteUntil(line: string, cursor: nat, k: nat)
    requires cursor <= k < |line| && Fresh(line, cursor) && forall c :: cursor <= c <= k ==> !Opens(line, c)
    ensures QuoteAt(line, k) == None
  {
    hide Opens;
    if k > cursor {
      NoQuoteUntil(line, cursor, k - 1);
    }
  }

  lemma QuoteBegins(line: string, cursor: nat, a: nat)
    requires cursor <= a < |line| && Fresh(line, cursor) && Opens(line, a)
    requires forall c :: cursor <= c < a ==> !Opens(line, c)
    ensures QuoteAt(line, a) == Some(a)
  {
    hide Opens;
    if a > cursor {
      NoQuoteUntil(line, cursor, a - 1);
    }
  }

  lemma {:induction false} QuoteGoesOn(line: string, a: nat, b: nat, k: nat)
    requires ClosesAt(line, a, b) && a <= k < b && QuoteAt(line, a) == Some(a)
    ensures QuoteAt(line, k) == Some(a)
  {
    hide Opens, IsCloser;
    if k > a {
      QuoteGoesOn(line, a, b, k - 1);
    }
  }

  lemma QuoteEnds(line: string, a: nat, b: nat)
    requires ClosesAt(line, a, b) && QuoteAt(line, a) == Some(a)
    ensures Fresh(line, b)
  {
    hide Opens, IsCloser;
    QuoteGoesOn(line, a, b, b - 1);
  }

  // ---------- the items of a line ----------

  /** An item is labelled like each of its characters, and the next character is not of the same stretch. */
  predicate ItemFits(p: Patterns, line: string, offset: nat, item: Item) {
    && offset <= item.start <= item.end <= offset + |line|
    && (forall k :: item.start - offset <= k < item.end - offset ==> LineLabel(p, line, k, item.kind, item.speaker))
    && (item.start < item.end < offset + |line| ==>
          Portion(p, line, item.end - 1 - offset) != Portion(p, line, item.end - offset))
  }

  predicate ItemsFit(p: Patterns, line: string, offset: nat, items: seq<Item>) {
    forall i :: i in items ==> ItemFits(p, line, offset, i)
  }

  predicate Quoted(p: Patterns, line: string) {
    !p.isSceneBreak(WithoutBreak(line)) && p.stageLine(WithoutBreak(line)).None?
  }

  lemma QuotedPortion(p: Patterns, line: string, k: nat)
    requires Quoted(p, line) && k < |line|
    ensures Portion(p, line, k) == QuoteAt(line, k)
  {
  }

  lemma ToldFits(p: Patterns, line: string, a: nat, b: nat, offset: nat, scene: nat)
    requires Quoted(p, line) && a <= b <= |line|
    requires forall k :: a <= k < b ==> QuoteAt(line, k) == None
    requires b < |line| ==> QuoteAt(line, b).Some?
    ensures ItemsFit(p, line, offset, ToldUnlessEmpty(line[a..b], offset + a, scene))
  {
    hide WithoutBreak, QuoteAt;
    forall k | a <= k < |line| ensures Portion(p, line, k) == QuoteAt(line, k) {
      QuotedPortion(p, line, k);
    }
  }

  lemma QuoteFits(p: Patterns, line: string, a: nat, b: nat, offset: nat, scene: nat)
    requires Quoted(p, line) && ClosesAt(line, a, b) && QuoteAt(line, a) == Some(a)
    ensures
      var item := Spoken(p.inferSpeaker(line[..a], line[b..]), line[a..b], offset + a, scene);
      ItemFits(p, line, offset, item)
  {
    hide WithoutBreak, QuoteAt, ClosesAt, Opens;
    ClosesLater(line, a, b);
    forall k | a <= k < b ensures Portion(p, line, k) == Some(a) {
      QuoteGoesOn(line, a, b, k);
      QuotedPortion(p, line, k);
    }
    QuoteEnds(line, a, b);
    if b < |line| {
      QuotedPortion(p, line, b);
    }
  }

  lemma ClosesLater(line: string, a: nat, b: nat)
    requires ClosesAt(line, a, b)
    ensures a + 3 <= b <= |line|
  {
  }

  lemma {:induction false} QuoteItemsFit(p: Patterns, line: string, cursor: nat, offset: nat, scene: nat)
    requires Quoted(p, line) && cursor <= |line| && Fresh(line, cursor)
    ensures ItemsFit(p, line, offset, QuoteItems(p, line, cursor, offset, scene))
    decreases |line| - cursor
  {
    hide Quoted, Fresh, QuoteAt, Opens, ClosesAt, FindQuote, ItemFits, Spoken, ToldUnlessEmpty;
    FindQuoteIsFirst(line, cursor);
    match FindQuote(line, cursor)
    case None =>
      forall k | cursor <= k < |line| ensures QuoteAt(line, k) == None { NoQuoteUntil(line, cursor, k); }
      ToldFits(p, line, cursor, |line|, offset, scene);
      assert line[cursor..|line|] == line[cursor..];
    case Some((a, b)) =>
      forall k | cursor <= k < a ensures QuoteAt(line, k) == None { NoQuoteUntil(line, cursor, k); }
      QuoteBegins(line, cursor, a);
      ToldFits(p, line, cursor, a, offset, scene);
      QuoteFits(p, line, a, b, offset, scene);
      QuoteEnds(line, a, b);
      QuoteItemsFit(p, line, b, offset, scene);
  }

  lemma StartIsFresh(line: string)
    ensures Fresh(line, 0)
  {
  }

  lemma BreakFits(p: Patterns, line: string, offset: nat, scene: nat)
    requires p.isSceneBreak(WithoutBreak(line))
    ensures ItemFits(p, line, offset, Told(line, offset, scene))
  {
    hide WithoutBreak;
  }

  lemma StageFits(p: Patterns, line: string, offset: nat, scene: nat)
    requires !p.isSceneBreak(WithoutBreak(line)) && p.stageLine(WithoutBreak(line)).Some?
    ensures
      var stage := p.stageLine(WithoutBreak(line)).value;
      var body := Find(line, stage.body);
      && ItemsFit(p, line, offset, ToldUnlessEmpty(line[..body], offset, scene))
      && ItemFits(p, line, offset, Spoken(stage.speaker, line[body..], offset + body, scene))
  {
    hide WithoutBreak, Find;
  }

  lemma LineItemsFit(p: Patterns, line: string, offset: nat, scene: nat)
    ensures ItemsFit(p, line, offset, LineItems(p, line, offset, scene))
  {
    hide WithoutBreak, Find, QuoteItems, ItemFits, Told, Spoken, ToldUnlessEmpty, Fresh;
    LineItemsAre(p, line, offset, scene);
    if p.isSceneBreak(WithoutBreak(line)) {
      BreakFits(p, line, offset, scene);
    } else if p.stageLine(WithoutBreak(line)).Some? {
      StageFits(p, line, offset, scene);
    } else {
      StartIsFresh(line);
      QuoteItemsFit(p, line, 0, offset, scene);
    }
  }

  // ---------- the lines of the manuscript ----------

  /** source[o..o+n] is a line. */
  predicate IsLine(source: string, o: nat, n: nat) {
    && n > 0 && o + n <= |source| && BeginsLine(source, o) && (o + n < |source| ==> BeginsLine(source, o + n))
    && forall i :: o < i < o + n ==> !BeginsLine(source, i)
  }

  lemma {:induction false} LineStartIs(source: string, o: nat, n: nat, i: nat)
    requires IsLine(source, o, n) && o <= i < o + n
    ensures LineStart(source, i) == o
  {
    hide BeginsLine;
    if i > o {
      LineStartIs(source, o, n, i - 1);
    }
  }

  lemma {:induction false} LineEndIs(source: string, o: nat, n: nat, i: nat)
    requires IsLine(source, o, n) && o <= i < o + n
    ensures LineEnd(source, i) == o + n
    decreases o + n - i
  {
    hide BeginsLine;
    if i + 1 < o + n {
      LineEndIs(source, o, n, i + 1);
    }
  }

  lemma LineIs(source: string, o: nat, n: nat, i: nat)
    requires IsLine(source, o, n) && o <= i < o + n
    ensures LineStart(source, i) == o && LineAt(source, i) == source[o..o+n]
  {
    hide IsLine;
    LineStartIs(source, o, n, i);
    LineEndIs(source, o, n, i);
  }

  /** `splitlines` cuts where lines begin. */
  lemma {:induction false} FirstLine(text: string, k: nat)
    requires k < |text|
    ensures
      var n := k + LineLength(text[k..]);
      && n <= |text| && (n < |text| ==> BeginsLine(text, n))
      && forall i :: k < i < n ==> !BeginsLine(text, i)
    decreases |text| - k
  {
    var rest := text[k..];
    if rest[0] == '\r' && |rest| > 1 && rest[1] == '\n' {
      assert text[k] == '\r' && text[k+1] == '\n' && IsLineBreak(text[k+1]);
    } else if !(IsLineBreak(rest[0]) || |rest| == 1) {
      FirstLine(text, k + 1);
      assert rest[1..] == text[k+1..];
    }
  }

  lemma NextLine(source: string, o: nat)
    requires o < |source| && BeginsLine(source, o)
    ensures IsLine(source, o, LineLength(source[o..]))
  {
    hide BeginsLine;
    FirstLine(source, o);
  }

  // ---------- the items of the manuscript ----------

  predicate ItemRight(p: Patterns, source: string, item: Item) {
    && item.start <= item.end <= |source|
    && (forall i :: item.start <= i < item.end ==> Labelled(p, source, i, item.kind, item.speaker, item.scene))
    && (item.start < item.end < |source| ==> !Together(p, source, item.end - 1))
  }

  lemma SceneIs(p: Patterns, source: string, o: nat, n: nat, i: nat)
    requires IsLine(source, o, n) && o <= i < o + n
    ensures SceneAt(p, source, i) == SceneAt(p, source, o)
  {
    hide IsLine, WithoutBreak, LineAt;
    LineStartIs(source, o, n, i);
    LineStartIs(source, o, n, o);
  }

  /** What fits the line is right in the manuscript. */
  lemma FittingIsRight(p: Patterns, source: string, o: nat, n: nat, item: Item)
    requires IsLine(source, o, n) && ItemFits(p, source[o..o+n], o, item) && item.scene == SceneAt(p, source, o)
    ensures ItemRight(p, source, item)
  {
    hide LineLabel, Portion, LineStart, LineEnd, SceneAt, LineAt, BeginsLine;
    forall i | item.start <= i < item.end
      ensures Labelled(p, source, i, item.kind, item.speaker, item.scene)
    {
      LineIs(source, o, n, i);
      SceneIs(p, source, o, n, i);
      assert LineLabel(p, source[o..o+n], i - o, item.kind, item.speaker);
    }
    if item.start < item.end < |source| {
      LineIs(source, o, n, item.end - 1);
      if item.end < o + n { LineIs(source, o, n, item.end); }
    }
  }

  lemma NextScene(p: Patterns, source: string, o: nat, n: nat)
    requires IsLine(source, o, n) && o + n < |source|
    ensures SceneAt(p, source, o + n) == SceneAfter(p, source[o..o+n], SceneAt(p, source, o))
  {
    hide WithoutBreak, IsLine, SceneAt, LineAt, BeginsLine;
    LineBounds(source, o, n);
    LineIs(source, o, n, o + n - 1);
    SceneIs(p, source, o, n, o + n - 1);
    SceneStep(p, source, o + n);
  }

  lemma SceneStep(p: Patterns, source: string, i: nat)
    requires 0 < i < |source| && BeginsLine(source, i)
    ensures SceneAt(p, source, i)
            == SceneAt(p, source, i - 1) + (if p.isSceneBreak(WithoutBreak(LineAt(source, i - 1))) then 1 else 0)
  {
    hide WithoutBreak, LineAt, BeginsLine;
  }

  lemma FirstScene(p: Patterns, source: string)
    requires source != ""
    ensures BeginsLine(source, 0) && SceneAt(p, source, 0) == 0
  {
  }

  lemma {:induction false} ItemsAreRight(p: Patterns, source: string, o: nat, scene: nat)
    requires o <= |source|
    requires o < |source| ==> BeginsLine(source, o) && scene == SceneAt(p, source, o)
    ensures forall item :: item in Items(p, source[o..], o, scene) ==> ItemRight(p, source, item)
    decreases |source| - o
  {
    hide ItemRight, LineItems, LineLength, SceneAfter, SceneAt, BeginsLine, ItemFits, IsLine;
    if o < |source| {
      var text := source[o..];
      var n := LineLength(text);
      var line, next := text[..n], SceneAfter(p, text[..n], scene);
      NextLine(source, o);
      LineBounds(source, o, n);
      assert line == source[o..o+n] && text[n..] == source[o+n..];
      LineItemsFit(p, line, o, scene);
      LineScenes(p, line, o, scene);
      forall item | item in LineItems(p, line, o, scene) ensures ItemRight(p, source, item) {
        FittingIsRight(p, source, o, n, item);
      }
      if o + n < |source| {
        NextScene(p, source, o, n);
      }
      ItemsAreRight(p, source, o + n, next);
    }
  }

  lemma LineBounds(source: string, o: nat, n: nat)
    requires IsLine(source, o, n)
    ensures n > 0 && o + n <= |source| && (o + n < |source| ==> BeginsLine(source, o + n))
  {
  }

  // ---------- sentences ----------

  lemma {:induction false} RunOfEnds(s: string, k: nat)
    requires k <= |s|
    ensures forall i :: k <= i < EndsRun(s, k) ==> IsEnd(s[i]) && !IsSpace(s[i])
    decreases |s| - k
  {
    if k < |s| && IsEnd(s[k]) {
      RunOfEnds(s, k + 1);
    }
  }

  predicate SentenceEnd(s: string, i: nat)
    requires i + 1 < |s|
  {
    IsEnd(s[i]) && IsSpace(s[i+1])
  }

  /** A sentence match holds no sentence end but its own, and goes on until one or until the text ends. */
  lemma {:induction false} MatchIsASentence(s: string, k: nat)
    requires 1 <= k <= |s|
    ensures
      var e := MatchEnd(s, k);
      && (forall i :: k <= i < e - 1 ==> !SentenceEnd(s, i))
      && (e == |s| || (e == |s| - 1 && s[e] == '\n') || SentenceEnd(s, e - 1))
    decreases |s| - k
  {
    hide IsEnd, IsSpace;
    if !(k == |s| || (k == |s| - 1 && s[k] == '\n')) {
      RunOfEnds(s, k);
      if !(IsEnd(s[k]) && (EndsRun(s, k) == |s| || IsSpace(s[EndsRun(s, k)]))) {
        MatchIsASentence(s, k + 1);
        if k + 1 < |s| { SpaceIsNoEnd(s[k+1]); }
      }
    }
  }

  lemma SpaceIsNoEnd(c: char)
    ensures IsSpace(c) ==> !IsEnd(c)
  {
  }

  /** A segment within its item: no sentence end inside, and its end is one, or the item's, or just before a
      final newline. */
  predicate IsSentence(source: string, item: Item, seg: Segment) {
    && CutFrom(seg, item) && seg.start < seg.end <= item.end <= |source|
    && (forall i :: seg.start < i < seg.end - 1 ==> !SentenceEnd(source, i))
    && (|| seg.end == item.end || (seg.end == item.end - 1 && source[seg.end] == '\n')
        || SentenceEnd(source, seg.end - 1))
  }

  lemma SentenceIn(item: Item, s: string, source: string, cursor: nat, e: nat, seg: Segment)
    requires s != "" && e == MatchEnd(s, 1) && item.start <= cursor && cursor + |s| == item.end <= |source|
    requires s == source[cursor..item.end]
    requires CutFrom(seg, item) && seg.start == cursor && seg.end == cursor + e
    ensures IsSentence(source, item, seg)
  {
    hide IsEnd, IsSpace, MatchEnd;
    MatchIsASentence(s, 1);
    forall i | cursor < i < cursor + e - 1 ensures !SentenceEnd(source, i) {
      assert !SentenceEnd(s, i - cursor);
      assert s[i-cursor] == source[i] && s[i-cursor+1] == source[i+1];
    }
    assert s[e-1] == source[cursor+e-1];
    assert e < |s| ==> s[e] == source[cursor+e];
  }

  lemma {:induction false} PartsAreSentences(item: Item, s: string, source: string, cursor: nat, index: nat)
    requires item.start <= cursor && cursor + |s| == item.end <= |source| && s == source[cursor..item.end]
    ensures forall seg :: seg in PartSegments(item, NotBlank(Matches(s)), cursor, index) ==>
              IsSentence(source, item, seg)
    decreases |s|
  {
    hide Blank, MatchEnd, IsSentence, PartSegments, NotBlank, Matches;
    if s == "" {
      NoParts(item, cursor, index);
    } else {
      var e := MatchEnd(s, 1);
      var first, rest := s[..e], s[e..];
      MatchesFirst(s);
      if Blank(first) {
        BlankMatchIsLast(s, 1);
        BlankHasNoParts(rest);
        NothingLeft(s);
        NoParts(item, cursor, index);
      } else {
        assert rest == source[cursor+e..item.end];
        PartsAreSentences(item, rest, source, cursor + e, index + 1);
        FirstPart(item, first, NotBlank(Matches(rest)), cursor, index);
        SentenceIn(item, s, source, cursor, e,
                   Segment(index, index, item.scene, item.kind, item.speaker, first, cursor, cursor + |first|));
      }
    }
  }

  lemma MatchesFirst(s: string)
    requires s != ""
    ensures var e := MatchEnd(s, 1);
            NotBlank(Matches(s)) == if Blank(s[..e]) then NotBlank(Matches(s[e..]))
                                    else [s[..e]] + NotBlank(Matches(s[e..]))
  {
    hide Blank, MatchEnd;
    var e := MatchEnd(s, 1);
    assert Matches(s) == [s[..e]] + Matches(s[e..]) && Matches(s)[1..] == Matches(s[e..]);
  }

  lemma NothingLeft(s: string)
    requires s != "" && Blank(s[..MatchEnd(s, 1)]) && NotBlank(Matches(s[MatchEnd(s, 1)..])) == []
    ensures NotBlank(Matches(s)) == []
  {
    MatchesFirst(s);
  }

  lemma NoParts(item: Item, cursor: nat, index: nat)
    ensures NotBlank(Matches("")) == [] && PartSegments(item, [], cursor, index) == []
  {
  }

  lemma ItemSentences(item: Item, source: string, index: nat)
    requires ItemAt(item, source, item.start)
    ensures forall seg :: seg in PartSegments(item, SentenceParts(item.text), item.start, index) ==>
              IsSentence(source, item, seg)
  {
    hide Blank, Matches, IsSentence;
    PartsAreSentences(item, item.text, source, item.start, index);
    NoParts(item, item.start, index);
    if item.text != "" && NotBlank(Matches(item.text)) == [] {
      BlankItem(item.text);
      assert [item.text][1..] == [];
    }
  }

  lemma {:induction false} BlankItem(s: string)
    requires NotBlank(Matches(s)) == []
    ensures Blank(s)
    decreases |s|
  {
    hide IsSpace, MatchEnd, NotBlank, Matches;
    if s != "" {
      var e := MatchEnd(s, 1);
      MatchesFirst(s);
      assert Blank(s[..e]);
      BlankItem(s[e..]);
      assert s == s[..e] + s[e..];
    }
  }

  // ---------- the result ----------

  /** A segment is labelled like each of its characters; it holds no sentence end but its own, and it ends with
      one, or with its line, quote or stretch of narration, but for a newline at the end of that. */
  predicate SegmentRight(p: Patterns, source: string, seg: Segment) {
    && seg.start < seg.end <= |source|
    && (forall i :: seg.start <= i < seg.end ==> Labelled(p, source, i, seg.kind, seg.speaker, seg.scene))
    && (forall i :: seg.start < i < seg.end - 1 ==> !SentenceEnd(source, i))
    && (seg.end < |source| ==>
          || SentenceEnd(source, seg.end - 1) || !Together(p, source, seg.end - 1)
          || (source[seg.end] == '\n' && (seg.end + 1 < |source| ==> !Together(p, source, seg.end))))
  }

  lemma SentenceIsRight(p: Patterns, source: string, item: Item, seg: Segment)
    requires ItemRight(p, source, item) && IsSentence(source, item, seg)
    ensures SegmentRight(p, source, seg)
  {
    hide Labelled, Together, SentenceEnd;
  }

  lemma {:induction false} SegmentsOfItems(p: Patterns, items: seq<Item>, source: string, a: nat, index: nat)
    requires Chain(items, source, a, |source|)
    requires forall item :: item in items ==> ItemRight(p, source, item)
    ensures forall seg :: seg in ItemSegments(items, index) ==> SegmentRight(p, source, seg)
    decreases |items|
  {
    hide SentenceParts, PartSegments, ItemRight, SegmentRight, IsSentence;
    if items != [] {
      var first := PartSegments(items[0], SentenceParts(items[0].text), items[0].start, index);
      ItemSentences(items[0], source, index);
      forall seg | seg in first ensures SegmentRight(p, source, seg) {
        SentenceIsRight(p, source, items[0], seg);
      }
      SegmentsOfItems(p, items[1..], source, items[0].end, index + |first|);
    }
  }

  /** Every segment of a manuscript is right: dialogue exactly inside quotes and behind stage labels, spoken by
      the speaker inferred for its quote or named by its label, in the scene that counts the scene breaks above,
      and cut at every sentence end and nowhere else. */
  lemma SegmentsAreRight(p: Patterns, source: string)
    ensures forall seg :: seg in Segments(p, source) ==> SegmentRight(p, source, seg)
  {
    hide Items, ItemSegments, SegmentRight, ItemRight, Chain, BeginsLine, SceneAt;
    if !Blank(source) {
      assert source[0..] == source;
      FirstScene(p, source);
      ItemsAreRight(p, source, 0, 0);
      ItemsChain(p, source, 0, 0, source);
      SegmentsOfItems(p, Items(p, source, 0, 0), source, 0, 0);
    }
  }

  // ---------- stage labels ----------

  lemma {:induction false} FindIsFirst(s: string, sub: string, m: nat)
    requires m <= |s| && sub <= s[m..]
    ensures Find(s, sub) <= m && sub <= s[Find(s, sub)..]
    ensures forall k :: 0 <= k < Find(s, sub) ==> !(sub <= s[k..])
    decreases |s|
  {
    assert s[0..] == s;
    if !(sub <= s) && s != "" {
      assert m > 0;
      assert s[1..][m-1..] == s[m..];
      FindIsFirst(s[1..], sub, m - 1);
      var f := Find(s[1..], sub);
      assert s[1..][f..] == s[f+1..];
      forall k | 0 <= k < f + 1 ensures !(sub <= s[k..]) {
        if k > 0 { assert s[k..] == s[1..][k-1..]; }
      }
    }
  }

  /** What is spoken of a stage line begins at its body exactly when the body does not occur before, in the
      label: the label of "Ann: Ann" is spoken with it. */
  lemma StageBodyIsSpokenAloneIff(line: string, body: string, m: nat)
    requires m <= |line| && body <= line[m..]
    ensures Find(line, body) == m <==> forall k :: 0 <= k < m ==> !(body <= line[k..])
    ensures Find("Ann: Ann", "Ann") == 0
  {
    FindIsFirst(line, body, m);
    assert "Ann" <= "Ann: Ann";
  }
}
