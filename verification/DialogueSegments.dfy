/** Dialogue segmentation with source offsets (backend/services/voice_city/direction_engine.py:73-147).
    Scene-break and stage-line recognition and speaker inference are arbitrary functions; lines, quotes
    and sentences are scanned as the code scans them. */
module DialogueSegments {
  import opened Wrappers
  import opened Text

  datatype Kind = Narration | Dialogue

  datatype Item = Item(kind: Kind, speaker: Option<string>, text: string, start: nat, end: nat, scene: nat)

  datatype Segment = Segment(index: nat, sentence: nat, scene: nat, kind: Kind, speaker: Option<string>,
                             text: string, start: nat, end: nat)

  datatype Stage = Stage(speaker: Option<string>, body: string)

  /** What the patterns of the module decide. */
  datatype Patterns = Patterns(
    isSceneBreak: string -> bool,
    stageLine: string -> Option<Stage>,
    inferSpeaker: (string, string) -> Option<string>)

  // ---------- lines ----------

  predicate IsLineBreak(c: char) {
    var n := c as int;
    10 <= n <= 13 || 28 <= n <= 30 || n == 0x85 || n == 0x2028 || n == 0x2029
  }

  /** The length of the first line of `splitlines(keepends=True)`. */
  function LineLength(s: string): (n: nat)
    requires s != ""
    ensures 1 <= n <= |s|
  {
    if s[0] == '\r' && |s| > 1 && s[1] == '\n' then 2
    else if IsLineBreak(s[0]) || |s| == 1 then 1
    else 1 + LineLength(s[1..])
  }

  /** `line.rstrip("\r\n")` */
  function WithoutBreak(line: string): string {
    if line != "" && (line[|line|-1] == '\r' || line[|line|-1] == '\n') then WithoutBreak(line[..|line|-1]) else line
  }

  // ---------- quotes ----------

  predicate IsOpener(c: char) {
    c == '"' || c == '\U{201C}'
  }

  predicate IsCloser(c: char) {
    c == '"' || c == '\U{201D}'
  }

  /** The first closing quote at k or later, or |s|. */
  function FindClose(s: string, k: nat): (i: nat)
    ensures i <= |s| && (i < |s| ==> k <= i && IsCloser(s[i]))
    decreases |s| - k
  {
    if k >= |s| then |s| else if IsCloser(s[k]) then k else FindClose(s, k + 1)
  }

  /** The next match of a quote with at least one character inside, shortest first. */
  function FindQuote(s: string, from: nat): (r: Option<(nat, nat)>)
    ensures r.Some? ==> from <= r.value.0 && r.value.0 + 3 <= r.value.1 <= |s|
    ensures r.Some? ==> IsOpener(s[r.value.0]) && IsCloser(s[r.value.1-1])
    decreases |s| - from
  {
    if from >= |s| then None
    else if IsOpener(s[from]) && FindClose(s, from + 2) < |s| then Some((from, FindClose(s, from + 2) + 1))
    else FindQuote(s, from + 1)
  }

  /** The first occurrence of `sub` in s. */
  function Find(s: string, sub: string): (i: nat)
    ensures i <= |s|
  {
    if sub <= s || s == "" then 0 else 1 + Find(s[1..], sub)
  }

  // ---------- items ----------

  function Told(text: string, start: nat, scene: nat): Item {
    Item(Narration, None, text, start, start + |text|, scene)
  }

  function Spoken(speaker: Option<string>, text: string, start: nat, scene: nat): Item {
    Item(Dialogue, speaker, text, start, start + |text|, scene)
  }

  function ToldUnlessEmpty(text: string, start: nat, scene: nat): seq<Item> {
    if text == "" then [] else [Told(text, start, scene)]
  }

  /** A line from `cursor` on: quotes are dialogue, what lies between them narration. */
  function QuoteItems(p: Patterns, line: string, cursor: nat, offset: nat, scene: nat): seq<Item>
    requires cursor <= |line|
    decreases |line| - cursor
  {
    match FindQuote(line, cursor)
    case None => ToldUnlessEmpty(line[cursor..], offset + cursor, scene)
    case Some((a, b)) => UpToQuote(p, line, cursor, a, b, offset, scene) + QuoteItems(p, line, b, offset, scene)
  }

  /** The narration before a quote, if any, and the quote. */
  function UpToQuote(p: Patterns, line: string, cursor: nat, a: nat, b: nat, offset: nat, scene: nat): seq<Item>
    requires cursor <= a <= b <= |line|
  {
    ToldUnlessEmpty(line[cursor..a], offset + cursor, scene)
    + [Spoken(p.inferSpeaker(line[..a], line[b..]), line[a..b], offset + a, scene)]
  }

  function LineItems(p: Patterns, line: string, offset: nat, scene: nat): seq<Item> {
    if p.isSceneBreak(WithoutBreak(line)) then [Told(line, offset, scene)]
    else
      match p.stageLine(WithoutBreak(line))
      case Some(stage) =>
        var body := Find(line, stage.body);
        ToldUnlessEmpty(line[..body], offset, scene) + [Spoken(stage.speaker, line[body..], offset + body, scene)]
      case None => QuoteItems(p, line, 0, offset, scene)
  }

  function SceneAfter(p: Patterns, line: string, scene: nat): nat {
    if p.isSceneBreak(WithoutBreak(line)) then scene + 1 else scene
  }

  function Items(p: Patterns, text: string, offset: nat, scene: nat): seq<Item>
    decreases |text|
  {
    if text == "" then []
    else
      var n := LineLength(text);
      LineItems(p, text[..n], offset, scene) + Items(p, text[n..], offset + n, SceneAfter(p, text[..n], scene))
  }

  // ---------- sentences ----------

  predicate IsEnd(c: char) {
    c == '.' || c == '!' || c == '?'
  }

  /** The end of the run of sentence ends that starts at k. */
  function EndsRun(s: string, k: nat): (e: nat)
    requires k <= |s|
    ensures k <= e <= |s| && (e > k ==> IsEnd(s[e-1]))
    decreases |s| - k
  {
    if k < |s| && IsEnd(s[k]) then EndsRun(s, k + 1) else k
  }

  /** Where the sentence match that starts at 0 ends, given that it takes at least k characters: at
      the first run of sentence ends followed by whitespace or the end; else at the end of the
      string, or just before a final newline. */
  function MatchEnd(s: string, k: nat): (e: nat)
    requires 1 <= k <= |s|
    ensures k <= e <= |s|
    decreases |s| - k
  {
    if k == |s| || (k == |s| - 1 && s[k] == '\n') then k
    else if IsEnd(s[k]) && (EndsRun(s, k) == |s| || IsSpace(s[EndsRun(s, k)])) then EndsRun(s, k)
    else MatchEnd(s, k + 1)
  }

  /** All matches, one after the other: together they are the whole string. */
  function Matches(s: string): seq<string>
    decreases |s|
  {
    if s == "" then [] else [s[..MatchEnd(s, 1)]] + Matches(s[MatchEnd(s, 1)..])
  }

  function NotBlank(parts: seq<string>): seq<string> {
    if parts == [] then []
    else (if Blank(parts[0]) then [] else [parts[0]]) + NotBlank(parts[1..])
  }

  function SentenceParts(text: string): seq<string> {
    if text == "" then []
    else if NotBlank(Matches(text)) == [] then [text]
    else NotBlank(Matches(text))
  }

  // ---------- segments ----------

  /** The segments of an item's parts, laid end to end from `cursor`. */
  function PartSegments(item: Item, parts: seq<string>, cursor: nat, index: nat): seq<Segment> {
    if parts == [] then []
    else if Blank(parts[0]) then PartSegments(item, parts[1..], cursor + |parts[0]|, index)
    else [Segment(index, index, item.scene, item.kind, item.speaker, parts[0], cursor, cursor + |parts[0]|)]
         + PartSegments(item, parts[1..], cursor + |parts[0]|, index + 1)
  }

  function ItemSegments(items: seq<Item>, index: nat): seq<Segment> {
    if items == [] then []
    else
      var first := PartSegments(items[0], SentenceParts(items[0].text), items[0].start, index);
      first + ItemSegments(items[1..], index + |first|)
  }

  function Segments(p: Patterns, source: string): seq<Segment> {
    if Blank(source) then [] else ItemSegments(Items(p, source, 0, 0), 0)
  }

  // ---------- the loops ----------

  /** The quote loop over one line. */
  method QuoteLoop(p: Patterns, line: string, offset: nat, scene: nat) returns (raw: seq<Item>)
    ensures raw == QuoteItems(p, line, 0, offset, scene)
  {
    hide FindQuote, UpToQuote;
    raw := [];
    var cursor := 0;
    var m := FindQuote(line, cursor);
    while m.Some?
      invariant cursor <= |line| && m == FindQuote(line, cursor)
      invariant raw + QuoteItems(p, line, cursor, offset, scene) == QuoteItems(p, line, 0, offset, scene)
      decreases |line| - cursor
    {
      var (a, b) := m.value;
      ghost var before := raw;
      if a > cursor {
        raw := raw + [Told(line[cursor..a], offset + cursor, scene)];
      }
      raw := raw + [Spoken(p.inferSpeaker(line[..a], line[b..]), line[a..b], offset + a, scene)];
      AppendsUpToQuote(p, line, cursor, a, b, offset, scene, before, raw);
      cursor := b;
      m := FindQuote(line, cursor);
    }
    if cursor < |line| {
      raw := raw + [Told(line[cursor..], offset + cursor, scene)];
    }
  }

  lemma AppendsUpToQuote(p: Patterns, line: string, cursor: nat, a: nat, b: nat, offset: nat, scene: nat,
                         before: seq<Item>, raw: seq<Item>)
    requires cursor <= a <= b <= |line|
    requires raw == (if a > cursor then before + [Told(line[cursor..a], offset + cursor, scene)] else before)
                    + [Spoken(p.inferSpeaker(line[..a], line[b..]), line[a..b], offset + a, scene)]
    ensures raw == before + UpToQuote(p, line, cursor, a, b, offset, scene)
    ensures forall rest: seq<Item> :: raw + rest == before + (UpToQuote(p, line, cursor, a, b, offset, scene) + rest)
  {
    hide Told, Spoken;
  }

  method ClassifyLine(p: Patterns, line: string, offset: nat, scene: nat) returns (raw: seq<Item>)
    ensures raw == LineItems(p, line, offset, scene)
  {
    hide QuoteItems, Find, WithoutBreak;
    if p.isSceneBreak(WithoutBreak(line)) {
      return [Told(line, offset, scene)];
    }
    match p.stageLine(WithoutBreak(line)) {
      case Some(stage) =>
        var body := Find(line, stage.body);
        raw := [];
        if line[..body] != "" {
          raw := [Told(line[..body], offset, scene)];
        }
        raw := raw + [Spoken(stage.speaker, line[body..], offset + body, scene)];
      case None =>
        raw := QuoteLoop(p, line, offset, scene);
    }
  }

  method DetectItems(p: Patterns, source: string) returns (raw: seq<Item>)
    ensures raw == Items(p, source, 0, 0)
  {
    hide LineItems, WithoutBreak, LineLength;
    raw := [];
    var offset, scene := 0, 0;
    var rest := source;
    while rest != ""
      invariant raw + Items(p, rest, offset, scene) == Items(p, source, 0, 0)
      decreases |rest|
    {
      var n := LineLength(rest);
      var line := rest[..n];
      var items := ClassifyLine(p, line, offset, scene);
      raw := raw + items;
      if p.isSceneBreak(WithoutBreak(line)) {
        scene := scene + 1;
      }
      offset := offset + n;
      rest := rest[n..];
    }
  }

  /** The sentence loop over one item. */
  method PartLoop(item: Item, index: nat) returns (segments: seq<Segment>)
    ensures segments == PartSegments(item, SentenceParts(item.text), item.start, index)
  {
    hide SentenceParts, Blank;
    segments := [];
    var cursor: nat := item.start;
    var parts := SentenceParts(item.text);
    var sentence := index;
    for k := 0 to |parts|
      invariant sentence == index + |segments| && 0 <= cursor
      invariant segments + PartSegments(item, parts[k..], cursor, sentence)
          == PartSegments(item, parts, item.start, index)
    {
      assert parts[k..][1..] == parts[k+1..];
      var part := parts[k];
      if !Blank(part) {
        segments := segments + [Segment(index + |segments|, sentence, item.scene, item.kind, item.speaker, part,
                                        cursor, cursor + |part|)];
        sentence := sentence + 1;
      }
      cursor := cursor + |part|;
    }
  }

  method DetectDialogueSegments(p: Patterns, source: string) returns (segments: seq<Segment>)
    ensures segments == Segments(p, source)
  {
    hide Items, SentenceParts, PartSegments, Blank;
    if Blank(source) {
      return [];
    }
    var raw := DetectItems(p, source);
    segments := [];
    for i := 0 to |raw|
      invariant segments + ItemSegments(raw[i..], |segments|) == ItemSegments(raw, 0)
    {
      assert raw[i..][1..] == raw[i+1..];
      var more := PartLoop(raw[i], |segments|);
      segments := segments + more;
    }
  }

  // ---------- tiling ----------

  /** The segments cover source[a..b] but for blank gaps, in order and disjoint, each with its text. */
  predicate Tiled(segs: seq<Segment>, source: string, a: nat, b: nat, index: nat)
    requires b <= |source|
  {
    a <= b &&
    if segs == [] then Blank(source[a..b])
    else
      var s := segs[0];
      && a <= s.start < s.end <= b
      && s.index == s.sentence == index
      && Blank(source[a..s.start])
      && s.text == source[s.start..s.end] && !Blank(s.text)
      && Tiled(segs[1..], source, s.end, b, index + 1)
  }

  lemma BlankSplit(source: string, a: nat, m: nat, b: nat)
    requires a <= m <= b <= |source|
    ensures Blank(source[a..m]) && Blank(source[m..b]) <==> Blank(source[a..b])
  {
    hide IsSpace;
    if Blank(source[a..b]) {
      forall i | 0 <= i < m - a ensures IsSpace(source[a..m][i]) {
        assert source[a..m][i] == source[a..b][i];
      }
      forall i | 0 <= i < b - m ensures IsSpace(source[m..b][i]) {
        assert source[m..b][i] == source[a..b][i + m - a];
      }
    }
    if Blank(source[a..m]) && Blank(source[m..b]) {
      forall i | 0 <= i < b - a ensures IsSpace(source[a..b][i]) {
        assert source[a..b][i] == if i < m - a then source[a..m][i] else source[m..b][i - (m - a)];
      }
    }
  }

  lemma {:induction false} TilesJoin(x: seq<Segment>, y: seq<Segment>, source: string, a: nat, m: nat, b: nat,
      index: nat)
    requires b <= |source| && a <= m <= b
    requires Tiled(x, source, a, m, index) && Tiled(y, source, m, b, index + |x|)
    ensures Tiled(x + y, source, a, b, index)
    decreases |x|
  {
    hide Blank;
    if x == [] {
      assert x + y == y;
      if y == [] {
        BlankSplit(source, a, m, b);
      } else {
        BlankSplit(source, a, m, y[0].start);
      }
    } else {
      assert (x + y)[1..] == x[1..] + y;
      TilesJoin(x[1..], y, source, x[0].end, m, b, index + 1);
    }
  }

  lemma EndMarkIsNotBlank(s: string, k: nat, e: nat)
    requires k < e <= |s| && IsEnd(s[k])
    ensures !Blank(s[..e])
  {
    assert s[..e][k] == s[k];
  }

  lemma BlankAt(source: string, a: nat, b: nat, i: nat)
    requires a <= i < b <= |source| && Blank(source[a..b])
    ensures IsSpace(source[i])
  {
    hide IsSpace;
    assert source[a..b][i-a] == source[i];
  }

  /** A blank sentence match is followed by blank text only: it ended the string, or stopped before
      a final newline. */
  lemma {:induction false} BlankMatchIsLast(s: string, k: nat)
    requires 1 <= k <= |s| && Blank(s[..MatchEnd(s, k)])
    ensures Blank(s[MatchEnd(s, k)..])
    decreases |s| - k
  {
    var e := MatchEnd(s, k);
    if k == |s| || (k == |s| - 1 && s[k] == '\n') {
    } else if IsEnd(s[k]) && (EndsRun(s, k) == |s| || IsSpace(s[EndsRun(s, k)])) {
      EndMarkIsNotBlank(s, k, e);
      assert false;
    } else {
      BlankMatchIsLast(s, k + 1);
    }
  }

  lemma {:induction false} BlankHasNoParts(s: string)
    requires Blank(s)
    ensures NotBlank(Matches(s)) == []
    decreases |s|
  {
    hide IsSpace;
    if s != "" {
      var e := MatchEnd(s, 1);
      assert Blank(s[..e]) && Blank(s[e..]);
      BlankHasNoParts(s[e..]);
      assert Matches(s)[1..] == Matches(s[e..]);
    }
  }

  lemma NothingTiles(source: string, a: nat, b: nat, index: nat)
    requires a <= b <= |source| && Blank(source[a..b])
    ensures Tiled([], source, a, b, index)
  {
    hide Blank;
  }

  /** Dropping blank matches loses no offsets, because they are all at the end. */
  lemma {:induction false} PartsTile(item: Item, s: string, source: string, cursor: nat, index: nat)
    requires cursor + |s| <= |source| && s == source[cursor..cursor+|s|]
    ensures Tiled(PartSegments(item, NotBlank(Matches(s)), cursor, index), source, cursor, cursor + |s|, index)
    decreases |s|
  {
    hide Blank, MatchEnd, Tiled;
    if s == "" {
      assert source[cursor..cursor] == "";
      BlankNothing();
      NothingTiles(source, cursor, cursor, index);
    } else {
      var e := MatchEnd(s, 1);
      SubSlice(source, s, cursor, 0, e);
      SubSlice(source, s, cursor, e, |s|);
      var first, rest := s[..e], s[e..];
      assert first == s[0..e];
      assert Matches(s) == [first] + Matches(rest) && Matches(s)[1..] == Matches(rest);
      if Blank(first) {
        BlankMatchIsLast(s, 1);
        BlankHasNoParts(rest);
        BlankSplit(source, cursor, cursor + e, cursor + |s|);
        assert NotBlank(Matches(s)) == [];
        NothingTiles(source, cursor, cursor + |s|, index);
      } else {
        PartsTile(item, rest, source, cursor + e, index + 1);
        assert NotBlank(Matches(s)) == [first] + NotBlank(Matches(rest));
        hide NotBlank, Matches, PartSegments;
        FirstPart(item, first, NotBlank(Matches(rest)), cursor, index);
        FirstTile(item, first, PartSegments(item, NotBlank(Matches(rest)), cursor + e, index + 1),
                  source, cursor, cursor + |s|, index);
      }
    }
  }

  lemma FirstPart(item: Item, part: string, rest: seq<string>, cursor: nat, index: nat)
    requires !Blank(part)
    ensures PartSegments(item, [part] + rest, cursor, index)
            == [Segment(index, index, item.scene, item.kind, item.speaker, part, cursor, cursor + |part|)]
               + PartSegments(item, rest, cursor + |part|, index + 1)
  {
    assert ([part] + rest)[1..] == rest;
  }

  lemma FirstTile(item: Item, part: string, rest: seq<Segment>, source: string, cursor: nat, b: nat, index: nat)
    requires !Blank(part) && cursor + |part| <= b <= |source| && part == source[cursor..cursor+|part|]
    requires Tiled(rest, source, cursor + |part|, b, index + 1)
    ensures Tiled([Segment(index, index, item.scene, item.kind, item.speaker, part, cursor, cursor + |part|)] + rest,
                  source, cursor, b, index)
  {
    var seg := Segment(index, index, item.scene, item.kind, item.speaker, part, cursor, cursor + |part|);
    assert ([seg] + rest)[1..] == rest;
    assert source[cursor..cursor] == "";
  }

  predicate ItemAt(item: Item, source: string, a: nat) {
    item.start == a && item.end == a + |item.text| <= |source| && item.text == source[a..item.end]
  }

  lemma ItemTiles(item: Item, source: string, index: nat)
    requires ItemAt(item, source, item.start)
    ensures Tiled(PartSegments(item, SentenceParts(item.text), item.start, index), source, item.start, item.end, index)
  {
    hide Blank, Matches;
    var s := item.text;
    PartsTile(item, s, source, item.start, index);
    if s == "" {
      assert NotBlank(Matches(s)) == [] by { EmptyHasNoParts(); }
    } else if NotBlank(Matches(s)) == [] {
      assert PartSegments(item, [], item.start, index) == [];
      assert Blank(source[item.start..item.end]);
      assert [s][1..] == [];
      assert PartSegments(item, [s], item.start, index) == [];
    }
  }

  lemma EmptyHasNoParts()
    ensures NotBlank(Matches("")) == []
  {
  }

  /** Items that follow one another without a gap from a to b. */
  predicate Chain(items: seq<Item>, source: string, a: nat, b: nat)
  {
    if items == [] then a == b
    else ItemAt(items[0], source, a) && Chain(items[1..], source, items[0].end, b)
  }

  lemma {:induction false} ChainsJoin(x: seq<Item>, y: seq<Item>, source: string, a: nat, m: nat, b: nat)
    requires Chain(x, source, a, m) && Chain(y, source, m, b)
    ensures Chain(x + y, source, a, b)
    decreases |x|
  {
    if x == [] {
      assert x + y == y;
    } else {
      assert (x + y)[1..] == x[1..] + y;
      ChainsJoin(x[1..], y, source, x[0].end, m, b);
    }
  }

  lemma ToldChain(text: string, start: nat, scene: nat, source: string)
    requires start + |text| <= |source| && text == source[start..start+|text|]
    ensures Chain(ToldUnlessEmpty(text, start, scene), source, start, start + |text|)
    ensures Chain([Told(text, start, scene)], source, start, start + |text|)
  {
  }

  lemma SpokenChain(speaker: Option<string>, text: string, start: nat, scene: nat, source: string)
    requires start + |text| <= |source| && text == source[start..start+|text|]
    ensures Chain([Spoken(speaker, text, start, scene)], source, start, start + |text|)
  {
  }

  lemma SubSlice(source: string, line: string, offset: nat, x: nat, y: nat)
    requires offset + |line| <= |source| && line == source[offset..offset+|line|] && x <= y <= |line|
    ensures line[x..y] == source[offset+x..offset+y]
  {
    forall i | 0 <= i < y - x
      ensures line[x..y][i] == source[offset+x..offset+y][i]
    {
      assert line[x..y][i] == line[x+i] == source[offset+x+i];
    }
  }

  lemma UpToQuoteChain(p: Patterns, line: string, cursor: nat, a: nat, b: nat, offset: nat, scene: nat, source: string)
    requires cursor <= a <= b <= |line|
    requires offset + |line| <= |source| && line == source[offset..offset+|line|]
    ensures Chain(UpToQuote(p, line, cursor, a, b, offset, scene), source, offset + cursor, offset + b)
  {
    hide Chain, ToldUnlessEmpty, Spoken;
    SubSlice(source, line, offset, cursor, a);
    SubSlice(source, line, offset, a, b);
    var speaker := p.inferSpeaker(line[..a], line[b..]);
    ToldChain(line[cursor..a], offset + cursor, scene, source);
    SpokenChain(speaker, line[a..b], offset + a, scene, source);
    var told, spoken := line[cursor..a], line[a..b];
    ChainsJoin(ToldUnlessEmpty(told, offset + cursor, scene), [Spoken(speaker, spoken, offset + a, scene)],
               source, offset + cursor, offset + a, offset + b);
  }

  lemma {:induction false} QuoteChain(p: Patterns, line: string, cursor: nat, offset: nat, scene: nat, source: string)
    requires cursor <= |line| && offset + |line| <= |source| && line == source[offset..offset+|line|]
    ensures Chain(QuoteItems(p, line, cursor, offset, scene), source, offset + cursor, offset + |line|)
    decreases |line| - cursor
  {
    hide Chain, ToldUnlessEmpty, UpToQuote, FindQuote;
    match FindQuote(line, cursor)
    case None =>
      SubSlice(source, line, offset, cursor, |line|);
      ToldChain(line[cursor..], offset + cursor, scene, source);
    case Some((a, b)) =>
      QuoteChain(p, line, b, offset, scene, source);
      UpToQuoteChain(p, line, cursor, a, b, offset, scene, source);
      ChainsJoin(UpToQuote(p, line, cursor, a, b, offset, scene), QuoteItems(p, line, b, offset, scene),
                 source, offset + cursor, offset + b, offset + |line|);
  }

  lemma StageChain(stage: Stage, line: string, body: nat, offset: nat, scene: nat, source: string)
    requires body <= |line| && offset + |line| <= |source| && line == source[offset..offset+|line|]
    ensures
      var told, spoken := line[..body], line[body..];
      Chain(ToldUnlessEmpty(told, offset, scene) + [Spoken(stage.speaker, spoken, offset + body, scene)],
            source, offset, offset + |line|)
  {
    hide Chain, ToldUnlessEmpty, Spoken;
    var told, spoken := line[..body], line[body..];
    SubSlice(source, line, offset, 0, body);
    SubSlice(source, line, offset, body, |line|);
    assert told == line[0..body] && spoken == line[body..|line|];
    ToldChain(told, offset, scene, source);
    SpokenChain(stage.speaker, spoken, offset + body, scene, source);
    ChainsJoin(ToldUnlessEmpty(told, offset, scene), [Spoken(stage.speaker, spoken, offset + body, scene)],
               source, offset, offset + body, offset + |line|);
  }

  lemma LineItemsAre(p: Patterns, line: string, offset: nat, scene: nat)
    ensures
      var plain := WithoutBreak(line);
      LineItems(p, line, offset, scene) ==
      if p.isSceneBreak(plain) then [Told(line, offset, scene)]
      else if p.stageLine(plain).None? then QuoteItems(p, line, 0, offset, scene)
      else
        var body := Find(line, p.stageLine(plain).value.body);
        ToldUnlessEmpty(line[..body], offset, scene)
        + [Spoken(p.stageLine(plain).value.speaker, line[body..], offset + body, scene)]
  {
    hide ToldUnlessEmpty, Spoken, Told, QuoteItems, Find, WithoutBreak;
  }

  lemma LineChain(p: Patterns, line: string, offset: nat, scene: nat, source: string)
    requires offset + |line| <= |source| && line == source[offset..offset+|line|]
    ensures Chain(LineItems(p, line, offset, scene), source, offset, offset + |line|)
  {
    hide Chain, ToldUnlessEmpty, Spoken, Told, QuoteItems, Find, WithoutBreak, LineItems;
    LineItemsAre(p, line, offset, scene);
    if p.isSceneBreak(WithoutBreak(line)) {
      ToldChain(line, offset, scene, source);
    } else {
      match p.stageLine(WithoutBreak(line))
      case Some(stage) => StageChain(stage, line, Find(line, stage.body), offset, scene, source);
      case None => QuoteChain(p, line, 0, offset, scene, source);
    }
  }

  lemma NoItems(source: string, a: nat)
    ensures Chain([], source, a, a)
  {
  }

  lemma {:induction false} ItemsChain(p: Patterns, text: string, offset: nat, scene: nat, source: string)
    requires offset + |text| == |source| && text == source[offset..]
    ensures Chain(Items(p, text, offset, scene), source, offset, |source|)
    decreases |text|
  {
    hide LineItems, LineLength, SceneAfter, Chain;
    if text == "" {
      NoItems(source, offset);
    } else {
      var n := LineLength(text);
      var line, rest, next := text[..n], text[n..], SceneAfter(p, text[..n], scene);
      SubSlice(source, text, offset, 0, n);
      SubSlice(source, text, offset, n, |text|);
      assert line == text[0..n] && rest == text[n..|text|];
      LineChain(p, line, offset, scene, source);
      ItemsChain(p, rest, offset + n, next, source);
      ChainsJoin(LineItems(p, line, offset, scene), Items(p, rest, offset + n, next),
                 source, offset, offset + n, |source|);
    }
  }

  lemma {:induction false} ChainTiles(items: seq<Item>, source: string, a: nat, b: nat, index: nat)
    requires b <= |source| && Chain(items, source, a, b)
    ensures a <= b && Tiled(ItemSegments(items, index), source, a, b, index)
    decreases |items|
  {
    hide SentenceParts, PartSegments, Blank;
    if items == [] {
      assert source[a..b] == "";
      BlankNothing();
    } else {
      var first := PartSegments(items[0], SentenceParts(items[0].text), items[0].start, index);
      ItemTiles(items[0], source, index);
      ChainTiles(items[1..], source, items[0].end, b, index + |first|);
      TilesJoin(first, ItemSegments(items[1..], index + |first|), source, a, items[0].end, b, index);
    }
  }

  // ---------- the result ----------

  /** What tiling means segment by segment. */
  lemma {:induction false} TiledMeans(segs: seq<Segment>, source: string, a: nat, b: nat, index: nat)
    requires b <= |source| && Tiled(segs, source, a, b, index)
    ensures forall k :: 0 <= k < |segs| ==>
              && a <= segs[k].start < segs[k].end <= b && segs[k].text == source[segs[k].start..segs[k].end]
              && segs[k].index == segs[k].sentence == index + k
    ensures forall j, k :: 0 <= j < k < |segs| ==> segs[j].end <= segs[k].start
    ensures forall i :: a <= i < b && !IsSpace(source[i]) ==>
              exists k :: 0 <= k < |segs| && segs[k].start <= i < segs[k].end
    decreases |segs|
  {
    hide IsSpace;
    if segs == [] {
      forall i | a <= i < b
        ensures IsSpace(source[i])
      {
        assert source[a..b][i-a] == source[i];
      }
    } else {
      TiledMeans(segs[1..], source, segs[0].end, b, index + 1);
      forall i | a <= i < b && !IsSpace(source[i])
        ensures exists k :: 0 <= k < |segs| && segs[k].start <= i < segs[k].end
      {
        if i < segs[0].start {
          BlankAt(source, a, segs[0].start, i);
          assert false;
        } else if i < segs[0].end {
          assert segs[0].start <= i < segs[0].end;
        } else {
          var k :| 0 <= k < |segs[1..]| && segs[1..][k].start <= i < segs[1..][k].end;
          assert segs[k+1].start <= i < segs[k+1].end;
        }
      }
    }
  }

  /** The segments tile the manuscript: each has exactly its source text, they are in order and
      disjoint and numbered from 0, and every character outside them is whitespace. */
  lemma SegmentsTileTheSource(p: Patterns, source: string)
    ensures
      var segs := Segments(p, source);
      && (forall k :: 0 <= k < |segs| ==>
            && segs[k].start < segs[k].end <= |source| && segs[k].text == source[segs[k].start..segs[k].end]
            && segs[k].index == segs[k].sentence == k)
      && (forall j, k :: 0 <= j < k < |segs| ==> segs[j].end <= segs[k].start)
      && (forall i :: 0 <= i < |source| && !IsSpace(source[i]) ==>
            exists k :: 0 <= k < |segs| && segs[k].start <= i < segs[k].end)
  {
    hide Tiled, Items, ItemSegments, IsSpace;
    if !Blank(source) {
      assert source[0..] == source;
      ItemsChain(p, source, 0, 0, source);
      ChainTiles(Items(p, source, 0, 0), source, 0, |source|, 0);
      TiledMeans(Segments(p, source), source, 0, |source|, 0);
    }
  }

  // ---------- scenes and attribution ----------

  predicate ScenesFrom(items: seq<Item>, scene: nat) {
    (forall i :: 0 <= i < |items| ==> scene <= items[i].scene)
    && forall i, j :: 0 <= i < j < |items| ==> items[i].scene <= items[j].scene
  }

  lemma {:induction false} QuoteScenes(p: Patterns, line: string, cursor: nat, offset: nat, scene: nat)
    requires cursor <= |line|
    ensures forall i :: i in QuoteItems(p, line, cursor, offset, scene) ==> i.scene == scene
    decreases |line| - cursor
  {
    match FindQuote(line, cursor)
    case None =>
    case Some((a, b)) => QuoteScenes(p, line, b, offset, scene);
  }

  lemma LineScenes(p: Patterns, line: string, offset: nat, scene: nat)
    ensures forall i :: i in LineItems(p, line, offset, scene) ==> i.scene == scene
  {
    hide QuoteItems, Find, WithoutBreak;
    QuoteScenes(p, line, 0, offset, scene);
  }

  lemma ScenesJoin(first: seq<Item>, rest: seq<Item>, scene: nat, next: nat)
    requires forall i :: i in first ==> i.scene == scene
    requires scene <= next && ScenesFrom(rest, next)
    ensures ScenesFrom(first + rest, scene)
  {
    forall i | 0 <= i < |first| ensures first[i].scene == scene { assert first[i] in first; }
  }

  lemma {:induction false} ItemScenes(p: Patterns, text: string, offset: nat, scene: nat)
    ensures ScenesFrom(Items(p, text, offset, scene), scene)
    decreases |text|
  {
    hide LineItems, ScenesFrom, LineLength, WithoutBreak;
    if text == "" {
      NoScenes(scene);
    } else {
      var n := LineLength(text);
      var next := SceneAfter(p, text[..n], scene);
      LineScenes(p, text[..n], offset, scene);
      ItemScenes(p, text[n..], offset + n, next);
      ScenesJoin(LineItems(p, text[..n], offset, scene), Items(p, text[n..], offset + n, next), scene, next);
    }
  }

  lemma NoScenes(scene: nat)
    ensures ScenesFrom([], scene)
  {
  }

  /** A segment carries the kind, speaker and scene of the item it was cut from. */
  predicate CutFrom(seg: Segment, item: Item) {
    && seg.kind == item.kind && seg.speaker == item.speaker && seg.scene == item.scene
    && item.start <= seg.start
  }

  lemma {:induction false} PartsCut(item: Item, parts: seq<string>, cursor: nat, index: nat)
    requires item.start <= cursor
    ensures forall s :: s in PartSegments(item, parts, cursor, index) ==> CutFrom(s, item)
    decreases |parts|
  {
    if parts != [] {
      PartsCut(item, parts[1..], cursor + |parts[0]|, if Blank(parts[0]) then index else index + 1);
    }
  }

  lemma {:induction false} SegmentScenes(items: seq<Item>, scene: nat, index: nat)
    requires ScenesFrom(items, scene)
    ensures forall s :: s in ItemSegments(items, index) ==> scene <= s.scene && exists i :: i in items && CutFrom(s, i)
    ensures forall j, k :: 0 <= j < k < |ItemSegments(items, index)| ==>
              ItemSegments(items, index)[j].scene <= ItemSegments(items, index)[k].scene
    decreases |items|
  {
    hide SentenceParts, PartSegments;
    if items != [] {
      var first := PartSegments(items[0], SentenceParts(items[0].text), items[0].start, index);
      var rest := ItemSegments(items[1..], index + |first|);
      PartsCut(items[0], SentenceParts(items[0].text), items[0].start, index);
      assert ScenesFrom(items[1..], items[0].scene);
      SegmentScenes(items[1..], items[0].scene, index + |first|);
      assert ItemSegments(items, index) == first + rest;
      forall s: Segment | s in first + rest
        ensures scene <= s.scene && exists i :: i in items && CutFrom(s, i)
      {
        if s in first {
          assert items[0] in items && CutFrom(s, items[0]);
        } else {
          var i :| i in items[1..] && CutFrom(s, i);
          assert i in items;
        }
      }
      forall j, k | 0 <= j < k < |first + rest|
        ensures (first + rest)[j].scene <= (first + rest)[k].scene
      {
        if j < |first| {
          assert first[j] in first;
          if k < |first| { assert first[k] in first; } else { assert rest[k-|first|] in rest; }
        }
      }
    }
  }

  /** Scene indices never decrease, and no segment mixes two items: its kind, speaker and scene are
      those of one quote, stage line or stretch of narration. */
  lemma ScenesNeverDecrease(p: Patterns, source: string)
    ensures
      var segs := Segments(p, source);
      && (forall j, k :: 0 <= j < k < |segs| ==> segs[j].scene <= segs[k].scene)
      && (forall s :: s in segs ==> exists i :: i in Items(p, source, 0, 0) && CutFrom(s, i))
  {
    hide Items, ItemSegments, CutFrom;
    ItemScenes(p, source, 0, 0);
    SegmentScenes(Items(p, source, 0, 0), 0, 0);
  }
}
