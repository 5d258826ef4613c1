/** The five preprocessing agents of one chapter and the typed fallbacks between them
    (backend/pipeline/integration.py:40-237 and backend/pipeline/agents/).  What a language model
    answers, and whether a stage raises, is arbitrary. */
module AgentChain {
  import opened Wrappers
  import opened Text
  import opened TextWords
  import Structure = StructureParser

  datatype Para = Para(
    index: nat,
    text: string,
    isDialogue: bool,
    hint: Option<string>,
    speaker: Option<string>,
    original: Option<string>)

  datatype Scene = Scene(index: nat, paras: seq<Para>)
  datatype Chapter = Chapter(number: nat, title: string, scenes: seq<Scene>)

  datatype Stage = Parser | Attribution | Normalizer | Planner | Qa

  datatype Severity = Error | Warning
  datatype Issue = MissingParagraphs(expected: nat, actual: nat) | Other(severity: Severity)

  /** The planner's answer for one batch: nothing, or tagged text for some paragraph indices. */
  datatype Reply = Silent | Tagged(found: nat -> Option<string>)

  /** `breaks(s)` says that the database work after stage s raises, which the last-resort guard catches;
      `attributions(c, s)` is what the model said of scene s of chapter c; `mood` is the emotion the
      keyword rules find in a text. */
  datatype Agents = Agents(
    raises: Stage -> bool,
    breaks: Stage -> bool,
    attributions: (nat, nat) -> map<nat, string>,
    capitalize: string -> string,
    normalize: string -> string,
    reply: (nat, nat, nat) -> Reply,
    mood: string -> Option<string>,
    nameIssues: seq<Chapter> -> nat,
    textIssues: string -> seq<Severity>,
    basic: string -> string)

  datatype Result =
    | Basic(text: string, degraded: seq<Stage>)
    | Chained(text: string, chapters: seq<Chapter>, degraded: seq<Stage>, completed: bool, qaPassed: bool,
        issues: seq<Issue>)

  // ---------- what each stage does to a paragraph ----------

  function FromParser(p: Structure.Paragraph): Para {
    Para(p.index, p.text, p.isDialogue, p.hint, None, None)
  }

  function SceneFromParser(s: Structure.Scene): Scene {
    Scene(s.index, seq(|s.paragraphs|, k requires 0 <= k < |s.paragraphs| => FromParser(s.paragraphs[k])))
  }

  function ScenesFromParser(scenes: seq<Structure.Scene>): seq<Scene> {
    seq(|scenes|, k requires 0 <= k < |scenes| => SceneFromParser(scenes[k]))
  }

  function ChapterFromParser(c: Structure.Chapter): Chapter {
    Chapter(c.number, c.title, ScenesFromParser(c.scenes))
  }

  function FromStructure(cs: seq<Structure.Chapter>): seq<Chapter> {
    seq(|cs|, k requires 0 <= k < |cs| => ChapterFromParser(cs[k]))
  }

  function Speaker(a: Agents, said: map<nat, string>, p: Para): string {
    a.capitalize(Strip(
      if p.index in said then said[p.index]
      else if p.hint.Some? && p.hint.value != "" then p.hint.value
      else if p.isDialogue then "unknown" else "narrator"))
  }

  function Attributed(a: Agents, c: nat, s: nat, p: Para): Para {
    p.(speaker := Some(Speaker(a, a.attributions(c, s), p)))
  }

  function Normalized(a: Agents, p: Para): Para {
    p.(text := a.normalize(p.text), original := Some(p.text))
  }

  /** `_apply_rule_based_tags` */
  function RuleTagged(a: Agents, p: Para): string {
    var speaker := "[SPEAKER:" + (if p.speaker.Some? then p.speaker.value else "narrator") + "] ";
    var mood := a.mood(p.text);
    if mood.Some? then speaker + "[" + mood.value + "] " + p.text else speaker + p.text
  }

  /** The k-th paragraph of a scene is in batch k/10. */
  function Planned(a: Agents, c: nat, s: nat, k: nat, p: Para): Para {
    var reply := a.reply(c, s, k / 10);
    p.(text := if reply.Tagged? && reply.found(p.index).Some? then Strip(reply.found(p.index).value)
        else RuleTagged(a, p))
  }

  // ---------- what each stage does to all chapters ----------

  function AttributedScene(a: Agents, c: nat, s: nat, scene: Scene): Scene {
    scene.(paras := seq(|scene.paras|, k requires 0 <= k < |scene.paras| => Attributed(a, c, s, scene.paras[k])))
  }

  function AttributedChapter(a: Agents, c: nat, chapter: Chapter): Chapter {
    chapter.(scenes := seq(|chapter.scenes|,
        s requires 0 <= s < |chapter.scenes| => AttributedScene(a, c, s, chapter.scenes[s])))
  }

  function AttributedAll(a: Agents, chapters: seq<Chapter>): seq<Chapter> {
    seq(|chapters|, c requires 0 <= c < |chapters| => AttributedChapter(a, c, chapters[c]))
  }

  function NormalizedScene(a: Agents, scene: Scene): Scene {
    scene.(paras := seq(|scene.paras|, k requires 0 <= k < |scene.paras| => Normalized(a, scene.paras[k])))
  }

  function NormalizedChapter(a: Agents, chapter: Chapter): Chapter {
    chapter.(scenes := seq(|chapter.scenes|,
        s requires 0 <= s < |chapter.scenes| => NormalizedScene(a, chapter.scenes[s])))
  }

  function NormalizedAll(a: Agents, chapters: seq<Chapter>): seq<Chapter> {
    seq(|chapters|, c requires 0 <= c < |chapters| => NormalizedChapter(a, chapters[c]))
  }

  function PlannedScene(a: Agents, c: nat, s: nat, scene: Scene): Scene {
    scene.(paras := seq(|scene.paras|, k requires 0 <= k < |scene.paras| => Planned(a, c, s, k, scene.paras[k])))
  }

  function PlannedChapter(a: Agents, c: nat, chapter: Chapter): Chapter {
    chapter.(scenes := seq(|chapter.scenes|,
        s requires 0 <= s < |chapter.scenes| => PlannedScene(a, c, s, chapter.scenes[s])))
  }

  function PlannedAll(a: Agents, chapters: seq<Chapter>): seq<Chapter> {
    seq(|chapters|, c requires 0 <= c < |chapters| => PlannedChapter(a, c, chapters[c]))
  }

  // ---------- shape ----------

  /** A paragraph without what stages may change. */
  function Bare(p: Para): Para {
    p.(text := "", speaker := None, original := None)
  }

  predicate SameScene(a: Scene, b: Scene) {
    && a.index == b.index && |a.paras| == |b.paras|
    && forall k :: 0 <= k < |a.paras| ==> Bare(a.paras[k]) == Bare(b.paras[k])
  }

  predicate SameChapter(a: Chapter, b: Chapter) {
    a.number == b.number && a.title == b.title && |a.scenes| == |b.scenes|
    && forall s :: 0 <= s < |a.scenes| ==> SameScene(a.scenes[s], b.scenes[s])
  }

  /** The same chapters, scenes and paragraphs in the same order, whatever they say. */
  predicate SameShape(a: seq<Chapter>, b: seq<Chapter>) {
    |a| == |b| && forall c :: 0 <= c < |a| ==> SameChapter(a[c], b[c])
  }

  function SceneCount(scenes: seq<Scene>): nat {
    if scenes == [] then 0 else SceneCount(scenes[..|scenes|-1]) + |scenes[|scenes|-1].paras|
  }

  function ParagraphCount(chapters: seq<Chapter>): nat {
    if chapters == [] then 0 else ParagraphCount(chapters[..|chapters|-1]) + SceneCount(chapters[|chapters|-1].scenes)
  }

  lemma {:induction false} SameSceneCount(a: seq<Scene>, b: seq<Scene>)
    requires |a| == |b| && forall s :: 0 <= s < |a| ==> SameScene(a[s], b[s])
    ensures SceneCount(a) == SceneCount(b)
  {
    hide Bare;
    if a != [] {
      var n := |a| - 1;
      assert SameScene(a[n], b[n]);
      SameSceneCount(a[..n], b[..n]);
    }
  }

  lemma {:induction false} SameShapeCount(a: seq<Chapter>, b: seq<Chapter>)
    requires SameShape(a, b)
    ensures ParagraphCount(a) == ParagraphCount(b)
  {
    hide SameScene;
    if a != [] {
      var n := |a| - 1;
      assert SameChapter(a[n], b[n]);
      SameSceneCount(a[n].scenes, b[n].scenes);
      SameShapeCount(a[..n], b[..n]);
    }
  }

  lemma SameShapeTransitive(a: seq<Chapter>, b: seq<Chapter>, c: seq<Chapter>)
    requires SameShape(a, b) && SameShape(b, c)
    ensures SameShape(a, c)
  {
    hide Bare;
    forall i | 0 <= i < |a| ensures SameChapter(a[i], c[i]) {
      assert SameChapter(a[i], b[i]) && SameChapter(b[i], c[i]);
      forall s | 0 <= s < |a[i].scenes| ensures SameScene(a[i].scenes[s], c[i].scenes[s]) {
        assert SameScene(a[i].scenes[s], b[i].scenes[s]) && SameScene(b[i].scenes[s], c[i].scenes[s]);
      }
    }
  }

  lemma AttributionKeepsShape(a: Agents, chapters: seq<Chapter>)
    ensures SameShape(chapters, AttributedAll(a, chapters))
  {
    hide Speaker;
  }

  lemma NormalizingKeepsShape(a: Agents, chapters: seq<Chapter>)
    ensures SameShape(chapters, NormalizedAll(a, chapters))
  {
  }

  lemma PlanningKeepsShape(a: Agents, chapters: seq<Chapter>)
    ensures SameShape(chapters, PlannedAll(a, chapters))
  {
    hide Strip, RuleTagged;
  }

  // ---------- what becomes of one paragraph ----------

  /** The speaker that attribution owes a paragraph: the model's answer for its index, else the parser's hint
      unless that is empty, else by what it is; stripped and capitalized. */
  predicate SpeakerIs(a: Agents, said: map<nat, string>, index: nat, hint: Option<string>, isDialogue: bool,
                      speaker: Option<string>)
  {
    && (index in said ==> speaker == Some(a.capitalize(Strip(said[index]))))
    && (index !in said && hint.Some? && hint.value != "" ==> speaker == Some(a.capitalize(Strip(hint.value))))
    && (index !in said && (hint.None? || hint.value == "") && isDialogue ==>
          speaker == Some(a.capitalize(Strip("unknown"))))
    && (index !in said && (hint.None? || hint.value == "") && !isDialogue ==>
          speaker == Some(a.capitalize(Strip("narrator"))))
  }

  /** What the chain makes of the parser's paragraph q, the k-th of scene s of chapter c. */
  predicate ParagraphIs(a: Agents, c: nat, s: nat, k: nat, q: Structure.Paragraph, p: Para) {
    var plain, reply := a.normalize(q.text), a.reply(c, s, k / 10);
    && p.index == q.index && p.isDialogue == q.isDialogue && p.hint == q.hint && p.original == Some(q.text)
    // the speaker
    && (a.raises(Attribution) ==> p.speaker.None?)
    && (!a.raises(Attribution) ==> SpeakerIs(a, a.attributions(c, s), q.index, q.hint, q.isDialogue, p.speaker))
    // the text
    && (a.raises(Planner) ==> p.text == plain)
    && (!a.raises(Planner) && reply.Tagged? && reply.found(q.index).Some? ==>
          p.text == Strip(reply.found(q.index).value))
    && (!a.raises(Planner) && (reply.Silent? || reply.found(q.index).None?) ==>
          var name := if p.speaker.Some? then p.speaker.value else "narrator";
          p.text == "[SPEAKER:" + name + "] "
                    + (if a.mood(plain).Some? then "[" + a.mood(plain).value + "] " else "") + plain)
  }

  predicate SceneIs(a: Agents, c: nat, s: nat, t: Structure.Scene, scene: Scene) {
    scene.index == t.index && |scene.paras| == |t.paragraphs|
    && forall k :: 0 <= k < |t.paragraphs| ==> ParagraphIs(a, c, s, k, t.paragraphs[k], scene.paras[k])
  }

  predicate ChapterIs(a: Agents, c: nat, t: Structure.Chapter, chapter: Chapter) {
    chapter.number == t.number && chapter.title == t.title && |chapter.scenes| == |t.scenes|
    && forall s :: 0 <= s < |t.scenes| ==> SceneIs(a, c, s, t.scenes[s], chapter.scenes[s])
  }

  /** The chain's chapters, paragraph by paragraph. */
  predicate ChaptersAre(a: Agents, cs: seq<Structure.Chapter>, chapters: seq<Chapter>) {
    |chapters| == |cs| && forall c :: 0 <= c < |cs| ==> ChapterIs(a, c, cs[c], chapters[c])
  }

  /** After attribution alone. */
  predicate AllAttributed(a: Agents, before: seq<Chapter>, after: seq<Chapter>) {
    SameShape(before, after)
    && forall c, s, k :: 0 <= c < |before| && 0 <= s < |before[c].scenes| && 0 <= k < |before[c].scenes[s].paras| ==>
         AttributedRight(a, a.attributions(c, s), before[c].scenes[s].paras[k], after, c, s, k)
  }

  predicate AttributedRight(a: Agents, said: map<nat, string>, p: Para, after: seq<Chapter>, c: nat, s: nat, k: nat) {
    && c < |after| && s < |after[c].scenes| && k < |after[c].scenes[s].paras|
    && var q := after[c].scenes[s].paras[k];
       q == p.(speaker := q.speaker) && SpeakerIs(a, said, p.index, p.hint, p.isDialogue, q.speaker)
  }

  lemma SpeakerIsRight(a: Agents, said: map<nat, string>, p: Para)
    ensures SpeakerIs(a, said, p.index, p.hint, p.isDialogue, Some(Speaker(a, said, p)))
  {
    hide Strip;
  }

  lemma AttributionIsRight(a: Agents, chapters: seq<Chapter>)
    ensures AllAttributed(a, chapters, AttributedAll(a, chapters))
  {
    hide Speaker, SpeakerIs, SameShape;
    AttributionKeepsShape(a, chapters);
    forall c, s, k | 0 <= c < |chapters| && 0 <= s < |chapters[c].scenes| && 0 <= k < |chapters[c].scenes[s].paras|
      ensures AttributedRight(a, a.attributions(c, s), chapters[c].scenes[s].paras[k], AttributedAll(a, chapters),
                              c, s, k)
    {
      SpeakerIsRight(a, a.attributions(c, s), chapters[c].scenes[s].paras[k]);
    }
  }

  /** The three stages on one paragraph. */
  function Staged(a: Agents, c: nat, s: nat, k: nat, q: Structure.Paragraph): Para {
    var attributed := if a.raises(Attribution) then FromParser(q) else Attributed(a, c, s, FromParser(q));
    var normalized := Normalized(a, attributed);
    if a.raises(Planner) then normalized else Planned(a, c, s, k, normalized)
  }

  lemma StagedIsRight(a: Agents, c: nat, s: nat, k: nat, q: Structure.Paragraph)
    ensures ParagraphIs(a, c, s, k, q, Staged(a, c, s, k, q))
  {
    hide Strip, Speaker, SpeakerIs, RuleTagged;
    SpeakerIsRight(a, a.attributions(c, s), FromParser(q));
    var attributed := if a.raises(Attribution) then FromParser(q) else Attributed(a, c, s, FromParser(q));
    RuleTagIs(a, Normalized(a, attributed));
  }

  lemma RuleTagIs(a: Agents, p: Para)
    ensures
      var name := if p.speaker.Some? then p.speaker.value else "narrator";
      RuleTagged(a, p) == "[SPEAKER:" + name + "] "
                          + (if a.mood(p.text).Some? then "[" + a.mood(p.text).value + "] " else "") + p.text
  {
    var name := if p.speaker.Some? then p.speaker.value else "narrator";
    assert "[SPEAKER:" + name + "] " + "" == "[SPEAKER:" + name + "] ";
  }

  lemma FinalIsStaged(a: Agents, cs: seq<Structure.Chapter>, c: nat, s: nat, k: nat)
    requires c < |cs| && s < |cs[c].scenes| && k < |cs[c].scenes[s].paragraphs|
    ensures
      var chapters := Final(a, FromStructure(cs));
      && |chapters| == |cs| && |chapters[c].scenes| == |cs[c].scenes|
      && |chapters[c].scenes[s].paras| == |cs[c].scenes[s].paragraphs|
      && chapters[c].scenes[s].paras[k] == Staged(a, c, s, k, cs[c].scenes[s].paragraphs[k])
  {
    hide FromParser, Attributed, Normalized, Planned;
  }

  lemma FinalKeepsTitles(a: Agents, cs: seq<Structure.Chapter>, c: nat)
    requires c < |cs|
    ensures
      var chapters := Final(a, FromStructure(cs));
      && |chapters| == |cs| && chapters[c].number == cs[c].number && chapters[c].title == cs[c].title
      && |chapters[c].scenes| == |cs[c].scenes|
      && forall s :: 0 <= s < |cs[c].scenes| ==>
           && chapters[c].scenes[s].index == cs[c].scenes[s].index
           && |chapters[c].scenes[s].paras| == |cs[c].scenes[s].paragraphs|
  {
    hide FromParser, Attributed, Normalized, Planned;
  }

  /** What reaches the end of the chain, paragraph by paragraph. */
  lemma FinalIsRight(a: Agents, cs: seq<Structure.Chapter>)
    ensures ChaptersAre(a, cs, Final(a, FromStructure(cs)))
  {
    hide Final, FromStructure, ParagraphIs, Staged;
    var chapters := Final(a, FromStructure(cs));
    FinalCount(a, cs);
    forall c | 0 <= c < |cs| ensures ChapterIs(a, c, cs[c], chapters[c]) {
      FinalKeepsTitles(a, cs, c);
      forall s, k | 0 <= s < |cs[c].scenes| && 0 <= k < |cs[c].scenes[s].paragraphs|
        ensures ParagraphIs(a, c, s, k, cs[c].scenes[s].paragraphs[k], chapters[c].scenes[s].paras[k])
      {
        FinalIsStaged(a, cs, c, s, k);
        StagedIsRight(a, c, s, k, cs[c].scenes[s].paragraphs[k]);
      }
    }
  }

  lemma FinalCount(a: Agents, cs: seq<Structure.Chapter>)
    ensures |Final(a, FromStructure(cs))| == |cs|
  {
  }

  // ---------- the stages ----------

  /** `CharacterAttribution.run` */
  method RunAttribution(a: Agents, chapters: seq<Chapter>) returns (r: Option<seq<Chapter>>)
    ensures r == if chapters == [] || a.raises(Attribution) then None else Some(AttributedAll(a, chapters))
    ensures r.Some? ==> AllAttributed(a, chapters, r.value)
  {
    hide Attributed, AllAttributed;
    AttributionIsRight(a, chapters);
    if chapters == [] || a.raises(Attribution) {
      return None;
    }
    var attributed: seq<Chapter> := [];
    for c := 0 to |chapters|
      invariant |attributed| == c
      invariant forall i :: 0 <= i < c ==> attributed[i] == AttributedChapter(a, i, chapters[i])
    {
      var scenes: seq<Scene> := [];
      for s := 0 to |chapters[c].scenes|
        invariant |scenes| == s
        invariant forall i :: 0 <= i < s ==> scenes[i] == AttributedScene(a, c, i, chapters[c].scenes[i])
      {
        var scene := chapters[c].scenes[s];
        var paras: seq<Para> := [];
        for k := 0 to |scene.paras|
          invariant |paras| == k
          invariant forall i :: 0 <= i < k ==> paras[i] == Attributed(a, c, s, scene.paras[i])
        {
          paras := paras + [Attributed(a, c, s, scene.paras[k])];
        }
        assert scene.(paras := paras) == AttributedScene(a, c, s, scene);
        scenes := scenes + [scene.(paras := paras)];
      }
      assert chapters[c].(scenes := scenes) == AttributedChapter(a, c, chapters[c]);
      attributed := attributed + [chapters[c].(scenes := scenes)];
    }
    assert attributed == AttributedAll(a, chapters);
    r := Some(attributed);
  }

  /** `TextNormalizer.run` */
  method RunNormalizer(a: Agents, chapters: seq<Chapter>) returns (r: Option<seq<Chapter>>)
    ensures r == if chapters == [] || a.raises(Normalizer) then None else Some(NormalizedAll(a, chapters))
  {
    hide Normalized;
    if chapters == [] || a.raises(Normalizer) {
      return None;
    }
    var normalized: seq<Chapter> := [];
    for c := 0 to |chapters|
      invariant |normalized| == c
      invariant forall i :: 0 <= i < c ==> normalized[i] == NormalizedChapter(a, chapters[i])
    {
      var scenes: seq<Scene> := [];
      for s := 0 to |chapters[c].scenes|
        invariant |scenes| == s
        invariant forall i :: 0 <= i < s ==> scenes[i] == NormalizedScene(a, chapters[c].scenes[i])
      {
        var scene := chapters[c].scenes[s];
        var paras: seq<Para> := [];
        for k := 0 to |scene.paras|
          invariant |paras| == k
          invariant forall i :: 0 <= i < k ==> paras[i] == Normalized(a, scene.paras[i])
        {
          paras := paras + [Normalized(a, scene.paras[k])];
        }
        assert scene.(paras := paras) == NormalizedScene(a, scene);
        scenes := scenes + [scene.(paras := paras)];
      }
      assert chapters[c].(scenes := scenes) == NormalizedChapter(a, chapters[c]);
      normalized := normalized + [chapters[c].(scenes := scenes)];
    }
    assert normalized == NormalizedAll(a, chapters);
    r := Some(normalized);
  }

  /** A batch's answer, merged back paragraph by paragraph (`_parse_tagged_response`). */
  method PlanBatch(a: Agents, reply: Reply, batch: seq<Para>) returns (planned: seq<Para>)
    ensures |planned| == |batch|
    ensures forall k :: 0 <= k < |batch| ==> planned[k] == batch[k].(text :=
              if reply.Tagged? && reply.found(batch[k].index).Some? then Strip(reply.found(batch[k].index).value)
              else RuleTagged(a, batch[k]))
  {
    hide Strip, RuleTagged;
    planned := [];
    for k := 0 to |batch|
      invariant |planned| == k
      invariant forall j :: 0 <= j < k ==> planned[j] == batch[j].(text :=
                  if reply.Tagged? && reply.found(batch[j].index).Some? then Strip(reply.found(batch[j].index).value)
                  else RuleTagged(a, batch[j]))
    {
      var p := batch[k];
      if reply.Tagged? && reply.found(p.index).Some? {
        planned := planned + [p.(text := Strip(reply.found(p.index).value))];
      } else {
        planned := planned + [p.(text := RuleTagged(a, p))];
      }
    }
  }

  /** The k-th paragraph of batch b. */
  lemma BatchPlanned(a: Agents, c: nat, s: nat, b: nat, k: nat, p: Para)
    requires k < 10
    ensures
      var reply := a.reply(c, s, b);
      Planned(a, c, s, 10 * b + k, p) == p.(text :=
        if reply.Tagged? && reply.found(p.index).Some? then Strip(reply.found(p.index).value) else RuleTagged(a, p))
  {
    hide Strip, RuleTagged;
    assert (10 * b + k) / 10 == b;
  }

  predicate PlannedTo(a: Agents, c: nat, s: nat, paras: seq<Para>, planned: seq<Para>) {
    && |planned| <= |paras|
    && forall k :: 0 <= k < |planned| ==> planned[k] == Planned(a, c, s, k, paras[k])
  }

  lemma NextBatch(a: Agents, c: nat, s: nat, paras: seq<Para>, planned: seq<Para>, b: nat, batch: seq<Para>,
      tagged: seq<Para>)
    requires PlannedTo(a, c, s, paras, planned) && |planned| == 10 * b && |tagged| == |batch| <= 10
    requires |planned| + |batch| <= |paras| && batch == paras[|planned|..|planned|+|batch|]
    requires forall k :: 0 <= k < |batch| ==> tagged[k] == Planned(a, c, s, 10 * b + k, batch[k])
    ensures PlannedTo(a, c, s, paras, planned + tagged)
  {
    hide Planned;
    var more := planned + tagged;
    forall k | 0 <= k < |more| ensures more[k] == Planned(a, c, s, k, paras[k]) {
      if k >= |planned| {
        assert more[k] == tagged[k - |planned|] && batch[k - |planned|] == paras[k];
      }
    }
  }

  /** One scene in batches of ten: the batches tile the paragraphs. */
  method PlanScene(a: Agents, c: nat, s: nat, scene: Scene) returns (r: Scene)
    ensures r == PlannedScene(a, c, s, scene)
  {
    hide Strip, RuleTagged, Planned;
    var planned: seq<Para> := [];
    var b := 0;
    while 10 * b < |scene.paras|
      invariant |planned| == if 10 * b < |scene.paras| then 10 * b else |scene.paras|
      invariant PlannedTo(a, c, s, scene.paras, planned)
      decreases |scene.paras| - 10 * b
    {
      hide PlannedTo;
      var end := if 10 * b + 10 < |scene.paras| then 10 * b + 10 else |scene.paras|;
      var batch := scene.paras[10 * b..end];
      var tagged := PlanBatch(a, a.reply(c, s, b), batch);
      forall k | 0 <= k < |batch| ensures tagged[k] == Planned(a, c, s, 10 * b + k, batch[k]) {
        BatchPlanned(a, c, s, b, k, batch[k]);
      }
      NextBatch(a, c, s, scene.paras, planned, b, batch, tagged);
      planned := planned + tagged;
      b := b + 1;
    }
    r := scene.(paras := planned);
    assert r.paras == PlannedScene(a, c, s, scene).paras;
  }

  /** `ProsodyPlanner.run` */
  method RunPlanner(a: Agents, chapters: seq<Chapter>) returns (r: Option<seq<Chapter>>)
    ensures r == if chapters == [] || a.raises(Planner) then None else Some(PlannedAll(a, chapters))
  {
    hide PlannedScene;
    if chapters == [] || a.raises(Planner) {
      return None;
    }
    var planned: seq<Chapter> := [];
    for c := 0 to |chapters|
      invariant |planned| == c
      invariant forall i :: 0 <= i < c ==> planned[i] == PlannedChapter(a, i, chapters[i])
    {
      var scenes: seq<Scene> := [];
      for s := 0 to |chapters[c].scenes|
        invariant |scenes| == s
        invariant forall i :: 0 <= i < s ==> scenes[i] == PlannedScene(a, c, i, chapters[c].scenes[i])
      {
        var scene := PlanScene(a, c, s, chapters[c].scenes[s]);
        scenes := scenes + [scene];
      }
      assert chapters[c].(scenes := scenes) == PlannedChapter(a, c, chapters[c]);
      planned := planned + [chapters[c].(scenes := scenes)];
    }
    assert planned == PlannedAll(a, chapters);
    r := Some(planned);
  }

  predicate HasError(issues: seq<Issue>) {
    exists k :: 0 <= k < |issues| && (issues[k].MissingParagraphs? || issues[k].severity.Error?)
  }

  predicate ReportsMissing(issues: seq<Issue>) {
    exists k :: 0 <= k < |issues| && issues[k].MissingParagraphs?
  }

  /** `sum(len(s["paragraphs"]) for ch in chapters for s in ch["scenes"])` */
  method CountParagraphs(chapters: seq<Chapter>) returns (n: nat)
    ensures n == ParagraphCount(chapters)
  {
    n := 0;
    for c := 0 to |chapters|
      invariant n == ParagraphCount(chapters[..c])
    {
      var scenes := chapters[c].scenes;
      for s := 0 to |scenes|
        invariant n == ParagraphCount(chapters[..c]) + SceneCount(scenes[..s])
      {
        assert scenes[..s+1][..s] == scenes[..s];
        n := n + |scenes[s].paras|;
      }
      assert scenes[..|scenes|] == scenes && chapters[..c+1][..c] == chapters[..c];
    }
    assert chapters[..|chapters|] == chapters;
  }

  /** `_check_completeness`: paragraphs are missing exactly when there are fewer of them. */
  method CheckCompleteness(original: seq<Chapter>, chapters: seq<Chapter>) returns (issues: seq<Issue>)
    ensures ReportsMissing(issues) <==> ParagraphCount(chapters) < ParagraphCount(original)
    ensures issues == if ParagraphCount(chapters) < ParagraphCount(original)
                      then [MissingParagraphs(ParagraphCount(original), ParagraphCount(chapters))] else []
  {
    var expected := CountParagraphs(original);
    var actual := CountParagraphs(chapters);
    issues := [];
    if actual < expected {
      issues := [MissingParagraphs(expected, actual)];
      assert issues[0].MissingParagraphs?;
    }
  }

  function ParasTexts(paras: seq<Para>): seq<string> {
    seq(|paras|, k requires 0 <= k < |paras| => paras[k].text)
  }

  /** All paragraph texts in reading order. */
  function SceneTexts(scenes: seq<Scene>): seq<string> {
    if scenes == [] then []
    else SceneTexts(scenes[..|scenes|-1]) + ParasTexts(scenes[|scenes|-1].paras)
  }

  function Texts(chapters: seq<Chapter>): seq<string> {
    if chapters == [] then [] else Texts(chapters[..|chapters|-1]) + SceneTexts(chapters[|chapters|-1].scenes)
  }

  lemma NextTexts(chapters: seq<Chapter>, c: nat)
    requires c < |chapters|
    ensures Texts(chapters[..c+1]) == Texts(chapters[..c]) + SceneTexts(chapters[c].scenes)
    ensures Texts(chapters[..0]) == []
  {
    hide SceneTexts;
    assert chapters[..c+1][..c] == chapters[..c];
  }

  lemma NextSceneTexts(scenes: seq<Scene>, s: nat)
    requires s < |scenes|
    ensures SceneTexts(scenes[..s+1]) == SceneTexts(scenes[..s]) + ParasTexts(scenes[s].paras)
  {
    assert scenes[..s+1][..s] == scenes[..s];
  }

  lemma NothingToCollect()
    ensures Texts([]) == [] && SceneTexts([]) == []
  {
  }

  method CollectTexts(chapters: seq<Chapter>) returns (texts: seq<string>)
    ensures texts == Texts(chapters)
  {
    hide Texts, SceneTexts;
    NothingToCollect();
    texts := [];
    for c := 0 to |chapters|
      invariant texts == Texts(chapters[..c])
    {
      var scenes := chapters[c].scenes;
      for s := 0 to |scenes|
        invariant texts == Texts(chapters[..c]) + SceneTexts(scenes[..s])
      {
        NextSceneTexts(scenes, s);
        var paras := scenes[s].paras;
        ghost var before := texts;
        for k := 0 to |paras|
          invariant texts == before + ParasTexts(paras[..k])
        {
          assert ParasTexts(paras[..k+1]) == ParasTexts(paras[..k]) + [paras[k].text];
          texts := texts + [paras[k].text];
        }
        assert paras[..|paras|] == paras;
      }
      assert scenes[..|scenes|] == scenes;
      NextTexts(chapters, c);
    }
    assert chapters[..|chapters|] == chapters;
  }

  /** The tag and content findings of every paragraph. */
  method CheckTexts(a: Agents, texts: seq<string>) returns (issues: seq<Issue>)
    ensures !ReportsMissing(issues)
    ensures HasError(issues) <==> exists k :: 0 <= k < |texts| && Severity.Error in a.textIssues(texts[k])
  {
    issues := [];
    for k := 0 to |texts|
      invariant !ReportsMissing(issues)
      invariant HasError(issues) <==> exists j :: 0 <= j < k && Severity.Error in a.textIssues(texts[j])
    {
      var found := a.textIssues(texts[k]);
      ghost var before := issues;
      for j := 0 to |found|
        invariant !ReportsMissing(issues)
        invariant HasError(issues) <==> HasError(before) || Severity.Error in found[..j]
      {
        ErrorStep(issues, Other(found[j]));
        assert found[..j+1] == found[..j] + [found[j]];
        issues := issues + [Other(found[j])];
      }
      assert found[..|found|] == found;
    }
  }

  lemma ErrorStep(issues: seq<Issue>, i: Issue)
    ensures HasError(issues + [i]) <==> HasError(issues) || i.MissingParagraphs? || i.severity.Error?
    ensures ReportsMissing(issues + [i]) <==> ReportsMissing(issues) || i.MissingParagraphs?
  {
    var more := issues + [i];
    assert more[|issues|] == i;
    assert forall k :: 0 <= k < |issues| ==> more[k] == issues[k];
  }

  lemma ErrorAppend(x: seq<Issue>, y: seq<Issue>)
    ensures HasError(x + y) <==> HasError(x) || HasError(y)
    ensures ReportsMissing(x + y) <==> ReportsMissing(x) || ReportsMissing(y)
  {
    var both := x + y;
    assert forall k :: 0 <= k < |x| ==> both[k] == x[k];
    assert forall k :: 0 <= k < |y| ==> both[|x| + k] == y[k];
    assert forall k :: |x| <= k < |both| ==> both[k] == y[k - |x|];
  }

  /** `QAValidator.run`: the issues, if it does not raise; the text passes when none is an error. */
  method RunQa(a: Agents, original: seq<Chapter>, chapters: seq<Chapter>) returns (r: Option<seq<Issue>>)
    ensures r.None? <==> chapters == [] || a.raises(Qa)
    ensures r.Some? ==> (ReportsMissing(r.value) <==> ParagraphCount(chapters) < ParagraphCount(original))
    ensures r.Some? && !ReportsMissing(r.value) ==> (HasError(r.value) <==> !NoErrorIn(a, Texts(chapters)))
  {
    hide ReportsMissing, HasError, ParagraphCount, Texts;
    if chapters == [] || a.raises(Qa) {
      return None;
    }
    var issues := CheckCompleteness(original, chapters);
    NoIssues();
    var names := seq(a.nameIssues(chapters), _ => Other(Warning));
    WarningsOnly(names);
    var texts := CollectTexts(chapters);
    var found := CheckTexts(a, texts);
    ErrorAppend(issues, names);
    ErrorAppend(issues + names, found);
    r := Some(issues + names + found);
  }

  lemma NoIssues()
    ensures !HasError([]) && !ReportsMissing([])
  {
  }

  lemma WarningsOnly(issues: seq<Issue>)
    requires forall k :: 0 <= k < |issues| ==> issues[k] == Other(Warning)
    ensures !HasError(issues) && !ReportsMissing(issues)
  {
  }

  // ---------- the chain ----------

  /** The chapters that reach the end, by which optional stages raised. */
  function Final(a: Agents, parsed: seq<Chapter>): seq<Chapter> {
    var attributed := if a.raises(Attribution) then parsed else AttributedAll(a, parsed);
    var normalized := NormalizedAll(a, attributed);
    if a.raises(Planner) then normalized else PlannedAll(a, normalized)
  }

  function Degraded(a: Agents): seq<Stage> {
    (if a.raises(Attribution) then [Attribution] else [])
    + (if a.raises(Planner) then [Planner] else [])
    + (if a.raises(Qa) then [Qa] else [])
  }

  /** The chain cannot do without this stage, and it failed. */
  predicate Required(a: Agents, text: string, s: Stage) {
    (s.Parser? && (a.raises(Parser) || Strip(text) == "")) || (s.Normalizer? && a.raises(Normalizer))
  }

  /** The first stage at which the chain gives up, in the order of the stages. */
  function FallsAt(a: Agents, text: string): Option<Stage> {
    if Required(a, text, Parser) || a.breaks(Parser) then Some(Parser)
    else if a.breaks(Attribution) then Some(Attribution)
    else if Required(a, text, Normalizer) || a.breaks(Normalizer) then Some(Normalizer)
    else if a.breaks(Planner) then Some(Planner)
    else if a.breaks(Qa) then Some(Qa)
    else None
  }

  /** The chain's text is used exactly when no required stage fails and nothing breaks. */
  lemma FallsIffSomethingFails(a: Agents, text: string)
    ensures FallsAt(a, text).None? <==> forall s :: !Required(a, text, s) && !a.breaks(s)
  {
    if FallsAt(a, text).None? {
      forall s ensures !Required(a, text, s) && !a.breaks(s) {
        match s
        case Parser =>
        case Attribution =>
        case Normalizer =>
        case Planner =>
        case Qa =>
      }
    }
  }

  function Rank(s: Stage): nat {
    match s
    case Parser => 0
    case Attribution => 1
    case Normalizer => 2
    case Planner => 3
    case Qa => 4
  }

  /** What the basic text is reported with: the optional stages that had raised by then, and the required
      stage that failed, unless reporting it broke. */
  function Surfaced(a: Agents, text: string, at: Stage): seq<Stage> {
    RaisedBy(a, at) + (if Required(a, text, at) && !a.breaks(at) then [at] else [])
  }

  function RaisedBy(a: Agents, at: Stage): seq<Stage> {
    (if a.raises(Attribution) && Rank(at) >= 1 then [Attribution] else [])
    + (if a.raises(Planner) && Rank(at) >= 3 then [Planner] else [])
    + (if a.raises(Qa) && Rank(at) >= 4 then [Qa] else [])
  }

  predicate Optional(s: Stage) {
    s.Attribution? || s.Planner? || s.Qa?
  }

  lemma FallsAtTheFirst(a: Agents, text: string)
    requires FallsAt(a, text).Some?
    ensures
      var at := FallsAt(a, text).value;
      && (Required(a, text, at) || a.breaks(at))
      && forall s :: Rank(s) < Rank(at) ==> !Required(a, text, s) && !a.breaks(s)
  {
    hide Strip;
  }

  /** A stage behind the others, if it is there. */
  lemma StageBehind(stages: seq<Stage>, s: Stage, there: bool)
    requires InStageOrder(stages) && forall t :: t in stages ==> Rank(t) < Rank(s)
    ensures InStageOrder(stages + if there then [s] else [])
    ensures forall t :: t in stages + (if there then [s] else []) <==> t in stages || (there && t == s)
  {
    forall i | 0 <= i < |stages| ensures Rank(stages[i]) < Rank(s) { assert stages[i] in stages; }
  }

  lemma RaisedStages(a: Agents, at: Stage)
    ensures forall s :: s in RaisedBy(a, at) <==> Optional(s) && a.raises(s) && Rank(s) <= Rank(at)
    ensures InStageOrder(RaisedBy(a, at))
  {
    hide InStageOrder;
    var one := if a.raises(Attribution) && Rank(at) >= 1 then [Attribution] else [];
    NoStages();
    StageBehind([], Attribution, a.raises(Attribution) && Rank(at) >= 1);
    assert [] + one == one;
    StageBehind(one, Planner, a.raises(Planner) && Rank(at) >= 3);
    StageBehind(one + (if a.raises(Planner) && Rank(at) >= 3 then [Planner] else []), Qa,
                a.raises(Qa) && Rank(at) >= 4);
  }

  lemma RanksDiffer(s: Stage, t: Stage)
    ensures Rank(s) == Rank(t) <==> s == t
  {
  }

  lemma SurfacedStages(a: Agents, text: string, at: Stage)
    requires Optional(at) ==> !Required(a, text, at)
    ensures forall s :: s in Surfaced(a, text, at) <==>
              || (Optional(s) && a.raises(s) && Rank(s) <= Rank(at))
              || (s == at && Required(a, text, at) && !a.breaks(at))
    ensures InStageOrder(Surfaced(a, text, at))
  {
    hide Required, InStageOrder, RaisedBy, Rank, Optional;
    RaisedStages(a, at);
    var raised, there := RaisedBy(a, at), Required(a, text, at) && !a.breaks(at);
    if there {
      forall t | t in raised ensures Rank(t) < Rank(at) { RanksDiffer(t, at); }
      StageBehind(raised, at, true);
    } else {
      assert raised + [] == raised;
    }
  }

  lemma NoStages()
    ensures InStageOrder([])
  {
  }

  lemma DegradedStages(a: Agents)
    ensures (forall s :: s in Degraded(a) <==> Optional(s) && a.raises(s)) && InStageOrder(Degraded(a))
  {
    hide InStageOrder;
    var one := if a.raises(Attribution) then [Attribution] else [];
    NoStages();
    StageBehind([], Attribution, a.raises(Attribution));
    assert [] + one == one;
    StageBehind(one, Planner, a.raises(Planner));
    StageBehind(one + (if a.raises(Planner) then [Planner] else []), Qa, a.raises(Qa));
  }

  lemma OptionalIsNotRequired(a: Agents, text: string, s: Stage)
    ensures Optional(s) ==> !Required(a, text, s)
  {
    hide Strip;
  }

  /** The chain falls at the first stage, in their order, that is required and failed or outside of which
      something broke; it reports, in that order, exactly the optional stages that had raised by then and the
      required one, unless reporting that broke.  A chain that does not fall reports all that raised. */
  lemma ReportsAreThoseStages(a: Agents, text: string)
    ensures
      match FallsAt(a, text)
      case Some(at) =>
        && (Required(a, text, at) || a.breaks(at))
        && (forall s :: Rank(s) < Rank(at) ==> !Required(a, text, s) && !a.breaks(s))
        && (forall s :: s in Surfaced(a, text, at) <==>
              || (Optional(s) && a.raises(s) && Rank(s) <= Rank(at))
              || (s == at && Required(a, text, at) && !a.breaks(at)))
        && InStageOrder(Surfaced(a, text, at))
      case None =>
        (forall s :: s in Degraded(a) <==> Optional(s) && a.raises(s)) && InStageOrder(Degraded(a))
  {
    hide FallsAt, Required, Surfaced, Degraded, InStageOrder, Rank;
    match FallsAt(a, text)
    case Some(at) =>
      FallsAtTheFirst(a, text);
      OptionalIsNotRequired(a, text, at);
      SurfacedStages(a, text, at);
    case None =>
      DegradedStages(a);
  }

  predicate InStageOrder(stages: seq<Stage>) {
    forall i, j :: 0 <= i < j < |stages| ==> Rank(stages[i]) < Rank(stages[j])
  }

  predicate NoErrorIn(a: Agents, texts: seq<string>) {
    forall k :: 0 <= k < |texts| ==> Severity.Error !in a.textIssues(texts[k])
  }

  /** The validator and the end of the chain. */
  method Validate(a: Agents, text: string, parsed: seq<Chapter>, chapters: seq<Chapter>,
      sofar: seq<Stage>) returns (r: Result)
    requires chapters != [] && ParagraphCount(chapters) == ParagraphCount(parsed)
    ensures a.breaks(Qa) ==> r == Basic(a.basic(text), sofar + if a.raises(Qa) then [Qa] else [])
    ensures !a.breaks(Qa) ==>
              && r.Chained? && r.chapters == chapters && r.text == Join(Texts(chapters), "\n\n")
              && r.degraded == sofar + (if a.raises(Qa) then [Qa] else []) && (r.completed <==> r.degraded == [])
              && !ReportsMissing(r.issues) && (r.qaPassed <==> !a.raises(Qa) && NoErrorIn(a, Texts(chapters)))
  {
    hide Strip, Join, Texts, ParagraphCount, ReportsMissing, HasError, NoErrorIn;
    var degraded := sofar;
    var qa := RunQa(a, parsed, chapters);
    var passed, issues := false, [Other(Severity.Error)];
    if qa.None? {
      degraded := degraded + [Qa];
      OneOther();
    } else {
      issues := qa.value;
      ErrorsAreFound(issues);
      passed := !exists k :: 0 <= k < |issues| && (issues[k].MissingParagraphs? || issues[k].severity.Error?);
    }
    var texts := CollectTexts(chapters);
    if a.breaks(Qa) {
      return Basic(a.basic(text), degraded);
    }
    r := Chained(Join(texts, "\n\n"), chapters, degraded, degraded == [], passed, issues);
  }

  /** After the parser, stage by stage. */
  lemma WaysOut(a: Agents, text: string)
    requires !Required(a, text, Parser) && !a.breaks(Parser)
    ensures
      var one := if a.raises(Attribution) then [Attribution] else [];
      var two := one + if a.raises(Planner) then [Planner] else [];
      var three := two + if a.raises(Qa) then [Qa] else [];
      if a.breaks(Attribution) then FallsAt(a, text) == Some(Attribution) && Surfaced(a, text, Attribution) == one
      else if a.raises(Normalizer) || a.breaks(Normalizer) then
        FallsAt(a, text) == Some(Normalizer)
        && Surfaced(a, text, Normalizer) == one + if a.breaks(Normalizer) then [] else [Normalizer]
      else if a.breaks(Planner) then FallsAt(a, text) == Some(Planner) && Surfaced(a, text, Planner) == two
      else if a.breaks(Qa) then FallsAt(a, text) == Some(Qa) && Surfaced(a, text, Qa) == three
      else FallsAt(a, text).None? && Degraded(a) == three
  {
    hide Strip;
  }

  /** The chain after the parser. */
  method ContinueChapter(a: Agents, text: string, parsed: seq<Chapter>) returns (r: Result)
    requires parsed != [] && !Required(a, text, Parser) && !a.breaks(Parser)
    ensures r.Basic? <==> FallsAt(a, text).Some?
    ensures r.Basic? ==> r.text == a.basic(text) && r.degraded == Surfaced(a, text, FallsAt(a, text).value)
    ensures r.Chained? ==> r.chapters == Final(a, parsed) && r.text == Join(Texts(r.chapters), "\n\n")
    ensures r.Chained? ==> r.degraded == Degraded(a) && (r.completed <==> Degraded(a) == [])
    ensures r.Chained? ==>
              !ReportsMissing(r.issues) && (r.qaPassed <==> !a.raises(Qa) && NoErrorIn(a, Texts(r.chapters)))
  {
    hide Strip, Join, Texts, SameShape, ParagraphCount, ReportsMissing, AttributedAll, NormalizedAll, PlannedAll,
        NoErrorIn, Required, Surfaced, Degraded, FallsAt;
    FinalKeepsShape(a, parsed);
    WaysOut(a, text);
    var degraded: seq<Stage>, chapters := [], parsed;
    var attributed := RunAttribution(a, parsed);
    if attributed.None? {
      degraded := degraded + [Attribution];
    } else {
      chapters := attributed.value;
    }
    if a.breaks(Attribution) {
      return Basic(a.basic(text), degraded);
    }
    var normalized := RunNormalizer(a, chapters);
    if normalized.None? {
      return Basic(a.basic(text), if a.breaks(Normalizer) then degraded else degraded + [Normalizer]);
    }
    if a.breaks(Normalizer) {
      return Basic(a.basic(text), degraded);
    }
    chapters := normalized.value;
    var planned := RunPlanner(a, chapters);
    if planned.None? {
      degraded := degraded + [Planner];
    } else {
      chapters := planned.value;
    }
    if a.breaks(Planner) {
      return Basic(a.basic(text), degraded);
    }
    r := Validate(a, text, parsed, chapters, degraded);
  }

  /** `preprocess_chapter_pipeline`, for every pattern of failures: a failed required stage, or anything
      that raises outside the stages, gives the basic text; a failed optional stage is recorded, and what
      it would have changed passes on unchanged. */
  method PreprocessChapter(a: Agents, p: Structure.Patterns, text: string) returns (r: Result)
    ensures r.Basic? <==> FallsAt(a, text).Some?
    ensures r.Basic? ==> r.text == a.basic(text) && r.degraded == Surfaced(a, text, FallsAt(a, text).value)
    ensures r.Chained? ==>
              && Structure.Parsed(p, text).Some?
              && var parsed := FromStructure(Structure.Parsed(p, text).value.chapters);
                 && r.chapters == Final(a, parsed) && SameShape(parsed, r.chapters)
                 && ChaptersAre(a, Structure.Parsed(p, text).value.chapters, r.chapters)
                 && ParagraphCount(r.chapters) == ParagraphCount(parsed)
                 && r.text == Join(Texts(r.chapters), "\n\n")
    ensures r.Chained? ==> r.degraded == Degraded(a) && (r.completed <==> Degraded(a) == [])
    ensures r.Chained? ==>
              !ReportsMissing(r.issues) && (r.qaPassed <==> !a.raises(Qa) && NoErrorIn(a, Texts(r.chapters)))
  {
    hide Strip, Join, Texts, SameShape, ParagraphCount, ReportsMissing, Structure.Parsed, FromStructure, Final,
        Degraded, NoErrorIn, ChaptersAre;
    var structure := Structure.Run(p, text);
    ParsedHasChapters(p, text);
    if a.raises(Parser) || structure.None? {
      return Basic(a.basic(text), if a.breaks(Parser) then [] else [Parser]);
    }
    if a.breaks(Parser) {
      return Basic(a.basic(text), []);
    }
    var parsed := FromStructure(structure.value.chapters);
    FinalKeepsShape(a, parsed);
    FinalIsRight(a, structure.value.chapters);
    r := ContinueChapter(a, text, parsed);
  }

  lemma OneOther()
    ensures !ReportsMissing([Other(Severity.Error)])
  {
  }

  lemma ErrorsAreFound(issues: seq<Issue>)
    ensures HasError(issues)
            <==> exists k :: 0 <= k < |issues| && (issues[k].MissingParagraphs? || issues[k].severity.Error?)
  {
  }

  lemma ParsedHasChapters(p: Structure.Patterns, text: string)
    ensures Structure.Parsed(p, text).None? <==> Strip(text) == ""
    ensures Structure.Parsed(p, text).Some? ==> Structure.Parsed(p, text).value.chapters != []
    ensures Structure.Parsed(p, text).Some? ==> FromStructure(Structure.Parsed(p, text).value.chapters) != []
  {
    hide Strip, Join, Structure.ScenesOf, Structure.LineParagraphs, Structure.NextHeading, SplitOn, ChapterFromParser;
  }

  lemma FinalKeepsShape(a: Agents, parsed: seq<Chapter>)
    ensures SameShape(parsed, Final(a, parsed)) && ParagraphCount(Final(a, parsed)) == ParagraphCount(parsed)
    ensures parsed != [] ==> AttributedAll(a, parsed) != [] && NormalizedAll(a, AttributedAll(a, parsed)) != []
    ensures parsed != [] ==> NormalizedAll(a, parsed) != [] && Final(a, parsed) != []
  {
    hide SameShape, ParagraphCount, AttributedChapter, NormalizedChapter, PlannedChapter;
    var attributed := if a.raises(Attribution) then parsed else AttributedAll(a, parsed);
    var normalized := NormalizedAll(a, attributed);
    ShapeSelf(parsed);
    AttributionKeepsShape(a, parsed);
    NormalizingKeepsShape(a, attributed);
    SameShapeTransitive(parsed, attributed, normalized);
    PlanningKeepsShape(a, normalized);
    SameShapeTransitive(parsed, normalized, PlannedAll(a, normalized));
    SameShapeCount(parsed, Final(a, parsed));
  }

  lemma ShapeSelf(a: seq<Chapter>)
    ensures SameShape(a, a)
  {
    hide Bare;
  }

  // ---------- what is spoken ----------

  predicate SameParaTexts(a: seq<Para>, b: seq<Para>) {
    |a| == |b| && forall k :: 0 <= k < |a| ==> a[k].text == b[k].text
  }

  predicate SameSceneTexts(a: seq<Scene>, b: seq<Scene>) {
    |a| == |b| && forall s :: 0 <= s < |a| ==> SameParaTexts(a[s].paras, b[s].paras)
  }

  predicate SameTexts(a: seq<Chapter>, b: seq<Chapter>) {
    |a| == |b| && forall c :: 0 <= c < |a| ==> SameSceneTexts(a[c].scenes, b[c].scenes)
  }

  lemma {:induction false} SceneTextsEqual(a: seq<Scene>, b: seq<Scene>)
    requires SameSceneTexts(a, b)
    ensures SceneTexts(a) == SceneTexts(b)
  {
    if a != [] {
      var n := |a| - 1;
      assert SameParaTexts(a[n].paras, b[n].paras);
      SceneTextsEqual(a[..n], b[..n]);
    }
  }

  lemma {:induction false} TextsEqual(a: seq<Chapter>, b: seq<Chapter>)
    requires SameTexts(a, b)
    ensures Texts(a) == Texts(b)
  {
    hide SameParaTexts;
    if a != [] {
      var n := |a| - 1;
      SceneTextsEqual(a[n].scenes, b[n].scenes);
      TextsEqual(a[..n], b[..n]);
    }
  }

  lemma {:induction false} SceneTextsAppend(x: seq<Scene>, y: seq<Scene>)
    ensures SceneTexts(x + y) == SceneTexts(x) + SceneTexts(y)
  {
    hide ParasTexts;
    if y == [] {
      assert x + y == x;
    } else {
      var all := x + y;
      assert all[..|all|-1] == x + y[..|y|-1];
      assert all[|all|-1] == y[|y|-1];
      SceneTextsAppend(x, y[..|y|-1]);
      var last := ParasTexts(y[|y|-1].paras);
      assert SceneTexts(y) == SceneTexts(y[..|y|-1]) + last;
      assert SceneTexts(all) == (SceneTexts(x) + SceneTexts(y[..|y|-1])) + last;
    }
  }

  lemma {:induction false} TextsAppend(x: seq<Chapter>, y: seq<Chapter>)
    ensures Texts(x + y) == Texts(x) + Texts(y)
  {
    hide SceneTexts;
    if y == [] {
      assert x + y == x;
    } else {
      var all := x + y;
      assert all[..|all|-1] == x + y[..|y|-1] && all[|all|-1] == y[|y|-1];
      TextsAppend(x, y[..|y|-1]);
    }
  }

  /** The words of the paragraphs of all chapters: no titles. */
  function BodyWords(cs: seq<Structure.Chapter>): seq<string> {
    if cs == [] then [] else Structure.SceneWords(cs[0].scenes) + BodyWords(cs[1..])
  }

  function ParaTexts(ps: seq<Structure.Paragraph>): seq<string> {
    seq(|ps|, k requires 0 <= k < |ps| => ps[k].text)
  }

  lemma {:induction false} ParagraphWordsAre(ps: seq<Structure.Paragraph>)
    ensures AllWords(ParaTexts(ps)) == Structure.ParagraphWords(ps)
  {
    hide Words, IsSpace;
    if ps == [] {
      AllWordsOne("");
    } else {
      ParagraphWordsAre(ps[1..]);
      assert ParaTexts(ps) == [ps[0].text] + ParaTexts(ps[1..]);
      assert ParaTexts(ps)[1..] == ParaTexts(ps[1..]);
    }
  }

  lemma {:induction false} SceneWordsAre(scenes: seq<Structure.Scene>)
    ensures AllWords(SceneTexts(ScenesFromParser(scenes))) == Structure.SceneWords(scenes)
  {
    hide AllWords, Words;
    if scenes == [] {
      AllWordsOne("");
    } else {
      var first, rest := scenes[0], scenes[1..];
      var one := [SceneFromParser(first)];
      assert ScenesFromParser(scenes) == one + ScenesFromParser(rest);
      SceneTextsAppend(one, ScenesFromParser(rest));
      assert SceneTexts(one) == ParaTexts(first.paragraphs) by {
        assert one[..0] == [];
        assert SceneTexts([]) + ParaTexts(first.paragraphs) == ParaTexts(first.paragraphs);
        assert one[0].paras == SceneFromParser(first).paras;
        assert ParasTexts(one[0].paras) == ParaTexts(first.paragraphs);
      }
      ParagraphWordsAre(first.paragraphs);
      AllWordsAppend(ParaTexts(first.paragraphs), SceneTexts(ScenesFromParser(rest)));
      SceneWordsAre(rest);
    }
  }

  lemma {:induction false} BodyWordsAre(cs: seq<Structure.Chapter>)
    ensures AllWords(Texts(FromStructure(cs))) == BodyWords(cs)
  {
    hide AllWords, SceneTexts, SceneFromParser;
    if cs == [] {
      AllWordsOne("");
    } else {
      var one := [ChapterFromParser(cs[0])];
      assert FromStructure(cs) == one + FromStructure(cs[1..]);
      TextsAppend(one, FromStructure(cs[1..]));
      assert one[..0] == [];
      assert one[0].scenes == ScenesFromParser(cs[0].scenes);
      assert Texts(one) == SceneTexts(ScenesFromParser(cs[0].scenes));
      SceneWordsAre(cs[0].scenes);
      AllWordsAppend(SceneTexts(ScenesFromParser(cs[0].scenes)), Texts(FromStructure(cs[1..])));
      BodyWordsAre(cs[1..]);
    }
  }

  /** `_apply_rule_based_tags` only puts tags in front. */
  lemma RuleTagsKeepText(a: Agents, p: Para)
    ensures |RuleTagged(a, p)| >= |p.text|
    ensures RuleTagged(a, p)[|RuleTagged(a, p)| - |p.text|..] == p.text
    ensures "[SPEAKER:" <= RuleTagged(a, p)
  {
  }

  /** Without any answer from the model every paragraph is still spoken in full: after the tags comes its
      normalized text. */
  lemma SilentModelKeepsTexts(a: Agents, parsed: seq<Chapter>, c: nat, s: nat, k: nat)
    requires forall x, y, z :: a.reply(x, y, z).Silent?
    requires c < |parsed| && s < |parsed[c].scenes| && k < |parsed[c].scenes[s].paras|
    ensures c < |Final(a, parsed)| && s < |Final(a, parsed)[c].scenes| && k < |Final(a, parsed)[c].scenes[s].paras|
    ensures
      var spoken, want := Final(a, parsed)[c].scenes[s].paras[k].text, a.normalize(parsed[c].scenes[s].paras[k].text);
      |want| <= |spoken| && spoken[|spoken| - |want|..] == want
  {
    hide Speaker, RuleTagged, Strip;
    var p := parsed[c].scenes[s].paras[k];
    var attributed := if a.raises(Attribution) then p else Attributed(a, c, s, p);
    RuleTagsKeepText(a, Normalized(a, attributed));
    assert a.reply(c, s, k / 10).Silent?;
  }

  /** With the planner down and a normalizer that finds nothing to expand, the chain speaks exactly the
      paragraphs: all of them, in order, and neither titles nor front matter. */
  lemma PlainChainSpeaksTheBody(a: Agents, cs: seq<Structure.Chapter>)
    requires a.raises(Planner) && forall t :: a.normalize(t) == t
    ensures Words(Join(Texts(Final(a, FromStructure(cs))), "\n\n")) == BodyWords(cs)
  {
    hide Words, Join, Texts, BodyWords, IsSpace, FromStructure, Speaker;
    var parsed := FromStructure(cs);
    TextsEqual(Final(a, parsed), parsed);
    BlankLine();
    WordsOfJoin(Texts(parsed), "\n\n");
    BodyWordsAre(cs);
  }

  lemma BlankLine()
    ensures Blank("\n\n")
  {
  }

  lemma {:induction false} BodyIsShorter(cs: seq<Structure.Chapter>)
    ensures |BodyWords(cs)| <= |Structure.ChapterWords(cs)|
    ensures cs != [] && Words(cs[0].title) != [] ==> |BodyWords(cs)| < |Structure.ChapterWords(cs)|
  {
    hide Structure.SceneWords, Words;
    if cs != [] {
      BodyIsShorter(cs[1..]);
    }
  }

  /** So a text is spoken in full exactly when it has no heading; otherwise at least the heading is left
      unspoken. */
  lemma SpokenInFullIffNoHeading(a: Agents, p: Structure.Patterns, text: string)
    requires a.raises(Planner) && forall t :: a.normalize(t) == t
    requires Strip(text) != ""
    ensures
      var lines, cs := SplitOn(text, '\n'), Structure.Parsed(p, text).value.chapters;
      var spoken := Words(Join(Texts(Final(a, FromStructure(cs))), "\n\n"));
      && (spoken == Words(text) <==> Structure.NextHeading(p, lines) == |lines|)
      && |spoken| <= |Words(text)|
  {
    hide Words, Join, Texts, IsSpace, FromStructure, Final, BodyWords, SplitOn, Strip, Structure.Parsed,
      Structure.NextHeading;
    ParsedHasChapters(p, text);
    if Structure.NextHeading(p, SplitOn(text, '\n')) < |SplitOn(text, '\n')| {
      HeadingsAreNotSpoken(a, p, text);
    } else {
      Structure.NoHeadingKeepsTextTwice(p, text);
      var cs := Structure.Parsed(p, text).value.chapters;
      OneBody(cs);
      PlainChainSpeaksTheBody(a, cs);
    }
  }

  lemma TwoLines(a: string, b: string)
    requires '\n' !in a && '\n' !in b
    ensures SplitOn(a + ['\n'] + b, '\n') == [a, b]
  {
    hide IndexOf;
    IndexOfFirst(a, '\n', b);
    IndexOfFirst(b, '\n', "");
    var s := a + ['\n'] + b;
    assert s[..|a|] == a && s[|a|+1..] == b;
    assert SplitOn(b, '\n') == [b];
  }

  lemma StrippedAlready(s: string)
    requires s != "" && !IsSpace(s[0]) && !IsSpace(s[|s|-1])
    ensures Strip(s) == s
  {
    hide IsSpace;
  }

  lemma OneParagraph(p: Structure.Patterns, line: string)
    requires Strip(line) == line && line != "" && !p.sceneBreak(line)
    ensures Structure.SceneWords(Structure.ScenesOf(p, [line], 0)) == Words(line)
  {
    hide Strip, Words;
    assert [line][1..] == [] && [line][..1] == [line];
    var n := Structure.NextBreak(p, [line]);
    assert n == 1 && [line][..n] == [line];
    var m := Structure.NextBlank([line]);
    assert m == 1 && [line][..m] == [line] && [line][m..] == [];
    var paragraph := Structure.MakeParagraph(p, 0, line);
    assert Join([line], "\n") == line;
    assert Structure.ParagraphsOf(p, [], 1) == [];
    assert Structure.ParagraphsOf(p, [line], 0) == [paragraph];
    assert [paragraph][1..] == [];
    assert Structure.ParagraphWords([]) == [] && Structure.ParagraphWords([paragraph]) == Words(line);
    var scene := Structure.Scene(0, [paragraph]);
    assert Structure.ScenesOf(p, [line], 0) == [scene] && [scene][1..] == [];
    assert Structure.SceneWords([]) == [];
  }

  /** A text with a heading, of which the line below it alone is spoken. */
  lemma ChapterHeadingIsNotSpoken(a: Agents, p: Structure.Patterns)
    requires a.raises(Planner) && forall t :: a.normalize(t) == t
    requires p.heading("Chapter 1") && !p.heading("Hi.") && !p.sceneBreak("Hi.")
    ensures
      var text := "Chapter 1\nHi.";
      && Structure.Parsed(p, text).Some?
      && var spoken := Words(Join(Texts(Final(a, FromStructure(Structure.Parsed(p, text).value.chapters))), "\n\n"));
         && spoken == Words("Hi.") && spoken != Words(text)
  {
    hide Words, Join, Texts, Final, FromStructure, Strip, SplitOn, Structure.ScenesOf, IsSpace, Structure.SceneWords;
    var text, lines := "Chapter 1" + ['\n'] + "Hi.", ["Chapter 1", "Hi."];
    assert text == "Chapter 1\nHi.";
    TwoLines("Chapter 1", "Hi.");
    StripsHere();
    assert lines[1..] == ["Hi."] && lines[0..] == lines && ["Hi."][1..] == [];
    assert Structure.NextHeading(p, ["Hi."]) == 1;
    assert Structure.NextHeading(p, lines) == 0;
    assert lines[1..2] == ["Hi."] && lines[2..] == [];
    var cs := Structure.ChaptersOf(p, lines, 1);
    assert Structure.ChaptersOf(p, [], 2) == [];
    assert cs == [Structure.Chapter(1, "Chapter 1", Structure.ScenesOf(p, ["Hi."], 0))];
    OneBody(cs);
    OneParagraph(p, "Hi.");
    PlainChainSpeaksTheBody(a, cs);
    HeadingsAreNotSpoken(a, p, text);
  }

  lemma StripsHere()
    ensures Strip("Chapter 1") == "Chapter 1" && Strip("Hi.") == "Hi." && Strip("Chapter 1" + ['\n'] + "Hi.") != ""
  {
    StrippedAlready("Chapter 1");
    StrippedAlready("Hi.");
    StrippedAlready("Chapter 1" + ['\n'] + "Hi.");
  }

  lemma OneBody(cs: seq<Structure.Chapter>)
    requires |cs| == 1
    ensures BodyWords(cs) == Structure.SceneWords(cs[0].scenes)
  {
    assert cs[1..] == [];
  }

  /** In a text with a heading something is always left unspoken: at least the heading. */
  lemma HeadingsAreNotSpoken(a: Agents, p: Structure.Patterns, text: string)
    requires a.raises(Planner) && forall t :: a.normalize(t) == t
    requires Strip(text) != "" && Structure.NextHeading(p, SplitOn(text, '\n')) < |SplitOn(text, '\n')|
    ensures
      var cs := Structure.Parsed(p, text).value.chapters;
      |Words(Join(Texts(Final(a, FromStructure(cs))), "\n\n"))| < |Words(text)|
  {
    hide Words, Join, Texts, IsSpace, FromStructure, Final, BodyWords, Structure.ChapterWords,
      Structure.KeptWords, Structure.ScenesOf, Strip;
    var lines := SplitOn(text, '\n');
    var n := Structure.NextHeading(p, lines);
    var cs := Structure.ChaptersOf(p, lines[n..], 1);
    PlainChainSpeaksTheBody(a, cs);
    Structure.ParsingKeepsText(p, text);
    BodyIsShorter(cs);
    KeptIsShorter(p, lines[n..]);
    TitleIsNotBlank(lines[n]);
  }

  lemma TitleIsNotBlank(line: string)
    ensures Strip(line) != "" ==> Words(Strip(line)) != []
  {
    hide Words, Strip, IsSpace;
    WordsOfStrip(line);
    WordlessWhenStrippedAway(line);
  }

  lemma {:induction false} KeptIsShorter(p: Structure.Patterns, lines: seq<string>)
    ensures |Structure.KeptWords(p, lines)| <= |AllWords(lines)|
  {
    hide Words, Structure.IsBreak, Structure.IsHeading;
    if lines != [] {
      KeptIsShorter(p, lines[1..]);
    }
  }
}
