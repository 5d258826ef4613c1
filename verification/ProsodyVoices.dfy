/** In whose voice each character is spoken (backend/pipeline/prosody_parser.py:92-145), read off the tags before it
    without running the parser: the last speaker tag, and what came since. */
module ProsodyVoices {
  import opened Wrappers
  import opened Text
  import opened SsmlTokens
  import opened ProsodyParser

  // ---------- the tags, by name and value ----------

  predicate IsSpeaker(x: Lex) {
    x.Mark? && x.name == "SPEAKER" && x.value.Some?
  }

  predicate IsRate(x: Lex) {
    x.Mark? && x.name == "rate" && x.value.Some?
  }

  predicate IsEmotion(x: Lex) {
    x.Mark? && x.name in {"angry", "sad", "whisper", "soft", "breathy", "excited", "embarrassed", "laughing", "sobbing",
                          "sighing"}
  }

  predicate IsSilence(x: Lex) {
    x.Mark? && (x.name == "pause" || x.name == "scene_break") && x.value.Some?
  }

  predicate IsEmphasis(x: Lex) {
    x.Mark? && x.name == "emphasis"
  }

  // ---------- looking back from position i ----------

  /** The value of the last speaker tag before i, or the speaker at the start. */
  function SpeakerAt(lexes: seq<Lex>, i: nat, start: string): string
    requires i <= |lexes|
  {
    if i == 0 then start
    else if IsSpeaker(lexes[i-1]) then lexes[i-1].value.value
    else SpeakerAt(lexes, i - 1, start)
  }

  /** The last emotion tag before i and after the last speaker tag. */
  function EmotionAt(lexes: seq<Lex>, i: nat): Option<string>
    requires i <= |lexes|
  {
    if i == 0 || IsSpeaker(lexes[i-1]) then None
    else if IsEmotion(lexes[i-1]) then Some(lexes[i-1].name)
    else EmotionAt(lexes, i - 1)
  }

  /** The speed of the last rate tag before i and after the last speaker tag. */
  function RateAt(p: Numbers, lexes: seq<Lex>, i: nat): real
    requires i <= |lexes|
  {
    if i == 0 || IsSpeaker(lexes[i-1]) then 1.0
    else if IsRate(lexes[i-1]) then Speed(p, lexes[i-1].value.value)
    else RateAt(p, lexes, i - 1)
  }

  function Speed(p: Numbers, value: string): real {
    if value == "slow" then 0.8 else if value == "fast" then 1.2
    else if p.parseFloat(value).Some? then p.parseFloat(value).value else 1.0
  }

  /** The emotion and rate tags since the last speaker tag, in order. */
  function TagsAt(lexes: seq<Lex>, i: nat): seq<string>
    requires i <= |lexes|
  {
    if i == 0 || IsSpeaker(lexes[i-1]) then []
    else TagsAt(lexes, i - 1)
         + (if IsEmotion(lexes[i-1]) then [lexes[i-1].name]
            else if IsRate(lexes[i-1]) then ["rate:" + lexes[i-1].value.value] else [])
  }

  function VoiceAt(p: Numbers, lexes: seq<Lex>, i: nat, start: string): Voice
    requires i <= |lexes|
  {
    Voice(SpeakerAt(lexes, i, start), EmotionAt(lexes, i), RateAt(p, lexes, i))
  }

  /** What is spoken of a piece: its text, or a tag that means nothing. */
  function SpokenText(x: Lex): string {
    if x.Chunk? then x.text
    else if IsSpeaker(x) || IsRate(x) || IsEmotion(x) || IsSilence(x) || IsEmphasis(x) then ""
    else "[" + x.name + (if x.value.Some? then ":" + x.value.value else "") + "]"
  }

  /** Every spoken character from position i on, in the voice its tags ask for. */
  function Promised(p: Numbers, lexes: seq<Lex>, i: nat, start: string): seq<Labelled>
    requires i <= |lexes|
    decreases |lexes| - i
  {
    if i == |lexes| then []
    else Labels(SpokenText(lexes[i]), VoiceAt(p, lexes, i, start)) + Promised(p, lexes, i + 1, start)
  }

  // ---------- the parser's state is what looking back finds ----------

  /** The parser's state has the voice and the tags of position i. */
  predicate Matches(p: Numbers, lexes: seq<Lex>, i: nat, start: string, st: State)
    requires i <= |lexes|
  {
    LabelOf(st) == VoiceAt(p, lexes, i, start) && st.tags == TagsAt(lexes, i)
  }

  lemma EffectsByName(x: Lex)
    requires x.Mark?
    ensures EffectOf(x) == SetSpeaker <==> IsSpeaker(x)
    ensures EffectOf(x) == SetRate <==> IsRate(x)
    ensures EffectOf(x) == SetEmotion <==> IsEmotion(x)
    ensures EffectOf(x) == DoPause || EffectOf(x) == DoSceneBreak <==> IsSilence(x)
    ensures EffectOf(x) == SetEmphasis <==> IsEmphasis(x)
    ensures EffectOf(x) == Unknown ==> Source(x) == SpokenText(x)
    ensures EffectOf(x) != Unknown ==> SpokenText(x) == ""
  {
  }

  lemma StepMatches(p: Numbers, lexes: seq<Lex>, i: nat, start: string, st: State)
    requires i < |lexes| && Matches(p, lexes, i, start, st)
    ensures
      var x := lexes[i];
      Matches(p, lexes, i + 1, start, if x.Chunk? || EffectOf(x) == Unknown then st else After(p, x, st))
  {
    hide EffectOf;
    if lexes[i].Mark? {
      EffectsByName(lexes[i]);
    }
  }

  lemma {:induction false} AskedIsPromised(p: Numbers, lexes: seq<Lex>, i: nat, start: string, st: State)
    requires i <= |lexes| && Matches(p, lexes, i, start, st)
    ensures Asked(p, lexes[i..], st) == Promised(p, lexes, i, start)
    decreases |lexes| - i
  {
    hide Labels, EffectOf, After, Source, SpokenText, Matches;
    if i < |lexes| {
      var x := lexes[i];
      assert lexes[i..][0] == x && lexes[i..][1..] == lexes[i+1..];
      MatchesLabel(p, lexes, i, start, st);
      StepMatches(p, lexes, i, start, st);
      if x.Chunk? {
        ChunkSpeaks(x);
        AskedIsPromised(p, lexes, i + 1, start, st);
      } else {
        EffectsByName(x);
        NoLabels(VoiceAt(p, lexes, i, start));
        AskedIsPromised(p, lexes, i + 1, start, if EffectOf(x) == Unknown then st else After(p, x, st));
      }
    }
  }

  lemma MatchesLabel(p: Numbers, lexes: seq<Lex>, i: nat, start: string, st: State)
    requires i <= |lexes| && Matches(p, lexes, i, start, st)
    ensures LabelOf(st) == VoiceAt(p, lexes, i, start) && st.tags == TagsAt(lexes, i)
  {
  }

  lemma ChunkSpeaks(x: Lex)
    requires x.Chunk?
    ensures SpokenText(x) == x.text
  {
  }

  lemma StartMatches(p: Numbers, lexes: seq<Lex>, start: string)
    ensures Matches(p, lexes, 0, start, Start(start))
  {
  }

  /** Every character is spoken in the voice that the tags before it ask for, exactly on the texts whose flushed
      stretches hold no hint: the last speaker, the last emotion and the last rate since that speaker. */
  lemma SpokenInTheRightVoice(p: Numbers, text: string, speaker: string)
    ensures
      var lexes := Lexes(Unpron(text));
      Output(Parsed(p, text, speaker)) == Promised(p, lexes, 0, speaker) <==> HintFree(Runs(lexes, ""))
  {
    hide Lexes, Unpron, Output, Parsed, Asked, Promised, Matches, HintFree, Runs, Settled, Controls, AskedControls;
    var lexes := Lexes(Unpron(text));
    ParsingKeepsTextAndLabels(p, text, speaker);
    StartMatches(p, lexes, speaker);
    AskedIsPromised(p, lexes, 0, speaker, Start(speaker));
    assert lexes[0..] == lexes;
  }

  // ---------- pauses and speaker changes ----------

  /** The control segment that a tag stands for. */
  function ControlFor(p: Numbers, x: Lex): seq<Segment> {
    if IsSpeaker(x) then [SpeakerChange(x.value.value)]
    else if IsSilence(x) then
      var n := p.parseInt(x.value.value);
      if x.name == "pause" then (if n.Some? then [PauseFor(Within(n.value, 0, 10000))] else [])
      else [SceneBreak(if n.Some? then Within(n.value, 0, 10000) else 3000)]
    else []
  }

  function Within(n: int, low: int, high: int): (m: int)
    requires low <= high
    ensures low <= m <= high && (low <= n <= high ==> m == n) && (n < low ==> m == low) && (n > high ==> m == high)
  {
    if n < low then low else if n > high then high else n
  }

  function ControlsFor(p: Numbers, lexes: seq<Lex>): seq<Segment> {
    if lexes == [] then [] else ControlFor(p, lexes[0]) + ControlsFor(p, lexes[1..])
  }

  lemma {:induction false} ControlsAreAsked(p: Numbers, lexes: seq<Lex>)
    ensures AskedControls(p, lexes) == ControlsFor(p, lexes)
  {
    if lexes != [] {
      ControlsAreAsked(p, lexes[1..]);
    }
  }

  /** The control segments are those of the tags, in order: every speaker tag, every scene break, three seconds
      long when its length is no number, and every pause whose length is one. */
  lemma ControlsAreThoseOfTheTags(p: Numbers, text: string, speaker: string)
    ensures Controls(Parsed(p, text, speaker)) == ControlsFor(p, Lexes(Unpron(text)))
  {
    hide Lexes, Unpron, Output, Parsed, Asked, HintFree, Runs, Settled, Controls, AskedControls, ControlsFor;
    ParsingKeepsTextAndLabels(p, text, speaker);
    ControlsAreAsked(p, Lexes(Unpron(text)));
  }

  // ---------- the tags of a segment ----------

  function Spread(n: nat, tags: seq<string>): seq<seq<string>> {
    seq(n, _ => tags)
  }

  /** The tags that go with each non-space character. */
  function TagsOut(segs: seq<Segment>): seq<seq<string>> {
    if segs == [] then []
    else (if segs[0].Spoken? then Spread(|NonSpace(segs[0].content)|, segs[0].tags) else []) + TagsOut(segs[1..])
  }

  function PromisedTags(lexes: seq<Lex>, i: nat): seq<seq<string>>
    requires i <= |lexes|
    decreases |lexes| - i
  {
    if i == |lexes| then []
    else Spread(|NonSpace(SpokenText(lexes[i]))|, TagsAt(lexes, i)) + PromisedTags(lexes, i + 1)
  }

  lemma {:induction false} TagsConcat(a: seq<Segment>, b: seq<Segment>)
    ensures TagsOut(a + b) == TagsOut(a) + TagsOut(b)
  {
    hide Spread, NonSpace;
    if a == [] {
      assert a + b == b;
    } else {
      assert (a + b)[1..] == a[1..] + b;
      TagsConcat(a[1..], b);
    }
  }

  lemma TagsOne(seg: Segment)
    ensures TagsOut([seg]) == if seg.Spoken? then Spread(|NonSpace(seg.content)|, seg.tags) else []
  {
    hide NonSpace, Spread;
    assert [seg][1..] == [];
  }

  lemma NoTags()
    ensures TagsOut([]) == []
  {
  }

  lemma SpreadJoins(a: nat, b: nat, tags: seq<string>)
    ensures Spread(a + b, tags) == Spread(a, tags) + Spread(b, tags) && |Spread(a, tags)| == a && Spread(0, tags) == []
  {
  }

  lemma FlushTags(buffer: string, st: State)
    requires !HasHint(Strip(buffer))
    ensures TagsOut(Flush(buffer, st)) == Spread(|NonSpace(buffer)|, st.tags)
  {
    hide Unpron, Strip, HasHint, NonSpace, TagsOut, Spread;
    UnpronShrinks(Strip(buffer));
    NonSpaceOfStrip(buffer);
    SpreadJoins(0, 0, st.tags);
    if Strip(buffer) == "" {
      NonSpaceOfBlank(buffer);
      NoTags();
    } else {
      TagsOne(Flush(buffer, st)[0]);
    }
  }

  lemma ControlTags(p: Numbers, m: Lex)
    requires m.Mark?
    ensures TagsOut(Control(p, m)) == []
  {
    hide EffectOf, Clamp, NonSpace, Spread;
    if Control(p, m) != [] {
      assert Control(p, m)[1..] == [];
    }
  }

  lemma {:induction false} SegmentsTags(p: Numbers, lexes: seq<Lex>, i: nat, buffer: string, start: string, st: State)
    requires i <= |lexes| && Matches(p, lexes, i, start, st) && HintFree(Runs(lexes[i..], buffer))
    ensures TagsOut(Segments(p, lexes[i..], buffer, st)) == Spread(|NonSpace(buffer)|, st.tags) + PromisedTags(lexes, i)
    decreases |lexes| - i
  {
    hide Flush, Source, EffectOf, After, Control, Strip, HintFree, HasHint, NonSpace, TagsOut, Spread, Matches,
      SpokenText;
    if i == |lexes| {
      OneRun(buffer);
      FlushTags(buffer, st);
    } else {
      var x, rest := lexes[i], lexes[i+1..];
      assert lexes[i..][0] == x && lexes[i..][1..] == rest;
      MatchesLabel(p, lexes, i, start, st);
      StepMatches(p, lexes, i, start, st);
      if x.Chunk? {
        ChunkSpeaks(x);
        MoreText(p, lexes, i, buffer, x.text, start, st);
      } else {
        EffectsByName(x);
        if Flushes(x) {
          RunsFirst(Runs(rest, ""), buffer);
          SegmentsTags(p, lexes, i + 1, "", start, After(p, x, st));
          FlushedTags(p, x, buffer, st, Segments(p, rest, "", After(p, x, st)));
          NothingSpoken();
          SpreadJoins(0, 0, st.tags);
          SpreadJoins(0, 0, After(p, x, st).tags);
        } else if EffectOf(x) == Unknown {
          MoreText(p, lexes, i, buffer, Source(x), start, st);
        } else {
          SegmentsTags(p, lexes, i + 1, buffer, start, After(p, x, st));
          NothingSpoken();
          SpreadJoins(0, 0, st.tags);
          EmphasisKeepsTags(p, x, st);
        }
      }
    }
  }

  lemma FlushedTags(p: Numbers, x: Lex, buffer: string, st: State, rest: seq<Segment>)
    requires x.Mark? && !HasHint(Strip(buffer))
    ensures TagsOut(Flush(buffer, st) + Control(p, x) + rest) == Spread(|NonSpace(buffer)|, st.tags) + TagsOut(rest)
  {
    hide Flush, Control, Strip, HasHint, NonSpace, TagsOut, Spread;
    FlushTags(buffer, st);
    ControlTags(p, x);
    TagsConcat(Flush(buffer, st) + Control(p, x), rest);
    TagsConcat(Flush(buffer, st), Control(p, x));
  }

  lemma NothingSpoken()
    ensures NonSpace("") == ""
  {
  }

  lemma EmphasisKeepsTags(p: Numbers, x: Lex, st: State)
    requires x.Mark? && EffectOf(x) == SetEmphasis
    ensures After(p, x, st).tags == st.tags
  {
    hide EffectOf;
  }

  lemma {:induction false} MoreText(p: Numbers, lexes: seq<Lex>, i: nat, buffer: string, text: string, start: string,
                                    st: State)
    requires i < |lexes| && Matches(p, lexes, i + 1, start, st) && HintFree(Runs(lexes[i+1..], buffer + text))
    requires text == SpokenText(lexes[i]) && st.tags == TagsAt(lexes, i)
    ensures TagsOut(Segments(p, lexes[i+1..], buffer + text, st))
            == Spread(|NonSpace(buffer)|, st.tags) + PromisedTags(lexes, i)
    decreases |lexes| - i, 0
  {
    hide Segments, HintFree, Runs, NonSpace, TagsOut, Spread, Matches, SpokenText, TagsAt;
    SegmentsTags(p, lexes, i + 1, buffer + text, start, st);
    NonSpaceConcat(buffer, text);
    SpreadJoins(|NonSpace(buffer)|, |NonSpace(text)|, st.tags);
  }

  /** Before merging, every character's segment lists exactly the emotion and rate tags since its speaker tag. */
  lemma SegmentsListTheirTags(p: Numbers, lexes: seq<Lex>, speaker: string)
    requires HintFree(Runs(lexes, ""))
    ensures TagsOut(Segments(p, lexes, "", Start(speaker))) == PromisedTags(lexes, 0)
  {
    hide Segments, HintFree, Runs, TagsOut, Matches, PromisedTags;
    StartMatches(p, lexes, speaker);
    assert lexes[0..] == lexes;
    SegmentsTags(p, lexes, 0, "", speaker, Start(speaker));
    NothingSpoken();
  }

  // ---------- what merging does to the tags ----------

  /** Merging never joins segments with different tags: `last` is the segment that the next may join. */
  predicate TagsAgree(last: Option<Segment>, segs: seq<Segment>)
    decreases |segs|
  {
    if segs == [] then true
    else if last.Some? && Mergeable(last.value, segs[0]) then
      last.value.tags == segs[0].tags && TagsAgree(last, segs[1..])
    else TagsAgree(Some(segs[0]), segs[1..])
  }

  /** Every spoken segment says something. */
  predicate Worded(segs: seq<Segment>) {
    forall k :: 0 <= k < |segs| && segs[k].Spoken? ==> NonSpace(segs[k].content) != ""
  }

  function Last(segs: seq<Segment>): Option<Segment> {
    if segs == [] then None else Some(segs[|segs|-1])
  }

  /** A longer content changes neither what may join nor the tags. */
  lemma {:induction false} ContentDoesNotMatter(last: Segment, content: string, segs: seq<Segment>)
    requires last.Spoken?
    ensures TagsAgree(Some(last.(content := content)), segs) <==> TagsAgree(Some(last), segs)
    decreases |segs|
  {
    if segs != [] && Mergeable(last, segs[0]) {
      ContentDoesNotMatter(last, content, segs[1..]);
    }
  }

  lemma JoinedContent(a: string, b: string)
    ensures |NonSpace(a + " " + b)| == |NonSpace(a)| + |NonSpace(b)|
  {
    hide NonSpace, IsSpace;
    NonSpaceConcat(a + " ", b);
    NonSpaceConcat(a, " ");
    OneBlank();
  }

  lemma OneBlank()
    ensures NonSpace(" ") == ""
  {
    NonSpaceOfBlank(" ");
  }

  lemma SpreadDiffers(n: nat, a: seq<string>, b: seq<string>)
    ensures Spread(n, a) == Spread(n, b) <==> n == 0 || a == b
  {
    if n > 0 && a != b {
      assert Spread(n, a)[0] != Spread(n, b)[0];
    }
  }

  lemma OneMerge(merged: seq<Segment>, seg: Segment)
    requires seg.Spoken? ==> NonSpace(seg.content) != ""
    ensures |TagsOut(MergeOne(merged, seg))| == |TagsOut(merged)| + |TagsOut([seg])|
    ensures TagsOut(merged) <= TagsOut(MergeOne(merged, seg))
    ensures TagsOut(MergeOne(merged, seg)) == TagsOut(merged) + TagsOut([seg])
            <==> !(merged != [] && Mergeable(merged[|merged|-1], seg) && merged[|merged|-1].tags != seg.tags)
  {
    hide TagsOut, NonSpace, Spread;
    if merged != [] && Mergeable(merged[|merged|-1], seg) {
      var init, last := merged[..|merged|-1], merged[|merged|-1];
      var joined := last.(content := last.content + " " + seg.content);
      var m, n := |NonSpace(last.content)|, |NonSpace(seg.content)|;
      assert merged == init + [last];
      TagsConcat(init, [last]);
      TagsConcat(init, [joined]);
      TagsOne(last);
      TagsOne(seg);
      TagsOne(joined);
      JoinedContent(last.content, seg.content);
      SpreadJoins(m, n, last.tags);
      SpreadJoins(n, 0, seg.tags);
      SpreadJoins(n, 0, last.tags);
      SpreadDiffers(n, last.tags, seg.tags);
      var front := TagsOut(init) + Spread(m, last.tags);
      assert TagsOut(MergeOne(merged, seg)) == front + Spread(n, last.tags);
      assert TagsOut(merged) + TagsOut([seg]) == front + Spread(n, seg.tags);
      SameTail(front, Spread(n, last.tags), Spread(n, seg.tags));
    } else {
      TagsConcat(merged, [seg]);
    }
  }

  lemma SameTail(a: seq<seq<string>>, b: seq<seq<string>>, c: seq<seq<string>>)
    ensures a + b == a + c <==> b == c
  {
    if a + b == a + c {
      assert b == (a + b)[|a|..] == (a + c)[|a|..] == c;
    }
  }

  lemma {:induction false} MergingKeepsLength(merged: seq<Segment>, segs: seq<Segment>)
    requires Worded(segs)
    ensures |TagsOut(MergeAll(merged, segs))| == |TagsOut(merged)| + |TagsOut(segs)|
    ensures TagsOut(merged) <= TagsOut(MergeAll(merged, segs))
    decreases |segs|
  {
    hide TagsOut, NonSpace, MergeOne;
    if segs == [] {
      NoTags();
    } else {
      OneMerge(merged, segs[0]);
      MergingKeepsLength(MergeOne(merged, segs[0]), segs[1..]);
      assert segs == [segs[0]] + segs[1..];
      TagsConcat([segs[0]], segs[1..]);
    }
  }

  lemma LastAfter(merged: seq<Segment>, seg: Segment, rest: seq<Segment>)
    ensures
      var joins := merged != [] && Mergeable(merged[|merged|-1], seg);
      TagsAgree(Last(MergeOne(merged, seg)), rest)
      <==> if joins then TagsAgree(Last(merged), rest) else TagsAgree(Some(seg), rest)
  {
    if merged != [] && Mergeable(merged[|merged|-1], seg) {
      var last := merged[|merged|-1];
      ContentDoesNotMatter(last, last.content + " " + seg.content, rest);
    }
  }

  /** Merging keeps every character's tags exactly when it never joins segments with different tags. */
  lemma {:induction false} MergeKeepsTagsIff(merged: seq<Segment>, segs: seq<Segment>)
    requires Worded(segs)
    ensures TagsOut(MergeAll(merged, segs)) == TagsOut(merged) + TagsOut(segs) <==> TagsAgree(Last(merged), segs)
    decreases |segs|
  {
    hide TagsOut, NonSpace, MergeOne, Mergeable;
    if segs == [] {
      NoTags();
    } else {
      var seg, rest := segs[0], segs[1..];
      var next := MergeOne(merged, seg);
      OneMerge(merged, seg);
      MergeKeepsTagsIff(next, rest);
      MergingKeepsLength(next, rest);
      LastAfter(merged, seg, rest);
      assert segs == [seg] + rest;
      TagsConcat([seg], rest);
      var all, want := TagsOut(MergeAll(merged, segs)), TagsOut(merged) + TagsOut(segs);
      assert want == (TagsOut(merged) + TagsOut([seg])) + TagsOut(rest);
      FrontAndRest(all, TagsOut(next), TagsOut(merged) + TagsOut([seg]), TagsOut(rest));
    }
  }

  lemma FrontAndRest(all: seq<seq<string>>, front: seq<seq<string>>, wanted: seq<seq<string>>, rest: seq<seq<string>>)
    requires front <= all && |front| == |wanted|
    ensures all == wanted + rest <==> front == wanted && all == front + rest
  {
    if all == wanted + rest {
      assert front == all[..|front|] == (wanted + rest)[..|wanted|] == wanted;
    }
  }

  lemma FlushIsWorded(buffer: string, st: State)
    requires !HasHint(Strip(buffer))
    ensures Worded(Flush(buffer, st))
  {
    hide Strip, NonSpace, HasHint;
    UnpronShrinks(Strip(buffer));
    NonSpaceOfStrip(buffer);
    NonSpaceOfStrip(Strip(buffer));
    NonSpaceOfBlank(Strip(buffer));
    NonSpaceOfBlank(buffer);
  }

  lemma {:induction false} SegmentsAreWorded(p: Numbers, lexes: seq<Lex>, buffer: string, st: State)
    requires HintFree(Runs(lexes, buffer))
    ensures Worded(Segments(p, lexes, buffer, st))
    decreases |lexes|
  {
    hide Flush, Source, EffectOf, After, Control, Strip, HintFree, HasHint, NonSpace;
    if lexes == [] {
      OneRun(buffer);
      FlushIsWorded(buffer, st);
    } else {
      var x, rest := lexes[0], lexes[1..];
      if x.Chunk? {
        SegmentsAreWorded(p, rest, buffer + x.text, st);
      } else if Flushes(x) {
        RunsFirst(Runs(rest, ""), buffer);
        SegmentsAreWorded(p, rest, "", After(p, x, st));
        FlushIsWorded(buffer, st);
        ControlOutput(p, x);
      } else if EffectOf(x) == Unknown {
        SegmentsAreWorded(p, rest, buffer + Source(x), st);
      } else {
        SegmentsAreWorded(p, rest, buffer, After(p, x, st));
      }
    }
  }

  lemma NoOutput()
    ensures Output([]) == []
  {
  }

  lemma {:induction false} TagsCount(segs: seq<Segment>)
    ensures |TagsOut(segs)| == |Output(segs)|
  {
    hide Labels, NonSpace, Spread;
    if segs != [] {
      if segs[0].Spoken? {
        LabelsCount(segs[0].content, Voice(segs[0].speaker, segs[0].emotion, segs[0].rate));
        SpreadJoins(|NonSpace(segs[0].content)|, 0, segs[0].tags);
      }
      TagsCount(segs[1..]);
    }
  }

  lemma {:induction false} PromisedCount(p: Numbers, lexes: seq<Lex>, i: nat, start: string)
    requires i <= |lexes|
    ensures |PromisedTags(lexes, i)| == |Promised(p, lexes, i, start)|
    decreases |lexes| - i
  {
    hide Labels, NonSpace, Spread, SpokenText, TagsAt, VoiceAt;
    if i < |lexes| {
      LabelsCount(SpokenText(lexes[i]), VoiceAt(p, lexes, i, start));
      SpreadJoins(|NonSpace(SpokenText(lexes[i]))|, 0, TagsAt(lexes, i));
      PromisedCount(p, lexes, i + 1, start);
    }
  }

  /** In the result every character's segment lists exactly the emotion and rate tags since its speaker tag, on
      exactly the texts whose stretches hold no hint and of which no segments with different tags are merged. */
  lemma TagsAreListedIff(p: Numbers, text: string, speaker: string)
    ensures
      var lexes := Lexes(Unpron(text));
      TagsOut(Parsed(p, text, speaker)) == PromisedTags(lexes, 0)
      <==> HintFree(Runs(lexes, "")) && TagsAgree(None, Segments(p, lexes, "", Start(speaker)))
  {
    hide Lexes, Unpron, Segments, MergeAll, Runs, HintFree, TagsOut, PromisedTags, Promised, TagsAgree, Output, Asked,
      Worded, Settled, Controls, AskedControls, Matches;
    var lexes := Lexes(Unpron(text));
    var segs := Segments(p, lexes, "", Start(speaker));
    TagsCount(Parsed(p, text, speaker));
    NoOutput();
    PromisedCount(p, lexes, 0, speaker);
    SegmentsLoseLabels(p, lexes, "", Start(speaker));
    MergeKeepsLabels([], segs);
    NoLabels(LabelOf(Start(speaker)));
    StartMatches(p, lexes, speaker);
    AskedIsPromised(p, lexes, 0, speaker, Start(speaker));
    assert lexes[0..] == lexes;
    if HintFree(Runs(lexes, "")) {
      SegmentsListTheirTags(p, lexes, speaker);
      SegmentsAreWorded(p, lexes, "", Start(speaker));
      MergeKeepsTagsIff([], segs);
      NoTags();
    }
  }

  // ---------- two inputs ----------

  lemma TwoTagLexes(first: string, a: char, second: string, b: char)
    requires MarkOf(first) == Some(Mark(first, None)) && ']' !in first
    requires ']' !in second && MarkOf(second).Some? && MarkOf(second).value.Mark?
    requires a != '[' && b != '['
    ensures Lexes("[" + first + "]" + ([a] + ("[" + second + "]" + [b])))
            == [Mark(first, None), Chunk([a]), MarkOf(second).value, Chunk([b])]
  {
    hide MarkAt, FindMark, MarkOf, Lexes;
    var tail := "[" + second + "]" + [b];
    var rest := [a] + tail;
    LexFirst(first, rest, Mark(first, None));
    MarkInBrackets(second, [b]);
    MarkHere(tail);
    NoMarkBefore([a], tail);
    LastChunk([b]);
    assert rest[0..] == rest && rest[1..] == tail && rest[..1] == [a] && rest[0..1] == [a];
    assert tail[|second|+2..] == [b];
    assert rest[1+(|second|+2)..] == tail[|second|+2..];
    LexesFrom(rest, 0, 1);
  }

  lemma ValueTagReads(name: string, value: string)
    requires Word(name) && ':' !in name && value != ""
    ensures MarkOf(name + [':'] + value) == Some(Mark(name, Some(value)))
  {
    hide IndexOf;
    var body := name + [':'] + value;
    IndexOfFirst(name, ':', value);
    assert body[|name|] == ':' && !IsWordChar(':');
    assert body[..|name|] == name && body[|name|+1..] == value;
  }

  lemma SpeakerTagReads()
    ensures MarkOf("SPEAKER:Bob") == Some(Mark("SPEAKER", Some("Bob")))
  {
    hide MarkOf;
    assert Word("SPEAKER");
    ValueTagReads("SPEAKER", "Bob");
    assert "SPEAKER" + [':'] + "Bob" == "SPEAKER:Bob";
  }

  lemma SadReads()
    ensures MarkOf("sad") == Some(Mark("sad", None))
  {
    hide IndexOf;
    assert Word("sad");
  }

  /** A speaker tag takes emotion, rate and tags back. */
  lemma SpeakerSegments(p: Numbers, speaker: string)
    ensures
      var lexes := [Mark("sad", None), Chunk("a"), Mark("SPEAKER", Some("Bob")), Chunk("b")];
      Segments(p, lexes, "", Start(speaker))
      == [Spoken("a", speaker, Some("sad"), 1.0, false, ["sad"]), SpeakerChange("Bob"),
          Spoken("b", "Bob", None, 1.0, false, [])]
  {
    hide Flush;
    var lexes := [Mark("sad", None), Chunk("a"), Mark("SPEAKER", Some("Bob")), Chunk("b")];
    var one, two, three := lexes[1..], lexes[1..][1..], lexes[1..][1..][1..];
    var sad, bob := State(speaker, Some("sad"), 1.0, false, ["sad"]), State("Bob", None, 1.0, false, []);
    assert EffectOf(lexes[0]) == SetEmotion && EffectOf(two[0]) == SetSpeaker && three[1..] == [];
    assert [] + ["sad"] == ["sad"] && "" + "a" == "a" && "" + "b" == "b";
    assert After(p, lexes[0], Start(speaker)) == sad && After(p, two[0], sad) == bob;
    NothingFlushes(Start(speaker));
    LetterFlushes('a', sad);
    LetterFlushes('b', bob);
    assert Segments(p, three, "", bob) == Flush("b", bob);
    assert Segments(p, two, "a", sad) == Flush("a", sad) + Control(p, two[0]) + Segments(p, three, "", bob);
    assert Control(p, lexes[0]) == [];
    assert Segments(p, one, "", sad) == Segments(p, two, "a", sad);
  }

  lemma NothingFlushes(st: State)
    ensures Flush("", st) == []
  {
  }

  lemma RepeatedSegments(p: Numbers, speaker: string)
    ensures
      var lexes := [Mark("sad", None), Chunk("a"), Mark("sad", None), Chunk("b")];
      Segments(p, lexes, "", Start(speaker))
      == [Spoken("a", speaker, Some("sad"), 1.0, false, ["sad"]),
          Spoken("b", speaker, Some("sad"), 1.0, false, ["sad", "sad"])]
  {
    hide Flush;
    var lexes := [Mark("sad", None), Chunk("a"), Mark("sad", None), Chunk("b")];
    var one, two, three := lexes[1..], lexes[1..][1..], lexes[1..][1..][1..];
    var sad := State(speaker, Some("sad"), 1.0, false, ["sad"]);
    var sadder := sad.(tags := ["sad", "sad"]);
    assert EffectOf(lexes[0]) == SetEmotion && three[1..] == [];
    assert [] + ["sad"] == ["sad"] && "" + "a" == "a" && "" + "b" == "b" && ["sad"] + ["sad"] == ["sad", "sad"];
    assert After(p, lexes[0], Start(speaker)) == sad && After(p, two[0], sad) == sadder;
    NothingFlushes(Start(speaker));
    LetterFlushes('a', sad);
    LetterFlushes('b', sadder);
    assert Segments(p, three, "", sadder) == Flush("b", sadder);
    assert Control(p, lexes[0]) == [] && Control(p, two[0]) == [];
    assert Segments(p, two, "a", sad) == Flush("a", sad) + [] + Segments(p, three, "", sadder);
    assert Segments(p, one, "", sad) == Segments(p, two, "a", sad);
  }

  lemma ThreeSegmentsStay(a: Segment, b: Segment, c: Segment)
    requires !Mergeable(a, b) && !Mergeable(b, c)
    ensures MergeAll([], [a, b, c]) == [a, b, c]
  {
    assert [a, b, c][1..] == [b, c] && [b, c][1..] == [c] && [c][1..] == [];
    assert [] + [a] == [a] && [a] + [b] == [a, b] && [a, b] + [c] == [a, b, c];
    assert MergeAll([a, b], [c]) == MergeAll([a, b, c], []);
    assert MergeAll([a], [b, c]) == MergeAll([a, b], [c]);
  }

  lemma TwoSegmentsJoin(a: Segment, b: Segment)
    requires Mergeable(a, b)
    ensures MergeAll([], [a, b]) == [a.(content := a.content + " " + b.content)]
  {
    assert [a, b][1..] == [b] && [b][1..] == [] && [] + [a] == [a];
    assert [a][..0] == [];
    assert MergeAll([a], [b]) == MergeAll(MergeOne([a], b), []);
  }

  const BOB := "[" + "sad" + "]" + ("a" + ("[" + "SPEAKER:Bob" + "]" + "b"))
  const TWICE := "[" + "sad" + "]" + ("a" + ("[" + "sad" + "]" + "b"))

  lemma InputsRead()
    ensures BOB == "[sad]a[SPEAKER:Bob]b" && TWICE == "[sad]a[sad]b"
  {
    assert "[" + "sad" + "]" == "[sad]" && "[" + "SPEAKER:Bob" + "]" == "[SPEAKER:Bob]";
    assert "[SPEAKER:Bob]" + "b" == "[SPEAKER:Bob]b" && "[sad]" + "b" == "[sad]b";
    assert "a" + "[SPEAKER:Bob]b" == "a[SPEAKER:Bob]b" && "a" + "[sad]b" == "a[sad]b";
  }

  lemma InputsHaveNoSlash()
    ensures '/' !in BOB && '/' !in TWICE
  {
    InputsRead();
  }

  /** A new speaker starts with no emotion, at normal speed and without tags. */
  lemma NewSpeakerStartsAfresh(p: Numbers, speaker: string)
    ensures BOB == "[sad]a[SPEAKER:Bob]b"
    ensures Parsed(p, BOB, speaker)
            == [Spoken("a", speaker, Some("sad"), 1.0, false, ["sad"]), SpeakerChange("Bob"),
                Spoken("b", "Bob", None, 1.0, false, [])]
  {
    hide Segments, MergeAll, Lexes, Unpron, MarkOf, BOB;
    InputsRead();
    InputsHaveNoSlash();
    NoSlashNoHint(BOB);
    BobLexes();
    SpeakerSegments(p, speaker);
    ThreeSegmentsStay(Spoken("a", speaker, Some("sad"), 1.0, false, ["sad"]), SpeakerChange("Bob"),
                      Spoken("b", "Bob", None, 1.0, false, []));
  }

  lemma BobLexes()
    ensures Lexes(BOB) == [Mark("sad", None), Chunk("a"), Mark("SPEAKER", Some("Bob")), Chunk("b")]
    ensures Lexes(TWICE) == [Mark("sad", None), Chunk("a"), Mark("sad", None), Chunk("b")]
  {
    hide Lexes, MarkOf;
    SadReads();
    SpeakerTagReads();
    TwoTagLexes("sad", 'a', "SPEAKER:Bob", 'b');
    TwoTagLexes("sad", 'a', "sad", 'b');
  }

  /** Two stretches that repeat an emotion are merged, and the second loses a tag. */
  lemma RepeatedTagIsLost(p: Numbers, speaker: string)
    ensures TWICE == "[sad]a[sad]b"
    ensures Parsed(p, TWICE, speaker) == [Spoken("a b", speaker, Some("sad"), 1.0, false, ["sad"])]
    ensures TagsOut(Parsed(p, TWICE, speaker)) != PromisedTags(Lexes(TWICE), 0)
  {
    hide Segments, MergeAll, Lexes, Unpron, MarkOf, TagsOut, PromisedTags, TWICE;
    InputsRead();
    InputsHaveNoSlash();
    NoSlashNoHint(TWICE);
    BobLexes();
    RepeatedSegments(p, speaker);
    var a := Spoken("a", speaker, Some("sad"), 1.0, false, ["sad"]);
    var b := Spoken("b", speaker, Some("sad"), 1.0, false, ["sad", "sad"]);
    TwoSegmentsJoin(a, b);
    assert "a" + " " + "b" == "a b";
    TagsListedOnce(a, b);
    TagsAreListedIff(p, TWICE, speaker);
  }

  lemma TagsListedOnce(a: Segment, b: Segment)
    requires Mergeable(a, b) && a.tags != b.tags
    ensures !TagsAgree(None, [a, b])
  {
    assert [a, b][1..] == [b];
  }
}
