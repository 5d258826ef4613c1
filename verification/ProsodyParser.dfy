/** The parser of prosody-tagged text into synthesis segments (backend/pipeline/prosody_parser.py:20-178). */
module ProsodyParser {
  import opened Wrappers
  import opened Text
  import opened SsmlTokens

  /** `int` and `float` on tag values: None is ValueError. */
  datatype Numbers = Numbers(parseInt: string -> Option<int>, parseFloat: string -> Option<real>)

  datatype Segment =
    | Spoken(content: string, speaker: string, emotion: Option<string>, rate: real, emphasis: bool, tags: seq<string>)
    | PauseFor(ms: int)
    | SceneBreak(ms: int)
    | SpeakerChange(speaker: string)

  /** What is in force: the parser's local variables. */
  datatype State = State(speaker: string, emotion: Option<string>, rate: real, emphasis: bool, tags: seq<string>)

  datatype Lex = Chunk(text: string) | Mark(name: string, value: Option<string>)

  const EMOTIONS := {"angry", "sad", "whisper", "soft", "breathy", "excited", "embarrassed", "laughing", "sobbing",
                     "sighing"}

  // ---------- pronunciation hints ----------

  const PRON_OPEN := "[pron:"
  const PRON_CLOSE := "[/pron]"

  /** The first occurrence of `sub` in s, or |s|. */
  function Find(s: string, sub: string): (i: nat)
    ensures i <= |s| && (i < |s| ==> sub <= s[i..] && i + |sub| <= |s|)
  {
    if s == "" then 0
    else if sub <= s then assert s[0..] == s; 0
    else
      var i := Find(s[1..], sub) + 1;
      assert s[1..][i-1..] == s[i..];
      i
  }

  /** A hint at the front of s: where its word starts and ends. */
  function PronAt(s: string): (r: Option<(nat, nat)>)
    ensures r.Some? ==> r.value.0 <= r.value.1 && r.value.1 + |PRON_CLOSE| <= |s|
  {
    if !(PRON_OPEN <= s) then None
    else
      var value := IndexOf(s[6..], ']');
      if value == 0 || 6 + value == |s| then None
      else
        var start := 6 + value + 1;
        var word := Find(s[start..], PRON_CLOSE);
        if word == |s[start..]| || '\n' in s[start..start+word] then None
        else Some((start, start + word))
  }

  lemma HintHasSlash(s: string)
    requires PronAt(s).Some?
    ensures '/' in s
  {
    hide Find, IndexOf;
    var start, end := PronAt(s).value.0, PronAt(s).value.1;
    assert PRON_CLOSE <= s[start..][end-start..];
    assert s[start..][end-start..][1] == PRON_CLOSE[1] == '/';
    assert s[end+1] == '/';
  }

  /** `PRON_PATTERN.sub(r"\2", s)` */
  function Unpron(s: string): string
    decreases |s|
  {
    if s == "" then ""
    else
      match PronAt(s)
      case Some((a, b)) => s[a..b] + Unpron(s[b+|PRON_CLOSE|..])
      case None => [s[0]] + Unpron(s[1..])
  }

  lemma {:induction false} NoSlashNoHint(s: string)
    requires '/' !in s
    ensures Unpron(s) == s
  {
    hide PronAt;
    if s != "" {
      if PronAt(s).Some? { HintHasSlash(s); }
      NoSlashNoHint(s[1..]);
      assert [s[0]] + s[1..] == s;
    }
  }

  /** Somewhere in s a hint begins. */
  predicate HasHint(s: string) {
    exists i :: 0 <= i < |s| && PronAt(s[i..]).Some?
  }

  lemma HintLater(s: string)
    requires s != "" && PronAt(s).None?
    ensures HasHint(s) <==> HasHint(s[1..])
  {
    hide PronAt;
    if HasHint(s) {
      var i :| 0 <= i < |s| && PronAt(s[i..]).Some?;
      assert s[0..] == s;
      assert s[1..][i-1..] == s[i..];
    }
    if HasHint(s[1..]) {
      var i :| 0 <= i < |s[1..]| && PronAt(s[1..][i..]).Some?;
      assert s[1..][i..] == s[i+1..];
    }
  }

  /** Removing the hints of a text takes non-space characters away exactly when it has one. */
  lemma {:induction false} UnpronShrinks(s: string)
    ensures |NonSpace(Unpron(s))| <= |NonSpace(s)|
    ensures HasHint(s) ==> |NonSpace(Unpron(s))| < |NonSpace(s)|
    ensures !HasHint(s) ==> Unpron(s) == s
    decreases |s|
  {
    hide PronAt, NonSpace, HasHint, IsSpace;
    if s == "" {
      NothingHasNoHint();
    } else if PronAt(s).None? {
      HintLater(s);
      UnpronShrinks(s[1..]);
      assert [s[0]] + s[1..] == s;
      NonSpaceConcat([s[0]], s[1..]);
      NonSpaceConcat([s[0]], Unpron(s[1..]));
    } else {
      var (a, b) := PronAt(s).value;
      var head, word, close, rest := s[..a], s[a..b], s[b..b+|PRON_CLOSE|], s[b+|PRON_CLOSE|..];
      UnpronShrinks(rest);
      HintAtFront(s);
      assert s == head + (word + (close + rest));
      NonSpaceConcat(head, word + (close + rest));
      NonSpaceConcat(word, close + rest);
      NonSpaceConcat(close, rest);
      NonSpaceConcat(word, Unpron(rest));
    }
  }

  lemma NothingHasNoHint()
    ensures !HasHint("")
  {
  }

  lemma HintAtFront(s: string)
    requires PronAt(s).Some?
    ensures HasHint(s) && NonSpace(s[..PronAt(s).value.0]) != ""
  {
    hide Find, IndexOf;
    assert s[0..] == s;
    assert s[..PronAt(s).value.0][0] == '[';
  }

  // ---------- tags ----------

  /** The tag whose brackets enclose `body`: a word, or a word, a colon and a value. */
  function MarkOf(body: string): Option<Lex> {
    var i := IndexOf(body, ':');
    if Word(body) then Some(Mark(body, None))
    else if i + 1 < |body| && Word(body[..i]) then Some(Mark(body[..i], Some(body[i+1..])))
    else None
  }

  function MarkAt(s: string): (r: Option<(Lex, nat)>)
    ensures r.Some? ==> 2 <= r.value.1 <= |s| && r.value.0.Mark?
  {
    if s == "" || s[0] != '[' then None
    else
      var close := IndexOf(s[1..], ']') + 1;
      if close == |s| then None
      else
        match MarkOf(s[1..close])
        case Some(m) => Some((m, close + 1))
        case None => None
  }

  function FindMark(s: string): (i: nat)
    ensures i <= |s| && (i < |s| ==> MarkAt(s[i..]).Some?)
  {
    if s == "" then 0
    else if MarkAt(s).Some? then assert s[0..] == s; 0
    else
      var i := FindMark(s[1..]) + 1;
      assert s[1..][i-1..] == s[i..];
      i
  }

  function Lexes(s: string): seq<Lex>
    decreases |s|
  {
    if s == "" then []
    else
      var i := FindMark(s);
      if i == |s| then [Chunk(s)]
      else
        var (m, n) := MarkAt(s[i..]).value;
        (if i > 0 then [Chunk(s[..i])] else []) + [m] + Lexes(s[i+n..])
  }

  /** The tag as the parser writes it back when it does not know it. */
  function Source(m: Lex): string
    requires m.Mark?
  {
    "[" + m.name + (if m.value.Some? then ":" + m.value.value else "") + "]"
  }

  // ---------- the parser ----------

  function Clamp(ms: int): int {
    if ms < 0 then 0 else if ms > 10000 then 10000 else ms
  }

  datatype Effect = SetSpeaker | DoPause | DoSceneBreak | SetRate | SetEmphasis | SetEmotion | Unknown

  function EffectOf(m: Lex): Effect
    requires m.Mark?
  {
    if m.name == "SPEAKER" && m.value.Some? then SetSpeaker
    else if m.name == "pause" && m.value.Some? then DoPause
    else if m.name == "scene_break" && m.value.Some? then DoSceneBreak
    else if m.name == "rate" && m.value.Some? then SetRate
    else if m.name == "emphasis" then SetEmphasis
    else if m.name in EMOTIONS then SetEmotion
    else Unknown
  }

  function RateOf(p: Numbers, value: string): real {
    if value == "slow" then 0.8
    else if value == "fast" then 1.2
    else
      match p.parseFloat(value)
      case Some(r) => r
      case None => 1.0
  }

  /** The state after a tag. */
  function After(p: Numbers, m: Lex, st: State): State
    requires m.Mark?
  {
    match EffectOf(m)
    case SetSpeaker => if m.value.Some? then State(m.value.value, None, 1.0, st.emphasis, []) else st
    case SetRate => if m.value.Some?
                    then st.(rate := RateOf(p, m.value.value), tags := st.tags + ["rate:" + m.value.value])
                    else st
    case SetEmphasis => st.(emphasis := true)
    case SetEmotion => st.(emotion := Some(m.name), tags := st.tags + [m.name])
    case _ => st
  }

  /** The segment a tag itself gives. */
  function Control(p: Numbers, m: Lex): seq<Segment>
    requires m.Mark?
  {
    match EffectOf(m)
    case SetSpeaker => if m.value.Some? then [SpeakerChange(m.value.value)] else []
    case DoPause =>
      if m.value.None? then []
      else
        (match p.parseInt(m.value.value)
         case Some(ms) => [PauseFor(Clamp(ms))]
         case None => [])
    case DoSceneBreak =>
      if m.value.None? then []
      else
        (match p.parseInt(m.value.value)
         case Some(ms) => [SceneBreak(Clamp(ms))]
         case None => [SceneBreak(3000)])
    case _ => []
  }

  /** Only emphasis and unknown tags leave the pending text pending. */
  predicate Flushes(m: Lex)
    requires m.Mark?
  {
    EffectOf(m) != SetEmphasis && EffectOf(m) != Unknown
  }

  /** `flush_text` */
  function Flush(buffer: string, st: State): seq<Segment> {
    var content := Strip(buffer);
    if content == "" then []
    else [Spoken(Unpron(content), st.speaker, st.emotion, st.rate, st.emphasis, st.tags)]
  }

  function Segments(p: Numbers, lexes: seq<Lex>, buffer: string, st: State): seq<Segment>
    decreases |lexes|
  {
    if lexes == [] then Flush(buffer, st)
    else
      var x := lexes[0];
      if x.Chunk? then Segments(p, lexes[1..], buffer + x.text, st)
      else if Flushes(x) then Flush(buffer, st) + Control(p, x) + Segments(p, lexes[1..], "", After(p, x, st))
      else if EffectOf(x) == Unknown then Segments(p, lexes[1..], buffer + Source(x), st)
      else Segments(p, lexes[1..], buffer, After(p, x, st))
  }

  predicate Mergeable(a: Segment, b: Segment) {
    && a.Spoken? && b.Spoken?
    && a.speaker == b.speaker && a.emotion == b.emotion && a.rate == b.rate
    && !a.emphasis && !b.emphasis
  }

  /** One step of the merge pass. */
  function MergeOne(merged: seq<Segment>, seg: Segment): seq<Segment> {
    if merged != [] && Mergeable(merged[|merged|-1], seg)
    then merged[..|merged|-1] + [merged[|merged|-1].(content := merged[|merged|-1].content + " " + seg.content)]
    else merged + [seg]
  }

  function MergeAll(merged: seq<Segment>, segs: seq<Segment>): seq<Segment>
    decreases |segs|
  {
    if segs == [] then merged else MergeAll(MergeOne(merged, segs[0]), segs[1..])
  }

  function Start(speaker: string): State {
    State(speaker, None, 1.0, false, [])
  }

  function Parsed(p: Numbers, text: string, speaker: string): seq<Segment> {
    MergeAll([], Segments(p, Lexes(Unpron(text)), "", Start(speaker)))
  }

  // ---------- the loops ----------

  lemma LexesFrom(s: string, a: nat, i: nat)
    requires a <= i < |s| && i == a + FindMark(s[a..])
    ensures MarkAt(s[i..]).Some?
    ensures
      var (m, n) := MarkAt(s[i..]).value;
      i + n <= |s| && Lexes(s[a..]) == (if i > a then [Chunk(s[a..i])] else []) + [m] + Lexes(s[i+n..])
  {
    hide MarkAt, FindMark;
    var (m, n) := MarkAt(s[a..][i-a..]).value;
    assert s[a..][i-a..] == s[i..];
    assert s[a..][..i-a] == s[a..i];
    assert s[a..][i-a+n..] == s[i+n..];
  }

  lemma LexesLast(s: string, a: nat)
    requires a <= |s| && FindMark(s[a..]) == |s| - a
    ensures Lexes(s[a..]) == if a < |s| then [Chunk(s[a..])] else []
  {
    hide MarkAt, FindMark;
  }

  /** A chunk before a tag only lengthens the pending text. */
  lemma ChunkFirst(p: Numbers, text: string, rest: seq<Lex>, buffer: string, st: State)
    ensures Segments(p, (if text != "" then [Chunk(text)] else []) + rest, buffer, st)
            == Segments(p, rest, buffer + text, st)
  {
    hide Flush;
    if text == "" {
      assert [] + rest == rest && buffer + text == buffer;
    } else {
      assert ([Chunk(text)] + rest)[1..] == rest;
    }
  }

  lemma MarkFirst(p: Numbers, m: Lex, rest: seq<Lex>, buffer: string, st: State)
    requires m.Mark?
    ensures Flushes(m) ==>
              Segments(p, [m] + rest, buffer, st)
              == Flush(buffer, st) + Control(p, m) + Segments(p, rest, "", After(p, m, st))
    ensures EffectOf(m) == Unknown ==> Segments(p, [m] + rest, buffer, st) == Segments(p, rest, buffer + Source(m), st)
    ensures EffectOf(m) == SetEmphasis ==>
              Segments(p, [m] + rest, buffer, st) == Segments(p, rest, buffer, After(p, m, st))
  {
    hide Flush, EffectOf, Control, After;
    assert ([m] + rest)[1..] == rest;
  }

  /** The tag branch of the parse loop. */
  method HandleTag(p: Numbers, m: Lex, buffer: string, st: State)
      returns (out: seq<Segment>, buffer': string, st': State)
    requires m.Mark?
    ensures Flushes(m) ==> out == Flush(buffer, st) + Control(p, m) && buffer' == "" && st' == After(p, m, st)
    ensures EffectOf(m) == Unknown ==> out == [] && buffer' == buffer + Source(m) && st' == st
    ensures EffectOf(m) == SetEmphasis ==> out == [] && buffer' == buffer && st' == After(p, m, st)
  {
    hide Flush;
    out, buffer', st' := [], buffer, st;
    if m.name == "SPEAKER" && m.value.Some? {
      out, buffer' := Flush(buffer, st), "";
      st' := st'.(speaker := m.value.value);
      out := out + [SpeakerChange(st'.speaker)];
      st' := st'.(emotion := None, rate := 1.0, tags := []);
    } else if m.name == "pause" && m.value.Some? {
      out, buffer' := Flush(buffer, st), "";
      match p.parseInt(m.value.value) {
        case Some(ms) => out := out + [PauseFor(Clamp(ms))];
        case None =>
      }
    } else if m.name == "scene_break" && m.value.Some? {
      out, buffer' := Flush(buffer, st), "";
      var ms := match p.parseInt(m.value.value) case Some(n) => n case None => 3000;
      out := out + [SceneBreak(Clamp(ms))];
    } else if m.name == "rate" && m.value.Some? {
      out, buffer' := Flush(buffer, st), "";
      st' := st'.(rate := RateOf(p, m.value.value));
      st' := st'.(tags := st'.tags + ["rate:" + m.value.value]);
    } else if m.name == "emphasis" {
      st' := st'.(emphasis := true);
    } else if m.name in EMOTIONS {
      out, buffer' := Flush(buffer, st), "";
      st' := st'.(emotion := Some(m.name), tags := st'.tags + [m.name]);
    } else {
      buffer' := buffer + Source(m);
    }
  }

  /** `parse_tagged_text` */
  method ParseTaggedText(p: Numbers, text: string, speaker: string) returns (merged: seq<Segment>)
    ensures merged == Parsed(p, text, speaker)
  {
    hide MarkAt, FindMark, Lexes, Segments, Flush, Unpron, Flushes, EffectOf, After, Control, Source, MergeOne,
        MergeAll;
    var clean := Unpron(text);
    var segments: seq<Segment> := [];
    var buffer, st, pos := "", Start(speaker), 0;
    var i := FindMark(clean);
    assert clean[0..] == clean;
    while i < |clean|
      invariant pos <= i <= |clean| && i == pos + FindMark(clean[pos..])
      invariant segments + Segments(p, Lexes(clean[pos..]), buffer, st)
                == Segments(p, Lexes(clean), "", Start(speaker))
      decreases |clean| - pos
    {
      LexesFrom(clean, pos, i);
      var (m, n) := MarkAt(clean[i..]).value;
      ghost var rest := Lexes(clean[i+n..]);
      ChunkFirst(p, clean[pos..i], [m] + rest, buffer, st);
      assert Lexes(clean[pos..]) == (if clean[pos..i] != "" then [Chunk(clean[pos..i])] else []) + ([m] + rest);
      buffer := buffer + clean[pos..i];
      MarkFirst(p, m, rest, buffer, st);
      TagCases(m);
      var out;
      out, buffer, st := HandleTag(p, m, buffer, st);
      segments := segments + out;
      pos := i + n;
      i := pos + FindMark(clean[pos..]);
    }
    LexesLast(clean, pos);
    ChunkFirst(p, clean[pos..], [], buffer, st);
    assert Lexes(clean[pos..]) == (if clean[pos..] != "" then [Chunk(clean[pos..])] else []) + [];
    buffer := buffer + clean[pos..];
    NoMore(p, buffer, st);
    segments := segments + Flush(buffer, st);
    merged := MergeLoop(segments);
  }

  lemma TagCases(m: Lex)
    requires m.Mark?
    ensures Flushes(m) || EffectOf(m) == Unknown || EffectOf(m) == SetEmphasis
  {
  }

  lemma NoMore(p: Numbers, buffer: string, st: State)
    ensures Segments(p, [], buffer, st) == Flush(buffer, st)
  {
  }

  method MergeLoop(segments: seq<Segment>) returns (merged: seq<Segment>)
    ensures merged == MergeAll([], segments)
  {
    hide Mergeable;
    merged := [];
    for k := 0 to |segments|
      invariant MergeAll(merged, segments[k..]) == MergeAll([], segments)
    {
      assert segments[k..][1..] == segments[k+1..];
      var seg := segments[k];
      if merged != [] && Mergeable(merged[|merged|-1], seg) {
        MergeableSpoken(merged[|merged|-1], seg);
        var last := merged[|merged|-1];
        ghost var init := merged[..|merged|-1];
        merged := merged[|merged|-1 := last.(content := last.content + " " + seg.content)];
        assert merged == init + [merged[|merged|-1]];
      } else {
        merged := merged + [seg];
      }
    }
  }

  lemma MergeableSpoken(a: Segment, b: Segment)
    requires Mergeable(a, b)
    ensures a.Spoken? && b.Spoken?
  {
  }

  // ---------- labels ----------

  datatype Voice = Voice(speaker: string, emotion: Option<string>, rate: real)

  datatype Labelled = Labelled(c: char, voice: Voice)

  function LabelOf(st: State): Voice {
    Voice(st.speaker, st.emotion, st.rate)
  }

  /** The non-space characters of s, each with its label. */
  function Labels(s: string, voice: Voice): seq<Labelled> {
    if s == "" then [] else (if IsSpace(s[0]) then [] else [Labelled(s[0], voice)]) + Labels(s[1..], voice)
  }

  /** What the segments will be spoken as. */
  function Output(segs: seq<Segment>): seq<Labelled> {
    if segs == [] then []
    else (if segs[0].Spoken? then Labels(segs[0].content, Voice(segs[0].speaker, segs[0].emotion, segs[0].rate))
        else [])
         + Output(segs[1..])
  }

  /** What the tagged text asks for: text outside recognised tags, under the state in force there. */
  function Asked(p: Numbers, lexes: seq<Lex>, st: State): seq<Labelled>
    decreases |lexes|
  {
    if lexes == [] then []
    else
      var x := lexes[0];
      if x.Chunk? then Labels(x.text, LabelOf(st)) + Asked(p, lexes[1..], st)
      else if EffectOf(x) == Unknown then Labels(Source(x), LabelOf(st)) + Asked(p, lexes[1..], st)
      else Asked(p, lexes[1..], After(p, x, st))
  }

  /** The stretches of text that are flushed as one segment each. */
  function Runs(lexes: seq<Lex>, buffer: string): seq<string>
    decreases |lexes|
  {
    if lexes == [] then [buffer]
    else
      var x := lexes[0];
      if x.Chunk? then Runs(lexes[1..], buffer + x.text)
      else if Flushes(x) then [buffer] + Runs(lexes[1..], "")
      else if EffectOf(x) == Unknown then Runs(lexes[1..], buffer + Source(x))
      else Runs(lexes[1..], buffer)
  }

  /** No flushed stretch holds a hint. */
  predicate HintFree(runs: seq<string>) {
    forall i :: 0 <= i < |runs| ==> !HasHint(Strip(runs[i]))
  }

  lemma {:induction false} LabelsConcat(a: string, b: string, voice: Voice)
    ensures Labels(a + b, voice) == Labels(a, voice) + Labels(b, voice)
  {
    hide IsSpace;
    if a == "" {
      assert a + b == b;
    } else {
      assert (a + b)[1..] == a[1..] + b;
      LabelsConcat(a[1..], b, voice);
    }
  }

  lemma {:induction false} BlankHasNoLabels(s: string, voice: Voice)
    requires Blank(s)
    ensures Labels(s, voice) == []
  {
    hide IsSpace;
    if s != "" {
      assert Blank(s[1..]);
      BlankHasNoLabels(s[1..], voice);
    }
  }

  lemma LabelsOfStrip(s: string, voice: Voice)
    ensures Labels(Strip(s), voice) == Labels(s, voice)
  {
    hide IsSpace, Strip, Labels, Blank;
    var a, b := StripSplits(s);
    LabelsConcat(a + Strip(s), b, voice);
    LabelsConcat(a, Strip(s), voice);
    BlankHasNoLabels(a, voice);
    BlankHasNoLabels(b, voice);
  }

  lemma {:induction false} OutputConcat(a: seq<Segment>, b: seq<Segment>)
    ensures Output(a + b) == Output(a) + Output(b)
  {
    hide Labels;
    if a == [] {
      assert a + b == b;
    } else {
      assert (a + b)[1..] == a[1..] + b;
      OutputConcat(a[1..], b);
    }
  }

  lemma FlushOutput(buffer: string, st: State)
    requires !HasHint(Strip(buffer))
    ensures Output(Flush(buffer, st)) == Labels(buffer, LabelOf(st))
  {
    hide Unpron, Strip, Labels, HasHint;
    UnpronShrinks(Strip(buffer));
    LabelsOfStrip(buffer, LabelOf(st));
    var segs := Flush(buffer, st);
    if segs != [] {
      assert segs[1..] == [];
    } else {
      NoLabels(LabelOf(st));
    }
  }

  lemma NoLabels(voice: Voice)
    ensures Labels("", voice) == []
  {
  }

  lemma ControlOutput(p: Numbers, m: Lex)
    requires m.Mark?
    ensures Output(Control(p, m)) == []
    ensures forall s :: s in Control(p, m) ==> !s.Spoken?
  {
    hide EffectOf, Clamp;
    if Control(p, m) != [] {
      assert Control(p, m)[1..] == [];
    }
  }

  lemma RunsFirst(rest: seq<string>, buffer: string)
    ensures HintFree([buffer] + rest) <==> !HasHint(Strip(buffer)) && HintFree(rest)
  {
    hide Strip, HasHint;
    var runs := [buffer] + rest;
    assert runs[0] == buffer;
    assert forall i :: 0 <= i < |rest| ==> runs[i+1] == rest[i];
    assert forall i :: 1 <= i < |runs| ==> runs[i] == rest[i-1];
  }

  /** Text and labels are kept: what is spoken, and how, is what was asked for. */
  lemma {:induction false} SegmentsKeepLabels(p: Numbers, lexes: seq<Lex>, buffer: string, st: State)
    requires HintFree(Runs(lexes, buffer))
    ensures Output(Segments(p, lexes, buffer, st)) == Labels(buffer, LabelOf(st)) + Asked(p, lexes, st)
    decreases |lexes|
  {
    hide Labels, Output, Flush, Source, EffectOf, After, Control, Unpron, Strip, HintFree, HasHint;
    if lexes == [] {
      OneRun(buffer);
      FlushOutput(buffer, st);
    } else {
      var x, rest := lexes[0], lexes[1..];
      if x.Chunk? {
        SegmentsKeepLabels(p, rest, buffer + x.text, st);
        LabelsConcat(buffer, x.text, LabelOf(st));
      } else if Flushes(x) {
        RunsFirst(Runs(rest, ""), buffer);
        SegmentsKeepLabels(p, rest, "", After(p, x, st));
        NoLabels(LabelOf(After(p, x, st)));
        FlushOutput(buffer, st);
        ControlOutput(p, x);
        OutputConcat(Flush(buffer, st) + Control(p, x), Segments(p, rest, "", After(p, x, st)));
        OutputConcat(Flush(buffer, st), Control(p, x));
      } else if EffectOf(x) == Unknown {
        SegmentsKeepLabels(p, rest, buffer + Source(x), st);
        LabelsConcat(buffer, Source(x), LabelOf(st));
      } else {
        SegmentsKeepLabels(p, rest, buffer, After(p, x, st));
        EmphasisKeepsLabel(p, x, st);
      }
    }
  }

  lemma OneRun(buffer: string)
    ensures HintFree([buffer]) <==> !HasHint(Strip(buffer))
  {
    hide Strip, HasHint;
    assert [buffer][0] == buffer;
  }

  lemma {:induction false} LabelsCount(s: string, voice: Voice)
    ensures |Labels(s, voice)| == |NonSpace(s)|
  {
    hide IsSpace;
    if s != "" {
      LabelsCount(s[1..], voice);
    }
  }

  /** Flushing never adds characters, and takes some away exactly when the stretch holds a hint. */
  lemma FlushCount(buffer: string, st: State)
    ensures |Output(Flush(buffer, st))| <= |Labels(buffer, LabelOf(st))|
    ensures HasHint(Strip(buffer)) ==> |Output(Flush(buffer, st))| < |Labels(buffer, LabelOf(st))|
  {
    hide Unpron, Strip, Labels, HasHint, NonSpace;
    var content := Strip(buffer);
    LabelsOfStrip(buffer, LabelOf(st));
    LabelsCount(content, LabelOf(st));
    LabelsCount(Unpron(content), LabelOf(st));
    UnpronShrinks(content);
    var segs := Flush(buffer, st);
    if segs != [] {
      assert segs[1..] == [];
    } else {
      NothingHasNoHint();
    }
  }

  /** The converse: whenever a flushed stretch holds a hint, characters are missing from the segments. */
  lemma {:induction false} SegmentsLoseLabels(p: Numbers, lexes: seq<Lex>, buffer: string, st: State)
    ensures |Output(Segments(p, lexes, buffer, st))| <= |Labels(buffer, LabelOf(st))| + |Asked(p, lexes, st)|
    ensures !HintFree(Runs(lexes, buffer)) ==>
              |Output(Segments(p, lexes, buffer, st))| < |Labels(buffer, LabelOf(st))| + |Asked(p, lexes, st)|
    decreases |lexes|
  {
    hide Labels, Output, Flush, Source, EffectOf, After, Control, Unpron, Strip, HintFree, HasHint;
    if lexes == [] {
      OneRun(buffer);
      FlushCount(buffer, st);
    } else {
      var x, rest := lexes[0], lexes[1..];
      if x.Chunk? {
        SegmentsLoseLabels(p, rest, buffer + x.text, st);
        LabelsConcat(buffer, x.text, LabelOf(st));
      } else if Flushes(x) {
        RunsFirst(Runs(rest, ""), buffer);
        SegmentsLoseLabels(p, rest, "", After(p, x, st));
        NoLabels(LabelOf(After(p, x, st)));
        FlushCount(buffer, st);
        ControlOutput(p, x);
        OutputConcat(Flush(buffer, st) + Control(p, x), Segments(p, rest, "", After(p, x, st)));
        OutputConcat(Flush(buffer, st), Control(p, x));
      } else if EffectOf(x) == Unknown {
        SegmentsLoseLabels(p, rest, buffer + Source(x), st);
        LabelsConcat(buffer, Source(x), LabelOf(st));
      } else {
        SegmentsLoseLabels(p, rest, buffer, After(p, x, st));
        EmphasisKeepsLabel(p, x, st);
      }
    }
  }

  lemma EmphasisKeepsLabel(p: Numbers, m: Lex, st: State)
    requires m.Mark? && !Flushes(m)
    ensures LabelOf(After(p, m, st)) == LabelOf(st)
  {
    hide EffectOf;
  }

  lemma {:induction false} MergeKeepsLabels(merged: seq<Segment>, segs: seq<Segment>)
    ensures Output(MergeAll(merged, segs)) == Output(merged) + Output(segs)
    decreases |segs|
  {
    hide Labels, MergeOne;
    if segs != [] {
      MergeKeepsLabels(MergeOne(merged, segs[0]), segs[1..]);
      MergeOneLabels(merged, segs[0]);
      OutputConcat([segs[0]], segs[1..]);
      assert [segs[0]] + segs[1..] == segs;
    }
  }

  lemma MergeOneLabels(merged: seq<Segment>, seg: Segment)
    ensures Output(MergeOne(merged, seg)) == Output(merged) + Output([seg])
  {
    hide Labels, Output;
    if merged != [] && Mergeable(merged[|merged|-1], seg) {
      var init, last := merged[..|merged|-1], merged[|merged|-1];
      assert merged == init + [last];
      var joined := last.(content := last.content + " " + seg.content);
      OutputConcat(init, [last]);
      OutputConcat(init, [joined]);
      OutputOne(last);
      OutputOne(seg);
      OutputOne(joined);
      var voice := Voice(seg.speaker, seg.emotion, seg.rate);
      LabelsConcat(last.content + " ", seg.content, voice);
      LabelsConcat(last.content, " ", voice);
      BlankHasNoLabels(" ", voice);
    } else {
      OutputConcat(merged, [seg]);
    }
  }

  lemma OutputOne(seg: Segment)
    ensures Output([seg]) == if seg.Spoken? then Labels(seg.content, Voice(seg.speaker, seg.emotion, seg.rate)) else []
  {
    hide Labels;
    assert [seg][1..] == [];
  }

  // ---------- no mergeable neighbours, controls in order, pauses in range ----------

  predicate Settled(segs: seq<Segment>) {
    forall i :: 0 <= i < |segs| - 1 ==> !Mergeable(segs[i], segs[i+1])
  }

  lemma {:induction false} MergeSettles(merged: seq<Segment>, segs: seq<Segment>)
    requires Settled(merged)
    ensures Settled(MergeAll(merged, segs))
    decreases |segs|
  {
    hide MergeOne, Settled;
    if segs != [] {
      MergeOneSettles(merged, segs[0]);
      MergeSettles(MergeOne(merged, segs[0]), segs[1..]);
    }
  }

  lemma MergeOneSettles(merged: seq<Segment>, seg: Segment)
    requires Settled(merged)
    ensures Settled(MergeOne(merged, seg))
  {
    var result := MergeOne(merged, seg);
    forall i | 0 <= i < |result| - 1
      ensures !Mergeable(result[i], result[i+1])
    {
      if i < |merged| - 1 {
        assert !Mergeable(merged[i], merged[i+1]);
      }
    }
  }

  function Controls(segs: seq<Segment>): seq<Segment> {
    if segs == [] then [] else (if segs[0].Spoken? then [] else [segs[0]]) + Controls(segs[1..])
  }

  /** The pauses, scene breaks and speaker changes that the tags ask for. */
  function AskedControls(p: Numbers, lexes: seq<Lex>): seq<Segment> {
    if lexes == [] then []
    else (if lexes[0].Mark? then Control(p, lexes[0]) else []) + AskedControls(p, lexes[1..])
  }

  lemma {:induction false} ControlsConcat(a: seq<Segment>, b: seq<Segment>)
    ensures Controls(a + b) == Controls(a) + Controls(b)
  {
    if a == [] {
      assert a + b == b;
    } else {
      assert (a + b)[1..] == a[1..] + b;
      ControlsConcat(a[1..], b);
    }
  }

  lemma ControlIsControl(p: Numbers, m: Lex)
    requires m.Mark?
    ensures Controls(Control(p, m)) == Control(p, m)
    ensures !Flushes(m) ==> Control(p, m) == []
  {
    hide EffectOf, Clamp;
    if Control(p, m) != [] {
      assert Control(p, m)[1..] == [];
    }
  }

  lemma FlushHasNoControls(buffer: string, st: State)
    ensures Controls(Flush(buffer, st)) == []
  {
    hide Unpron, Strip;
    if Flush(buffer, st) != [] {
      assert Flush(buffer, st)[1..] == [];
    }
  }

  lemma {:induction false} SegmentsKeepControls(p: Numbers, lexes: seq<Lex>, buffer: string, st: State)
    ensures Controls(Segments(p, lexes, buffer, st)) == AskedControls(p, lexes)
    decreases |lexes|
  {
    hide Flush, Source, EffectOf, After, Control, Controls;
    if lexes == [] {
      FlushHasNoControls(buffer, st);
    } else {
      var x, rest := lexes[0], lexes[1..];
      if x.Chunk? {
        SegmentsKeepControls(p, rest, buffer + x.text, st);
      } else {
        ControlIsControl(p, x);
        if Flushes(x) {
          SegmentsKeepControls(p, rest, "", After(p, x, st));
          FlushHasNoControls(buffer, st);
          ControlsConcat(Flush(buffer, st) + Control(p, x), Segments(p, rest, "", After(p, x, st)));
          ControlsConcat(Flush(buffer, st), Control(p, x));
        } else if EffectOf(x) == Unknown {
          SegmentsKeepControls(p, rest, buffer + Source(x), st);
        } else {
          SegmentsKeepControls(p, rest, buffer, After(p, x, st));
        }
      }
    }
  }

  lemma {:induction false} MergeKeepsControls(merged: seq<Segment>, segs: seq<Segment>)
    ensures Controls(MergeAll(merged, segs)) == Controls(merged) + Controls(segs)
    decreases |segs|
  {
    hide MergeOne, Mergeable;
    if segs != [] {
      MergeKeepsControls(MergeOne(merged, segs[0]), segs[1..]);
      MergeOneControls(merged, segs[0]);
      ControlsConcat([segs[0]], segs[1..]);
      assert [segs[0]] + segs[1..] == segs;
    }
  }

  lemma MergeOneControls(merged: seq<Segment>, seg: Segment)
    ensures Controls(MergeOne(merged, seg)) == Controls(merged) + Controls([seg])
  {
    hide Controls;
    if merged != [] && Mergeable(merged[|merged|-1], seg) {
      var init, last := merged[..|merged|-1], merged[|merged|-1];
      assert merged == init + [last];
      var joined := last.(content := last.content + " " + seg.content);
      ControlsConcat(init, [last]);
      ControlsConcat(init, [joined]);
      ControlsOne(last);
      ControlsOne(seg);
      ControlsOne(joined);
    } else {
      ControlsConcat(merged, [seg]);
    }
  }

  lemma ControlsOne(seg: Segment)
    ensures Controls([seg]) == if seg.Spoken? then [] else [seg]
  {
    assert [seg][1..] == [];
  }

  lemma {:induction false} AskedPausesInRange(p: Numbers, lexes: seq<Lex>)
    ensures forall s :: s in AskedControls(p, lexes) ==>
              (s.PauseFor? || s.SceneBreak? ==> 0 <= s.ms <= 10000) && !s.Spoken?
  {
    hide EffectOf;
    if lexes != [] {
      AskedPausesInRange(p, lexes[1..]);
    }
  }

  lemma {:induction false} ControlsHoldAll(segs: seq<Segment>)
    ensures forall s :: s in segs && !s.Spoken? ==> s in Controls(segs)
  {
    if segs != [] {
      ControlsHoldAll(segs[1..]);
      forall s | s in segs && !s.Spoken?
        ensures s in Controls(segs)
      {
        if s != segs[0] { assert s in segs[1..]; }
      }
    }
  }

  // ---------- the result ----------

  /** `parse_tagged_text` keeps text and labels exactly on the texts whose flushed stretches hold no hint;
      always, no two neighbours could still be merged, the control segments are those the tags ask
      for, in order, and every pause lies in 0..10000. */
  lemma ParsingKeepsTextAndLabels(p: Numbers, text: string, speaker: string)
    ensures
      var lexes := Lexes(Unpron(text));
      Output(Parsed(p, text, speaker)) == Asked(p, lexes, Start(speaker)) <==> HintFree(Runs(lexes, ""))
    ensures Settled(Parsed(p, text, speaker))
    ensures Controls(Parsed(p, text, speaker)) == AskedControls(p, Lexes(Unpron(text)))
    ensures forall s :: s in Parsed(p, text, speaker) && (s.PauseFor? || s.SceneBreak?) ==> 0 <= s.ms <= 10000
  {
    hide Lexes, Unpron, Segments, MergeAll, Runs, Controls, Asked, AskedControls, Mergeable, HintFree;
    var lexes := Lexes(Unpron(text));
    var segs := Segments(p, lexes, "", Start(speaker));
    MergeKeepsLabels([], segs);
    NoLabels(LabelOf(Start(speaker)));
    SegmentsLoseLabels(p, lexes, "", Start(speaker));
    if HintFree(Runs(lexes, "")) {
      SegmentsKeepLabels(p, lexes, "", Start(speaker));
    }
    MergeSettles([], segs);
    MergeKeepsControls([], segs);
    NoSegments();
    SegmentsKeepControls(p, lexes, "", Start(speaker));
    AskedPausesInRange(p, lexes);
    ControlsHoldAll(Parsed(p, text, speaker));
  }

  lemma NoSegments()
    ensures Controls([]) == []
  {
  }

  predicate NoSlash(lexes: seq<Lex>) {
    forall i :: 0 <= i < |lexes| ==>
      if lexes[i].Chunk? then '/' !in lexes[i].text
      else '/' !in lexes[i].name && (lexes[i].value.Some? ==> '/' !in lexes[i].value.value)
  }

  lemma {:induction false} RunsWithoutSlash(lexes: seq<Lex>, buffer: string)
    requires NoSlash(lexes) && '/' !in buffer
    ensures forall i :: 0 <= i < |Runs(lexes, buffer)| ==> '/' !in Runs(lexes, buffer)[i]
    decreases |lexes|
  {
    hide EffectOf;
    if lexes != [] {
      var x, rest := lexes[0], lexes[1..];
      assert NoSlash(rest);
      if x.Chunk? {
        RunsWithoutSlash(rest, buffer + x.text);
      } else if Flushes(x) {
        RunsWithoutSlash(rest, "");
      } else if EffectOf(x) == Unknown {
        RunsWithoutSlash(rest, buffer + Source(x));
      } else {
        RunsWithoutSlash(rest, buffer);
      }
    }
  }

  lemma MarkWithoutSlash(s: string)
    requires MarkAt(s).Some? && '/' !in s
    ensures NoSlash([MarkAt(s).value.0])
  {
    hide Word;
  }

  lemma {:induction false} LexesWithoutSlash(s: string)
    requires '/' !in s
    ensures NoSlash(Lexes(s))
    decreases |s|
  {
    hide MarkAt, FindMark;
    if s != "" {
      var i := FindMark(s);
      if i < |s| {
        var (m, n) := MarkAt(s[i..]).value;
        MarkWithoutSlash(s[i..]);
        LexesWithoutSlash(s[i+n..]);
        assert NoSlash([m]) && [m][0] == m;
      }
    }
  }

  /** In particular text and labels are kept whenever the text has no slash. */
  lemma NoSlashKeepsTextAndLabels(p: Numbers, text: string, speaker: string)
    requires '/' !in text
    ensures Unpron(text) == text
    ensures Output(Parsed(p, text, speaker)) == Asked(p, Lexes(text), Start(speaker))
  {
    hide Lexes, Segments, MergeAll, Asked, Unpron, Parsed, Controls, AskedControls;
    NoSlashNoHint(text);
    LexesWithoutSlash(text);
    RunsWithoutSlash(Lexes(text), "");
    var runs := Runs(Lexes(text), "");
    forall i | 0 <= i < |runs|
      ensures !HasHint(Strip(runs[i]))
    {
      StripWithoutSlash(runs[i]);
      NoSlashHasNoHint(Strip(runs[i]));
    }
    assert HintFree(runs);
    ParsingKeepsTextAndLabels(p, text, speaker);
  }

  lemma NoSlashHasNoHint(s: string)
    requires '/' !in s
    ensures !HasHint(s)
  {
    hide PronAt;
    forall i | 0 <= i < |s|
      ensures PronAt(s[i..]).None?
    {
      if PronAt(s[i..]).Some? { HintHasSlash(s[i..]); }
    }
  }

  lemma StripWithoutSlash(s: string)
    requires '/' !in s
    ensures '/' !in Strip(s)
  {
    hide Strip, IsSpace;
    var a, b := StripSplits(s);
    forall i | 0 <= i < |Strip(s)|
      ensures Strip(s)[i] != '/'
    {
      assert s[|a|+i] == Strip(s)[i];
    }
  }

  lemma HintFound()
    ensures PronAt("[pron:a]b[/pron]") == Some((8, 9))
  {
    hide IndexOf, Find;
    var s := "[pron:a]b[/pron]";
    assert PRON_OPEN <= s;
    assert s[6..] == "a" + [']'] + "b[/pron]";
    IndexOfFirst("a", ']', "b[/pron]");
    CloseFound();
    assert s[8..] == "b[/pron]" && s[8..9] == "b";
  }

  lemma CloseFound()
    ensures Find("b[/pron]", PRON_CLOSE) == 1
  {
    var s := "b[/pron]";
    assert s[0] != PRON_CLOSE[0];
    assert s[1..] == PRON_CLOSE;
  }

  lemma HintRemoved()
    ensures Unpron("[pron:a]b[/pron]") == "b" && HasHint("[pron:a]b[/pron]")
  {
    hide PronAt;
    HintFound();
    var s := "[pron:a]b[/pron]";
    assert s[8..9] == "b" && s[16..] == "" && s[0..] == s;
  }

  /** A text no part of which starts like a hint has none. */
  lemma NoHintStart(s: string)
    requires forall i :: 0 <= i < |s| ==> !(PRON_OPEN <= s[i..])
    ensures !HasHint(s)
  {
    hide Find, IndexOf;
  }

  /** A text in three parts, from its end. */
  const AFTER_TAG := "on:a]b[/pron]"
  const FROM_TAG := "[" + "emphasis" + "]" + AFTER_TAG
  const ACROSS := "[" + ("pr[" + "emphasis") + "]" + AFTER_TAG

  lemma AcrossReads()
    ensures ACROSS == "[pr[emphasis]on:a]b[/pron]"
  {
    assert "pr[" + "emphasis" == "pr[emphasis";
    assert "[" + "pr[emphasis" + "]" == "[pr[emphasis]";
  }

  lemma AcrossHasNoHint()
    ensures Unpron(ACROSS) == ACROSS
  {
    hide Unpron, HasHint;
    forall i | 0 <= i < |ACROSS|
      ensures !(PRON_OPEN <= ACROSS[i..])
    {
      assert ACROSS[i..][0] == ACROSS[i];
      if i + 3 < |ACROSS| { assert ACROSS[i..][3] == ACROSS[i+3]; }
    }
    NoHintStart(ACROSS);
    UnpronShrinks(ACROSS);
  }

  lemma NotMarkAt(s: string)
    requires s != "" && s[0] != '['
    ensures MarkAt(s).None?
  {
  }

  /** The tag that `body` in brackets is, at the front of a text. */
  lemma MarkInBrackets(body: string, rest: string)
    requires ']' !in body
    ensures MarkAt("[" + body + "]" + rest)
            == match MarkOf(body) case Some(m) => Some((m, |body| + 2)) case None => None
  {
    hide IndexOf, MarkOf;
    var s := "[" + body + "]" + rest;
    assert s[1..] == body + [']'] + rest;
    IndexOfFirst(body, ']', rest);
    assert s[1..|body|+1] == body;
  }

  lemma {:induction false} NoMarkBefore(a: string, b: string)
    requires '[' !in a
    ensures FindMark(a + b) == |a| + FindMark(b)
  {
    hide MarkAt;
    if a == "" {
      assert a + b == b;
    } else {
      NotMarkAt(a + b);
      assert (a + b)[1..] == a[1..] + b;
      NoMarkBefore(a[1..], b);
    }
  }

  lemma NoMarkHere(s: string)
    requires s != "" && MarkAt(s).None?
    ensures FindMark(s) == 1 + FindMark(s[1..])
  {
    hide MarkAt;
  }

  lemma MarkHere(s: string)
    requires s != "" && MarkAt(s).Some?
    ensures FindMark(s) == 0
  {
    hide MarkAt;
  }

  lemma AcrossParts()
    ensures ACROSS[1..] == "pr" + FROM_TAG
    ensures ACROSS[3..] == FROM_TAG && ACROSS[0..] == ACROSS && ACROSS[0..3] == "[pr" && ACROSS[13..] == AFTER_TAG
  {
    var body := "pr[" + "emphasis";
    assert |body| == 11 && body[0] == 'p' && body[1] == 'r' && body[2] == '[' && body[3..] == "emphasis";
  }

  /** In the text the first tag is at 3. */
  lemma AcrossMark()
    ensures FindMark(ACROSS) == 3 && MarkAt(ACROSS[3..]) == Some((Mark("emphasis", None), 10))
  {
    hide MarkAt, FindMark, MarkOf, Word, IndexOf, AFTER_TAG;
    AcrossParts();
    MarkInBrackets("pr[" + "emphasis", AFTER_TAG);
    BracketIsNoWord();
    NoMarkHere(ACROSS);
    MarkInBrackets("emphasis", AFTER_TAG);
    EmphasisIsWord();
    MarkHere(FROM_TAG);
    NoMarkBefore("pr", FROM_TAG);
  }

  lemma BracketIsNoWord()
    ensures MarkOf("pr[" + "emphasis").None?
  {
    var body := "pr[" + "emphasis";
    assert body[2] == '[';
    NoColonNoWord(body);
  }

  lemma EmphasisIsWord()
    ensures MarkOf("emphasis") == Some(Mark("emphasis", None))
  {
    hide IndexOf;
    assert Word("emphasis");
  }

  /** And after it there is none. */
  lemma AcrossTail()
    ensures Lexes("on:a]b[/pron]") == [Chunk("on:a]b[/pron]")]
  {
    hide MarkAt, FindMark;
    var tail := "on:a]b" + "[/pron]";
    assert tail == "on:a]b[/pron]";
    NoMarkBefore("on:a]b", "[/pron]");
    CloseIsNoMark();
  }

  lemma CloseIsNoMark()
    ensures FindMark("[/pron]") == 7
  {
    hide MarkAt, FindMark, MarkOf;
    var s := "[/pron]";
    assert s == "[" + "/pron" + "]" + "";
    MarkInBrackets("/pron", "");
    SlashIsNoWord();
    NoMarkHere(s);
    assert s[1..] == "/pron]" + "";
    NoMarkBefore("/pron]", "");
    NoMarkInNothing();
  }

  lemma SlashIsNoWord()
    ensures MarkOf("/pron").None?
  {
    assert "/pron"[0] == '/';
    NoColonNoWord("/pron");
  }

  lemma NoMarkInNothing()
    ensures FindMark("") == 0
  {
  }

  lemma AcrossLexes()
    ensures Lexes(ACROSS) == [Chunk("[pr"), Mark("emphasis", None), Chunk("on:a]b[/pron]")]
  {
    hide MarkAt, Lexes, FindMark, IndexOf, MarkOf;
    AcrossMark();
    AcrossTail();
    AcrossParts();
    LexesFrom(ACROSS, 0, 3);
  }

  lemma NoColonNoWord(body: string)
    requires ':' !in body && !Word(body)
    ensures MarkOf(body).None?
  {
  }

  lemma AcrossSegments(p: Numbers, st: State)
    ensures
      var lexes := [Chunk("[pr"), Mark("emphasis", None), Chunk("on:a]b[/pron]")];
      && Runs(lexes, "") == ["[pron:a]b[/pron]"]
      && Segments(p, lexes, "", st) == [Spoken("b", st.speaker, st.emotion, st.rate, true, st.tags)]
  {
    hide Strip, Unpron, HasHint, PronAt;
    var last := [Chunk("on:a]b[/pron]")];
    var lexes := [Chunk("[pr"), Mark("emphasis", None)] + last;
    var run := "[pron:a]b[/pron]";
    assert lexes[1..] == [Mark("emphasis", None)] + last && lexes[1..][1..] == last && last[1..] == [];
    assert "" + "[pr" == "[pr" && "[pr" + "on:a]b[/pron]" == run;
    assert EffectOf(Mark("emphasis", None)) == SetEmphasis;
    HintRemoved();
    RunIsStripped();
    assert Runs(last, "[pr") == [run] && Runs(lexes[1..], "[pr") == [run];
  }

  /** The condition is needed: in this text, which itself holds no hint, dropping the emphasis tag
      completes one, and the parser keeps the word of it only. */
  lemma HintAcrossEmphasis(p: Numbers, speaker: string)
    ensures ACROSS == "[pr[emphasis]on:a]b[/pron]"
    ensures Unpron(ACROSS) == ACROSS && Runs(Lexes(ACROSS), "") == ["[pron:a]b[/pron]"]
    ensures Parsed(p, ACROSS, speaker) == [Spoken("b", speaker, None, 1.0, true, [])]
    ensures Output(Parsed(p, ACROSS, speaker)) != Asked(p, Lexes(ACROSS), Start(speaker))
  {
    hide Strip, Unpron, Lexes, MergeAll, Segments, Runs, Asked, Output, Controls, AskedControls, HasHint, Settled,
        HintFree;
    AcrossReads();
    AcrossHasNoHint();
    AcrossLexes();
    AcrossSegments(p, Start(speaker));
    OneSegmentStays(Spoken("b", speaker, None, 1.0, true, []));
    HintRemoved();
    RunIsStripped();
    OneRun("[pron:a]b[/pron]");
    ParsingKeepsTextAndLabels(p, ACROSS, speaker);
  }

  lemma OneSegmentStays(seg: Segment)
    ensures MergeAll([], [seg]) == [seg]
  {
    assert [seg][1..] == [] && [] + [seg] == [seg];
  }

  lemma RunIsStripped()
    ensures Strip("[pron:a]b[/pron]") == "[pron:a]b[/pron]" && "[pron:a]b[/pron]" != "b"
  {
    var run := "[pron:a]b[/pron]";
    assert !IsSpace(run[0]) && !IsSpace(run[|run|-1]);
  }

  lemma LastChunk(s: string)
    requires s != "" && '[' !in s
    ensures Lexes(s) == [Chunk(s)]
  {
    hide MarkAt, FindMark;
    NoMarkBefore(s, "");
    NoMarkInNothing();
    assert s + "" == s && s[0..] == s;
  }

  /** A text that starts with a tag. */
  lemma LexFirst(body: string, rest: string, m: Lex)
    requires ']' !in body && MarkOf(body) == Some(m)
    ensures Lexes("[" + body + "]" + rest) == [m] + Lexes(rest)
  {
    hide MarkAt, FindMark, MarkOf, Lexes;
    var s := "[" + body + "]" + rest;
    MarkInBrackets(body, rest);
    MarkHere(s);
    assert s[0..] == s && s[|body|+2..] == rest;
    LexesFrom(s, 0, 0);
  }

  lemma LetterFlushes(c: char, st: State)
    requires !IsSpace(c) && c != '/'
    ensures Flush([c], st) == [Spoken([c], st.speaker, st.emotion, st.rate, st.emphasis, st.tags)]
  {
    hide Unpron;
    NoSlashNoHint([c]);
  }
}
