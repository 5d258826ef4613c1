/** What becomes of `[emphasis]`, promised as word stress on the next word
    (backend/pipeline/agents/prosody_planner.py:55): the parser sets a flag that it never clears
    (backend/pipeline/prosody_parser.py:54-73, 141-142), so whole stretches are stressed, and all that follow. */
module ProsodyEmphasis {
  import opened Wrappers
  import opened Text
  import opened ProsodyParser
  import opened SsmlTokens

  // ---------- a parser that takes the flag back ----------

  /** The state after a flush, had the flag been cleared once something was spoken with it. */
  function Spent(buffer: string, st: State): State {
    if Strip(buffer) == "" then st else st.(emphasis := false)
  }

  function Resetting(p: Numbers, lexes: seq<Lex>, buffer: string, st: State): seq<Segment>
    decreases |lexes|
  {
    if lexes == [] then Flush(buffer, st)
    else
      var x := lexes[0];
      if x.Chunk? then Resetting(p, lexes[1..], buffer + x.text, st)
      else if Flushes(x) then
        Flush(buffer, st) + Control(p, x) + Resetting(p, lexes[1..], "", After(p, x, Spent(buffer, st)))
      else if EffectOf(x) == Unknown then Resetting(p, lexes[1..], buffer + Source(x), st)
      else Resetting(p, lexes[1..], buffer, After(p, x, st))
  }

  function ParsedResetting(p: Numbers, text: string, speaker: string): seq<Segment> {
    MergeAll([], Resetting(p, Lexes(Unpron(text)), "", Start(speaker)))
  }

  /** Once a tag was seen (`seen`), every stretch with text has a tag of its own (`own`), in it or in the blank
      stretches before it. */
  predicate OwnTags(lexes: seq<Lex>, buffer: string, seen: bool, own: bool)
    decreases |lexes|
  {
    if lexes == [] then Strip(buffer) == "" || !seen || own
    else
      var x := lexes[0];
      if x.Chunk? then OwnTags(lexes[1..], buffer + x.text, seen, own)
      else if Flushes(x) then
        if Strip(buffer) == "" then OwnTags(lexes[1..], "", seen, own)
        else (!seen || own) && OwnTags(lexes[1..], "", seen, false)
      else if EffectOf(x) == Unknown then OwnTags(lexes[1..], buffer + Source(x), seen, own)
      else OwnTags(lexes[1..], buffer, true, true)
  }

  function StressedCount(segs: seq<Segment>): nat {
    if segs == [] then 0
    else (if segs[0].Spoken? && segs[0].emphasis then 1 else 0) + StressedCount(segs[1..])
  }

  lemma {:induction false} StressedConcat(a: seq<Segment>, b: seq<Segment>)
    ensures StressedCount(a + b) == StressedCount(a) + StressedCount(b)
  {
    if a == [] {
      assert a + b == b;
    } else {
      assert (a + b)[1..] == a[1..] + b;
      StressedConcat(a[1..], b);
    }
  }

  lemma StressedOne(seg: Segment)
    ensures StressedCount([seg]) == if seg.Spoken? && seg.emphasis then 1 else 0
  {
    assert [seg][1..] == [];
  }

  /** Stressed segments are never merged. */
  lemma {:induction false} MergeKeepsStressedCount(merged: seq<Segment>, segs: seq<Segment>)
    ensures StressedCount(MergeAll(merged, segs)) == StressedCount(merged) + StressedCount(segs)
    decreases |segs|
  {
    hide StressedCount;
    if segs == [] {
      NoneStressed();
    } else {
      var seg := segs[0];
      MergeKeepsStressedCount(MergeOne(merged, seg), segs[1..]);
      assert segs == [seg] + segs[1..];
      StressedConcat([seg], segs[1..]);
      StressedOne(seg);
      if merged != [] && Mergeable(merged[|merged|-1], seg) {
        var init, last := merged[..|merged|-1], merged[|merged|-1];
        var joined := last.(content := last.content + " " + seg.content);
        assert merged == init + [last];
        StressedConcat(init, [last]);
        StressedConcat(init, [joined]);
        StressedOne(last);
        StressedOne(joined);
      } else {
        StressedConcat(merged, [seg]);
      }
    }
  }

  lemma NoneStressed()
    ensures StressedCount([]) == 0
  {
  }

  lemma FlushStressed(buffer: string, st: State)
    ensures StressedCount(Flush(buffer, st)) == if Strip(buffer) != "" && st.emphasis then 1 else 0
  {
    hide Strip, Unpron, StressedCount;
    if Strip(buffer) == "" {
      NoneStressed();
    } else {
      StressedOne(Flush(buffer, st)[0]);
    }
  }

  lemma FlushUnstressed(buffer: string, st: State, own: bool)
    requires Strip(buffer) == "" || st.emphasis == own
    ensures Flush(buffer, st.(emphasis := own)) == Flush(buffer, st)
  {
    hide Strip, Unpron;
  }

  lemma AfterKeepsFlag(p: Numbers, m: Lex, st: State, own: bool)
    requires m.Mark?
    ensures EffectOf(m) != SetEmphasis ==>
              After(p, m, st).emphasis == st.emphasis
                  && After(p, m, st.(emphasis := own)) == After(p, m, st).(emphasis := own)
    ensures EffectOf(m) == SetEmphasis ==>
              After(p, m, st).emphasis && After(p, m, st.(emphasis := own)) == After(p, m, st)
  {
    hide EffectOf;
  }

  /** The two parsers side by side: they agree when every stretch has its own tag, and otherwise the one
      that never clears the flag stresses more. */
  lemma {:induction false} SegmentsOrResetting(p: Numbers, lexes: seq<Lex>, buffer: string, st: State, own: bool)
    requires own ==> st.emphasis
    ensures
      var actual, reset := Segments(p, lexes, buffer, st), Resetting(p, lexes, buffer, st.(emphasis := own));
      && (OwnTags(lexes, buffer, st.emphasis, own) ==> actual == reset)
      && StressedCount(reset) <= StressedCount(actual)
      && (!OwnTags(lexes, buffer, st.emphasis, own) ==> StressedCount(reset) < StressedCount(actual))
    decreases |lexes|
  {
    hide Flush, Source, EffectOf, After, Control, StressedCount, Strip;
    var other := st.(emphasis := own);
    FlushStressed(buffer, st);
    FlushStressed(buffer, other);
    if Strip(buffer) == "" || st.emphasis == own {
      FlushUnstressed(buffer, st, own);
    }
    if lexes != [] {
      var x, rest := lexes[0], lexes[1..];
      if x.Chunk? {
        SegmentsOrResetting(p, rest, buffer + x.text, st, own);
      } else {
        AfterKeepsFlag(p, x, st, own);
        if Flushes(x) {
          var left := own && Strip(buffer) == "";
          AfterKeepsFlag(p, x, st, left);
          assert Spent(buffer, other) == st.(emphasis := left);
          SegmentsOrResetting(p, rest, "", After(p, x, st), left);
          var a, b := Segments(p, rest, "", After(p, x, st)), Resetting(p, rest, "", After(p, x, Spent(buffer, other)));
          StressedConcat(Flush(buffer, st) + Control(p, x), a);
          StressedConcat(Flush(buffer, st), Control(p, x));
          StressedConcat(Flush(buffer, other) + Control(p, x), b);
          StressedConcat(Flush(buffer, other), Control(p, x));
        } else if EffectOf(x) == Unknown {
          SegmentsOrResetting(p, rest, buffer + Source(x), st, own);
        } else {
          SegmentsOrResetting(p, rest, buffer, After(p, x, st), true);
        }
      }
    }
  }

  /** The flag that is never cleared makes no difference exactly on the texts in which, once a stretch is
      stressed, every later stretch has a tag of its own. */
  lemma ClearingMattersUnlessTagged(p: Numbers, text: string, speaker: string)
    ensures Parsed(p, text, speaker) == ParsedResetting(p, text, speaker)
            <==> OwnTags(Lexes(Unpron(text)), "", false, false)
  {
    hide Segments, Resetting, OwnTags, Lexes, Unpron, StressedCount, MergeAll;
    var lexes, st := Lexes(Unpron(text)), Start(speaker);
    SegmentsOrResetting(p, lexes, "", st, false);
    MergeKeepsStressedCount([], Segments(p, lexes, "", st));
    MergeKeepsStressedCount([], Resetting(p, lexes, "", st));
    assert st.(emphasis := false) == st;
  }

  // ---------- word by word ----------

  /** The stress of what will be spoken, one flag for each non-space character. */
  function Stress(segs: seq<Segment>): seq<bool> {
    if segs == [] then []
    else (if segs[0].Spoken? then seq(|NonSpace(segs[0].content)|, _ => segs[0].emphasis) else []) + Stress(segs[1..])
  }

  /** Where a reader of the tags is: a tag waits for its word, or its word is under way. */
  datatype Reader = Reader(waiting: bool, inWord: bool)

  function Reads(s: string, r: Reader): Reader {
    if s == "" then r else Reads(s[1..], if IsSpace(s[0]) then r.(inWord := false)
        else Reader(false, r.waiting || r.inWord))
  }

  /** The stress promised to each non-space character of s: that of the word after a tag. */
  function WantedOf(s: string, r: Reader): seq<bool> {
    if s == "" then []
    else if IsSpace(s[0]) then WantedOf(s[1..], r.(inWord := false))
    else [r.waiting || r.inWord] + WantedOf(s[1..], Reader(false, r.waiting || r.inWord))
  }

  function Wanted(lexes: seq<Lex>, r: Reader): seq<bool>
    decreases |lexes|
  {
    if lexes == [] then []
    else
      var x := lexes[0];
      if x.Chunk? then WantedOf(x.text, r) + Wanted(lexes[1..], Reads(x.text, r))
      else if Flushes(x) then Wanted(lexes[1..], r.(inWord := false))
      else if EffectOf(x) == Unknown then WantedOf(Source(x), r) + Wanted(lexes[1..], Reads(Source(x), r))
      else Wanted(lexes[1..], r.(waiting := true))
  }

  /** In the first stretch with a tag, and in every one after it, each word follows a tag of its own.
      `plain` says that the stretch under way has a word without one. */
  predicate EveryWordTagged(lexes: seq<Lex>, plain: bool, seen: bool, r: Reader)
    decreases |lexes|
  {
    if lexes == [] then !(seen && plain)
    else
      var x := lexes[0];
      if x.Chunk? then EveryWordTagged(lexes[1..], plain || false in WantedOf(x.text, r), seen, Reads(x.text, r))
      else if Flushes(x) then !(seen && plain) && EveryWordTagged(lexes[1..], false, seen, r.(inWord := false))
      else if EffectOf(x) == Unknown then
        EveryWordTagged(lexes[1..], plain || false in WantedOf(Source(x), r), seen, Reads(Source(x), r))
      else EveryWordTagged(lexes[1..], plain, true, r.(waiting := true))
  }

  function Rep(n: nat, b: bool): seq<bool> {
    seq(n, _ => b)
  }

  lemma {:induction false} StressConcat(a: seq<Segment>, b: seq<Segment>)
    ensures Stress(a + b) == Stress(a) + Stress(b)
  {
    if a == [] {
      assert a + b == b;
    } else {
      assert (a + b)[1..] == a[1..] + b;
      StressConcat(a[1..], b);
    }
  }

  lemma StressOne(seg: Segment)
    ensures Stress([seg]) == if seg.Spoken? then Rep(|NonSpace(seg.content)|, seg.emphasis) else []
  {
    hide NonSpace;
    assert [seg][1..] == [];
  }

  lemma NoStress()
    ensures Stress([]) == []
  {
  }

  /** Merging changes no character's stress. */
  lemma {:induction false} MergeKeepsStress(merged: seq<Segment>, segs: seq<Segment>)
    ensures Stress(MergeAll(merged, segs)) == Stress(merged) + Stress(segs)
    decreases |segs|
  {
    hide Stress, NonSpace, MergeOne;
    if segs == [] {
      NoStress();
    } else {
      var seg := segs[0];
      MergeKeepsStress(MergeOne(merged, seg), segs[1..]);
      MergeOneStress(merged, seg);
      assert segs == [seg] + segs[1..];
      StressConcat([seg], segs[1..]);
    }
  }

  lemma MergeOneStress(merged: seq<Segment>, seg: Segment)
    ensures Stress(MergeOne(merged, seg)) == Stress(merged) + Stress([seg])
  {
    hide Stress, NonSpace;
    if merged != [] && Mergeable(merged[|merged|-1], seg) {
      var init, last := merged[..|merged|-1], merged[|merged|-1];
      var joined := last.(content := last.content + " " + seg.content);
      assert merged == init + [last];
      StressConcat(init, [last]);
      StressConcat(init, [joined]);
      StressOne(last);
      StressOne(seg);
      StressOne(joined);
      NonSpaceConcat(last.content + " ", seg.content);
      NonSpaceConcat(last.content, " ");
      NonSpaceOfBlank(" ");
    } else {
      StressConcat(merged, [seg]);
    }
  }

  lemma {:induction false} WantedOfCount(s: string, r: Reader)
    ensures |WantedOf(s, r)| == |NonSpace(s)|
    ensures !r.waiting && !r.inWord ==> true !in WantedOf(s, r) && !Reads(s, r).waiting && !Reads(s, r).inWord
  {
    hide IsSpace;
    if s != "" {
      WantedOfCount(s[1..], if IsSpace(s[0]) then r.(inWord := false) else Reader(false, r.waiting || r.inWord));
    }
  }

  lemma {:induction false} WantedCount(p: Numbers, lexes: seq<Lex>, r: Reader, st: State)
    ensures |Wanted(lexes, r)| == |Asked(p, lexes, st)|
    decreases |lexes|
  {
    hide EffectOf, After, Source, Labels, WantedOf, Reads, NonSpace;
    if lexes != [] {
      var x, rest := lexes[0], lexes[1..];
      if x.Chunk? {
        WantedOfCount(x.text, r);
        LabelsCount(x.text, LabelOf(st));
        WantedCount(p, rest, Reads(x.text, r), st);
      } else if Flushes(x) {
        WantedCount(p, rest, r.(inWord := false), After(p, x, st));
      } else if EffectOf(x) == Unknown {
        WantedOfCount(Source(x), r);
        LabelsCount(Source(x), LabelOf(st));
        WantedCount(p, rest, Reads(Source(x), r), st);
      } else {
        WantedCount(p, rest, r.(waiting := true), After(p, x, st));
      }
    }
  }

  lemma {:induction false} StressCount(segs: seq<Segment>)
    ensures |Stress(segs)| == |Output(segs)|
  {
    hide Labels, NonSpace;
    if segs != [] {
      if segs[0].Spoken? {
        LabelsCount(segs[0].content, Voice(segs[0].speaker, segs[0].emotion, segs[0].rate));
      }
      StressCount(segs[1..]);
    }
  }

  lemma FlushStress(buffer: string, st: State)
    requires !HasHint(Strip(buffer))
    ensures Stress(Flush(buffer, st)) == Rep(|NonSpace(buffer)|, st.emphasis)
  {
    hide Unpron, Strip, HasHint, NonSpace, Stress;
    UnpronShrinks(Strip(buffer));
    NonSpaceOfStrip(buffer);
    if Strip(buffer) == "" {
      NonSpaceOfBlank(buffer);
      NoStress();
    } else {
      StressOne(Flush(buffer, st)[0]);
    }
  }

  lemma ControlStress(p: Numbers, m: Lex)
    requires m.Mark?
    ensures Stress(Control(p, m)) == []
  {
    hide EffectOf, Clamp, NonSpace;
    if Control(p, m) != [] {
      assert Control(p, m)[1..] == [];
    }
  }

  /** `acc` is the stress promised to the pending text: the whole stretch gets one stress, which is the
      promised one when it is all of one kind. */
  lemma StretchIsAsWanted(acc: seq<bool>, n: nat, flag: bool)
    requires |acc| == n && (!flag ==> true !in acc)
    ensures Rep(n, flag) == acc <==> !(flag && false in acc)
  {
    if !flag || false !in acc {
      forall k | 0 <= k < n ensures acc[k] == flag {
        assert acc[k] in acc;
      }
    } else {
      var k :| 0 <= k < n && !acc[k];
      assert Rep(n, flag)[k] == flag;
    }
  }

  lemma PartsEqual(a: seq<bool>, b: seq<bool>, c: seq<bool>, d: seq<bool>)
    requires |a| == |c|
    ensures a + b == c + d <==> a == c && b == d
  {
    if a + b == c + d {
      assert a == (a + b)[..|a|] == (c + d)[..|c|] == c;
      assert b == (a + b)[|a|..] == (c + d)[|c|..] == d;
    }
  }

  lemma {:induction false} SegmentsStress(p: Numbers, lexes: seq<Lex>, buffer: string, st: State, acc: seq<bool>,
      r: Reader)
    requires HintFree(Runs(lexes, buffer)) && |acc| == |NonSpace(buffer)|
    requires !st.emphasis ==> true !in acc && !r.waiting && !r.inWord
    ensures Stress(Segments(p, lexes, buffer, st)) == acc + Wanted(lexes, r)
            <==> EveryWordTagged(lexes, false in acc, st.emphasis, r)
    decreases |lexes|, 0
  {
    hide Flush, Source, EffectOf, After, Control, Strip, HintFree, HasHint, NonSpace, Stress, WantedOf, Reads, Rep,
        IsSpace;
    if lexes == [] {
      OneRun(buffer);
      FlushStress(buffer, st);
      StretchIsAsWanted(acc, |acc|, st.emphasis);
      assert acc + [] == acc;
    } else {
      var x, rest := lexes[0], lexes[1..];
      if x.Chunk? {
        TextStress(p, rest, buffer, x.text, st, acc, r);
      } else if Flushes(x) {
        RunsFirst(Runs(rest, ""), buffer);
        AfterKeepsFlag(p, x, st, st.emphasis);
        NothingIsBlank();
        SegmentsStress(p, rest, "", After(p, x, st), [], r.(inWord := false));
        FlushStress(buffer, st);
        ControlStress(p, x);
        StretchIsAsWanted(acc, |acc|, st.emphasis);
        var a, w := Segments(p, rest, "", After(p, x, st)), Wanted(rest, r.(inWord := false));
        StressConcat(Flush(buffer, st) + Control(p, x), a);
        StressConcat(Flush(buffer, st), Control(p, x));
        RepCount(|acc|, st.emphasis);
        PartsEqual(Rep(|acc|, st.emphasis), Stress(a), acc, w);
        assert Rep(|acc|, st.emphasis) + [] == Rep(|acc|, st.emphasis) && [] + w == w;
      } else if EffectOf(x) == Unknown {
        TextStress(p, rest, buffer, Source(x), st, acc, r);
      } else {
        AfterKeepsFlag(p, x, st, st.emphasis);
        SegmentsStress(p, rest, buffer, After(p, x, st), acc, r.(waiting := true));
      }
    }
  }

  lemma RepCount(n: nat, b: bool)
    ensures |Rep(n, b)| == n
  {
  }

  lemma NothingIsBlank()
    ensures NonSpace("") == ""
  {
  }

  /** More text for the stretch under way. */
  lemma {:induction false} TextStress(p: Numbers, rest: seq<Lex>, buffer: string, text: string, st: State,
      acc: seq<bool>, r: Reader)
    requires HintFree(Runs(rest, buffer + text)) && |acc| == |NonSpace(buffer)|
    requires !st.emphasis ==> true !in acc && !r.waiting && !r.inWord
    ensures Stress(Segments(p, rest, buffer + text, st)) == acc + (WantedOf(text, r) + Wanted(rest, Reads(text, r)))
            <==> EveryWordTagged(rest, false in acc || false in WantedOf(text, r), st.emphasis, Reads(text, r))
    decreases |rest|, 1
  {
    hide Segments, HintFree, Runs, NonSpace, Stress, WantedOf, Reads, Wanted, EveryWordTagged;
    var more := WantedOf(text, r);
    WantedOfCount(text, r);
    NonSpaceConcat(buffer, text);
    SegmentsStress(p, rest, buffer + text, st, acc + more, Reads(text, r));
    assert (acc + more) + Wanted(rest, Reads(text, r)) == acc + (more + Wanted(rest, Reads(text, r)));
  }

  /** The stress is the promised one exactly on the texts that lose no characters and in which, from the
      first stretch with an emphasis tag on, each word follows an emphasis tag of its own. */
  lemma StressIsAsPromisedIffEveryWordTagged(p: Numbers, text: string, speaker: string)
    ensures
      var lexes, start := Lexes(Unpron(text)), Reader(false, false);
      Stress(Parsed(p, text, speaker)) == Wanted(lexes, start)
      <==> HintFree(Runs(lexes, "")) && EveryWordTagged(lexes, false, false, start)
  {
    hide Lexes, Unpron, Segments, MergeAll, Runs, HintFree, Stress, Wanted, EveryWordTagged, NonSpace, Output, Asked;
    var lexes, start, st := Lexes(Unpron(text)), Reader(false, false), Start(speaker);
    var segs := Segments(p, lexes, "", st);
    MergeKeepsStress([], segs);
    NoStress();
    if HintFree(Runs(lexes, "")) {
      NothingIsBlank();
      SegmentsStress(p, lexes, "", st, [], start);
      assert [] + Wanted(lexes, start) == Wanted(lexes, start);
    } else {
      SegmentsLoseLabels(p, lexes, "", st);
      NoLabels(LabelOf(st));
      StressCount(segs);
      WantedCount(p, lexes, start, st);
    }
  }

  // ---------- an input ----------

  const SAD_TAIL := "[" + "sad" + "]" + "b"
  const STRESSED_THEN_SAD := "[" + "emphasis" + "]" + ("a" + SAD_TAIL)

  function TheLexes(): seq<Lex> {
    [Mark("emphasis", None), Chunk("a"), Mark("sad", None), Chunk("b")]
  }

  lemma InputReads()
    ensures STRESSED_THEN_SAD == "[emphasis]a[sad]b" && SAD_TAIL == "[sad]b"
  {
    assert "[" + "emphasis" + "]" == "[emphasis]";
    assert "[" + "sad" + "]" == "[sad]" && "[sad]" + "b" == "[sad]b";
    assert "a" + "[sad]b" == "a[sad]b";
  }

  lemma TailLexes()
    ensures Lexes("a" + SAD_TAIL) == [Chunk("a"), Mark("sad", None), Chunk("b")]
  {
    hide MarkAt, FindMark, MarkOf, Lexes;
    var s := "a" + SAD_TAIL;
    MarkInBrackets("sad", "b");
    SadIsWord();
    MarkHere(SAD_TAIL);
    NoMarkBefore("a", SAD_TAIL);
    LastChunk("b");
    assert s[0..] == s && s[1..] == SAD_TAIL && s[6..] == "b" && s[..1] == "a" && s[0..1] == "a";
    LexesFrom(s, 0, 1);
  }

  lemma SadIsWord()
    ensures MarkOf("sad") == Some(Mark("sad", None))
  {
    hide IndexOf;
    assert Word("sad");
  }

  lemma InputHasNoSlash()
    ensures '/' !in STRESSED_THEN_SAD
  {
    InputReads();
  }

  lemma InputLexes()
    ensures Unpron(STRESSED_THEN_SAD) == STRESSED_THEN_SAD && Lexes(STRESSED_THEN_SAD) == TheLexes()
  {
    hide MarkOf, Lexes, Unpron, SAD_TAIL;
    InputHasNoSlash();
    NoSlashNoHint(STRESSED_THEN_SAD);
    EmphasisIsWord();
    LexFirst("emphasis", "a" + SAD_TAIL, Mark("emphasis", None));
    TailLexes();
  }

  lemma InputSegments(p: Numbers, speaker: string)
    ensures
      var a := Spoken("a", speaker, None, 1.0, true, []);
      && Segments(p, TheLexes(), "", Start(speaker)) == [a, Spoken("b", speaker, Some("sad"), 1.0, true, ["sad"])]
      && Resetting(p, TheLexes(), "", Start(speaker)) == [a, Spoken("b", speaker, Some("sad"), 1.0, false, ["sad"])]
    ensures !EveryWordTagged(TheLexes(), false, false, Reader(false, false))
  {
    hide Flush, Strip, WantedOf, Reads;
    var lexes, st := TheLexes(), Start(speaker).(emphasis := true);
    var one, two, three := lexes[1..], lexes[1..][1..], lexes[1..][1..][1..];
    assert EffectOf(lexes[0]) == SetEmphasis && EffectOf(two[0]) == SetEmotion && three[1..] == [];
    assert "" + "a" == "a" && "" + "b" == "b";
    LetterIsStripped('a');
    LetterFlushes('a', st);
    var sad := State(speaker, Some("sad"), 1.0, true, ["sad"]);
    assert After(p, two[0], st) == sad;
    assert After(p, two[0], Spent("a", st)) == sad.(emphasis := false);
    LetterFlushes('b', sad);
    LetterFlushes('b', sad.(emphasis := false));
    assert Segments(p, three, "", sad) == Flush("b", sad);
    assert Resetting(p, three, "", sad.(emphasis := false)) == Flush("b", sad.(emphasis := false));
    LetterWanted('a', Reader(true, false));
    LetterWanted('b', Reader(false, false));
    assert EveryWordTagged(three, false, true, Reader(false, false))
        == EveryWordTagged([], true, true, Reads("b", Reader(false, false)));
  }

  lemma LetterIsStripped(c: char)
    requires !IsSpace(c)
    ensures Strip([c]) == [c]
  {
  }

  lemma LetterWanted(c: char, r: Reader)
    requires !IsSpace(c)
    ensures WantedOf([c], r) == [r.waiting || r.inWord] && Reads([c], r) == Reader(false, r.waiting || r.inWord)
  {
    assert [c][1..] == "";
    assert WantedOf("", Reader(false, r.waiting || r.inWord)) == [];
  }

  lemma TwoSegmentsStay(a: Segment, b: Segment)
    requires !Mergeable(a, b)
    ensures MergeAll([], [a, b]) == [a, b]
  {
    assert [a, b][1..] == [b] && [b][1..] == [] && [] + [a] == [a] && [a] + [b] == [a, b];
    assert MergeAll([a], [b]) == MergeAll([a, b], []);
  }

  /** The second word has no tag and is stressed all the same. */
  lemma StressLeaksIntoTheNextStretch(p: Numbers, speaker: string)
    ensures STRESSED_THEN_SAD == "[emphasis]a[sad]b"
    ensures Parsed(p, STRESSED_THEN_SAD, speaker)
            == [Spoken("a", speaker, None, 1.0, true, []), Spoken("b", speaker, Some("sad"), 1.0, true, ["sad"])]
    ensures ParsedResetting(p, STRESSED_THEN_SAD, speaker)
            == [Spoken("a", speaker, None, 1.0, true, []), Spoken("b", speaker, Some("sad"), 1.0, false, ["sad"])]
    ensures Stress(Parsed(p, STRESSED_THEN_SAD, speaker)) != Wanted(Lexes(STRESSED_THEN_SAD), Reader(false, false))
  {
    hide Segments, Resetting, MergeAll, Lexes, Unpron, Stress, Wanted, EveryWordTagged, TheLexes;
    InputReads();
    InputLexes();
    InputSegments(p, speaker);
    var a := Spoken("a", speaker, None, 1.0, true, []);
    TwoSegmentsStay(a, Spoken("b", speaker, Some("sad"), 1.0, true, ["sad"]));
    TwoSegmentsStay(a, Spoken("b", speaker, Some("sad"), 1.0, false, ["sad"]));
    StressIsAsPromisedIffEveryWordTagged(p, STRESSED_THEN_SAD, speaker);
  }
}
