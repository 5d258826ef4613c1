/** Splitting chapter text into provider-sized chunks, measured in UTF-8 bytes
    (backend/services/text_processor.py:126-185). */
module TextChunker {
  import opened Wrappers
  import opened Text
  import opened Utf8

  datatype Result<+T> = Ok(value: T) | UnicodeDecodeError

  // ---------- paragraphs and sentences ----------

  /** The first blank-line separator, or |s|. */
  function FindBreak(s: string): (i: nat)
    ensures i <= |s|
    ensures i < |s| ==> i + 2 <= |s| && s[i] == '\n' && s[i+1] == '\n'
  {
    if |s| < 2 then |s|
    else if s[0] == '\n' && s[1] == '\n' then 0
    else 1 + FindBreak(s[1..])
  }

  /** `text.split("\n\n")` */
  function Paragraphs(text: string): (r: seq<string>)
    ensures r != []
    decreases |text|
  {
    var i := FindBreak(text);
    if i == |text| then [text] else [text[..i]] + Paragraphs(text[i+2..])
  }

  predicate EndsSentence(c: char) {
    c == '.' || c == '!' || c == '?'
  }

  /** The first whitespace that follows a sentence end, or |s|. */
  function FindSentenceEnd(s: string): (i: nat)
    ensures i <= |s| && (s != "" ==> 1 <= i)
    ensures i < |s| ==> IsSpace(s[i])
  {
    if |s| < 2 then |s|
    else if EndsSentence(s[0]) && IsSpace(s[1]) then 1
    else 1 + FindSentenceEnd(s[1..])
  }

  /** `re.split(r"(?<=[.!?])\s+", para)` */
  function Sentences(para: string): (r: seq<string>)
    ensures r != []
    decreases |para|
  {
    var i := FindSentenceEnd(para);
    if i == |para| then [para] else [para[..i]] + Sentences(LStrip(para[i..]))
  }

  lemma {:induction false} ParagraphsKeepText(text: string)
    ensures NonSpace(Concat(Paragraphs(text))) == NonSpace(text)
    decreases |text|
  {
    hide NonSpace, IsSpace;
    var i := FindBreak(text);
    if i == |text| {
      assert Concat([text]) == text + Concat([]) == text;
    } else {
      ParagraphsKeepText(text[i+2..]);
      assert text == text[..i] + "\n\n" + text[i+2..];
      WhitespaceCharacters();
      DropBlank(text[..i], "\n\n", text[i+2..]);
      assert Paragraphs(text)[1..] == Paragraphs(text[i+2..]);
      NonSpaceConcat(text[..i], Concat(Paragraphs(text[i+2..])));
    }
  }

  lemma WhitespaceCharacters()
    ensures Blank("\n\n") && Blank(" ")
  {
  }

  lemma DropBlank(a: string, b: string, c: string)
    requires Blank(b)
    ensures NonSpace(a + b + c) == NonSpace(a) + NonSpace(c)
  {
    hide NonSpace, IsSpace;
    NonSpaceConcat(a + b, c);
    NonSpaceConcat(a, b);
    NonSpaceOfBlank(b);
  }

  lemma {:induction false} SentencesKeepText(para: string)
    ensures NonSpace(Concat(Sentences(para))) == NonSpace(para)
    decreases |para|
  {
    hide NonSpace, IsSpace;
    var i := FindSentenceEnd(para);
    if i == |para| {
      assert Concat([para]) == para + Concat([]) == para;
    } else {
      var tail := LStrip(para[i..]);
      SentencesKeepText(tail);
      LStripSplits(para[i..]);
      var gap := para[i..][..|para[i..]| - |tail|];
      assert para == para[..i] + gap + tail;
      DropBlank(para[..i], gap, tail);
      assert Sentences(para)[1..] == Sentences(tail);
      NonSpaceConcat(para[..i], Concat(Sentences(tail)));
    }
  }

  // ---------- what hard splitting loses ----------

  /** Non-space characters that a cut at `off`, `off + max`, ... goes through, each counted at the
      first cut that reaches it. */
  function LostFrom(s: string, off: int, max: int): nat
    requires max >= 1
    decreases |Encode(s)| - off
  {
    if off >= |Encode(s)| then 0 else LostAt(s, off, max) + LostFrom(s, off + max, max)
  }

  function LostAt(s: string, off: int, max: int): nat {
    if CutChar(s, off).Some? && !IsSpace(CutChar(s, off).value) && CharsWithin(s, off) >= CharsBefore(s, off - max)
    then 1 else 0
  }

  function Lost(s: string, max: int): nat
    requires max >= 1
  {
    LostFrom(s, max, max)
  }

  /** The last cut, after which what is left fits, does not go through a character. */
  predicate CleanFrom(s: string, off: int, max: int)
    requires max >= 1
    decreases |Encode(s)| - off
  {
    if off + max < |Encode(s)| then CleanFrom(s, off + max, max) else CutChar(s, off).None?
  }

  predicate CleanEnd(s: string, max: int)
    requires max >= 1
  {
    CleanFrom(s, 0, max)
  }

  function TotalLost(sents: seq<string>, max: int): nat
    requires max >= 1
  {
    if sents == [] then 0 else Lost(sents[0], max) + TotalLost(sents[1..], max)
  }

  predicate AllClean(sents: seq<string>, max: int)
    requires max >= 1
  {
    forall i :: 0 <= i < |sents| ==> CleanEnd(sents[i], max)
  }

  function TextLost(paras: seq<string>, max: int): nat
    requires max >= 1
  {
    if paras == [] then 0 else TotalLost(Sentences(paras[0]), max) + TextLost(paras[1..], max)
  }

  predicate TextClean(paras: seq<string>, max: int)
    requires max >= 1
  {
    forall i :: 0 <= i < |paras| ==> AllClean(Sentences(paras[i]), max)
  }

  lemma FitsIsClean(s: string, max: int)
    requires max >= 1 && |Encode(s)| <= max
    ensures Lost(s, max) == 0 && CleanEnd(s, max)
  {
  }

  /** ASCII sentences are cut between characters only. */
  lemma {:induction false} AsciiLosesNothing(s: string, off: int, max: int)
    requires max >= 1 && Ascii(s)
    ensures LostFrom(s, off, max) == 0 && CleanFrom(s, off, max)
    decreases |Encode(s)| - off
  {
    AsciiIsNeverCut(s, off);
    if off < |Encode(s)| {
      AsciiLosesNothing(s, off + max, max);
    }
  }

  // ---------- sizes ----------

  lemma {:induction false} SubstringFits(a: string, b: string, c: string)
    ensures |Encode(b)| <= |Encode(a + b + c)|
  {
    EncodeConcat(a + b, c);
    EncodeConcat(a, b);
  }

  lemma StripFits(s: string)
    ensures |Encode(Strip(s))| <= |Encode(s)|
  {
    hide Encode, Strip;
    var a, b := StripSplits(s);
    SubstringFits(a, Strip(s), b);
  }

  /** A blank end added to a text does not make its stripped form longer. */
  lemma StripDropsBlankEnd(x: string, sep: string)
    requires Blank(sep)
    ensures |Encode(Strip(x + sep))| <= |Encode(x)|
  {
    hide Encode, Strip, IsSpace;
    var a, b := StripSplits(x + sep);
    var t := Strip(x + sep);
    if t != "" {
      var last := |a| + |t| - 1;
      assert (x + sep)[last] == t[|t|-1] && !IsSpace((x + sep)[last]);
      assert last < |x|;
      assert x == a + t + x[last+1..] by {
        assert (x + sep)[..last+1] == a + t;
        assert x[..last+1] == (x + sep)[..last+1];
      }
      SubstringFits(a, t, x[last+1..]);
    } else {
      EncodeOfEmpty();
    }
  }

  lemma EncodeOfEmpty()
    ensures Encode("") == []
  {
  }

  lemma {:induction false} BetweenFits(s: string, a: int, b: int)
    requires 0 <= a <= b <= |Encode(s)|
    ensures |Encode(Between(s, a, b))| <= b - a
    decreases |s|
  {
    hide EncodeChar, Between, CharsBefore, CharsWithin;
    if s == "" {
      BetweenEmpty(a, b);
    } else {
      var w := |EncodeChar(s[0])|;
      BetweenStep(s, a, b);
      if b < w {
      } else if a >= w {
        BetweenFits(s[1..], a - w, b - w);
      } else {
        BetweenFits(s[1..], 0, b - w);
        EncodeConcat([s[0]], Between(s[1..], 0, b - w));
      }
    }
  }

  lemma BetweenEmpty(a: int, b: int)
    ensures Between("", a, b) == "" && Encode("") == []
  {
  }

  lemma PartsFit(s: string, i: nat, k: nat, max: int)
    requires i <= |s| && k <= |s| && |Encode(s)| <= max
    ensures |Encode(s[..i])| <= max && |Encode(s[k..])| <= max
  {
    hide Encode;
    assert s == "" + s[..i] + s[i..];
    SubstringFits("", s[..i], s[i..]);
    assert s == s[..k] + s[k..] + "";
    SubstringFits(s[..k], s[k..], "");
  }

  lemma ConsClean(s: string, sents: seq<string>, max: int)
    requires max >= 1 && Lost(s, max) == 0 && CleanEnd(s, max)
    requires TotalLost(sents, max) == 0 && AllClean(sents, max)
    ensures TotalLost([s] + sents, max) == 0 && AllClean([s] + sents, max)
  {
    hide Lost, CleanEnd;
    assert ([s] + sents)[1..] == sents;
  }

  lemma {:induction false} SentencesFit(para: string, max: int)
    requires max >= 1 && |Encode(para)| <= max
    ensures TotalLost(Sentences(para), max) == 0 && AllClean(Sentences(para), max)
    decreases |para|
  {
    hide Encode, Lost, CleanEnd, IsSpace, FindSentenceEnd, LStrip, Blank;
    var i := FindSentenceEnd(para);
    if i == |para| {
      FitsIsClean(para, max);
      ConsClean(para, [], max);
      assert [para] + [] == [para];
    } else {
      var tail := LStrip(para[i..]);
      LStripSplits(para[i..]);
      var k := |para| - |tail|;
      assert para[k..] == tail;
      PartsFit(para, i, k, max);
      FitsIsClean(para[..i], max);
      SentencesFit(tail, max);
      ConsClean(para[..i], Sentences(tail), max);
    }
  }

  lemma {:induction false} ParagraphsFit(text: string, max: int)
    requires max >= 1 && |Encode(text)| <= max
    ensures TextLost(Paragraphs(text), max) == 0 && TextClean(Paragraphs(text), max)
    decreases |text|
  {
    hide Encode, TotalLost, AllClean, Sentences, FindBreak;
    var i := FindBreak(text);
    if i == |text| {
      SentencesFit(text, max);
      assert [text][1..] == [];
    } else {
      PartsFit(text, i, i + 2, max);
      SentencesFit(text[..i], max);
      ParagraphsFit(text[i+2..], max);
      assert Paragraphs(text)[1..] == Paragraphs(text[i+2..]);
    }
  }

  // ---------- what is packed, and how ----------

  /** A piece of text that is not cut, what is put behind it, and whether it always starts a chunk. */
  datatype Unit = Unit(text: string, sep: string, starts: bool)

  /** The characters wholly inside each stretch of `max` bytes, the last stretch being what is left. */
  function Slices(sent: string, off: nat, max: nat): seq<string>
    requires max >= 1
    decreases |Encode(sent)| - off
  {
    if off + max >= |Encode(sent)| then [sent[CharsBefore(sent, off)..]]
    else [Between(sent, off, off + max)] + Slices(sent, off + max, max)
  }

  function FreshUnits(slices: seq<string>): seq<Unit> {
    if slices == [] then [] else [Unit(slices[0], " ", true)] + FreshUnits(slices[1..])
  }

  function SentenceUnits(sents: seq<string>, max: nat, starts: bool): seq<Unit>
    requires max >= 1
  {
    if sents == [] then []
    else (if |Encode(sents[0])| <= max then [Unit(sents[0], " ", starts)] else FreshUnits(Slices(sents[0], 0, max)))
         + SentenceUnits(sents[1..], max, false)
  }

  /** Paragraphs within the limit stay whole; of the others the sentences do, and of those over the limit the
      slices. */
  function Units(paras: seq<string>, max: nat): seq<Unit>
    requires max >= 1
  {
    if paras == [] then []
    else (if |Encode(paras[0])| <= max then [Unit(paras[0], "\n\n", false)]
          else SentenceUnits(Sentences(paras[0]), max, true))
         + Units(paras[1..], max)
  }

  predicate FitsBehind(current: string, u: Unit, max: nat) {
    |Encode(current)| + |Encode(u.text)| + |u.sep| <= max
  }

  function Emitted(current: string): seq<string> {
    if Strip(current) != "" then [Strip(current)] else []
  }

  /** Units are put into the pending chunk as long as they fit. */
  function Packed(units: seq<Unit>, current: string, max: nat): seq<string> {
    if units == [] then Emitted(current)
    else if !units[0].starts && FitsBehind(current, units[0], max)
    then Packed(units[1..], current + units[0].text + units[0].sep, max)
    else Emitted(current) + Packed(units[1..], units[0].text + units[0].sep, max)
  }

  /** `chunk_for_provider` where it does not raise. */
  function Chunked(text: string, max: nat): seq<string>
    requires max >= 1
  {
    var packed := Packed(Units(Paragraphs(text), max), "", max);
    if |Encode(text)| <= max then Emitted(text)
    else if packed == [] && Strip(text) != "" then [Fallback(text, max)]
    else packed
  }

  function Kept(slices: seq<string>): seq<string> {
    if slices == [] then [] else Emitted(slices[0]) + Kept(slices[1..])
  }

  lemma {:induction false} LStripSpace(x: string)
    ensures LStrip(x + " ") == if LStrip(x) == "" then "" else LStrip(x) + " "
  {
    if x == "" {
      assert x + " " == " " && " "[1..] == "";
    } else if IsSpace(x[0]) {
      assert (x + " ")[1..] == x[1..] + " ";
      LStripSpace(x[1..]);
    }
  }

  lemma SpaceBehind(x: string)
    ensures Emitted(x + " ") == Emitted(x)
  {
    LStripSpace(x);
    var y := LStrip(x);
    assert y != "" ==> (y + " ")[..|y|] == y;
  }

  /** Packing goes on behind the slices of a sentence. */
  lemma {:induction false} PackSlices(cut: seq<string>, last: string, rest: seq<Unit>, current: string, max: nat)
    ensures Packed(FreshUnits(cut + [last]) + rest, current, max)
            == Emitted(current) + Kept(cut) + Packed(rest, last + " ", max)
    decreases |cut|
  {
    hide Emitted, FitsBehind;
    var all := cut + [last];
    var units := FreshUnits(all) + rest;
    assert units[0] == Unit(all[0], " ", true) && units[1..] == FreshUnits(all[1..]) + rest;
    if cut == [] {
      assert all[1..] == [] && [] + rest == rest;
      assert Emitted(current) + Kept(cut) == Emitted(current);
    } else {
      assert all[1..] == cut[1..] + [last];
      PackSlices(cut[1..], last, rest, cut[0] + " ", max);
      SpaceBehind(cut[0]);
    }
  }

  lemma PackOne(u: Unit, rest: seq<Unit>, current: string, max: nat)
    ensures Packed([u] + rest, current, max)
            == if !u.starts && FitsBehind(current, u, max) then Packed(rest, current + u.text + u.sep, max)
               else Emitted(current) + Packed(rest, u.text + u.sep, max)
  {
    hide Emitted, FitsBehind;
    assert ([u] + rest)[1..] == rest;
  }

  lemma {:induction false} KeptAppend(a: seq<string>, b: string)
    ensures Kept(a + [b]) == Kept(a) + Emitted(b)
  {
    hide Emitted;
    if a == [] {
      assert [b][1..] == [] && a + [b] == [b];
    } else {
      assert (a + [b])[1..] == a[1..] + [b];
      KeptAppend(a[1..], b);
    }
  }

  lemma SlicesAre(sent: string, off: nat, max: nat)
    requires max >= 1
    ensures Slices(sent, off, max)
            == if off + max >= |Encode(sent)| then [sent[CharsBefore(sent, off)..]]
               else [Between(sent, off, off + max)] + Slices(sent, off + max, max)
  {
  }

  // ---------- the hard split ----------

  predicate GoodChunk(c: string, max: int) {
    c != "" && Stripped(c) && |Encode(c)| <= max
  }

  predicate GoodChunks(chunks: seq<string>, max: int) {
    forall i :: 0 <= i < |chunks| ==> GoodChunk(chunks[i], max)
  }

  /** Chunks and pending text hold the non-space characters of what has been read, but for `lost`. */
  predicate Accounted(chunks: seq<string>, current: string, read: string, lost: int) {
    && |NonSpace(Concat(chunks))| + |NonSpace(current)| + lost == |read|
    && (lost == 0 ==> NonSpace(Concat(chunks)) + NonSpace(current) == read)
  }

  /** `flush`: the stripped pending text becomes a chunk unless it is blank. */
  function Flushed(chunks: seq<string>, current: string): seq<string> {
    if Strip(current) != "" then chunks + [Strip(current)] else chunks
  }

  lemma FlushKeeps(chunks: seq<string>, current: string, rest: string, max: int, read: string, lost: int)
    requires GoodChunks(chunks, max) && |Encode(Strip(current))| <= max
    requires Accounted(chunks, current + rest, read, lost)
    ensures GoodChunks(Flushed(chunks, current), max)
    ensures Accounted(Flushed(chunks, current), rest, read, lost)
  {
    hide NonSpace, Strip, Encode, Concat;
    NonSpaceOfStrip(current);
    NonSpaceConcat(current, rest);
    if Strip(current) != "" {
      ConcatAppend(chunks, [Strip(current)]);
      ConcatOne(Strip(current));
      NonSpaceConcat(Concat(chunks), Strip(current));
    } else {
      NonSpaceOfBlank(current);
    }
  }

  lemma ConcatOne(s: string)
    ensures Concat([s]) == s && Concat([]) == ""
  {
    assert [s][1..] == [];
  }

  lemma AroundCharacter(s: string, i: nat, j: nat)
    requires i <= j < |s|
    ensures s[i..] == s[i..j] + [s[j]] + s[j+1..]
  {
  }

  lemma AtCut(s: string, i: nat, j: nat)
    requires i <= j <= |s|
    ensures s[i..] == s[i..j] + s[j..]
  {
  }

  /** One round of the hard split: the piece, the cut character if it is lost, and the rest. */
  lemma CutAccount(s: string, off: int, max: int)
    requires max >= 1 && 0 <= off && off + max < |Encode(s)|
    ensures
      var rest, rest' := s[CharsBefore(s, off)..], s[CharsBefore(s, off + max)..];
      var piece := Between(s, off, off + max);
      var lost := LostAt(s, off + max, max);
      && |NonSpace(rest)| == |NonSpace(piece + rest')| + lost
      && (lost == 0 ==> NonSpace(rest) == NonSpace(piece + rest'))
  {
    hide NonSpace, IsSpace, EncodeChar, CharsBefore, CharsWithin, CutChar, Encode;
    var i, j, k := CharsBefore(s, off), CharsWithin(s, off + max), CharsBefore(s, off + max);
    CutCounts(s, off);
    CutCounts(s, off + max);
    CountsMonotone(s, off, off + max);
    var piece := Between(s, off, off + max);
    if i <= j {
      assert piece == s[i..j];
      if CutChar(s, off + max).Some? {
        AroundCharacter(s, i, j);
        WithoutCharacter(piece, s[j], s[k..]);
      } else {
        AtCut(s, i, j);
      }
    } else {
      NothingThere(s[k..]);
    }
  }

  lemma NothingThere(s: string)
    ensures "" + s == s
  {
  }

  /** A character taken out of a text takes itself away, unless it is whitespace. */
  lemma WithoutCharacter(piece: string, c: char, rest: string)
    ensures |NonSpace(piece + [c] + rest)| == |NonSpace(piece + rest)| + (if IsSpace(c) then 0 else 1)
    ensures IsSpace(c) ==> NonSpace(piece + [c] + rest) == NonSpace(piece + rest)
  {
    hide NonSpace, IsSpace;
    NonSpaceConcat(piece + [c], rest);
    NonSpaceConcat(piece, [c]);
    NonSpaceConcat(piece, rest);
    NonSpaceOfOne(c);
  }

  lemma NonSpaceOfOne(c: char)
    ensures NonSpace([c]) == if IsSpace(c) then "" else [c]
  {
    hide IsSpace;
    assert [c][1..] == "";
  }

  /** The byte-wise split of a run-on sentence: the chunks, and what is left when it fits. */
  method HardSplit(sent: string, max: int)
      returns (chunks: seq<string>, rest: Result<string>, ghost cut: seq<string>)
    requires max >= 1
    ensures rest.Ok? <==> CleanEnd(sent, max)
    ensures rest.Ok? ==> cut + [rest.value] == Slices(sent, 0, max) && chunks == Kept(cut)
    ensures GoodChunks(chunks, max)
    ensures rest.Ok? ==> |Encode(rest.value)| <= max
    ensures rest.Ok? ==> Accounted(chunks, rest.value, NonSpace(sent), Lost(sent, max))
  {
    hide NonSpace, IsSpace, EncodeChar, CharsBefore, CharsWithin, CutChar, Between, Concat, Strip, Accounted, GoodChunk,
         CleanFrom, CleanEnd, LostFrom, Lost, Encode, DecodeIgnore, DecodeStrict, Slices, Kept;
    chunks, cut := [], [];
    assert Kept([]) == [] by { NothingKept(); }
    var encoded := Encode(sent);
    ghost var off := 0;
    StartOfSplit(sent, max);
    while |encoded| > max
      invariant 0 <= off <= |Encode(sent)| && encoded == Encode(sent)[off..]
      invariant CleanFrom(sent, off, max) == CleanEnd(sent, max)
      invariant cut + Slices(sent, off, max) == Slices(sent, 0, max) && chunks == Kept(cut)
      invariant GoodChunks(chunks, max)
      invariant LostFrom(sent, off + max, max) <= Lost(sent, max)
      invariant Accounted(chunks, sent[CharsBefore(sent, off)..], NonSpace(sent),
                          Lost(sent, max) - LostFrom(sent, off + max, max))
      decreases |encoded|
    {
      var piece := DecodeIgnore(encoded[..max]);
      assert encoded[..max] == Encode(sent)[off..off+max];
      SliceDecodes(sent, off, off + max);
      BetweenFits(sent, off, off + max);
      StripFits(piece);
      PieceKeeps(chunks, sent, off, max);
      SlicesAre(sent, off, max);
      KeptAppend(cut, piece);
      cut := cut + [piece];
      if Strip(piece) != "" {
        chunks := chunks + [Strip(piece)];
      }
      encoded := encoded[max..];
      off := off + max;
    }
    TailDecodesStrictly(sent, off);
    RestFits(sent, off);
    EndOfSplit(sent, off, max);
    SlicesAre(sent, off, max);
    match DecodeStrict(encoded) {
      case Some(t) => rest := Ok(t);
      case None => rest := UnicodeDecodeError;
    }
  }

  lemma NothingKept()
    ensures Kept([]) == []
  {
  }

  lemma EndOfSplit(sent: string, off: int, max: int)
    requires max >= 1 && 0 <= off <= |Encode(sent)| <= off + max
    ensures CleanFrom(sent, off, max) == CutChar(sent, off).None? && LostFrom(sent, off + max, max) == 0
  {
  }

  lemma StartOfSplit(sent: string, max: int)
    requires max >= 1
    ensures Accounted([], sent[CharsBefore(sent, 0)..], NonSpace(sent), 0)
    ensures Lost(sent, max) == LostFrom(sent, 0 + max, max)
    ensures Encode(sent) == Encode(sent)[0..]
    ensures CleanFrom(sent, 0, max) == CleanEnd(sent, max)
  {
    hide NonSpace, IsSpace;
    ConcatOne("");
    NonSpaceOfBlank("");
    assert sent[0..] == sent;
  }

  lemma PieceKeeps(chunks: seq<string>, sent: string, off: int, max: int)
    requires max >= 1 && 0 <= off && off + max < |Encode(sent)|
    requires GoodChunks(chunks, max)
    requires LostFrom(sent, off + max, max) <= Lost(sent, max)
    requires Accounted(chunks, sent[CharsBefore(sent, off)..], NonSpace(sent),
        Lost(sent, max) - LostFrom(sent, off + max, max))
    ensures LostFrom(sent, off + max + max, max) <= LostFrom(sent, off + max, max)
    ensures CleanFrom(sent, off + max, max) == CleanFrom(sent, off, max)
    ensures GoodChunks(Flushed(chunks, Between(sent, off, off + max)), max)
    ensures Accounted(Flushed(chunks, Between(sent, off, off + max)), sent[CharsBefore(sent, off + max)..],
        NonSpace(sent), Lost(sent, max) - LostFrom(sent, off + max + max, max))
  {
    hide NonSpace, IsSpace, EncodeChar, CharsBefore, CharsWithin, CutChar, Between, Concat, Strip, LostAt, Flushed,
        Lost, GoodChunks;
    CutAccount(sent, off, max);
    var piece := Between(sent, off, off + max);
    BetweenFits(sent, off, off + max);
    StripFits(piece);
    assert LostFrom(sent, off + max, max) == LostAt(sent, off + max, max) + LostFrom(sent, off + max + max, max);
    FlushKeeps(chunks, piece, sent[CharsBefore(sent, off + max)..], max, NonSpace(sent),
               Lost(sent, max) - LostFrom(sent, off + max + max, max));
  }

  lemma {:induction false} RestFits(s: string, off: int)
    requires 0 <= off <= |Encode(s)|
    ensures |Encode(s[CharsBefore(s, off)..])| <= |Encode(s)| - off
    decreases |s|
  {
    hide EncodeChar;
    if s != "" && off > 0 {
      var w := |EncodeChar(s[0])|;
      assert s[CharsBefore(s, off)..] == s[1..][CharsBefore(s[1..], off - w)..];
      if off >= w {
        RestFits(s[1..], off - w);
      } else {
        assert CharsBefore(s[1..], off - w) == 0;
        assert s[1..][0..] == s[1..];
      }
    } else {
      assert s[0..] == s;
    }
  }

  // ---------- the chunker ----------

  lemma Append(chunks: seq<string>, current: string, read: string, lost: nat, more: string, sep: string)
    requires Accounted(chunks, current, read, lost) && Blank(sep)
    ensures Accounted(chunks, current + more + sep, read + NonSpace(more), lost)
  {
    hide NonSpace, IsSpace, Concat, Blank;
    var kept, pending, added := NonSpace(Concat(chunks)), NonSpace(current), NonSpace(more);
    NonSpaceConcat(current + more, sep);
    NonSpaceConcat(current, more);
    NonSpaceOfBlank(sep);
    assert NonSpace(current + more + sep) == pending + added + "" == pending + added;
    assert kept + (pending + added) == kept + pending + added;
  }

  lemma Combine(chunks: seq<string>, read: string, lost: nat, more: seq<string>, rest: string, read': string,
      lost': nat)
    requires Accounted(chunks, "", read, lost) && Accounted(more, rest, read', lost')
    ensures Accounted(chunks + more, rest + " ", read + read', lost + lost')
  {
    hide NonSpace, IsSpace, Concat;
    ConcatAppend(chunks, more);
    NonSpaceConcat(Concat(chunks), Concat(more));
    NonSpaceConcat(rest, " ");
    WhitespaceCharacters();
    NonSpaceOfBlank(" ");
    NonSpaceOfBlank("");
  }

  /** The pending text stays within the limit once stripped. */
  predicate Pending(current: string, max: int) {
    |Encode(Strip(current))| <= max
  }

  lemma PendingJoined(current: string, more: string, sep: string, max: int)
    requires |Encode(current)| + |Encode(more)| <= max && Blank(sep)
    ensures Pending(current + more + sep, max)
  {
    hide Encode, Strip, IsSpace;
    StripDropsBlankEnd(current + more, sep);
    EncodeConcat(current, more);
  }

  lemma PendingAlone(more: string, sep: string, max: int)
    requires |Encode(more)| <= max && Blank(sep)
    ensures Pending(more + sep, max)
  {
    hide Encode, Strip, IsSpace;
    StripDropsBlankEnd(more, sep);
  }

  lemma {:induction false} LostSnoc(sents: seq<string>, k: nat, max: int)
    requires max >= 1 && k < |sents|
    ensures TotalLost(sents[..k+1], max) == TotalLost(sents[..k], max) + Lost(sents[k], max)
    ensures Concat(sents[..k+1]) == Concat(sents[..k]) + sents[k]
  {
    hide Lost;
    if k == 0 {
      assert sents[..1] == [sents[0]] && sents[..1][1..] == [];
      ConcatOne(sents[0]);
    } else {
      assert sents[..k+1][1..] == sents[1..][..k] && sents[..k][1..] == sents[1..][..k-1];
      LostSnoc(sents[1..], k - 1, max);
    }
  }

  lemma {:induction false} TextLostSnoc(paras: seq<string>, k: nat, max: int)
    requires max >= 1 && k < |paras|
    ensures TextLost(paras[..k+1], max) == TextLost(paras[..k], max) + TotalLost(Sentences(paras[k]), max)
    ensures Concat(paras[..k+1]) == Concat(paras[..k]) + paras[k]
  {
    hide TotalLost, Sentences;
    if k == 0 {
      assert paras[..1] == [paras[0]] && paras[..1][1..] == [];
      ConcatOne(paras[0]);
    } else {
      assert paras[..k+1][1..] == paras[1..][..k] && paras[..k][1..] == paras[1..][..k-1];
      TextLostSnoc(paras[1..], k - 1, max);
    }
  }

  /** A paragraph over the limit, sentence by sentence; a run-on sentence is split by bytes. */
  method AddSentences(para: string, max: int, before: seq<string>, ghost read: string, ghost lost: nat,
                      ghost later: seq<Unit>)
      returns (r: Result<(seq<string>, string)>)
    requires max >= 1 && GoodChunks(before, max) && Accounted(before, "", read, lost)
    ensures r.Ok? <==> AllClean(Sentences(para), max)
    ensures r.Ok? ==> GoodChunks(r.value.0, max) && Pending(r.value.1, max)
    ensures r.Ok? ==> Accounted(r.value.0, r.value.1, read + NonSpace(para), lost + TotalLost(Sentences(para), max))
    ensures r.Ok? ==>
              r.value.0 + Packed(later, r.value.1, max)
              == before + Packed(SentenceUnits(Sentences(para), max, true) + later, "", max)
  {
    hide NonSpace, Concat, Strip, Accounted, GoodChunk, Encode, Sentences, Lost, CleanEnd, Pending, TotalLost, IsSpace,
         Packed, SentenceUnits, Slices, Flushed;
    var chunks, current := before, "";
    var sents := Sentences(para);
    ghost var goal := before + Packed(SentenceUnits(sents, max, true) + later, "", max);
    assert sents[0..] == sents;
    WhitespaceCharacters();
    StartOfSentences(sents, max, read);
    for k := 0 to |sents|
      invariant AllClean(sents[..k], max)
      invariant GoodChunks(chunks, max) && Pending(current, max)
      invariant Accounted(chunks, current, read + NonSpace(Concat(sents[..k])), lost + TotalLost(sents[..k], max))
      invariant (k == 0 ==> current == "")
      invariant chunks + Packed(SentenceUnits(sents[k..], max, k == 0) + later, current, max) == goal
    {
      assert sents[k..][1..] == sents[k+1..] && sents[k..][0] == sents[k];
      var sent := sents[k];
      ghost var read', lost' := read + NonSpace(Concat(sents[..k])), lost + TotalLost(sents[..k], max);
      LostSnoc(sents, k, max);
      NonSpaceConcat(Concat(sents[..k]), sent);
      ReadOneMore(read, Concat(sents[..k]), sent);
      if |Encode(current)| + |Encode(sent)| + 1 <= max {
        FitsIsClean(sent, max);
        Append(chunks, current, read', lost', sent, " ");
        PendingJoined(current, sent, " ", max);
        SentencePacked(sents[k..], max, k == 0, later, chunks, current);
        current := current + sent + " ";
      } else {
        NothingAfter(chunks, current, read', lost');
        FlushKeepsPending(chunks, current, max, read', lost');
        ghost var chunks0, current0 := chunks, current;
        chunks := Flushed(chunks, current);
        ghost var flushed := chunks;
        var pieces, rest, cut := HardSplit(sent, max);
        if rest.UnicodeDecodeError? {
          return UnicodeDecodeError;
        }
        Combine(chunks, read', lost', pieces, rest.value, NonSpace(sent), Lost(sent, max));
        PendingAlone(rest.value, " ", max);
        chunks, current := chunks + pieces, rest.value + " ";
        SentenceCut(sents[k..], max, k == 0, later, chunks0, current0, cut, rest.value);
      }
    }
    assert sents[..|sents|] == sents && sents[|sents|..] == [];
    NoSentenceUnits(max, later);
    SentencesKeepText(para);
    r := Ok((chunks, current));
  }

  lemma NoSentenceUnits(max: nat, later: seq<Unit>)
    requires max >= 1
    ensures SentenceUnits([], max, true) + later == later && SentenceUnits([], max, false) + later == later
  {
  }

  /** A sentence that fits goes into the pending chunk, whether or not it must start one. */
  lemma SentencePacked(sents: seq<string>, max: nat, first: bool, later: seq<Unit>, chunks: seq<string>,
                       current: string)
    requires max >= 1 && sents != [] && |Encode(current)| + |Encode(sents[0])| + 1 <= max
    requires first ==> current == ""
    ensures chunks + Packed(SentenceUnits(sents, max, first) + later, current, max)
            == chunks + Packed(SentenceUnits(sents[1..], max, false) + later, current + sents[0] + " ", max)
  {
    hide Encode, Packed, Strip;
    var u, rest := Unit(sents[0], " ", first), SentenceUnits(sents[1..], max, false);
    assert SentenceUnits(sents, max, first) + later == [u] + (rest + later);
    PackOne(u, rest + later, current, max);
    NothingEmitted();
    assert "" + u.text == u.text;
  }

  lemma FitsIs(current: string, u: Unit, max: nat)
    ensures FitsBehind(current, u, max) <==> |Encode(current)| + |Encode(u.text)| + |u.sep| <= max
  {
    hide Encode;
  }

  lemma NothingEmitted()
    ensures Emitted("") == [] && forall x: seq<string> :: Emitted("") + x == x
  {
  }

  /** Any other sentence ends the pending chunk, and its last slice starts the next. */
  lemma SentenceCut(sents: seq<string>, max: nat, first: bool, later: seq<Unit>, chunks: seq<string>,
                    current: string, cut: seq<string>, last: string)
    requires max >= 1 && sents != [] && |Encode(current)| + |Encode(sents[0])| + 1 > max
    requires cut + [last] == Slices(sents[0], 0, max)
    ensures chunks + Packed(SentenceUnits(sents, max, first) + later, current, max)
            == Flushed(chunks, current) + Kept(cut)
               + Packed(SentenceUnits(sents[1..], max, false) + later, last + " ", max)
  {
    hide *;
    var s, rest := sents[0], SentenceUnits(sents[1..], max, false);
    FlushEmits(chunks, current);
    FirstSentence(sents, max, first, later);
    if |Encode(s)| <= max {
      WholeSlice(s, max);
      OnlyOne(cut, last, s);
      NothingKept();
      var u := Unit(s, " ", first);
      PackOne(u, rest + later, current, max);
      FitsIs(current, u, max);
      assert |u.sep| == 1;
    } else {
      PackSlices(cut, last, rest + later, current, max);
    }
  }

  lemma FirstSentence(sents: seq<string>, max: nat, first: bool, later: seq<Unit>)
    requires max >= 1 && sents != []
    ensures
      var own := if |Encode(sents[0])| <= max then [Unit(sents[0], " ", first)]
                 else FreshUnits(Slices(sents[0], 0, max));
      SentenceUnits(sents, max, first) + later == own + (SentenceUnits(sents[1..], max, false) + later)
  {
    hide Encode, Slices, FreshUnits;
  }

  lemma OnlyOne(cut: seq<string>, last: string, s: string)
    requires cut + [last] == [s]
    ensures cut == [] && last == s
  {
    assert |cut + [last]| == 1 && (cut + [last])[|cut|] == last;
  }

  lemma FlushEmits(chunks: seq<string>, current: string)
    ensures Flushed(chunks, current) == chunks + Emitted(current)
  {
    hide Strip;
  }

  lemma WholeSlice(s: string, max: nat)
    requires max >= 1 && |Encode(s)| <= max
    ensures Slices(s, 0, max) == [s]
  {
    hide Encode;
    assert CharsBefore(s, 0) == 0 && s[0..] == s;
  }

  lemma StartOfSentences(sents: seq<string>, max: int, read: string)
    requires max >= 1
    ensures TotalLost(sents[..0], max) == 0 && NonSpace(Concat(sents[..0])) == "" && Pending("", max)
    ensures read + NonSpace(Concat(sents[..0])) == read
  {
  }

  lemma ReadOneMore(read: string, a: string, b: string)
    ensures read + NonSpace(a + b) == read + NonSpace(a) + NonSpace(b)
  {
    hide NonSpace, IsSpace;
    NonSpaceConcat(a, b);
  }

  lemma NothingAfter(chunks: seq<string>, current: string, read: string, lost: int)
    requires Accounted(chunks, current, read, lost)
    ensures Accounted(chunks, current + "", read, lost)
  {
    assert current + "" == current;
  }

  lemma FlushKeepsPending(chunks: seq<string>, current: string, max: int, read: string, lost: int)
    requires GoodChunks(chunks, max) && Pending(current, max) && Accounted(chunks, current + "", read, lost)
    ensures GoodChunks(Flushed(chunks, current), max) && Accounted(Flushed(chunks, current), "", read, lost)
  {
    FlushKeeps(chunks, current, "", max, read, lost);
  }

  /** After k paragraphs: what was kept of them, and what packing will make of the others. */
  ghost predicate Midway(paras: seq<string>, k: nat, max: nat, chunks: seq<string>, current: string)
    requires max >= 1 && k <= |paras|
  {
    && TextClean(paras[..k], max) && GoodChunks(chunks, max) && Pending(current, max)
    && Accounted(chunks, current, NonSpace(Concat(paras[..k])), TextLost(paras[..k], max))
    && chunks + Packed(Units(paras[k..], max), current, max) == Packed(Units(paras, max), "", max)
  }

  lemma AtStart(paras: seq<string>, max: nat)
    requires max >= 1
    ensures Midway(paras, 0, max, [], "")
  {
    hide NonSpace, Concat, Strip, Accounted, Encode, TextLost, Packed, Units, Pending;
    StartOfParagraphs(paras, max);
    assert paras[0..] == paras;
    assert [] + Packed(Units(paras, max), "", max) == Packed(Units(paras, max), "", max);
  }

  lemma NextClean(paras: seq<string>, k: nat, max: nat)
    requires max >= 1 && k < |paras|
    ensures TextClean(paras[..k+1], max) <==> TextClean(paras[..k], max) && AllClean(Sentences(paras[k]), max)
    ensures paras[k..][1..] == paras[k+1..] && paras[k..][0] == paras[k]
  {
    hide AllClean, Sentences;
    assert forall i :: 0 <= i < k ==> paras[..k+1][i] == paras[..k][i];
    assert paras[..k+1][k] == paras[k];
  }

  /** A paragraph that fits behind what is pending joins it. */
  lemma ParagraphJoins(paras: seq<string>, k: nat, max: nat, chunks: seq<string>, current: string)
    requires max >= 1 && k < |paras| && Midway(paras, k, max, chunks, current)
    requires |Encode(current)| + |Encode(paras[k])| + 2 <= max
    ensures Midway(paras, k + 1, max, chunks, current + paras[k] + "\n\n")
  {
    hide NonSpace, Concat, Strip, Accounted, GoodChunks, Encode, Sentences, Pending, TotalLost, IsSpace, TextLost,
        AllClean, TextClean, Packed, Units, Flushed;
    var para, read, lost := paras[k], NonSpace(Concat(paras[..k])), TextLost(paras[..k], max);
    WhitespaceCharacters();
    TextLostSnoc(paras, k, max);
    NextClean(paras, k, max);
    NonSpaceConcat(Concat(paras[..k]), para);
    SentencesFit(para, max);
    Append(chunks, current, read, lost, para, "\n\n");
    PendingJoined(current, para, "\n\n", max);
    ParagraphPacked(paras[k..], max, chunks, current);
  }

  /** Any other paragraph within the limit is pending alone. */
  lemma ParagraphStarts(paras: seq<string>, k: nat, max: nat, chunks: seq<string>, current: string)
    requires max >= 1 && k < |paras| && Midway(paras, k, max, chunks, current)
    requires |Encode(paras[k])| <= max < |Encode(current)| + |Encode(paras[k])| + 2
    ensures Midway(paras, k + 1, max, Flushed(chunks, current), paras[k] + "\n\n")
  {
    hide NonSpace, Concat, Strip, Accounted, GoodChunks, Encode, Sentences, Pending, TotalLost, IsSpace, TextLost,
        AllClean, TextClean, Packed, Units, Flushed;
    var para, read, lost := paras[k], NonSpace(Concat(paras[..k])), TextLost(paras[..k], max);
    FlushMidway(paras, k, max, chunks, current);
    WhitespaceCharacters();
    TextLostSnoc(paras, k, max);
    NextClean(paras, k, max);
    NonSpaceConcat(Concat(paras[..k]), para);
    SentencesFit(para, max);
    Append(Flushed(chunks, current), "", read, lost, para, "\n\n");
    PendingAlone(para, "\n\n", max);
    assert "" + para == para;
    ParagraphPacked(paras[k..], max, chunks, current);
  }

  lemma FlushMidway(paras: seq<string>, k: nat, max: nat, chunks: seq<string>, current: string)
    requires max >= 1 && k <= |paras| && Midway(paras, k, max, chunks, current)
    ensures GoodChunks(Flushed(chunks, current), max)
    ensures Accounted(Flushed(chunks, current), "", NonSpace(Concat(paras[..k])), TextLost(paras[..k], max))
  {
    hide NonSpace, Concat, Strip, Accounted, GoodChunks, Encode, Pending, IsSpace, TextLost, TextClean, Packed, Units,
        Flushed;
    NothingAfter(chunks, current, NonSpace(Concat(paras[..k])), TextLost(paras[..k], max));
    FlushKeepsPending(chunks, current, max, NonSpace(Concat(paras[..k])), TextLost(paras[..k], max));
  }

  /** A paragraph over the limit, once its sentences are packed. */
  lemma ParagraphIsCut(paras: seq<string>, k: nat, max: nat, chunks: seq<string>, current: string,
                       more: seq<string>, pending: string)
    requires max >= 1 && k < |paras| && Midway(paras, k, max, chunks, current) && |Encode(paras[k])| > max
    requires AllClean(Sentences(paras[k]), max) && GoodChunks(more, max) && Pending(pending, max)
    requires Accounted(more, pending, NonSpace(Concat(paras[..k])) + NonSpace(paras[k]),
                       TextLost(paras[..k], max) + TotalLost(Sentences(paras[k]), max))
    requires
      var later := Units(paras[k+1..], max);
      more + Packed(later, pending, max)
      == Flushed(chunks, current) + Packed(SentenceUnits(Sentences(paras[k]), max, true) + later, "", max)
    ensures Midway(paras, k + 1, max, more, pending)
  {
    hide NonSpace, Concat, Strip, Accounted, GoodChunks, Encode, Sentences, Pending, TotalLost, IsSpace, TextLost,
        AllClean, TextClean, Packed, Units, SentenceUnits, Flushed;
    TextLostSnoc(paras, k, max);
    NextClean(paras, k, max);
    NonSpaceConcat(Concat(paras[..k]), paras[k]);
    ParagraphCut(paras[k..], max, chunks, current);
  }

  lemma AtEnd(text: string, max: nat, chunks: seq<string>, current: string)
    requires max >= 1 && Midway(Paragraphs(text), |Paragraphs(text)|, max, chunks, current)
    ensures TextClean(Paragraphs(text), max) && GoodChunks(Flushed(chunks, current), max)
    ensures Accounted(Flushed(chunks, current), "", NonSpace(text), TextLost(Paragraphs(text), max))
    ensures Flushed(chunks, current) == Packed(Units(Paragraphs(text), max), "", max)
  {
    hide NonSpace, Concat, Strip, Accounted, GoodChunks, Encode, Pending, IsSpace, TextLost, TextClean, Packed, Units,
        Flushed, Paragraphs, Emitted;
    var paras := Paragraphs(text);
    FlushMidway(paras, |paras|, max, chunks, current);
    assert paras[..|paras|] == paras && paras[|paras|..] == [];
    NoUnits(max, current);
    FlushEmits(chunks, current);
    ParagraphsKeepText(text);
  }

  lemma UncleanStays(paras: seq<string>, k: nat, max: nat)
    requires max >= 1 && k < |paras| && !AllClean(Sentences(paras[k]), max)
    ensures !TextClean(paras, max)
  {
    hide AllClean, Sentences;
  }

  /** The paragraph loop: everything but the fallback for a text of which nothing is left. */
  method ChunkPieces(text: string, max: int) returns (r: Result<seq<string>>)
    requires max >= 1
    ensures r.Ok? <==> TextClean(Paragraphs(text), max)
    ensures r.Ok? ==> GoodChunks(r.value, max)
    ensures r.Ok? ==> Accounted(r.value, "", NonSpace(text), TextLost(Paragraphs(text), max))
    ensures r.Ok? ==> r.value == Packed(Units(Paragraphs(text), max), "", max)
  {
    hide NonSpace, Concat, Strip, Accounted, GoodChunks, Encode, Sentences, Pending, TotalLost, IsSpace, TextLost,
        AllClean, TextClean, Packed, Units, SentenceUnits, Flushed, Emitted, Midway, Paragraphs;
    var chunks, current := [], "";
    var paras := Paragraphs(text);
    AtStart(paras, max);
    for k := 0 to |paras|
      invariant Midway(paras, k, max, chunks, current)
    {
      var para := paras[k];
      if |Encode(current)| + |Encode(para)| + 2 <= max {
        ParagraphJoins(paras, k, max, chunks, current);
        current := current + para + "\n\n";
      } else {
        FlushMidway(paras, k, max, chunks, current);
        ghost var chunks0, current0 := chunks, current;
        chunks, current := Flushed(chunks, current), "";
        if |Encode(para)| <= max {
          ParagraphStarts(paras, k, max, chunks0, current0);
          current := para + "\n\n";
        } else {
          var more := AddSentences(para, max, chunks, NonSpace(Concat(paras[..k])), TextLost(paras[..k], max),
                                   Units(paras[k+1..], max));
          if more.UnicodeDecodeError? {
            UncleanStays(paras, k, max);
            return UnicodeDecodeError;
          }
          ParagraphIsCut(paras, k, max, chunks0, current0, more.value.0, more.value.1);
          chunks, current := more.value.0, more.value.1;
        }
      }
    }
    AtEnd(text, max, chunks, current);
    r := Ok(Flushed(chunks, current));
  }

  lemma NoUnits(max: nat, current: string)
    requires max >= 1
    ensures Packed(Units([], max), current, max) == Emitted(current)
  {
  }

  lemma ParagraphPacked(paras: seq<string>, max: nat, chunks: seq<string>, current: string)
    requires max >= 1 && paras != [] && |Encode(paras[0])| <= max
    ensures
      var para, rest := paras[0], Units(paras[1..], max);
      chunks + Packed(Units(paras, max), current, max)
      == if |Encode(current)| + |Encode(para)| + 2 <= max
         then chunks + Packed(rest, current + para + "\n\n", max)
         else Flushed(chunks, current) + Packed(rest, para + "\n\n", max)
  {
    hide Encode, Packed, Strip, Emitted;
    var u := Unit(paras[0], "\n\n", false);
    PackOne(u, Units(paras[1..], max), current, max);
    FlushEmits(chunks, current);
  }

  /** The sentences of a paragraph over the limit start a chunk. */
  lemma ParagraphCut(paras: seq<string>, max: nat, chunks: seq<string>, current: string)
    requires max >= 1 && paras != [] && |Encode(paras[0])| > max
    ensures
      var own := SentenceUnits(Sentences(paras[0]), max, true);
      chunks + Packed(Units(paras, max), current, max)
      == Flushed(chunks, current) + Packed(own + Units(paras[1..], max), "", max)
  {
    hide Encode, Packed, Strip, Emitted, Sentences, SentenceUnits;
    var own, rest := SentenceUnits(Sentences(paras[0]), max, true), Units(paras[1..], max);
    FirstIsFresh(Sentences(paras[0]), max);
    FlushEmits(chunks, current);
    NothingEmitted();
    var u := own[0];
    assert own + rest == [u] + (own[1..] + rest);
    PackOne(u, own[1..] + rest, current, max);
    PackOne(u, own[1..] + rest, "", max);
  }

  lemma FirstIsFresh(sents: seq<string>, max: nat)
    requires max >= 1 && sents != []
    ensures SentenceUnits(sents, max, true) != [] && SentenceUnits(sents, max, true)[0].starts
  {
    hide Encode;
  }

  lemma StartOfParagraphs(paras: seq<string>, max: int)
    requires max >= 1
    ensures TextLost(paras[..0], max) == 0 && Pending("", max)
    ensures Accounted([], "", NonSpace(Concat(paras[..0])), 0)
  {
  }

  /** What splitting keeps of a text whose `lost` characters fall to byte cuts. */
  ghost predicate Preserved(chunks: seq<string>, text: string, lost: nat) {
    && |NonSpace(Concat(chunks))| + lost == |NonSpace(text)|
    && (lost == 0 ==> NonSpace(Concat(chunks)) == NonSpace(text))
  }

  /** What is spoken when every character fell to a cut: the text, cut by characters. */
  function Fallback(text: string, max: nat): string {
    if |Strip(text)| <= max then Strip(text) else Strip(text)[..max]
  }

  predicate Within(chunks: seq<string>, max: int) {
    forall k :: 0 <= k < |chunks| ==> |Encode(chunks[k])| <= max
  }

  /** `chunk_for_provider`.  It raises exactly when the last byte cut of some sentence goes through a
      character.  Otherwise every chunk is stripped, non-empty and within the byte limit, and the
      chunks hold the non-space characters of the text but for those the cuts go through.  Only when
      every one of those is lost does the fallback, measured in characters, take over. */
  method ChunkForProvider(text: string, max: int) returns (r: Result<seq<string>>)
    requires max >= 1
    ensures r.Ok? <==> TextClean(Paragraphs(text), max)
    ensures r.Ok? && (TextLost(Paragraphs(text), max) < |NonSpace(text)| || NonSpace(text) == "") ==>
              GoodChunks(r.value, max) && Preserved(r.value, text, TextLost(Paragraphs(text), max))
    ensures r.Ok? && 0 < |NonSpace(text)| == TextLost(Paragraphs(text), max) ==>
              r.value == [Fallback(text, max)]
    ensures r.Ok? ==> r.value == Chunked(text, max)
    ensures r.Ok? ==> TextLost(Paragraphs(text), max) <= |NonSpace(text)|
    ensures r.Ok? ==>
              (Within(r.value, max) <==>
                 || TextLost(Paragraphs(text), max) < |NonSpace(text)| || NonSpace(text) == ""
                 || |Encode(Fallback(text, max))| <= max)
  {
    hide NonSpace, Concat, Strip, GoodChunks, Encode, IsSpace, TextLost, TextClean, Paragraphs, Within, Packed, Units;
    NonSpaceOfStrip(text);
    NonSpaceOfBlank(text);
    if |Encode(text)| <= max {
      ParagraphsFit(text, max);
      StripFits(text);
      OneChunk(text, max);
      GoodIsWithin(if Strip(text) != "" then [Strip(text)] else [], max);
      return Ok(if Strip(text) != "" then [Strip(text)] else []);
    }
    r := ChunkPieces(text, max);
    if r.Ok? {
      WhenEmpty(r.value, text, TextLost(Paragraphs(text), max), max);
      GoodIsWithin(r.value, max);
    }
    if r.Ok? && r.value == [] {
      var fallback := Strip(text);
      if fallback != "" {
        r := Ok([if |fallback| <= max then fallback else fallback[..max]]);
        OneWithin(Fallback(text, max), max);
      }
    }
  }

  lemma GoodIsWithin(chunks: seq<string>, max: int)
    requires GoodChunks(chunks, max)
    ensures Within(chunks, max)
  {
    hide Encode, Stripped;
  }

  lemma OneWithin(chunk: string, max: int)
    ensures Within([chunk], max) <==> |Encode(chunk)| <= max
  {
    hide Encode;
    assert [chunk][0] == chunk;
  }

  lemma OneChunk(text: string, max: int)
    requires |Encode(Strip(text))| <= max
    ensures var chunks := if Strip(text) != "" then [Strip(text)] else [];
            GoodChunks(chunks, max) && Preserved(chunks, text, 0)
  {
    hide NonSpace, Strip, Encode, IsSpace;
    NonSpaceOfStrip(text);
    ConcatOne(Strip(text));
    NonSpaceOfBlank(text);
    NonSpaceOfBlank("");
  }

  lemma WhenEmpty(chunks: seq<string>, text: string, lost: nat, max: int)
    requires GoodChunks(chunks, max) && Accounted(chunks, "", NonSpace(text), lost)
    ensures Preserved(chunks, text, lost)
    ensures chunks == [] <==> lost == |NonSpace(text)|
  {
    hide IsSpace, Encode, NonSpace;
    NonSpaceOfBlank("");
    if chunks != [] {
      assert GoodChunk(chunks[0], max);
      NonSpaceConcat(chunks[0], Concat(chunks[1..]));
      NonSpaceOfBlank(chunks[0]);
    }
  }

  // ---------- consequences ----------

  /** If every sentence over the limit is ASCII, nothing is lost and nothing raises. */
  lemma AsciiRunOnsAreSafe(text: string, max: int)
    requires max >= 1
    requires forall p, s :: p in Paragraphs(text) && s in Sentences(p) && |Encode(s)| > max ==> Ascii(s)
    ensures TextClean(Paragraphs(text), max) && TextLost(Paragraphs(text), max) == 0
  {
    hide Paragraphs, Sentences;
    AsciiParagraphs(Paragraphs(text), max);
  }

  lemma {:induction false} AsciiParagraphs(paras: seq<string>, max: int)
    requires max >= 1
    requires forall p, s :: p in paras && s in Sentences(p) && |Encode(s)| > max ==> Ascii(s)
    ensures TextClean(paras, max) && TextLost(paras, max) == 0
  {
    hide Sentences, Encode, Ascii, TotalLost, AllClean;
    if paras != [] {
      assert paras[0] in paras;
      AsciiSentences(Sentences(paras[0]), max);
      AsciiParagraphs(paras[1..], max);
    }
  }

  lemma {:induction false} AsciiSentences(sents: seq<string>, max: int)
    requires max >= 1 && forall s :: s in sents && |Encode(s)| > max ==> Ascii(s)
    ensures AllClean(sents, max) && TotalLost(sents, max) == 0
  {
    hide Encode, Ascii, CleanEnd, Lost;
    if sents != [] {
      assert sents[0] in sents;
      OneSentence(sents[0], max);
      AsciiSentences(sents[1..], max);
    }
  }

  lemma OneSentence(s: string, max: int)
    requires max >= 1 && (|Encode(s)| > max ==> Ascii(s))
    ensures CleanEnd(s, max) && Lost(s, max) == 0
  {
    if |Encode(s)| <= max {
      FitsIsClean(s, max);
    } else {
      AsciiLosesNothing(s, 0, max);
      AsciiLosesNothing(s, max, max);
    }
  }

  function Run(c: char, n: nat): string {
    if n == 0 then "" else [c] + Run(c, n - 1)
  }

  lemma {:induction false} OddCut(c: char, n: nat, off: nat)
    requires |EncodeChar(c)| == 2 && off % 2 == 1 && off < 2 * n
    ensures |Encode(Run(c, n))| == 2 * n
    ensures CutChar(Run(c, n), off) == Some(c)
    decreases n
  {
    hide EncodeChar;
    var s := Run(c, n);
    assert s[1..] == Run(c, n - 1);
    if off > 2 {
      OddCut(c, n - 1, off - 2);
    } else {
      RunLength(c, n - 1);
    }
  }

  lemma {:induction false} RunLength(c: char, n: nat)
    requires |EncodeChar(c)| == 2
    ensures |Encode(Run(c, n))| == 2 * n
  {
    hide EncodeChar;
    if n > 0 {
      RunLength(c, n - 1);
      assert Run(c, n)[1..] == Run(c, n - 1);
    }
  }

  /** Outside ASCII the split does lose text: with an odd limit the first cut through a run of
      two-byte letters already hits one of them. */
  lemma TwoByteRunLosesText(c: char, n: nat, max: nat)
    requires |EncodeChar(c)| == 2 && !IsSpace(c) && max % 2 == 1 && max < 2 * n
    ensures Lost(Run(c, n), max) >= 1
  {
    hide EncodeChar, IsSpace, CutChar;
    OddCut(c, n, max);
    assert CharsBefore(Run(c, n), 0) == 0;
  }

  /** And the fallback, cut by characters, can break the byte limit: a four-byte character and two
      spaces with a limit of two bytes. */
  lemma FallbackOverrunsTheLimit(c: char)
    requires |EncodeChar(c)| == 4 && !IsSpace(c)
    ensures
      var text := [c, ' ', ' '];
      && TextClean(Paragraphs(text), 2)
      && 0 < |NonSpace(text)| == TextLost(Paragraphs(text), 2)
      && Strip(text) == [c] && |Encode(Strip(text))| > 2
  {
    var text := [c, ' ', ' '];
    FallbackText(c);
    FallbackCuts(c);
    hide Lost, CleanEnd, Paragraphs, Sentences, NonSpace, Strip;
    assert [text][1..] == [];
    assert TotalLost([], 2) == 0 && TotalLost([text], 2) == Lost(text, 2) + TotalLost([], 2);
    assert TextLost([], 2) == 0 && TextLost([text], 2) == TotalLost(Sentences(text), 2) + TextLost([], 2);
  }

  lemma FallbackText(c: char)
    requires |EncodeChar(c)| == 4 && !IsSpace(c)
    ensures Paragraphs([c, ' ', ' ']) == [[c, ' ', ' ']] && Sentences([c, ' ', ' ']) == [[c, ' ', ' ']]
    ensures NonSpace([c, ' ', ' ']) == [c] && Strip([c, ' ', ' ']) == [c] && |Encode([c])| == 4
  {
    var text := [c, ' ', ' '];
    assert text[1..] == "  " && text[1..][1..] == " ";
    assert FindBreak(text) == 3;
    assert FindSentenceEnd(text) == 3;
    assert NonSpace("  ") == "";
    assert text[..2][..1] == [c];
    assert RStrip([c]) == [c];
    assert text[..2] == [c, ' '] && RStrip([c, ' ']) == [c];
  }

  lemma FallbackCuts(c: char)
    requires |EncodeChar(c)| == 4 && !IsSpace(c)
    ensures Lost([c, ' ', ' '], 2) == 1 && CleanEnd([c, ' ', ' '], 2)
  {
    var text := [c, ' ', ' '];
    assert text[1..] == "  " && text[1..][1..] == " ";
    assert EncodeChar(' ') == [32];
    assert Encode(" ") == [32] && |Encode("  ")| == 2 && |Encode(text)| == 6;
    assert CutChar(text, 2) == Some(c) && CutChar(text, 4) == None;
    assert CharsWithin(text, 2) == 0 && CharsBefore(text, 0) == 0;
    assert LostFrom(text, 6, 2) == 0 && LostFrom(text, 4, 2) == 0;
    assert CleanFrom(text, 4, 2) && CleanFrom(text, 2, 2);
  }
}
