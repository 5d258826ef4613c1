/** The fixed tables of the ACX/SSML converters (backend/services/ssml_converter.py:18-38, 51-72, 209-232) as scales:
    how far each emotion moves the pitch, what a foreign pitch or rate is read as, and how the tags are spelled. */
module SsmlScales {
  import opened Wrappers
  import opened Text
  import opened SsmlTokens
  import opened SsmlConverter

  // ---------- the pitch of an emotion ----------

  const SCALE: seq<Emotion> := [Ominous, Dark, Dejected, Sad, Melancholy, Happy, Excited, Surprised, Shocked]
  const NAMES: seq<string> := ["ominous", "dark", "dejected", "sad", "melancholy", "happy", "excited", "surprised",
                               "shocked"]
  const PERCENTS: seq<int> := [-50, -40, -30, -20, -10, 10, 20, 30, 50]

  /** Where an emotion stands between the darkest and the most aroused. */
  function Rank(e: Emotion): nat {
    match e
    case Ominous => 0
    case Dark => 1
    case Dejected => 2
    case Sad => 3
    case Melancholy => 4
    case Happy => 5
    case Excited => 6
    case Surprised => 7
    case Shocked => 8
  }

  lemma TwoDigits(sign: char, d: char)
    requires (sign == '+' || sign == '-') && IsDigit(d)
    ensures PitchNumber([sign, d, '0', '%']) == Some(if sign == '+' then 10 * DigitValue(d) else -10 * DigitValue(d))
  {
    hide IndexOf;
    var digits, number, s := [d, '0'], [sign, d, '0'], [sign, d, '0', '%'];
    IndexOfFirst(number, '%', "");
    assert number + ['%'] + "" == s;
    assert s[..3] == number && number[1..] == digits;
    assert number[0] == sign && !IsDigit(sign);
    assert digits[..1] == [d] && [d][..0] == "" && digits[1] == '0';
    assert Value("") == 0;
    assert Value([d]) == DigitValue(d);
    assert Value(digits) == 10 * DigitValue(d) + DigitValue('0');
  }

  /** Every emotion has its name and its percentage on the scale. */
  lemma EmotionOnScale(e: Emotion)
    ensures Rank(e) < |SCALE| == |NAMES| == |PERCENTS| && SCALE[Rank(e)] == e
    ensures EmotionName(e) == NAMES[Rank(e)] && PitchNumber(PitchOf(e)) == Some(PERCENTS[Rank(e)])
  {
    hide PitchNumber;
    var s := PitchOf(e);
    assert s == [s[0], s[1], '0', '%'];
    TwoDigits(s[0], s[1]);
  }

  /** The higher on the scale, the higher the pitch: no two emotions share one. */
  lemma PitchRisesAlongTheScale(e: Emotion, f: Emotion)
    ensures PitchNumber(PitchOf(e)).Some? && PitchNumber(PitchOf(f)).Some?
    ensures Rank(e) < Rank(f) <==> PitchNumber(PitchOf(e)).value < PitchNumber(PitchOf(f)).value
    ensures e == f <==> PitchOf(e) == PitchOf(f)
  {
    hide PitchNumber, PitchOf;
    EmotionOnScale(e);
    EmotionOnScale(f);
  }

  lemma OneNode(part: Piece)
    requires part.Node? && part.element.tail == ""
    ensures Assemble(Speak, [part]) == Element(Speak, "", [part.element], "")
  {
    assert [part][1..] == [];
    assert Kids([]) == [] && Lead([]) == "";
  }

  lemma TagThenText(t: Token, text: string)
    requires Plain(t) && !t.Txt? && text != "" && Plain(Txt(text))
    ensures Tokenize(Show(t) + text) == [t, Txt(text)] && ShowAll([t, Txt(text)]) == Show(t) + text
  {
    hide Plain, Show, Tokenize;
    var ts := [t, Txt(text)];
    assert ts[1..] == [Txt(text)] && ts[1..][1..] == [];
    ShowTextOne(text);
    assert ShowAll(ts) == Show(t) + ShowAll(ts[1..]);
    TokenizeShown(ts);
  }

  lemma ShowTextOne(text: string)
    ensures ShowAll([Txt(text)]) == text
  {
    assert [Txt(text)][1..] == [];
    assert text + "" == text;
  }

  lemma FeelBuilds(e: Emotion, text: string)
    ensures Build([Feel(e), Txt(text)]) == [Node(Leaf(Prosody("", PitchOf(e)), text))]
  {
    var ts := [Feel(e), Txt(text)];
    assert ts[1..] == [Txt(text)] && [Txt(text)][1..] == [];
    assert InlineText([]) == ("", []);
    assert InlineText(ts[1..]) == (text + "", []);
    assert text + "" == text;
    assert Build([]) == [];
  }

  /** What the converter writes for an emotion tag and its text: the text, at the pitch of the scale. */
  lemma EmotionIsPitched(k: nat, text: string)
    requires k < |SCALE| && Plain(Txt(text)) && text != ""
    ensures
      var pitch := PitchOf(SCALE[k]);
      && Tree("[" + NAMES[k] + "]" + text) == Element(Speak, "", [Element(Prosody("", pitch), text, [], "")], "")
      && PitchNumber(pitch) == Some(PERCENTS[k])
  {
    hide Plain, Tokenize, Blank, Build, PitchOf, PitchNumber, Show;
    var e := SCALE[k];
    assert Rank(e) == k;
    EmotionOnScale(e);
    FeelIsPlain(e);
    var acx := Show(Feel(e)) + text;
    assert acx == "[" + NAMES[k] + "]" + text;
    TagThenText(Feel(e), text);
    TaggedIsNotBlank(acx);
    FeelBuilds(e, text);
    OneNode(Node(Leaf(Prosody("", PitchOf(e)), text)));
  }

  lemma FeelIsPlain(e: Emotion)
    ensures Plain(Feel(e)) && Show(Feel(e)) == "[" + EmotionName(e) + "]"
  {
  }

  lemma TaggedIsNotBlank(s: string)
    requires s != "" && s[0] == '['
    ensures !Blank(s)
  {
  }

  // ---------- foreign pitches and rates ----------

  /** The emotion of a pitch of v percent that is not one of the ten named ones. */
  function Bucket(v: int): Option<Emotion> {
    if v >= 40 then Some(Shocked) else if v >= 20 then Some(Excited) else if v >= 5 then Some(Happy)
    else if v > -5 then None
    else if v > -20 then Some(Melancholy) else if v > -40 then Some(Sad) else Some(Ominous)
  }

  /** The pitches that are named, with their sign written. */
  function Named(v: int): Option<Emotion> {
    if v == 10 || v == 20 then Some(Excited) else if v == 30 || v == 40 then Some(Surprised)
    else if v == 50 then Some(Shocked)
    else if v == -10 || v == -20 then Some(Sad) else if v == -30 then Some(Dejected)
    else if v == -40 then Some(Dark) else if v == -50 then Some(Ominous) else None
  }

  lemma PercentStays(sign: string, v: nat)
    requires sign in {"+", "-", ""}
    ensures
      var s := sign + Decimal(v) + "%";
      && Lower(Strip(s)) == s && IndexOf(s, '%') == |s| - 1 && s[..|s|-1] == sign + Decimal(v)
      && ParseInt(sign + Decimal(v)) == Some(if sign == "-" then -(v as int) else v)
  {
    hide IndexOf, Lower, Decimal, Value;
    DecimalReads(v);
    var number, s := sign + Decimal(v), sign + Decimal(v) + "%";
    var digits := Decimal(v);
    assert forall i :: 0 <= i < |digits| ==> IsDigit(digits[i]);
    assert forall i :: 0 <= i < |number| ==> IsDigit(number[i]) || number[i] == '+' || number[i] == '-';
    assert s == number + ['%'] + "";
    IndexOfFirst(number, '%', "");
    LowerKeeps(s);
    EndsStay(s);
    assert s[..|s|-1] == number;
    if sign != "" {
      assert number[0] == sign[0] && number[1..] == digits;
    } else {
      assert number == digits;
    }
  }

  lemma EndsStay(s: string)
    requires s != "" && !IsSpace(s[0]) && !IsSpace(s[|s|-1])
    ensures Strip(s) == s
  {
    hide IsSpace;
  }

  lemma NamedNumbers()
    ensures Decimal(10) == "10" && Decimal(20) == "20" && Decimal(30) == "30" && Decimal(40) == "40"
    ensures Decimal(50) == "50"
  {
    assert Decimal(1) == "1" && Decimal(2) == "2" && Decimal(3) == "3" && Decimal(4) == "4" && Decimal(5) == "5";
    assert Decimal(0) == "0";
  }

  /** A signed decimal is the text of exactly one number. */
  lemma SameNumber(sign: string, v: nat, n: nat)
    ensures sign + Decimal(v) + "%" == sign + Decimal(n) + "%" <==> v == n
  {
    hide Decimal, Value;
    DecimalReads(v);
    DecimalReads(n);
    var s, t := sign + Decimal(v) + "%", sign + Decimal(n) + "%";
    assert s[|sign|..|s|-1] == Decimal(v) && t[|sign|..|t|-1] == Decimal(n);
  }

  lemma NamedTexts(sign: string, v: nat)
    requires sign in {"+", "-"}
    ensures
      var s := sign + Decimal(v) + "%";
      && (s == sign + "10%" <==> v == 10) && (s == sign + "20%" <==> v == 20) && (s == sign + "30%" <==> v == 30)
      && (s == sign + "40%" <==> v == 40) && (s == sign + "50%" <==> v == 50)
  {
    hide Decimal;
    NamedNumbers();
    SameNumber(sign, v, 10);
    SameNumber(sign, v, 20);
    SameNumber(sign, v, 30);
    SameNumber(sign, v, 40);
    SameNumber(sign, v, 50);
    assert sign + "10" + "%" == sign + "10%" && sign + "20" + "%" == sign + "20%" && sign + "30" + "%" == sign + "30%";
    assert sign + "40" + "%" == sign + "40%" && sign + "50" + "%" == sign + "50%";
  }

  /** A pitch with a sign is read by name where it has one, and by its bucket elsewhere. */
  lemma SignedPitchReads(positive: bool, v: nat)
    ensures
      var n: int := if positive then v else -(v as int);
      MapPitch((if positive then "+" else "-") + Decimal(v) + "%") == if Named(n).Some? then Named(n) else Bucket(n)
  {
    hide Decimal, Lower, Strip, ParseInt, IndexOf;
    var sign := if positive then "+" else "-";
    var s := sign + Decimal(v) + "%";
    PercentStays(sign, v);
    NamedTexts(sign, v);
    assert s[0] == sign[0];
    assert "+10%" == "+" + "10%" && "+20%" == "+" + "20%" && "+30%" == "+" + "30%" && "+40%" == "+" + "40%";
    assert "+50%" == "+" + "50%" && "-10%" == "-" + "10%" && "-20%" == "-" + "20%" && "-30%" == "-" + "30%";
    assert "-40%" == "-" + "40%" && "-50%" == "-" + "50%";
  }

  /** Without a sign it has no name: "10%" is happy where "+10%" is excited. */
  lemma UnsignedPitchReads(v: nat)
    ensures MapPitch(Decimal(v) + "%") == Bucket(v)
  {
    hide Decimal, Lower, Strip, ParseInt, IndexOf;
    var s := "" + Decimal(v) + "%";
    assert s == Decimal(v) + "%" && "" + Decimal(v) == Decimal(v);
    PercentStays("", v);
    FirstIsDigit(v);
  }

  lemma FirstIsDigit(v: nat)
    ensures Decimal(v) != "" && IsDigit(Decimal(v)[0])
  {
    DecimalReads(v);
  }

  /** A higher pitch can be read as a calmer emotion: the buckets leave out the named pitches between them. */
  lemma BucketsAreNotMonotone()
    ensures MapPitch("+10%") == Some(Excited) && MapPitch("+12%") == Some(Happy) && Rank(Happy) < Rank(Excited)
    ensures MapPitch("+30%") == Some(Surprised) && MapPitch("+35%") == Some(Excited) && Rank(Excited) < Rank(Surprised)
  {
    hide MapPitch, Decimal;
    SmallDecimals();
    SignedPitchReads(true, 10);
    SignedPitchReads(true, 12);
    SignedPitchReads(true, 30);
    SignedPitchReads(true, 35);
    assert "+" + "10" + "%" == "+10%" && "+" + "12" + "%" == "+12%";
    assert "+" + "30" + "%" == "+30%" && "+" + "35" + "%" == "+35%";
  }

  lemma SmallDecimals()
    ensures Decimal(10) == "10" && Decimal(12) == "12" && Decimal(30) == "30" && Decimal(35) == "35"
  {
    assert Decimal(1) == "1" && Decimal(3) == "3";
  }

  const SPEEDS: seq<string> := ["x-slow", "slow", "medium", "fast", "x-fast"]

  /** The five speeds of SSML become three, in order. */
  lemma SpeedsKeepTheirOrder(k: nat)
    requires k < |SPEEDS|
    ensures MapRate(SPEEDS[k]) == ["slow", "slow", "normal", "fast", "fast"][k]
  {
    hide Lower;
    LowerKeeps(SPEEDS[k]);
  }

  /** What markup means that the converter itself never writes: a break without a time is half a second, a
      language or a voice without a name is unknown, a rate goes before a pitch, an alias replaces the text. */
  lemma ForeignMarkupReads(text: string)
    ensures ToAcx(Leaf(Break(None), "")) == "[pause:500]"
    ensures ToAcx(Leaf(Lang(None), text)) == "[lang:und]" + text + "[/lang]"
    ensures ToAcx(Leaf(Voice(None), text)) == "[SPEAKER:unknown]" + text
    ensures ToAcx(Leaf(Prosody("fast", "+50%"), text)) == "[rate:fast]" + text
    ensures ToAcx(Leaf(Prosody("", "+1%"), text)) == text == ToAcx(Leaf(Other, text)) == ToAcx(Leaf(Sub(""), text))
    ensures ToAcx(Leaf(Sub("alias"), text)) == "alias"
    ensures ToAcx(Leaf(SayAs("number"), text)) == Strip(text) && ToAcx(Leaf(SayAs("date"), text)) == text
  {
    hide MapPitch, MapRate, BreakMs, ShowInt, Strip, ToAcx;
    LeafText(Break(None), "");
    LeafText(Lang(None), text);
    LeafText(Voice(None), text);
    LeafText(Other, text);
    LeafText(Sub(""), text);
    LeafText(Sub("alias"), text);
    LeafText(SayAs("number"), text);
    LeafText(SayAs("date"), text);
    HalfASecond();
    ForeignProsody(text);
  }

  lemma ForeignProsody(text: string)
    ensures ToAcx(Leaf(Prosody("fast", "+50%"), text)) == "[rate:fast]" + text
    ensures ToAcx(Leaf(Prosody("", "+1%"), text)) == text
  {
    hide MapPitch, MapRate, ToAcx;
    LeafText(Prosody("fast", "+50%"), text);
    LeafText(Prosody("", "+1%"), text);
    SpeedsKeepTheirOrder(3);
    OnePercentSaysNothing();
    assert "[rate:" + "fast" + "]" == "[rate:fast]";
  }

  lemma HalfASecond()
    ensures ShowInt(BreakMs(None)) == "500"
  {
    hide BreakMs, Decimal, Value;
    PauseReads("500");
    assert "500" + "ms" == "500ms";
    NoTimeIsHalfASecond();
    FiveHundred();
  }

  lemma NoTimeIsHalfASecond()
    ensures BreakMs(None) == BreakMs(Some("500ms"))
  {
  }

  lemma FiveHundred()
    ensures Value("500") == 500 && Decimal(500) == "500"
  {
    assert "500"[..2] == "50" && "50"[..1] == "5" && "5"[..0] == "";
    assert Value("5") == 5 && Value("50") == 50;
    assert Decimal(5) == "5" && Decimal(50) == "50";
  }

  lemma OnePercentSaysNothing()
    ensures MapPitch("+1%").None?
  {
    hide MapPitch;
    SignedPitchReads(true, 1);
    assert Decimal(1) == "1" && "+" + "1" + "%" == "+1%";
  }

  // ---------- the spelling of the tags ----------

  lemma OneTag(t: Token, body: string)
    requires Plain(t) && !t.Txt? && BodyOf(t) == body
    ensures Tokenize("[" + body + "]") == [t]
  {
    hide Plain, Tokenize, BodyOf;
    ShowOne(t);
    TokenizeShown([t]);
  }

  /** How the tags without a value are spelled. */
  lemma TagsAreSpelled()
    ensures Tokenize("[" + "emphasis" + "]") == [EmphasisOpen] && Tokenize("[" + "/emphasis" + "]") == [EmphasisClose]
    ensures Tokenize("[" + "/lang" + "]") == [LangClose]
  {
    hide Tokenize;
    OneTag(EmphasisOpen, "emphasis");
    OneTag(EmphasisClose, "/emphasis");
    OneTag(LangClose, "/lang");
  }

  /** How the tags with a value are spelled. */
  lemma ValueTagsAreSpelled(ms: string, word: string, lang: string)
    requires Digits(ms) && Word(word) && LangTag(lang)
    ensures Tokenize("[" + ("pause:" + ms) + "]") == [Pause(ms)]
    ensures Tokenize("[" + ("rate:" + word) + "]") == [Rate(word)]
    ensures Tokenize("[" + ("SPEAKER:" + word) + "]") == [Speaker(word)]
    ensures Tokenize("[" + ("lang:" + lang) + "]") == [LangOpen(lang)]
  {
    hide Tokenize, Digits, Word, LangTag;
    OneTag(Pause(ms), "pause:" + ms);
    OneTag(Rate(word), "rate:" + word);
    OneTag(Speaker(word), "SPEAKER:" + word);
    OneTag(LangOpen(lang), "lang:" + lang);
  }
}
