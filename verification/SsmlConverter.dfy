/** The converters between ACX tagged text and SSML (backend/services/ssml_converter.py:16-158,
    280-389).  XML writing and parsing are taken as faithful: the converter's output is the element
    tree that the parser builds from it. */
module SsmlConverter {
  import opened Wrappers
  import opened Text
  import opened SsmlTokens

  // ---------- small conversions ----------

  function LowerChar(c: char): char {
    if 'A' <= c <= 'Z' then (c as int + 32) as char else c
  }

  /** `str.lower` on ASCII letters. */
  function Lower(s: string): string {
    if s == "" then "" else [LowerChar(s[0])] + Lower(s[1..])
  }

  /** `s.replace("ms", "")` */
  function RemoveMs(s: string): string {
    if |s| < 2 then s
    else if s[0] == 'm' && s[1] == 's' then RemoveMs(s[2..])
    else [s[0]] + RemoveMs(s[1..])
  }

  function DigitValue(c: char): nat
    requires IsDigit(c)
  {
    c as int - '0' as int
  }

  function Value(s: string): nat
    requires forall i :: 0 <= i < |s| ==> IsDigit(s[i])
  {
    if s == "" then 0 else Value(s[..|s|-1]) * 10 + DigitValue(s[|s|-1])
  }

  /** `int(s)` for an optional sign and digits. */
  function ParseInt(s: string): Option<int> {
    if Digits(s) then Some(Value(s))
    else if s != "" && s[0] == '-' && Digits(s[1..]) then (var v: int := Value(s[1..]); Some(-v))
    else if s != "" && s[0] == '+' && Digits(s[1..]) then Some(Value(s[1..]))
    else None
  }

  function Decimal(n: nat): string {
    if n < 10 then [(n + '0' as int) as char] else Decimal(n / 10) + [(n % 10 + '0' as int) as char]
  }

  function ShowInt(n: int): string {
    if n < 0 then "-" + Decimal(-n) else Decimal(n)
  }

  function MapRate(rate: string): string {
    var r := Lower(rate);
    if r == "x-slow" then "slow"
    else if r == "medium" then "normal"
    else if r == "x-fast" then "fast"
    else r
  }

  function PitchOf(e: Emotion): string {
    match e
    case Excited => "+20%" case Happy => "+10%" case Surprised => "+30%" case Shocked => "+50%"
    case Sad => "-20%" case Melancholy => "-10%" case Dejected => "-30%" case Dark => "-40%" case Ominous => "-50%"
  }

  /** The numeric fallback: an optional sign, digits and a percent sign at the front. */
  function PitchNumber(s: string): Option<int> {
    var i := IndexOf(s, '%');
    if i < |s| then ParseInt(s[..i]) else None
  }

  function MapPitch(pitch: string): Option<Emotion> {
    var s := Lower(Strip(pitch));
    if s == "+10%" || s == "+20%" then Some(Excited)
    else if s == "+30%" || s == "+40%" then Some(Surprised)
    else if s == "+50%" then Some(Shocked)
    else if s == "-10%" || s == "-20%" then Some(Sad)
    else if s == "-30%" then Some(Dejected)
    else if s == "-40%" then Some(Dark)
    else if s == "-50%" then Some(Ominous)
    else
      match PitchNumber(s)
      case None => None
      case Some(v) =>
        if v >= 40 then Some(Shocked) else if v >= 20 then Some(Excited) else if v >= 5 then Some(Happy)
        else if v <= -40 then Some(Ominous) else if v <= -20 then Some(Sad) else if v <= -5 then Some(Melancholy)
        else None
  }

  /** `int(time_attr.lower().replace("ms", "").strip())`, 500 when that is not a number. */
  function BreakMs(time: Option<string>): int {
    var attr := if time.Some? then time.value else "500ms";
    match ParseInt(Strip(RemoveMs(Lower(attr))))
    case Some(n) => n
    case None => 500
  }

  // ---------- SSML to ACX ----------

  datatype Tag =
    | Speak
    | Emphasis
    | Break(time: Option<string>)
    | Prosody(rate: string, pitch: string)
    | SayAs(interpretAs: string)
    | Lang(lang: Option<string>)
    | Voice(name: Option<string>)
    | Sub(alias: string)
    | Other

  datatype Element = Element(tag: Tag, text: string, children: seq<Element>, tail: string)

  function ToAcx(e: Element): string
    decreases e, 1
  {
    Wrap(e.tag, e.text + ChildrenToAcx(e.children)) + e.tail
  }

  function ChildrenToAcx(es: seq<Element>): string
    decreases es, 0
  {
    if es == [] then "" else ToAcx(es[0]) + ChildrenToAcx(es[1..])
  }

  function Wrap(tag: Tag, inner: string): string {
    match tag
    case Emphasis => "[emphasis]" + inner + "[/emphasis]"
    case Break(time) => "[pause:" + ShowInt(BreakMs(time)) + "]"
    case Prosody(rate, pitch) =>
      if rate != "" then "[rate:" + MapRate(rate) + "]" + inner
      else if pitch != "" && MapPitch(pitch).Some? then "[" + EmotionName(MapPitch(pitch).value) + "]" + inner
      else inner
    case SayAs(interpretAs) => if interpretAs == "number" then Strip(inner) else inner
    case Lang(lang) => "[lang:" + (if lang.Some? then lang.value else "und") + "]" + inner + "[/lang]"
    case Voice(name) => "[SPEAKER:" + (if name.Some? then name.value else "unknown") + "]" + inner
    case Sub(alias) => if alias != "" then alias else inner
    case _ => inner
  }

  // ---------- ACX to SSML ----------

  datatype Piece = Words(text: string) | Node(element: Element)

  /** The text up to the first element: what the parser makes `text` or `tail`. */
  function Lead(ps: seq<Piece>): string {
    if ps == [] || ps[0].Node? then "" else ps[0].text + Lead(ps[1..])
  }

  function Kids(ps: seq<Piece>): seq<Element> {
    if ps == [] then []
    else if ps[0].Words? then Kids(ps[1..])
    else [ps[0].element.(tail := Lead(ps[1..]))] + Kids(ps[1..])
  }

  /** The element the parser builds from markup that holds these pieces. */
  function Assemble(tag: Tag, ps: seq<Piece>): Element {
    Element(tag, Lead(ps), Kids(ps), "")
  }

  function Leaf(tag: Tag, text: string): Element {
    Element(tag, text, [], "")
  }

  function BreakNode(ms: string): Piece {
    Node(Leaf(Break(Some(ms + "ms")), ""))
  }

  /** Emphasis takes texts and pauses up to its closing tag or the end; other tags inside are dropped. */
  function EmphasisBody(ts: seq<Token>): (r: (seq<Piece>, seq<Token>))
    ensures |r.1| <= |ts|
  {
    if ts == [] then ([], [])
    else if ts[0].EmphasisClose? then ([], ts[1..])
    else
      var (ps, rest) := EmphasisBody(ts[1..]);
      if ts[0].Txt? then ([Words(ts[0].text)] + ps, rest)
      else if ts[0].Pause? then ([BreakNode(ts[0].ms)] + ps, rest)
      else (ps, rest)
  }

  /** A language span takes texts only. */
  function LangBody(ts: seq<Token>): (r: (seq<Piece>, seq<Token>))
    ensures |r.1| <= |ts|
  {
    if ts == [] then ([], [])
    else if ts[0].LangClose? then ([], ts[1..])
    else
      var (ps, rest) := LangBody(ts[1..]);
      if ts[0].Txt? then ([Words(ts[0].text)] + ps, rest) else (ps, rest)
  }

  /** The inline tags take the text up to the next tag. */
  function InlineText(ts: seq<Token>): (r: (string, seq<Token>))
    ensures |r.1| <= |ts|
  {
    if ts == [] || !ts[0].Txt? then ("", ts)
    else
      var (text, rest) := InlineText(ts[1..]);
      (ts[0].text + text, rest)
  }

  function Build(ts: seq<Token>): seq<Piece>
    decreases |ts|
  {
    if ts == [] then []
    else
      match ts[0]
      case Txt(text) => [Words(text)] + Build(ts[1..])
      case Pause(ms) => [BreakNode(ms)] + Build(ts[1..])
      case EmphasisOpen =>
        var (ps, rest) := EmphasisBody(ts[1..]);
        [Node(Assemble(Emphasis, ps))] + Build(rest)
      case LangOpen(lang) =>
        var (ps, rest) := LangBody(ts[1..]);
        [Node(Assemble(Lang(Some(lang)), ps))] + Build(rest)
      case Rate(value) =>
        var (text, rest) := InlineText(ts[1..]);
        [Node(Leaf(Prosody(value, ""), text))] + Build(rest)
      case Speaker(name) =>
        var (text, rest) := InlineText(ts[1..]);
        [Node(Leaf(Voice(Some(name)), text))] + Build(rest)
      case Feel(e) =>
        var (text, rest) := InlineText(ts[1..]);
        [Node(Leaf(Prosody("", PitchOf(e)), text))] + Build(rest)
      case EmphasisClose => Build(ts[1..])
      case LangClose => Build(ts[1..])
  }

  /** What `convert_acx_to_ssml` produces, as a tree. */
  function Tree(acx: string): Element {
    if Blank(acx) then Element(Speak, "", [], "") else Assemble(Speak, Build(Tokenize(acx)))
  }

  // ---------- the loops of convert_acx_to_ssml ----------

  lemma EmphasisStep(tokens: seq<Token>, i: nat)
    requires i <= |tokens|
    ensures i == |tokens| ==> EmphasisBody(tokens[i..]) == ([], tokens[i..])
    ensures i < |tokens| && tokens[i].EmphasisClose? ==> EmphasisBody(tokens[i..]) == ([], tokens[i+1..])
    ensures i < |tokens| && !tokens[i].EmphasisClose? ==>
              && EmphasisBody(tokens[i..]).1 == EmphasisBody(tokens[i+1..]).1
              && EmphasisBody(tokens[i..]).0
                 == (if tokens[i].Txt? then [Words(tokens[i].text)]
                     else if tokens[i].Pause? then [BreakNode(tokens[i].ms)] else [])
                    + EmphasisBody(tokens[i+1..]).0
  {
    hide BreakNode;
    if i < |tokens| {
      assert tokens[i..][1..] == tokens[i+1..];
    }
  }

  method EmphasisLoop(tokens: seq<Token>, start: nat) returns (inner: seq<Piece>, i: nat)
    requires start <= |tokens|
    ensures start <= i <= |tokens| && inner == EmphasisBody(tokens[start..]).0
        && tokens[i..] == EmphasisBody(tokens[start..]).1
  {
    hide EmphasisBody, BreakNode;
    inner, i := [], start;
    EmphasisStep(tokens, |tokens|);
    while i < |tokens|
      invariant start <= i <= |tokens|
      invariant inner + EmphasisBody(tokens[i..]).0 == EmphasisBody(tokens[start..]).0
      invariant EmphasisBody(tokens[i..]).1 == EmphasisBody(tokens[start..]).1
    {
      var t := tokens[i];
      EmphasisStep(tokens, i);
      if t.EmphasisClose? {
        i := i + 1;
        break;
      }
      if t.Txt? {
        inner := inner + [Words(t.text)];
      } else if t.Pause? {
        inner := inner + [BreakNode(t.ms)];
      }
      i := i + 1;
    }
  }

  method LangLoop(tokens: seq<Token>, start: nat) returns (inner: seq<Piece>, i: nat)
    requires start <= |tokens|
    ensures start <= i <= |tokens| && inner == LangBody(tokens[start..]).0 && tokens[i..] == LangBody(tokens[start..]).1
  {
    inner, i := [], start;
    while i < |tokens|
      invariant start <= i <= |tokens|
      invariant inner + LangBody(tokens[i..]).0 == LangBody(tokens[start..]).0
      invariant LangBody(tokens[i..]).1 == LangBody(tokens[start..]).1
    {
      var t := tokens[i];
      assert tokens[i..][1..] == tokens[i+1..];
      if t.LangClose? {
        i := i + 1;
        break;
      }
      if t.Txt? {
        inner := inner + [Words(t.text)];
      }
      i := i + 1;
    }
  }

  method InlineLoop(tokens: seq<Token>, start: nat) returns (inner: string, i: nat)
    requires start <= |tokens|
    ensures start <= i <= |tokens| && inner == InlineText(tokens[start..]).0
        && tokens[i..] == InlineText(tokens[start..]).1
  {
    inner, i := "", start;
    while i < |tokens|
      invariant start <= i <= |tokens|
      invariant inner + InlineText(tokens[i..]).0 == InlineText(tokens[start..]).0
      invariant InlineText(tokens[i..]).1 == InlineText(tokens[start..]).1
    {
      if !tokens[i].Txt? {
        break;
      }
      assert tokens[i..][1..] == tokens[i+1..];
      inner := inner + tokens[i].text;
      i := i + 1;
    }
  }

  /** The element that a tag opens, with what it takes of the following tokens. */
  method ConvertSpan(tokens: seq<Token>, at: nat) returns (part: Piece, i: nat)
    requires at < |tokens|
    requires !tokens[at].Txt? && !tokens[at].Pause? && !tokens[at].EmphasisClose? && !tokens[at].LangClose?
    ensures at < i <= |tokens| && Build(tokens[at..]) == [part] + Build(tokens[i..])
  {
    hide EmphasisBody, LangBody, InlineText, Lead, Kids;
    assert tokens[at..][1..] == tokens[at+1..];
    match tokens[at] {
      case EmphasisOpen =>
        var inner;
        inner, i := EmphasisLoop(tokens, at + 1);
        part := Node(Assemble(Emphasis, inner));
      case LangOpen(lang) =>
        var inner;
        inner, i := LangLoop(tokens, at + 1);
        part := Node(Assemble(Lang(Some(lang)), inner));
      case Rate(value) =>
        var inner;
        inner, i := InlineLoop(tokens, at + 1);
        part := Node(Leaf(Prosody(value, ""), inner));
      case Speaker(name) =>
        var inner;
        inner, i := InlineLoop(tokens, at + 1);
        part := Node(Leaf(Voice(Some(name)), inner));
      case Feel(e) =>
        var inner;
        inner, i := InlineLoop(tokens, at + 1);
        part := Node(Leaf(Prosody("", PitchOf(e)), inner));
    }
  }

  lemma BuildOne(tokens: seq<Token>, i: nat)
    requires i < |tokens|
    ensures tokens[i].Txt? ==> Build(tokens[i..]) == [Words(tokens[i].text)] + Build(tokens[i+1..])
    ensures tokens[i].Pause? ==> Build(tokens[i..]) == [BreakNode(tokens[i].ms)] + Build(tokens[i+1..])
    ensures tokens[i].EmphasisClose? || tokens[i].LangClose? ==> Build(tokens[i..]) == Build(tokens[i+1..])
  {
    assert tokens[i..][1..] == tokens[i+1..];
  }

  lemma OnePartMore(parts: seq<Piece>, part: Piece, before: seq<Piece>, after: seq<Piece>, all: seq<Piece>)
    requires parts + before == all && before == [part] + after
    ensures (parts + [part]) + after == all
  {
    assert (parts + [part]) + after == parts + ([part] + after);
  }

  /** `convert_acx_to_ssml`: pairs open and close tags by index, and yields the tree of the result. */
  method ConvertAcxToSsml(acx: string) returns (tree: Element)
    ensures tree == Tree(acx)
  {
    hide Tokenize, Blank, Lead, Kids, Build, BreakNode, Assemble;
    if Blank(acx) {
      return Element(Speak, "", [], "");
    }
    var tokens := TokenizeAcx(acx);
    var parts: seq<Piece> := [];
    var i := 0;
    assert tokens[0..] == tokens;
    while i < |tokens|
      invariant i <= |tokens|
      invariant parts + Build(tokens[i..]) == Build(tokens)
      decreases |tokens| - i
    {
      BuildOne(tokens, i);
      match tokens[i] {
        case Txt(text) =>
          OnePartMore(parts, Words(text), Build(tokens[i..]), Build(tokens[i+1..]), Build(tokens));
          parts := parts + [Words(text)];
          i := i + 1;
        case Pause(ms) =>
          OnePartMore(parts, BreakNode(ms), Build(tokens[i..]), Build(tokens[i+1..]), Build(tokens));
          parts := parts + [BreakNode(ms)];
          i := i + 1;
        case EmphasisClose => i := i + 1;
        case LangClose => i := i + 1;
        case _ =>
          var part, next := ConvertSpan(tokens, i);
          OnePartMore(parts, part, Build(tokens[i..]), Build(tokens[next..]), Build(tokens));
          parts, i := parts + [part], next;
      }
    }
    assert tokens[i..] == [] && parts == parts + [];
    BuildNothing();
    return Assemble(Speak, parts);
  }

  lemma BuildNothing()
    ensures Build([]) == []
  {
  }

  // ---------- the canonical form, independently ----------

  datatype Mode = Outside | InEmphasis | InLang

  function NormalMs(ms: string): string
    requires Digits(ms)
  {
    Decimal(Value(ms))
  }

  function NormalEmotion(e: Emotion): Emotion {
    match e
    case Happy => Excited
    case Melancholy => Sad
    case _ => e
  }

  function Normal(t: Token): Token
    requires Plain(t)
  {
    match t
    case Pause(ms) => Pause(NormalMs(ms))
    case Rate(value) => Rate(MapRate(value))
    case Feel(e) => Feel(NormalEmotion(e))
    case _ => t
  }

  /** One pass over the tokens: open tags get closed, stray closing tags and what emphasis and
      language spans cannot hold are dropped, values are normalized. */
  function Clean(ts: seq<Token>, mode: Mode): seq<Token>
    requires AllPlain(ts)
  {
    match mode
    case Outside =>
      if ts == [] then []
      else if ts[0].EmphasisClose? || ts[0].LangClose? then Clean(ts[1..], Outside)
      else
        [Normal(ts[0])]
        + Clean(ts[1..], if ts[0].EmphasisOpen? then InEmphasis else if ts[0].LangOpen? then InLang else Outside)
    case InEmphasis =>
      if ts == [] then [EmphasisClose]
      else if ts[0].EmphasisClose? then [EmphasisClose] + Clean(ts[1..], Outside)
      else if ts[0].Txt? || ts[0].Pause? then [Normal(ts[0])] + Clean(ts[1..], InEmphasis)
      else Clean(ts[1..], InEmphasis)
    case InLang =>
      if ts == [] then [LangClose]
      else if ts[0].LangClose? then [LangClose] + Clean(ts[1..], Outside)
      else if ts[0].Txt? then [ts[0]] + Clean(ts[1..], InLang)
      else Clean(ts[1..], InLang)
  }

  /** Neighbouring texts become one; empty texts go. */
  function Merge(ts: seq<Token>): seq<Token> {
    if ts == [] then []
    else
      var rest := Merge(ts[1..]);
      if !ts[0].Txt? then [ts[0]] + rest
      else if ts[0].text == "" then rest
      else if rest != [] && rest[0].Txt? then [Txt(ts[0].text + rest[0].text)] + rest[1..]
      else [ts[0]] + rest
  }

  function Canon(ts: seq<Token>): seq<Token>
    requires AllPlain(ts)
  {
    Merge(Clean(ts, Outside))
  }

  /** Canonical lists: spans closed and holding only what they may, values in normal form, texts separated. */
  predicate Matched(ts: seq<Token>, mode: Mode) {
    match mode
    case Outside =>
      ts == [] ||
      (!ts[0].EmphasisClose? && !ts[0].LangClose?
       && Matched(ts[1..], if ts[0].EmphasisOpen? then InEmphasis else if ts[0].LangOpen? then InLang else Outside))
    case InEmphasis =>
      ts != [] && (if ts[0].EmphasisClose? then Matched(ts[1..], Outside)
                   else (ts[0].Txt? || ts[0].Pause?) && Matched(ts[1..], InEmphasis))
    case InLang =>
      ts != [] && (if ts[0].LangClose? then Matched(ts[1..], Outside) else ts[0].Txt? && Matched(ts[1..], InLang))
  }

  predicate AllNormal(ts: seq<Token>) {
    forall i :: 0 <= i < |ts| ==> Plain(ts[i]) && Normal(ts[i]) == ts[i]
  }

  predicate Canonical(ts: seq<Token>) {
    Matched(ts, Outside) && AllNormal(ts) && Separated(ts)
  }

  // ---------- numbers and names survive ----------

  lemma {:induction false} LowerKeeps(s: string)
    requires forall i :: 0 <= i < |s| ==> !('A' <= s[i] <= 'Z')
    ensures Lower(s) == s
  {
    if s != "" {
      LowerKeeps(s[1..]);
      assert [s[0]] + s[1..] == s;
    }
  }

  lemma {:induction false} LowerTwice(s: string)
    ensures Lower(Lower(s)) == Lower(s)
    ensures |Lower(s)| == |s|
    ensures Word(s) ==> Word(Lower(s))
  {
    if s != "" {
      LowerTwice(s[1..]);
      assert Lower(s)[1..] == Lower(s[1..]);
      if Word(s) {
        if s[1..] != "" {
          assert forall i :: 0 <= i < |s[1..]| ==> s[1..][i] == s[i+1];
          assert Word(s[1..]);
        }
        forall i | 0 <= i < |Lower(s)|
          ensures IsWordChar(Lower(s)[i])
        {
          assert IsWordChar(s[0]);
          if i > 0 { assert Lower(s)[i] == Lower(s[1..])[i-1]; }
        }
      }
    }
  }

  lemma RateNames()
    ensures Lower("slow") == "slow" && Lower("normal") == "normal" && Lower("fast") == "fast"
    ensures Word("slow") && Word("normal") && Word("fast")
  {
    hide Lower;
    LowerKeeps("slow");
    LowerKeeps("normal");
    LowerKeeps("fast");
  }

  lemma MappedRates()
    ensures MapRate("slow") == "slow" && MapRate("normal") == "normal" && MapRate("fast") == "fast"
  {
    hide Lower, Word;
    RateNames();
  }

  lemma RateStaysWord(rate: string)
    requires Word(rate)
    ensures Word(MapRate(rate)) && MapRate(MapRate(rate)) == MapRate(rate)
  {
    hide Lower, Word;
    LowerTwice(rate);
    RateNames();
    MappedRates();
  }

  lemma {:induction false} RemoveMsKeeps(digits: string)
    requires forall i :: 0 <= i < |digits| ==> IsDigit(digits[i])
    ensures RemoveMs(digits + "ms") == digits
  {
    if digits != "" {
      assert (digits + "ms")[1..] == digits[1..] + "ms";
      RemoveMsKeeps(digits[1..]);
      assert [digits[0]] + digits[1..] == digits;
    } else {
      assert digits + "ms" == "ms" && "ms"[2..] == "";
    }
  }

  lemma DigitsAreStripped(s: string)
    requires Digits(s)
    ensures Strip(s) == s
  {
    assert !IsSpace(s[0]) && !IsSpace(s[|s|-1]);
  }

  /** A pause of digits comes back as the same number. */
  lemma PauseReads(ms: string)
    requires Digits(ms)
    ensures BreakMs(Some(ms + "ms")) == Value(ms)
  {
    LowerKeeps(ms + "ms");
    RemoveMsKeeps(ms);
    DigitsAreStripped(ms);
  }

  lemma {:induction false} DecimalReads(n: nat)
    ensures Digits(Decimal(n)) && Value(Decimal(n)) == n
  {
    if n < 10 {
      var s := Decimal(n);
      assert s[..0] == "";
    } else {
      DecimalReads(n / 10);
      var s := Decimal(n);
      assert s[..|s|-1] == Decimal(n / 10);
    }
  }

  lemma NormalMsIsStable(ms: string)
    requires Digits(ms)
    ensures Digits(NormalMs(ms)) && NormalMs(NormalMs(ms)) == NormalMs(ms)
  {
    DecimalReads(Value(ms));
  }

  lemma PitchLowers(e: Emotion)
    ensures Lower(Strip(PitchOf(e))) == PitchOf(e) && PitchOf(e) != ""
  {
    var p := PitchOf(e);
    assert !IsSpace(p[0]) && !IsSpace(p[|p|-1]);
    LowerKeeps(p);
  }

  /** Every emotion survives the pitch mapping but happy and melancholy. */
  lemma PitchReads(e: Emotion)
    ensures MapPitch(PitchOf(e)) == Some(NormalEmotion(e))
  {
    PitchLowers(e);
  }

  lemma NormalKeepsPlain(t: Token)
    requires Plain(t)
    ensures Plain(Normal(t)) && Normal(Normal(t)) == Normal(t)
    ensures Normal(t).Txt? == t.Txt? && (t.Txt? ==> Normal(t) == t)
    ensures Normal(t).EmphasisOpen? == t.EmphasisOpen? && Normal(t).EmphasisClose? == t.EmphasisClose?
    ensures Normal(t).LangOpen? == t.LangOpen? && Normal(t).LangClose? == t.LangClose? && Normal(t).Pause? == t.Pause?
  {
    hide Digits, Word, LangTag, MapRate, NormalMs;
    match t
    case Pause(ms) => NormalMsIsStable(ms);
    case Rate(value) => RateStaysWord(value);
    case _ =>
  }

  // ---------- the converted text is the cleaned text ----------

  function PiecesToAcx(ps: seq<Piece>): string {
    if ps == [] then ""
    else (if ps[0].Words? then ps[0].text else ToAcx(ps[0].element)) + PiecesToAcx(ps[1..])
  }

  /** New elements carry no tail of their own. */
  predicate NoTails(ps: seq<Piece>) {
    forall i :: 0 <= i < |ps| && ps[i].Node? ==> ps[i].element.tail == ""
  }

  lemma {:induction false} AssembledText(ps: seq<Piece>)
    requires NoTails(ps)
    ensures Lead(ps) + ChildrenToAcx(Kids(ps)) == PiecesToAcx(ps)
  {
    hide Wrap;
    if ps != [] {
      assert NoTails(ps[1..]);
      AssembledText(ps[1..]);
      if ps[0].Node? {
        var e := ps[0].element;
        assert ToAcx(e.(tail := Lead(ps[1..]))) == ToAcx(e) + Lead(ps[1..]);
        assert Kids(ps)[1..] == Kids(ps[1..]);
      }
    }
  }

  lemma LeafText(tag: Tag, text: string)
    ensures ToAcx(Leaf(tag, text)) == Wrap(tag, text)
  {
    hide Wrap;
    assert text + ChildrenToAcx([]) == text;
  }

  lemma AssembledWrap(tag: Tag, ps: seq<Piece>)
    requires NoTails(ps)
    ensures ToAcx(Assemble(tag, ps)) == Wrap(tag, PiecesToAcx(ps))
  {
    hide Wrap;
    AssembledText(ps);
  }

  lemma ShowPause(ms: string)
    ensures Show(Pause(ms)) == "[pause:" + ms + "]"
  {
    assert ['['] + ("pause:" + ms) + [']'] == "[pause:" + ms + "]";
  }

  lemma ShowRate(value: string)
    ensures Show(Rate(value)) == "[rate:" + value + "]"
  {
    assert ['['] + ("rate:" + value) + [']'] == "[rate:" + value + "]";
  }

  lemma ShowSpeaker(name: string)
    ensures Show(Speaker(name)) == "[SPEAKER:" + name + "]"
  {
    assert ['['] + ("SPEAKER:" + name) + [']'] == "[SPEAKER:" + name + "]";
  }

  lemma ShowLang(lang: string)
    ensures Show(LangOpen(lang)) == "[lang:" + lang + "]"
  {
    assert ['['] + ("lang:" + lang) + [']'] == "[lang:" + lang + "]";
  }

  lemma ShowFeel(e: Emotion)
    ensures Show(Feel(e)) == "[" + EmotionName(e) + "]"
  {
    hide EmotionName;
  }

  lemma ShowEmphasis()
    ensures Show(EmphasisOpen) == "[emphasis]"
  {
  }

  lemma PauseNode(ms: string)
    requires Digits(ms)
    ensures BreakNode(ms).Node? && BreakNode(ms).element.tail == ""
    ensures ToAcx(BreakNode(ms).element) == Show(Pause(NormalMs(ms)))
  {
    hide Digits, Decimal, BreakMs, Show, ToAcx, Value;
    LeafText(Break(Some(ms + "ms")), "");
    PauseReads(ms);
    ShowPause(NormalMs(ms));
  }

  lemma AllPlainTail(ts: seq<Token>)
    requires AllPlain(ts) && ts != []
    ensures AllPlain(ts[1..]) && Plain(ts[0])
  {
  }

  lemma ShowCons(t: Token, rest: seq<Token>)
    ensures ShowAll([t] + rest) == Show(t) + ShowAll(rest)
  {
    hide Show;
    assert ([t] + rest)[1..] == rest;
  }

  lemma NodeCons(p: Piece, ps: seq<Piece>)
    ensures PiecesToAcx([p] + ps) == (if p.Words? then p.text else ToAcx(p.element)) + PiecesToAcx(ps)
    ensures NoTails(ps) && (p.Node? ==> p.element.tail == "") ==> NoTails([p] + ps)
  {
    hide ToAcx;
    assert ([p] + ps)[1..] == ps;
  }

  lemma CleanInside(ts: seq<Token>)
    requires AllPlain(ts)
    ensures ts == [] ==> Clean(ts, InEmphasis) == [EmphasisClose] && Clean(ts, InLang) == [LangClose]
    ensures ts != [] ==> Plain(ts[0]) && AllPlain(ts[1..])
    ensures ts != [] && ts[0].EmphasisClose? ==> Clean(ts, InEmphasis) == [EmphasisClose] + Clean(ts[1..], Outside)
    ensures ts != [] && ts[0].LangClose? ==> Clean(ts, InLang) == [LangClose] + Clean(ts[1..], Outside)
    ensures ts != [] && (ts[0].Txt? || ts[0].Pause?) ==>
              Clean(ts, InEmphasis) == [Normal(ts[0])] + Clean(ts[1..], InEmphasis)
    ensures ts != [] && ts[0].Txt? ==> Clean(ts, InLang) == [ts[0]] + Clean(ts[1..], InLang)
    ensures ts != [] && !ts[0].Txt? && !ts[0].Pause? && !ts[0].EmphasisClose? ==>
              Clean(ts, InEmphasis) == Clean(ts[1..], InEmphasis)
    ensures ts != [] && !ts[0].Txt? && !ts[0].LangClose? ==> Clean(ts, InLang) == Clean(ts[1..], InLang)
  {
    hide Normal, Plain;
  }

  lemma {:induction false} EmphasisText(ts: seq<Token>)
    requires AllPlain(ts)
    ensures
      var (ps, rest) := EmphasisBody(ts);
      && NoTails(ps) && AllPlain(rest)
      && PiecesToAcx(ps) + "[/emphasis]" + ShowAll(Clean(rest, Outside)) == ShowAll(Clean(ts, InEmphasis))
    decreases |ts|
  {
    hide Show, ToAcx, Plain, Normal, BreakNode, NormalMs, Clean, ShowAll, PiecesToAcx, AllPlain;
    EmphasisCloses();
    CleanInside(ts);
    NoPieces();
    if ts == [] {
      ShowOne(EmphasisClose);
      NothingCleaned();
    } else {
      var (ps, rest) := EmphasisBody(ts[1..]);
      if ts[0].EmphasisClose? {
        ShowCons(EmphasisClose, Clean(ts[1..], Outside));
      } else {
        EmphasisText(ts[1..]);
        if ts[0].Txt? {
          NodeCons(Words(ts[0].text), ps);
          TextIsNormal(ts[0]);
          ShowCons(ts[0], Clean(ts[1..], InEmphasis));
        } else if ts[0].Pause? {
          PauseIsNormal(ts[0]);
          PauseNode(ts[0].ms);
          NodeCons(BreakNode(ts[0].ms), ps);
          ShowCons(Normal(ts[0]), Clean(ts[1..], InEmphasis));
        }
      }
    }
  }

  lemma EmphasisCloses()
    ensures Show(EmphasisClose) == "[/emphasis]" && Show(LangClose) == "[/lang]"
  {
  }

  lemma NothingCleaned()
    ensures AllPlain([]) && Clean([], Outside) == [] && ShowAll([]) == "" && PiecesToAcx([]) == ""
  {
  }

  lemma NoPieces()
    ensures PiecesToAcx([]) == ""
  {
  }

  lemma TextIsNormal(t: Token)
    requires Plain(t) && t.Txt?
    ensures Normal(t) == t && Show(t) == t.text
  {
  }

  lemma PauseIsNormal(t: Token)
    requires Plain(t) && t.Pause?
    ensures Digits(t.ms) && Normal(t) == Pause(NormalMs(t.ms))
  {
  }

  lemma {:induction false} LangText(ts: seq<Token>)
    requires AllPlain(ts)
    ensures
      var (ps, rest) := LangBody(ts);
      && NoTails(ps) && AllPlain(rest)
      && PiecesToAcx(ps) + "[/lang]" + ShowAll(Clean(rest, Outside)) == ShowAll(Clean(ts, InLang))
    decreases |ts|
  {
    hide Show, ToAcx, Plain, Normal, Clean, ShowAll, PiecesToAcx, AllPlain;
    EmphasisCloses();
    CleanInside(ts);
    NoPieces();
    if ts == [] {
      ShowOne(LangClose);
      NothingCleaned();
    } else {
      var (ps, rest) := LangBody(ts[1..]);
      if ts[0].LangClose? {
        ShowCons(LangClose, Clean(ts[1..], Outside));
      } else {
        LangText(ts[1..]);
        if ts[0].Txt? {
          NodeCons(Words(ts[0].text), ps);
          TextIsNormal(ts[0]);
          ShowCons(ts[0], Clean(ts[1..], InLang));
        }
      }
    }
  }

  lemma {:induction false} InlineRun(ts: seq<Token>)
    requires AllPlain(ts)
    ensures AllPlain(InlineText(ts).1)
    ensures InlineText(ts).0 + ShowAll(Clean(InlineText(ts).1, Outside)) == ShowAll(Clean(ts, Outside))
    decreases |ts|
  {
    hide Show, Plain, Normal;
    if ts != [] && ts[0].Txt? {
      AllPlainTail(ts);
      InlineRun(ts[1..]);
      TextIsNormal(ts[0]);
      ShowCons(ts[0], Clean(ts[1..], Outside));
    } else {
      assert "" + ShowAll(Clean(ts, Outside)) == ShowAll(Clean(ts, Outside));
    }
  }

  /** The element of a tag with inline text. */
  function InlineNode(t: Token, text: string): Piece
    requires t.Rate? || t.Speaker? || t.Feel?
  {
    match t
    case Rate(value) => Node(Leaf(Prosody(value, ""), text))
    case Speaker(name) => Node(Leaf(Voice(Some(name)), text))
    case Feel(e) => Node(Leaf(Prosody("", PitchOf(e)), text))
  }

  lemma RateText(value: string, text: string)
    requires value != ""
    ensures ToAcx(Leaf(Prosody(value, ""), text)) == Show(Rate(MapRate(value))) + text
  {
    hide ToAcx, MapRate, Show;
    LeafText(Prosody(value, ""), text);
    ShowRate(MapRate(value));
  }

  lemma SpeakerText(name: string, text: string)
    ensures ToAcx(Leaf(Voice(Some(name)), text)) == Show(Speaker(name)) + text
  {
    hide ToAcx, Show;
    LeafText(Voice(Some(name)), text);
    ShowSpeaker(name);
  }

  lemma FeelText(e: Emotion, text: string)
    ensures ToAcx(Leaf(Prosody("", PitchOf(e)), text)) == Show(Feel(NormalEmotion(e))) + text
  {
    hide ToAcx, Show, MapPitch, PitchOf, NormalEmotion, EmotionName;
    LeafText(Prosody("", PitchOf(e)), text);
    PitchReads(e);
    PitchLowers(e);
    ShowFeel(NormalEmotion(e));
  }

  /** The tags with inline text come back as the tag followed by the text. */
  lemma InlineTag(t: Token, text: string)
    requires Plain(t) && (t.Rate? || t.Speaker? || t.Feel?)
    ensures InlineNode(t, text).Node? && InlineNode(t, text).element.tail == ""
    ensures ToAcx(InlineNode(t, text).element) == Show(Normal(t)) + text
  {
    hide ToAcx, Show, MapRate, PitchOf, NormalEmotion;
    match t
    case Rate(value) => RateText(value, text);
    case Speaker(name) => SpeakerText(name, text);
    case Feel(e) => FeelText(e, text);
  }

  lemma EmphasisSpan(inner: string)
    ensures Wrap(Emphasis, inner) == Show(EmphasisOpen) + inner + "[/emphasis]"
  {
    hide Show;
    ShowEmphasis();
  }

  lemma LangSpan(lang: string, inner: string)
    ensures Wrap(Lang(Some(lang)), inner) == Show(LangOpen(lang)) + inner + "[/lang]"
  {
    hide Show;
    ShowLang(lang);
  }

  lemma CleanOutside(ts: seq<Token>)
    requires AllPlain(ts) && ts != []
    ensures Plain(ts[0]) && AllPlain(ts[1..])
    ensures ts[0].EmphasisClose? || ts[0].LangClose? ==> Clean(ts, Outside) == Clean(ts[1..], Outside)
    ensures ts[0].EmphasisOpen? ==> Clean(ts, Outside) == [EmphasisOpen] + Clean(ts[1..], InEmphasis)
    ensures ts[0].LangOpen? ==> Clean(ts, Outside) == [ts[0]] + Clean(ts[1..], InLang)
    ensures ts[0].Txt? || ts[0].Pause? || ts[0].Rate? || ts[0].Speaker? || ts[0].Feel? ==>
              Clean(ts, Outside) == [Normal(ts[0])] + Clean(ts[1..], Outside)
  {
    AllPlainTail(ts);
  }

  /** Building SSML and reading it back yields exactly the text of the cleaned tokens. */
  lemma {:induction false} ConvertedText(ts: seq<Token>)
    requires AllPlain(ts)
    ensures NoTails(Build(ts)) && PiecesToAcx(Build(ts)) == ShowAll(Clean(ts, Outside))
    decreases |ts|
  {
    hide Show, ToAcx, Plain, Normal, Clean, BreakNode, Wrap, EmphasisBody, LangBody, InlineText, PitchOf, NormalMs;
    if ts == [] {
      NothingCleaned();
    } else {
      CleanOutside(ts);
      match ts[0]
      case Txt(text) =>
        ConvertedText(ts[1..]);
        TextIsNormal(ts[0]);
        NodeCons(Words(text), Build(ts[1..]));
        ShowCons(ts[0], Clean(ts[1..], Outside));
      case Pause(ms) =>
        ConvertedText(ts[1..]);
        PauseIsNormal(ts[0]);
        PauseNode(ms);
        NodeCons(BreakNode(ms), Build(ts[1..]));
        ShowCons(Normal(ts[0]), Clean(ts[1..], Outside));
      case EmphasisOpen =>
        ConvertedEmphasis(ts);
        ConvertedText(EmphasisBody(ts[1..]).1);
      case LangOpen(_) =>
        ConvertedLang(ts);
        ConvertedText(LangBody(ts[1..]).1);
      case EmphasisClose => ConvertedText(ts[1..]);
      case LangClose => ConvertedText(ts[1..]);
      case _ =>
        ConvertedInline(ts);
        ConvertedText(InlineText(ts[1..]).1);
    }
  }

  lemma BuildSpan(ts: seq<Token>)
    requires ts != [] && (ts[0].EmphasisOpen? || ts[0].LangOpen?)
    ensures ts[0].EmphasisOpen? ==>
              Build(ts) == [Node(Assemble(Emphasis, EmphasisBody(ts[1..]).0))] + Build(EmphasisBody(ts[1..]).1)
    ensures ts[0].LangOpen? ==>
              Build(ts) == [Node(Assemble(Lang(Some(ts[0].lang)), LangBody(ts[1..]).0))] + Build(LangBody(ts[1..]).1)
  {
    hide EmphasisBody, LangBody, Assemble;
  }

  lemma ConvertedEmphasis(ts: seq<Token>)
    requires AllPlain(ts) && ts != [] && ts[0].EmphasisOpen?
    ensures AllPlain(ts[1..]) && AllPlain(EmphasisBody(ts[1..]).1)
    ensures
      var rest := EmphasisBody(ts[1..]).1;
      NoTails(Build(rest)) && PiecesToAcx(Build(rest)) == ShowAll(Clean(rest, Outside)) ==>
        NoTails(Build(ts)) && PiecesToAcx(Build(ts)) == ShowAll(Clean(ts, Outside))
  {
    hide Show, ToAcx, Plain, Normal, Clean, EmphasisBody, Build, PiecesToAcx, NoTails, Lead, Kids, Wrap, ShowAll;
    CleanOutside(ts);
    var (ps, rest) := EmphasisBody(ts[1..]);
    EmphasisText(ts[1..]);
    AssembledWrap(Emphasis, ps);
    EmphasisSpan(PiecesToAcx(ps));
    BuildSpan(ts);
    NodeCons(Node(Assemble(Emphasis, ps)), Build(rest));
    ShowCons(EmphasisOpen, Clean(ts[1..], InEmphasis));
  }

  lemma ConvertedLang(ts: seq<Token>)
    requires AllPlain(ts) && ts != [] && ts[0].LangOpen?
    ensures AllPlain(ts[1..]) && AllPlain(LangBody(ts[1..]).1)
    ensures
      var rest := LangBody(ts[1..]).1;
      NoTails(Build(rest)) && PiecesToAcx(Build(rest)) == ShowAll(Clean(rest, Outside)) ==>
        NoTails(Build(ts)) && PiecesToAcx(Build(ts)) == ShowAll(Clean(ts, Outside))
  {
    hide Show, ToAcx, Plain, Normal, Clean, LangBody, Build, PiecesToAcx, NoTails, Lead, Kids, Wrap, ShowAll;
    CleanOutside(ts);
    var (ps, rest) := LangBody(ts[1..]);
    LangText(ts[1..]);
    AssembledWrap(Lang(Some(ts[0].lang)), ps);
    LangSpan(ts[0].lang, PiecesToAcx(ps));
    BuildSpan(ts);
    NodeCons(Node(Assemble(Lang(Some(ts[0].lang)), ps)), Build(rest));
    ShowCons(ts[0], Clean(ts[1..], InLang));
  }

  lemma BuildInline(ts: seq<Token>)
    requires ts != [] && (ts[0].Rate? || ts[0].Speaker? || ts[0].Feel?)
    ensures Build(ts) == [InlineNode(ts[0], InlineText(ts[1..]).0)] + Build(InlineText(ts[1..]).1)
  {
    hide PitchOf, InlineText, BreakNode, EmphasisBody, LangBody;
  }

  lemma ConvertedInline(ts: seq<Token>)
    requires AllPlain(ts) && ts != [] && (ts[0].Rate? || ts[0].Speaker? || ts[0].Feel?)
    ensures AllPlain(ts[1..]) && AllPlain(InlineText(ts[1..]).1)
    ensures
      var rest := InlineText(ts[1..]).1;
      NoTails(Build(rest)) && PiecesToAcx(Build(rest)) == ShowAll(Clean(rest, Outside)) ==>
        NoTails(Build(ts)) && PiecesToAcx(Build(ts)) == ShowAll(Clean(ts, Outside))
  {
    hide Show, ToAcx, Plain, Normal, Clean, InlineText, InlineNode, Build, PiecesToAcx, NoTails;
    CleanOutside(ts);
    var (text, rest) := InlineText(ts[1..]);
    InlineRun(ts[1..]);
    InlineTag(ts[0], text);
    BuildInline(ts);
    NodeCons(InlineNode(ts[0], text), Build(rest));
    ShowCons(Normal(ts[0]), Clean(ts[1..], Outside));
  }

  // ---------- the canonical form is canonical ----------

  lemma {:induction false} CleanIsPlainNormal(ts: seq<Token>, mode: Mode)
    requires AllPlain(ts)
    ensures AllNormal(Clean(ts, mode)) && Matched(Clean(ts, mode), mode)
    decreases |ts|
  {
    hide Plain, Normal, Matched, Clean, AllNormal;
    if ts == [] {
      NothingMatched();
      CleanInside(ts);
      NothingCleaned();
    } else {
      CleanInside(ts);
      CleanOutside(ts);
      NormalKeepsPlain(ts[0]);
      CleanIsPlainNormal(ts[1..], Outside);
      CleanIsPlainNormal(ts[1..], InEmphasis);
      CleanIsPlainNormal(ts[1..], InLang);
      var t := Normal(ts[0]);
      NormalCons(t, Clean(ts[1..], Outside));
      NormalCons(t, Clean(ts[1..], InEmphasis));
      NormalCons(t, Clean(ts[1..], InLang));
      TagsAreNormal();
      NormalCons(EmphasisClose, Clean(ts[1..], Outside));
      NormalCons(LangClose, Clean(ts[1..], Outside));
      MatchedCons(t, Clean(ts[1..], Outside));
      MatchedCons(t, Clean(ts[1..], InEmphasis));
      MatchedCons(t, Clean(ts[1..], InLang));
      MatchedCons(EmphasisClose, Clean(ts[1..], Outside));
      MatchedCons(LangClose, Clean(ts[1..], Outside));
      if ts[0].Txt? { TextIsNormal(ts[0]); }
      if ts[0].LangOpen? || ts[0].EmphasisOpen? { OpensAreNormal(ts[0]); }
    }
  }

  lemma NothingMatched()
    ensures Matched([], Outside) && Matched([EmphasisClose], InEmphasis) && Matched([LangClose], InLang)
    ensures AllNormal([]) && AllNormal([EmphasisClose]) && AllNormal([LangClose])
  {
    assert [EmphasisClose][1..] == [] && [LangClose][1..] == [];
  }

  lemma TagsAreNormal()
    ensures Plain(EmphasisClose) && Normal(EmphasisClose) == EmphasisClose
    ensures Plain(LangClose) && Normal(LangClose) == LangClose
  {
  }

  lemma OpensAreNormal(t: Token)
    requires Plain(t) && (t.LangOpen? || t.EmphasisOpen?)
    ensures Normal(t) == t
  {
  }

  lemma NormalCons(t: Token, ts: seq<Token>)
    requires Plain(t) && Normal(t) == t && AllNormal(ts)
    ensures AllNormal([t] + ts)
  {
    hide Plain, Normal;
  }

  lemma MatchedCons(t: Token, ts: seq<Token>)
    ensures Matched([t] + ts, Outside)
            == (!t.EmphasisClose? && !t.LangClose?
                && Matched(ts, if t.EmphasisOpen? then InEmphasis else if t.LangOpen? then InLang else Outside))
    ensures Matched([t] + ts, InEmphasis)
            == if t.EmphasisClose? then Matched(ts, Outside) else (t.Txt? || t.Pause?) && Matched(ts, InEmphasis)
    ensures Matched([t] + ts, InLang) == if t.LangClose? then Matched(ts, Outside) else t.Txt? && Matched(ts, InLang)
  {
    assert ([t] + ts)[1..] == ts;
  }

  lemma {:induction false} MergeKeepsShape(ts: seq<Token>, mode: Mode)
    requires AllNormal(ts) && Matched(ts, mode)
    ensures AllNormal(Merge(ts)) && Matched(Merge(ts), mode) && Separated(Merge(ts))
    ensures ShowAll(Merge(ts)) == ShowAll(ts)
    decreases |ts|
  {
    hide Plain, Normal, Show, Separated, AllNormal;
    if ts == [] {
      EmptyIsSeparated();
    } else {
      NormalTail(ts);
      var next := if ts[0].EmphasisClose? || ts[0].LangClose? then Outside
                  else if ts[0].EmphasisOpen? then InEmphasis else if ts[0].LangOpen? then InLang
                  else mode;
      MergeKeepsShape(ts[1..], next);
      var rest := Merge(ts[1..]);
      if ts[0].Txt? && ts[0].text == "" {
        ShowText("");
      } else if ts[0].Txt? && rest != [] && rest[0].Txt? {
        TextsJoin(ts[0], rest, mode);
      } else {
        NormalCons(ts[0], rest);
        MatchedCons(ts[0], rest);
        SeparatedCons(ts[0], rest);
        ShowCons(ts[0], rest);
      }
    }
  }

  lemma EmptyIsSeparated()
    ensures Separated([]) && AllNormal([])
  {
  }

  lemma NormalTail(ts: seq<Token>)
    requires ts != [] && AllNormal(ts)
    ensures AllNormal(ts[1..]) && Plain(ts[0]) && Normal(ts[0]) == ts[0]
  {
    hide Plain, Normal;
  }

  lemma SeparatedCons(t: Token, rest: seq<Token>)
    requires Separated(rest) && (t.Txt? ==> t.text != "" && (rest == [] || !rest[0].Txt?))
    ensures Separated([t] + rest)
  {
  }

  lemma TextsJoin(t: Token, rest: seq<Token>, mode: Mode)
    requires Plain(t) && t.Txt? && t.text != "" && rest != [] && rest[0].Txt?
    requires AllNormal(rest) && Matched(rest, mode) && Separated(rest)
    ensures
      var joined := [Txt(t.text + rest[0].text)] + rest[1..];
      AllNormal(joined) && Matched(joined, mode) && Separated(joined) && ShowAll(joined) == Show(t) + ShowAll(rest)
  {
    hide Show, Matched, AllNormal, Separated;
    var u := Txt(t.text + rest[0].text);
    assert rest == [rest[0]] + rest[1..];
    NormalTail(rest);
    SeparatedDrop(rest);
    MatchedCons(rest[0], rest[1..]);
    MatchedCons(u, rest[1..]);
    NormalCons(u, rest[1..]);
    SeparatedCons(u, rest[1..]);
    ShowCons(u, rest[1..]);
    ShowCons(rest[0], rest[1..]);
    ShowText(t.text);
    ShowText(rest[0].text);
    ShowText(u.text);
  }

  lemma SeparatedDrop(ts: seq<Token>)
    requires Separated(ts) && ts != [] && ts[0].Txt?
    ensures Separated(ts[1..]) && (ts[1..] == [] || !ts[1..][0].Txt?)
  {
  }

  lemma {:induction false} CleanOfCanonical(ts: seq<Token>, mode: Mode)
    requires AllNormal(ts) && Matched(ts, mode)
    ensures AllPlain(ts) && Clean(ts, mode) == ts
    decreases |ts|
  {
    hide Plain, Normal, Clean;
    assert AllPlain(ts);
    if ts != [] {
      NormalTail(ts);
      CleanInside(ts);
      CleanOutside(ts);
      var next := if ts[0].EmphasisClose? || ts[0].LangClose? then Outside
                  else if ts[0].EmphasisOpen? then InEmphasis else if ts[0].LangOpen? then InLang
                  else mode;
      CleanOfCanonical(ts[1..], next);
      assert ts == [ts[0]] + ts[1..];
    } else {
      NothingCleaned();
    }
  }

  lemma {:induction false} MergeOfSeparated(ts: seq<Token>)
    requires Separated(ts)
    ensures Merge(ts) == ts
    decreases |ts|
  {
    if ts != [] {
      assert Separated(ts[1..]);
      MergeOfSeparated(ts[1..]);
      assert ts == [ts[0]] + ts[1..];
      if ts[0].Txt? && |ts| > 1 {
        assert ts[1..][0] == ts[1];
      }
    }
  }

  /** Canonicalization always ends in a canonical list, and moves nothing that is canonical already. */
  lemma CanonIsCanonical(ts: seq<Token>)
    requires AllPlain(ts)
    ensures Canonical(Canon(ts)) && AllPlain(Canon(ts))
    ensures Canon(ts) == ts <==> Canonical(ts)
    ensures Canon(Canon(ts)) == Canon(ts)
  {
    hide Plain, Normal, Clean, Merge, Matched, Separated;
    CleanIsPlainNormal(ts, Outside);
    MergeKeepsShape(Clean(ts, Outside), Outside);
    CanonicalStays(Canon(ts));
    if Canonical(ts) {
      CanonicalStays(ts);
    }
  }

  lemma CanonicalStays(ts: seq<Token>)
    requires Canonical(ts)
    ensures AllPlain(ts) && Canon(ts) == ts
  {
    hide Plain, Normal, Clean, Merge, Matched, Separated;
    CleanOfCanonical(ts, Outside);
    MergeOfSeparated(ts);
  }

  // ---------- the round trip ----------

  /** ACX tokens to SSML and back to ACX tokens. */
  function RoundTrip(ts: seq<Token>): seq<Token> {
    Tokenize(ToAcx(Assemble(Speak, Build(ts))))
  }

  /** The round trip canonicalizes: it is the identity on canonical token lists and idempotent on all. */
  lemma RoundTripIsCanon(ts: seq<Token>)
    requires AllPlain(ts)
    ensures RoundTrip(ts) == Canon(ts)
    ensures RoundTrip(ts) == ts <==> Canonical(ts)
    ensures RoundTrip(RoundTrip(ts)) == RoundTrip(ts)
  {
    hide Plain, Normal, Clean, Merge, Matched, Separated, Build, ToAcx, Tokenize, Assemble, NoTails, PiecesToAcx;
    CanonicalText(ts);
    CanonIsCanonical(ts);
    CanonicalText(Canon(ts));
  }

  lemma CanonicalText(ts: seq<Token>)
    requires AllPlain(ts)
    ensures ToAcx(Assemble(Speak, Build(ts))) == ShowAll(Canon(ts))
    ensures Tokenize(ToAcx(Assemble(Speak, Build(ts)))) == Canon(ts)
  {
    hide Plain, Normal, Clean, Merge, Matched, Build, ToAcx, Tokenize, Assemble, NoTails, PiecesToAcx, Separated;
    ConvertedText(ts);
    AssembledWrap(Speak, Build(ts));
    CleanIsPlainNormal(ts, Outside);
    MergeKeepsShape(Clean(ts, Outside), Outside);
    CanonIsCanonical(ts);
    TokenizeShown(Canon(ts));
  }

  /** On strings: what the two converters make of tagged text is the canonical form of its tokens;
      blank text is the one input whose (blank) text is dropped. */
  lemma AcxSurvivesSsml(acx: string)
    requires AllPlain(Tokenize(acx))
    ensures Tokenize(ToAcx(Tree(acx))) == if Blank(acx) then [] else Canon(Tokenize(acx))
  {
    hide Plain, Clean, Merge, Build, Tokenize, Assemble;
    CanonicalText(Tokenize(acx));
    if Blank(acx) {
      EmptySpeak();
    }
  }

  lemma EmptySpeak()
    ensures ToAcx(Element(Speak, "", [], "")) == "" && Tokenize("") == []
  {
    assert ChildrenToAcx([]) == "";
  }

  function TextOf(ts: seq<Token>): string {
    if ts == [] then "" else (if ts[0].Txt? then ts[0].text else "") + TextOf(ts[1..])
  }

  lemma {:induction false} CleanKeepsText(ts: seq<Token>, mode: Mode)
    requires AllPlain(ts)
    ensures TextOf(Clean(ts, mode)) == TextOf(ts)
    decreases |ts|
  {
    hide Plain, Normal, Clean;
    CleanInside(ts);
    if ts == [] {
      NothingCleaned();
      TextOfOne();
    } else {
      CleanOutside(ts);
      NormalKeepsPlain(ts[0]);
      CleanKeepsText(ts[1..], Outside);
      CleanKeepsText(ts[1..], InEmphasis);
      CleanKeepsText(ts[1..], InLang);
      TextCons(Normal(ts[0]), Clean(ts[1..], Outside));
      TextCons(Normal(ts[0]), Clean(ts[1..], InEmphasis));
      TextCons(ts[0], Clean(ts[1..], InLang));
      TextCons(ts[0], Clean(ts[1..], Outside));
      if ts[0].EmphasisOpen? || ts[0].LangOpen? { OpensAreNormal(ts[0]); }
      TextCons(EmphasisClose, Clean(ts[1..], Outside));
      TextCons(EmphasisOpen, Clean(ts[1..], InEmphasis));
      TextCons(LangClose, Clean(ts[1..], Outside));
    }
  }

  lemma TextOfOne()
    ensures TextOf([EmphasisClose]) == "" && TextOf([LangClose]) == ""
  {
    assert [EmphasisClose][1..] == [] && [LangClose][1..] == [];
  }

  lemma TextCons(t: Token, ts: seq<Token>)
    ensures TextOf([t] + ts) == (if t.Txt? then t.text else "") + TextOf(ts)
  {
    assert ([t] + ts)[1..] == ts;
  }

  lemma {:induction false} MergeKeepsText(ts: seq<Token>)
    ensures TextOf(Merge(ts)) == TextOf(ts)
  {
    if ts != [] {
      var rest := Merge(ts[1..]);
      MergeKeepsText(ts[1..]);
      if ts[0].Txt? && ts[0].text != "" && rest != [] && rest[0].Txt? {
        TextCons(Txt(ts[0].text + rest[0].text), rest[1..]);
      } else {
        TextCons(ts[0], rest);
      }
    }
  }

  /** Every text survives the round trip, in order. */
  lemma TextSurvives(ts: seq<Token>)
    requires AllPlain(ts)
    ensures TextOf(RoundTrip(ts)) == TextOf(ts)
  {
    hide Plain, Clean, Merge, RoundTrip, Matched, Separated, Normal;
    RoundTripIsCanon(ts);
    CleanKeepsText(ts, Outside);
    MergeKeepsText(Clean(ts, Outside));
  }
}
