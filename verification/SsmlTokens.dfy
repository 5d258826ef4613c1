/** ACX tagged text as tokens (backend/services/ssml_converter.py:209-277).  Word characters and digits
    are the ASCII ones. */
module SsmlTokens {
  import opened Wrappers
  import opened Text

  datatype Emotion = Excited | Happy | Surprised | Shocked | Sad | Melancholy | Dejected | Dark | Ominous

  datatype Token =
    | Txt(text: string)
    | EmphasisOpen
    | EmphasisClose
    | Pause(ms: string)
    | Rate(value: string)
    | Speaker(name: string)
    | LangOpen(lang: string)
    | LangClose
    | Feel(emotion: Emotion)

  function EmotionName(e: Emotion): string {
    match e
    case Excited => "excited" case Happy => "happy" case Surprised => "surprised" case Shocked => "shocked"
    case Sad => "sad" case Melancholy => "melancholy" case Dejected => "dejected" case Dark => "dark"
    case Ominous => "ominous"
  }

  function EmotionOf(s: string): Option<Emotion> {
    if s == "excited" then Some(Excited) else if s == "happy" then Some(Happy)
    else if s == "surprised" then Some(Surprised) else if s == "shocked" then Some(Shocked)
    else if s == "sad" then Some(Sad) else if s == "melancholy" then Some(Melancholy)
    else if s == "dejected" then Some(Dejected) else if s == "dark" then Some(Dark)
    else if s == "ominous" then Some(Ominous) else None
  }

  predicate IsDigit(c: char) {
    '0' <= c <= '9'
  }

  predicate IsWordChar(c: char) {
    'a' <= c <= 'z' || 'A' <= c <= 'Z' || IsDigit(c) || c == '_'
  }

  predicate Digits(s: string) {
    s != "" && forall i :: 0 <= i < |s| ==> IsDigit(s[i])
  }

  predicate Word(s: string) {
    s != "" && forall i :: 0 <= i < |s| ==> IsWordChar(s[i])
  }

  predicate LangTag(s: string) {
    s != "" && forall i :: 0 <= i < |s| ==> IsWordChar(s[i]) || s[i] == '-'
  }

  /** The tag, if any, whose brackets enclose `body`.  No alternative of the tag pattern can match
      across a closing bracket, so a match ends at the first one. */
  function TagOf(body: string): Option<Token> {
    match ValueTag(body)
    case Some(t) => Some(t)
    case None => NamedTag(body)
  }

  function ValueTag(body: string): Option<Token> {
    if "pause:" <= body && Digits(body[6..]) then Some(Pause(body[6..]))
    else if "rate:" <= body && Word(body[5..]) then Some(Rate(body[5..]))
    else if "SPEAKER:" <= body && Word(body[8..]) then Some(Speaker(body[8..]))
    else if "lang:" <= body && LangTag(body[5..]) then Some(LangOpen(body[5..]))
    else None
  }

  function NamedTag(body: string): Option<Token> {
    if body == "emphasis" then Some(EmphasisOpen)
    else if body == "/emphasis" then Some(EmphasisClose)
    else if body == "/lang" then Some(LangClose)
    else
      match EmotionOf(body)
      case Some(e) => Some(Feel(e))
      case None => None
  }

  /** What stands between the brackets of a tag. */
  function BodyOf(t: Token): string
    requires !t.Txt?
  {
    match t
    case EmphasisOpen => "emphasis"
    case EmphasisClose => "/emphasis"
    case Pause(ms) => "pause:" + ms
    case Rate(value) => "rate:" + value
    case Speaker(name) => "SPEAKER:" + name
    case LangOpen(lang) => "lang:" + lang
    case LangClose => "/lang"
    case Feel(e) => EmotionName(e)
  }

  function Show(t: Token): string {
    if t.Txt? then t.text else ['['] + BodyOf(t) + [']']
  }

  function ShowAll(ts: seq<Token>): string {
    if ts == [] then "" else Show(ts[0]) + ShowAll(ts[1..])
  }

  /** A tag at the front of s, with its length. */
  function TagAt(s: string): (r: Option<(Token, nat)>)
    ensures r.Some? ==> 2 <= r.value.1 <= |s| && !r.value.0.Txt?
  {
    if s == "" || s[0] != '[' then None
    else
      var close := IndexOf(s[1..], ']') + 1;
      if close == |s| then None
      else
        match TagOf(s[1..close])
        case Some(t) => Some((t, close + 1))
        case None => None
  }

  /** Where the first tag starts, or |s|. */
  function FindTag(s: string): (i: nat)
    ensures i <= |s| && (i < |s| ==> TagAt(s[i..]).Some?)
  {
    if s == "" then 0
    else if TagAt(s).Some? then assert s[0..] == s; 0
    else
      var i := FindTag(s[1..]) + 1;
      assert s[1..][i-1..] == s[i..];
      i
  }

  function Tokenize(s: string): seq<Token>
    decreases |s|
  {
    if s == "" then []
    else
      var i := FindTag(s);
      if i == |s| then [Txt(s)]
      else
        var (tag, n) := TagAt(s[i..]).value;
        (if i > 0 then [Txt(s[..i])] else []) + [tag] + Tokenize(s[i+n..])
  }

  lemma TokenizeFrom(s: string, a: nat, i: nat)
    requires a <= i < |s| && i == a + FindTag(s[a..])
    ensures TagAt(s[i..]).Some?
    ensures
      var (tag, n) := TagAt(s[i..]).value;
      i + n <= |s|
      && Tokenize(s[a..]) == (if i > a then [Txt(s[a..i])] else []) + [tag] + Tokenize(s[i+n..])
  {
    hide TagAt, FindTag;
    var (tag, n) := TagAt(s[a..][i-a..]).value;
    assert s[a..][i-a..] == s[i..];
    assert s[a..][..i-a] == s[a..i];
    assert s[a..][i-a+n..] == s[i+n..];
  }

  lemma TokenizeLast(s: string, a: nat)
    requires a <= |s| && FindTag(s[a..]) == |s| - a
    ensures Tokenize(s[a..]) == if a < |s| then [Txt(s[a..])] else []
  {
    hide TagAt, FindTag;
  }

  /** `_tokenize_acx`: the loop over tag matches, with the text between them. */
  method TokenizeAcx(s: string) returns (tokens: seq<Token>)
    ensures tokens == Tokenize(s)
  {
    hide TagAt, FindTag, Tokenize;
    tokens := [];
    var lastEnd := 0;
    var i := FindTag(s);
    assert s[0..] == s;
    while i < |s|
      invariant lastEnd <= i <= |s| && i == lastEnd + FindTag(s[lastEnd..])
      invariant tokens + Tokenize(s[lastEnd..]) == Tokenize(s)
      decreases |s| - lastEnd
    {
      TokenizeFrom(s, lastEnd, i);
      if i > lastEnd {
        tokens := tokens + [Txt(s[lastEnd..i])];
      }
      var (tag, n) := TagAt(s[i..]).value;
      tokens := tokens + [tag];
      lastEnd := i + n;
      i := lastEnd + FindTag(s[lastEnd..]);
    }
    TokenizeLast(s, lastEnd);
    if lastEnd < |s| {
      tokens := tokens + [Txt(s[lastEnd..])];
    }
  }

  // ---------- tokenizing loses nothing ----------

  lemma {:induction false} ShowAppend(a: seq<Token>, b: seq<Token>)
    ensures ShowAll(a + b) == ShowAll(a) + ShowAll(b)
  {
    hide Show;
    if a == [] {
      assert a + b == b;
    } else {
      assert (a + b)[1..] == a[1..] + b;
      ShowAppend(a[1..], b);
    }
  }

  lemma ShowOne(t: Token)
    ensures ShowAll([t]) == Show(t)
  {
    hide Show;
    assert [t][1..] == [];
  }

  lemma EmotionsReadBack(s: string)
    requires EmotionOf(s).Some?
    ensures EmotionName(EmotionOf(s).value) == s
  {
  }

  lemma PrefixSplits(p: string, body: string)
    ensures p <= body ==> body == p + body[|p|..]
  {
  }

  lemma ValueReadsBack(body: string)
    requires ValueTag(body).Some?
    ensures !ValueTag(body).value.Txt? && BodyOf(ValueTag(body).value) == body
  {
    hide Digits, Word, LangTag;
    PrefixSplits("pause:", body);
    PrefixSplits("rate:", body);
    PrefixSplits("SPEAKER:", body);
    PrefixSplits("lang:", body);
  }

  lemma NameReadsBack(body: string)
    requires NamedTag(body).Some?
    ensures !NamedTag(body).value.Txt? && BodyOf(NamedTag(body).value) == body
  {
    hide EmotionOf, EmotionName;
    if EmotionOf(body).Some? { EmotionsReadBack(body); }
  }

  lemma TagReadsBack(body: string)
    requires TagOf(body).Some?
    ensures !TagOf(body).value.Txt? && BodyOf(TagOf(body).value) == body
  {
    hide ValueTag, NamedTag, BodyOf;
    if ValueTag(body).Some? { ValueReadsBack(body); } else { NameReadsBack(body); }
  }

  lemma TagAtShows(s: string)
    requires TagAt(s).Some?
    ensures Show(TagAt(s).value.0) == s[..TagAt(s).value.1]
  {
    hide TagOf, BodyOf;
    var close := IndexOf(s[1..], ']') + 1;
    TagReadsBack(s[1..close]);
    assert s[close] == s[1..][close-1] == ']';
    assert s[..close+1] == ['['] + s[1..close] + [']'];
  }

  lemma ShowParts(text: string, tag: Token, rest: seq<Token>)
    ensures ShowAll((if text != "" then [Txt(text)] else []) + [tag] + rest) == text + Show(tag) + ShowAll(rest)
  {
    hide Show;
    var head := if text != "" then [Txt(text)] else [];
    ShowAppend(head + [tag], rest);
    ShowAppend(head, [tag]);
    ShowOne(tag);
    ShowOne(Txt(text));
    ShowText(text);
  }

  /** Tokenizing is lossless: the tokens' source texts, in order, are the input. */
  lemma {:induction false} TokenizeIsLossless(s: string)
    ensures ShowAll(Tokenize(s)) == s
    decreases |s|
  {
    hide TagAt, FindTag, Show, ShowAll;
    if s == "" {
      ShowNone();
    } else {
      var i := FindTag(s);
      if i == |s| {
        ShowOne(Txt(s));
        ShowText(s);
      } else {
        var (tag, n) := TagAt(s[i..]).value;
        TagAtShows(s[i..]);
        TokenizeIsLossless(s[i+n..]);
        ShowParts(s[..i], tag, Tokenize(s[i+n..]));
        assert s == s[..i] + s[i..][..n] + s[i+n..];
      }
    }
  }

  lemma ShowNone()
    ensures ShowAll([]) == ""
  {
  }

  lemma ShowText(s: string)
    ensures Show(Txt(s)) == s
  {
  }

  // ---------- tokens read back ----------

  /** Tag values the pattern can produce; text with no bracket that could start a tag. */
  predicate Plain(t: Token) {
    match t
    case Txt(text) => '[' !in text
    case Pause(ms) => Digits(ms)
    case Rate(value) => Word(value)
    case Speaker(name) => Word(name)
    case LangOpen(lang) => LangTag(lang)
    case _ => true
  }

  predicate AllPlain(ts: seq<Token>) {
    forall i :: 0 <= i < |ts| ==> Plain(ts[i])
  }

  /** As the tokenizer leaves them: no empty text, no two texts in a row. */
  predicate Separated(ts: seq<Token>) {
    && (forall i :: 0 <= i < |ts| && ts[i].Txt? ==> ts[i].text != "")
    && (forall i :: 0 < i < |ts| && ts[i].Txt? ==> !ts[i-1].Txt?)
  }

  lemma EmotionReads(e: Emotion)
    ensures EmotionOf(EmotionName(e)) == Some(e)
  {
  }

  lemma EmotionLetters(e: Emotion)
    ensures ']' !in EmotionName(e) && ':' !in EmotionName(e) && '/' !in EmotionName(e)
    ensures EmotionName(e) != "emphasis"
  {
  }

  /** Tags with a value have a colon, closing tags a slash. */
  lemma TagMarks(s: string)
    ensures "pause:" <= s || "rate:" <= s || "SPEAKER:" <= s || "lang:" <= s ==> ':' in s
    ensures s == "/emphasis" || s == "/lang" ==> '/' in s
  {
    if "pause:" <= s { assert s[5] == ':'; }
    if "rate:" <= s { assert s[4] == ':'; }
    if "SPEAKER:" <= s { assert s[7] == ':'; }
    if "lang:" <= s { assert s[4] == ':'; }
    if s == "/emphasis" || s == "/lang" { assert s[0] == '/'; }
  }

  lemma NoValueTag(s: string)
    requires ':' !in s
    ensures ValueTag(s) == None
  {
    TagMarks(s);
  }

  lemma EmotionTagReads(e: Emotion)
    ensures TagOf(EmotionName(e)) == Some(Feel(e)) && ']' !in EmotionName(e)
  {
    hide EmotionOf, EmotionName, ValueTag;
    EmotionReads(e);
    EmotionLetters(e);
    NoValueTag(EmotionName(e));
    TagMarks(EmotionName(e));
  }

  lemma ValueTagReads(t: Token)
    requires Plain(t) && (t.Pause? || t.Rate? || t.Speaker? || t.LangOpen?)
    ensures TagOf(BodyOf(t)) == Some(t) && ']' !in BodyOf(t)
  {
    hide NamedTag;
    var body := BodyOf(t);
    match t
    case Pause(ms) => assert body[6..] == ms && "pause:" <= body && body[0] == 'p';
    case Rate(value) => assert body[5..] == value && "rate:" <= body && body[0] == 'r';
    case Speaker(name) => assert body[8..] == name && "SPEAKER:" <= body && body[0] == 'S';
    case LangOpen(lang) => assert body[5..] == lang && "lang:" <= body && body[0] == 'l';
  }

  lemma PlainTagReads(t: Token)
    requires t.EmphasisOpen? || t.EmphasisClose? || t.LangClose?
    ensures TagOf(BodyOf(t)) == Some(t) && ']' !in BodyOf(t)
  {
    hide EmotionOf, ValueTag;
    NoValueTag(BodyOf(t));
  }

  lemma TagBodyReads(t: Token)
    requires Plain(t) && !t.Txt?
    ensures TagOf(BodyOf(t)) == Some(t) && ']' !in BodyOf(t)
  {
    if t.Feel? { EmotionTagReads(t.emotion); }
    else if t.EmphasisOpen? || t.EmphasisClose? || t.LangClose? { PlainTagReads(t); }
    else { ValueTagReads(t); }
  }

  lemma ShownTagReads(t: Token, rest: string)
    requires Plain(t) && !t.Txt?
    ensures TagAt(Show(t) + rest) == Some((t, |Show(t)|))
  {
    hide TagOf, BodyOf, Plain;
    TagBodyReads(t);
    var body := BodyOf(t);
    var s := Show(t) + rest;
    assert s[1..] == body + [']'] + rest;
    IndexOfFirst(body, ']', rest);
    assert s[1..|body|+1] == body;
  }

  lemma {:induction false} TextHasNoTag(text: string, rest: string)
    requires '[' !in text && (rest == "" || TagAt(rest).Some?)
    ensures FindTag(text + rest) == |text|
  {
    if text == "" {
      assert text + rest == rest;
    } else {
      assert (text + rest)[1..] == text[1..] + rest;
      TextHasNoTag(text[1..], rest);
    }
  }

  lemma SeparatedTail(ts: seq<Token>)
    requires ts != [] && Separated(ts) && AllPlain(ts)
    ensures Separated(ts[1..]) && AllPlain(ts[1..])
  {
  }

  lemma TokenizeTag(t: Token, rest: string)
    requires Plain(t) && !t.Txt?
    ensures Tokenize(Show(t) + rest) == [t] + Tokenize(rest)
  {
    hide TagAt, FindTag, Plain, Show;
    var s := Show(t) + rest;
    ShownTagReads(t, rest);
    ShownNonEmpty(t);
    TagFirst(s);
    assert s[0..] == s;
    assert s[|Show(t)|..] == rest;
  }

  lemma TokenizeText(text: string, rest: string)
    requires text != "" && '[' !in text && (rest == "" || TagAt(rest).Some?)
    ensures Tokenize(text + rest) == [Txt(text)] + Tokenize(rest)
  {
    hide TagAt, FindTag, Tokenize;
    TextHasNoTag(text, rest);
    var s := text + rest;
    assert s[0..] == s && rest[0..] == rest && s[|text|..] == rest && s[0..|text|] == text;
    if rest == "" {
      TokenizeLast(s, 0);
      TokenizeLast(rest, 0) by { NoTagInNothing(); }
      assert s == text;
    } else {
      TagFirst(rest);
      TokenizeFrom(s, 0, |text|);
      TokenizeFrom(rest, 0, 0);
      var (tag, n) := TagAt(rest).value;
      assert s[|text|+n..] == rest[n..];
    }
  }

  lemma NoTagInNothing()
    ensures FindTag("") == 0 && ""[0..] == ""
  {
  }

  /** Plain, separated tokens are what the tokenizer reads from their own text. */
  lemma {:induction false} TokenizeShown(ts: seq<Token>)
    requires AllPlain(ts) && Separated(ts)
    ensures Tokenize(ShowAll(ts)) == ts
    decreases |ts|
  {
    if ts != [] {
      var t, rest := ts[0], ShowAll(ts[1..]);
      assert Plain(t);
      SeparatedTail(ts);
      TokenizeShown(ts[1..]);
      if t.Txt? { NextIsTag(ts); }
      hide TagAt, FindTag, Plain, Tokenize, Separated, AllPlain;
      assert ts == [t] + ts[1..];
      if t.Txt? {
        ShowText(t.text);
        TextFacts(t);
        TokenizeText(t.text, rest);
      } else {
        TokenizeTag(t, rest);
      }
    }
  }

  lemma NextIsTag(ts: seq<Token>)
    requires ts != [] && AllPlain(ts) && Separated(ts) && ts[0].Txt?
    ensures ts[0].text != "" && (ShowAll(ts[1..]) == "" || TagAt(ShowAll(ts[1..])).Some?)
  {
    hide TagAt, Show, Plain;
    if |ts| > 1 {
      var u := ts[1];
      assert Plain(u) && !u.Txt?;
      assert ts[1..][0] == u;
      ShownTagReads(u, ShowAll(ts[1..][1..]));
    }
  }

  lemma TextFacts(t: Token)
    requires Plain(t) && t.Txt?
    ensures '[' !in t.text
  {
  }

  lemma ShownNonEmpty(t: Token)
    requires !t.Txt?
    ensures |Show(t)| >= 2
  {
  }

  lemma TagFirst(s: string)
    requires TagAt(s).Some?
    ensures s != "" && FindTag(s) == 0
  {
  }
}
