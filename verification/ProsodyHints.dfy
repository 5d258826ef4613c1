/** What is read of tagged text before anything is spoken (backend/pipeline/prosody_parser.py:34-90): the words of
    pronunciation hints, and every tag and stretch of text as written. */
module ProsodyHints {
  import opened Wrappers
  import opened Text
  import opened SsmlTokens
  import opened ProsodyParser

  // ---------- hints ----------

  datatype Piece = Plain(text: string) | Hint(phonetic: string, word: string)

  function ShowPiece(p: Piece): string {
    match p
    case Plain(text) => text
    case Hint(phonetic, word) => "[pron:" + phonetic + "]" + word + "[/pron]"
  }

  function ShowPieces(ps: seq<Piece>): string {
    if ps == [] then "" else ShowPiece(ps[0]) + ShowPieces(ps[1..])
  }

  function Said(ps: seq<Piece>): string {
    if ps == [] then ""
    else (match ps[0] case Plain(text) => text case Hint(_, word) => word) + Said(ps[1..])
  }

  predicate WellFormed(p: Piece) {
    match p
    case Plain(text) => '[' !in text
    case Hint(phonetic, word) => phonetic != "" && ']' !in phonetic && '[' !in word && '\n' !in word
  }

  lemma OpensWithBracket(s: string)
    ensures PronAt(s).Some? ==> s != "" && s[0] == '['
  {
    hide Find, IndexOf;
    assert PRON_OPEN <= s ==> s[0] == PRON_OPEN[0] == '[';
  }

  lemma {:induction false} PlainIsSaid(text: string, rest: string)
    requires '[' !in text
    ensures Unpron(text + rest) == text + Unpron(rest)
    decreases |text|
  {
    hide PronAt;
    if text == "" {
      assert text + rest == rest;
    } else {
      var s := text + rest;
      assert s[0] == text[0] && s[1..] == text[1..] + rest && text[0] in text;
      OpensWithBracket(s);
      PlainIsSaid(text[1..], rest);
    }
  }

  lemma {:induction false} CloseIsFound(word: string, rest: string)
    requires '[' !in word
    ensures Find(word + PRON_CLOSE + rest, PRON_CLOSE) == |word|
    decreases |word|
  {
    var s := word + PRON_CLOSE + rest;
    if word == "" {
      assert PRON_CLOSE <= s;
    } else {
      assert s[0] == word[0] != PRON_CLOSE[0];
      assert s[1..] == word[1..] + PRON_CLOSE + rest;
      CloseIsFound(word[1..], rest);
    }
  }

  lemma Slicing(open: string, phonetic: string, tail: string, w: nat)
    requires |open| == 6 && w <= |tail|
    ensures
      var s, start := open + phonetic + [']'] + tail, 7 + |phonetic|;
      && open <= s && s[6..] == phonetic + [']'] + tail && |s| == start + |tail| && s[start..] == tail
      && s[start..start+w] == tail[..w] && s[start+w..] == tail[w..]
  {
    var s, start := open + phonetic + [']'] + tail, 7 + |phonetic|;
    assert s[start..] == tail;
    assert s[start..start+w] == s[start..][..w] && s[start+w..] == s[start..][w..];
  }

  lemma PronIs(s: string, v: nat, w: nat)
    requires PRON_OPEN <= s && |s| > 7 + v && v > 0 && v == IndexOf(s[6..], ']')
    requires w == Find(s[7+v..], PRON_CLOSE) < |s| - 7 - v && '\n' !in s[7+v..7+v+w]
    ensures PronAt(s) == Some((7 + v, 7 + v + w))
  {
    hide Find, IndexOf;
  }

  lemma OpenLength()
    ensures |PRON_OPEN| == 6 && |PRON_CLOSE| == 7
  {
  }

  lemma Unprons(s: string, a: nat, b: nat)
    requires PronAt(s) == Some((a, b))
    ensures Unpron(s) == s[a..b] + Unpron(s[b+|PRON_CLOSE|..])
  {
    hide PronAt, PRON_CLOSE;
    OpenLength();
  }

  lemma ShownIs(phonetic: string, word: string, rest: string)
    ensures ShowPiece(Hint(phonetic, word)) + rest == PRON_OPEN + phonetic + [']'] + (word + PRON_CLOSE + rest)
  {
  }

  lemma HintIsSaid(phonetic: string, word: string, rest: string)
    requires WellFormed(Hint(phonetic, word))
    ensures Unpron(ShowPiece(Hint(phonetic, word)) + rest) == word + Unpron(rest)
  {
    hide Find, IndexOf, PronAt, Unpron, ShowPiece, PRON_OPEN, PRON_CLOSE;
    var tail := word + PRON_CLOSE + rest;
    CloseIsFound(word, rest);
    OpenLength();
    assert tail[..|word|] == word && tail[|word|..][7..] == rest;
    Slicing(PRON_OPEN, phonetic, tail, |word|);
    ShownIs(phonetic, word, rest);
    var s, start := PRON_OPEN + phonetic + [']'] + tail, 7 + |phonetic|;
    IndexOfFirst(phonetic, ']', tail);
    PronIs(s, |phonetic|, |word|);
    Unprons(s, start, start + |word|);
    assert s[start+|word|+7..] == s[start+|word|..][7..];
  }

  lemma PlainPiece(text: string, rest: string)
    requires '[' !in text
    ensures Unpron(ShowPiece(Plain(text)) + rest) == text + Unpron(rest)
  {
    PlainIsSaid(text, rest);
  }

  /** Of a text with pronunciation hints the words are said and the hints are not. */
  lemma {:induction false} HintsAreSaidAsWords(ps: seq<Piece>)
    requires forall p :: p in ps ==> WellFormed(p)
    ensures Unpron(ShowPieces(ps)) == Said(ps)
    decreases |ps|
  {
    hide Unpron, ShowPiece;
    if ps == [] {
      NothingSaid();
    } else {
      var rest := ShowPieces(ps[1..]);
      assert WellFormed(ps[0]);
      HintsAreSaidAsWords(ps[1..]);
      match ps[0]
      case Plain(text) => PlainPiece(text, rest);
      case Hint(phonetic, word) => HintIsSaid(phonetic, word, rest);
    }
  }

  lemma NothingSaid()
    ensures Unpron("") == ""
  {
  }

  // ---------- tags ----------

  function Written(lexes: seq<Lex>): string {
    if lexes == [] then ""
    else (if lexes[0].Chunk? then lexes[0].text else Source(lexes[0])) + Written(lexes[1..])
  }

  predicate Proper(x: Lex) {
    match x
    case Chunk(text) => text != ""
    case Mark(name, value) => Word(name) && (value.Some? ==> value.value != "" && ']' !in value.value)
  }

  lemma MarkIsProper(s: string)
    requires MarkAt(s).Some?
    ensures
      var (m, n) := MarkAt(s).value;
      Proper(m) && s[..n] == Source(m)
  {
    hide Word, IndexOf, MarkOf;
    var close := IndexOf(s[1..], ']') + 1;
    var body := s[1..close];
    assert body == s[1..][..close-1];
    assert s[..close+1] == "[" + body + "]";
    BodyIsWritten(body);
  }

  lemma BodyIsWritten(body: string)
    requires ']' !in body && MarkOf(body).Some?
    ensures Proper(MarkOf(body).value) && MarkOf(body).value.Mark? && Source(MarkOf(body).value) == "[" + body + "]"
  {
    hide Word;
    var i := IndexOf(body, ':');
    if !Word(body) {
      assert body == body[..i] + ":" + body[i+1..];
      assert "[" + body[..i] + (":" + body[i+1..]) + "]" == "[" + body + "]";
    } else {
      assert "[" + body + "" + "]" == "[" + body + "]";
    }
  }

  lemma {:induction false} WrittenAppend(a: seq<Lex>, b: seq<Lex>)
    ensures Written(a + b) == Written(a) + Written(b)
  {
    if a == [] {
      assert a + b == b;
    } else {
      assert (a + b)[1..] == a[1..] + b;
      WrittenAppend(a[1..], b);
    }
  }

  lemma WrittenOne(x: Lex)
    ensures Written([x]) == if x.Chunk? then x.text else Source(x)
  {
    hide Source;
    assert [x][1..] == [];
  }

  /** The tags and the text between them are the text, nothing lost or added. */
  lemma {:induction false} LexesAreLossless(s: string)
    ensures Written(Lexes(s)) == s && forall x :: x in Lexes(s) ==> Proper(x)
    decreases |s|
  {
    hide MarkAt, FindMark, Source, Word, Written;
    NothingWritten();
    if s != "" {
      var i := FindMark(s);
      if i == |s| {
        WrittenOne(Chunk(s));
      } else {
        var (m, n) := MarkAt(s[i..]).value;
        MarkIsProper(s[i..]);
        LexesAreLossless(s[i+n..]);
        WrittenThree(s[..i], m, Lexes(s[i+n..]));
        assert s == s[..i] + s[i..][..n] + s[i+n..];
      }
    }
  }

  lemma WrittenThree(before: string, m: Lex, rest: seq<Lex>)
    requires m.Mark?
    ensures Written((if |before| > 0 then [Chunk(before)] else []) + [m] + rest) == before + Source(m) + Written(rest)
  {
    hide Source, Written;
    var first := if |before| > 0 then [Chunk(before)] else [];
    WrittenOne(Chunk(before));
    WrittenOne(m);
    NothingWritten();
    WrittenAppend(first, [m]);
    WrittenAppend(first + [m], rest);
  }

  lemma NothingWritten()
    ensures Written([]) == ""
  {
  }

  predicate Tagless(s: string) {
    forall i :: 0 <= i < |s| ==> MarkAt(s[i..]).None?
  }

  lemma {:induction false} NoTagBefore(s: string, j: nat)
    requires j < FindMark(s)
    ensures j < |s| && MarkAt(s[j..]).None?
  {
    hide MarkAt;
    if j > 0 {
      NoTagBefore(s[1..], j - 1);
      assert s[1..][j-1..] == s[j..];
    } else {
      assert s[0..] == s;
    }
  }

  lemma TagStays(s: string, rest: string)
    requires MarkAt(s).Some?
    ensures MarkAt(s + rest).Some?
  {
    hide MarkOf;
    var close := IndexOf(s[1..], ']') + 1;
    var a, b := s[1..close], s[close+1..] + rest;
    assert ']' !in a by { assert a == s[1..][..close-1]; }
    assert (s + rest)[1..] == a + [']'] + b;
    IndexOfFirst(a, ']', b);
    assert (s + rest)[1..close] == a;
  }

  /** No tag is left in the text between tags. */
  lemma {:induction false} ChunksAreTagless(s: string)
    ensures forall x :: x in Lexes(s) && x.Chunk? ==> Tagless(x.text)
    decreases |s|
  {
    hide MarkAt;
    if s != "" {
      var i := FindMark(s);
      forall j | 0 <= j < i ensures MarkAt(s[..i][j..]).None? {
        NoTagBefore(s, j);
        assert s[j..] == s[..i][j..] + s[i..];
        if MarkAt(s[..i][j..]).Some? { TagStays(s[..i][j..], s[i..]); }
      }
      assert s[..|s|] == s;
      if i < |s| {
        var (m, n) := MarkAt(s[i..]).value;
        ChunksAreTagless(s[i+n..]);
      }
    }
  }
}
