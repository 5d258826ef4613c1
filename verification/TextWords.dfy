/** The words of a text: its maximal runs of characters that are not whitespace.  Two texts with the same
    words sound the same; keeping the words is more than keeping the letters. */
module TextWords {
  import opened Text

  /** `pending` is the part of a word that ends where s begins. */
  function WordsFrom(s: string, pending: string): seq<string> {
    if s == "" then (if pending == "" then [] else [pending])
    else if IsSpace(s[0]) then (if pending == "" then [] else [pending]) + WordsFrom(s[1..], "")
    else WordsFrom(s[1..], pending + [s[0]])
  }

  function Words(s: string): seq<string> {
    WordsFrom(s, "")
  }

  function AllWords(parts: seq<string>): seq<string> {
    if parts == [] then [] else Words(parts[0]) + AllWords(parts[1..])
  }

  /** A whitespace character ends a word. */
  lemma {:induction false} WordsCut(a: string, c: char, b: string, pending: string)
    requires IsSpace(c)
    ensures WordsFrom(a + [c] + b, pending) == WordsFrom(a, pending) + Words(b)
    decreases |a|
  {
    hide IsSpace;
    var s := a + [c] + b;
    if a == "" {
      assert s[0] == c && s[1..] == b;
    } else {
      assert s[0] == a[0] && s[1..] == a[1..] + [c] + b;
      WordsCut(a[1..], c, b, if IsSpace(a[0]) then "" else pending + [a[0]]);
    }
  }

  lemma {:induction false} WordsAfterBlank(a: string, b: string)
    requires Blank(a)
    ensures Words(a + b) == Words(b)
    ensures Words(a) == []
    decreases |a|
  {
    if a == "" {
      assert a + b == b;
    } else {
      assert IsSpace(a[0]) && Blank(a[1..]);
      assert (a + b)[1..] == a[1..] + b;
      WordsAfterBlank(a[1..], b);
    }
  }

  /** Whitespace between two texts keeps their words apart. */
  lemma WordsApart(a: string, sep: string, b: string)
    requires Blank(sep) && sep != ""
    ensures Words(a + sep + b) == Words(a) + Words(b)
  {
    hide IsSpace;
    var c, rest := sep[0], sep[1..];
    assert IsSpace(c) && Blank(rest) by { SpaceFirst(sep); }
    assert a + sep + b == a + [c] + (rest + b);
    WordsCut(a, c, rest + b, "");
    WordsAfterBlank(rest, b);
  }

  lemma SpaceFirst(sep: string)
    requires Blank(sep) && sep != ""
    ensures IsSpace(sep[0]) && Blank(sep[1..])
  {
  }

  lemma WordsBeforeBlank(a: string, sep: string)
    requires Blank(sep)
    ensures Words(a + sep) == Words(a)
  {
    hide IsSpace;
    if sep == "" {
      assert a + sep == a;
    } else {
      WordsApart(a, sep, "");
      assert a + sep + "" == a + sep;
      assert Words("") == [];
    }
  }

  lemma WordsOfStrip(s: string)
    ensures Words(Strip(s)) == Words(s)
  {
    hide IsSpace, Strip, Words;
    var a, b := StripSplits(s);
    WordsBeforeBlank(a + Strip(s), b);
    WordsAfterBlank(a, Strip(s));
  }

  lemma {:induction false} WordsOfJoin(parts: seq<string>, sep: string)
    requires Blank(sep) && sep != ""
    ensures Words(Join(parts, sep)) == AllWords(parts)
  {
    hide IsSpace, Words;
    if parts == [] {
      WordsAfterBlank("", "");
    } else if |parts| == 1 {
      assert parts[1..] == [];
    } else {
      WordsOfJoin(parts[1..], sep);
      WordsApart(parts[0], sep, Join(parts[1..], sep));
    }
  }

  lemma {:induction false} AllWordsAppend(a: seq<string>, b: seq<string>)
    ensures AllWords(a + b) == AllWords(a) + AllWords(b)
  {
    hide Words;
    if a == [] {
      assert a + b == b;
    } else {
      assert (a + b)[1..] == a[1..] + b;
      AllWordsAppend(a[1..], b);
    }
  }

  lemma AllWordsOne(s: string)
    ensures AllWords([s]) == Words(s) && AllWords([]) == []
  {
    assert [s][1..] == [];
  }

  lemma {:induction false} NoWords(s: string, pending: string)
    ensures WordsFrom(s, pending) == [] <==> Blank(s) && pending == ""
    decreases |s|
  {
    if s != "" {
      NoWords(s[1..], if IsSpace(s[0]) then "" else pending + [s[0]]);
    }
  }

  lemma {:induction false} WordsOfSplit(s: string, c: char)
    requires IsSpace(c)
    ensures AllWords(SplitOn(s, c)) == Words(s)
    decreases |s|
  {
    hide Words, IsSpace;
    var i := IndexOf(s, c);
    if i == |s| {
      AllWordsOne(s);
    } else {
      WordsOfSplit(s[i+1..], c);
      assert s == s[..i] + [c] + s[i+1..];
      assert Blank([c]);
      WordsApart(s[..i], [c], s[i+1..]);
      assert SplitOn(s, c)[1..] == SplitOn(s[i+1..], c);
    }
  }

  lemma WordlessWhenStrippedAway(s: string)
    ensures Strip(s) == "" <==> Words(s) == []
  {
    hide NonSpace, Strip, IsSpace;
    NonSpaceOfStrip(s);
    NoWords(s, "");
  }
}
