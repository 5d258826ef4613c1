/** Strings as Python sees them: whitespace, strip, join, and the non-space characters of a text,
    which are what a text transformation must not lose. */
module Text {

  /** `str.isspace` on one character; `strip` and the regex class `\s` use the same set. */
  predicate IsSpace(c: char) {
    var n := c as int;
    9 <= n <= 13 || 28 <= n <= 32 || n == 0x85 || n == 0xA0 || n == 0x1680 || 0x2000 <= n <= 0x200A
    || n == 0x2028 || n == 0x2029 || n == 0x202F || n == 0x205F || n == 0x3000
  }

  predicate Blank(s: string) {
    forall i :: 0 <= i < |s| ==> IsSpace(s[i])
  }

  /** The characters of s that are not whitespace, in order. */
  function NonSpace(s: string): string {
    if s == "" then ""
    else (if IsSpace(s[0]) then "" else [s[0]]) + NonSpace(s[1..])
  }

  function LStrip(s: string): (r: string)
    ensures |r| <= |s|
  {
    if s != "" && IsSpace(s[0]) then LStrip(s[1..]) else s
  }

  function RStrip(s: string): string {
    if s != "" && IsSpace(s[|s|-1]) then RStrip(s[..|s|-1]) else s
  }

  function Strip(s: string): string {
    RStrip(LStrip(s))
  }

  predicate Stripped(s: string) {
    s != "" ==> !IsSpace(s[0]) && !IsSpace(s[|s|-1])
  }

  function Concat(parts: seq<string>): string {
    if parts == [] then "" else parts[0] + Concat(parts[1..])
  }

  /** `sep.join(parts)` */
  function Join(parts: seq<string>, sep: string): string {
    if parts == [] then ""
    else if |parts| == 1 then parts[0]
    else parts[0] + sep + Join(parts[1..], sep)
  }

  /** The first position of c in s, or |s|. */
  function IndexOf(s: string, c: char): (i: nat)
    ensures i <= |s| && c !in s[..i] && (i < |s| ==> s[i] == c)
  {
    if s == "" || s[0] == c then 0
    else
      var i := IndexOf(s[1..], c) + 1;
      assert s[..i] == [s[0]] + s[1..][..i-1];
      i
  }

  /** `s.split(c)` for a one-character separator */
  function SplitOn(s: string, c: char): seq<string>
    decreases |s|
  {
    var i := IndexOf(s, c);
    if i == |s| then [s] else [s[..i]] + SplitOn(s[i+1..], c)
  }

  lemma {:induction false} IndexOfFirst(a: string, c: char, b: string)
    requires c !in a
    ensures IndexOf(a, c) == |a|
    ensures IndexOf(a + [c] + b, c) == |a|
  {
    if a != "" {
      assert (a + [c] + b)[1..] == a[1..] + [c] + b;
      IndexOfFirst(a[1..], c, b);
    }
  }

  lemma {:induction false} NonSpaceConcat(a: string, b: string)
    ensures NonSpace(a + b) == NonSpace(a) + NonSpace(b)
  {
    hide IsSpace;
    if a == "" {
      assert a + b == b;
    } else {
      assert (a + b)[1..] == a[1..] + b;
      NonSpaceConcat(a[1..], b);
    }
  }

  lemma {:induction false} NonSpaceOfBlank(s: string)
    ensures Blank(s) <==> NonSpace(s) == ""
  {
    hide IsSpace;
    if s != "" {
      NonSpaceOfBlank(s[1..]);
      if Blank(s[1..]) && IsSpace(s[0]) {
        forall i | 0 <= i < |s| ensures IsSpace(s[i]) {
          if i > 0 { assert s[i] == s[1..][i-1]; }
        }
      }
    }
  }

  lemma BlankNothing()
    ensures Blank("")
  {
  }

  lemma BlankAppend(a: string, b: string)
    requires Blank(a) && Blank(b)
    ensures Blank(a + b)
  {
    hide IsSpace;
  }

  lemma BlankOne(c: char)
    ensures Blank([c]) <==> IsSpace(c)
  {
    hide IsSpace;
    assert [c][0] == c;
  }

  lemma {:induction false} LStripSplits(s: string)
    ensures |LStrip(s)| <= |s| && s == s[..|s| - |LStrip(s)|] + LStrip(s)
    ensures Blank(s[..|s| - |LStrip(s)|])
    ensures LStrip(s) != "" ==> !IsSpace(LStrip(s)[0])
  {
    hide IsSpace, Blank;
    BlankNothing();
    if s != "" && IsSpace(s[0]) {
      var t := s[1..];
      LStripSplits(t);
      var k := |t| - |LStrip(t)|;
      assert s == [s[0]] + t;
      assert s[..k+1] == [s[0]] + t[..k];
      BlankOne(s[0]);
      BlankAppend([s[0]], t[..k]);
    }
  }

  lemma {:induction false} RStripSplits(s: string)
    ensures |RStrip(s)| <= |s| && s == RStrip(s) + s[|RStrip(s)|..]
    ensures Blank(s[|RStrip(s)|..])
    ensures RStrip(s) != "" ==> !IsSpace(RStrip(s)[|RStrip(s)|-1])
  {
    hide IsSpace, Blank;
    BlankNothing();
    if s != "" && IsSpace(s[|s|-1]) {
      var t := s[..|s|-1];
      RStripSplits(t);
      var r, last := RStrip(t), s[|s|-1];
      var tail := t[|r|..];
      assert s == (r + tail) + [last];
      assert s == r + (tail + [last]);
      assert s[|r|..] == tail + [last];
      BlankOne(last);
      BlankAppend(tail, [last]);
    }
  }

  lemma BlankIffNoNonSpace(a: string, b: string, c: string)
    requires Blank(a) && Blank(c)
    ensures NonSpace(a + b + c) == NonSpace(b)
  {
    hide IsSpace, NonSpace;
    NonSpaceConcat(a + b, c);
    NonSpaceConcat(a, b);
    NonSpaceOfBlank(a);
    NonSpaceOfBlank(c);
  }

  /** Strip removes blank ends only. */
  lemma StripSplits(s: string) returns (a: string, b: string)
    ensures s == a + Strip(s) + b && Blank(a) && Blank(b)
    ensures Stripped(Strip(s))
  {
    hide IsSpace, LStrip, RStrip, Blank;
    LStripSplits(s);
    var t := LStrip(s);
    a := s[..|s| - |t|];
    RStripSplits(t);
    b := t[|RStrip(t)|..];
    assert s == a + (RStrip(t) + b);
    if RStrip(t) != "" {
      assert RStrip(t)[0] == t[0];
    }
  }

  lemma NonSpaceOfStrip(s: string)
    ensures NonSpace(Strip(s)) == NonSpace(s)
    ensures Strip(s) == "" <==> Blank(s)
    ensures Stripped(Strip(s))
  {
    hide IsSpace, Strip, NonSpace;
    var a, b := StripSplits(s);
    BlankIffNoNonSpace(a, Strip(s), b);
    NonSpaceOfBlank(s);
    NonSpaceOfBlank(Strip(s));
  }

  lemma {:induction false} ConcatAppend(a: seq<string>, b: seq<string>)
    ensures Concat(a + b) == Concat(a) + Concat(b)
  {
    if a == [] {
      assert a + b == b;
    } else {
      assert (a + b)[1..] == a[1..] + b;
      ConcatAppend(a[1..], b);
    }
  }

  /** A blank separator adds nothing that counts. */
  lemma {:induction false} NonSpaceOfJoin(parts: seq<string>, sep: string)
    requires Blank(sep)
    ensures NonSpace(Join(parts, sep)) == NonSpace(Concat(parts))
  {
    hide IsSpace;
    if |parts| == 1 {
      assert parts[0] + "" == parts[0];
    } else if parts != [] {
      NonSpaceOfJoin(parts[1..], sep);
      NonSpaceOfBlank(sep);
      NonSpaceConcat(parts[0] + sep, Join(parts[1..], sep));
      NonSpaceConcat(parts[0], sep);
      NonSpaceConcat(parts[0], Concat(parts[1..]));
    }
  }

  lemma {:induction false} JoinSnoc(parts: seq<string>, last: string, sep: string)
    requires parts != []
    ensures Join(parts + [last], sep) == Join(parts, sep) + sep + last
  {
    if |parts| == 1 {
      assert (parts + [last])[1..] == [last];
    } else {
      assert (parts + [last])[1..] == parts[1..] + [last];
      JoinSnoc(parts[1..], last, sep);
    }
  }

  /** Splitting at a whitespace character loses only that character. */
  lemma {:induction false} NonSpaceOfSplit(s: string, c: char)
    requires IsSpace(c)
    ensures NonSpace(Concat(SplitOn(s, c))) == NonSpace(s)
    decreases |s|
  {
    hide IsSpace, IndexOf;
    var i := IndexOf(s, c);
    if i == |s| {
      assert [s][0] + "" == s;
    } else {
      var rest := SplitOn(s[i+1..], c);
      NonSpaceOfSplit(s[i+1..], c);
      assert ([s[..i]] + rest)[1..] == rest;
      NonSpaceConcat(s[..i], Concat(rest));
      assert s == s[..i] + s[i..];
      NonSpaceConcat(s[..i], s[i..]);
      assert s[i..][1..] == s[i+1..];
      assert s[i..][0] == c;
      assert NonSpace(s[i..]) == NonSpace(s[i+1..]);
      assert Concat([s[..i]] + rest) == s[..i] + Concat(rest);
    }
  }
}
