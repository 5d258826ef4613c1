/** UTF-8 (section 3 of RFC 3629) and Python's two ways of decoding it: strictly, and with
    errors="ignore" (backend/services/text_processor.py:137, 169-177). */
module Utf8 {
  import opened Wrappers

  type Byte = b: int | 0 <= b < 256

  function EncodeChar(c: char): (r: seq<Byte>)
    ensures 1 <= |r| <= 4
  {
    var n := c as int;
    if n < 0x80 then [n]
    else if n < 0x800 then [0xC0 + n / 64, 0x80 + n % 64]
    else if n < 0x1_0000 then [0xE0 + n / 4096, 0x80 + n / 64 % 64, 0x80 + n % 64]
    else [0xF0 + n / 262144, 0x80 + n / 4096 % 64, 0x80 + n / 64 % 64, 0x80 + n % 64]
  }

  function Encode(s: string): seq<Byte> {
    if s == "" then [] else EncodeChar(s[0]) + Encode(s[1..])
  }

  predicate IsContinuation(b: Byte) {
    0x80 <= b < 0xC0
  }

  /** The code point of a well-formed sequence at the front, with its length in bytes: no
      overlong forms, no surrogates, nothing above U+10FFFF. */
  function DecodeFirst(bs: seq<Byte>): (r: Option<(char, nat)>)
    ensures r.Some? ==> 1 <= r.value.1 <= |bs|
  {
    if bs == [] then None
    else if bs[0] < 0x80 then Some((bs[0] as char, 1))
    else if 0xC2 <= bs[0] < 0xE0 && |bs| >= 2 && IsContinuation(bs[1]) then
      Some((Point2(bs[0], bs[1]) as char, 2))
    else if 0xE0 <= bs[0] < 0xF0 && |bs| >= 3 && IsContinuation(bs[1]) && IsContinuation(bs[2]) then
      var n := Point3(bs[0], bs[1], bs[2]);
      if 0x800 <= n < 0xD800 || 0xE000 <= n then Some((n as char, 3)) else None
    else if 0xF0 <= bs[0] < 0xF5 && |bs| >= 4 && IsContinuation(bs[1]) && IsContinuation(bs[2])
            && IsContinuation(bs[3]) then
      var n := Point4(bs[0], bs[1], bs[2], bs[3]);
      if 0x1_0000 <= n <= 0x10_FFFF then Some((n as char, 4)) else None
    else None
  }

  function Point2(a: int, b: int): int {
    (a - 0xC0) * 64 + (b - 0x80)
  }

  function Point3(a: int, b: int, c: int): int {
    (a - 0xE0) * 4096 + (b - 0x80) * 64 + (c - 0x80)
  }

  function Point4(a: int, b: int, c: int, d: int): int {
    (a - 0xF0) * 262144 + (b - 0x80) * 4096 + (c - 0x80) * 64 + (d - 0x80)
  }

  /** `bytes.decode("utf-8")`: None is UnicodeDecodeError. */
  function DecodeStrict(bs: seq<Byte>): Option<string>
    decreases |bs|
  {
    if bs == [] then Some("")
    else
      match DecodeFirst(bs)
      case None => None
      case Some((c, k)) =>
        match DecodeStrict(bs[k..])
        case None => None
        case Some(t) => Some([c] + t)
  }

  /** `bytes.decode("utf-8", errors="ignore")` */
  function DecodeIgnore(bs: seq<Byte>): string
    decreases |bs|
  {
    if bs == [] then ""
    else
      match DecodeFirst(bs)
      case None => DecodeIgnore(bs[1..])
      case Some((c, k)) => [c] + DecodeIgnore(bs[k..])
  }

  lemma Digits64(n: nat)
    ensures n / 4096 == n / 64 / 64 && n / 262144 == n / 4096 / 64
    ensures n / 64 * 64 + n % 64 == n
    ensures n / 4096 * 4096 + n / 64 % 64 * 64 + n % 64 == n
    ensures n / 262144 * 262144 + n / 4096 % 64 * 4096 + n / 64 % 64 * 64 + n % 64 == n
  {
  }

  lemma FirstOfTwo(c: char, rest: seq<Byte>)
    requires 0x80 <= c as int < 0x800
    ensures DecodeFirst(EncodeChar(c) + rest) == Some((c, 2))
  {
    var bs := EncodeChar(c) + rest;
    Digits64(c as int);
    assert bs[0] == 0xC0 + c as int / 64 && bs[1] == 0x80 + c as int % 64;
    assert Point2(bs[0], bs[1]) == c as int;
  }

  lemma FirstOfThree(c: char, rest: seq<Byte>)
    requires 0x800 <= c as int < 0x1_0000
    ensures DecodeFirst(EncodeChar(c) + rest) == Some((c, 3))
  {
    var n, bs := c as int, EncodeChar(c) + rest;
    Digits64(n);
    assert bs[0] == 0xE0 + n / 4096 && bs[1] == 0x80 + n / 64 % 64 && bs[2] == 0x80 + n % 64;
    assert Point3(bs[0], bs[1], bs[2]) == n;
  }

  lemma FirstOfFour(c: char, rest: seq<Byte>)
    requires 0x1_0000 <= c as int
    ensures DecodeFirst(EncodeChar(c) + rest) == Some((c, 4))
  {
    var n, bs := c as int, EncodeChar(c) + rest;
    Digits64(n);
    assert bs[0] == 0xF0 + n / 262144 && bs[1] == 0x80 + n / 4096 % 64 && bs[2] == 0x80 + n / 64 % 64
           && bs[3] == 0x80 + n % 64;
    assert Point4(bs[0], bs[1], bs[2], bs[3]) == n;
  }

  lemma FirstOfEncoded(c: char, rest: seq<Byte>)
    ensures DecodeFirst(EncodeChar(c) + rest) == Some((c, |EncodeChar(c)|))
  {
    if c as int < 0x80 {
      assert (EncodeChar(c) + rest)[0] == c as int;
    } else if c as int < 0x800 {
      FirstOfTwo(c, rest);
    } else if c as int < 0x1_0000 {
      FirstOfThree(c, rest);
    } else {
      FirstOfFour(c, rest);
    }
  }

  lemma ContinuationBytes(c: char, k: nat)
    requires 0 < k < |EncodeChar(c)|
    ensures IsContinuation(EncodeChar(c)[k])
  {
  }

  /** A byte string that starts inside a character has no character at its front. */
  lemma NoneInside(c: char, k: nat, rest: seq<Byte>)
    requires 0 < k < |EncodeChar(c)|
    ensures DecodeFirst(EncodeChar(c)[k..] + rest) == None
  {
    ContinuationBytes(c, k);
    assert (EncodeChar(c)[k..] + rest)[0] == EncodeChar(c)[k];
  }

  /** Nor has a character cut short. */
  lemma NoneTruncated(c: char, k: nat)
    requires 0 < k < |EncodeChar(c)|
    ensures DecodeFirst(EncodeChar(c)[..k]) == None
  {
    assert EncodeChar(c)[..k][0] == EncodeChar(c)[0];
  }

  lemma {:induction false} IgnoreTail(c: char, k: nat, rest: seq<Byte>)
    requires 0 < k <= |EncodeChar(c)|
    ensures DecodeIgnore(EncodeChar(c)[k..] + rest) == DecodeIgnore(rest)
    decreases |EncodeChar(c)| - k
  {
    hide EncodeChar, DecodeFirst;
    var bs := EncodeChar(c)[k..] + rest;
    if k == |EncodeChar(c)| {
      assert bs == rest;
    } else {
      NoneInside(c, k, rest);
      assert bs[1..] == EncodeChar(c)[k+1..] + rest;
      IgnoreTail(c, k + 1, rest);
    }
  }

  lemma {:induction false} IgnorePiece(c: char, a: nat, b: nat)
    requires 0 <= a <= b < |EncodeChar(c)| || (0 < a <= b == |EncodeChar(c)|)
    ensures DecodeIgnore(EncodeChar(c)[a..b]) == ""
    decreases b - a
  {
    hide EncodeChar;
    if a < b {
      var bs := EncodeChar(c)[a..b];
      PieceHasNoChar(c, a, b);
      assert bs[1..] == EncodeChar(c)[a+1..b];
      IgnorePiece(c, a + 1, b);
    }
  }

  lemma PieceHasNoChar(c: char, a: nat, b: nat)
    requires 0 <= a < b < |EncodeChar(c)| || (0 < a < b == |EncodeChar(c)|)
    ensures DecodeFirst(EncodeChar(c)[a..b]) == None
  {
    if a == 0 {
      NoneTruncated(c, b);
      assert EncodeChar(c)[0..b] == EncodeChar(c)[..b];
    } else {
      ContinuationBytes(c, a);
      assert EncodeChar(c)[a..b][0] == EncodeChar(c)[a];
    }
  }

  lemma {:induction false} DecodeEncode(s: string)
    ensures DecodeStrict(Encode(s)) == Some(s)
  {
    hide EncodeChar, DecodeFirst;
    if s != "" {
      FirstOfEncoded(s[0], Encode(s[1..]));
      assert Encode(s)[|EncodeChar(s[0])|..] == Encode(s[1..]);
      DecodeEncode(s[1..]);
      assert [s[0]] + s[1..] == s;
    }
  }

  lemma {:induction false} EncodeConcat(a: string, b: string)
    ensures Encode(a + b) == Encode(a) + Encode(b)
  {
    hide EncodeChar;
    if a == "" {
      assert a + b == b;
    } else {
      assert (a + b)[1..] == a[1..] + b;
      EncodeConcat(a[1..], b);
    }
  }

  // ---------- where a byte offset falls ----------

  /** The character that byte offset `off` cuts through, if any. */
  function CutChar(s: string, off: int): Option<char> {
    if s == "" || off <= 0 then None
    else if off < |EncodeChar(s[0])| then Some(s[0])
    else CutChar(s[1..], off - |EncodeChar(s[0])|)
  }

  /** How many characters start before `off`. */
  function CharsBefore(s: string, off: int): (n: nat)
    ensures n <= |s|
  {
    if s == "" || off <= 0 then 0 else 1 + CharsBefore(s[1..], off - |EncodeChar(s[0])|)
  }

  /** How many characters end at or before `off`. */
  function CharsWithin(s: string, off: int): (n: nat)
    ensures n <= |s|
  {
    if s == "" || off < |EncodeChar(s[0])| then 0 else 1 + CharsWithin(s[1..], off - |EncodeChar(s[0])|)
  }

  lemma {:induction false} CutCounts(s: string, off: int)
    requires 0 <= off <= |Encode(s)|
    ensures CutChar(s, off).None? ==> CharsBefore(s, off) == CharsWithin(s, off)
    ensures CutChar(s, off).Some? ==> CharsBefore(s, off) == CharsWithin(s, off) + 1
                                      && s[CharsWithin(s, off)] == CutChar(s, off).value
    decreases |s|
  {
    hide EncodeChar;
    if s != "" && off >= |EncodeChar(s[0])| {
      CutCounts(s[1..], off - |EncodeChar(s[0])|);
    } else if s != "" && 0 < off {
      assert CharsBefore(s[1..], off - |EncodeChar(s[0])|) == 0;
    }
  }

  lemma {:induction false} CountsMonotone(s: string, a: int, b: int)
    requires a <= b
    ensures CharsBefore(s, a) <= CharsBefore(s, b) && CharsWithin(s, a) <= CharsWithin(s, b)
    ensures CharsWithin(s, a) <= CharsBefore(s, a)
  {
    hide EncodeChar;
    if s != "" {
      CountsMonotone(s[1..], a - |EncodeChar(s[0])|, b - |EncodeChar(s[0])|);
    }
  }

  /** The characters that lie wholly between two byte offsets. */
  function Between(s: string, a: int, b: int): string {
    if CharsBefore(s, a) <= CharsWithin(s, b) then s[CharsBefore(s, a)..CharsWithin(s, b)] else ""
  }

  lemma CountsStep(s: string, off: int)
    requires s != ""
    ensures CharsBefore(s, off) == if off <= 0 then 0 else 1 + CharsBefore(s[1..], off - |EncodeChar(s[0])|)
    ensures CharsWithin(s, off)
            == if off < |EncodeChar(s[0])| then 0 else 1 + CharsWithin(s[1..], off - |EncodeChar(s[0])|)
    ensures off <= |EncodeChar(s[0])| ==> CharsBefore(s[1..], off - |EncodeChar(s[0])|) == 0
  {
    hide EncodeChar;
  }

  lemma SliceOfRest(s: string, i: nat, j: nat)
    requires i <= j < |s|
    ensures s[1..][i..j] == s[i+1..j+1]
  {
    forall k | 0 <= k < j - i
      ensures s[1..][i..j][k] == s[i+1..j+1][k]
    {
      assert s[1..][i..j][k] == s[1..][i+k] == s[i+1+k];
    }
  }

  lemma FirstOfSlice(s: string, j: nat)
    requires j < |s|
    ensures s[0..j+1] == [s[0]] + s[1..][0..j]
  {
    SliceOfRest(s, 0, j);
    assert s[0..j+1] == [s[0]] + s[1..j+1];
  }

  lemma NothingBefore(s: string)
    ensures CharsBefore(s, 0) == 0
  {
  }

  lemma BetweenStep(s: string, a: int, b: int)
    requires s != "" && 0 <= a <= b
    ensures b < |EncodeChar(s[0])| ==> Between(s, a, b) == ""
    ensures a >= |EncodeChar(s[0])| ==>
              Between(s, a, b) == Between(s[1..], a - |EncodeChar(s[0])|, b - |EncodeChar(s[0])|)
    ensures 0 < a < |EncodeChar(s[0])| <= b ==> Between(s, a, b) == Between(s[1..], 0, b - |EncodeChar(s[0])|)
    ensures 0 == a < |EncodeChar(s[0])| <= b ==>
              Between(s, a, b) == [s[0]] + Between(s[1..], 0, b - |EncodeChar(s[0])|)
  {
    hide EncodeChar, CharsBefore, CharsWithin;
    var w, t := |EncodeChar(s[0])|, s[1..];
    CountsStep(s, a);
    CountsStep(s, b);
    NothingBefore(t);
    if b >= w {
      var i, j := CharsBefore(s, a), CharsWithin(t, b - w);
      if a == 0 {
        FirstOfSlice(s, j);
      } else if i <= j + 1 {
        SliceOfRest(s, i - 1, j);
      }
    }
  }

  /** Decoding a slice of an encoded text, ignoring errors, yields the characters that lie wholly
      inside the slice. */
  lemma {:induction false} SliceDecodes(s: string, a: int, b: int)
    requires 0 <= a <= b <= |Encode(s)|
    ensures DecodeIgnore(Encode(s)[a..b]) == Between(s, a, b)
    decreases |s|
  {
    hide EncodeChar, DecodeFirst, Between, CharsBefore, CharsWithin, DecodeIgnore;
    if s == "" {
      EmptySlice(a, b);
    } else {
      var w := |EncodeChar(s[0])|;
      var head, tail := EncodeChar(s[0]), Encode(s[1..]);
      assert Encode(s) == head + tail;
      BetweenStep(s, a, b);
      if b < w {
        assert (head + tail)[a..b] == head[a..b];
        IgnorePiece(s[0], a, b);
      } else if a >= w {
        assert (head + tail)[a..b] == tail[a-w..b-w];
        SliceDecodes(s[1..], a - w, b - w);
      } else {
        SliceDecodes(s[1..], 0, b - w);
        assert tail[0..b-w] == tail[..b-w];
        assert (head + tail)[a..b] == head[a..] + tail[..b-w];
        if a == 0 {
          IgnoreWhole(s[0], tail[..b-w]);
          assert head[0..] == head;
        } else {
          IgnoreTail(s[0], a, tail[..b-w]);
        }
      }
    }
  }

  lemma EmptySlice(a: int, b: int)
    requires 0 <= a <= b <= |Encode("")|
    ensures DecodeIgnore(Encode("")[a..b]) == Between("", a, b)
  {
  }

  lemma IgnoreWhole(c: char, rest: seq<Byte>)
    ensures DecodeIgnore(EncodeChar(c) + rest) == [c] + DecodeIgnore(rest)
  {
    hide EncodeChar, DecodeFirst;
    FirstOfEncoded(c, rest);
    assert (EncodeChar(c) + rest)[|EncodeChar(c)|..] == rest;
  }

  /** Decoding the rest of an encoded text strictly fails exactly when the offset cuts a character. */
  lemma {:induction false} TailDecodesStrictly(s: string, a: int)
    requires 0 <= a <= |Encode(s)|
    ensures DecodeStrict(Encode(s)[a..])
            == if CutChar(s, a).None? then Some(s[CharsBefore(s, a)..]) else None
    decreases |s|
  {
    hide EncodeChar, DecodeFirst;
    if a == 0 {
      DecodeEncode(s);
      assert Encode(s)[0..] == Encode(s);
    } else if s != "" {
      var w := |EncodeChar(s[0])|;
      if a < w {
        NoneInside(s[0], a, Encode(s[1..]));
        assert Encode(s)[a..] == EncodeChar(s[0])[a..] + Encode(s[1..]);
      } else {
        assert Encode(s)[a..] == Encode(s[1..])[a-w..];
        TailDecodesStrictly(s[1..], a - w);
      }
    }
  }

  // ---------- ASCII ----------

  predicate Ascii(s: string) {
    forall i :: 0 <= i < |s| ==> s[i] as int < 0x80
  }

  lemma {:induction false} AsciiIsNeverCut(s: string, off: int)
    requires Ascii(s)
    ensures CutChar(s, off).None?
  {
    if s != "" {
      AsciiIsNeverCut(s[1..], off - 1);
    }
  }
}
