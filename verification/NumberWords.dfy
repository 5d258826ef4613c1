/** The number speller of the text normalizer (backend/pipeline/agents/text_normalizer.py:84-114) and
    a reader that recovers every integer from its words. */
module NumberWords {
  import opened Wrappers
  import opened Text

  const ONES: seq<string> := ["", "one", "two", "three", "four", "five", "six", "seven", "eight", "nine",
                              "ten", "eleven", "twelve", "thirteen", "fourteen", "fifteen", "sixteen",
                              "seventeen", "eighteen", "nineteen"]
  const TENS: seq<string> := ["", "", "twenty", "thirty", "forty", "fifty", "sixty", "seventy", "eighty", "ninety"]

  function Ones(i: nat): string
    requires i < 20
  {
    ONES[i]
  }

  function Tens(i: nat): string
    requires i < 10
  {
    TENS[i]
  }

  /** The word for 1..99. */
  function SmallWord(n: nat): string
    requires 1 <= n < 100
  {
    if n >= 20 then Tens(n / 10) + (if n % 10 != 0 then "-" + Ones(n % 10) else "")
    else Ones(n)
  }

  function NumberToWords(n: int): string
    decreases if n < 0 then 1 else 0, if n < 0 then -n else n
  {
    if n == 0 then "zero"
    else if n < 0 then "minus " + NumberToWords(-n)
    else
      var millions := if n >= 1_000_000 then [NumberToWords(n / 1_000_000) + " million"] else [];
      var a := n % 1_000_000;
      var thousands := if a >= 1_000 then [NumberToWords(a / 1_000) + " thousand"] else [];
      var b := a % 1_000;
      var hundreds := if b >= 100 then [Ones(b / 100) + " hundred"] else [];
      var c := b % 100;
      var rest := if c > 0 then [SmallWord(c)] else [];
      Join(millions + thousands + hundreds + rest, " ")
  }

  // ---------- the words one by one ----------

  function Under1000(n: nat): seq<string>
    requires n < 1000
  {
    (if n >= 100 then [Ones(n / 100), "hundred"] else [])
    + (if n % 100 > 0 then [SmallWord(n % 100)] else [])
  }

  function UnderMillion(n: nat): seq<string>
    requires n < 1_000_000
  {
    (if n >= 1000 then Under1000(n / 1000) + ["thousand"] else []) + Under1000(n % 1000)
  }

  function WordsOf(n: int): seq<string>
    decreases if n < 0 then 1 else 0, if n < 0 then -n else n
  {
    if n == 0 then ["zero"]
    else if n < 0 then ["minus"] + WordsOf(-n)
    else (if n >= 1_000_000 then WordsOf(n / 1_000_000) + ["million"] else []) + UnderMillion(n % 1_000_000)
  }

  // ---------- the reader ----------

  /** The values of the number names, or 0 for other words. */
  function OnesValue(w: string): nat {
    if w == "one" then 1 else if w == "two" then 2 else if w == "three" then 3 else if w == "four" then 4
    else if w == "five" then 5 else if w == "six" then 6 else if w == "seven" then 7 else if w == "eight" then 8
    else if w == "nine" then 9 else if w == "ten" then 10 else if w == "eleven" then 11 else if w == "twelve" then 12
    else if w == "thirteen" then 13 else if w == "fourteen" then 14 else if w == "fifteen" then 15
    else if w == "sixteen" then 16 else if w == "seventeen" then 17 else if w == "eighteen" then 18
    else if w == "nineteen" then 19 else 0
  }

  function TensValue(w: string): nat {
    if w == "twenty" then 20 else if w == "thirty" then 30 else if w == "forty" then 40 else if w == "fifty" then 50
    else if w == "sixty" then 60 else if w == "seventy" then 70 else if w == "eighty" then 80
    else if w == "ninety" then 90 else 0
  }

  /** A dash stands only between tens and a unit. */
  function SmallValue(w: string): nat {
    var i := IndexOf(w, '-');
    if i == |w| then TensValue(w) + OnesValue(w)
    else if TensValue(w[..i]) > 0 && 0 < OnesValue(w[i+1..]) < 10 then TensValue(w[..i]) + OnesValue(w[i+1..])
    else 0
  }

  /** The last position of `w` in `ws`, or |ws|. */
  function LastIndex(ws: seq<string>, w: string): (k: nat)
    ensures k <= |ws| && (k < |ws| ==> ws[k] == w)
  {
    if ws == [] then 0
    else if ws[|ws|-1] == w then |ws| - 1
    else
      var k := LastIndex(ws[..|ws|-1], w);
      if k == |ws| - 1 then |ws| else k
  }

  /** The readers of positive numbers answer 0 when the words are not those of one. */
  function ReadUnder1000(ws: seq<string>): nat {
    if |ws| == 1 then SmallValue(ws[0])
    else if |ws| < 2 || |ws| > 3 || ws[1] != "hundred" || !(0 < OnesValue(ws[0]) < 10) then 0
    else if |ws| == 2 then OnesValue(ws[0]) * 100
    else if SmallValue(ws[2]) > 0 then OnesValue(ws[0]) * 100 + SmallValue(ws[2])
    else 0
  }

  /** A positive number of thousands or millions, followed by a positive number or by nothing. */
  function Group(high: nat, unit: nat, low: nat, end: bool): nat {
    if high > 0 && (low > 0 || end) then high * unit + low else 0
  }

  function ReadUnderMillion(ws: seq<string>): nat {
    var k := LastIndex(ws, "thousand");
    if k < |ws| then Group(ReadUnder1000(ws[..k]), 1000, ReadUnder1000(ws[k+1..]), k + 1 == |ws|)
    else ReadUnder1000(ws)
  }

  /** Splitting at the last "million" undoes the nesting above 10^12. */
  function ReadPositive(ws: seq<string>): nat
    decreases |ws|
  {
    var k := LastIndex(ws, "million");
    if k < |ws| then Group(ReadPositive(ws[..k]), 1_000_000, ReadUnderMillion(ws[k+1..]), k + 1 == |ws|)
    else ReadUnderMillion(ws)
  }

  function ReadWords(ws: seq<string>): Option<int> {
    if ws == ["zero"] then Some(0)
    else if ws != [] && ws[0] == "minus" then
      var n: int := ReadPositive(ws[1..]);
      if n > 0 then Some(-n) else None
    else if ReadPositive(ws) > 0 then Some(ReadPositive(ws))
    else None
  }

  /** The number that a string spells, if it spells one. */
  function ReadNumber(s: string): Option<int> {
    ReadWords(SplitOn(s, ' '))
  }

  // ---------- small words ----------

  lemma LowOnesValue(n: nat)
    requires 1 <= n < 10
    ensures OnesValue(Ones(n)) == n
  {
  }

  lemma TeensValue(n: nat)
    requires 10 <= n < 15
    ensures OnesValue(Ones(n)) == n
  {
  }

  lemma HighTeensValue(n: nat)
    requires 15 <= n < 20
    ensures OnesValue(Ones(n)) == n
  {
  }

  lemma OnesNotTens(n: nat)
    requires 1 <= n < 20
    ensures TensValue(Ones(n)) == 0
  {
  }

  predicate Reserved(w: string) {
    w == "hundred" || w == "thousand" || w == "million" || w == "minus" || w == "zero"
  }

  lemma OnesNotReserved(n: nat)
    requires 1 <= n < 20
    ensures !Reserved(Ones(n))
  {
  }

  lemma ReservedPlain(w: string)
    requires Reserved(w)
    ensures Plain(w) && '-' !in w
  {
  }

  lemma OnesPlain(n: nat)
    requires 1 <= n < 20
    ensures '-' !in Ones(n) && ' ' !in Ones(n) && Ones(n) != ""
  {
  }

  lemma TensValues(t: nat)
    requires 2 <= t < 10
    ensures TensValue(Tens(t)) == 10 * t
  {
  }

  lemma TensNotOnes(t: nat)
    requires 2 <= t < 10
    ensures OnesValue(Tens(t)) == 0
  {
  }

  lemma TensPlain(t: nat)
    requires 2 <= t < 10
    ensures '-' !in Tens(t) && ' ' !in Tens(t) && Tens(t) != "" && !Reserved(Tens(t))
  {
  }

  lemma TensWords(t: nat)
    requires 2 <= t < 10
    ensures TensValue(Tens(t)) == 10 * t && OnesValue(Tens(t)) == 0 && '-' !in Tens(t) && Atom(Tens(t))
  {
    TensValues(t);
    TensNotOnes(t);
    TensPlain(t);
  }

  predicate Plain(w: string) {
    w != "" && ' ' !in w
  }

  /** A word that may occur below "thousand" and is not a magnitude or a sign. */
  predicate Atom(w: string) {
    Plain(w) && !Reserved(w)
  }

  lemma OnesWords(n: nat)
    requires 1 <= n < 20
    ensures OnesValue(Ones(n)) == n && TensValue(Ones(n)) == 0 && Atom(Ones(n)) && '-' !in Ones(n)
  {
    if n < 10 { LowOnesValue(n); } else if n < 15 { TeensValue(n); } else { HighTeensValue(n); }
    OnesNotTens(n);
    OnesNotReserved(n);
    OnesPlain(n);
  }

  lemma DashedWordReads(t: nat, u: nat)
    requires 2 <= t < 10 && 1 <= u < 10
    ensures SmallValue(Tens(t) + "-" + Ones(u)) == 10 * t + u && Atom(Tens(t) + "-" + Ones(u))
  {
    hide OnesValue, TensValue, Reserved, Ones, Tens;
    TensWords(t);
    OnesWords(u);
    var w := Tens(t) + "-" + Ones(u);
    IndexOfFirst(Tens(t), '-', Ones(u));
    assert w == Tens(t) + ['-'] + Ones(u);
    assert w[..|Tens(t)|] == Tens(t) && w[|Tens(t)|+1..] == Ones(u);
    assert w[|Tens(t)|] == '-';
    if Reserved(w) { ReservedPlain(w); }
  }

  lemma SmallWordReads(n: nat)
    requires 1 <= n < 100
    ensures SmallValue(SmallWord(n)) == n && Atom(SmallWord(n))
  {
    hide OnesValue, TensValue, Reserved, Ones, Tens;
    if n < 20 {
      OnesWords(n);
      IndexOfFirst(Ones(n), '-', "");
    } else if n % 10 == 0 {
      TensWords(n / 10);
      IndexOfFirst(Tens(n / 10), '-', "");
      assert SmallWord(n) == Tens(n / 10);
    } else {
      DashedWordReads(n / 10, n % 10);
      assert SmallWord(n) == Tens(n / 10) + "-" + Ones(n % 10);
    }
  }

  predicate Below1000Word(w: string) {
    Atom(w) || w == "hundred"
  }

  lemma Below1000WordFacts(w: string)
    requires Below1000Word(w)
    ensures Plain(w) && w != "thousand" && w != "million" && w != "minus" && w != "zero"
  {
  }

  lemma Under1000Reads(n: nat)
    requires n < 1000
    ensures ReadUnder1000(Under1000(n)) == n
    ensures Under1000(n) == [] <==> n == 0
    ensures forall w :: w in Under1000(n) ==> Below1000Word(w)
  {
    hide OnesValue, SmallValue, SmallWord, Ones;
    if n % 100 > 0 { SmallWordReads(n % 100); }
    if n >= 100 {
      OnesWords(n / 100);
      assert Under1000(n)[1] == "hundred";
    } else if n > 0 {
      assert Under1000(n) == [SmallWord(n)];
    }
  }

  lemma {:induction false} LastIndexOf(a: seq<string>, w: string, b: seq<string>)
    requires w !in b
    ensures LastIndex(a + [w] + b, w) == |a|
    ensures LastIndex(b, w) == |b|
    decreases |b|
  {
    var ws := a + [w] + b;
    if b != [] {
      LastIndexOf(a, w, b[..|b|-1]);
      assert ws[..|ws|-1] == a + [w] + b[..|b|-1];
    }
  }

  predicate BelowMillionWord(w: string) {
    Plain(w) && w != "million" && w != "minus" && w != "zero"
  }

  lemma UnderMillionReads(n: nat)
    requires n < 1_000_000
    ensures ReadUnderMillion(UnderMillion(n)) == n
    ensures UnderMillion(n) == [] <==> n == 0
    ensures forall w :: w in UnderMillion(n) ==> BelowMillionWord(w)
  {
    hide Under1000, ReadUnder1000, Below1000Word, Plain;
    var high, low := Under1000(n / 1000), Under1000(n % 1000);
    Under1000Reads(n / 1000);
    Under1000Reads(n % 1000);
    forall w | w in high || w in low
      ensures BelowMillionWord(w) && w != "thousand"
    {
      Below1000WordFacts(w);
    }
    ThousandIsPlain();
    LastIndexOf(high, "thousand", low);
    if n >= 1000 {
      assert UnderMillion(n) == high + ["thousand"] + low;
      assert UnderMillion(n)[..|high|] == high && UnderMillion(n)[|high|+1..] == low;
    } else {
      assert UnderMillion(n) == low;
    }
  }

  lemma ThousandIsPlain()
    ensures BelowMillionWord("thousand") && Plain("million") && "million" != "minus" && "million" != "zero"
    ensures Plain("zero") && Plain("minus") && "minus" != "zero"
  {
  }

  lemma ReadsMillions(high: seq<string>, low: seq<string>)
    requires forall w :: w in low ==> BelowMillionWord(w)
    ensures ReadPositive(high + ["million"] + low)
            == Group(ReadPositive(high), 1_000_000, ReadUnderMillion(low), low == [])
  {
    hide ReadUnderMillion, Plain, Group;
    var ws := high + ["million"] + low;
    LastIndexOf(high, "million", low);
    assert ws[..|high|] == high && ws[|high|+1..] == low;
  }

  lemma ReadsLow(low: seq<string>)
    requires forall w :: w in low ==> BelowMillionWord(w)
    ensures ReadPositive(low) == ReadUnderMillion(low)
  {
    hide ReadUnderMillion, Plain;
    LastIndexOf([], "million", low);
  }

  predicate Spelled(w: string) {
    Plain(w) && w != "minus" && w != "zero"
  }

  lemma {:induction false} PositiveRead(n: nat)
    requires n > 0
    ensures ReadPositive(WordsOf(n)) == n
    ensures WordsOf(n) != [] && forall w :: w in WordsOf(n) ==> Spelled(w)
  {
    hide UnderMillion, ReadUnderMillion, Plain, ReadPositive;
    ThousandIsPlain();
    var low := UnderMillion(n % 1_000_000);
    UnderMillionReads(n % 1_000_000);
    if n >= 1_000_000 {
      var high := WordsOf(n / 1_000_000);
      PositiveRead(n / 1_000_000);
      ReadsMillions(high, low);
      assert WordsOf(n) == high + ["million"] + low;
    } else {
      ReadsLow(low);
      assert WordsOf(n) == low;
    }
  }

  /** The word reader inverts the word list, for every integer. */
  lemma WordsRead(n: int)
    ensures ReadWords(WordsOf(n)) == Some(n)
    ensures WordsOf(n) != [] && forall w :: w in WordsOf(n) ==> Plain(w)
  {
    hide UnderMillion, ReadPositive, Plain;
    ThousandIsPlain();
    if n < 0 {
      PositiveRead(-n);
      assert WordsOf(n)[1..] == WordsOf(-n);
      assert WordsOf(n)[0] == "minus";
    } else if n > 0 {
      PositiveRead(n);
      assert Spelled(WordsOf(n)[0]);
    }
  }

  // ---------- what the reader accepts ----------

  lemma OnesAreSpelled(w: string)
    requires OnesValue(w) > 0
    ensures OnesValue(w) < 20 && w == Ones(OnesValue(w))
  {
  }

  lemma TensAreSpelled(w: string)
    requires TensValue(w) > 0
    ensures
      var t := TensValue(w) / 10;
      2 <= t < 10 && TensValue(w) == 10 * t && w == Tens(t)
  {
  }

  lemma SmallIsSpelled(w: string)
    requires SmallValue(w) > 0
    ensures SmallValue(w) < 100 && w == SmallWord(SmallValue(w))
  {
    hide OnesValue, TensValue, Ones, Tens;
    var i := IndexOf(w, '-');
    if i == |w| {
      if TensValue(w) > 0 {
        TensAreSpelled(w);
        TensNotOnes(TensValue(w) / 10);
      } else {
        OnesAreSpelled(w);
      }
    } else {
      TensAreSpelled(w[..i]);
      OnesAreSpelled(w[i+1..]);
      assert w == w[..i] + "-" + w[i+1..];
    }
  }

  lemma Under1000IsSpelled(ws: seq<string>)
    requires ReadUnder1000(ws) > 0
    ensures ReadUnder1000(ws) < 1000 && ws == Under1000(ReadUnder1000(ws))
  {
    hide OnesValue, SmallValue, SmallWord, Ones;
    if |ws| == 1 {
      SmallIsSpelled(ws[0]);
      if SmallValue(ws[0]) % 100 != SmallValue(ws[0]) { assert false; }
    } else {
      OnesAreSpelled(ws[0]);
      if |ws| == 3 { SmallIsSpelled(ws[2]); }
    }
  }

  lemma GroupParts(high: nat, unit: nat, low: nat, end: bool)
    requires Group(high, unit, low, end) > 0 && low < unit && (end ==> low == 0)
    requires unit == 1000 || unit == 1_000_000
    ensures var n := Group(high, unit, low, end); n / unit == high > 0 && n % unit == low && (end <==> low == 0)
  {
    if unit == 1000 {
      assert (high * 1000 + low) / 1000 == high;
    } else {
      assert (high * 1_000_000 + low) / 1_000_000 == high;
    }
  }

  lemma NothingRead()
    ensures ReadUnder1000([]) == 0 && ReadUnderMillion([]) == 0 && ReadPositive([]) == 0 && Under1000(0) == []
  {
  }

  lemma UnderMillionIsSpelled(ws: seq<string>)
    requires ReadUnderMillion(ws) > 0
    ensures ReadUnderMillion(ws) < 1_000_000 && ws == UnderMillion(ReadUnderMillion(ws))
  {
    hide ReadUnder1000, Under1000;
    NothingRead();
    var k := LastIndex(ws, "thousand");
    if k < |ws| {
      var high, low := ReadUnder1000(ws[..k]), ReadUnder1000(ws[k+1..]);
      Under1000IsSpelled(ws[..k]);
      if low > 0 { Under1000IsSpelled(ws[k+1..]); }
      GroupParts(high, 1000, low, k + 1 == |ws|);
      assert ws == ws[..k] + ["thousand"] + ws[k+1..];
    } else {
      Under1000IsSpelled(ws);
    }
  }

  lemma {:induction false} PositiveIsSpelled(ws: seq<string>)
    requires ReadPositive(ws) > 0
    ensures ws == WordsOf(ReadPositive(ws))
    decreases |ws|
  {
    hide ReadUnderMillion, UnderMillion;
    NothingRead();
    UnderMillionOfZero();
    var k := LastIndex(ws, "million");
    if k < |ws| {
      var high, low := ReadPositive(ws[..k]), ReadUnderMillion(ws[k+1..]);
      PositiveIsSpelled(ws[..k]);
      if low > 0 { UnderMillionIsSpelled(ws[k+1..]); }
      GroupParts(high, 1_000_000, low, k + 1 == |ws|);
      assert ws == ws[..k] + ["million"] + ws[k+1..];
    } else {
      UnderMillionIsSpelled(ws);
    }
  }

  lemma UnderMillionOfZero()
    ensures UnderMillion(0) == []
  {
  }

  // ---------- from word lists to the spoken string ----------

  lemma {:induction false} JoinAppends(a: seq<string>, b: seq<string>, sep: string)
    requires a != [] && b != []
    ensures Join(a + b, sep) == Join(a, sep) + sep + Join(b, sep)
  {
    if |a| == 1 {
      assert (a + b)[1..] == b;
    } else {
      assert (a + b)[1..] == a[1..] + b;
      JoinAppends(a[1..], b, sep);
    }
  }

  /** Parts and words are two groupings of the same string. */
  predicate SameText(parts: seq<string>, words: seq<string>) {
    Join(parts, " ") == Join(words, " ") && (parts == [] <==> words == [])
  }

  lemma AddGroup(parts: seq<string>, words: seq<string>, part: string, group: seq<string>)
    requires SameText(parts, words) && group != [] && part == Join(group, " ")
    ensures SameText(parts + [part], words + group)
  {
    if parts == [] {
      assert parts + [part] == [part] && words + group == group;
    } else {
      JoinAppends(parts, [part], " ");
      JoinAppends(words, group, " ");
    }
  }

  lemma Under1000Text(parts: seq<string>, words: seq<string>, n: nat)
    requires SameText(parts, words) && n < 1000
    ensures
      var hundreds := if n >= 100 then [Ones(n / 100) + " hundred"] else [];
      var rest := if n % 100 > 0 then [SmallWord(n % 100)] else [];
      SameText(parts + hundreds + rest, words + Under1000(n))
  {
    var parts', words' := parts, words;
    if n >= 100 {
      AddGroup(parts, words, Ones(n / 100) + " hundred", [Ones(n / 100), "hundred"]);
      parts', words' := parts + [Ones(n / 100) + " hundred"], words + [Ones(n / 100), "hundred"];
    } else {
      assert parts + [] == parts;
    }
    if n % 100 > 0 {
      AddGroup(parts', words', SmallWord(n % 100), [SmallWord(n % 100)]);
      assert words' + [SmallWord(n % 100)] == words + Under1000(n);
    } else {
      assert parts' + [] == parts' && words' == words + Under1000(n);
    }
  }

  lemma PositiveUnfolds(n: nat)
    requires n > 0
    ensures
      var a, b := n % 1_000_000, n % 1_000_000 % 1_000;
      var millions := if n >= 1_000_000 then [NumberToWords(n / 1_000_000) + " million"] else [];
      var thousands := if a >= 1_000 then [NumberToWords(a / 1_000) + " thousand"] else [];
      var hundreds := if b >= 100 then [Ones(b / 100) + " hundred"] else [];
      var rest := if b % 100 > 0 then [SmallWord(b % 100)] else [];
      NumberToWords(n) == Join(millions + thousands + hundreds + rest, " ")
    ensures
      var a := n % 1_000_000;
      WordsOf(n) == (if n >= 1_000_000 then WordsOf(n / 1_000_000) + ["million"] else [])
                    + ((if a >= 1_000 then Under1000(a / 1_000) + ["thousand"] else []) + Under1000(a % 1_000))
  {
    hide Join, SmallWord, Under1000, Ones;
  }

  /** What is spoken below a thousand is one group of words. */
  lemma SpokenUnder1000(n: nat)
    requires 0 < n < 1000
    ensures NumberToWords(n) == Join(Under1000(n), " ")
  {
    hide Join, Under1000, SmallWord, Ones, NumberToWords, WordsOf;
    PositiveUnfolds(n);
    Under1000Text([], [], n);
    var hundreds := if n >= 100 then [Ones(n / 100) + " hundred"] else [];
    var rest := if n % 100 > 0 then [SmallWord(n % 100)] else [];
    assert [] + hundreds + rest == [] + [] + hundreds + rest;
    assert [] + Under1000(n) == Under1000(n);
  }

  lemma AddThousands(parts: seq<string>, words: seq<string>, a: nat) returns (words': seq<string>)
    requires SameText(parts, words) && a < 1_000_000
    ensures words' == words + (if a >= 1000 then Under1000(a / 1000) + ["thousand"] else [])
    ensures SameText(parts + (if a >= 1000 then [NumberToWords(a / 1000) + " thousand"] else []), words')
  {
    hide Join, Under1000, NumberToWords;
    words' := words;
    if a >= 1000 {
      var high := Under1000(a / 1000);
      SpokenUnder1000(a / 1000);
      Under1000Reads(a / 1000);
      JoinAppends(high, ["thousand"], " ");
      JoinOne("thousand");
      AddGroup(parts, words, NumberToWords(a / 1000) + " thousand", high + ["thousand"]);
      words' := words + (high + ["thousand"]);
    } else {
      assert parts + [] == parts && words + [] == words;
    }
  }

  lemma JoinOne(w: string)
    ensures Join([w], " ") == w
    ensures w == "thousand" ==> " thousand" == " " + w
    ensures w == "million" ==> " million" == " " + w
    ensures w == "minus" ==> "minus " == w + " "
  {
  }

  lemma {:induction false} SpokenMillions(n: nat) returns (parts: seq<string>, words: seq<string>)
    requires n > 0
    ensures parts == if n >= 1_000_000 then [NumberToWords(n / 1_000_000) + " million"] else []
    ensures words == if n >= 1_000_000 then WordsOf(n / 1_000_000) + ["million"] else []
    ensures SameText(parts, words)
    decreases 0, n, 0
  {
    hide Join, NumberToWords, WordsOf;
    parts, words := [], [];
    if n >= 1_000_000 {
      SpokenWords(n / 1_000_000);
      WordsRead(n / 1_000_000);
      JoinAppends(WordsOf(n / 1_000_000), ["million"], " ");
      JoinOne("million");
      words := WordsOf(n / 1_000_000) + ["million"];
      parts := [NumberToWords(n / 1_000_000) + " million"];
      AddGroup([], [], parts[0], words);
      assert [] + parts == parts && [] + words == words;
    }
  }

  lemma SpokenPositive(n: nat, parts: seq<string>, words: seq<string>)
    requires n > 0 && SameText(parts, words)
    requires parts == if n >= 1_000_000 then [NumberToWords(n / 1_000_000) + " million"] else []
    requires words == if n >= 1_000_000 then WordsOf(n / 1_000_000) + ["million"] else []
    ensures NumberToWords(n) == Join(WordsOf(n), " ")
  {
    hide Join, SmallWord, Under1000, Ones, NumberToWords, WordsOf;
    PositiveUnfolds(n);
    var a := n % 1_000_000;
    var words' := AddThousands(parts, words, a);
    var parts' := parts + (if a >= 1000 then [NumberToWords(a / 1000) + " thousand"] else []);
    Under1000Text(parts', words', a % 1000);
    assert WordsOf(n) == words' + Under1000(a % 1000);
  }

  lemma NegativeUnfolds(n: int)
    requires n < 0
    ensures NumberToWords(n) == "minus " + NumberToWords(-n) && WordsOf(n) == ["minus"] + WordsOf(-n)
  {
  }

  lemma SpokenNegative(n: int)
    requires n < 0 && NumberToWords(-n) == Join(WordsOf(-n), " ")
    ensures NumberToWords(n) == Join(WordsOf(n), " ")
  {
    hide *;
    NegativeUnfolds(n);
    WordsRead(-n);
    JoinAppends(["minus"], WordsOf(-n), " ");
    JoinOne("minus");
  }

  lemma SpokenZero()
    ensures NumberToWords(0) == Join(WordsOf(0), " ")
  {
    JoinOne("zero");
  }

  /** The spoken string is the word list joined by spaces. */
  lemma {:induction false} SpokenWords(n: int)
    ensures NumberToWords(n) == Join(WordsOf(n), " ")
    decreases if n < 0 then 1 else 0, if n < 0 then -n else n, 1
  {
    hide *;
    if n < 0 {
      SpokenWords(-n);
      SpokenNegative(n);
    } else if n == 0 {
      SpokenZero();
    } else {
      var parts, words := SpokenMillions(n);
      SpokenPositive(n, parts, words);
    }
  }

  lemma {:induction false} SplitJoin(ws: seq<string>)
    requires ws != [] && forall w :: w in ws ==> ' ' !in w
    ensures SplitOn(Join(ws, " "), ' ') == ws
    decreases |ws|
  {
    var s := Join(ws, " ");
    if |ws| == 1 {
      IndexOfFirst(ws[0], ' ', "");
    } else {
      var tail := Join(ws[1..], " ");
      assert s == ws[0] + [' '] + tail;
      IndexOfFirst(ws[0], ' ', tail);
      assert s[..|ws[0]|] == ws[0] && s[|ws[0]|+1..] == tail;
      SplitJoin(ws[1..]);
    }
  }

  lemma {:induction false} JoinSplit(s: string)
    ensures Join(SplitOn(s, ' '), " ") == s
    decreases |s|
  {
    var i := IndexOf(s, ' ');
    if i < |s| {
      JoinSplit(s[i+1..]);
      assert SplitOn(s, ' ')[1..] == SplitOn(s[i+1..], ' ');
      assert s == s[..i] + " " + s[i+1..];
    }
  }

  lemma WordsAreSpelled(ws: seq<string>)
    requires ReadWords(ws).Some?
    ensures ws == WordsOf(ReadWords(ws).value)
  {
    hide ReadPositive, UnderMillion;
    NothingRead();
    if ws == [] || ws == ["zero"] {
    } else if ws[0] == "minus" {
      PositiveIsSpelled(ws[1..]);
      assert ws == ["minus"] + ws[1..];
    } else {
      PositiveIsSpelled(ws);
    }
  }

  /** A string spells a number exactly when it is what is spoken for that number: every integer has one
      spoken form, of number names put together as in English. */
  lemma SpokenNumbersDecode(s: string, n: int)
    ensures ReadNumber(s) == Some(n) <==> s == NumberToWords(n)
  {
    hide NumberToWords, WordsOf, ReadWords, Join;
    SpokenWords(n);
    WordsRead(n);
    SplitJoin(WordsOf(n));
    if ReadNumber(s) == Some(n) {
      WordsAreSpelled(SplitOn(s, ' '));
      JoinSplit(s);
    }
  }

  /** So no two integers sound the same. */
  lemma SpokenNumbersDiffer(m: int, n: int)
    requires m != n
    ensures NumberToWords(m) != NumberToWords(n)
  {
    SpokenNumbersDecode(NumberToWords(m), m);
    SpokenNumbersDecode(NumberToWords(m), n);
  }
}
