/** Finding, splitting, trimming and reading numbers in text. */
module Text {
  import opened Common

  /** The first place of `c` in `s`, or its length. */
  function Find(s: string, c: char): (i: nat)
    ensures i <= |s| && (i < |s| ==> s[i] == c)
  {
    if s == "" || s[0] == c then 0 else 1 + Find(s[1..], c)
  }

  lemma {:induction false} FindFirst(s: string, c: char)
    ensures forall j :: 0 <= j < Find(s, c) ==> s[j] != c
  {
    if s != "" && s[0] != c {
      FindFirst(s[1..], c);
      assert forall j :: 0 < j < Find(s, c) ==> s[j] == s[1..][j - 1];
    }
  }

  predicate IsSpace(c: char) {
    c == ' ' || '\t' <= c <= '\r' || '\U{1C}' <= c <= '\U{1F}'
  }

  function TrimLeft(s: string): string {
    if s != "" && IsSpace(s[0]) then TrimLeft(s[1..]) else s
  }

  function TrimRight(s: string): string {
    if s != "" && IsSpace(s[|s| - 1]) then TrimRight(s[..|s| - 1]) else s
  }

  function Trim(s: string): string {
    TrimRight(TrimLeft(s))
  }

  /** The blanks of ASCII, one by one. */
  lemma SpacesAre(c: char)
    ensures IsSpace(c) <==>
            c in [' ', '\t', '\n', '\U{0B}', '\U{0C}', '\r', '\U{1C}', '\U{1D}', '\U{1E}', '\U{1F}']
  {
  }

  ghost predicate Blank(s: string) {
    forall c :: c in s ==> IsSpace(c)
  }

  /** Nothing at either end of `s` can be trimmed. */
  predicate Trimmed(s: string) {
    s != "" ==> !IsSpace(s[0]) && !IsSpace(s[|s| - 1])
  }

  lemma {:induction false} TrimLeftIs(blank: string, s: string)
    requires Blank(blank) && (s != "" ==> !IsSpace(s[0]))
    ensures TrimLeft(blank + s) == s
    decreases |blank|
  {
    if blank == "" {
      assert blank + s == s;
    } else {
      assert blank[0] in blank && (blank + s)[0] == blank[0] && (blank + s)[1..] == blank[1..] + s;
      TrimLeftIs(blank[1..], s);
    }
  }

  lemma {:induction false} TrimRightIs(s: string, blank: string)
    requires Blank(blank) && (s != "" ==> !IsSpace(s[|s| - 1]))
    ensures TrimRight(s + blank) == s
    decreases |blank|
  {
    if blank == "" {
      assert s + blank == s;
    } else {
      var last := |blank| - 1;
      assert blank[last] in blank && (s + blank)[|s + blank| - 1] == blank[last] && (s + blank)[..|s + blank| - 1] == s + blank[..last];
      TrimRightIs(s, blank[..last]);
    }
  }

  /** Trimming takes the blanks off both ends and nothing else. */
  lemma TrimIs(before: string, s: string, after: string)
    requires Blank(before) && Blank(after) && Trimmed(s)
    ensures Trim(before + s + after) == s
  {
    if s == "" {
      assert Blank(before + after) && before + s + after == (before + after) + "";
      TrimLeftIs(before + after, "");
    } else {
      assert before + s + after == before + (s + after);
      TrimLeftIs(before, s + after);
      TrimRightIs(s, after);
    }
  }

  /** The parts of `s` between the occurrences of `c`. */
  function Split(s: string, c: char): (parts: seq<string>)
    ensures parts != []
    decreases |s|
  {
    var i := Find(s, c);
    if i == |s| then [s] else [s[..i]] + Split(s[i + 1..], c)
  }

  function Join(parts: seq<string>, c: char): string
    requires parts != []
  {
    if |parts| == 1 then parts[0] else parts[0] + [c] + Join(parts[1..], c)
  }

  /** A text cut at the first `c`. */
  lemma {:induction false} FindAfter(head: string, c: char, tail: string)
    requires c !in head
    ensures var s := head + [c] + tail; Find(s, c) == |head| && s[..|head|] == head && s[|head| + 1..] == tail
    decreases |head|
  {
    var s := head + [c] + tail;
    if head != "" {
      FindAfter(head[1..], c, tail);
      assert s[1..] == head[1..] + [c] + tail;
    }
  }

  lemma {:induction false} FindNone(s: string, c: char)
    requires c !in s
    ensures Find(s, c) == |s|
  {
    if s != "" {
      FindNone(s[1..], c);
    }
  }

  lemma SplitFirst(head: string, c: char, tail: string)
    requires c !in head
    ensures Split(head + [c] + tail, c) == [head] + Split(tail, c)
    ensures Split(head, c) == [head]
  {
    FindAfter(head, c, tail);
    FindNone(head, c);
  }

  lemma {:induction false} SplitJoin(parts: seq<string>, c: char)
    requires parts != [] && forall p :: p in parts ==> c !in p
    ensures Split(Join(parts, c), c) == parts
    decreases |parts|
  {
    assert parts[0] in parts;
    if |parts| == 1 {
      SplitFirst(parts[0], c, "");
      assert parts == [parts[0]];
    } else {
      SplitJoin(parts[1..], c);
      SplitFirst(parts[0], c, Join(parts[1..], c));
      assert parts == [parts[0]] + parts[1..];
    }
  }

  // Decimal numbers, as `int` reads them

  predicate IsDigit(c: char) {
    '0' <= c <= '9'
  }

  function DigitValue(c: char): nat
    requires IsDigit(c)
  {
    c as int - '0' as int
  }

  /** Digits, with single underscores between them. */
  function ReadDigits(s: string): Option<nat> {
    if s == "" || !IsDigit(s[|s| - 1]) then None
    else
      var front, d := s[..|s| - 1], DigitValue(s[|s| - 1]);
      if front == "" then Some(d)
      else
        var before := if front[|front| - 1] == '_' then front[..|front| - 1] else front;
        match ReadDigits(before) case Some(n) => Some(10 * n + d) case None => None
  }

  function ReadInt(s: string): Option<int> {
    if s != "" && s[0] == '-' then
      match ReadDigits(s[1..]) case Some(n) => var v: int := n; Some(-v) case None => None
    else
      match ReadDigits(if s != "" && s[0] == '+' then s[1..] else s) case Some(n) => Some(n as int) case None => None
  }

  const DIGITS := "0123456789"

  /** Digits, of which two may have an underscore between them. */
  predicate Written(s: string) {
    && s != "" && s[0] in DIGITS && s[|s| - 1] in DIGITS
    && forall i :: 0 <= i < |s| && s[i] !in DIGITS ==> s[i] == '_' && 0 < i && s[i - 1] in DIGITS
  }

  lemma DigitsAre(c: char)
    ensures IsDigit(c) <==> c in DIGITS
  {
  }

  /** A text reads as a number exactly when it is written as one. */
  lemma {:induction false} ReadsIff(s: string)
    ensures ReadDigits(s).Some? <==> Written(s)
    decreases |s|
  {
    if s != "" {
      DigitsAre(s[|s| - 1]);
    }
    if |s| > 1 && IsDigit(s[|s| - 1]) {
      var front := s[..|s| - 1];
      var before := if front[|front| - 1] == '_' then front[..|front| - 1] else front;
      ReadsIff(before);
      WrittenSnoc(before, s);
    }
  }

  lemma WrittenSnoc(before: string, s: string)
    requires s != "" && s[|s| - 1] in DIGITS && before != s
    requires s[..|s| - 1] == before + "_" || (s[..|s| - 1] == before && before != "" && before[|before| - 1] != '_')
    ensures Written(s) <==> Written(before)
  {
    assert forall i :: 0 <= i < |before| ==> s[i] == before[i];
    if s[..|s| - 1] == before + "_" {
      assert s[|s| - 2] == '_' && '_' !in DIGITS;
    }
  }

  /** `s` is the number `n` in decimal, with or without leading zeros. */
  predicate Numeral(s: string, n: nat) {
    s != "" && (forall c :: c in s ==> IsDigit(c)) && ReadDigits(s) == Some(n)
  }

  /** A numeral has nothing in it but digits, and reads as its number. */
  lemma NumeralReads(s: string, n: nat)
    requires Numeral(s, n)
    ensures ReadInt(s) == Some(n as int) && Trim(s) == s
    ensures ',' !in s && '-' !in s && !IsSpace(s[0]) && !IsSpace(s[|s| - 1])
  {
    assert s[0] in s && s[|s| - 1] in s;
  }

  /** With a sign, it reads as its number or as what is that much below zero. */
  lemma SignedReads(s: string, n: nat)
    requires Numeral(s, n)
    ensures ReadInt("+" + s) == Some(n as int) && ReadInt("-" + s) == Some(0 - n)
  {
    assert ("+" + s)[1..] == s && ("-" + s)[1..] == s;
  }

  /** `s` is `before` and a digit, with or without an underscore between them. */
  predicate OneMore(s: string, before: string, c: char) {
    IsDigit(c) && (s == before + [c] || s == before + "_" + [c])
  }

  lemma OneMoreReads(s: string, before: string, c: char, n: nat)
    requires ReadDigits(before) == Some(n) && OneMore(s, before, c)
    ensures ReadDigits(s) == Some(10 * n + DigitValue(c))
  {
    var front := if s == before + [c] then before else before + "_";
    assert s[..|s| - 1] == front && s[|s| - 1] == c;
    if front != before {
      assert front[|front| - 1] == '_' && front[..|front| - 1] == before;
    }
  }

  lemma LastRead(s: string) returns (before: string, c: char, n: nat)
    requires |s| > 1 && ReadDigits(s).Some?
    ensures |before| < |s| && ReadDigits(before) == Some(n) && OneMore(s, before, c)
    ensures ReadDigits(s) == Some(10 * n + DigitValue(c))
  {
    var front := s[..|s| - 1];
    before, c := if front[|front| - 1] == '_' then front[..|front| - 1] else front, s[|s| - 1];
    n := ReadDigits(before).value;
    assert s == front + [c];
  }

  lemma OneMoreAfter(a: string, s: string, before: string, c: char)
    requires OneMore(s, before, c)
    ensures OneMore(a + s, a + before, c)
  {
    if s == before + [c] {
      assert a + s == (a + before) + [c];
    } else {
      assert a + s == (a + before) + "_" + [c];
    }
  }

  lemma FirstReads(a: string, marked: string, c: char, n: nat)
    requires marked == a + "_" && ReadDigits(a) == Some(n) && IsDigit(c)
    ensures ReadDigits(a + [c]) == Some(10 * n + DigitValue(c))
    ensures ReadDigits(marked + [c]) == Some(10 * n + DigitValue(c))
  {
    OneMoreReads(a + [c], a, c, n);
    OneMoreReads(marked + [c], a, c, n);
  }

  /** An underscore between two numerals is passed over. */
  lemma {:induction false} UnderscoreReads(a: string, marked: string, b: string) returns (n: nat)
    requires marked == a + "_" && ReadDigits(a).Some? && ReadDigits(b).Some?
    ensures ReadDigits(a + b) == Some(n)
    ensures ReadDigits(marked + b) == Some(n)
    decreases |b|
  {
    if |b| == 1 {
      assert b == [b[0]];
      n := 10 * ReadDigits(a).value + DigitValue(b[0]);
      FirstReads(a, marked, b[0], ReadDigits(a).value);
    } else {
      var before, c, _ := LastRead(b);
      var m := UnderscoreReads(a, marked, before);
      n := 10 * m + DigitValue(c);
      OneMoreAfter(a, b, before, c);
      OneMoreReads(a + b, a + before, c, m);
      OneMoreAfter(marked, b, before, c);
      OneMoreReads(marked + b, marked + before, c, m);
    }
  }

  /** And so is a zero before one. */
  lemma {:induction false} LeadingZero(zero: string, s: string, n: nat)
    requires zero == "0" && ReadDigits(s) == Some(n)
    ensures ReadDigits(zero + s) == Some(n)
    decreases |s|
  {
    if |s| == 1 {
      assert s == [s[0]] && zero[..0] == "";
      OneMoreReads(zero + s, zero, s[0], 0);
    } else {
      var before, c, m := LastRead(s);
      LeadingZero(zero, before, m);
      OneMoreAfter(zero, s, before, c);
      OneMoreReads(zero + s, zero + before, c, m);
    }
  }

  function Digit(d: nat): char
    requires d < 10
  {
    ('0' as int + d) as char
  }

  function Print(n: nat): string {
    if n < 10 then [Digit(n)] else Print(n / 10) + [Digit(n % 10)]
  }

  lemma {:induction false} PrintIsNumeral(n: nat)
    ensures Numeral(Print(n), n)
  {
    if n >= 10 {
      var front := Print(n / 10);
      PrintIsNumeral(n / 10);
      assert Print(n)[..|front|] == front;
      assert front[|front| - 1] in front;
    }
  }
}
