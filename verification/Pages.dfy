/**
 Page selections such as `5,1-3,8-`: segments in the order written, ranges
 clamped to the document, an index that comes up again kept where it was first.
 */
module Pages {
  import opened Common
  import opened Text

  datatype PageError =
    | EmptyDocument
    | EmptySegment
    | NotPositive(text: string)
    | PageZero
    | Backwards(start: nat, end: nat)
    | PastEnd(start: nat)

  /** A segment, 1-based and inclusive, clamped to the document. */
  datatype Segment = Segment(start: nat, end: nat)

  function Number(text: string): (r: Result<nat, PageError>)
    ensures r.Ok? ==> r.value >= 1
  {
    match ReadInt(Trim(text))
    case None => Err(NotPositive(Trim(text)))
    case Some(v) => if v < 0 then Err(NotPositive(Trim(text))) else if v == 0 then Err(PageZero) else Ok(v)
  }

  function Checked(start: nat, end: nat, total: nat): (r: Result<Segment, PageError>)
    ensures r.Ok? <==> start <= end && start <= total
  {
    if start > end then Err(Backwards(start, end))
    else if start > total then Err(PastEnd(start))
    else Ok(Segment(start, Min(end, total)))
  }

  /** `N`, `A-B` or `A-`. */
  function ParseSegment(segment: string, total: nat): (r: Result<Segment, PageError>)
    ensures r.Ok? ==> 1 <= r.value.start <= r.value.end <= total
  {
    var dash := Find(segment, '-');
    if dash == |segment| then
      match Number(segment) case Ok(n) => Checked(n, n, total) case Err(e) => Err(e)
    else
      var head, tail := segment[..dash], segment[dash + 1..];
      match Number(head)
      case Err(e) => Err(e)
      case Ok(start) =>
        if Trim(tail) == "" then Checked(start, total, total)
        else match Number(tail) case Ok(end) => Checked(start, end, total) case Err(e) => Err(e)
  }

  /** The 0-based indices from `lo` up to but not including `hi`. */
  function Range(lo: nat, hi: nat): seq<nat> {
    if lo >= hi then [] else Range(lo, hi - 1) + [hi - 1]
  }

  lemma {:induction false} RangeAt(lo: nat, hi: nat)
    requires lo <= hi
    ensures |Range(lo, hi)| == hi - lo
    ensures forall i :: 0 <= i < hi - lo ==> Range(lo, hi)[i] == lo + i
    decreases hi
  {
    if lo != hi {
      RangeAt(lo, hi - 1);
    }
  }

  function Indices(s: Segment): seq<nat> {
    if s.start == 0 then [] else Range(s.start - 1, s.end)
  }

  function ParseTrimmed(segment: string, total: nat): (r: Result<Segment, PageError>)
    ensures r.Ok? ==> 1 <= r.value.start <= r.value.end <= total
  {
    if Trim(segment) == "" then Err(EmptySegment) else ParseSegment(Trim(segment), total)
  }

  function Results(segments: seq<string>, total: nat): seq<Result<Segment, PageError>> {
    seq(|segments|, i requires 0 <= i < |segments| => ParseTrimmed(segments[i], total))
  }

  /** What the segments select, one after another, or the first error. */
  function Selected(results: seq<Result<Segment, PageError>>): Result<seq<nat>, PageError> {
    if results == [] then Ok([])
    else
      match Selected(results[..|results| - 1])
      case Err(e) => Err(e)
      case Ok(before) => Appended(before, results[|results| - 1])
  }

  function Appended(before: seq<nat>, r: Result<Segment, PageError>): Result<seq<nat>, PageError> {
    match r case Ok(s) => Ok(before + Indices(s)) case Err(e) => Err(e)
  }

  /** Every element once, where it first was. */
  function FirstOccurrences(s: seq<nat>): seq<nat> {
    if s == [] then []
    else
      var front, last := FirstOccurrences(s[..|s| - 1]), s[|s| - 1];
      if last in front then front else front + [last]
  }

  function Parse(spec: Option<string>, total: nat): Result<seq<nat>, PageError> {
    var cleaned := if spec.Some? then Trim(spec.value) else "";
    if cleaned == "" then Ok(Range(0, total))
    else if total == 0 then Err(EmptyDocument)
    else match Selected(Results(Split(cleaned, ','), total)) case Ok(s) => Ok(FirstOccurrences(s)) case Err(e) => Err(e)
  }

  // What a selection is

  predicate Distinct(s: seq<nat>) {
    forall i, j :: 0 <= i < j < |s| ==> s[i] != s[j]
  }

  predicate InRange(s: seq<nat>, total: nat) {
    forall i :: i in s ==> i < total
  }

  /** Where `x` first is in `s`. */
  function FirstAt(s: seq<nat>, x: nat): (i: nat)
    requires x in s
    ensures i < |s| && s[i] == x && x !in s[..i]
  {
    if s[|s| - 1] == x && x !in s[..|s| - 1] then |s| - 1
    else
      assert s == s[..|s| - 1] + [s[|s| - 1]];
      var i := FirstAt(s[..|s| - 1], x);
      assert s[..|s| - 1][..i] == s[..i];
      i
  }

  /** The first occurrences are the elements of `s`, each once, in the order in
      which they first come up. */
  lemma {:induction false} FirstOccurrencesLaws(s: seq<nat>)
    ensures Distinct(FirstOccurrences(s))
    ensures forall x :: x in FirstOccurrences(s) <==> x in s
    ensures var d := FirstOccurrences(s);
            forall i, j :: 0 <= i < j < |d| ==> FirstAt(s, d[i]) < FirstAt(s, d[j])
  {
    if s != [] {
      var front, last := s[..|s| - 1], s[|s| - 1];
      assert s == front + [last];
      FirstOccurrencesLaws(front);
      var d := FirstOccurrences(s);
      assert forall x :: x in front ==> FirstAt(s, x) == FirstAt(front, x) < |front|;
      forall i, j | 0 <= i < j < |d| ensures FirstAt(s, d[i]) < FirstAt(s, d[j]) {
        assert d[i] in FirstOccurrences(front);
      }
    }
  }

  predicate Within(results: seq<Result<Segment, PageError>>, total: nat) {
    forall r :: r in results && r.Ok? ==> 1 <= r.value.start <= r.value.end <= total
  }

  lemma AppendedInRange(before: seq<nat>, s: Segment, total: nat)
    requires InRange(before, total) && 1 <= s.start <= s.end <= total
    ensures InRange(before + Indices(s), total)
  {
    RangeInRange(s.start - 1, s.end, total);
  }

  lemma {:induction false} SelectedInRange(results: seq<Result<Segment, PageError>>, total: nat)
    requires Selected(results).Ok? && Within(results, total)
    ensures InRange(Selected(results).value, total)
  {
    if results != [] {
      var front, last := results[..|results| - 1], results[|results| - 1];
      assert last in results && forall r :: r in front ==> r in results;
      SelectedInRange(front, total);
      AppendedInRange(Selected(front).value, last.value, total);
    }
  }

  lemma {:induction false} RangeInRange(lo: nat, hi: nat, total: nat)
    requires lo <= hi <= total
    ensures InRange(Range(lo, hi), total)
    decreases hi
  {
    if lo != hi {
      RangeInRange(lo, hi - 1, total);
    }
  }

  lemma ResultsWithin(segments: seq<string>, total: nat)
    ensures Within(Results(segments, total), total)
  {
  }

  /** A selection that is accepted has each page at most once, and only pages the
      document has. */
  lemma ParseLaws(spec: Option<string>, total: nat)
    requires Parse(spec, total).Ok?
    ensures Distinct(Parse(spec, total).value) && InRange(Parse(spec, total).value, total)
  {
    var cleaned := if spec.Some? then Trim(spec.value) else "";
    if cleaned == "" {
      RangeAt(0, total);
    } else {
      var results := Results(Split(cleaned, ','), total);
      ResultsWithin(Split(cleaned, ','), total);
      SelectedInRange(results, total);
      FirstOccurrencesLaws(Selected(results).value);
    }
  }

  // Writing a selection and reading it back

  /** `p` is a number of a page, written out: it reads as `n`, and neither a comma,
      a dash nor a blank at either end can be taken for part of the grammar. */
  predicate PageNumber(p: string, n: nat) {
    Shown(p) && '-' !in p && Trim(p) == p && ReadInt(p) == Some(n as int) && n >= 1
  }

  predicate Shown(p: string) {
    p != "" && ',' !in p && !IsSpace(p[0]) && !IsSpace(p[|p| - 1])
  }

  lemma NumeralIsPageNumber(p: string, n: nat)
    requires Numeral(p, n) && n >= 1
    ensures PageNumber(p, n)
  {
    NumeralReads(p, n);
  }

  lemma ReadNumber(p: string, n: nat)
    requires PageNumber(p, n)
    ensures Number(p) == Ok(n)
  {
  }

  /** The three forms of a segment, for any numbers. */
  lemma SegmentForms(head: string, a: nat, tail: string, b: nat, total: nat)
    requires PageNumber(head, a) && PageNumber(tail, b)
    ensures ParseSegment(head, total) == Checked(a, a, total)
    ensures ParseSegment(head + "-" + tail, total) == Checked(a, b, total)
    ensures ParseSegment(head + "-" + "", total) == Checked(a, total, total)
  {
    ReadNumber(head, a);
    ReadNumber(tail, b);
    FindNone(head, '-');
    FindAfter(head, '-', tail);
    FindAfter(head, '-', "");
  }

  /** Which refusal each form gets, with the two numbers it names: only the closed
      form can get either, running backwards before starting past the end; the
      single page can only be past the end, and the open form, which ends at the last
      page, can only run backwards. What is not refused is clamped to the document. */
  lemma RefusedIff(head: string, a: nat, tail: string, b: nat, total: nat)
    requires PageNumber(head, a) && PageNumber(tail, b)
    ensures ParseSegment(head, total) == Err(PastEnd(a)) <==> a > total
    ensures ParseSegment(head, total) == Ok(Segment(a, a)) <==> a <= total
    ensures var closed := ParseSegment(head + "-" + tail, total);
            && (closed == Err(Backwards(a, b)) <==> b < a)
            && (closed == Err(PastEnd(a)) <==> total < a <= b)
            && (closed == Ok(Segment(a, Min(b, total))) <==> a <= b && a <= total)
    ensures var open := ParseSegment(head + "-" + "", total);
            && (open == Err(Backwards(a, total)) <==> a > total)
            && (open == Ok(Segment(a, total)) <==> a <= total)
  {
    SegmentForms(head, a, tail, b, total);
  }

  /** The segment that is one page, the index `n`. */
  function Single(n: nat): Segment {
    Segment(n + 1, n + 1)
  }

  lemma OnePage(p: string, n: nat, total: nat)
    requires n < total && PageNumber(p, n + 1)
    ensures ParseTrimmed(p, total) == Ok(Single(n))
  {
    ReadNumber(p, n + 1);
    FindNone(p, '-');
  }

  predicate Singles(results: seq<Result<Segment, PageError>>, indices: seq<nat>) {
    |results| == |indices| && forall i :: 0 <= i < |results| ==> results[i] == Ok(Single(indices[i]))
  }

  lemma SelectOne(before: seq<nat>, n: nat)
    ensures Appended(before, Ok(Single(n))) == Ok(before + [n])
  {
    assert Range(n, n) == [];
    assert Indices(Single(n)) == Range(n, n + 1) == [n];
  }

  lemma {:induction false} SinglesSelect(results: seq<Result<Segment, PageError>>, indices: seq<nat>)
    requires Singles(results, indices)
    ensures Selected(results) == Ok(indices)
    decreases |results|
  {
    if results != [] {
      var front, last := indices[..|indices| - 1], indices[|indices| - 1];
      SinglesSelect(results[..|results| - 1], front);
      SelectOne(front, last);
      assert front + [last] == indices;
    }
  }

  /** The parts are the indices as page numbers, one for one. */
  predicate Names(parts: seq<string>, indices: seq<nat>) {
    |parts| == |indices| && forall i :: 0 <= i < |parts| ==> PageNumber(parts[i], indices[i] + 1)
  }

  lemma NamesSelect(parts: seq<string>, indices: seq<nat>, total: nat)
    requires Names(parts, indices) && InRange(indices, total)
    ensures Selected(Results(parts, total)) == Ok(indices)
  {
    forall i | 0 <= i < |parts| ensures Results(parts, total)[i] == Ok(Single(indices[i])) {
      assert indices[i] in indices;
      OnePage(parts[i], indices[i], total);
    }
    SinglesSelect(Results(parts, total), indices);
  }

  lemma NamesShown(parts: seq<string>, indices: seq<nat>)
    requires Names(parts, indices)
    ensures forall p :: p in parts ==> Shown(p)
  {
    forall p | p in parts ensures Shown(p) {
      var i :| 0 <= i < |parts| && parts[i] == p;
      assert PageNumber(parts[i], indices[i] + 1);
    }
  }

  lemma {:induction false} JoinEnds(parts: seq<string>)
    requires parts != [] && forall p :: p in parts ==> Shown(p)
    ensures var s := Join(parts, ','); s != "" && !IsSpace(s[0]) && !IsSpace(s[|s| - 1])
    decreases |parts|
  {
    assert parts[0] in parts;
    if |parts| > 1 {
      JoinEnds(parts[1..]);
    }
  }

  lemma {:induction false} DistinctStays(s: seq<nat>)
    requires Distinct(s)
    ensures FirstOccurrences(s) == s
  {
    if s != [] {
      DistinctStays(s[..|s| - 1]);
      assert s == s[..|s| - 1] + [s[|s| - 1]];
    }
  }

  lemma NamesJoined(text: string, parts: seq<string>, indices: seq<nat>)
    requires parts != [] && Names(parts, indices) && text == Join(parts, ',')
    ensures text != "" && Trim(text) == text && Split(text, ',') == parts
  {
    NamesShown(parts, indices);
    JoinEnds(parts);
    SplitJoin(parts, ',');
  }

  /** A list of pages without repeats, written as page numbers and read back, is
      that list in that order: whatever its numbers' leading zeros or signs. */
  lemma RoundTrip(parts: seq<string>, indices: seq<nat>, total: nat)
    requires indices != [] && Distinct(indices) && InRange(indices, total) && Names(parts, indices)
    ensures Parse(Some(Join(parts, ',')), total) == Ok(indices)
  {
    NamesSelect(parts, indices, total);
    NamesJoined(Join(parts, ','), parts, indices);
    DistinctStays(indices);
    assert indices[0] in indices;
  }

  function Printed(indices: seq<nat>): seq<string> {
    seq(|indices|, i requires 0 <= i < |indices| => Print(indices[i] + 1))
  }

  lemma PrintIsPageNumber(n: nat)
    requires n >= 1
    ensures PageNumber(Print(n), n)
  {
    PrintIsNumeral(n);
    NumeralIsPageNumber(Print(n), n);
  }

  lemma {:induction false} PrintedNames(indices: seq<nat>)
    ensures Names(Printed(indices), indices)
  {
    forall i | 0 <= i < |indices| ensures PageNumber(Printed(indices)[i], indices[i] + 1) {
      PrintIsPageNumber(indices[i] + 1);
    }
  }

  /** Every such list can be written. */
  lemma PrintedRoundTrip(indices: seq<nat>, total: nat)
    requires indices != [] && Distinct(indices) && InRange(indices, total)
    ensures Printed(indices) != [] && Parse(Some(Join(Printed(indices), ',')), total) == Ok(indices)
  {
    PrintedNames(indices);
    RoundTrip(Printed(indices), indices, total);
  }

  // The parser

  /** The indices that are set, and no others, are those already put out. */
  ghost predicate Marks(seen: array<bool>, out: seq<nat>)
    reads seen
  {
    forall i :: 0 <= i < seen.Length ==> (seen[i] <==> i in out)
  }

  lemma FirstOccurrencesSnoc(s: seq<nat>, x: nat)
    ensures FirstOccurrences(s + [x]) == if x in FirstOccurrences(s) then FirstOccurrences(s) else FirstOccurrences(s) + [x]
  {
    assert (s + [x])[..|s|] == s;
  }

  function Stretch(selected: seq<nat>, lo: nat, hi: nat): seq<nat>
    decreases hi
  {
    if lo >= hi then selected else Stretch(selected, lo, hi - 1) + [hi - 1]
  }

  lemma {:induction false} StretchIs(selected: seq<nat>, lo: nat, hi: nat)
    ensures Stretch(selected, lo, hi) == selected + Range(lo, hi)
    decreases hi
  {
    if lo < hi {
      StretchIs(selected, lo, hi - 1);
    }
  }

  lemma StretchSnoc(selected: seq<nat>, lo: nat, hi: nat)
    requires lo <= hi
    ensures Stretch(selected, lo, hi + 1) == Stretch(selected, lo, hi) + [hi]
  {
  }

  /** Puts out one index, if it was not seen before. */
  method EmitIndex(index: nat, seen: array<bool>, out: seq<nat>, ghost selected: seq<nat>) returns (out': seq<nat>)
    requires index < seen.Length && out == FirstOccurrences(selected) && Marks(seen, out)
    modifies seen
    ensures out' == FirstOccurrences(selected + [index]) && Marks(seen, out')
  {
    FirstOccurrencesSnoc(selected, index);
    out' := out;
    if !seen[index] {
      seen[index] := true;
      out' := out' + [index];
    }
  }

  /** Puts out the indices of one segment that were not seen before. */
  method Emit(s: Segment, seen: array<bool>, out: seq<nat>, ghost selected: seq<nat>) returns (out': seq<nat>)
    requires 1 <= s.start <= s.end <= seen.Length
    requires out == FirstOccurrences(selected) && Marks(seen, out)
    modifies seen
    ensures out' == FirstOccurrences(selected + Indices(s)) && Marks(seen, out')
  {
    out' := out;
    var index := s.start - 1;
    ghost var sofar := selected;
    assert Stretch(selected, s.start - 1, index) == selected;
    while index < s.end
      invariant s.start - 1 <= index <= s.end && sofar == Stretch(selected, s.start - 1, index)
      invariant out' == FirstOccurrences(sofar) && Marks(seen, out')
    {
      out' := EmitIndex(index, seen, out', sofar);
      StretchSnoc(selected, s.start - 1, index);
      sofar := sofar + [index];
      index := index + 1;
    }
    StretchIs(selected, s.start - 1, s.end);
  }

  method ParseIndexRange(spec: Option<string>, total: nat) returns (r: Result<seq<nat>, PageError>)
    ensures r == Parse(spec, total)
  {
    var cleaned := if spec.Some? then Trim(spec.value) else "";
    if cleaned == "" {
      return Ok(Range(0, total));
    }
    if total == 0 {
      return Err(EmptyDocument);
    }
    var out: seq<nat> := [];
    var seen := new bool[total](_ => false);
    var segments := Split(cleaned, ',');
    ghost var results := Results(segments, total);
    ghost var selected: seq<nat> := [];
    var i := 0;
    while i < |segments|
      invariant i <= |segments| && Selected(results[..i]) == Ok(selected)
      invariant out == FirstOccurrences(selected) && Marks(seen, out)
    {
      var segment := Trim(segments[i]);
      SelectedPrefix(results, i);
      if segment == "" {
        return Err(EmptySegment);
      }
      var parsed := ParseSegment(segment, total);
      if parsed.Err? {
        return Err(parsed.error);
      }
      out := Emit(parsed.value, seen, out, selected);
      selected := selected + Indices(parsed.value);
      i := i + 1;
    }
    assert results[..i] == results;
    r := Ok(out);
  }

  /** The next segment decides, and an error in it is the error of them all. */
  lemma SelectedPrefix(results: seq<Result<Segment, PageError>>, i: nat)
    requires i < |results| && Selected(results[..i]).Ok?
    ensures var next := Appended(Selected(results[..i]).value, results[i]);
            && Selected(results[..i + 1]) == next
            && (next.Err? ==> Selected(results) == next)
  {
    assert results[..i + 1][..i] == results[..i];
    if Selected(results[..i + 1]).Err? {
      ErrorStays(results, i + 1);
    }
  }

  lemma {:induction false} ErrorStays(results: seq<Result<Segment, PageError>>, i: nat)
    requires i <= |results| && Selected(results[..i]).Err?
    ensures Selected(results) == Selected(results[..i])
    decreases |results|
  {
    if i == |results| {
      assert results[..i] == results;
    } else {
      var front := results[..|results| - 1];
      assert front[..i] == results[..i];
      ErrorStays(front, i);
    }
  }

  /** No selection, or a blank one, is every page of the document in order; and any
      other is refused for a document without pages. */
  lemma NoSelection(spec: Option<string>, total: nat)
    ensures var blank := spec.None? || Blank(spec.value);
            && (blank ==> Parse(spec, total) == Ok(seq(total, i => i)))
            && (!blank && total == 0 ==> Parse(spec, total) == Err(EmptyDocument))
  {
    RangeAt(0, total);
    assert Range(0, total) == seq(total, i => i);
    if spec.Some? {
      TrimBlank(spec.value);
    }
  }

  lemma {:induction false} TrimBlank(s: string)
    ensures Trim(s) == "" <==> Blank(s)
  {
    BlankLeft(s);
    BlankRight(TrimLeft(s));
    if TrimLeft(s) != "" {
      assert TrimLeft(s)[0] in TrimLeft(s);
    }
  }

  lemma {:induction false} BlankLeft(s: string)
    ensures TrimLeft(s) == "" <==> Blank(s)
    ensures TrimLeft(s) != "" ==> !IsSpace(TrimLeft(s)[0])
    decreases |s|
  {
    if s != "" {
      assert s == [s[0]] + s[1..];
      if IsSpace(s[0]) {
        BlankLeft(s[1..]);
      } else {
        assert s[0] in s;
      }
    }
  }

  lemma {:induction false} BlankRight(s: string)
    ensures TrimRight(s) == "" <==> Blank(s)
    decreases |s|
  {
    if s != "" {
      assert s == s[..|s| - 1] + [s[|s| - 1]];
      if IsSpace(s[|s| - 1]) {
        BlankRight(s[..|s| - 1]);
      } else {
        assert s[|s| - 1] in s;
      }
    }
  }

  /** A blank segment is refused, and blanks around any other make no difference. */
  lemma BlankSegment(before: string, segment: string, after: string, total: nat)
    requires Blank(before) && Blank(after) && Trimmed(segment)
    ensures ParseTrimmed(before + segment + after, total) == if segment == "" then Err(EmptySegment) else ParseSegment(segment, total)
  {
    TrimIs(before, segment, after);
  }

  /** What stands for a page and is none: zero, and, named as they are written, a
      number below zero and what is no number. */
  lemma NoPage(zero: string, s: string, n: nat, head: string, a: nat, word: string, total: nat)
    requires Numeral(zero, 0) && Numeral(s, n) && n >= 1 && PageNumber(head, a)
    requires Trimmed(word) && '-' !in word && !Written(word) && (word != "" ==> word[0] != '+')
    ensures ParseSegment(zero, total) == Err(PageZero)
    ensures ParseSegment(head + "-" + zero, total) == Err(PageZero)
    ensures ParseSegment(head + "-" + ("-" + s), total) == Err(NotPositive("-" + s))
    ensures ParseSegment(word, total) == Err(NotPositive(word))
  {
    ZeroIsNoPage(zero);
    BelowZeroIsNoPage(s, n);
    NoNumberIsNoPage(word);
    ReadNumber(head, a);
    NumeralReads(zero, 0);
    FindNone(zero, '-');
    FindNone(word, '-');
    FindAfter(head, '-', zero);
    FindAfter(head, '-', "-" + s);
  }

  lemma ZeroIsNoPage(zero: string)
    requires Numeral(zero, 0)
    ensures Number(zero) == Err(PageZero) && Trim(zero) != ""
  {
    NumeralReads(zero, 0);
  }

  lemma BelowZeroIsNoPage(s: string, n: nat)
    requires Numeral(s, n) && n >= 1
    ensures Number("-" + s) == Err(NotPositive("-" + s)) && Trim("-" + s) != ""
  {
    NumeralReads(s, n);
    SignedReads(s, n);
    TrimIs("", "-" + s, "");
    assert "" + ("-" + s) + "" == "-" + s;
  }

  lemma NoNumberIsNoPage(word: string)
    requires Trimmed(word) && '-' !in word && !Written(word) && (word != "" ==> word[0] != '+')
    ensures Number(word) == Err(NotPositive(word))
  {
    ReadsIff(word);
    TrimIs("", word, "");
    assert "" + word + "" == word;
  }

  /** The first segment that is refused is what the selection is refused for. */
  lemma {:induction false} FirstErrorIs(results: seq<Result<Segment, PageError>>)
    ensures match Selected(results)
            case Ok(_) => forall i :: 0 <= i < |results| ==> results[i].Ok?
            case Err(e) => exists i :: 0 <= i < |results| && results[i] == Err(e) && forall j :: 0 <= j < i ==> results[j].Ok?
  {
    if results != [] {
      var front := results[..|results| - 1];
      FirstErrorIs(front);
      match Selected(front)
      case Err(e) =>
        var i :| 0 <= i < |front| && front[i] == Err(e) && forall j :: 0 <= j < i ==> front[j].Ok?;
        assert results[i] == Err(e) && forall j :: 0 <= j < i ==> results[j] == front[j];
      case Ok(_) =>
        assert forall j :: 0 <= j < |front| ==> results[j] == front[j];
    }
  }
}
