/**
 Location templates: text with `{name}` placeholders, read by a scan for braces
 and filled by replacing one placeholder after another in the whole text.
 */
module Charter {
  import opened Common
  import opened Text

  datatype CharterError =
    | Unmatched
    | Unclosed
    | NotAName(name: string)
    | NoLocation
    | DoesNotTake(key: string)
    | Needs(placeholder: string)

  predicate IsBrace(c: char) {
    c == '{' || c == '}'
  }

  predicate NoBrace(s: string) {
    forall c :: c in s ==> !IsBrace(c)
  }

  predicate IsName(s: string) {
    s != "" && forall c :: c in s ==> 'a' <= c <= 'z' || c == '_'
  }

  /** The letters of a name, one by one. */
  lemma NameIs(s: string)
    ensures IsName(s) <==> s != "" && forall i :: 0 <= i < |s| ==> s[i] in "abcdefghijklmnopqrstuvwxyz_"
  {
    assert forall i :: 0 <= i < |s| ==> s[i] in s;
  }

  // What a template means

  datatype Token = Lit(c: char) | Slot(name: string)

  function Tokens(text: string): Result<seq<Token>, CharterError>
    decreases |text|
  {
    if text == "" then Ok([])
    else if text[0] == '}' then Err(Unmatched)
    else if text[0] == '{' then
      var end := Find(text[1..], '}');
      if end == |text| - 1 then Err(Unclosed)
      else
        var name := text[1..][..end];
        if !IsName(name) then Err(NotAName(name)) else Before(Slot(name), Tokens(text[1..][end + 1..]))
    else Before(Lit(text[0]), Tokens(text[1..]))
  }

  function Before(t: Token, rest: Result<seq<Token>, CharterError>): Result<seq<Token>, CharterError> {
    match rest case Ok(ts) => Ok([t] + ts) case Err(e) => Err(e)
  }

  function Pattern(name: string): string {
    "{" + name + "}"
  }

  function RenderOne(t: Token): string {
    match t case Lit(c) => [c] case Slot(name) => Pattern(name)
  }

  function Render(ts: seq<Token>): string {
    if ts == [] then "" else RenderOne(ts[0]) + Render(ts[1..])
  }

  predicate WellFormed(ts: seq<Token>) {
    forall t :: t in ts ==> Plain(t)
  }

  predicate Plain(t: Token) {
    match t case Lit(c) => !IsBrace(c) case Slot(name) => IsName(name)
  }

  /** The template with every placeholder replaced at once. */
  function Fill(ts: seq<Token>, values: map<string, string>): string {
    if ts == [] then "" else FillOne(ts[0], values) + Fill(ts[1..], values)
  }

  function FillOne(t: Token, values: map<string, string>): string {
    if t.Slot? && t.name in values then values[t.name] else RenderOne(t)
  }

  /** The names of the slots of `ts` that are not in `out`, after `out`, in order
      of first use. */
  function Used(out: seq<string>, ts: seq<Token>): seq<string>
    decreases |ts|
  {
    if ts == [] then out
    else Used(WithName(out, ts[0]), ts[1..])
  }

  // Reading

  lemma RenderCons(t: Token, ts: seq<Token>)
    ensures Render([t] + ts) == RenderOne(t) + Render(ts)
    ensures Plain(t) && WellFormed(ts) ==> WellFormed([t] + ts)
  {
    assert ([t] + ts)[1..] == ts;
  }

  lemma SlotSplits(text: string, end: nat)
    requires text != "" && text[0] == '{' && end < |text| - 1 && text[1..][end] == '}'
    ensures text == Pattern(text[1..][..end]) + text[1..][end + 1..]
  {
  }

  /** The first closing brace after a placeholder's opening one is its own. */
  lemma NameEnds(name: string, rest: string)
    requires IsName(name)
    ensures Find(name + "}" + rest, '}') == |name|
  {
    FindAfter(name, '}', rest);
  }

  lemma SlotTokens(name: string, rest: string)
    requires IsName(name)
    ensures Tokens(Pattern(name) + rest) == Before(Slot(name), Tokens(rest))
  {
    var text := Pattern(name) + rest;
    NameEnds(name, rest);
    assert text[1..] == name + "}" + rest;
    assert text[1..][..|name|] == name;
    assert text[1..][|name| + 1..] == rest;
  }

  lemma LitTokens(c: char, rest: string)
    requires !IsBrace(c)
    ensures Tokens([c] + rest) == Before(Lit(c), Tokens(rest))
  {
    assert ([c] + rest)[1..] == rest;
  }

  lemma {:induction false} TokensRender(text: string)
    requires Tokens(text).Ok?
    ensures WellFormed(Tokens(text).value) && Render(Tokens(text).value) == text
    decreases |text|
  {
    if text != "" {
      if text[0] == '{' {
        var end := Find(text[1..], '}');
        var name, rest := text[1..][..end], text[1..][end + 1..];
        SlotSplits(text, end);
        TokensRender(rest);
        SlotTokens(name, rest);
        RenderCons(Slot(name), Tokens(rest).value);
      } else {
        TokensRender(text[1..]);
        RenderCons(Lit(text[0]), Tokens(text[1..]).value);
      }
    }
  }

  lemma OneTokenReads(t: Token, rest: string)
    requires Plain(t)
    ensures Tokens(RenderOne(t) + rest) == Before(t, Tokens(rest))
  {
    if t.Slot? {
      SlotTokens(t.name, rest);
    } else {
      LitTokens(t.c, rest);
    }
  }

  lemma {:induction false} RenderTokens(ts: seq<Token>)
    requires WellFormed(ts)
    ensures Tokens(Render(ts)) == Ok(ts)
    decreases |ts|
  {
    if ts != [] {
      assert WellFormed(ts[1..]);
      RenderTokens(ts[1..]);
      FirstTokenReads(ts);
    }
  }

  lemma FirstTokenReads(ts: seq<Token>)
    requires ts != [] && Plain(ts[0]) && Tokens(Render(ts[1..])) == Ok(ts[1..])
    ensures Tokens(Render(ts)) == Ok(ts)
  {
    OneTokenReads(ts[0], Render(ts[1..]));
    assert Render(ts) == RenderOne(ts[0]) + Render(ts[1..]);
    assert ts == [ts[0]] + ts[1..];
  }

  /** A template reads as exactly the tokens it is the text of. */
  lemma TokensIff(text: string, ts: seq<Token>)
    ensures Tokens(text) == Ok(ts) <==> WellFormed(ts) && Render(ts) == text
  {
    if Tokens(text) == Ok(ts) {
      TokensRender(text);
    }
    if WellFormed(ts) && Render(ts) == text {
      RenderTokens(ts);
    }
  }

  // Filling, one placeholder after another

  /** Every occurrence of `pattern`, from the left, replaced by `value`. */
  function Replace(s: string, pattern: string, value: string): string
    requires pattern != ""
    decreases |s|
  {
    if s == "" then ""
    else if pattern <= s then value + Replace(s[|pattern|..], pattern, value)
    else [s[0]] + Replace(s[1..], pattern, value)
  }

  function ReplaceEach(s: string, names: seq<string>, values: map<string, string>): string
    requires forall n :: n in names ==> n in values
  {
    if names == [] then s
    else
      var front := names[..|names| - 1];
      Replace(ReplaceEach(s, front, values), Pattern(names[|names| - 1]), values[names[|names| - 1]])
  }

  function Lits(s: string): seq<Token> {
    if s == "" then [] else [Lit(s[0])] + Lits(s[1..])
  }

  /** The tokens after one placeholder is filled. */
  function Subst(ts: seq<Token>, name: string, value: string): seq<Token> {
    if ts == [] then []
    else (if ts[0] == Slot(name) then Lits(value) else [ts[0]]) + Subst(ts[1..], name, value)
  }

  lemma {:induction false} RenderAppend(a: seq<Token>, b: seq<Token>)
    ensures Render(a + b) == Render(a) + Render(b)
    decreases |a|
  {
    if a == [] {
      assert a + b == b;
    } else {
      assert (a + b)[0] == a[0] && (a + b)[1..] == a[1..] + b;
      RenderAppend(a[1..], b);
    }
  }

  lemma {:induction false} RenderLits(s: string)
    ensures Render(Lits(s)) == s
    ensures NoBrace(s) ==> WellFormed(Lits(s))
    ensures forall t :: t in Lits(s) ==> t.Lit?
  {
    if s != "" {
      RenderLits(s[1..]);
      assert (Lits(s))[1..] == Lits(s[1..]);
    }
  }

  /** Text without an opening brace is passed over. */
  lemma {:induction false} PassedOver(s: string, rest: string, name: string, value: string)
    requires '{' !in s
    ensures Replace(s + rest, Pattern(name), value) == s + Replace(rest, Pattern(name), value)
    decreases |s|
  {
    if s == "" {
      assert s + rest == rest;
    } else {
      assert (s + rest)[0] == s[0] && (s + rest)[1..] == s[1..] + rest;
      assert !(Pattern(name) <= s + rest) by {
        assert Pattern(name)[0] == '{';
      }
      PassedOver(s[1..], rest, name, value);
    }
  }

  /** Two placeholders that start at the same place are the same. */
  lemma SamePattern(m: string, rest: string, name: string)
    requires IsName(m) && IsName(name) && Pattern(name) <= Pattern(m) + rest
    ensures m == name
  {
    var s := Pattern(m) + rest;
    var after := s[|Pattern(name)|..];
    assert s == Pattern(name) + after;
    NameEnds(m, rest);
    NameEnds(name, after);
    assert s[1..] == m + "}" + rest == name + "}" + after;
    assert m == s[1..][..|m|] && name == s[1..][..|name|];
  }

  lemma {:induction false} ReplaceSubst(ts: seq<Token>, name: string, value: string)
    requires WellFormed(ts) && IsName(name)
    ensures Replace(Render(ts), Pattern(name), value) == Render(Subst(ts, name, value))
    decreases |ts|
  {
    if ts != [] {
      assert Plain(ts[0]) && WellFormed(ts[1..]);
      ReplaceSubst(ts[1..], name, value);
      var rest := Render(ts[1..]);
      if ts[0] == Slot(name) {
        RenderLits(value);
        RenderAppend(Lits(value), Subst(ts[1..], name, value));
        assert (Pattern(name) + rest)[|Pattern(name)|..] == rest;
      } else {
        RenderAppend([ts[0]], Subst(ts[1..], name, value));
        assert [ts[0]][1..] == [] && Render([ts[0]]) == RenderOne(ts[0]);
        if ts[0].Lit? {
          PassedOver([ts[0].c], rest, name, value);
        } else {
          OtherSlot(ts[0].name, rest, name, value);
        }
      }
    }
  }

  lemma OtherSlot(m: string, rest: string, name: string, value: string)
    requires IsName(m) && IsName(name) && m != name
    ensures Replace(Pattern(m) + rest, Pattern(name), value) == Pattern(m) + Replace(rest, Pattern(name), value)
  {
    var s := Pattern(m) + rest;
    if Pattern(name) <= s {
      SamePattern(m, rest, name);
    }
    assert s[1..] == (m + "}") + rest && s[0] == '{';
    PassedOver(m + "}", rest, name, value);
    assert Pattern(m) == ['{'] + (m + "}");
  }

  lemma {:induction false} SubstLaws(ts: seq<Token>, name: string, values: map<string, string>)
    requires WellFormed(ts) && name in values
    ensures Fill(Subst(ts, name, values[name]), values) == Fill(ts, values)
    ensures forall t :: t in Subst(ts, name, values[name]) && t.Slot? <==> t in ts && t.Slot? && t != Slot(name)
    ensures NoBrace(values[name]) ==> WellFormed(Subst(ts, name, values[name]))
    decreases |ts|
  {
    if ts != [] {
      assert Plain(ts[0]) && WellFormed(ts[1..]);
      var v := values[name];
      SubstLaws(ts[1..], name, values);
      assert ts == [ts[0]] + ts[1..];
      if ts[0] == Slot(name) {
        RenderLits(v);
        FillLits(v, Subst(ts[1..], name, v), values);
      } else {
        assert Subst(ts, name, v)[1..] == Subst(ts[1..], name, v);
      }
    }
  }

  lemma FillCons(t: Token, ts: seq<Token>, values: map<string, string>)
    ensures Fill([t] + ts, values) == FillOne(t, values) + Fill(ts, values)
  {
    assert ([t] + ts)[1..] == ts;
  }

  lemma {:induction false} FillLits(s: string, ts: seq<Token>, values: map<string, string>)
    ensures Fill(Lits(s) + ts, values) == s + Fill(ts, values)
  {
    if s == "" {
      assert Lits(s) + ts == ts;
    } else {
      FillLits(s[1..], ts, values);
      FillCons(Lit(s[0]), Lits(s[1..]) + ts, values);
      Associative([Lit(s[0])], Lits(s[1..]), ts);
      Associative([s[0]], s[1..], Fill(ts, values));
      assert [s[0]] + s[1..] == s;
    }
  }

  predicate Filled(ts: seq<Token>) {
    forall t :: t in ts ==> t.Lit?
  }

  lemma {:induction false} FilledText(ts: seq<Token>, values: map<string, string>)
    requires WellFormed(ts) && Filled(ts)
    ensures Fill(ts, values) == Render(ts) && NoBrace(Render(ts))
    decreases |ts|
  {
    if ts != [] {
      assert Plain(ts[0]) && ts[0].Lit? && WellFormed(ts[1..]) && Filled(ts[1..]);
      FilledText(ts[1..], values);
    }
  }

  lemma {:induction false} SlotsFilled(ts: seq<Token>, values: map<string, string>, n: string)
    requires Slot(n) in ts && n in values && NoBrace(Fill(ts, values))
    ensures NoBrace(values[n])
    decreases |ts|
  {
    var first := FillOne(ts[0], values);
    assert Fill(ts, values) == first + Fill(ts[1..], values);
    assert forall c :: c in first ==> c in Fill(ts, values);
    assert forall c :: c in Fill(ts[1..], values) ==> c in Fill(ts, values);
    if ts[0] != Slot(n) {
      SlotsFilled(ts[1..], values, n);
    }
  }

  predicate AllIn(names: seq<string>, values: map<string, string>) {
    forall n :: n in names ==> n in values
  }

  predicate AllNames(names: seq<string>) {
    forall n :: n in names ==> IsName(n)
  }

  predicate AllBraceFree(names: seq<string>, values: map<string, string>) {
    forall n :: n in names && n in values ==> NoBrace(values[n])
  }

  /** The tokens after the placeholders in `names` are filled in that order. */
  function SubstEach(ts: seq<Token>, names: seq<string>, values: map<string, string>): seq<Token>
    requires AllIn(names, values)
  {
    if names == [] then ts
    else Subst(SubstEach(ts, names[..|names| - 1], values), names[|names| - 1], values[names[|names| - 1]])
  }

  lemma {:induction false} ReplaceEachSubst(ts: seq<Token>, names: seq<string>, values: map<string, string>)
    requires WellFormed(ts) && AllIn(names, values) && AllNames(names) && AllBraceFree(names, values)
    ensures var ts' := SubstEach(ts, names, values);
            && WellFormed(ts') && Render(ts') == ReplaceEach(Render(ts), names, values)
            && Fill(ts', values) == Fill(ts, values)
            && forall t :: t in ts' && t.Slot? <==> t in ts && t.Slot? && t.name !in names
  {
    if names != [] {
      var front, last := names[..|names| - 1], names[|names| - 1];
      assert names == front + [last];
      ReplaceEachSubst(ts, front, values);
      SubstLaws(SubstEach(ts, front, values), last, values);
      ReplaceSubst(SubstEach(ts, front, values), last, values[last]);
    }
  }

  ghost predicate Covers(names: seq<string>, ts: seq<Token>) {
    forall n :: n in names <==> Slot(n) in ts
  }

  lemma NotInSlots(t: Token, ts: seq<Token>, names: seq<string>)
    requires Covers(names, ts)
    ensures !(t in ts && t.Slot? && t.name !in names)
  {
    match t
    case Lit(_) =>
    case Slot(n) => assert n in names <==> Slot(n) in ts;
  }

  /** Filling one placeholder after another, in whatever order, gives the template
      filled at once and leaves no brace, exactly when no value has a brace. */
  lemma FilledInAnyOrderIff(template: string, ts: seq<Token>, names: seq<string>, values: map<string, string>)
    requires Tokens(template) == Ok(ts) && Covers(names, ts) && AllIn(names, values)
    ensures var out := ReplaceEach(template, names, values);
            out == Fill(ts, values) && NoBrace(out) <==> AllBraceFree(names, values)
  {
    TokensRender(template);
    assert AllNames(names) by {
      forall n | n in names ensures IsName(n) {
        assert Plain(Slot(n));
      }
    }
    if AllBraceFree(names, values) {
      ReplaceEachSubst(ts, names, values);
      var ts' := SubstEach(ts, names, values);
      assert Filled(ts') by {
        forall t | t in ts' ensures t.Lit? {
          NotInSlots(t, ts, names);
        }
      }
      FilledText(ts', values);
    }
    var out := ReplaceEach(template, names, values);
    if out == Fill(ts, values) && NoBrace(out) {
      forall n | n in names ensures NoBrace(values[n]) {
        SlotsFilled(ts, values, n);
      }
    }
  }

  lemma OneThenOther(s: string, first: string, second: string, values: map<string, string>)
    requires first in values && second in values
    ensures ReplaceEach(s, [first, second], values)
         == Replace(Replace(s, Pattern(first), values[first]), Pattern(second), values[second])
  {
    assert ReplaceEach(s, [first], values) == Replace(ReplaceEach(s, [], values), Pattern(first), values[first]);
    assert [first, second][..1] == [first];
  }

  /** The value of `a` names `b`: filling `a` first fills it with the value of `b`. */
  lemma FirstIsFilledAgain(a: string, b: string, x: string)
    requires IsName(a) && IsName(b) && a != b
    ensures var values := map[a := Pattern(b), b := x];
            ReplaceEach(Pattern(a) + Pattern(b), [a, b], values) == x + x
  {
    var values := map[a := Pattern(b), b := x];
    var s := Pattern(a) + Pattern(b);
    OneThenOther(s, a, b, values);
    OneIsReplaced(a, Pattern(b), Pattern(b));
    OtherSlot(b, "", a, Pattern(b));
    assert Pattern(b) + "" == Pattern(b) && Replace("", Pattern(a), Pattern(b)) == "";
    assert Replace(s, Pattern(a), values[a]) == Pattern(b) + Pattern(b);
    OneIsReplaced(b, Pattern(b), x);
    OneIsReplaced(b, "", x);
    assert x + "" == x && Replace("", Pattern(b), x) == "";
  }

  lemma OneIsReplaced(name: string, rest: string, value: string)
    ensures Replace(Pattern(name) + rest, Pattern(name), value) == value + Replace(rest, Pattern(name), value)
  {
    assert (Pattern(name) + rest)[|Pattern(name)|..] == rest;
  }

  /** Filling `b` first leaves the value of `a` as it is, if the value of `b` has no
      opening brace: the order decides. */
  lemma LastIsLeftAlone(a: string, b: string, x: string)
    requires IsName(a) && IsName(b) && a != b && '{' !in x
    ensures var values := map[a := Pattern(b), b := x];
            ReplaceEach(Pattern(a) + Pattern(b), [b, a], values) == Pattern(b) + x
    ensures Fill([Slot(a), Slot(b)], map[a := Pattern(b), b := x]) == Pattern(b) + x
  {
    var values := map[a := Pattern(b), b := x];
    var s := Pattern(a) + Pattern(b);
    OneThenOther(s, b, a, values);
    OtherSlot(a, Pattern(b), b, x);
    OneIsReplaced(b, "", x);
    assert Pattern(b) + "" == Pattern(b) && x + "" == x && Replace("", Pattern(b), x) == "";
    assert Replace(s, Pattern(b), x) == Pattern(a) + x;
    OneIsReplaced(a, x, Pattern(b));
    PassedOver(x, "", a, Pattern(b));
    assert Replace("", Pattern(a), Pattern(b)) == "";
    assert [Slot(a), Slot(b)][1..] == [Slot(b)] && [Slot(b)][1..] == [];
    assert Fill([Slot(b)], values) == x + "";
  }

  // The scan and the filling

  function Append(out: seq<string>, r: Result<seq<Token>, CharterError>): Result<seq<string>, CharterError> {
    match r case Ok(ts) => Ok(Used(out, ts)) case Err(e) => Err(e)
  }

  lemma {:induction false} SkipText(out: seq<string>, rest: string, at: nat)
    requires at <= |rest| && forall i :: 0 <= i < at ==> !IsBrace(rest[i])
    ensures Append(out, Tokens(rest)) == Append(out, Tokens(rest[at..]))
    decreases at
  {
    if at == 0 {
      assert rest[0..] == rest;
    } else {
      SkipText(out, rest[1..], at - 1);
      assert rest[1..][at - 1..] == rest[at..];
      if Tokens(rest[1..]).Ok? {
        assert ([Lit(rest[0])] + Tokens(rest[1..]).value)[1..] == Tokens(rest[1..]).value;
      }
    }
  }

  lemma SlotUsed(out: seq<string>, name: string, rest: string)
    requires IsName(name)
    ensures Append(out, Tokens(Pattern(name) + rest)) == Append(if name in out then out else out + [name], Tokens(rest))
  {
    SlotTokens(name, rest);
    if Tokens(rest).Ok? {
      assert ([Slot(name)] + Tokens(rest).value)[1..] == Tokens(rest).value;
    }
  }

  /** The placeholders a template uses, in order of first use, or what is wrong
      with it. */
  method PlaceholdersIn(template: string) returns (r: Result<seq<string>, CharterError>)
    ensures r == Append([], Tokens(template))
  {
    var out: seq<string> := [];
    var rest := template;
    while true
      invariant Append([], Tokens(template)) == Append(out, Tokens(rest))
      decreases |rest|
    {
      var at := Min(Find(rest, '{'), Find(rest, '}'));
      FindFirst(rest, '{');
      FindFirst(rest, '}');
      SkipText(out, rest, at);
      if at == |rest| {
        return Ok(out);
      }
      var here := rest[at..];
      if here[0] == '}' {
        return Err(Unmatched);
      }
      var after := here[1..];
      var end := Find(after, '}');
      if end == |after| {
        return Err(Unclosed);
      }
      var name := after[..end];
      if !IsName(name) {
        return Err(NotAName(name));
      }
      SlotSplits(here, end);
      SlotUsed(out, name, after[end + 1..]);
      if name !in out {
        out := out + [name];
      }
      rest := after[end + 1..];
    }
  }

  function WithName(out: seq<string>, t: Token): seq<string> {
    if t.Slot? && t.name !in out then out + [t.name] else out
  }

  lemma {:induction false} UsedIff(out: seq<string>, ts: seq<Token>, n: string)
    ensures n in Used(out, ts) <==> n in out || Slot(n) in ts
    decreases |ts|
  {
    if ts != [] {
      UsedIff(WithName(out, ts[0]), ts[1..], n);
      assert Slot(n) in ts <==> ts[0] == Slot(n) || Slot(n) in ts[1..];
    }
  }

  /** A key that the template does not take, if there is one. */
  method StrayKey(values: map<string, string>, used: seq<string>) returns (stray: Option<string>)
    ensures stray.Some? ==> stray.value in values && stray.value !in used
    ensures stray.None? ==> forall k :: k in values ==> k in used
  {
    var keys := values.Keys;
    while keys != {}
      invariant keys <= values.Keys && forall k :: k in values && k !in keys ==> k in used
      decreases |keys|
    {
      var key :| key in keys;
      if key !in used {
        return Some(key);
      }
      keys := keys - {key};
    }
    stray := None;
  }

  /** Fills the placeholders one after another, until one is not given. */
  method FillUsed(template: string, used: seq<string>, values: map<string, string>) returns (r: Result<string, CharterError>)
    ensures r.Ok? <==> AllIn(used, values)
    ensures r.Ok? ==> r.value == ReplaceEach(template, used, values)
    ensures r.Err? ==> r.error.Needs? && r.error.placeholder in used && r.error.placeholder !in values
  {
    var out := template;
    var i := 0;
    while i < |used|
      invariant i <= |used| && AllIn(used[..i], values) && out == ReplaceEach(template, used[..i], values)
    {
      if used[i] !in values {
        return Err(Needs(used[i]));
      }
      assert used[..i + 1] == used[..i] + [used[i]] && used[..i + 1][..i] == used[..i];
      out := Replace(out, Pattern(used[i]), values[used[i]]);
      i := i + 1;
    }
    assert used[..i] == used;
    r := Ok(out);
  }

  /** The given keys are exactly the placeholders. */
  ghost predicate Given(ts: seq<Token>, values: map<string, string>) {
    forall n :: n in values <==> Slot(n) in ts
  }

  predicate ValuesBraceFree(values: map<string, string>) {
    forall n :: n in values ==> NoBrace(values[n])
  }

  /** What filling the template `ts` may answer. */
  ghost predicate Answers(r: Result<string, CharterError>, ts: seq<Token>, values: map<string, string>) {
    match r
    case Ok(out) => Given(ts, values) && (out == Fill(ts, values) && NoBrace(out) <==> ValuesBraceFree(values))
    case Err(DoesNotTake(key)) => key in values && Slot(key) !in ts
    case Err(Needs(placeholder)) => placeholder !in values && Slot(placeholder) in ts
    case Err(_) => false
  }

  method FillTemplate(template: string, used: seq<string>, values: map<string, string>, ghost ts: seq<Token>)
      returns (r: Result<string, CharterError>)
    requires Tokens(template) == Ok(ts) && used == Used([], ts)
    ensures Answers(r, ts, values)
  {
    forall n ensures n in used <==> Slot(n) in ts {
      UsedIff([], ts, n);
    }
    var stray := StrayKey(values, used);
    if stray.Some? {
      return Err(DoesNotTake(stray.value));
    }
    r := FillUsed(template, used, values);
    if r.Ok? {
      FilledInAnyOrderIff(template, ts, used, values);
      assert AllBraceFree(used, values) <==> ValuesBraceFree(values);
    }
  }

  /** One location of a charter, its placeholders filled. Every placeholder must be
      given and nothing else may be. */
  method Location(locations: map<string, string>, name: string, values: map<string, string>)
      returns (r: Result<string, CharterError>)
    ensures name !in locations ==> r == Err(NoLocation)
    ensures name in locations && Tokens(locations[name]).Err? ==> r == Err(Tokens(locations[name]).error)
    ensures name in locations && Tokens(locations[name]).Ok? ==> Answers(r, Tokens(locations[name]).value, values)
  {
    if name !in locations {
      return Err(NoLocation);
    }
    var read := PlaceholdersIn(locations[name]);
    if read.Err? {
      return Err(read.error);
    }
    r := FillTemplate(locations[name], read.value, values, Tokens(locations[name]).value);
  }

  method FirstOutside(names: seq<string>, others: seq<string>) returns (first: Option<string>)
    ensures first.Some? ==> first.value in names && first.value !in others
    ensures first.None? ==> forall n :: n in names ==> n in others
  {
    var i := 0;
    while i < |names|
      invariant i <= |names| && forall j :: 0 <= j < i ==> names[j] in others
    {
      if names[i] !in others {
        return Some(names[i]);
      }
      i := i + 1;
    }
    first := None;
  }

  /** The part of a charter's validation that is about one location's template:
      it uses exactly the placeholders the location takes. */
  method ValidateTemplate(template: string, required: seq<string>) returns (r: Result<(), CharterError>)
    ensures r.Ok? <==> Tokens(template).Ok? && Covers(required, Tokens(template).value)
  {
    var read := PlaceholdersIn(template);
    if read.Err? {
      return Err(read.error);
    }
    var used := read.value;
    forall n ensures n in used <==> Slot(n) in Tokens(template).value {
      UsedIff([], Tokens(template).value, n);
    }
    var extra := FirstOutside(used, required);
    if extra.Some? {
      return Err(DoesNotTake(extra.value));
    }
    var missing := FirstOutside(required, used);
    if missing.Some? {
      return Err(Needs(missing.value));
    }
    r := Ok(());
  }

  /** A location that was validated is filled whenever it is given exactly what it
      takes; whatever `Location` may answer then is an `Ok`. */
  lemma ValidatedIsFilled(ts: seq<Token>, required: seq<string>, values: map<string, string>, r: Result<string, CharterError>)
    requires Covers(required, ts) && (forall n :: n in values <==> n in required) && Answers(r, ts, values)
    ensures r.Ok?
  {
    forall n ensures n in values <==> Slot(n) in ts {
      assert n in required <==> Slot(n) in ts;
    }
  }
}
