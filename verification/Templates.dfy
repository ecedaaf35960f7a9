/**
 `fill` of `frontend/lib/care.ts` and `interpolate` of `frontend/lib/notification-resolver.ts`: both replace
 every match of `{word}` by the value of that key, or leave it when there is none.
*/
module Templates {
  import opened Options

  /** The values after `String(...)`; a key mapped to None is one whose value is null or undefined. */
  type Vars = map<string, Option<string>>

  // ----- The code -----

  /** `\w` */
  predicate IsWord(c: char) {
    'a' <= c <= 'z' || 'A' <= c <= 'Z' || '0' <= c <= '9' || c == '_'
  }

  /** The length of the run of word characters `s` begins with. */
  function WordRun(s: string): (n: nat)
    ensures n <= |s|
    ensures forall i :: 0 <= i < n ==> IsWord(s[i])
    ensures n < |s| ==> !IsWord(s[n])
  {
    if s == "" || !IsWord(s[0]) then 0 else 1 + WordRun(s[1..])
  }

  /** Whether the pattern matches right here; the match is then the word run and the two braces. */
  predicate Matches(s: string) {
    && s != "" && s[0] == '{'
    && var n := WordRun(s[1..]); 0 < n && n + 1 < |s| && s[n + 1] == '}'
  }

  function Lookup(vars: Vars, key: string): Option<string> {
    if key in vars then vars[key] else None
  }

  function Fill(template: string, vars: Vars): string
    decreases |template|
  {
    if template == "" then ""
    else if Matches(template) then
      var n := WordRun(template[1..]);
      var key := template[1..n + 1];
      (match Lookup(vars, key)
       case None => "{" + key + "}"
       case Some(value) => value) + Fill(template[n + 2..], vars)
    else [template[0]] + Fill(template[1..], vars)
  }

  lemma {:induction false} WordRunOf(word: string, rest: string)
    requires forall i :: 0 <= i < |word| ==> IsWord(word[i])
    requires rest != "" && !IsWord(rest[0])
    ensures WordRun(word + rest) == |word|
  {
    if word == "" {
      assert word + rest == rest;
    } else {
      WordRunOf(word[1..], rest);
      assert (word + rest)[1..] == word[1..] + rest;
    }
  }

  predicate IsKey(key: string) {
    key != "" && forall i :: 0 <= i < |key| ==> IsWord(key[i])
  }

  /** There is a match here exactly when the text begins with a key in braces, and it is the key found. */
  lemma {:induction false} MatchesExactly(s: string, key: string)
    ensures IsKey(key) && "{" + key + "}" <= s <==> Matches(s) && s[1..WordRun(s[1..]) + 1] == key
  {
    if IsKey(key) && "{" + key + "}" <= s {
      var rest := s[|key| + 1..];
      assert s[1..] == key + rest && rest[0] == '}';
      WordRunOf(key, rest);
    }
    if Matches(s) && s[1..WordRun(s[1..]) + 1] == key {
      var n := WordRun(s[1..]);
      assert forall i :: 0 <= i < n ==> key[i] == s[1..][i];
      assert "{" + key + "}" == s[..n + 2];
    }
  }

  /** A placeholder with a value is replaced by the value, whatever it is. */
  lemma {:induction false} FillReplaces(key: string, rest: string, vars: Vars, value: string)
    requires IsKey(key) && key in vars && vars[key] == Some(value)
    ensures Fill("{" + key + "}" + rest, vars) == value + Fill(rest, vars)
  {
    PlaceholderFirst(key, rest);
  }

  /** A placeholder stays when its key is not there, or its value is null or undefined. */
  lemma {:induction false} FillKeeps(key: string, rest: string, vars: Vars)
    requires IsKey(key) && (key !in vars || vars[key] == None)
    ensures Fill("{" + key + "}" + rest, vars) == "{" + key + "}" + Fill(rest, vars)
  {
    PlaceholderFirst(key, rest);
  }

  /** Any other character stays, and so does the empty text. */
  lemma {:induction false} FillCopies(c: char, rest: string, vars: Vars)
    requires !exists key :: IsKey(key) && "{" + key + "}" <= [c] + rest
    ensures Fill([c] + rest, vars) == [c] + Fill(rest, vars)
    ensures Fill("", vars) == ""
  {
    var s := [c] + rest;
    assert s[1..] == rest;
    if Matches(s) {
      MatchesExactly(s, s[1..WordRun(s[1..]) + 1]);
    }
  }

  lemma PlaceholderFirst(key: string, rest: string)
    requires IsKey(key)
    ensures var s := "{" + key + "}" + rest;
      Matches(s) && WordRun(s[1..]) == |key| && s[1..|key| + 1] == key && s[|key| + 2..] == rest
  {
    var s := "{" + key + "}" + rest;
    MatchesExactly(s, key);
    assert "{" + key + "}" == s[..|key| + 2];
    assert s[1..] == key + ("}" + rest);
    WordRunOf(key, "}" + rest);
  }

  lemma SmallLetters(c: char)
    ensures 'a' <= c <= 'z' <==> c in "abcdefghijklmnopqrstuvwxyz"
  {
    if 'a' <= c <= 'z' {
      assert "abcdefghijklmnopqrstuvwxyz"[c as int - 'a' as int] == c;
    }
  }

  lemma CapitalLetters(c: char)
    ensures 'A' <= c <= 'Z' <==> c in "ABCDEFGHIJKLMNOPQRSTUVWXYZ"
  {
    if 'A' <= c <= 'Z' {
      assert "ABCDEFGHIJKLMNOPQRSTUVWXYZ"[c as int - 'A' as int] == c;
    }
  }

  /** Keys are made up of letters without accents, digits and underscores. */
  lemma KeysExactly(key: string)
    ensures IsKey(key) <==> key != "" && forall i :: 0 <= i < |key| ==>
      || key[i] in "abcdefghijklmnopqrstuvwxyz" || key[i] in "ABCDEFGHIJKLMNOPQRSTUVWXYZ"
      || key[i] in "0123456789" || key[i] == '_'
  {
    forall i | 0 <= i < |key|
      ensures IsWord(key[i]) <==>
        || key[i] in "abcdefghijklmnopqrstuvwxyz" || key[i] in "ABCDEFGHIJKLMNOPQRSTUVWXYZ"
        || key[i] in "0123456789" || key[i] == '_'
    {
      WordExactly(key[i]);
    }
  }

  lemma WordExactly(c: char)
    ensures IsWord(c) <==>
      || c in "abcdefghijklmnopqrstuvwxyz" || c in "ABCDEFGHIJKLMNOPQRSTUVWXYZ" || c in "0123456789" || c == '_'
  {
    SmallLetters(c);
    CapitalLetters(c);
    Digits(c);
  }

  lemma Digits(c: char)
    ensures '0' <= c <= '9' <==> c in "0123456789"
  {
    if '0' <= c <= '9' {
      assert "0123456789"[c as int - '0' as int] == c;
    }
  }

  // ----- Templates as tokens -----

  datatype Token = Lit(c: char) | Hole(key: string)

  function Parse(s: string): seq<Token>
    decreases |s|
  {
    if s == "" then []
    else if Matches(s) then
      var n := WordRun(s[1..]);
      [Hole(s[1..n + 1])] + Parse(s[n + 2..])
    else [Lit(s[0])] + Parse(s[1..])
  }

  function Show(t: Token): string {
    match t
    case Lit(c) => [c]
    case Hole(key) => "{" + key + "}"
  }

  function Render(ts: seq<Token>): string {
    if ts == [] then "" else Show(ts[0]) + Render(ts[1..])
  }

  function Lits(s: string): seq<Token> {
    seq(|s|, i requires 0 <= i < |s| => Lit(s[i]))
  }

  function Substitute(t: Token, vars: Vars): seq<Token> {
    match t
    case Lit(_) => [t]
    case Hole(key) =>
      match Lookup(vars, key)
      case None => [t]
      case Some(value) => Lits(value)
  }

  function SubstituteAll(ts: seq<Token>, vars: Vars): seq<Token> {
    if ts == [] then [] else Substitute(ts[0], vars) + SubstituteAll(ts[1..], vars)
  }

  lemma {:induction false} RenderConcat(a: seq<Token>, b: seq<Token>)
    ensures Render(a + b) == Render(a) + Render(b)
  {
    hide Show;
    if a == [] {
      assert a + b == b;
    } else {
      RenderConcat(a[1..], b);
      assert (a + b)[1..] == a[1..] + b;
      assert Render(a + b) == Show(a[0]) + (Render(a[1..]) + Render(b));
    }
  }

  lemma {:induction false} RenderLits(s: string)
    ensures Render(Lits(s)) == s
  {
    if s != "" {
      RenderLits(s[1..]);
      assert Lits(s)[1..] == Lits(s[1..]);
    }
  }

  lemma RenderSubstitute(t: Token, vars: Vars)
    ensures Render(Substitute(t, vars)) ==
      match t
      case Lit(c) => [c]
      case Hole(key) => match Lookup(vars, key) case None => "{" + key + "}" case Some(value) => value
  {
    assert Render([t]) == Show(t) + Render([]);
    if t.Hole? && Lookup(vars, t.key).Some? {
      RenderLits(Lookup(vars, t.key).value);
    }
  }

  /** Filling a template fills the holes of its tokens. */
  lemma {:induction false} FillIsSubstitution(template: string, vars: Vars)
    ensures Fill(template, vars) == Render(SubstituteAll(Parse(template), vars))
    decreases |template|
  {
    if template != "" {
      var n := WordRun(template[1..]);
      var rest := if Matches(template) then template[n + 2..] else template[1..];
      var t := if Matches(template) then Hole(template[1..n + 1]) else Lit(template[0]);
      FillIsSubstitution(rest, vars);
      var ts := Parse(template);
      assert ts[0] == t && ts[1..] == Parse(rest);
      RenderConcat(Substitute(t, vars), SubstituteAll(Parse(rest), vars));
      RenderSubstitute(t, vars);
    }
  }

  lemma ParseMatch(s: string)
    requires Matches(s)
    ensures var n := WordRun(s[1..]); Parse(s) == [Hole(s[1..n + 1])] + Parse(s[n + 2..])
  {
  }

  lemma NothingToParse()
    ensures Parse("") == [] && Render([]) == ""
  {
  }

  lemma ParseOther(s: string)
    requires s != "" && !Matches(s)
    ensures Parse(s) == [Lit(s[0])] + Parse(s[1..])
  {
  }

  lemma RenderFirst(t: Token, ts: seq<Token>)
    ensures Render([t] + ts) == Show(t) + Render(ts)
  {
    assert ([t] + ts)[1..] == ts;
  }

  /** Parsing loses nothing. */
  lemma {:induction false} RenderOfParse(s: string)
    ensures Render(Parse(s)) == s
    decreases |s|
  {
    hide Parse, Render;
    if s == "" {
      NothingToParse();
    } else if Matches(s) {
      var n := WordRun(s[1..]);
      ParseMatch(s);
      RenderOfParse(s[n + 2..]);
      RenderFirst(Hole(s[1..n + 1]), Parse(s[n + 2..]));
      assert s == "{" + s[1..n + 1] + "}" + s[n + 2..];
    } else {
      ParseOther(s);
      RenderOfParse(s[1..]);
      RenderFirst(Lit(s[0]), Parse(s[1..]));
    }
  }

  // ----- Which token lists a text can be parsed back into -----

  predicate KeysAreWords(ts: seq<Token>) {
    forall i :: 0 <= i < |ts| && ts[i].Hole? ==> IsKey(ts[i].key)
  }

  /** The tokens run through word characters and holes, at least one unless `seen`, to a closing brace. */
  predicate Closes(ts: seq<Token>, seen: bool) {
    if ts == [] then false
    else
      match ts[0]
      case Hole(_) => Closes(ts[1..], true)
      case Lit(c) => (c == '}' && seen) || (IsWord(c) && Closes(ts[1..], true))
  }

  /**
   No brace outside a placeholder can become part of one: nowhere does a literal opening brace meet a literal
   closing brace across nothing but word characters and placeholders.
  */
  predicate Stable(ts: seq<Token>) {
    ts == [] || ((ts[0] == Lit('{') ==> !Closes(ts[1..], false)) && Stable(ts[1..]))
  }

  lemma {:induction false} RunCloses(ts: seq<Token>, seen: bool)
    requires KeysAreWords(ts)
    requires var n := WordRun(Render(ts)); n < |Render(ts)| && Render(ts)[n] == '}' && (seen || 0 < n)
    ensures Closes(ts, seen)
  {
    if ts[0].Lit? {
      assert Render(ts)[1..] == Render(ts[1..]);
      if IsWord(ts[0].c) {
        RunCloses(ts[1..], true);
      }
    }
  }

  lemma ParseHole(key: string, rest: string)
    requires IsKey(key)
    ensures Parse("{" + key + "}" + rest) == [Hole(key)] + Parse(rest)
  {
    hide Parse;
    var s := "{" + key + "}" + rest;
    assert s[1..] == key + ("}" + rest);
    WordRunOf(key, "}" + rest);
    assert s[1..|key| + 1] == key && s[|key| + 2..] == rest;
    assert Matches(s);
    ParseMatch(s);
  }

  lemma ParseLit(c: char, ts: seq<Token>)
    requires KeysAreWords(ts) && (c == '{' ==> !Closes(ts, false))
    ensures Parse([c] + Render(ts)) == [Lit(c)] + Parse(Render(ts))
  {
    hide Render, Closes;
    var s := [c] + Render(ts);
    assert s[1..] == Render(ts);
    if Matches(s) {
      RunCloses(ts, false);
    }
  }

  /** Tokens that are stable are read back as they are. */
  lemma {:induction false} ParseOfRender(ts: seq<Token>)
    requires KeysAreWords(ts) && Stable(ts)
    ensures Parse(Render(ts)) == ts
  {
    hide Parse, IsKey;
    if ts == [] {
      NothingToParse();
    } else {
      ParseOfRender(ts[1..]);
      match ts[0]
      case Lit(c) => ParseLit(c, ts[1..]);
      case Hole(key) => ParseHole(key, Render(ts[1..]));
    }
  }

  lemma {:induction false} ParsedKeys(s: string)
    ensures KeysAreWords(Parse(s))
    decreases |s|
  {
    if s != "" {
      var n := WordRun(s[1..]);
      ParsedKeys(if Matches(s) then s[n + 2..] else s[1..]);
    }
  }

  // ----- Filling in stages -----

  /** The values of `a`, and those of `b` where `a` has none. */
  function Over(a: Vars, b: Vars): Vars {
    map key | key in a.Keys + b.Keys :: if Lookup(a, key).Some? then Lookup(a, key) else Lookup(b, key)
  }

  /** The values of `a`, and those of `b` where `a` has none. */
  lemma OverTakesFirst(a: Vars, b: Vars, key: string)
    ensures key in a && a[key].Some? ==> key in Over(a, b) && Over(a, b)[key] == a[key]
    ensures !(key in a && a[key].Some?) && key in b ==> key in Over(a, b) && Over(a, b)[key] == b[key]
    ensures key !in a && key !in b ==> key !in Over(a, b)
    ensures key in a && a[key] == None && key !in b ==> Over(a, b)[key] == None
  {
  }

  predicate BraceFree(s: string) {
    forall i :: 0 <= i < |s| ==> s[i] != '{' && s[i] != '}'
  }

  ghost predicate BraceFreeVars(vars: Vars) {
    forall key :: key in vars && vars[key].Some? ==> BraceFree(vars[key].value)
  }

  lemma {:induction false} SubstituteConcat(x: seq<Token>, y: seq<Token>, vars: Vars)
    ensures SubstituteAll(x + y, vars) == SubstituteAll(x, vars) + SubstituteAll(y, vars)
  {
    hide Substitute;
    if x == [] {
      assert x + y == y;
    } else {
      SubstituteConcat(x[1..], y, vars);
      assert (x + y)[1..] == x[1..] + y;
      assert SubstituteAll(x + y, vars)
        == Substitute(x[0], vars) + (SubstituteAll(x[1..], vars) + SubstituteAll(y, vars));
    }
  }

  lemma {:induction false} LitsStay(s: string, vars: Vars)
    ensures SubstituteAll(Lits(s), vars) == Lits(s)
  {
    if s != "" {
      LitsStay(s[1..], vars);
      assert Lits(s)[1..] == Lits(s[1..]);
      assert Lits(s) == [Lit(s[0])] + Lits(s[1..]);
    }
  }

  lemma SubstituteTwice(t: Token, a: Vars, b: Vars)
    ensures SubstituteAll(Substitute(t, a), b) == Substitute(t, Over(a, b))
  {
    if t.Hole? && Lookup(a, t.key).Some? {
      LitsStay(Lookup(a, t.key).value, b);
    } else {
      assert [t][1..] == [];
      assert SubstituteAll([t], b) == Substitute(t, b);
    }
  }

  lemma {:induction false} SubstituteAllTwice(ts: seq<Token>, a: Vars, b: Vars)
    ensures SubstituteAll(SubstituteAll(ts, a), b) == SubstituteAll(ts, Over(a, b))
  {
    if ts != [] {
      hide Substitute, Over;
      SubstituteAllTwice(ts[1..], a, b);
      SubstituteTwice(ts[0], a, b);
      SubstituteConcat(Substitute(ts[0], a), SubstituteAll(ts[1..], a), b);
    }
  }

  lemma {:induction false} SubstitutedKeys(ts: seq<Token>, vars: Vars)
    requires KeysAreWords(ts)
    ensures KeysAreWords(SubstituteAll(ts, vars))
  {
    if ts != [] {
      hide IsKey;
      SubstitutedKeys(ts[1..], vars);
    }
  }

  lemma {:induction false} ClosesMore(ts: seq<Token>)
    requires Closes(ts, false)
    ensures Closes(ts, true)
  {
  }

  /** What closes after brace-free text is put in front closed before. */
  lemma {:induction false} LitsDoNotClose(s: string, ts: seq<Token>, seen: bool)
    requires BraceFree(s) && Closes(Lits(s) + ts, seen)
    ensures Closes(ts, true)
  {
    if s == "" {
      assert Lits(s) + ts == ts;
      if !seen { ClosesMore(ts); }
    } else {
      assert (Lits(s) + ts)[1..] == Lits(s[1..]) + ts;
      LitsDoNotClose(s[1..], ts, true);
    }
  }

  lemma {:induction false} SubstitutionDoesNotClose(ts: seq<Token>, vars: Vars, seen: bool)
    requires BraceFreeVars(vars) && Closes(SubstituteAll(ts, vars), seen)
    ensures Closes(ts, seen)
  {
    if ts[0].Hole? && Lookup(vars, ts[0].key).Some? {
      LitsDoNotClose(Lookup(vars, ts[0].key).value, SubstituteAll(ts[1..], vars), seen);
      SubstitutionDoesNotClose(ts[1..], vars, true);
    } else {
      var rest := SubstituteAll(ts[1..], vars);
      assert SubstituteAll(ts, vars)[0] == ts[0] && SubstituteAll(ts, vars)[1..] == rest;
      if Closes(rest, true) {
        SubstitutionDoesNotClose(ts[1..], vars, true);
      }
    }
  }

  lemma {:induction false} LitsAreStable(s: string, ts: seq<Token>)
    requires BraceFree(s) && Stable(ts)
    ensures Stable(Lits(s) + ts)
  {
    if s == "" {
      assert Lits(s) + ts == ts;
    } else {
      LitsAreStable(s[1..], ts);
      assert (Lits(s) + ts)[1..] == Lits(s[1..]) + ts;
    }
  }

  lemma {:induction false} SubstitutionIsStable(ts: seq<Token>, vars: Vars)
    requires BraceFreeVars(vars) && Stable(ts)
    ensures Stable(SubstituteAll(ts, vars))
  {
    if ts != [] {
      var rest := SubstituteAll(ts[1..], vars);
      SubstitutionIsStable(ts[1..], vars);
      if ts[0].Hole? && Lookup(vars, ts[0].key).Some? {
        LitsAreStable(Lookup(vars, ts[0].key).value, rest);
      } else {
        assert SubstituteAll(ts, vars)[0] == ts[0] && SubstituteAll(ts, vars)[1..] == rest;
        if ts[0] == Lit('{') && Closes(rest, false) {
          SubstitutionDoesNotClose(ts[1..], vars, false);
        }
      }
    }
  }

  /** In a stable template, filling in two stages is filling once with the first stage taking precedence. */
  lemma {:induction false} StagedFill(template: string, a: Vars, b: Vars)
    requires Stable(Parse(template)) && BraceFreeVars(a)
    ensures Fill(Fill(template, a), b) == Fill(template, Over(a, b))
  {
    hide Over, Stable, BraceFreeVars;
    var ts := Parse(template);
    ParsedKeys(template);
    SubstitutionIsStable(ts, a);
    SubstitutedKeys(ts, a);
    ParseOfRender(SubstituteAll(ts, a));
    FillIsSubstitution(template, a);
    FillIsSubstitution(Fill(template, a), b);
    SubstituteAllTwice(ts, a, b);
    FillIsSubstitution(template, Over(a, b));
  }

  // ----- ... and only in a stable one -----

  function HoleKeys(ts: seq<Token>): set<string> {
    set i | 0 <= i < |ts| && ts[i].Hole? :: ts[i].key
  }

  /** Gives every hole the one-letter value "k". */
  function Letters(ts: seq<Token>): Vars {
    map key | key in HoleKeys(ts) :: Some("k")
  }

  predicate FilledWithLetters(ts: seq<Token>, vars: Vars) {
    forall i :: 0 <= i < |ts| && ts[i].Hole? ==> Lookup(vars, ts[i].key) == Some("k")
  }

  predicate AllLits(ts: seq<Token>) {
    forall i :: 0 <= i < |ts| ==> ts[i].Lit?
  }

  lemma LetterSubstitution(ts: seq<Token>, vars: Vars)
    requires ts != [] && FilledWithLetters(ts, vars)
    ensures var t := if ts[0].Lit? then ts[0] else Lit('k');
      SubstituteAll(ts, vars) == [t] + SubstituteAll(ts[1..], vars)
  {
    assert Lits("k") == [Lit('k')];
  }

  lemma {:induction false} LettersStillClose(ts: seq<Token>, vars: Vars, seen: bool)
    requires FilledWithLetters(ts, vars) && Closes(ts, seen)
    ensures Closes(SubstituteAll(ts, vars), seen)
  {
    hide SubstituteAll;
    LetterSubstitution(ts, vars);
    if ts[0].Hole? || IsWord(ts[0].c) {
      LettersStillClose(ts[1..], vars, true);
    }
  }

  lemma {:induction false} LettersStayUnstable(ts: seq<Token>, vars: Vars)
    requires FilledWithLetters(ts, vars) && !Stable(ts)
    ensures !Stable(SubstituteAll(ts, vars))
  {
    hide SubstituteAll;
    LetterSubstitution(ts, vars);
    if ts[0] == Lit('{') && Closes(ts[1..], false) {
      LettersStillClose(ts[1..], vars, false);
    } else {
      LettersStayUnstable(ts[1..], vars);
    }
  }

  lemma {:induction false} LettersFillAll(ts: seq<Token>, vars: Vars)
    requires FilledWithLetters(ts, vars)
    ensures AllLits(SubstituteAll(ts, vars))
  {
    if ts != [] {
      LetterSubstitution(ts, vars);
      LettersFillAll(ts[1..], vars);
    }
  }

  lemma LitFirst(ts: seq<Token>)
    requires AllLits(ts) && ts != []
    ensures Render(ts) == [ts[0].c] + Render(ts[1..])
  {
  }

  lemma WordRunFirst(c: char, s: string)
    ensures WordRun([c] + s) == if IsWord(c) then 1 + WordRun(s) else 0
  {
    assert ([c] + s)[1..] == s;
  }

  lemma {:induction false} LitsThatCloseMatch(ts: seq<Token>, seen: bool)
    requires AllLits(ts) && Closes(ts, seen)
    ensures var n := WordRun(Render(ts)); n < |Render(ts)| && Render(ts)[n] == '}' && (seen || 0 < n)
  {
    hide Render, WordRun;
    var rest := Render(ts[1..]);
    LitFirst(ts);
    WordRunFirst(ts[0].c, rest);
    if IsWord(ts[0].c) {
      LitsThatCloseMatch(ts[1..], true);
      assert Render(ts)[1 + WordRun(rest)] == rest[WordRun(rest)];
    }
  }

  /** Unstable literals contain a placeholder that was not there before. */
  lemma {:induction false} UnstableLitsHideAHole(ts: seq<Token>) returns (key: string)
    requires AllLits(ts) && !Stable(ts)
    ensures key in HoleKeys(Parse(Render(ts)))
  {
    var s := Render(ts);
    assert s == [ts[0].c] + Render(ts[1..]) && s[1..] == Render(ts[1..]);
    if ts[0] == Lit('{') && Closes(ts[1..], false) {
      LitsThatCloseMatch(ts[1..], false);
      assert Matches(s);
      ParseMatch(s);
      key := Parse(s)[0].key;
    } else if Matches(s) {
      ParseMatch(s);
      key := Parse(s)[0].key;
    } else {
      key := UnstableLitsHideAHole(ts[1..]);
      var i :| 0 <= i < |Parse(s[1..])| && Parse(s[1..])[i] == Hole(key);
      assert Parse(s)[i + 1] == Hole(key);
    }
  }

  lemma {:induction false} ErasingShrinks(ts: seq<Token>, key: string)
    ensures var erased := Render(SubstituteAll(ts, map[key := Some("")]));
      |erased| <= |Render(ts)| && (key in HoleKeys(ts) ==> |erased| < |Render(ts)|)
  {
    if ts != [] {
      var vars: Vars := map[key := Some("")];
      ErasingShrinks(ts[1..], key);
      RenderConcat(Substitute(ts[0], vars), SubstituteAll(ts[1..], vars));
      RenderSubstitute(ts[0], vars);
      if key in HoleKeys(ts) && ts[0] != Hole(key) {
        var i :| 0 <= i < |ts| && ts[i] == Hole(key);
        assert ts[1..][i - 1] == Hole(key);
      }
    }
  }

  lemma {:induction false} LettersCover(ts: seq<Token>, a: Vars, b: Vars)
    requires FilledWithLetters(ts, a)
    ensures SubstituteAll(ts, Over(a, b)) == SubstituteAll(ts, a)
  {
    if ts != [] {
      assert FilledWithLetters(ts, Over(a, b));
      LetterSubstitution(ts, a);
      LetterSubstitution(ts, Over(a, b));
      LettersCover(ts[1..], a, b);
    }
  }

  /** An unstable template, with values that make the two ways of filling it differ. */
  lemma StagesDiffer(template: string) returns (a: Vars, b: Vars)
    requires !Stable(Parse(template))
    ensures BraceFreeVars(a)
    ensures Fill(Fill(template, a), b) != Fill(template, Over(a, b))
  {
    hide Over, Stable, SubstituteAll, HoleKeys, Parse, Render, Fill;
    var ts := Parse(template);
    a := Letters(ts);
    LettersAreLetters(ts);
    var filled := SubstituteAll(ts, a);
    LettersStayUnstable(ts, a);
    LettersFillAll(ts, a);
    var key := UnstableLitsHideAHole(filled);
    b := map[key := Some("")];
    FillIsSubstitution(template, a);
    FillIsSubstitution(Fill(template, a), b);
    RenderOfParse(Fill(template, a));
    ErasingShrinks(Parse(Fill(template, a)), key);
    LettersCover(ts, a, b);
    FillIsSubstitution(template, Over(a, b));
  }

  lemma LettersAreLetters(ts: seq<Token>)
    ensures FilledWithLetters(ts, Letters(ts)) && BraceFreeVars(Letters(ts))
  {
    forall i | 0 <= i < |ts| && ts[i].Hole? ensures Lookup(Letters(ts), ts[i].key) == Some("k") {
      assert ts[i].key in HoleKeys(ts);
    }
  }

  ghost predicate FillsInStages(template: string) {
    forall a: Vars, b: Vars :: BraceFreeVars(a) ==> Fill(Fill(template, a), b) == Fill(template, Over(a, b))
  }

  /**
   Filling in two stages equals filling once, for all brace-free first values and all second values, exactly
   for the templates in which no outside brace can become part of a placeholder.
  */
  lemma {:induction false} StagesAgreeExactly(template: string)
    ensures FillsInStages(template) <==> Stable(Parse(template))
  {
    hide Fill, Over, BraceFreeVars;
    if Stable(Parse(template)) {
      forall a: Vars, b: Vars | BraceFreeVars(a) ensures Fill(Fill(template, a), b) == Fill(template, Over(a, b)) {
        StagedFill(template, a, b);
      }
    } else {
      var a, b := StagesDiffer(template);
    }
  }

  lemma {:induction false} NothingSubstituted(ts: seq<Token>, vars: Vars)
    requires forall key :: key in HoleKeys(ts) ==> Lookup(vars, key) == None
    ensures SubstituteAll(ts, vars) == ts
  {
    if ts != [] {
      assert ts[0].Hole? ==> ts[0].key in HoleKeys(ts);
      forall key | key in HoleKeys(ts[1..]) ensures Lookup(vars, key) == None {
        var i :| 0 <= i < |ts[1..]| && ts[1..][i] == Hole(key);
        assert ts[i + 1] == Hole(key);
      }
      NothingSubstituted(ts[1..], vars);
    }
  }

  /** For every template whatsoever, filling without a value for any of its keys changes nothing. */
  lemma {:induction false} FillWithoutValues(template: string, vars: Vars)
    requires forall key :: key in HoleKeys(Parse(template)) ==> key !in vars || vars[key] == None
    ensures Fill(template, vars) == template
  {
    FillIsSubstitution(template, vars);
    NothingSubstituted(Parse(template), vars);
    RenderOfParse(template);
  }

  /** Values with braces can be taken for placeholders by the second stage, even in the simplest template. */
  lemma BracedValuesAreFilledAgain()
    ensures var a: Vars, b: Vars := map["x" := Some("{y}")], map["y" := Some("z")];
      Fill(Fill("{x}", a), b) == "z" && Fill("{x}", Over(a, b)) == "{y}"
  {
    var a: Vars, b: Vars := map["x" := Some("{y}")], map["y" := Some("z")];
    FillOnlyHole("x", a);
    FillOnlyHole("y", b);
    FillOnlyHole("x", Over(a, b));
    assert "{" + "x" + "}" == "{x}" && "{" + "y" + "}" == "{y}";
  }

  lemma FillOnlyHole(key: string, vars: Vars)
    requires IsKey(key) && Lookup(vars, key).Some?
    ensures Fill("{" + key + "}", vars) == Lookup(vars, key).value
  {
    var s := "{" + key + "}";
    assert s[1..] == key + "}";
    WordRunOf(key, "}");
    assert s[1..|key| + 1] == key && s[|key| + 2..] == "";
    assert Matches(s);
  }
}
