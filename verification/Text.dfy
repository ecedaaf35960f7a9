/** The JavaScript string operations the program uses. */
module Text {
  import opened Sequences

  /** White space and line ends as `trim` and `\s` see them (sections 12.2 and 12.3 of ECMA-262). */
  predicate IsSpace(c: char) {
    || '\t' <= c <= '\r' || c == ' ' || c == '\U{A0}' || c == '\U{1680}' || '\U{2000}' <= c <= '\U{200A}'
    || c == '\U{2028}' || c == '\U{2029}' || c == '\U{202F}' || c == '\U{205F}' || c == '\U{3000}' || c == '\U{FEFF}'
  }

  /** The white space characters one by one. */
  const WHITE_SPACE: string :=
    "\t\n\U{B}\U{C}\r \U{A0}\U{1680}\U{2000}\U{2001}\U{2002}\U{2003}\U{2004}\U{2005}\U{2006}\U{2007}\U{2008}" +
    "\U{2009}\U{200A}\U{2028}\U{2029}\U{202F}\U{205F}\U{3000}\U{FEFF}"

  lemma {:induction false} SpacesExactly(c: char)
    ensures IsSpace(c) <==> c in WHITE_SPACE
  {
    var n := c as int;
    if '\t' <= c <= '\r' {
      assert WHITE_SPACE[n - 9] == c;
    } else if '\U{2000}' <= c <= '\U{200A}' {
      assert WHITE_SPACE[n - 0x2000 + 8] == c;
    } else if IsSpace(c) {
      assert WHITE_SPACE[5] == ' ' && WHITE_SPACE[6] == '\U{A0}' && WHITE_SPACE[7] == '\U{1680}';
      assert WHITE_SPACE[19] == '\U{2028}' && WHITE_SPACE[20] == '\U{2029}' && WHITE_SPACE[21] == '\U{202F}';
      assert WHITE_SPACE[22] == '\U{205F}' && WHITE_SPACE[23] == '\U{3000}' && WHITE_SPACE[24] == '\U{FEFF}';
    }
  }

  ghost predicate Blank(s: string) {
    forall i :: 0 <= i < |s| ==> IsSpace(s[i])
  }

  function TrimStart(s: string): string {
    if s != "" && IsSpace(s[0]) then TrimStart(s[1..]) else s
  }

  function TrimEnd(s: string): string {
    if s != "" && IsSpace(s[|s| - 1]) then TrimEnd(s[..|s| - 1]) else s
  }

  function Trim(s: string): string {
    TrimEnd(TrimStart(s))
  }

  /** No white space at either end. */
  predicate Trimmed(s: string) {
    s != "" ==> !IsSpace(s[0]) && !IsSpace(s[|s| - 1])
  }

  predicate StartsWith(s: string, prefix: string) {
    prefix <= s
  }

  /** The position of the first `c`, or the length. */
  function IndexOf(s: string, c: char): (i: nat)
    ensures i <= |s|
    ensures forall k :: 0 <= k < i ==> s[k] != c
    ensures i < |s| ==> s[i] == c
  {
    if s == "" || s[0] == c then 0 else IndexOf(s[1..], c) + 1
  }

  /** `s.split(c)` for a separator of one character. */
  function Split(s: string, c: char): (parts: seq<string>)
    ensures parts != []
    decreases |s|
  {
    var i := IndexOf(s, c);
    if i == |s| then [s] else [s[..i]] + Split(s[i + 1..], c)
  }

  function Join(parts: seq<string>, sep: string): string {
    if parts == [] then ""
    else if |parts| == 1 then parts[0]
    else parts[0] + sep + Join(parts[1..], sep)
  }

  lemma {:induction false} TrimStartSplits(s: string)
    ensures |TrimStart(s)| <= |s|
    ensures Blank(s[..|s| - |TrimStart(s)|])
    ensures s[|s| - |TrimStart(s)|..] == TrimStart(s)
    ensures TrimStart(s) != "" ==> !IsSpace(TrimStart(s)[0])
  {
    if s != "" && IsSpace(s[0]) {
      TrimStartSplits(s[1..]);
      var k := |s| - |TrimStart(s)|;
      assert s[..k] == [s[0]] + s[1..][..k - 1];
    }
  }

  lemma {:induction false} TrimEndSplits(s: string)
    ensures TrimEnd(s) <= s
    ensures Blank(s[|TrimEnd(s)|..])
    ensures TrimEnd(s) != "" ==> !IsSpace(TrimEnd(s)[|TrimEnd(s)| - 1])
  {
    if s != "" && IsSpace(s[|s| - 1]) {
      TrimEndSplits(s[..|s| - 1]);
      var k := |TrimEnd(s)|;
      assert s[k..] == s[..|s| - 1][k..] + [s[|s| - 1]];
    }
  }

  /** `Trim` cuts a blank part off each end and nothing else. */
  lemma TrimSplits(s: string) returns (i: nat, j: nat)
    ensures i <= j <= |s|
    ensures Trim(s) == s[i..j] && Trimmed(Trim(s))
    ensures Blank(s[..i]) && Blank(s[j..])
    ensures forall k :: 0 <= k < i || j <= k < |s| ==> IsSpace(s[k])
    ensures i < j ==> !IsSpace(s[i]) && !IsSpace(s[j - 1])
  {
    TrimStartSplits(s);
    TrimEndSplits(TrimStart(s));
    i := |s| - |TrimStart(s)|;
    j := i + |Trim(s)|;
    assert TrimStart(s) == s[i..];
    assert s[j..] == TrimStart(s)[|Trim(s)|..];
    assert Trim(s) == TrimStart(s)[..|Trim(s)|];
    assert forall k :: 0 <= k < i ==> s[k] == s[..i][k];
    assert forall k :: j <= k < |s| ==> s[k] == s[j..][k - j];
  }

  /** ... and the trimmed core is the only one there is. */
  lemma {:induction false} TrimOfPadded(lead: string, core: string, tail: string)
    requires Blank(lead) && Blank(tail) && Trimmed(core)
    ensures Trim(lead + core + tail) == core
    decreases |lead| + |tail|
  {
    var s := lead + core + tail;
    if lead != "" {
      assert s[1..] == lead[1..] + core + tail;
      TrimOfPadded(lead[1..], core, tail);
    } else if core == "" {
      assert s == tail;
      BlankTrims(tail);
    } else {
      assert TrimStart(s) == s;
      assert s == core + tail;
      TrimEndOfPadded(core, tail);
    }
  }

  lemma {:induction false} TrimEndOfPadded(core: string, tail: string)
    requires Blank(tail) && Trimmed(core) && core != ""
    ensures TrimEnd(core + tail) == core
    decreases |tail|
  {
    var s := core + tail;
    if tail == "" {
      assert s == core;
    } else {
      assert s[..|s| - 1] == core + tail[..|tail| - 1];
      TrimEndOfPadded(core, tail[..|tail| - 1]);
    }
  }

  lemma {:induction false} BlankTrims(s: string)
    requires Blank(s)
    ensures Trim(s) == ""
  {
    if s != "" {
      BlankTrims(s[1..]);
    }
  }

  lemma JoinFirst(part: string, parts: seq<string>, sep: string)
    requires parts != []
    ensures Join([part] + parts, sep) == part + sep + Join(parts, sep)
  {
    assert ([part] + parts)[1..] == parts;
  }

  /** Splitting cuts the text exactly at the separators: joining the parts gives it back. */
  lemma {:induction false} JoinOfSplit(s: string, c: char)
    ensures Join(Split(s, c), [c]) == s
    decreases |s|
  {
    var i := IndexOf(s, c);
    if i < |s| {
      JoinOfSplit(s[i + 1..], c);
      SplitOnce(s, c, i);
      JoinFirst(s[..i], Split(s[i + 1..], c), [c]);
      assert s == s[..i] + [c] + s[i + 1..];
    }
  }

  lemma IndexOfIs(s: string, c: char, i: nat)
    requires i <= |s| && (forall k :: 0 <= k < i ==> s[k] != c) && (i < |s| ==> s[i] == c)
    ensures IndexOf(s, c) == i
  {
  }

  /** A separator between two texts separates their parts. */
  lemma {:induction false} SplitConcat(a: string, c: char, b: string)
    ensures Split(a + [c] + b, c) == Split(a, c) + Split(b, c)
    decreases |a|
  {
    var i := IndexOf(a, c);
    if i == |a| {
      SplitAtSeparator(a, c, b);
    } else {
      var head, rest := a[..i], a[i + 1..];
      SplitConcat(rest, c, b);
      SplitConcatStep(head, c, rest, b);
      Reassemble(a, i, head, rest, [c], b);
    }
  }

  lemma SplitConcatStep(head: string, c: char, rest: string, b: string)
    requires forall k :: 0 <= k < |head| ==> head[k] != c
    requires Split(rest + [c] + b, c) == Split(rest, c) + Split(b, c)
    ensures Split(head + [c] + (rest + [c] + b), c) == Split(head + [c] + rest, c) + Split(b, c)
  {
    Regroup(head, [c], rest, [c] + b);
    Regroup(rest, [c], b, []);
    SplitAtSeparator(head, c, rest + [c] + b);
    SplitAtSeparator(head, c, rest);
    Regroup([head], Split(rest, c), Split(b, c), []);
  }

  lemma Reassemble(a: string, i: nat, head: string, rest: string, mid: string, b: string)
    requires i < |a| && head == a[..i] && rest == a[i + 1..] && mid == [a[i]]
    ensures head + mid + rest == a
    ensures a + mid + b == head + mid + (rest + mid + b)
  {
  }

  lemma SplitAtSeparator(a: string, c: char, b: string)
    requires forall k :: 0 <= k < |a| ==> a[k] != c
    ensures Split(a + [c] + b, c) == [a] + Split(b, c)
  {
    var s := a + [c] + b;
    IndexOfIs(s, c, |a|);
    assert s[..|a|] == a && s[|a| + 1..] == b;
  }

  lemma SplitOnce(s: string, c: char, i: nat)
    requires i < |s| && IndexOf(s, c) == i
    ensures Split(s, c) == [s[..i]] + Split(s[i + 1..], c)
  {
  }
}
