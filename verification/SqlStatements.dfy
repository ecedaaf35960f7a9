/** `statementsOf` of `backend/src/database/tenant-init.ts`: cutting a migration file into statements. */
module SqlStatements {
  import opened Sequences
  import opened Text

  // ----- The code -----

  predicate HasDollars(sql: string) {
    exists i :: 0 <= i < |sql| - 1 && sql[i] == '$' && sql[i + 1] == '$'
  }

  predicate IsComment(line: string) {
    StartsWith(Trim(line), "--")
  }

  function WithoutComments(lines: seq<string>): seq<string> {
    if lines == [] then []
    else (if IsComment(lines[0]) then [] else [lines[0]]) + WithoutComments(lines[1..])
  }

  function Uncommented(sql: string): string {
    Join(WithoutComments(Split(sql, '\n')), "\n")
  }

  /** `.map(trim).filter(Boolean)` */
  function TrimAll(parts: seq<string>): seq<string> {
    if parts == [] then []
    else
      var s := Trim(parts[0]);
      (if s != "" then [s] else []) + TrimAll(parts[1..])
  }

  function CutAtSemicolons(text: string): seq<string> {
    TrimAll(Split(text, ';'))
  }

  function StatementsOf(sql: string): seq<string> {
    if HasDollars(sql) then [sql] else CutAtSemicolons(Uncommented(sql))
  }

  // ----- What it means for a text to consist of statements -----

  predicate IsGapChar(c: char) {
    IsSpace(c) || c == ';'
  }

  ghost predicate Gap(s: string) {
    forall i :: 0 <= i < |s| ==> IsGapChar(s[i])
  }

  ghost predicate IsStatement(s: string) {
    s != "" && Trimmed(s) && forall i :: 0 <= i < |s| ==> s[i] != ';'
  }

  /**
   `text` is the statements `ss` in order, each followed by white space and a semicolon (which the last
   one may lack), with nothing but white space and semicolons before, between and after them.
  */
  ghost predicate Reads(text: string, ss: seq<string>)
    decreases |ss|, 1
  {
    if ss == [] then Gap(text)
    else
      exists i, j :: 0 <= i <= j <= |text| && Gap(text[..i]) && text[i..j] == ss[0] && IsStatement(ss[0])
        && Ends(text[j..], ss[1..])
  }

  ghost predicate Ends(rest: string, ss: seq<string>)
    decreases |ss|, 2
  {
    || (ss == [] && Blank(rest))
    || exists k :: 0 <= k < |rest| && Blank(rest[..k]) && rest[k] == ';' && Reads(rest[k + 1..], ss)
  }

  lemma GapBefore(g: string, text: string, ss: seq<string>)
    requires Gap(g) && Reads(text, ss)
    ensures Reads(g + text, ss)
  {
    hide Ends, IsStatement;
    if ss != [] {
      var i, j :| 0 <= i <= j <= |text| && Gap(text[..i]) && text[i..j] == ss[0] && IsStatement(ss[0])
        && Ends(text[j..], ss[1..]);
      var t, n := g + text, |g|;
      assert t[..n + i] == g + text[..i];
      assert t[n + i..n + j] == text[i..j];
      assert t[n + j..] == text[j..];
    }
  }

  lemma CutOnce(text: string, i: nat)
    requires i < |text| && IndexOf(text, ';') == i
    ensures CutAtSemicolons(text) == TrimAll([text[..i]]) + CutAtSemicolons(text[i + 1..])
  {
    SplitOnce(text, ';', i);
    TrimAllFirst(text[..i], Split(text[i + 1..], ';'));
  }

  lemma TrimAllFirst(part: string, parts: seq<string>)
    ensures TrimAll([part] + parts) == TrimAll([part]) + TrimAll(parts)
  {
    assert ([part] + parts)[1..] == parts;
    assert [part][1..] == [];
  }

  lemma CutLast(text: string)
    requires IndexOf(text, ';') == |text|
    ensures CutAtSemicolons(text) == TrimAll([text])
  {
  }

  lemma BlankWithoutCore(text: string)
    requires Trim(text) == ""
    ensures Blank(text)
  {
    var i, j := TrimSplits(text);
    assert i == j;
    assert text == text[..i] + text[j..];
  }

  lemma ReadsBy(text: string, i: nat, j: nat, ss: seq<string>)
    requires ss != [] && i <= j <= |text|
    requires Gap(text[..i]) && text[i..j] == ss[0] && IsStatement(ss[0]) && Ends(text[j..], ss[1..])
    ensures Reads(text, ss)
  {
  }

  lemma EndsBy(rest: string, k: nat, ss: seq<string>)
    requires k < |rest| && Blank(rest[..k]) && rest[k] == ';' && Reads(rest[k + 1..], ss)
    ensures Ends(rest, ss)
  {
  }

  lemma LastEnds(rest: string)
    requires Blank(rest)
    ensures Ends(rest, [])
  {
  }

  /** What is cut out reads as the text it was cut from. */
  lemma {:induction false} CutReads(text: string)
    ensures Reads(text, CutAtSemicolons(text))
    decreases |text|
  {
    var n := IndexOf(text, ';');
    if n == |text| {
      LastPieceReads(text);
    } else {
      CutReads(text[n + 1..]);
      PieceReads(text, n, CutAtSemicolons(text[n + 1..]));
      CutOnce(text, n);
    }
  }

  lemma LastPieceReads(text: string)
    requires IndexOf(text, ';') == |text|
    ensures Reads(text, CutAtSemicolons(text))
  {
    hide Ends, CutAtSemicolons, Trim, IndexOf;
    CutLast(text);
    if Trim(text) == "" {
      BlankWithoutCore(text);
    } else {
      var i, j := TrimSplits(text);
      LastEnds(text[j..]);
      ReadsBy(text, i, j, [Trim(text)]);
    }
  }

  lemma SlicesOfPrefix(text: string, i: nat, j: nat, n: nat)
    requires i <= j <= n < |text|
    ensures text[..n][..i] == text[..i]
    ensures text[..n][i..j] == text[i..j]
    ensures text[..n][j..] == text[j..][..n - j]
    ensures text[j..][n - j + 1..] == text[n + 1..]
  {
  }

  lemma PieceReads(text: string, n: nat, ss: seq<string>)
    requires n == IndexOf(text, ';') && n < |text| && Reads(text[n + 1..], ss)
    ensures Reads(text, TrimAll([text[..n]]) + ss)
  {
    hide Reads, Ends, Trim, IndexOf;
    var piece := text[..n];
    if Trim(piece) == "" {
      BlankWithoutCore(piece);
      assert Gap(text[..n + 1]);
      GapBefore(text[..n + 1], text[n + 1..], ss);
      assert text == text[..n + 1] + text[n + 1..];
      assert TrimAll([piece]) + ss == ss;
    } else {
      var i, j := TrimSplits(piece);
      SlicesOfPrefix(text, i, j, n);
      EndsBy(text[j..], n - j, ss);
      assert (TrimAll([piece]) + ss)[1..] == ss;
      ReadsBy(text, i, j, TrimAll([piece]) + ss);
    }
  }

  lemma DropGapChar(text: string)
    requires text != "" && IsGapChar(text[0])
    ensures CutAtSemicolons(text) == CutAtSemicolons(text[1..])
  {
    var n := IndexOf(text, ';');
    if text[0] == ';' {
      CutOnce(text, 0);
    } else {
      var m := IndexOf(text[1..], ';');
      assert n == m + 1;
      assert text[..n][1..] == text[1..][..m];
      if n < |text| {
        CutOnce(text, n);
        CutOnce(text[1..], m);
        assert text[1..][m + 1..] == text[n + 1..];
      } else {
        CutLast(text);
        CutLast(text[1..]);
        assert text[..n] == text && text[1..][..m] == text[1..];
      }
    }
  }

  lemma ReadsCases(text: string, ss: seq<string>) returns (i: nat, j: nat)
    requires Reads(text, ss) && ss != []
    ensures i <= j <= |text|
    ensures Gap(text[..i]) && text[i..j] == ss[0] && IsStatement(ss[0]) && Ends(text[j..], ss[1..])
  {
    hide Ends;
    i, j :| 0 <= i <= j <= |text| && Gap(text[..i]) && text[i..j] == ss[0] && IsStatement(ss[0])
      && Ends(text[j..], ss[1..]);
  }

  lemma SlicesOfRest(text: string, i: nat, j: nat)
    requires 0 < i <= j <= |text|
    ensures text[..i][0] == text[0]
    ensures text[1..][..i - 1] == text[..i][1..]
    ensures text[1..][i - 1..j - 1] == text[i..j]
    ensures text[1..][j - 1..] == text[j..]
  {
  }

  lemma DropGapCharReads(text: string, ss: seq<string>, i: nat, j: nat)
    requires ss != [] && 0 < i <= j <= |text|
    requires Gap(text[..i]) && text[i..j] == ss[0] && IsStatement(ss[0]) && Ends(text[j..], ss[1..])
    ensures IsGapChar(text[0]) && Reads(text[1..], ss)
  {
    hide Reads, Ends, IsStatement;
    var t := text[1..];
    SlicesOfRest(text, i, j);
    ReadsBy(t, i - 1, j - 1, ss);
  }

  lemma AllGap(text: string)
    requires Reads(text, []) && text != ""
    ensures IsGapChar(text[0]) && Reads(text[1..], [])
  {
  }

  lemma NothingToCut()
    ensures CutAtSemicolons("") == []
  {
  }

  /** No other list of statements reads as the text. */
  lemma {:induction false} ReadingIsUnique(text: string, ss: seq<string>)
    requires Reads(text, ss)
    ensures ss == CutAtSemicolons(text)
    decreases |text|
  {
    hide CutAtSemicolons, Reads, Ends, IsStatement, Blank;
    if ss == [] && text == "" {
      NothingToCut();
    } else if ss == [] {
      AllGap(text);
      DropGapChar(text);
      ReadingIsUnique(text[1..], []);
    } else {
      var i, j := ReadsCases(text, ss);
      if i > 0 {
        DropGapCharReads(text, ss, i, j);
        DropGapChar(text);
        ReadingIsUnique(text[1..], ss);
      } else {
        assert ss == [ss[0]] + ss[1..];
        assert text[0..j] == text[..j];
        var last, k := EndsCases(text[j..], ss[1..]);
        if last {
          LastStatement(text, j);
        } else {
          FirstStatement(text, j, k);
          assert text[j..][k + 1..] == text[j + k + 1..];
          ReadingIsUnique(text[j + k + 1..], ss[1..]);
        }
      }
    }
  }

  lemma EndsCases(rest: string, ss: seq<string>) returns (last: bool, k: nat)
    requires Ends(rest, ss)
    ensures last ==> ss == [] && Blank(rest)
    ensures !last ==> k < |rest| && Blank(rest[..k]) && rest[k] == ';' && Reads(rest[k + 1..], ss)
  {
    hide Reads;
    last, k := ss == [] && Blank(rest), 0;
    if !last {
      k :| 0 <= k < |rest| && Blank(rest[..k]) && rest[k] == ';' && Reads(rest[k + 1..], ss);
    }
  }

  lemma FirstStatement(text: string, j: nat, k: nat)
    requires j + k < |text| && IsStatement(text[..j]) && Blank(text[j..][..k]) && text[j + k] == ';'
    ensures CutAtSemicolons(text) == [text[..j]] + CutAtSemicolons(text[j + k + 1..])
  {
    hide CutAtSemicolons, Trim, Trimmed, IndexOf;
    var pad := text[j..][..k];
    assert text[..j + k] == "" + text[..j] + pad;
    forall m | 0 <= m < j + k ensures text[m] != ';' {
      assert text[m] == if m < j then text[..j][m] else pad[m - j];
    }
    IndexOfIs(text, ';', j + k);
    TrimOfPadded("", text[..j], pad);
    CutOnce(text, j + k);
  }

  lemma LastStatement(text: string, j: nat)
    requires j <= |text| && IsStatement(text[..j]) && Blank(text[j..])
    ensures CutAtSemicolons(text) == [text[..j]]
  {
    var pad := text[j..];
    assert text == "" + text[..j] + pad;
    forall m | 0 <= m < |text| ensures text[m] != ';' {
      assert text[m] == if m < j then text[..j][m] else pad[m - j];
    }
    IndexOfIs(text, ';', |text|);
    TrimOfPadded("", text[..j], pad);
    CutLast(text);
  }

  /**
   For a file without `$$`, the statements are the one list its uncommented text reads as: none is blank
   or contains a semicolon, and only comment lines, semicolons and surrounding white space are lost.
  */
  lemma {:induction false} StatementsAreExact(sql: string, ss: seq<string>)
    requires !HasDollars(sql)
    ensures Reads(Uncommented(sql), ss) <==> ss == StatementsOf(sql)
  {
    CutReads(Uncommented(sql));
    if Reads(Uncommented(sql), ss) {
      ReadingIsUnique(Uncommented(sql), ss);
    }
  }

  /** A file with a function body, between double dollar signs, is one statement: the file as it is. */
  lemma {:induction false} FunctionBodiesStayWhole(before: string, after: string)
    ensures StatementsOf(before + "$$" + after) == [before + "$$" + after]
  {
    var sql := before + "$$" + after;
    assert sql[|before|] == '$' && sql[|before| + 1] == '$';
  }

  lemma {:induction false} DollarsExactly(sql: string)
    ensures HasDollars(sql) <==> exists before, after :: sql == before + "$$" + after
  {
    if i :| 0 <= i < |sql| - 1 && sql[i] == '$' && sql[i + 1] == '$' {
      assert sql == sql[..i] + "$$" + sql[i + 2..];
    }
    forall before, after | sql == before + "$$" + after ensures HasDollars(sql) {
      var i := |before|;
      assert i < |sql| - 1 && sql[i] == '$' && sql[i + 1] == '$';
    }
  }

  /** A comment line begins with two dashes after any white space. */
  lemma {:induction false} CommentsExactly(line: string)
    ensures IsComment(line) <==>
      exists i :: 0 <= i < |line| - 1 && Blank(line[..i]) && line[i] == '-' && line[i + 1] == '-'
  {
    var a, b := TrimSplits(line);
    if IsComment(line) {
      assert line[a..b][0] == '-' && line[a..b][1] == '-';
    }
    if i :| 0 <= i < |line| - 1 && Blank(line[..i]) && line[i] == '-' && line[i + 1] == '-' {
      assert forall k :: 0 <= k < i ==> IsSpace(line[..i][k]) && line[..i][k] == line[k];
      assert a == i && i + 1 < b;
    }
  }

  lemma WithoutCommentsFirst(line: string, lines: seq<string>)
    ensures WithoutComments([line] + lines) == (if IsComment(line) then [] else [line]) + WithoutComments(lines)
  {
    assert ([line] + lines)[1..] == lines;
  }

  lemma ConsConcat(a: seq<string>, b: seq<string>)
    requires a != []
    ensures a == [a[0]] + a[1..] && a + b == [a[0]] + (a[1..] + b)
  {
  }

  lemma {:induction false} WithoutCommentsConcat(a: seq<string>, b: seq<string>)
    ensures WithoutComments(a + b) == WithoutComments(a) + WithoutComments(b)
  {
    if a == [] {
      assert a + b == b;
    } else {
      hide WithoutComments, IsComment;
      WithoutCommentsConcat(a[1..], b);
      ConsConcat(a, b);
      WithoutCommentsFirst(a[0], a[1..]);
      WithoutCommentsFirst(a[0], a[1..] + b);
      var first := if IsComment(a[0]) then [] else [a[0]];
      Regroup(first, WithoutComments(a[1..]), WithoutComments(b), []);
    }
  }

  /** Taking a comment line out from between two lines changes nothing. */
  lemma {:induction false} CommentLinesDoNotMatter(before: string, comment: string, after: string)
    requires IsComment(comment) && forall i :: 0 <= i < |comment| ==> comment[i] != '\n'
    ensures Uncommented(before + "\n" + comment + "\n" + after) == Uncommented(before + "\n" + after)
  {
    OneLine(comment);
    hide Split, WithoutComments, IsComment, Join;
    assert "\n" == ['\n'];
    var a, c, b := Split(before, '\n'), Split(comment, '\n'), Split(after, '\n');
    SplitConcat(before, '\n', after);
    SplitConcat(before + "\n" + comment, '\n', after);
    SplitConcat(before, '\n', comment);
    WithoutCommentsConcat(a, b);
    WithoutCommentsConcat(a + c, b);
    WithoutCommentsConcat(a, c);
    assert WithoutComments(a) + [] == WithoutComments(a);
  }

  lemma OneLine(comment: string)
    requires IsComment(comment) && forall i :: 0 <= i < |comment| ==> comment[i] != '\n'
    ensures WithoutComments(Split(comment, '\n')) == []
  {
    IndexOfIs(comment, '\n', |comment|);
    assert [comment][1..] == [];
  }

  // ----- Round trip -----

  function Print(ss: seq<string>): string {
    Join(ss, ";\n")
  }

  ghost predicate NoCommentLines(s: string) {
    var lines := Split(s, '\n');
    forall k :: 0 <= k < |lines| ==> !IsComment(lines[k])
  }

  /** A statement that survives printing: no comment line and no function body inside. */
  ghost predicate IsPlain(s: string) {
    IsStatement(s) && !HasDollars(s) && NoCommentLines(s)
  }

  lemma {:induction false} NothingToRemove(lines: seq<string>)
    requires forall k :: 0 <= k < |lines| ==> !IsComment(lines[k])
    ensures WithoutComments(lines) == lines
  {
    if lines != [] {
      NothingToRemove(lines[1..]);
    }
  }

  /** Text without comment lines stays as it is. */
  lemma OtherLinesStay(sql: string)
    requires NoCommentLines(sql)
    ensures Uncommented(sql) == sql
  {
    assert "\n" == ['\n'];
    NothingToRemove(Split(sql, '\n'));
    JoinOfSplit(sql, '\n');
  }

  lemma CommentIgnoresSemicolon(line: string)
    requires IsComment(line + ";")
    ensures IsComment(line)
  {
    var i, j := TrimSplits(line + ";");
    var core := (line + ";")[i..j];
    assert core[0] == '-' && core[1] == '-';
    // the line itself begins with the same blanks and dashes, whatever its end
    assert (line + ";")[i] == core[0] && (line + ";")[i + 1] == core[1];
    assert i + 1 < |line|;
    assert line[i] == '-' && line[i + 1] == '-';
    var a, b := TrimSplits(line);
    assert forall k :: 0 <= k < i ==> (line + ";")[k] == line[k];
    assert a == i && i + 1 < b;
  }

  // What follows takes the text apart at its line ends.

  lemma {:induction false} LastLine(s: string)
    ensures var lines := Split(s, '\n');
      Split(s + ";", '\n') == lines[..|lines| - 1] + [lines[|lines| - 1] + ";"]
    decreases |s|
  {
    hide Split;
    var i := IndexOf(s, '\n');
    if i == |s| {
      IndexOfIs(s + ";", '\n', |s| + 1);
      WholeLine(s);
      WholeLine(s + ";");
    } else {
      IndexOfIs(s + ";", '\n', i);
      SplitOnce(s, '\n', i);
      SplitOnce(s + ";", '\n', i);
      LastLine(s[i + 1..]);
      assert (s + ";")[..i] == s[..i];
      assert (s + ";")[i + 1..] == s[i + 1..] + ";";
      assert |Split(s[i + 1..], '\n')| > 0;
    }
  }

  lemma WholeLine(s: string)
    requires IndexOf(s, '\n') == |s|
    ensures Split(s, '\n') == [s]
  {
  }

  lemma PlainLines(s: string)
    requires NoCommentLines(s)
    ensures NoCommentLines(s + ";")
  {
    var lines, lines' := Split(s, '\n'), Split(s + ";", '\n');
    LastLine(s);
    forall k | 0 <= k < |lines'| ensures !IsComment(lines'[k]) {
      if k == |lines| - 1 && IsComment(lines'[k]) {
        CommentIgnoresSemicolon(lines[k]);
      }
    }
  }

  lemma PrintCons(ss: seq<string>)
    requires |ss| > 1
    ensures Print(ss) == (ss[0] + ";") + ['\n'] + Print(ss[1..])
  {
    assert ";\n" == ";" + ['\n'];
  }

  lemma {:induction false} PrintedLines(ss: seq<string>)
    requires forall k :: 0 <= k < |ss| ==> NoCommentLines(ss[k])
    ensures NoCommentLines(Print(ss))
  {
    if ss == [] {
      WholeLine("");
    } else if |ss| > 1 {
      PrintedLines(ss[1..]);
      PlainLines(ss[0]);
      PrintCons(ss);
      SplitConcat(ss[0] + ";", '\n', Print(ss[1..]));
    }
  }

  lemma {:induction false} PrintedDollars(ss: seq<string>)
    requires forall k :: 0 <= k < |ss| ==> !HasDollars(ss[k])
    ensures !HasDollars(Print(ss))
  {
    if |ss| > 1 {
      PrintedDollars(ss[1..]);
      PrintCons(ss);
      var s, a, b := Print(ss), ss[0], Print(ss[1..]);
      forall i | 0 <= i < |s| - 1 ensures !(s[i] == '$' && s[i + 1] == '$') {
        if i + 1 < |a| { assert s[i] == a[i] && s[i + 1] == a[i + 1]; }
        if |a| + 2 <= i { assert s[i] == b[i - |a| - 2] && s[i + 1] == b[i - |a| - 1]; }
      }
    }
  }

  lemma {:induction false} PrintedReads(ss: seq<string>)
    requires forall k :: 0 <= k < |ss| ==> IsStatement(ss[k])
    ensures Reads(Print(ss), ss)
  {
    hide Reads, Ends;
    if ss == [] {
      NoStatements();
    } else if |ss| == 1 {
      assert Print(ss) == ss[0];
      LastEnds("");
      assert ss[0][|ss[0]|..] == "" && ss[1..] == [];
      ReadsBy(ss[0], 0, |ss[0]|, ss);
    } else {
      PrintedReads(ss[1..]);
      PrintCons(ss);
      var t, n := Print(ss), |ss[0]|;
      GapBefore("\n", Print(ss[1..]), ss[1..]);
      assert t[n..][1..] == "\n" + Print(ss[1..]);
      EndsBy(t[n..], 0, ss[1..]);
      ReadsBy(t, 0, n, ss);
    }
  }

  lemma NoStatements()
    ensures Reads("", [])
  {
  }

  /** Printing any list of plain statements and cutting the result gives the list back. */
  lemma {:induction false} StatementsOfPrint(ss: seq<string>)
    requires forall k :: 0 <= k < |ss| ==> IsPlain(ss[k])
    ensures StatementsOf(Print(ss)) == ss
  {
    hide Reads, CutAtSemicolons, Print, IsStatement;
    PrintedDollars(ss);
    PrintedLines(ss);
    NothingToRemove(Split(Print(ss), '\n'));
    JoinOfSplit(Print(ss), '\n');
    assert Uncommented(Print(ss)) == Print(ss);
    PrintedReads(ss);
    StatementsAreExact(Print(ss), ss);
  }
}
