/**
 Whether a heredoc body line leaves a template open, answered without lexing HCL
 (deploy/gcp/check_split.py:204-303).
 */
module HclTemplate {
  import opened HclLexer

  // The scanner's count of open braces, as what the lexer is inside of.
  function StackOf(depth: nat): seq<Mode> {
    if depth == 0 then [] else [Expr(depth - 1)]
  }

  ghost predicate Tail(line: Line, i: nat) {
    forall k :: i <= k < |line| ==> Word(line[k]) || line[k] == '<'
  }

  // The scanner at i with this depth has not lost the reading: it stands where the
  // lexer does, or the reading is refused, or the line ends in a heredoc's opener.
  ghost predicate Agrees(line: Line, i: nat, depth: nat) {
    || ReadBody(line) == Lex(Text, line, i, StackOf(depth), false, "")
    || ReadBody(line).verdict.Refused?
    || (ReadBody(line).verdict.Open? && depth > 0 && Tail(line, i))
  }

  // What answering open must mean.
  ghost predicate Unsure(r: Reading) {
    r.verdict.Refused? || r.verdict.Open? || r.verdict.InComment? || r.nested
  }

  // ---------------------------------------------------------------- strings

  // Inside a string, the reading from j is the reading from where the string opened.
  ghost predicate InString(line: Line, i: nat, j: nat, depth: nat) {
    Lex(Text, line, i + 1, StackOf(depth) + [Str], false, "") == Lex(Text, line, j, StackOf(depth) + [Str], false, "")
  }

  lemma StringAt(line: Line, j: nat, depth: nat)
    requires j < |line|
    ensures Lex(Text, line, j, StackOf(depth) + [Str], false, "") == LexString(Text, line, j, StackOf(depth) + [Str], false, "")
  {
  }

  lemma StringEnds(line: Line, j: nat, depth: nat)
    requires Is(line, j, '"')
    ensures Lex(Text, line, j, StackOf(depth) + [Str], false, "") == Lex(Text, line, j + 1, StackOf(depth), false, "")
  {
  }

  // The end of a plain string, from inside it.
  function PlainEnd(line: Line, j: nat): (end: int)
    ensures end == -1 || j < end <= |line|
    decreases |line| - j
  {
    if j >= |line| then -1
    else if line[j] == '"' then j + 1
    else if line[j] == '\\' then PlainEnd(line, j + 2)
    else if Escaped(line, j) then PlainEnd(line, j + 3)
    else if Template(line, j) then -1
    else PlainEnd(line, j + 1)
  }

  /** Where the plain string opened at i ends; -1 only for one that holds a template or does not end. */
  method PlainString(line: Line, i: nat, ghost depth: nat) returns (end: int)
    requires Is(line, i, '"')
    ensures end == PlainEnd(line, i + 1)
    ensures var r := Lex(Text, line, i + 1, StackOf(depth) + [Str], false, "");
      if end == -1 then r.verdict.Open? || r.nested else r == Lex(Text, line, end, StackOf(depth), false, "")
  {
    hide Lex, LexString;
    var j := i + 1;
    while j < |line|
      invariant i < j && InString(line, i, j, depth) && PlainEnd(line, i + 1) == PlainEnd(line, j)
    {
      StringAt(line, j, depth);
      if line[j] == '"' {
        StringEnds(line, j, depth);
        return j + 1;
      }
      StringSkips(line, j, depth);
      if line[j] == '\\' {
        j := j + 2;
      } else if Escaped(line, j) {
        j := j + 3;
      } else if Template(line, j) {
        return -1;
      } else {
        j := j + 1;
      }
    }
    PastEnd(line, j, StackOf(depth) + [Str]);
    return -1;
  }

  lemma PastEnd(line: Line, j: nat, stack: seq<Mode>)
    requires j >= |line|
    ensures Lex(Text, line, j, stack, false, "").verdict == if stack == [] then Closed else Open
    ensures !Lex(Text, line, j, stack, false, "").nested
  {
  }

  lemma StringSkips(line: Line, j: nat, depth: nat)
    requires j < |line| && line[j] != '"'
    ensures var s := StackOf(depth) + [Str]; var r := Lex(Text, line, j, s, false, "");
      if line[j] == '\\' then r == Lex(Text, line, j + 2, s, false, "")
      else if Escaped(line, j) then r == Lex(Text, line, j + 3, s, false, "")
      else if Template(line, j) then r.nested
      else r == Lex(Text, line, j + 1, s, false, "")
  {
    var s := StackOf(depth) + [Str];
    if line[j] != '\\' && !Escaped(line, j) && Template(line, j) {
      NestedStays(Text, line, j + 2, s + [Expr(0)], "");
    }
  }

  // ---------------------------------------------------------------- one step

  lemma TextStep(line: Line, i: nat)
    requires Agrees(line, i, 0) && i < |line|
    ensures Escaped(line, i) ==> Agrees(line, i + 3, 0)
    ensures !Escaped(line, i) && Template(line, i) ==> Agrees(line, i + 2, 1)
    ensures !Escaped(line, i) && !Template(line, i) ==> Agrees(line, i + 1, 0)
  {
    assert Lex(Text, line, i, [], false, "") == LexText(line, i, false, "");
  }

  // Two tokens of an expression that the scanner takes at once.
  lemma ExprTemplate(line: Line, i: nat, depth: nat)
    requires Agrees(line, i, depth) && depth > 0 && (Escaped(line, i) || Template(line, i))
    ensures Escaped(line, i) ==> Agrees(line, i + 3, depth)
    ensures !Escaped(line, i) ==> Agrees(line, i + 2, depth + 1)
  {
    hide LexText, LexString, LexStructure;
    var s := StackOf(depth);
    assert Lex(Text, line, i, s, false, "") == LexExpr(Text, line, i, s, false, "");
    if !Escaped(line, i) && line[i] == '%' {
      assert LexExpr(Text, line, i, s, false, "") == Lex(Text, line, i + 1, s, false, "");
      assert Lex(Text, line, i + 1, s, false, "") == LexExpr(Text, line, i + 1, s, false, "");
      assert s[..0] + [Expr(depth)] == StackOf(depth + 1);
    }
  }

  lemma ExprOpens(line: Line, i: nat, depth: nat)
    requires Agrees(line, i, depth) && depth > 0 && i < |line| && !Escaped(line, i) && !Template(line, i)
    ensures LineComment(line, i) ==> Unsure(ReadBody(line))
    ensures Pair(line, i, '/', '*') && CommentEnd(line, i + 2) < 0 ==> Unsure(ReadBody(line))
    ensures Pair(line, i, '/', '*') && CommentEnd(line, i + 2) >= 0 ==> Agrees(line, CommentEnd(line, i + 2) + 2, depth)
  {
    hide LexText, LexString, LexStructure;
    assert Lex(Text, line, i, StackOf(depth), false, "") == LexExpr(Text, line, i, StackOf(depth), false, "");
  }

  lemma ExprString(line: Line, i: nat, depth: nat)
    requires Agrees(line, i, depth) && depth > 0 && Is(line, i, '"')
    ensures ReadBody(line).verdict.Refused? || ReadBody(line) == Lex(Text, line, i + 1, StackOf(depth) + [Str], false, "")
  {
    hide LexText, LexString, LexStructure;
    assert Lex(Text, line, i, StackOf(depth), false, "") == LexExpr(Text, line, i, StackOf(depth), false, "");
  }

  lemma ExprBrace(line: Line, i: nat, depth: nat)
    requires Agrees(line, i, depth) && depth > 0 && i < |line| && (line[i] == '{' || line[i] == '}')
    ensures Agrees(line, i + 1, if line[i] == '{' then depth + 1 else depth - 1)
  {
    hide LexText, LexString, LexStructure;
    var s := StackOf(depth);
    assert Lex(Text, line, i, s, false, "") == LexExpr(Text, line, i, s, false, "");
    assert s[..0] == [] && s[..0] + [Expr(depth)] == [Expr(depth)];
    if depth > 1 { assert s[..0] + [Expr(depth - 2)] == [Expr(depth - 2)]; }
  }

  lemma ExprSkips(line: Line, i: nat, depth: nat)
    requires Agrees(line, i, depth) && depth > 0 && i < |line| && !Escaped(line, i) && !Template(line, i)
    requires !LineComment(line, i) && !Pair(line, i, '/', '*') && line[i] !in "\"{}"
    ensures Agrees(line, i + 1, depth)
  {
    hide LexText, LexString, LexStructure;
    assert Lex(Text, line, i, StackOf(depth), false, "") == LexExpr(Text, line, i, StackOf(depth), false, "");
  }

  // The scanner's answer from i on.
  function OpenFrom(line: Line, i: nat, depth: nat): bool
    decreases |line| - i
  {
    if i >= |line| then depth > 0
    else if Escaped(line, i) then OpenFrom(line, i + 3, depth)
    else if Template(line, i) then OpenFrom(line, i + 2, depth + 1)
    else if depth == 0 then OpenFrom(line, i + 1, 0)
    else if LineComment(line, i) then true
    else if Pair(line, i, '/', '*') then
      CommentEnd(line, i + 2) < 0 || OpenFrom(line, CommentEnd(line, i + 2) + 2, depth)
    else if line[i] == '"' then
      PlainEnd(line, i + 1) < 0 || OpenFrom(line, PlainEnd(line, i + 1), depth)
    else OpenFrom(line, i + 1, depth + Brace(line[i]))
  }

  /**
   Conservative, and exactly so: over a line Terraform might take, the scanner
   answers open if a template or a comment in one is left open, or if some
   string held a template of its own, and in no other case.
   */
  method OpenTemplate(line: Line) returns (open: bool)
    ensures ReadBody(line).verdict.Refused? || (open <==> Unsure(ReadBody(line)))
    ensures !open ==> ReadBody(line).verdict.Closed? || ReadBody(line).verdict.Refused?
    ensures open == OpenFrom(line, 0, 0)
  {
    hide Lex, Agrees, ReadBody, CommentEnd, Escaped, Template, LineComment, PlainEnd;
    var depth, i := 0, 0;
    Start(line);
    while i < |line|
      invariant Agrees(line, i, depth) && OpenFrom(line, 0, 0) == OpenFrom(line, i, depth)
      decreases |line| - i
    {
      if depth == 0 { TextStep(line, i); }
      if Escaped(line, i) {
        if depth > 0 { ExprTemplate(line, i, depth); }
        i := i + 3;
      } else if Template(line, i) {
        if depth > 0 { ExprTemplate(line, i, depth); }
        depth, i := depth + 1, i + 2;
      } else if depth == 0 {
        i := i + 1;
      } else {
        ExprOpens(line, i, depth);
        if LineComment(line, i) { return true; }
        if Pair(line, i, '/', '*') {
          var end := CommentEnd(line, i + 2);
          if end < 0 { return true; }
          i := end + 2;
        } else if line[i] == '"' {
          ExprString(line, i, depth);
          var end := PlainString(line, i, depth);
          StringResult(line, i, depth, end);
          if end < 0 { return true; }
          i := end;
        } else {
          if line[i] == '{' || line[i] == '}' { ExprBrace(line, i, depth); } else { ExprSkips(line, i, depth); }
          if line[i] == '{' { depth := depth + 1; } else if line[i] == '}' { depth := depth - 1; }
          i := i + 1;
        }
      }
    }
    Finish(line, i, depth);
    return depth > 0;
  }

  lemma Start(line: Line)
    ensures Agrees(line, 0, 0)
  {
  }

  lemma StringResult(line: Line, i: nat, depth: nat, end: int)
    requires ReadBody(line).verdict.Refused? || ReadBody(line) == Lex(Text, line, i + 1, StackOf(depth) + [Str], false, "")
    requires end == -1 || i < end <= |line|
    requires var r := Lex(Text, line, i + 1, StackOf(depth) + [Str], false, "");
      if end == -1 then r.verdict.Open? || r.nested else r == Lex(Text, line, end, StackOf(depth), false, "")
    ensures end == -1 ==> Unsure(ReadBody(line))
    ensures end >= 0 ==> Agrees(line, end, depth)
  {
  }

  lemma Finish(line: Line, i: nat, depth: nat)
    requires Agrees(line, i, depth) && i >= |line|
    ensures ReadBody(line).verdict.Refused? || (depth > 0 <==> Unsure(ReadBody(line)))
  {
  }

  const Percents: Line := "${ 1 %%{ }"

  lemma PercentsScanned()
    ensures !OpenFrom(Percents, 0, 0)
  {
    hide Lex, PlainEnd, CommentEnd;
    var line := Percents;
    assert OpenFrom(line, 8, 1) == OpenFrom(line, 9, 1) == OpenFrom(line, 10, 0) == false;
    assert OpenFrom(line, 5, 1) == OpenFrom(line, 8, 1);
    assert OpenFrom(line, 2, 1) == OpenFrom(line, 3, 1) == OpenFrom(line, 4, 1) == OpenFrom(line, 5, 1);
    assert OpenFrom(line, 0, 0) == OpenFrom(line, 2, 1);
  }

  // One character of an expression that opens and closes nothing.
  lemma ExprStep(line: Line, i: nat, b: nat)
    requires i < |line| && line[i] !in "$\\%</#\"{}"
    ensures Lex(Text, line, i, [Expr(b)], false, "") == Lex(Text, line, i + 1, [Expr(b)], false, "")
  {
    assert Lex(Text, line, i, [Expr(b)], false, "") == LexExpr(Text, line, i, [Expr(b)], false, "");
  }

  lemma PercentsStop()
    ensures Lex(Text, Percents, 5, [Expr(0)], false, "").verdict == Refused
  {
    hide OpenFrom, LexString, LexStructure, LexText, CommentEnd;
    assert Lex(Text, Percents, 5, [Expr(0)], false, "") == LexExpr(Text, Percents, 5, [Expr(0)], false, "");
  }

  lemma PercentsOpen()
    ensures ReadBody(Percents) == Lex(Text, Percents, 2, [Expr(0)], false, "")
  {
    hide OpenFrom, LexString, LexStructure, LexExpr, CommentEnd;
    assert ReadBody(Percents) == LexText(Percents, 0, false, "");
  }

  lemma PercentsRefused()
    ensures ReadBody(Percents).verdict == Refused
  {
    hide Lex, ReadBody;
    PercentsOpen();
    ExprStep(Percents, 2, 0);
    ExprStep(Percents, 3, 0);
    ExprStep(Percents, 4, 0);
    PercentsStop();
  }

  lemma PercentsReadOn()
    ensures Lex(Text, Percents, 7, [Expr(0)], false, "").verdict == Open
  {
    hide OpenFrom, LexString, LexStructure, LexText, CommentEnd;
    var line := Percents;
    assert [Expr(0)][..0] + [Expr(1)] == [Expr(1)] && [Expr(1)][..0] + [Expr(0)] == [Expr(0)];
    assert Lex(Text, line, 7, [Expr(0)], false, "") == LexExpr(Text, line, 7, [Expr(0)], false, "") == Lex(Text, line, 8, [Expr(1)], false, "");
    assert Lex(Text, line, 9, [Expr(1)], false, "") == LexExpr(Text, line, 9, [Expr(1)], false, "") == Lex(Text, line, 10, [Expr(0)], false, "");
    hide LexExpr;
    ExprStep(line, 8, 1);
  }

  /**
   Skipping `%%{` inside an expression is safe only because Terraform takes no
   such line: the scanner answers closed over this one, and a lexer that read
   `%%` as two operators and went on behind them would leave its template open.
   */
  lemma DoubledPercent()
    ensures !OpenFrom(Percents, 0, 0)
    ensures ReadBody(Percents).verdict == Refused
    ensures Pair(Percents, 5, '%', '%') && Lex(Text, Percents, 7, [Expr(0)], false, "").verdict == Open
  {
    hide Lex, OpenFrom, ReadBody;
    PercentsScanned();
    PercentsRefused();
    PercentsReadOn();
  }
}
