/**
 HCL as Terraform lexes one line: strings, the templates nested in them, the
 expressions nested in those, and comments. The reference the guard's scanners
 are held to.
 */
module HclLexer {
  type Line = string

  // Python's line[i], for an index that may be past the end.
  predicate Is(line: Line, i: int, c: char) {
    0 <= i < |line| && line[i] == c
  }

  predicate Pair(line: Line, i: int, c: char, d: char) {
    Is(line, i, c) && Is(line, i + 1, d)
  }

  // `$${` and `%%{` are literal text.
  predicate Escaped(line: Line, i: int) {
    (Pair(line, i, '$', '$') || Pair(line, i, '%', '%')) && Is(line, i + 2, '{')
  }

  // `${` and `%{` open a template.
  predicate Template(line: Line, i: int) {
    (Is(line, i, '$') || Is(line, i, '%')) && Is(line, i + 1, '{')
  }

  predicate LineComment(line: Line, i: int) {
    Is(line, i, '#') || Pair(line, i, '/', '/')
  }

  // line.find("*/", i)
  function CommentEnd(line: Line, i: nat): (e: int)
    ensures e == -1 || (i <= e && e + 2 <= |line| && Pair(line, e, '*', '/'))
    decreases |line| - i
  {
    if i >= |line| then -1 else if Pair(line, i, '*', '/') then i else CommentEnd(line, i + 1)
  }

  predicate Word(c: char) {
    'a' <= c <= 'z' || 'A' <= c <= 'Z' || '0' <= c <= '9' || c == '_' || c == '-'
  }

  // What may end a line behind `<<`: a heredoc's tag and nothing else.
  predicate TagOnly(line: Line, i: nat) {
    i < |line| && forall k :: i <= k < |line| ==> Word(line[k])
  }

  // What the lexer is inside of: an expression with its open braces, or a quoted string.
  datatype Mode = Expr(braces: nat) | Str

  // Where a line starts: in a heredoc's template text, or among the file's structure.
  datatype Base = Text | Structure

  /**
   Closed: every string and template opened on the line is closed on it.
   Open: one is not. InComment: a block comment is not. Refused: Terraform
   takes no file with this line.
   */
  datatype Verdict = Closed | Open | InComment | Refused

  // nested: some string held a template. code: the line's structure, each string
  // standing as its two quotes. end: where a line comment starts, or the line's end.
  datatype Reading = Reading(verdict: Verdict, nested: bool, code: string, end: nat)

  function End(line: Line, stack: seq<Mode>, nested: bool, code: string): Reading {
    Reading(if stack == [] then Closed else Open, nested, code, |line|)
  }

  function Lex(base: Base, line: Line, i: nat, stack: seq<Mode>, nested: bool, code: string): Reading
    decreases |line| - i
  {
    if i >= |line| then End(line, stack, nested, code)
    else if stack == [] then
      if base.Text? then LexText(line, i, nested, code) else LexStructure(line, i, nested, code)
    else if stack[|stack| - 1].Str? then LexString(base, line, i, stack, nested, code)
    else LexExpr(base, line, i, stack, nested, code)
  }

  function LexText(line: Line, i: nat, nested: bool, code: string): Reading
    requires i < |line|
    decreases |line| - i, 0
  {
    if Escaped(line, i) then Lex(Text, line, i + 3, [], nested, code)
    else if Template(line, i) then Lex(Text, line, i + 2, [Expr(0)], nested, code)
    else Lex(Text, line, i + 1, [], nested, code)
  }

  function LexStructure(line: Line, i: nat, nested: bool, code: string): Reading
    requires i < |line|
    decreases |line| - i, 0
  {
    if LineComment(line, i) then Reading(Closed, nested, code, i)
    else if Pair(line, i, '/', '*') then
      var e := CommentEnd(line, i + 2);
      if e < 0 then Reading(InComment, nested, code, i) else Lex(Structure, line, e + 2, [], nested, code)
    else Lex(Structure, line, i + 1, if line[i] == '"' then [Str] else [], nested, code + [line[i]])
  }

  function Brace(c: char): int {
    if c == '{' then 1 else if c == '}' then -1 else 0
  }

  function LexString(base: Base, line: Line, i: nat, stack: seq<Mode>, nested: bool, code: string): Reading
    requires i < |line| && stack != []
    decreases |line| - i, 0
  {
    if line[i] == '"' then
      Lex(base, line, i + 1, stack[..|stack| - 1], nested, if base.Structure? && |stack| == 1 then code + ['"'] else code)
    else if line[i] == '\\' then Lex(base, line, i + 2, stack, nested, code)
    else if Escaped(line, i) then Lex(base, line, i + 3, stack, nested, code)
    else if Template(line, i) then Lex(base, line, i + 2, stack + [Expr(0)], true, code)
    else Lex(base, line, i + 1, stack, nested, code)
  }

  // `$` and `\` are no tokens of an expression, two `%` in a row are none either,
  // and a heredoc's opener ends its line.
  function LexExpr(base: Base, line: Line, i: nat, stack: seq<Mode>, nested: bool, code: string): Reading
    requires i < |line| && stack != [] && stack[|stack| - 1].Expr?
    decreases |line| - i, 0
  {
    var below, b := stack[..|stack| - 1], stack[|stack| - 1].braces;
    if line[i] == '$' || line[i] == '\\' || Pair(line, i, '%', '%') then Reading(Refused, nested, code, i)
    else if Pair(line, i, '<', '<') then
      Reading(if TagOnly(line, i + 2) then Open else Refused, nested, code, i)
    else if LineComment(line, i) then Reading(Open, nested, code, i)
    else if Pair(line, i, '/', '*') then
      var e := CommentEnd(line, i + 2);
      if e < 0 then Reading(InComment, nested, code, i) else Lex(base, line, e + 2, stack, nested, code)
    else if line[i] == '"' then Lex(base, line, i + 1, stack + [Str], nested, code)
    else if line[i] == '{' then Lex(base, line, i + 1, below + [Expr(b + 1)], nested, code)
    else if line[i] == '}' then Lex(base, line, i + 1, if b == 0 then below else below + [Expr(b - 1)], nested, code)
    else Lex(base, line, i + 1, stack, nested, code)
  }

  // A heredoc body's line, and a line of configuration.
  function ReadBody(line: Line): Reading {
    Lex(Text, line, 0, [], false, "")
  }

  function ReadCode(line: Line): Reading {
    Lex(Structure, line, 0, [], false, "")
  }

  // Once a string has held a template, the reading says so.
  lemma {:induction false} NestedStays(base: Base, line: Line, i: nat, stack: seq<Mode>, code: string)
    ensures Lex(base, line, i, stack, true, code).nested
    decreases |line| - i
  {
    if i < |line| {
      forall j: nat, s, b | j > i ensures Lex(base, line, j, s, true, b).nested {
        NestedStays(base, line, j, s, b);
      }
      if stack == [] {
        if base.Text? { assert LexText(line, i, true, code).nested; }
        else { assert LexStructure(line, i, true, code).nested; }
      } else if stack[|stack| - 1].Str? {
        assert LexString(base, line, i, stack, true, code).nested;
      } else {
        assert LexExpr(base, line, i, stack, true, code).nested;
      }
    }
  }
}
