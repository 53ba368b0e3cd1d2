/**
 Dropping a line's comments and blunting its strings, so that what braces are
 left are the file's (deploy/gcp/check_split.py:306-475).
 */
module HclScrub {
  import opened HclLexer

  // The scrubbed text and how much of the raw line was code, or a refusal.
  datatype Scrubbed = Kept(text: string, code: nat) | Refusal

  const FakeEol: string := "\U{000B}\U{000C}\U{0085}\U{2028}\U{2029}"
  const NeutralInTemplate: string := "{}#<"
  const Neutral: string := NeutralInTemplate + "\U{FEFF}" + FakeEol

  function Blunt(c: char, set_: string): char {
    if c in set_ then '_' else c
  }

  function Blanks(n: nat): (r: string)
    ensures |r| == n && forall k :: 0 <= k < n ==> r[k] == '_'
  {
    seq(n, k => '_')
  }

  // One character stands for an escape pair; a carriage return stays to be refused.
  function Escape(line: Line, i: nat): string {
    if Is(line, i + 1, '\r') then "\r" else "_"
  }

  function ScrubFrom(line: Line, i: nat, quoted: bool, interp: nat, out: string): Scrubbed
    decreases |line| - i
  {
    if i >= |line| then (if quoted then Refusal else Kept(out, i))
    else if quoted then ScrubQuoted(line, i, interp, out)
    else if line[i] == '"' then ScrubFrom(line, i + 1, true, 0, out + [line[i]])
    else if LineComment(line, i) then Kept(out, i)
    else if Pair(line, i, '/', '*') then Refusal
    else ScrubFrom(line, i + 1, false, 0, out + [line[i]])
  }

  function ScrubQuoted(line: Line, i: nat, interp: nat, out: string): Scrubbed
    requires i < |line|
    decreases |line| - i, 1
  {
    if line[i] == '\\' then ScrubFrom(line, i + 2, true, interp, out + Escape(line, i))
    else if interp > 0 && Pair(line, i, '/', '*') && CommentEnd(line, i + 2) >= 0 then
      var end := CommentEnd(line, i + 2);
      ScrubFrom(line, end + 2, true, interp, out + Blanks(end + 2 - i))
    else if Escaped(line, i) then ScrubFrom(line, i + 3, true, interp, out + [line[i], line[i], '_'])
    else if Template(line, i) then ScrubFrom(line, i + 2, true, interp + 1, out + [line[i], '_'])
    else if interp > 0 then ScrubExpr(line, i, interp, out)
    else if line[i] == '"' then ScrubFrom(line, i + 1, false, 0, out + [line[i]])
    else ScrubFrom(line, i + 1, true, 0, out + [Blunt(line[i], Neutral)])
  }

  function ScrubExpr(line: Line, i: nat, interp: nat, out: string): Scrubbed
    requires i < |line| && interp > 0
    decreases |line| - i, 0
  {
    if LineComment(line, i) || line[i] == '"' then Refusal
    else ScrubFrom(line, i + 1, true, interp + Brace(line[i]), out + [Blunt(line[i], NeutralInTemplate)])
  }

  function Scrub(line: Line): Scrubbed {
    ScrubFrom(line, 0, false, 0, "")
  }

  /** The scrubber's loop. */
  method ScrubLine(line: Line) returns (r: Scrubbed)
    ensures r == Scrub(line)
  {
    hide CommentEnd, Escaped, Template;
    var out: string, quoted, interp := "", false, 0;
    var i := 0;
    while i < |line|
      invariant ScrubFrom(line, i, quoted, interp, out) == Scrub(line)
      invariant !quoted ==> interp == 0
      decreases |line| - i
    {
      var ch := line[i];
      if quoted {
        assert ScrubFrom(line, i, true, interp, out) == ScrubQuoted(line, i, interp, out);
        if ch == '\\' {
          out, i := out + Escape(line, i), i + 2;
          continue;
        }
        if interp > 0 && Pair(line, i, '/', '*') {
          var end := CommentEnd(line, i + 2);
          if end >= 0 {
            out, i := out + Blanks(end + 2 - i), end + 2;
            continue;
          }
        }
        if Escaped(line, i) {
          out, i := out + [ch, ch, '_'], i + 3;
        } else if Template(line, i) {
          out, interp, i := out + [ch, '_'], interp + 1, i + 2;
        } else if interp > 0 {
          assert ScrubQuoted(line, i, interp, out) == ScrubExpr(line, i, interp, out);
          if LineComment(line, i) || ch == '"' { return Refusal; }
          if ch == '{' { interp := interp + 1; } else if ch == '}' { interp := interp - 1; }
          out, i := out + [Blunt(ch, NeutralInTemplate)], i + 1;
        } else {
          if ch == '"' { quoted := false; }
          out, i := out + [if ch == '"' then ch else Blunt(ch, Neutral)], i + 1;
        }
      } else {
        if LineComment(line, i) { return Kept(out, i); }
        if Pair(line, i, '/', '*') { return Refusal; }
        if ch == '"' { quoted := true; }
        out, i := out + [ch], i + 1;
      }
    }
    return if quoted then Refusal else Kept(out, i);
  }

  // ---------------------------------------------------------------- what is left

  function Balance(s: string): int {
    if s == [] then 0 else Balance(s[..|s| - 1]) + Brace(s[|s| - 1])
  }

  function Quotes(s: string): nat {
    if s == [] then 0 else Quotes(s[..|s| - 1]) + (if s[|s| - 1] == '"' then 1 else 0)
  }

  predicate InQuotes(s: string) {
    Quotes(s) % 2 == 1
  }

  // The text outside its quotes, the quotes kept.
  function Outside(s: string): string {
    if s == [] then []
    else
      var short, c := s[..|s| - 1], s[|s| - 1];
      Outside(short) + (if c == '"' || !InQuotes(short) then [c] else [])
  }

  // No such character between the quotes.
  predicate InsideFree(s: string, chars: string) {
    s == [] || (InsideFree(s[..|s| - 1], chars) && (InQuotes(s[..|s| - 1]) ==> s[|s| - 1] !in chars))
  }

  lemma Append(s: string, c: char)
    ensures Balance(s + [c]) == Balance(s) + Brace(c)
    ensures Quotes(s + [c]) == Quotes(s) + (if c == '"' then 1 else 0)
    ensures Outside(s + [c]) == Outside(s) + (if c == '"' || !InQuotes(s) then [c] else [])
  {
    assert (s + [c])[..|s|] == s;
  }

  lemma AppendFree(s: string, c: char)
    ensures forall chars :: InsideFree(s + [c], chars) <==> InsideFree(s, chars) && (InQuotes(s) ==> c !in chars)
  {
    assert (s + [c])[..|s|] == s;
  }

  // Appending inside a string leaves the outside alone.
  lemma {:induction false} AppendBlunt(s: string, t: string)
    requires InQuotes(s) && forall k :: 0 <= k < |t| ==> t[k] != '"'
    ensures Quotes(s + t) == Quotes(s) && Outside(s + t) == Outside(s)
    ensures forall chars :: InsideFree(s, chars) && (forall k :: 0 <= k < |t| ==> t[k] !in chars) ==> InsideFree(s + t, chars)
    decreases |t|
  {
    if t == [] {
      assert s + t == s;
    } else {
      var short, c := t[..|t| - 1], t[|t| - 1];
      AppendBlunt(s, short);
      Append(s + short, c);
      AppendFree(s + short, c);
      assert s + t == s + short + [c];
    }
  }

  // With no brace between the quotes, the braces are the outside's.
  lemma {:induction false} OutsideBalance(s: string)
    requires InsideFree(s, NeutralInTemplate)
    ensures Balance(s) == Balance(Outside(s))
    decreases |s|
  {
    hide InQuotes, Brace, Quotes, Balance, Outside;
    if s == [] {
      NothingOutside();
    } else {
      var short, c := s[..|s| - 1], s[|s| - 1];
      OutsideBalance(short);
      NeutralBrace(c);
      OutsideStep(short, c);
      assert s == short + [c];
    }
  }

  lemma NothingOutside()
    ensures Outside([]) == [] && Balance([]) == 0
  {
  }

  lemma OutsideStep(short: string, c: char)
    requires Balance(short) == Balance(Outside(short)) && (InQuotes(short) ==> Brace(c) == 0)
    ensures Balance(short + [c]) == Balance(Outside(short + [c]))
  {
    hide InQuotes, Brace, Quotes, Balance, Outside;
    var out := Outside(short);
    Append(short, c);
    Append(out, c);
    QuoteBrace();
    if c == '"' || !InQuotes(short) {
      assert Outside(short + [c]) == out + [c];
    } else {
      assert Outside(short + [c]) == out + [] == out;
    }
  }

  lemma QuoteBrace()
    ensures Brace('"') == 0
  {
  }

  lemma NeutralBrace(c: char)
    ensures c !in NeutralInTemplate ==> Brace(c) == 0
  {
    assert NeutralInTemplate[0] == '{' && NeutralInTemplate[1] == '}';
  }

  // The scrubber's state, as what the lexer is inside of.
  function StackOf(quoted: bool, interp: nat): seq<Mode> {
    if !quoted then [] else if interp == 0 then [Str] else [Str, Expr(interp - 1)]
  }

  // The text so far: inside a string exactly when the scrubber is, nothing structural
  // between its quotes, and nothing a string may not keep unless a template was read.
  ghost predicate Whole(out: string, quoted: bool, nested: bool) {
    InQuotes(out) == quoted && InsideFree(out, NeutralInTemplate) && (!nested ==> InsideFree(out, Neutral))
  }

  // What an accepted line must read as: strings closed, and what is left outside
  // them exactly the structure the lexer finds, up to where its comment starts.
  ghost predicate Sound(r: Scrubbed, read: Reading) {
    r.Kept? ==>
      && Quotes(r.text) % 2 == 0 && InsideFree(r.text, NeutralInTemplate)
      && (|| read.verdict.Refused? || read.verdict.InComment?
          || (&& read.verdict.Closed? && Outside(r.text) == read.code && r.code == read.end
              && (!read.nested ==> InsideFree(r.text, Neutral))))
  }

  // A tag ends no string: what opens a heredoc inside a template is refused.
  lemma {:induction false} TagRefused(line: Line, i: nat, interp: nat, out: string)
    requires interp > 0 && forall k :: i <= k < |line| ==> Word(line[k]) || line[k] == '<'
    ensures ScrubFrom(line, i, true, interp, out) == Refusal
    decreases |line| - i
  {
    if i < |line| {
      TagRefused(line, i + 1, interp, out + [Blunt(line[i], NeutralInTemplate)]);
      assert ScrubQuoted(line, i, interp, out) == ScrubExpr(line, i, interp, out);
    }
  }

  lemma BluntLeaves(c: char)
    requires c != '"'
    ensures Blunt(c, Neutral) != '"' && Blunt(c, Neutral) !in Neutral && Blunt(c, Neutral) !in NeutralInTemplate
    ensures Blunt(c, NeutralInTemplate) != '"' && Blunt(c, NeutralInTemplate) !in NeutralInTemplate
  {
    assert forall k :: 0 <= k < |NeutralInTemplate| ==> NeutralInTemplate[k] == Neutral[k];
    Underscore();
  }

  lemma Underscore()
    ensures '_' !in Neutral && '_' !in NeutralInTemplate && '$' !in Neutral && '%' !in Neutral && '\r' !in Neutral
    ensures '$' !in NeutralInTemplate && '%' !in NeutralInTemplate && '\r' !in NeutralInTemplate
  {
  }

  lemma {:induction false} ScrubReads(line: Line, i: nat, quoted: bool, interp: nat, out: string, nested: bool)
    requires Whole(out, quoted, nested) && (!quoted ==> interp == 0 && i <= |line|) && (interp > 0 ==> nested)
    ensures Sound(ScrubFrom(line, i, quoted, interp, out), Lex(Structure, line, i, StackOf(quoted, interp), nested, Outside(out)))
    decreases |line| - i, 2
  {
    hide Lex, ScrubFrom, Sound, Whole;
    if i >= |line| {
      AtEnd(line, i, quoted, interp, out, nested);
    } else if !quoted {
      PlainReads(line, i, out, nested);
    } else if interp == 0 {
      StringReads(line, i, out, nested);
    } else {
      ExprReads(line, i, interp, out, nested);
    }
  }

  lemma AtEnd(line: Line, i: nat, quoted: bool, interp: nat, out: string, nested: bool)
    requires i >= |line| && Whole(out, quoted, nested) && (!quoted ==> i <= |line|)
    ensures Sound(ScrubFrom(line, i, quoted, interp, out), Lex(Structure, line, i, StackOf(quoted, interp), nested, Outside(out)))
  {
  }

  lemma {:induction false} PlainReads(line: Line, i: nat, out: string, nested: bool)
    requires i < |line| && Whole(out, false, nested)
    ensures Sound(ScrubFrom(line, i, false, 0, out), Lex(Structure, line, i, [], nested, Outside(out)))
    decreases |line| - i, 1
  {
    hide LexExpr, LexString, LexText, ScrubQuoted, InsideFree, Outside, Quotes;
    var ch := line[i];
    Append(out, ch);
    AppendFree(out, ch);
    ScrubReads(line, i + 1, ch == '"', 0, out + [ch], nested);
    assert Lex(Structure, line, i, [], nested, Outside(out)) == LexStructure(line, i, nested, Outside(out));
  }

  // What a string's character leaves inside its quotes.
  lemma StaysWhole(out: string, t: string, nested: bool)
    requires Whole(out, true, nested) && forall k :: 0 <= k < |t| ==> t[k] != '"' && t[k] !in NeutralInTemplate && (!nested ==> t[k] !in Neutral)
    ensures Whole(out + t, true, nested) && Outside(out + t) == Outside(out)
  {
    hide InsideFree, Outside;
    AppendBlunt(out, t);
  }

  lemma NestedWhole(out: string, quoted: bool, nested: bool)
    requires Whole(out, quoted, nested)
    ensures Whole(out, quoted, true)
  {
  }

  lemma ClosesWhole(out: string, nested: bool)
    requires Whole(out, true, nested)
    ensures Whole(out + ['"'], false, nested) && Outside(out + ['"']) == Outside(out) + ['"']
  {
    hide InsideFree, Outside, Quotes;
    Append(out, '"');
    AppendFree(out, '"');
    assert '"' !in NeutralInTemplate && '"' !in Neutral;
  }

  lemma {:induction false} StringReads(line: Line, i: nat, out: string, nested: bool)
    requires i < |line| && Whole(out, true, nested)
    ensures Sound(ScrubFrom(line, i, true, 0, out), Lex(Structure, line, i, [Str], nested, Outside(out)))
    decreases |line| - i, 1
  {
    hide LexExpr, LexStructure, LexText, ScrubExpr, CommentEnd, Sound, Blunt, Quotes, Outside, Whole;
    var ch := line[i];
    Underscore();
    assert Lex(Structure, line, i, [Str], nested, Outside(out)) == LexString(Structure, line, i, [Str], nested, Outside(out));
    assert ScrubFrom(line, i, true, 0, out) == ScrubQuoted(line, i, 0, out);
    assert [Str][..0] == [] && [Str] + [Expr(0)] == [Str, Expr(0)];
    if ch == '"' {
      ClosesWhole(out, nested);
      ScrubReads(line, i + 1, false, 0, out + [ch], nested);
    } else if ch == '\\' {
      StaysWhole(out, Escape(line, i), nested);
      ScrubReads(line, i + 2, true, 0, out + Escape(line, i), nested);
    } else if Escaped(line, i) {
      StaysWhole(out, [ch, ch, '_'], nested);
      ScrubReads(line, i + 3, true, 0, out + [ch, ch, '_'], nested);
    } else if Template(line, i) {
      NestedWhole(out, true, nested);
      StaysWhole(out, [ch, '_'], true);
      ScrubReads(line, i + 2, true, 1, out + [ch, '_'], true);
    } else {
      BluntLeaves(ch);
      StaysWhole(out, [Blunt(ch, Neutral)], nested);
      ScrubReads(line, i + 1, true, 0, out + [Blunt(ch, Neutral)], nested);
    }
  }

  // A template in a template, which the scrubber takes as one more brace.
  lemma ExprTemplate(line: Line, i: nat, b: nat, nested: bool, code: string)
    requires Is(line, i, '%') && Is(line, i + 1, '{')
    ensures Lex(Structure, line, i, [Str, Expr(b)], nested, code) == Lex(Structure, line, i + 2, [Str, Expr(b + 1)], nested, code)
  {
    hide LexString, LexStructure, LexText, CommentEnd;
    var s := [Str, Expr(b)];
    assert Lex(Structure, line, i, s, nested, code) == LexExpr(Structure, line, i, s, nested, code);
    assert LexExpr(Structure, line, i, s, nested, code) == Lex(Structure, line, i + 1, s, nested, code);
    assert Lex(Structure, line, i + 1, s, nested, code) == LexExpr(Structure, line, i + 1, s, nested, code);
    assert s[..1] + [Expr(b + 1)] == [Str, Expr(b + 1)];
  }

  // One plain token of an expression.
  lemma ExprToken(line: Line, i: nat, interp: nat, nested: bool, code: string)
    requires i < |line| && interp > 0 && !Pair(line, i, '/', '*') && line[i] !in "$\\\""
    requires !Pair(line, i, '%', '%') && !Pair(line, i, '<', '<') && !LineComment(line, i)
    ensures Lex(Structure, line, i, [Str, Expr(interp - 1)], nested, code)
         == Lex(Structure, line, i + 1, StackOf(true, interp + Brace(line[i])), nested, code)
  {
    hide LexString, LexStructure, LexText, CommentEnd;
    var s := [Str, Expr(interp - 1)];
    assert Lex(Structure, line, i, s, nested, code) == LexExpr(Structure, line, i, s, nested, code);
    assert s[..1] == [Str] && s[..1] + [Expr(interp)] == [Str, Expr(interp)];
    if interp > 1 { assert s[..1] + [Expr(interp - 2)] == [Str, Expr(interp - 2)]; }
  }

  // Where Terraform refuses the line, or its block comment runs on, nothing is asked of the scrubber but its strings.
  predicate Waived(line: Line, i: nat) {
    Is(line, i, '$') || Is(line, i, '\\') || Pair(line, i, '%', '%')
    || (Pair(line, i, '<', '<') && !TagOnly(line, i + 2))
    || (Pair(line, i, '/', '*') && CommentEnd(line, i + 2) < 0)
  }

  lemma WaivedReads(line: Line, i: nat, b: nat, nested: bool, code: string)
    requires i < |line| && Waived(line, i)
    ensures var v := Lex(Structure, line, i, [Str, Expr(b)], nested, code).verdict; v.Refused? || v.InComment?
  {
    hide LexString, LexStructure, LexText;
    assert Lex(Structure, line, i, [Str, Expr(b)], nested, code) == LexExpr(Structure, line, i, [Str, Expr(b)], nested, code);
  }

  // What any accepted text is, whatever its line reads as.
  ghost predicate Tidy(r: Scrubbed) {
    r.Kept? ==> Quotes(r.text) % 2 == 0 && InsideFree(r.text, NeutralInTemplate)
  }

  lemma {:induction false} TidyFrom(line: Line, i: nat, quoted: bool, interp: nat, out: string)
    requires Whole(out, quoted, true) && (!quoted ==> interp == 0)
    ensures Tidy(ScrubFrom(line, i, quoted, interp, out))
    decreases |line| - i
  {
    hide Blunt, Quotes, Outside, Escape, CommentEnd, InsideFree;
    if i < |line| {
      var ch := line[i];
      Append(out, ch);
      AppendFree(out, ch);
      if !quoted {
        TidyFrom(line, i + 1, ch == '"', 0, out + [ch]);
      } else {
        assert ScrubFrom(line, i, true, interp, out) == ScrubQuoted(line, i, interp, out);
        TidyQuoted(line, i, interp, out);
      }
    }
  }

  lemma {:induction false} TidyQuoted(line: Line, i: nat, interp: nat, out: string)
    requires i < |line| && Whole(out, true, true)
    ensures Tidy(ScrubQuoted(line, i, interp, out))
    decreases |line| - i, 0
  {
    hide Blunt, Quotes, Outside, CommentEnd, ScrubFrom, Whole, Tidy;
    var ch := line[i];
    Underscore();
    if ch == '\\' {
      StaysWhole(out, Escape(line, i), true);
      TidyFrom(line, i + 2, true, interp, out + Escape(line, i));
    } else if interp > 0 && Pair(line, i, '/', '*') && CommentEnd(line, i + 2) >= 0 {
      var end := CommentEnd(line, i + 2);
      StaysWhole(out, Blanks(end + 2 - i), true);
      TidyFrom(line, end + 2, true, interp, out + Blanks(end + 2 - i));
    } else if Escaped(line, i) {
      StaysWhole(out, [ch, ch, '_'], true);
      TidyFrom(line, i + 3, true, interp, out + [ch, ch, '_']);
    } else if Template(line, i) {
      StaysWhole(out, [ch, '_'], true);
      TidyFrom(line, i + 2, true, interp + 1, out + [ch, '_']);
    } else if ch == '"' {
      if interp > 0 { RefusalTidy(); } else {
        ClosesWhole(out, true);
        TidyFrom(line, i + 1, false, 0, out + [ch]);
      }
    } else {
      BluntLeaves(ch);
      StaysWhole(out, [Blunt(ch, NeutralInTemplate)], true);
      StaysWhole(out, [Blunt(ch, Neutral)], true);
      if interp > 0 {
        RefusalTidy();
        TidyFrom(line, i + 1, true, interp + Brace(ch), out + [Blunt(ch, NeutralInTemplate)]);
      } else {
        TidyFrom(line, i + 1, true, 0, out + [Blunt(ch, Neutral)]);
      }
    }
  }

  lemma RefusalTidy()
    ensures Tidy(Refusal)
  {
  }

  lemma {:induction false} ExprReads(line: Line, i: nat, interp: nat, out: string, nested: bool)
    requires i < |line| && interp > 0 && Whole(out, true, nested) && nested
    ensures Sound(ScrubFrom(line, i, true, interp, out), Lex(Structure, line, i, [Str, Expr(interp - 1)], nested, Outside(out)))
    decreases |line| - i, 1
  {
    hide Lex, CommentEnd, Blunt, Quotes, Outside, Whole, InsideFree;
    var ch, s := line[i], [Str, Expr(interp - 1)];
    Underscore();
    NestedWhole(out, true, nested);
    assert ScrubFrom(line, i, true, interp, out) == ScrubQuoted(line, i, interp, out);
    if Waived(line, i) {
      WaivedReads(line, i, interp - 1, nested, Outside(out));
      TidyFrom(line, i, true, interp, out);
    } else if Pair(line, i, '<', '<') {
      TagRefused(line, i, interp, out);
    } else if Pair(line, i, '/', '*') {
      var end := CommentEnd(line, i + 2);
      StaysWhole(out, Blanks(end + 2 - i), nested);
      ScrubReads(line, end + 2, true, interp, out + Blanks(end + 2 - i), nested);
      ExprComment(line, i, interp - 1, nested, Outside(out));
    } else if Template(line, i) {
      StaysWhole(out, [ch, '_'], nested);
      ScrubReads(line, i + 2, true, interp + 1, out + [ch, '_'], nested);
      ExprTemplate(line, i, interp - 1, nested, Outside(out));
    } else if !LineComment(line, i) && ch != '"' {
      ExprKeeps(line, i, interp, out, nested);
    }
  }

  // A character of a template is kept as it is, but for the four that could be structure.
  lemma {:induction false} ExprKeeps(line: Line, i: nat, interp: nat, out: string, nested: bool)
    requires i < |line| && interp > 0 && Whole(out, true, nested) && nested
    requires !Waived(line, i) && !Pair(line, i, '<', '<') && !Pair(line, i, '/', '*') && !Template(line, i) && !LineComment(line, i) && line[i] != '"'
    ensures Sound(ScrubFrom(line, i, true, interp, out), Lex(Structure, line, i, [Str, Expr(interp - 1)], nested, Outside(out)))
    decreases |line| - i, 0
  {
    hide Lex, CommentEnd, Blunt, Quotes, Outside, Whole, InsideFree, Sound;
    var ch := line[i];
    BluntLeaves(ch);
    StaysWhole(out, [Blunt(ch, NeutralInTemplate)], nested);
    ScrubReads(line, i + 1, true, interp + Brace(ch), out + [Blunt(ch, NeutralInTemplate)], nested);
    ExprToken(line, i, interp, nested, Outside(out));
    assert ScrubFrom(line, i, true, interp, out) == ScrubQuoted(line, i, interp, out) == ScrubExpr(line, i, interp, out);
  }

  lemma ExprComment(line: Line, i: nat, b: nat, nested: bool, code: string)
    requires Pair(line, i, '/', '*') && CommentEnd(line, i + 2) >= 0
    ensures Lex(Structure, line, i, [Str, Expr(b)], nested, code)
         == Lex(Structure, line, CommentEnd(line, i + 2) + 2, [Str, Expr(b)], nested, code)
  {
    hide LexString, LexStructure, LexText;
    assert Lex(Structure, line, i, [Str, Expr(b)], nested, code) == LexExpr(Structure, line, i, [Str, Expr(b)], nested, code);
  }

  /**
   An accepted line is left with exactly the structure the lexer finds in it:
   outside the quotes the same characters, between them nothing that could be
   structure, the comment gone from where it starts. The exceptions are lines
   Terraform refuses, and a block comment left open inside a template.
   */
  lemma ScrubKeepsStructure(line: Line)
    ensures Sound(Scrub(line), ReadCode(line))
    ensures Scrub(line).Kept? ==> InsideFree(Scrub(line).text, "{}#<")
    ensures Scrub(line).Kept? && ReadCode(line).verdict.Closed? && !ReadCode(line).nested ==>
      InsideFree(Scrub(line).text, "{}#<\U{FEFF}\U{000B}\U{000C}\U{0085}\U{2028}\U{2029}")
  {
    hide ScrubFrom, Lex;
    ScrubReads(line, 0, false, 0, "", false);
    hide InsideFree;
    assert Neutral == "{}#<\U{FEFF}\U{000B}\U{000C}\U{0085}\U{2028}\U{2029}";
  }

  /** So its braces balance as the braces outside its strings and comments do, and its quotes pair up. */
  lemma ScrubKeepsBalance(line: Line)
    ensures var r, read := Scrub(line), ReadCode(line);
      r.Kept? ==> Quotes(r.text) % 2 == 0 && (read.verdict.Refused? || read.verdict.InComment? || Balance(r.text) == Balance(read.code))
  {
    hide Scrub, ReadCode;
    ScrubKeepsStructure(line);
    if Scrub(line).Kept? { OutsideBalance(Scrub(line).text); }
  }
}
