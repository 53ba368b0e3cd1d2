/**
 What the guard's reader takes for an opener, a terminator, a heredoc and a
 header (deploy/gcp/check_split.py:101-124,518-718), written out as the text
 each is made of.
 */
module HclForms {
  import opened Options
  import opened HclLexer
  import opened HclScrub
  import opened HclBlocks
  import opened HclRoundTrip

  predicate Spaces(s: string) {
    forall k :: 0 <= k < |s| ==> Space(s[k])
  }

  predicate TagName(s: string) {
    s != [] && TagStart(s[0]) && forall k :: 0 <= k < |s| ==> Word(s[k])
  }

  // ---------------------------------------------------------------- terminators

  // What may stand on a terminator's line beside its tag.
  predicate Padding(s: string) {
    Spaces(s) && forall k :: 0 <= k < |s| ==> !('\U{001C}' <= s[k] <= '\U{001F}')
  }

  ghost predicate PaddedTag(line: Line, a: string, tag: string, b: string) {
    line == a + tag + b && Padding(a) && Padding(b)
  }

  lemma {:induction false} TrimLeftIs(s: string)
    ensures exists a :: s == a + TrimLeft(s) && Spaces(a)
    ensures TrimLeft(s) != [] ==> !Space(TrimLeft(s)[0])
    decreases |s|
  {
    if s != [] && Space(s[0]) {
      TrimLeftIs(s[1..]);
      var a :| s[1..] == a + TrimLeft(s[1..]) && Spaces(a);
      assert s == ([s[0]] + a) + TrimLeft(s) && Spaces([s[0]] + a);
    } else {
      var none: string := [];
      assert s == none + TrimLeft(s) && Spaces(none);
    }
  }

  lemma {:induction false} TrimRightIs(s: string)
    ensures exists b :: s == TrimRight(s) + b && Spaces(b)
    decreases |s|
  {
    if s != [] && Space(s[|s| - 1]) {
      var short := s[..|s| - 1];
      TrimRightIs(short);
      var b :| short == TrimRight(short) + b && Spaces(b);
      assert s == TrimRight(s) + (b + [s[|s| - 1]]) && Spaces(b + [s[|s| - 1]]);
    } else {
      var none: string := [];
      assert s == TrimRight(s) + none && Spaces(none);
    }
  }

  lemma {:induction false} TrimLeftPad(a: string, s: string)
    requires Spaces(a) && s != [] && !Space(s[0])
    ensures TrimLeft(a + s) == s
    decreases |a|
  {
    if a == [] {
      assert a + s == s;
    } else {
      TrimLeftPad(a[1..], s);
      assert (a + s)[0] == a[0] && (a + s)[1..] == a[1..] + s;
    }
  }

  lemma {:induction false} TrimRightPad(s: string, b: string)
    requires Spaces(b) && s != [] && !Space(s[|s| - 1])
    ensures TrimRight(s + b) == s
    decreases |b|
  {
    if b == [] {
      assert s + b == s;
    } else {
      var short := b[..|b| - 1];
      TrimRightPad(s, short);
      assert (s + b)[|s + b| - 1] == b[|b| - 1] && (s + b)[..|s + b| - 1] == s + short;
    }
  }

  lemma TerminatesRead(line: Line, tag: string)
    requires Terminates(line, tag)
    ensures exists a, b :: PaddedTag(line, a, tag, b)
  {
    hide TrimLeft, TrimRight, Spaces, Separator, PaddedTag;
    TrimLeftIs(line);
    var mid := TrimLeft(line);
    var a :| line == a + mid && Spaces(a);
    TrimRightIs(mid);
    var b :| mid == tag + b && Spaces(b);
    Regroup(a, tag, b);
    PaddedIs(line, a, tag, b);
  }

  lemma Regroup(a: string, b: string, c: string)
    ensures a + (b + c) == a + b + c
  {
  }

  lemma PaddedIs(line: Line, a: string, tag: string, b: string)
    requires line == a + tag + b && Spaces(a) && Spaces(b) && forall k :: 0 <= k < |line| ==> !Separator(line[k])
    ensures PaddedTag(line, a, tag, b)
  {
    hide Spaces;
    forall k | 0 <= k < |a| ensures !Separator(a[k]) { assert a[k] == line[k]; }
    forall k | 0 <= k < |b| ensures !Separator(b[k]) { assert b[k] == line[|a| + |tag| + k]; }
  }

  lemma TagKeeps(tag: string)
    requires TagName(tag)
    ensures !Space(tag[0]) && !Space(tag[|tag| - 1]) && forall k :: 0 <= k < |tag| ==> !Separator(tag[k])
  {
  }

  lemma TerminatesStands(line: Line, a: string, tag: string, b: string)
    requires TagName(tag) && PaddedTag(line, a, tag, b)
    ensures Terminates(line, tag)
  {
    hide TrimLeft, TrimRight, Space, TagName;
    TagKeeps(tag);
    assert tag != [] by { TagThere(tag); }
    assert line == a + (tag + b) && (tag + b)[0] == tag[0];
    TrimLeftPad(a, tag + b);
    TrimRightPad(tag, b);
    forall k | 0 <= k < |line| ensures !Separator(line[k]) {
      if k < |a| {
        assert line[k] == a[k];
      } else if k < |a| + |tag| {
        assert line[k] == tag[k - |a|];
      } else {
        assert line[k] == b[k - |a| - |tag|];
      }
    }
  }

  lemma TagThere(tag: string)
    requires TagName(tag)
    ensures tag != []
  {
  }

  /** A heredoc ends at its tag alone on a line, padded by any whitespace but the four separators. */
  lemma TerminatesExactly(line: Line, tag: string)
    requires TagName(tag)
    ensures Terminates(line, tag) <==> exists a, b :: PaddedTag(line, a, tag, b)
  {
    hide Terminates, PaddedTag;
    if Terminates(line, tag) { TerminatesRead(line, tag); }
    if a, b :| PaddedTag(line, a, tag, b) { TerminatesStands(line, a, tag, b); }
  }

  // ---------------------------------------------------------------- openers

  // Nothing that only looks like a line's end, and no byte order mark.
  predicate Clean(text: string) {
    forall k :: 0 <= k < |text| ==> text[k] !in "\r\U{FEFF}\U{000B}\U{000C}\U{0085}\U{2028}\U{2029}"
  }

  lemma CleanIs(text: string)
    ensures Clean(text) <==> !exists k :: 0 <= k < |text| && Forbidden(text[k])
  {
  }

  // No `<<` ahead of this place.
  predicate NoPair(text: string, to: nat) {
    forall k :: 0 <= k < to ==> !Pair(text, k, '<', '<')
  }

  lemma {:induction false} PairAtIs(text: string, i: nat)
    ensures PairAt(text, i) < 0 ==> forall k :: i <= k < |text| ==> !Pair(text, k, '<', '<')
    ensures PairAt(text, i) >= 0 ==> forall k :: i <= k < PairAt(text, i) ==> !Pair(text, k, '<', '<')
    decreases |text| - i
  {
    if i < |text| && !Pair(text, i, '<', '<') { PairAtIs(text, i + 1); }
  }

  // An opener with its tag, behind this text.
  predicate OpenerForm(full: string, text: string, tag: string) {
    (full == text + "<<" + tag || full == text + "<<-" + tag) && TagName(tag) && NoPair(full, |text|)
  }

  lemma OpenerStands(full: string, text: string, tag: string)
    requires OpenerForm(full, text, tag)
    ensures PairAt(full, 0) == |text| && TagOf(full, |text|) == Some(tag) && full[..|text|] == text
  {
    hide PairAt;
    var at := |text|;
    assert full[at] == '<' && full[at + 1] == '<';
    PairAtIs(full, 0);
    assert Pair(full, at, '<', '<');
    if full == text + "<<" + tag {
      assert full[at + 2] == tag[0] && full[at + 2..] == tag;
      assert forall k :: at + 2 <= k < |full| ==> full[k] == tag[k - at - 2];
    } else {
      assert full[at + 2] == '-' && full[at + 3] == tag[0] && full[at + 3..] == tag;
      assert forall k :: at + 3 <= k < |full| ==> full[k] == tag[k - at - 3];
    }
  }

  lemma OpenerRead(full: string)
    requires PairAt(full, 0) >= 0 && TagOf(full, PairAt(full, 0)).Some?
    ensures var at := PairAt(full, 0); OpenerForm(full, full[..at], TagOf(full, at).value)
  {
    hide PairAt;
    PairAtIs(full, 0);
    var at := PairAt(full, 0);
    var text, tag := full[..at], TagOf(full, at).value;
    assert full[at] == '<' && full[at + 1] == '<';
    if Is(full, at + 2, '-') {
      assert full == text + "<<-" + tag;
    } else {
      assert full == text + "<<" + tag;
    }
  }

  /** A line opens a heredoc exactly when its scrubbed text ends in the first `<<`, an optional dash and a tag, with no comment behind it. */
  lemma OpensExactly(line: Line, text: string, tag: string)
    ensures ReadLine(line) == Opens(text, tag) <==>
      (var s := Scrub(line); s.Kept? && Clean(s.text) && s.code == |line| && OpenerForm(s.text, text, tag))
  {
    hide Scrub, Clean, OpenerForm, TagOf, PairAt, Forbidden;
    var s := Scrub(line);
    if s.Kept? {
      CleanIs(s.text);
      if OpenerForm(s.text, text, tag) { OpenerStands(s.text, text, tag); }
      if ReadLine(line) == Opens(text, tag) { OpenerRead(s.text); }
    }
  }

  /** And it is kept as structure exactly when its scrubbed text has none. */
  lemma PlainExactly(line: Line, text: string)
    ensures ReadLine(line) == Plain(text) <==>
      (var s := Scrub(line); s.Kept? && s.text == text && Clean(text) && NoPair(text, |text|))
  {
    hide Scrub, Clean, TagOf, PairAt, Forbidden;
    var s := Scrub(line);
    if s.Kept? {
      CleanIs(s.text);
      PairAtIs(s.text, 0);
    }
  }

  // ---------------------------------------------------------------- heredocs

  function Empties(n: nat): (r: seq<string>)
    ensures |r| == n && forall k :: 0 <= k < n ==> r[k] == ""
  {
    seq(n, k => "")
  }

  // The body's lines are read as text up to a terminator or a line nobody takes.
  lemma {:induction false} BodyReads(body: seq<Line>, after: seq<Line>, tag: string)
    requires forall k :: 0 <= k < |body| ==> !Terminates(body[k], tag)
    ensures StripFrom(body + after, Some(tag))
         == if exists k :: 0 <= k < |body| && BadBody(body[k]) then None else Prepend(Empties(|body|), StripFrom(after, Some(tag)))
    decreases |body|
  {
    hide Terminates, BadBody;
    if body == [] {
      assert body + after == after && Empties(0) == [];
      PrependNone(StripFrom(after, Some(tag)));
    } else {
      var rest := body[1..];
      assert (body + after)[0] == body[0] && (body + after)[1..] == rest + after;
      StripStep(body + after, Some(tag));
      BodyReads(rest, after, tag);
      if k :| 0 <= k < |rest| && BadBody(rest[k]) {
        assert BadBody(body[k + 1]);
      } else if !BadBody(body[0]) {
        assert forall k :: 0 <= k < |body| ==> k == 0 || body[k] == rest[k - 1];
        PrependTwice([""], Empties(|rest|), StripFrom(after, Some(tag)));
        assert [""] + Empties(|rest|) == Empties(|body|);
      }
    }
  }

  /**
   A heredoc leaves what stands ahead of its opener and an empty line for every
   other line it has, and reading goes on behind its terminator, which may not
   be the file's last line.
   */
  lemma HeredocReads(open: Line, body: seq<Line>, close: Line, after: seq<Line>)
    requires ReadLine(open).Opens? && Terminates(close, ReadLine(open).tag)
    requires forall k :: 0 <= k < |body| ==> !Terminates(body[k], ReadLine(open).tag)
    ensures StripFrom([open] + body + [close] + after, None)
         == if after == [] || BadBody(close) || exists k :: 0 <= k < |body| && BadBody(body[k]) then None
            else Prepend([ReadLine(open).text] + Empties(|body| + 1), StripFrom(after, None))
  {
    hide Terminates, BadBody, ReadLine;
    var tag, text := ReadLine(open).tag, ReadLine(open).text;
    var all, tail := [open] + body + [close] + after, [close] + after;
    assert all[0] == open && all[1..] == body + tail;
    StripStep(all, None);
    BodyReads(body, tail, tag);
    assert tail[0] == close && tail[1..] == after;
    StripStep(tail, Some(tag));
    PrependTwice(Empties(|body|), [""], StripFrom(after, None));
    assert Empties(|body|) + [""] == Empties(|body| + 1);
    PrependTwice([text], Empties(|body| + 1), StripFrom(after, None));
  }

  /** And one that is never terminated is refused. */
  lemma UnendedRefused(open: Line, body: seq<Line>)
    requires ReadLine(open).Opens? && forall k :: 0 <= k < |body| ==> !Terminates(body[k], ReadLine(open).tag)
    ensures StripFrom([open] + body, None) == None
  {
    hide Terminates, BadBody, ReadLine;
    var tag := ReadLine(open).tag;
    assert ([open] + body)[0] == open && ([open] + body)[1..] == body + [];
    StripStep([open] + body, None);
    BodyReads(body, [], tag);
  }

  // ---------------------------------------------------------------- headers

  // Space, then a quoted name, then the rest.
  ghost predicate QuotedForm(s: string, gap: string, text: string, rest: string) {
    s == gap + Quote(text) + rest && gap != [] && Spaces(gap) && text != [] && '"' !in text
  }

  // The parts of what stands at i.
  lemma PartsAt(s: string, i: nat, gap: string, text: string, rest: string)
    requires i <= |s| && s[i..] == gap + ("\"" + text + "\"") + rest
    ensures i + |gap| + |text| + 2 <= |s|
    ensures s[i..i + |gap|] == gap && s[i + |gap|] == '"' && s[i + |gap| + 1..i + |gap| + 1 + |text|] == text
    ensures s[i + |gap| + 1 + |text|] == '"' && s[i + |gap| + |text| + 2..] == rest
  {
    var t, a := s[i..], |gap|;
    assert t[..a] == gap && t[a] == '"';
    assert t[a + 1..a + 1 + |text|] == text && t[a + 1 + |text|] == '"' && t[a + |text| + 2..] == rest;
    assert s[i..i + a] == t[..a] && s[i + a + 1..i + a + 1 + |text|] == t[a + 1..a + 1 + |text|];
    assert s[i + a + |text| + 2..] == t[a + |text| + 2..];
  }

  lemma QuotedStands(s: string, i: nat, gap: string, text: string, rest: string)
    requires i <= |s| && QuotedForm(s[i..], gap, text, rest)
    ensures i + |gap| + |text| + 2 <= |s| && QuotedPart(s, i) == Some(Part(text, i + |gap| + |text| + 2)) && s[i + |gap| + |text| + 2..] == rest
  {
    hide SkipSpaces, NextQuote, Space;
    var a := i + |gap|;
    var b := a + 1 + |text|;
    PartsAt(s, i, gap, text, rest);
    NoSpace();
    SkipsTo(s, i, a);
    QuoteAt(s, a + 1, b);
  }

  lemma SkipsTo(s: string, i: nat, a: nat)
    requires i <= a < |s| && Spaces(s[i..a]) && !Space(s[a])
    ensures SkipSpaces(s, i) == a
  {
    hide SkipSpaces, Space;
    assert forall k :: i <= k < a ==> s[i..a][k - i] == s[k];
  }

  lemma QuoteAt(s: string, i: nat, b: nat)
    requires i <= b < |s| && '"' !in s[i..b] && s[b] == '"'
    ensures NextQuote(s, i) == b
  {
    hide NextQuote;
    assert forall k :: i <= k < b ==> s[i..b][k - i] == s[k];
  }

  lemma NoSpace()
    ensures !Space('"') && !Space('r') && !Space('m')
  {
  }

  lemma QuotedRead(s: string, i: nat)
    requires i <= |s| && QuotedPart(s, i).Some?
    ensures i <= QuotedPart(s, i).value.next <= |s|
    ensures var p := QuotedPart(s, i).value; exists gap :: QuotedForm(s[i..], gap, p.text, s[p.next..])
  {
    hide SkipSpaces, NextQuote, Space;
    var a := SkipSpaces(s, i);
    var b := NextQuote(s, a + 1);
    var gap := s[i..a];
    assert s[i..] == gap + ("\"" + s[a + 1..b] + "\"") + s[b + 1..];
    assert QuotedForm(s[i..], gap, s[a + 1..b], s[b + 1..]);
  }

  ghost predicate ResourceForm(s: string, a: string, b: string, kind: string, c: string, name: string, rest: string) {
    s == a + "resource" + (b + Quote(kind) + (c + Quote(name) + rest)) && Spaces(a) && b != [] && Spaces(b) && c != [] && Spaces(c)
    && kind != [] && '"' !in kind && name != [] && '"' !in name
  }

  ghost predicate ModuleForm(s: string, a: string, b: string, name: string, rest: string) {
    s == a + "module" + (b + Quote(name) + rest) && Spaces(a) && b != [] && Spaces(b) && name != [] && '"' !in name
  }

  lemma WordStands(s: string, a: string, word: string, tail: string)
    requires s == a + word + tail && Spaces(a) && word != [] && !Space(word[0])
    ensures SkipSpaces(s, 0) == |a| && Keyword(s, |a|, word) && s[|a| + |word|..] == tail
  {
    hide SkipSpaces, Space;
    assert forall k :: 0 <= k < |a| ==> s[k] == a[k];
    assert s[|a|] == word[0];
    assert s[|a|..|a| + |word|] == word;
  }

  lemma WordRead(s: string, word: string)
    requires Keyword(s, SkipSpaces(s, 0), word)
    ensures var i := SkipSpaces(s, 0); i + |word| <= |s| && s == s[..i] + word + s[i + |word|..] && Spaces(s[..i])
  {
    hide SkipSpaces, Space;
    var i := SkipSpaces(s, 0);
    Cut(s, i, i + |word|);
  }

  lemma Cut(s: string, i: nat, j: nat)
    requires i <= j <= |s|
    ensures s == s[..i] + s[i..j] + s[j..]
  {
  }

  lemma KeywordFirst(s: string, i: nat, word: string)
    requires Keyword(s, i, word) && word != []
    ensures i < |s| && s[i] == word[0]
  {
  }

  lemma ResourceRead(s: string)
    requires HeaderOf(s).Some? && HeaderOf(s).value.Resource?
    ensures var h := HeaderOf(s).value; exists a, b, c, rest :: ResourceForm(s, a, b, h.kind, c, h.name, rest)
  {
    hide SkipSpaces, QuotedPart, Keyword, Space, Quote, Spaces;
    var h, i := HeaderOf(s).value, SkipSpaces(s, 0);
    WordRead(s, "resource");
    var a, tail := s[..i], s[i + 8..];
    QuotedRead(s, i + 8);
    var p := QuotedPart(s, i + 8).value;
    var b :| QuotedForm(s[i + 8..], b, p.text, s[p.next..]);
    QuotedRead(s, p.next);
    var q := QuotedPart(s, p.next).value;
    var c :| QuotedForm(s[p.next..], c, q.text, s[q.next..]);
    assert ResourceForm(s, a, b, h.kind, c, h.name, s[q.next..]);
  }

  lemma ModuleRead(s: string)
    requires HeaderOf(s).Some? && HeaderOf(s).value.Module?
    ensures exists a, b, rest :: ModuleForm(s, a, b, HeaderOf(s).value.name, rest)
  {
    hide SkipSpaces, QuotedPart, Keyword, Space, Quote, Spaces;
    var i := SkipSpaces(s, 0);
    WordRead(s, "module");
    QuotedRead(s, i + 6);
    var p := QuotedPart(s, i + 6).value;
    var b :| QuotedForm(s[i + 6..], b, p.text, s[p.next..]);
    assert ModuleForm(s, s[..i], b, p.text, s[p.next..]);
  }

  lemma ResourceStands(s: string, a: string, b: string, kind: string, c: string, name: string, rest: string)
    requires ResourceForm(s, a, b, kind, c, name, rest)
    ensures HeaderOf(s) == Some(Resource(kind, name))
  {
    hide SkipSpaces, QuotedPart, Keyword, Space, Quote, Spaces;
    NoSpace();
    var tail := c + Quote(name) + rest;
    WordStands(s, a, "resource", b + Quote(kind) + tail);
    QuotedStands(s, |a| + 8, b, kind, tail);
    QuotedStands(s, |a| + 8 + |b| + |kind| + 2, c, name, rest);
  }

  lemma ModuleStands(s: string, a: string, b: string, name: string, rest: string)
    requires ModuleForm(s, a, b, name, rest)
    ensures HeaderOf(s) == Some(Module(name))
  {
    hide SkipSpaces, QuotedPart, Space, Quote, Spaces;
    NoSpace();
    WordStands(s, a, "module", b + Quote(name) + rest);
    QuotedStands(s, |a| + 6, b, name, rest);
    KeywordFirst(s, |a|, "module");
    if Keyword(s, |a|, "resource") { KeywordFirst(s, |a|, "resource"); }
  }

  /** A line heads a block exactly when it is made of a header's words and quoted names. */
  lemma HeaderExactly(s: string, kind: string, name: string)
    ensures HeaderOf(s) == Some(Resource(kind, name)) <==> exists a, b, c, rest :: ResourceForm(s, a, b, kind, c, name, rest)
    ensures HeaderOf(s) == Some(Module(name)) <==> exists a, b, rest :: ModuleForm(s, a, b, name, rest)
  {
    hide HeaderOf, ResourceForm, ModuleForm;
    if HeaderOf(s) == Some(Resource(kind, name)) { ResourceRead(s); }
    if HeaderOf(s) == Some(Module(name)) { ModuleRead(s); }
    if a, b, c, rest :| ResourceForm(s, a, b, kind, c, name, rest) { ResourceStands(s, a, b, kind, c, name, rest); }
    if a, b, rest :| ModuleForm(s, a, b, name, rest) { ModuleStands(s, a, b, name, rest); }
  }

  // ---------------------------------------------------------------- which files are split

  // A span the lines end inside of took all of them.
  lemma {:induction false} SpanLeft(lines: seq<string>, depth: int)
    requires NeverBelow(lines, depth)
    ensures var n := Span(lines, depth); var left := depth + Depth(lines[..n]);
      SpanEnds(lines, n, left, depth)
    decreases |lines|
  {
    hide Balance, Depth, Span, NeverBelow;
    if depth == 0 || lines == [] {
      SpanStarts(lines, depth);
    } else {
      var n, next := Span(lines, depth), depth + Balance(lines[0]);
      NextNever(lines, depth);
      SpanNext(lines, depth);
      SpanLeft(lines[1..], next);
      assert lines == [lines[0]] + lines[1..];
      DepthCons(lines[0], lines[1..]);
    }
  }

  ghost predicate SpanEnds(lines: seq<string>, n: nat, left: int, depth: int) {
    n <= |lines| && left >= 0 && NeverBelow(lines[n..], left) && left + Depth(lines[n..]) == depth + Depth(lines) && (left > 0 ==> n == |lines|)
  }

  lemma SpanStarts(lines: seq<string>, depth: int)
    requires NeverBelow(lines, depth) && (depth == 0 || lines == [])
    ensures Span(lines, depth) == 0 && Depth(lines[..0]) == 0 && SpanEnds(lines, 0, depth, depth)
  {
    hide Balance;
    assert lines[..0] == [] && lines[0..] == lines;
  }

  lemma NextNever(lines: seq<string>, depth: int)
    requires NeverBelow(lines, depth) && lines != []
    ensures depth >= 0 && NeverBelow(lines[1..], depth + Balance(lines[0]))
  {
    hide Balance;
  }

  lemma DepthNone()
    ensures Depth([]) == 0
  {
  }

  /** Lines whose depth never falls below 0 are split exactly when it ends at 0. */
  lemma {:induction false} SplitAccepts(lines: seq<string>, depth: int)
    requires NeverBelow(lines, depth)
    ensures SplitFrom(lines, depth).Some? <==> depth + Depth(lines) == 0
    decreases |lines|
  {
    hide Balance, HeaderOf, Span, Depth;
    if lines == [] {
      DepthNone();
    } else {
      var h, b := HeaderOf(lines[0]), Balance(lines[0]);
      var rest := lines[1..];
      assert lines == [lines[0]] + rest;
      DepthCons(lines[0], rest);
      if depth != 0 || h.None? {
        SplitAccepts(rest, depth + b);
      } else {
        var n := Span(rest, b);
        SpanLeft(rest, b);
        DepthNone();
        if b + Depth(rest[..n]) == 0 { SplitAccepts(rest[n..], 0); }
      }
    }
  }

  // ---------------------------------------------------------------- which lines are scrubbed

  ghost predicate NoBlockComment(line: Line) {
    forall k :: 0 <= k < |line| ==> !Pair(line, k, '/', '*')
  }

  // Closed without a template: kept.
  lemma {:induction false} KeepsFrom(line: Line, i: nat, quoted: bool, out: string, code: string)
    requires NoBlockComment(line)
    requires var read := Lex(Structure, line, i, StackOf(quoted, 0), false, code); read.verdict.Closed? && !read.nested
    ensures ScrubFrom(line, i, quoted, 0, out).Kept?
    decreases |line| - i
  {
    hide LexExpr, LexText, CommentEnd;
    if i < |line| {
      var ch := line[i];
      if !quoted {
        assert !Pair(line, i, '/', '*');
        assert Lex(Structure, line, i, [], false, code) == LexStructure(line, i, false, code);
        if !LineComment(line, i) { KeepsFrom(line, i + 1, ch == '"', out + [ch], code + [ch]); }
      } else {
        KeepsQuoted(line, i, out, code);
      }
    }
  }

  lemma {:induction false} KeepsQuoted(line: Line, i: nat, out: string, code: string)
    requires NoBlockComment(line) && i < |line|
    requires var read := Lex(Structure, line, i, [Str], false, code); read.verdict.Closed? && !read.nested
    ensures ScrubFrom(line, i, true, 0, out).Kept?
    decreases |line| - i, 0
  {
    hide LexExpr, LexText, LexStructure, CommentEnd, Blunt;
    var ch := line[i];
    assert Lex(Structure, line, i, [Str], false, code) == LexString(Structure, line, i, [Str], false, code);
    assert ScrubFrom(line, i, true, 0, out) == ScrubQuoted(line, i, 0, out);
    assert [Str][..0] == [];
    if ch == '"' {
      KeepsFrom(line, i + 1, false, out + [ch], code + ['"']);
    } else if ch == '\\' {
      KeepsFrom(line, i + 2, true, out + Escape(line, i), code);
    } else if Escaped(line, i) {
      KeepsFrom(line, i + 3, true, out + [ch, ch, '_'], code);
    } else if Template(line, i) {
      NestedStays(Structure, line, i + 2, [Str] + [Expr(0)], code);
    } else {
      KeepsFrom(line, i + 1, true, out + [Blunt(ch, Neutral)], code);
    }
  }

  /** A line whose strings close on it and hold no template is never refused, but for a block comment. */
  lemma ScrubAccepts(line: Line)
    requires NoBlockComment(line) && ReadCode(line).verdict.Closed? && !ReadCode(line).nested
    ensures Scrub(line).Kept?
  {
    KeepsFrom(line, 0, false, "", "");
  }

  // The quote characters from i on.
  function QuotesFrom(line: Line, i: nat): nat
    decreases |line| - i
  {
    if i >= |line| then 0 else (if line[i] == '"' then 1 else 0) + QuotesFrom(line, i + 1)
  }

  lemma {:induction false} FewerQuotes(line: Line, i: nat, j: nat)
    requires i <= j
    ensures QuotesFrom(line, j) <= QuotesFrom(line, i)
    decreases j - i
  {
    if i < j { FewerQuotes(line, i + 1, j); }
  }

  // With no quote left, an open string stays open.
  lemma {:induction false} NeverCloses(line: Line, i: nat, stack: seq<Mode>, nested: bool, code: string)
    requires stack != [] && stack[0].Str? && QuotesFrom(line, i) == 0
    ensures !Lex(Structure, line, i, stack, nested, code).verdict.Closed?
    decreases |line| - i
  {
    hide CommentEnd, LexText, LexStructure;
    if i < |line| {
      forall j: nat, s: seq<Mode>, n, c | j > i && s != [] && s[0].Str? ensures !Lex(Structure, line, j, s, n, c).verdict.Closed? {
        FewerQuotes(line, i, j);
        NeverCloses(line, j, s, n, c);
      }
      if stack[|stack| - 1].Str? {
        assert (stack + [Expr(0)])[0] == stack[0] && line[i] != '"';
        assert Lex(Structure, line, i, stack, nested, code) == LexString(Structure, line, i, stack, nested, code);
        assert !LexString(Structure, line, i, stack, nested, code).verdict.Closed?;
      } else {
        var below := stack[..|stack| - 1];
        assert below[0] == stack[0] && (stack + [Str])[0] == stack[0] && forall m: Mode :: (below + [m])[0] == stack[0];
        assert Lex(Structure, line, i, stack, nested, code) == LexExpr(Structure, line, i, stack, nested, code);
        assert !LexExpr(Structure, line, i, stack, nested, code).verdict.Closed?;
      }
    }
  }

  predicate OneString(line: Line, i: nat, quoted: bool) {
    QuotesFrom(line, i) <= if quoted then 1 else 2
  }

  lemma {:induction false} TakesFrom(line: Line, i: nat, quoted: bool, interp: nat, out: string, nested: bool, code: string)
    requires NoBlockComment(line) && OneString(line, i, quoted) && (!quoted ==> interp == 0)
    requires Lex(Structure, line, i, StackOf(quoted, interp), nested, code).verdict.Closed?
    ensures ScrubFrom(line, i, quoted, interp, out).Kept?
    decreases |line| - i, 1
  {
    hide LexExpr, LexString, LexText, CommentEnd, ScrubQuoted;
    if i < |line| {
      var ch := line[i];
      if !quoted {
        NoneHere(line, i);
        assert Lex(Structure, line, i, [], nested, code) == LexStructure(line, i, nested, code);
        if !LineComment(line, i) { TakesFrom(line, i + 1, ch == '"', 0, out + [ch], nested, code + [ch]); }
      } else if interp == 0 {
        TakesString(line, i, out, nested, code);
      } else {
        TakesExpr(line, i, interp, out, nested, code);
      }
    }
  }

  lemma {:induction false} TakesString(line: Line, i: nat, out: string, nested: bool, code: string)
    requires NoBlockComment(line) && OneString(line, i, true) && i < |line|
    requires Lex(Structure, line, i, [Str], nested, code).verdict.Closed?
    ensures ScrubFrom(line, i, true, 0, out).Kept?
    decreases |line| - i, 0
  {
    hide LexExpr, LexText, LexStructure, CommentEnd, Blunt, Lex, ScrubFrom, NoBlockComment, QuotesFrom;
    var ch := line[i];
    StringAt(line, i, out, nested, code);
    forall j: nat | j > i ensures OneString(line, j, true) && OneString(line, j, false) { FewerQuotes(line, i, j); }
    assert [Str][..0] == [] && [Str] + [Expr(0)] == [Str, Expr(0)];
    if ch == '"' {
      TakesFrom(line, i + 1, false, 0, out + [ch], nested, code + ['"']);
    } else if ch == '\\' {
      TakesFrom(line, i + 2, true, 0, out + Escape(line, i), nested, code);
    } else if Escaped(line, i) {
      TakesFrom(line, i + 3, true, 0, out + [ch, ch, '_'], nested, code);
    } else if Template(line, i) {
      TakesFrom(line, i + 2, true, 1, out + [ch, '_'], true, code);
    } else {
      TakesFrom(line, i + 1, true, 0, out + [Blunt(ch, Neutral)], nested, code);
    }
  }

  lemma StringAt(line: Line, i: nat, out: string, nested: bool, code: string)
    requires i < |line|
    ensures Lex(Structure, line, i, [Str], nested, code) == LexString(Structure, line, i, [Str], nested, code)
    ensures ScrubFrom(line, i, true, 0, out) == ScrubQuoted(line, i, 0, out)
  {
  }

  lemma {:induction false} TakesExpr(line: Line, i: nat, interp: nat, out: string, nested: bool, code: string)
    requires NoBlockComment(line) && OneString(line, i, true) && i < |line| && interp > 0
    requires Lex(Structure, line, i, [Str, Expr(interp - 1)], nested, code).verdict.Closed?
    ensures ScrubFrom(line, i, true, interp, out).Kept?
    decreases |line| - i, 0
  {
    hide Lex, CommentEnd, Blunt, NoBlockComment, QuotesFrom, Waived;
    var ch := line[i];
    NoneHere(line, i);
    if Waived(line, i) { WaivedReads(line, i, interp - 1, nested, code); }
    ExprStops(line, i, interp, nested, code);
    WaivedIs(line, i);
    forall j: nat | j > i ensures OneString(line, j, true) && OneString(line, j, false) { FewerQuotes(line, i, j); }
    assert ScrubFrom(line, i, true, interp, out) == ScrubQuoted(line, i, interp, out);
    if Template(line, i) {
      ExprTemplate(line, i, interp - 1, nested, code);
      TakesFrom(line, i + 2, true, interp + 1, out + [ch, '_'], nested, code);
    } else {
      assert !Escaped(line, i);
      assert ScrubQuoted(line, i, interp, out) == ScrubExpr(line, i, interp, out);
      ExprToken(line, i, interp, nested, code);
      TakesFrom(line, i + 1, true, interp + Brace(ch), out + [Blunt(ch, NeutralInTemplate)], nested, code);
    }
  }

  lemma WaivedIs(line: Line, i: nat)
    requires !Waived(line, i)
    ensures !Is(line, i, '$') && !Is(line, i, '\\') && !Pair(line, i, '%', '%') && (Pair(line, i, '<', '<') ==> TagOnly(line, i + 2))
  {
  }

  // Where a closed reading of an expression does not go.
  lemma ExprStops(line: Line, i: nat, interp: nat, nested: bool, code: string)
    requires OneString(line, i, true) && i < |line| && interp > 0
    requires Lex(Structure, line, i, [Str, Expr(interp - 1)], nested, code).verdict.Closed?
    ensures !LineComment(line, i) && !Pair(line, i, '<', '<') && line[i] != '"'
  {
    hide LexString, LexStructure, LexText, CommentEnd;
    var s := [Str, Expr(interp - 1)];
    assert Lex(Structure, line, i, s, nested, code) == LexExpr(Structure, line, i, s, nested, code);
    if line[i] == '"' { NeverCloses(line, i + 1, s + [Str], nested, code); }
  }

  /** Nor is a line of one string, templates and all, that closes on it. */
  lemma TemplateAccepts(line: Line)
    requires NoBlockComment(line) && ReadCode(line).verdict.Closed? && QuotesFrom(line, 0) <= 2
    ensures Scrub(line).Kept?
  {
    TakesFrom(line, 0, false, 0, "", false, "");
  }

  // ---------------------------------------------------------------- a lone return

  predicate Returns(s: string) {
    exists k :: 0 <= k < |s| && s[k] == '\r'
  }

  lemma ReturnsStay(a: string, b: string)
    ensures Returns(a + b) <==> Returns(a) || Returns(b)
  {
    if k :| 0 <= k < |a| && a[k] == '\r' { assert (a + b)[k] == '\r'; }
    if k :| 0 <= k < |b| && b[k] == '\r' { assert (a + b)[|a| + k] == '\r'; }
    if k :| 0 <= k < |a + b| && (a + b)[k] == '\r' { assert if k < |a| then a[k] == '\r' else b[k - |a|] == '\r'; }
  }

  // The next m characters of the line, kept as piece, and the rest kept too.
  lemma PieceKept(line: Line, i: nat, m: nat, c: nat, out: string, piece: string)
    requires i + m <= c <= |line| && (Returns(line[i..i + m]) ==> Returns(piece))
    ensures Returns(out + line[i..c]) ==> Returns(out + piece + line[i + m..c])
  {
    hide Returns;
    assert line[i..c] == line[i..i + m] + line[i + m..c];
    ReturnsStay(out, line[i..c]);
    ReturnsStay(line[i..i + m], line[i + m..c]);
    ReturnsStay(out + piece, line[i + m..c]);
    ReturnsStay(out, piece);
  }

  ghost predicate KeepsReturns(line: Line, i: nat, out: string, r: Scrubbed) {
    r.Kept? ==> i <= r.code <= |line| && (Returns(out + line[i..r.code]) ==> Returns(r.text))
  }

  lemma StepKeeps(line: Line, i: nat, m: nat, out: string, piece: string, r: Scrubbed)
    requires i + m <= |line| ==> Returns(line[i..i + m]) ==> Returns(piece)
    requires KeepsReturns(line, i + m, out + piece, r)
    ensures KeepsReturns(line, i, out, r)
  {
    hide Returns;
    if r.Kept? { PieceKept(line, i, m, r.code, out, piece); }
  }

  lemma KeptAtEnd(line: Line, i: nat, out: string)
    requires i <= |line|
    ensures KeepsReturns(line, i, out, Kept(out, i)) && KeepsReturns(line, i, out, Refusal)
  {
    assert out + line[i..i] == out;
  }

  lemma {:induction false} ReturnsFrom(line: Line, i: nat, quoted: bool, interp: nat, out: string)
    requires NoBlockComment(line) && (!quoted ==> i <= |line|)
    ensures KeepsReturns(line, i, out, ScrubFrom(line, i, quoted, interp, out))
    decreases |line| - i, 1
  {
    hide KeepsReturns, Returns, CommentEnd, ScrubQuoted;
    if i >= |line| {
      if quoted { RefusedKeeps(line, i, out); } else { KeptAtEnd(line, i, out); }
    } else if quoted {
      ReturnsQuoted(line, i, interp, out);
    } else {
      KeptAtEnd(line, i, out);
      ReturnsFrom(line, i + 1, line[i] == '"', 0, out + [line[i]]);
      assert line[i..i + 1] == [line[i]];
      StepKeeps(line, i, 1, out, [line[i]], ScrubFrom(line, i + 1, line[i] == '"', 0, out + [line[i]]));
    }
  }

  lemma RefusedKeeps(line: Line, i: nat, out: string)
    ensures KeepsReturns(line, i, out, Refusal)
  {
  }

  // What one character of a string is kept as holds its return.
  lemma PieceReturns(line: Line, i: nat)
    requires i < |line|
    ensures line[i] == '\\' && i + 2 <= |line| && Returns(line[i..i + 2]) ==> Returns(Escape(line, i))
    ensures Escaped(line, i) ==> i + 3 <= |line| && !Returns(line[i..i + 3])
    ensures Template(line, i) ==> i + 2 <= |line| && !Returns(line[i..i + 2])
    ensures Returns(line[i..i + 1]) ==> Returns([Blunt(line[i], Neutral)]) && Returns([Blunt(line[i], NeutralInTemplate)]) && Returns([line[i]])
  {
    Underscore();
    if Returns(line[i..i + 1]) {
      assert line[i] == '\r';
      assert [Blunt(line[i], Neutral)][0] == '\r' && [Blunt(line[i], NeutralInTemplate)][0] == '\r' && [line[i]][0] == '\r';
    }
    if line[i] == '\\' && i + 2 <= |line| && Returns(line[i..i + 2]) {
      assert line[i + 1] == '\r';
      assert Escape(line, i)[0] == '\r';
    }
  }

  lemma {:induction false} ReturnsQuoted(line: Line, i: nat, interp: nat, out: string)
    requires NoBlockComment(line) && i < |line|
    ensures KeepsReturns(line, i, out, ScrubFrom(line, i, true, interp, out))
    decreases |line| - i, 0
  {
    hide KeepsReturns, Returns, CommentEnd, Blunt, Escape, NoBlockComment;
    var ch := line[i];
    assert !Pair(line, i, '/', '*') by { NoneHere(line, i); }
    PieceReturns(line, i);
    RefusedKeeps(line, i, out);
    assert ScrubFrom(line, i, true, interp, out) == ScrubQuoted(line, i, interp, out);
    if ch == '\\' {
      ReturnsFrom(line, i + 2, true, interp, out + Escape(line, i));
      StepKeeps(line, i, 2, out, Escape(line, i), ScrubFrom(line, i + 2, true, interp, out + Escape(line, i)));
    } else if Escaped(line, i) {
      ReturnsFrom(line, i + 3, true, interp, out + [ch, ch, '_']);
      StepKeeps(line, i, 3, out, [ch, ch, '_'], ScrubFrom(line, i + 3, true, interp, out + [ch, ch, '_']));
    } else if Template(line, i) {
      ReturnsFrom(line, i + 2, true, interp + 1, out + [ch, '_']);
      StepKeeps(line, i, 2, out, [ch, '_'], ScrubFrom(line, i + 2, true, interp + 1, out + [ch, '_']));
    } else if interp > 0 {
      if !LineComment(line, i) && ch != '"' { ReturnsOne(line, i, true, interp + Brace(ch), out, Blunt(ch, NeutralInTemplate)); }
    } else if ch == '"' {
      ReturnsOne(line, i, false, 0, out, ch);
    } else {
      ReturnsOne(line, i, true, 0, out, Blunt(ch, Neutral));
    }
  }

  lemma NoneHere(line: Line, i: nat)
    requires NoBlockComment(line)
    ensures !Pair(line, i, '/', '*')
  {
  }

  lemma {:induction false} ReturnsOne(line: Line, i: nat, quoted: bool, interp: nat, out: string, c: char)
    requires NoBlockComment(line) && i < |line| && (Returns(line[i..i + 1]) ==> Returns([c]))
    ensures KeepsReturns(line, i, out, ScrubFrom(line, i + 1, quoted, interp, out + [c]))
    decreases |line| - i - 1, 2
  {
    hide KeepsReturns, Returns, ScrubFrom;
    ReturnsFrom(line, i + 1, quoted, interp, out + [c]);
    StepKeeps(line, i, 1, out, [c], ScrubFrom(line, i + 1, quoted, interp, out + [c]));
  }

  /** A lone return ahead of the line's comment refuses the line wherever it stands, behind a backslash as well. */
  lemma LoneReturnRefused(line: Line)
    requires NoBlockComment(line) && Scrub(line).Kept?
    requires exists k :: 0 <= k < Scrub(line).code && Is(line, k, '\r')
    ensures ReadLine(line).Bad?
  {
    hide ScrubFrom, PairAt, TagOf;
    ReturnsFrom(line, 0, false, 0, "");
    var s := Scrub(line);
    var at :| 0 <= at < s.code && Is(line, at, '\r');
    assert ("" + line[0..s.code])[at] == '\r';
    var k :| 0 <= k < |s.text| && s.text[k] == '\r';
    assert Forbidden(s.text[k]);
  }
}
