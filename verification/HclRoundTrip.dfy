/** No top-level header goes unread, and printed blocks read back. */
module HclRoundTrip {
  import opened Options
  import opened HclLexer
  import opened HclScrub
  import opened HclBlocks

  // ---------------------------------------------------------------- every header at depth 0

  // The depth never falls below 0.
  predicate NeverBelow(lines: seq<string>, depth: int) {
    depth >= 0 && (lines == [] || NeverBelow(lines[1..], depth + Balance(lines[0])))
  }

  // The lines from here that leave the depth above 0.
  function Inside(lines: seq<string>, depth: int): seq<string> {
    if lines == [] || depth + Balance(lines[0]) <= 0 then []
    else [lines[0]] + Inside(lines[1..], depth + Balance(lines[0]))
  }

  // One walk over the lines: a block at every header the depth is 0 at.
  function TopBlocks(lines: seq<string>, depth: int): seq<Block> {
    if lines == [] then []
    else
      var next := depth + Balance(lines[0]);
      var h := HeaderOf(lines[0]);
      (if depth == 0 && h.Some? then [Block(h.value, if next > 0 then Inside(lines[1..], next) else [])] else [])
      + TopBlocks(lines[1..], next)
  }

  lemma {:induction false} DepthCons(x: string, lines: seq<string>)
    ensures Depth([x] + lines) == Balance(x) + Depth(lines)
    decreases |lines|
  {
    hide Balance;
    if lines == [] {
      assert [x] + lines == [x] && [x][..0] == [];
      assert Depth([x]) == Depth([]) + Balance(x);
    } else {
      var short := lines[..|lines| - 1];
      DepthCons(x, short);
      assert ([x] + lines)[..|lines|] == [x] + short;
    }
  }

  // One line into a span.
  lemma SpanNext(lines: seq<string>, depth: int)
    requires depth > 0 && lines != []
    ensures var n := Span(lines, depth); var next := depth + Balance(lines[0]);
      && n == 1 + Span(lines[1..], next)
      && depth + Depth(lines[..n]) == next + Depth(lines[1..][..n - 1])
      && lines[n..] == lines[1..][n - 1..]
  {
    hide Balance, Depth;
    var n := Span(lines, depth);
    assert lines[..n] == [lines[0]] + lines[1..][..n - 1];
    DepthCons(lines[0], lines[1..][..n - 1]);
  }

  // A block's span: nothing in it is at depth 0, and it ends at depth 0.
  lemma {:induction false} SpanWalk(lines: seq<string>, depth: int)
    requires NeverBelow(lines, depth) && depth + Depth(lines[..Span(lines, depth)]) <= 0
    ensures var n := Span(lines, depth);
      TopBlocks(lines, depth) == TopBlocks(lines[n..], 0) && NeverBelow(lines[n..], 0)
    decreases |lines|
  {
    hide Balance, HeaderOf, Depth, Span;
    if depth == 0 {
      SpanNone(lines, depth);
      assert lines[0..] == lines;
    } else if lines == [] {
      SpanGrows(lines, depth);
    } else {
      var next := depth + Balance(lines[0]);
      SpanNext(lines, depth);
      SpanWalk(lines[1..], next);
      assert [] + TopBlocks(lines[1..], next) == TopBlocks(lines[1..], next);
    }
  }

  lemma {:induction false} SpanBody(lines: seq<string>, depth: int)
    requires depth > 0 && depth + Depth(lines[..Span(lines, depth)]) <= 0
    ensures BodyOf(lines, Span(lines, depth)) == Inside(lines, depth)
    decreases |lines|
  {
    hide Balance, Depth, Span;
    SpanGrows(lines, depth);
    if lines != [] {
      var n, next := Span(lines, depth), depth + Balance(lines[0]);
      SpanNext(lines, depth);
      if next > 0 {
        SpanGrows(lines[1..], next);
        SpanBody(lines[1..], next);
        assert lines[..n - 1] == [lines[0]] + lines[1..][..n - 2];
      } else {
        SpanNone(lines[1..], next);
      }
    }
  }

  // Above 0 and closed within the lines, a span has a closing line.
  lemma SpanGrows(lines: seq<string>, depth: int)
    requires depth > 0 && depth + Depth(lines[..Span(lines, depth)]) <= 0
    ensures Span(lines, depth) > 0
  {
  }

  /**
   Over an accepted file whose depth never falls below 0, the splitter reports a
   block for every header the depth is 0 at, in order, each with exactly the
   lines inside it: no top-level resource or module goes unread.
   */
  lemma {:induction false} NoHeaderUnread(lines: seq<string>, depth: int)
    requires NeverBelow(lines, depth) && SplitFrom(lines, depth).Some?
    ensures SplitFrom(lines, depth).value == TopBlocks(lines, depth)
    decreases |lines|
  {
    hide Balance, HeaderOf, Span, Depth;
    if lines != [] {
      var h, b := HeaderOf(lines[0]), Balance(lines[0]);
      if depth != 0 || h.None? {
        NoHeaderUnread(lines[1..], depth + b);
        assert [] + TopBlocks(lines[1..], depth + b) == TopBlocks(lines[1..], depth + b);
      } else {
        var rest := lines[1..];
        var n := Span(rest, b);
        SpanWalk(rest, b);
        NoHeaderUnread(rest[n..], 0);
        if b <= 0 { SpanNone(rest, b); } else { SpanBody(rest, b); }
      }
    }
  }

  lemma SpanNone(lines: seq<string>, depth: int)
    requires depth <= 0
    ensures Span(lines, depth) == 0
  {
  }

  // ---------------------------------------------------------------- printing

  // A character a string of a header can hold and keep.
  predicate PlainChar(c: char) {
    c !in "\"\\$%{}#<" && !Forbidden(c)
  }

  predicate PlainName(s: string) {
    s != [] && forall k :: 0 <= k < |s| ==> PlainChar(s[k])
  }

  predicate PlainHeader(h: Header) {
    PlainName(h.name) && (h.Resource? ==> PlainName(h.kind))
  }

  function Quote(s: string): string {
    "\"" + s + "\""
  }

  function PrintHeader(h: Header): string {
    match h
    case Resource(kind, name) => "resource " + Quote(kind) + " " + Quote(name) + " {"
    case Module(name) => "module " + Quote(name) + " {"
  }

  // A block to print: a header and its body's raw lines, heredocs and all.
  datatype Source = Source(header: Header, body: seq<Line>)

  function Print(blocks: seq<Source>): seq<Line> {
    if blocks == [] then []
    else [PrintHeader(blocks[0].header)] + blocks[0].body + ["}"] + Print(blocks[1..])
  }

  // The body reads on its own, to lines that stay inside the block.
  ghost predicate WellFormed(s: Source) {
    && PlainHeader(s.header)
    && exists out :: Reads(s, out)
  }

  ghost predicate Reads(s: Source, out: seq<string>) {
    && StripFrom(s.body + ["}"], None) == Some(out + ["}"])
    && NeverBelow(out, 0) && Depth(out) == 0
  }

  // What the source's body is scrubbed to.
  function Scrubbing(s: Source): seq<string> {
    var r := StripFrom(s.body + ["}"], None);
    if r.Some? && r.value != [] then r.value[..|r.value| - 1] else []
  }

  function Expected(blocks: seq<Source>): (r: seq<Block>) {
    if blocks == [] then [] else [Block(blocks[0].header, Scrubbing(blocks[0]))] + Expected(blocks[1..])
  }

  // ---------------------------------------------------------------- reading a concatenation

  /** An accepted run of lines reads the same whatever follows it. */
  lemma {:induction false} StripConcat(a: seq<Line>, b: seq<Line>, tag: Option<string>)
    requires StripFrom(a, tag).Some?
    ensures StripFrom(a + b, tag) == Prepend(StripFrom(a, tag).value, StripFrom(b, None))
    decreases |a|
  {
    hide ReadLine, Terminates, BadBody;
    if a == [] {
      assert a + b == b;
      PrependNone(StripFrom(b, None));
    } else {
      assert (a + b)[0] == a[0] && (a + b)[1..] == a[1..] + b;
      var next, text := NextTag(a[0], tag), TextOf(a[0], tag);
      StripStep(a, tag);
      StripStep(a + b, tag);
      StripConcat(a[1..], b, next);
      PrependTwice([text], StripFrom(a[1..], next).value, StripFrom(b, None));
    }
  }

  function NextTag(line: Line, tag: Option<string>): Option<string> {
    if tag.Some? then (if Terminates(line, tag.value) then None else tag)
    else if ReadLine(line).Opens? then Some(ReadLine(line).tag) else None
  }

  function TextOf(line: Line, tag: Option<string>): string {
    if tag.Some? || ReadLine(line).Bad? then "" else ReadLine(line).text
  }

  predicate Stops(raw: seq<Line>, tag: Option<string>)
    requires raw != []
  {
    if tag.Some? then BadBody(raw[0]) || (Terminates(raw[0], tag.value) && |raw| == 1) else ReadLine(raw[0]).Bad?
  }

  lemma StripStep(raw: seq<Line>, tag: Option<string>)
    requires raw != []
    ensures StripFrom(raw, tag)
         == if Stops(raw, tag) then None else Prepend([TextOf(raw[0], tag)], StripFrom(raw[1..], NextTag(raw[0], tag)))
  {
  }

  // ---------------------------------------------------------------- a header line scrubs to itself

  lemma {:induction false} OutsideRun(line: Line, i: nat, j: nat, out: string)
    requires i <= j <= |line| && forall k :: i <= k < j ==> line[k] !in "\"#/"
    ensures ScrubFrom(line, i, false, 0, out) == ScrubFrom(line, j, false, 0, out + line[i..j])
    decreases j - i
  {
    if i == j {
      assert out + line[i..j] == out;
    } else {
      OutsideRun(line, i + 1, j, out + [line[i]]);
      assert out + [line[i]] + line[i + 1..j] == out + line[i..j];
      assert ScrubFrom(line, i, false, 0, out) == ScrubFrom(line, i + 1, false, 0, out + [line[i]]);
    }
  }

  lemma {:induction false} InsideRun(line: Line, i: nat, j: nat, out: string)
    requires i <= j <= |line| && forall k :: i <= k < j ==> PlainChar(line[k])
    ensures ScrubFrom(line, i, true, 0, out) == ScrubFrom(line, j, true, 0, out + line[i..j])
    decreases j - i
  {
    if i == j {
      assert out + line[i..j] == out;
    } else {
      InsideRun(line, i + 1, j, out + [line[i]]);
      assert out + [line[i]] + line[i + 1..j] == out + line[i..j];
      InsideOne(line, i, out);
    }
  }

  lemma InsideOne(line: Line, i: nat, out: string)
    requires i < |line| && PlainChar(line[i])
    ensures ScrubFrom(line, i, true, 0, out) == ScrubFrom(line, i + 1, true, 0, out + [line[i]])
  {
  }

  lemma SliceOfSlice(s: string, i: nat, j: nat, a: nat, b: nat)
    requires i <= j <= |s| && a <= b <= j - i
    ensures s[i..j][a..b] == s[i + a..i + b]
  {
    var x, y := s[i..j][a..b], s[i + a..i + b];
    forall k | 0 <= k < |x| ensures x[k] == y[k] { assert s[i..j][a + k] == s[i + a + k]; }
  }

  lemma At(a: string, b: string, c: string)
    ensures (a + b + c)[|a|..|a| + |b|] == b
  {
  }

  // A quoted name at i, scrubbed whole.
  lemma QuotedRun(line: Line, i: nat, name: string, out: string)
    requires PlainName(name) && i + |name| + 2 <= |line| && line[i..i + |name| + 2] == Quote(name)
    ensures ScrubFrom(line, i, false, 0, out) == ScrubFrom(line, i + |name| + 2, false, 0, out + Quote(name))
  {
    hide ScrubFrom, ScrubQuoted;
    var q := line[i..i + |name| + 2];
    var e := i + 1 + |name|;
    assert line[i] == q[0] == '"' && line[e] == q[|name| + 1] == '"';
    forall k | i + 1 <= k < e ensures PlainChar(line[k]) { assert line[k] == q[k - i] == name[k - i - 1]; }
    OpenQuote(line, i, out);
    InsideRun(line, i + 1, e, out + ['"']);
    CloseQuote(line, e, out + ['"'] + line[i + 1..e]);
    SliceOfSlice(line, i, i + |name| + 2, 1, |name| + 1);
    At("\"", name, "\"");
    assert out + ['"'] + name + ['"'] == out + Quote(name);
  }

  lemma OpenQuote(line: Line, i: nat, out: string)
    requires Is(line, i, '"')
    ensures ScrubFrom(line, i, false, 0, out) == ScrubFrom(line, i + 1, true, 0, out + ['"'])
  {
  }

  lemma CloseQuote(line: Line, i: nat, out: string)
    requires Is(line, i, '"')
    ensures ScrubFrom(line, i, true, 0, out) == ScrubFrom(line, i + 1, false, 0, out + ['"'])
  {
  }

  // Text, a quoted name and the rest: scrubbing passes over the first two.
  lemma ScrubPart(line: Line, before: string, gap: string, name: string, after: string)
    requires line == before + gap + Quote(name) + after && PlainName(name)
    requires forall k :: 0 <= k < |gap| ==> gap[k] !in "\"#/"
    ensures ScrubFrom(line, |before|, false, 0, before)
         == ScrubFrom(line, |before + gap + Quote(name)|, false, 0, before + gap + Quote(name))
  {
    hide ScrubFrom;
    var i, j := |before|, |before| + |gap|;
    assert line == before + gap + (Quote(name) + after);
    At(before, gap, Quote(name) + after);
    forall k | i <= k < j ensures line[k] !in "\"#/" { assert line[k] == gap[k - i]; }
    OutsideRun(line, i, j, before);
    assert line == before + gap + Quote(name) + after;
    At(before + gap, Quote(name), after);
    QuotedRun(line, j, name, before + gap);
  }

  lemma ScrubEnd(line: Line, out: string)
    ensures ScrubFrom(line, |line|, false, 0, out) == Kept(out, |line|)
  {
  }

  lemma ScrubTail(line: Line, before: string, tail: string)
    requires line == before + tail && forall k :: 0 <= k < |tail| ==> tail[k] !in "\"#/"
    ensures ScrubFrom(line, |before|, false, 0, before) == Kept(line, |line|)
  {
    hide ScrubFrom;
    forall k | |before| <= k < |line| ensures line[k] !in "\"#/" { assert line[k] == tail[k - |before|]; }
    OutsideRun(line, |before|, |line|, before);
    ScrubEnd(line, line);
    assert before + line[|before|..|line|] == line;
  }

  lemma ScrubHeader(h: Header)
    requires PlainHeader(h)
    ensures Scrub(PrintHeader(h)) == Kept(PrintHeader(h), |PrintHeader(h)|)
  {
    hide ScrubFrom, Quote, PlainName;
    var line := PrintHeader(h);
    match h
    case Resource(kind, name) =>
      var mid := "resource " + Quote(kind);
      assert line == "" + "resource " + Quote(kind) + (" " + Quote(name) + " {");
      ScrubPart(line, "", "resource ", kind, " " + Quote(name) + " {");
      assert "" + "resource " + Quote(kind) == mid;
      assert line == mid + " " + Quote(name) + " {";
      ScrubPart(line, mid, " ", name, " {");
      ScrubTail(line, mid + " " + Quote(name), " {");
    case Module(name) =>
      assert line == "" + "module " + Quote(name) + " {";
      ScrubPart(line, "", "module ", name, " {");
      ScrubTail(line, "" + "module " + Quote(name), " {");
  }

  // ---------------------------------------------------------------- a header line reads back

  predicate Harmless(s: string) {
    forall k :: 0 <= k < |s| ==> s[k] != '<' && s[k] !in "{}" && !Forbidden(s[k])
  }

  lemma HarmlessConcat(a: string, b: string)
    requires Harmless(a) && Harmless(b)
    ensures Harmless(a + b)
  {
  }

  lemma QuoteHarmless(name: string)
    requires PlainName(name)
    ensures Harmless(Quote(name))
  {
  }

  function HeaderText(h: Header): string {
    match h
    case Resource(kind, name) => "resource " + Quote(kind) + " " + Quote(name) + " "
    case Module(name) => "module " + Quote(name) + " "
  }

  lemma HeaderHarmless(h: Header)
    requires PlainHeader(h)
    ensures PrintHeader(h) == HeaderText(h) + "{" && Harmless(HeaderText(h))
  {
    hide Quote, PlainName, Harmless;
    Words();
    QuoteHarmless(h.name);
    match h
    case Resource(kind, name) =>
      QuoteHarmless(kind);
      HarmlessConcat("resource ", Quote(kind));
      HarmlessConcat("resource " + Quote(kind), " ");
      HarmlessConcat("resource " + Quote(kind) + " ", Quote(name));
      HarmlessConcat("resource " + Quote(kind) + " " + Quote(name), " ");
    case Module(name) =>
      HarmlessConcat("module ", Quote(name));
      HarmlessConcat("module " + Quote(name), " ");
  }

  lemma Words()
    ensures Harmless("resource ") && Harmless("module ") && Harmless(" ")
  {
  }

  lemma {:induction false} HarmlessBalance(s: string)
    requires Harmless(s)
    ensures Balance(s) == 0
    decreases |s|
  {
    if s != [] { HarmlessBalance(s[..|s| - 1]); }
  }

  // A line that scrubs to itself and holds nothing refused is read as it is.
  lemma PlainReads(line: Line)
    requires Scrub(line) == Kept(line, |line|)
    requires forall k :: 0 <= k < |line| ==> line[k] != '<' && !Forbidden(line[k])
    ensures ReadLine(line) == Plain(line)
  {
  }

  lemma HeaderReads(h: Header)
    requires PlainHeader(h)
    ensures ReadLine(PrintHeader(h)) == Plain(PrintHeader(h)) && Balance(PrintHeader(h)) == 1
  {
    hide Scrub, Balance, ReadLine, PrintHeader, HeaderText, Harmless, PlainHeader, Outside, Quotes, InsideFree;
    ScrubHeader(h);
    HeaderHarmless(h);
    HarmlessBalance(HeaderText(h));
    Append(HeaderText(h), '{');
    HarmlessOpens(HeaderText(h));
    PlainReads(PrintHeader(h));
  }

  lemma HarmlessOpens(s: string)
    requires Harmless(s)
    ensures forall k :: 0 <= k < |s + "{"| ==> (s + "{")[k] != '<' && !Forbidden((s + "{")[k])
  {
  }

  lemma CloserReads()
    ensures ReadLine("}") == Plain("}") && Balance("}") == -1
  {
  }

  // The characters of a quoted name behind a space.
  lemma PartChars(s: string, i: nat, name: string)
    requires PlainName(name) && i + |name| + 3 <= |s| && s[i..i + |name| + 3] == " " + Quote(name)
    ensures s[i] == ' ' && s[i + 1] == '"' && s[i + 2 + |name|] == '"' && s[i + 2..i + 2 + |name|] == name
    ensures forall k :: i + 2 <= k < i + 2 + |name| ==> s[k] != '"'
  {
    var q := s[i..i + |name| + 3];
    assert s[i] == q[0] && s[i + 1] == q[1] && s[i + 2 + |name|] == q[|name| + 2];
    forall k | i + 2 <= k < i + 2 + |name| ensures s[k] != '"' { assert s[k] == q[k - i] == name[k - i - 2]; }
    SliceOfSlice(s, i, i + |name| + 3, 2, |name| + 2);
    assert " " + Quote(name) == " \"" + name + "\"";
    At(" \"", name, "\"");
  }

  lemma PartReads(s: string, i: nat, name: string)
    requires PlainName(name) && i + |name| + 3 <= |s| && s[i..i + |name| + 3] == " " + Quote(name)
    ensures QuotedPart(s, i) == Some(Part(name, i + |name| + 3))
  {
    hide Quote;
    PartChars(s, i, name);
    assert name != [];
    assert SkipSpaces(s, i) == i + 1;
    assert NextQuote(s, i + 2) == i + 2 + |name|;
  }

  lemma ResourceIs(kind: string, name: string)
    requires PlainName(kind) && PlainName(name)
    ensures var s := PrintHeader(Resource(kind, name));
      SkipSpaces(s, 0) == 0 && Keyword(s, 0, "resource") && ResourceAt(s, 8) == Some(Resource(kind, name))
  {
    hide PlainName, QuotedPart, Quote;
    var s := PrintHeader(Resource(kind, name));
    var tail := " " + Quote(name) + " {";
    assert s == "resource" + (" " + Quote(kind)) + tail;
    At("resource", " " + Quote(kind), tail);
    QuoteSize(kind);
    QuoteSize(name);
    PartReads(s, 8, kind);
    var mid := "resource" + (" " + Quote(kind));
    assert s == mid + (" " + Quote(name)) + " {";
    At(mid, " " + Quote(name), " {");
    PartReads(s, |kind| + 11, name);
    assert s[0..8] == "resource" && s[0] == 'r';
  }

  lemma ModuleIs(name: string)
    requires PlainName(name)
    ensures var s := PrintHeader(Module(name));
      && SkipSpaces(s, 0) == 0 && !Keyword(s, 0, "resource") && Keyword(s, 0, "module")
      && QuotedPart(s, 6).Some? && QuotedPart(s, 6).value.text == name
  {
    hide PlainName, QuotedPart, Quote;
    var s := PrintHeader(Module(name));
    assert s == "module" + (" " + Quote(name)) + " {";
    At("module", " " + Quote(name), " {");
    QuoteSize(name);
    PartReads(s, 6, name);
    assert s[0..6] == "module" && s[0] == 'm';
    assert "resource"[0] == 'r';
  }

  lemma QuoteSize(name: string)
    ensures |Quote(name)| == |name| + 2
  {
  }

  lemma HeaderIs(h: Header)
    requires PlainHeader(h)
    ensures HeaderOf(PrintHeader(h)) == Some(h)
  {
    hide PlainName, QuotedPart, PrintHeader, SkipSpaces, Keyword, ResourceAt;
    match h
    case Resource(kind, name) => ResourceIs(kind, name);
    case Module(name) => ModuleIs(name);
  }

  // ---------------------------------------------------------------- a block reads back

  lemma StripBlock(b: Source, rest: seq<Line>)
    requires WellFormed(b)
    ensures StripFrom([PrintHeader(b.header)] + b.body + ["}"] + rest, None)
         == Prepend([PrintHeader(b.header)] + Scrubbing(b) + ["}"], StripFrom(rest, None))
    ensures Reads(b, Scrubbing(b)) && PlainHeader(b.header)
  {
    hide ReadLine, PrintHeader;
    var out :| Reads(b, out);
    assert (out + ["}"])[..|out|] == out;
    var head, tail := PrintHeader(b.header), b.body + ["}"];
    HeaderReads(b.header);
    StripConcat(tail, rest, None);
    var all := [head] + (tail + rest);
    assert all == [head] + b.body + ["}"] + rest;
    assert all[0] == head && all[1..] == tail + rest;
    StripStep(all, None);
    PrependTwice([head], out + ["}"], StripFrom(rest, None));
    assert [head] + (out + ["}"]) == [head] + out + ["}"];
  }

  // A body that stays inside runs to the brace that closes its block.
  lemma {:induction false} SpanIs(out: seq<string>, rest: seq<string>, depth: int)
    requires depth >= 0 && NeverBelow(out, depth) && depth + Depth(out) == 0
    ensures Span(out + ["}"] + rest, depth + 1) == |out| + 1
    decreases |out|
  {
    hide Balance;
    CloserReads();
    if out == [] {
      assert out + ["}"] + rest == ["}"] + rest;
      assert (["}"] + rest)[0] == "}" && (["}"] + rest)[1..] == rest;
    } else {
      var lines := out + ["}"] + rest;
      assert lines[0] == out[0] && lines[1..] == out[1..] + ["}"] + rest;
      assert out == [out[0]] + out[1..];
      DepthCons(out[0], out[1..]);
      SpanIs(out[1..], rest, depth + Balance(out[0]));
    }
  }

  lemma {:induction false} DepthConcat(a: seq<string>, x: string)
    ensures Depth(a + [x]) == Depth(a) + Balance(x)
  {
  }

  lemma SplitBlock(h: Header, out: seq<string>, rest: seq<string>)
    requires PlainHeader(h) && NeverBelow(out, 0) && Depth(out) == 0
    ensures SplitFrom([PrintHeader(h)] + out + ["}"] + rest, 0) == Join([Block(h, out)], SplitFrom(rest, 0))
  {
    hide Balance, HeaderOf, Span, PrintHeader, Depth;
    var head := PrintHeader(h);
    HeaderReads(h);
    HeaderIs(h);
    CloserReads();
    SpanIs(out, rest, 0);
    var inner := out + ["}"] + rest;
    var lines := [head] + out + ["}"] + rest;
    assert lines[0] == head && lines[1..] == inner;
    assert inner[..|out| + 1] == out + ["}"] && inner[|out| + 1..] == rest && inner[..|out|] == out;
    DepthConcat(out, "}");
  }

  /** Printing any list of well-formed blocks and reading the file returns their headers, in order, with their bodies scrubbed. */
  lemma {:induction false} PrintedBlocksReadBack(blocks: seq<Source>)
    requires forall i :: 0 <= i < |blocks| ==> WellFormed(blocks[i])
    ensures BlocksOf(Print(blocks)) == Some(Expected(blocks))
    decreases |blocks|
  {
    hide StripFrom, SplitFrom, PrintHeader, WellFormed, Scrubbing, NeverBelow, Depth;
    if blocks == [] {
      NoLines();
    } else {
      var b, rest := blocks[0], Print(blocks[1..]);
      PrintedBlocksReadBack(blocks[1..]);
      StripBlock(b, rest);
      var lines := StripFrom(rest, None).value;
      SplitBlock(b.header, Scrubbing(b), lines);
    }
  }

  lemma NoLines()
    ensures StripFrom([], None) == Some([]) && SplitFrom([], 0) == Some([])
  {
  }
}
