/**
 Reading a file's top-level blocks (deploy/gcp/check_split.py:478-718): its
 lines scrubbed and its heredocs blanked, then split at brace depth 0.
 */
module HclBlocks {
  import opened Options
  import opened HclLexer
  import opened HclTemplate
  import opened HclScrub

  // str.isspace, which str.strip and the header patterns' \s share.
  predicate Space(c: char) {
    || '\t' <= c <= '\r' || '\U{001C}' <= c <= ' ' || c == '\U{0085}' || c == '\U{00A0}' || c == '\U{1680}'
    || '\U{2000}' <= c <= '\U{200A}' || c == '\U{2028}' || c == '\U{2029}' || c == '\U{202F}' || c == '\U{205F}' || c == '\U{3000}'
  }

  predicate Separator(c: char) {
    '\U{001C}' <= c <= '\U{001F}'
  }

  // ---------------------------------------------------------------- heredocs

  function PairAt(text: string, i: nat): (at: int)
    ensures at == -1 || (i <= at && Pair(text, at, '<', '<'))
    decreases |text| - i
  {
    if i >= |text| then -1 else if Pair(text, i, '<', '<') then i else PairAt(text, i + 1)
  }

  predicate TagStart(c: char) {
    'a' <= c <= 'z' || 'A' <= c <= 'Z' || c == '_'
  }

  // The tag an opener at this place names, if it reads as one and ends the text.
  function TagOf(text: string, at: nat): Option<string> {
    var p := if Is(text, at + 2, '-') then at + 3 else at + 2;
    if p < |text| && TagStart(text[p]) && TagOnly(text, p) then Some(text[p..]) else None
  }

  datatype Code = Plain(text: string) | Opens(text: string, tag: string) | Bad

  predicate Forbidden(c: char) {
    c == '\r' || c == '\U{FEFF}' || c in FakeEol
  }

  // A line of configuration.
  function ReadLine(line: Line): Code {
    var s := Scrub(line);
    if s.Refusal? || exists k :: 0 <= k < |s.text| && Forbidden(s.text[k]) then Bad
    else
      var at := PairAt(s.text, 0);
      if at < 0 then Plain(s.text)
      else if TagOf(s.text, at).None? || s.code != |line| then Bad
      else Opens(s.text[..at], TagOf(s.text, at).value)
  }

  function TrimLeft(s: string): string {
    if s != [] && Space(s[0]) then TrimLeft(s[1..]) else s
  }

  function TrimRight(s: string): string {
    if s != [] && Space(s[|s| - 1]) then TrimRight(s[..|s| - 1]) else s
  }

  predicate Terminates(line: Line, tag: string) {
    TrimRight(TrimLeft(line)) == tag && forall k :: 0 <= k < |line| ==> !Separator(line[k])
  }

  predicate BadBody(line: Line) {
    '\r' in line || OpenFrom(line, 0, 0)
  }

  function Prepend(out: seq<string>, rest: Option<seq<string>>): Option<seq<string>> {
    if rest.None? then None else Some(out + rest.value)
  }

  // The lines as structure: a heredoc's body and terminator contribute empty lines.
  function StripFrom(raw: seq<Line>, tag: Option<string>): (r: Option<seq<string>>)
    ensures r.Some? ==> |r.value| == |raw|
  {
    if raw == [] then (if tag.Some? then None else Some([]))
    else if tag.Some? then
      if BadBody(raw[0]) then None
      else if Terminates(raw[0], tag.value) then
        if |raw| == 1 then None else Prepend([""], StripFrom(raw[1..], None))
      else Prepend([""], StripFrom(raw[1..], tag))
    else
      match ReadLine(raw[0])
      case Bad => None
      case Plain(text) => Prepend([text], StripFrom(raw[1..], None))
      case Opens(text, t) => Prepend([text], StripFrom(raw[1..], Some(t)))
  }

  lemma PrependTwice(a: seq<string>, b: seq<string>, r: Option<seq<string>>)
    ensures Prepend(a, Prepend(b, r)) == Prepend(a + b, r)
  {
    if r.Some? { assert a + (b + r.value) == a + b + r.value; }
  }

  lemma PrependNone(r: Option<seq<string>>)
    ensures Prepend([], r) == r
  {
    if r.Some? { assert [] + r.value == r.value; }
  }

  /** The first pass's loop: line numbers are kept. */
  method Strip(raw: seq<Line>) returns (r: Option<seq<string>>)
    ensures r == StripFrom(raw, None)
  {
    hide ReadLine, Terminates, BadBody;
    var lines: seq<string>, skip := [], None;
    assert raw[0..] == raw;
    PrependNone(StripFrom(raw, None));
    for n := 0 to |raw|
      invariant StripFrom(raw, None) == Prepend(lines, StripFrom(raw[n..], skip))
    {
      assert raw[n..][0] == raw[n] && raw[n..][1..] == raw[n + 1..];
      ghost var more := StripFrom(raw[n + 1..], None);
      if skip.Some? {
        var bad := BodyRefused(raw[n]);
        if bad { return None; }
        PrependTwice(lines, [""], StripFrom(raw[n + 1..], skip));
        PrependTwice(lines, [""], more);
        if Terminates(raw[n], skip.value) {
          if n == |raw| - 1 { return None; }
          skip := None;
        }
        lines := lines + [""];
      } else {
        var code := ReadLine(raw[n]);
        match code {
          case Bad => return None;
          case Plain(text) =>
            PrependTwice(lines, [text], more);
            lines := lines + [text];
          case Opens(text, t) =>
            PrependTwice(lines, [text], StripFrom(raw[n + 1..], Some(t)));
            lines, skip := lines + [text], Some(t);
        }
      }
    }
    assert raw[|raw|..] == [];
    if skip.Some? { return None; }
    assert lines + [] == lines;
    return Some(lines);
  }

  method BodyRefused(line: Line) returns (bad: bool)
    ensures bad == BadBody(line)
  {
    if '\r' in line { return true; }
    bad := OpenTemplate(line);
  }

  // ---------------------------------------------------------------- headers

  datatype Header = Resource(kind: string, name: string) | Module(name: string)

  function SkipSpaces(s: string, i: nat): (j: nat)
    ensures i <= j && (j <= |s| || j == i)
    ensures forall k :: i <= k < j ==> k < |s| && Space(s[k])
    ensures j < |s| ==> !Space(s[j])
    decreases |s| - i
  {
    if i < |s| && Space(s[i]) then SkipSpaces(s, i + 1) else i
  }

  function NextQuote(s: string, i: nat): (j: nat)
    ensures i <= j && (j <= |s| || j == i)
    ensures forall k :: i <= k < j ==> k < |s| && s[k] != '"'
    ensures j < |s| ==> s[j] == '"'
    decreases |s| - i
  {
    if i < |s| && s[i] != '"' then NextQuote(s, i + 1) else i
  }

  datatype Part = Part(text: string, next: nat)

  // \s+"([^"]+)"
  function QuotedPart(s: string, i: nat): Option<Part> {
    var a := SkipSpaces(s, i);
    if a == i || !Is(s, a, '"') then None
    else
      var b := NextQuote(s, a + 1);
      if b == a + 1 || !Is(s, b, '"') then None else Some(Part(s[a + 1..b], b + 1))
  }

  predicate Keyword(s: string, i: nat, word: string) {
    i + |word| <= |s| && s[i..i + |word|] == word
  }

  // RESOURCE.match, then MODULE.match.
  function HeaderOf(s: string): Option<Header> {
    var i := SkipSpaces(s, 0);
    var res := if Keyword(s, i, "resource") then ResourceAt(s, i + 8) else None;
    if res.Some? then res
    else if Keyword(s, i, "module") && QuotedPart(s, i + 6).Some? then Some(Module(QuotedPart(s, i + 6).value.text))
    else None
  }

  function ResourceAt(s: string, i: nat): Option<Header> {
    var kind := QuotedPart(s, i);
    if kind.None? then None
    else
      var name := QuotedPart(s, kind.value.next);
      if name.None? then None else Some(Resource(kind.value.text, name.value.text))
  }

  // ---------------------------------------------------------------- blocks

  datatype Block = Block(header: Header, body: seq<string>)

  // The lines a block's body runs over, its closing line included, from a depth above 0.
  function Span(lines: seq<string>, depth: int): (n: nat)
    ensures n <= |lines|
  {
    if lines == [] || depth <= 0 then 0 else 1 + Span(lines[1..], depth + Balance(lines[0]))
  }

  function Depth(lines: seq<string>): int {
    if lines == [] then 0 else Depth(lines[..|lines| - 1]) + Balance(lines[|lines| - 1])
  }

  // A body keeps every line of its span but the one that closes it.
  function BodyOf(lines: seq<string>, n: nat): seq<string>
    requires n <= |lines|
  {
    if n == 0 then [] else lines[..n - 1]
  }

  function SplitFrom(lines: seq<string>, depth0: int): (r: Option<seq<Block>>)
    decreases |lines|
  {
    if lines == [] then (if depth0 != 0 then None else Some([]))
    else
      var h := HeaderOf(lines[0]);
      if depth0 != 0 || h.None? then SplitFrom(lines[1..], depth0 + Balance(lines[0]))
      else
        var rest, depth := lines[1..], Balance(lines[0]);
        var n := Span(rest, depth);
        if depth + Depth(rest[..n]) > 0 then None
        else
          var more := SplitFrom(rest[n..], 0);
          if more.None? then None else Some([Block(h.value, BodyOf(rest, n))] + more.value)
  }

  /** A block's body, line by line, as the second pass reads it. */
  method TakeBody(lines: seq<string>, start: nat, depth: int) returns (body: seq<string>, end: nat, left: int)
    requires start <= |lines|
    ensures var rest := lines[start..]; var n := Span(rest, depth);
      && end == start + n && left == depth + Depth(rest[..n])
      && (left <= 0 ==> body == BodyOf(rest, n))
  {
    hide Balance;
    ghost var rest := lines[start..];
    body, end, left := [], start, depth;
    assert rest[..0] == [];
    while end < |lines| && left > 0
      invariant start <= end <= |lines|
      invariant left == depth + Depth(rest[..end - start])
      invariant Span(rest, depth) == end - start + Span(rest[end - start..], left)
      invariant body == if left > 0 then rest[..end - start] else BodyOf(rest, end - start)
      decreases |lines| - end
    {
      ghost var k := end - start;
      assert rest[k..][0] == lines[end] && rest[k..][1..] == rest[k + 1..];
      assert rest[..k + 1][..k] == rest[..k];
      left := left + Balance(lines[end]);
      if left > 0 { body := body + [lines[end]]; }
      end := end + 1;
    }
    assert Span(rest[end - start..], left) == 0;
  }

  function Join(a: seq<Block>, r: Option<seq<Block>>): Option<seq<Block>> {
    if r.None? then None else Some(a + r.value)
  }

  lemma JoinNone(r: Option<seq<Block>>)
    ensures Join([], r) == r
  {
    if r.Some? { assert [] + r.value == r.value; }
  }

  /** The second pass's loop. */
  method Split(lines: seq<string>) returns (r: Option<seq<Block>>)
    ensures r == SplitFrom(lines, 0)
  {
    hide Balance, HeaderOf, Span, Depth;
    var out: seq<Block> := [];
    var i, depth0 := 0, 0;
    assert lines[0..] == lines;
    JoinNone(SplitFrom(lines, 0));
    while i < |lines|
      invariant 0 <= i <= |lines|
      invariant SplitFrom(lines, 0) == Join(out, SplitFrom(lines[i..], depth0))
      decreases |lines| - i
    {
      assert lines[i..][0] == lines[i] && lines[i..][1..] == lines[i + 1..];
      var h := if depth0 == 0 then HeaderOf(lines[i]) else None;
      if h.None? {
        depth0, i := depth0 + Balance(lines[i]), i + 1;
      } else {
        ghost var rest := lines[i + 1..];
        var body, end, left := TakeBody(lines, i + 1, Balance(lines[i]));
        if left > 0 { return None; }
        assert rest[end - i - 1..] == lines[end..];
        ghost var more := SplitFrom(lines[end..], 0);
        if more.Some? { assert out + ([Block(h.value, body)] + more.value) == out + [Block(h.value, body)] + more.value; }
        out, i := out + [Block(h.value, body)], end;
      }
    }
    assert lines[|lines|..] == [];
    if depth0 != 0 { return None; }
    assert out + [] == out;
    return Some(out);
  }

  /** Both passes. */
  method Blocks(raw: seq<Line>) returns (r: Option<seq<Block>>)
    ensures r == BlocksOf(raw)
  {
    var lines := Strip(raw);
    if lines.None? { return None; }
    r := Split(lines.value);
  }

  function BlocksOf(raw: seq<Line>): Option<seq<Block>> {
    var lines := StripFrom(raw, None);
    if lines.None? then None else SplitFrom(lines.value, 0)
  }
}
