/** The incremental HTTP/1.1 request parser. */
module Http {
  import opened Common
  import opened Text

  const MAX_HEADER_BYTES: nat := 64 * 1024
  const MAX_BODY_BYTES: nat := 8 * 1024 * 1024
  const MAX_TARGET: nat := 8192
  const SIZE_LIMIT: nat := 0x1_0000_0000_0000_0000

  const CRLF: string := "\r\n"
  const BLANK_LINE: string := "\r\n\r\n"

  type Headers = map<string, string>

  datatype Request = Request(verb: string, target: string, headers: Headers, body: string)

  datatype ParseError =
    | HeadersTooLarge | MissingRequestLine | BadRequestLine | BadHeader | DuplicateHeader | NoHost
    | UnsupportedTransferEncoding | BadContentLength | BodyTooLarge

  datatype Parsed = Complete(request: Request, consumed: nat) | Partial | Invalid(error: ParseError)

  // ----- Searching -----

  predicate Occurs(s: string, pattern: string, k: int) {
    0 <= k && k + |pattern| <= |s| && s[k..k + |pattern|] == pattern
  }

  /** The first occurrence of `pattern` at or after `from`. */
  function Find(s: string, pattern: string, from: nat): (r: Option<nat>)
    ensures r.Some? ==> from <= r.value && Occurs(s, pattern, r.value)
    ensures r.Some? ==> forall j :: from <= j < r.value ==> !Occurs(s, pattern, j)
    ensures r.None? ==> forall j :: from <= j ==> !Occurs(s, pattern, j)
    decreases |s| - from
  {
    if from + |pattern| > |s| then None
    else if Occurs(s, pattern, from) then Some(from)
    else if from == |s| then None
    else Find(s, pattern, from + 1)
  }

  lemma OccursExtends(s: string, t: string, pattern: string, k: int)
    requires k + |pattern| <= |s|
    ensures Occurs(s + t, pattern, k) <==> Occurs(s, pattern, k)
  {
    if 0 <= k { assert (s + t)[k..k + |pattern|] == s[k..k + |pattern|]; }
  }

  /** What was found stays found; what is found only later ends beyond the old end. */
  lemma FindExtends(s: string, t: string, pattern: string, from: nat)
    ensures Find(s, pattern, from).Some? ==> Find(s + t, pattern, from) == Find(s, pattern, from)
    ensures Find(s, pattern, from).None? && Find(s + t, pattern, from).Some? ==>
              Find(s + t, pattern, from).value + |pattern| > |s|
  {
    hide Occurs;
    forall k | k + |pattern| <= |s| ensures Occurs(s + t, pattern, k) <==> Occurs(s, pattern, k) {
      OccursExtends(s, t, pattern, k);
    }
    var found, later := Find(s, pattern, from), Find(s + t, pattern, from);
    if found.Some? {
      assert Occurs(s, pattern, found.value) by { assert Occurs(s, pattern, found.value); }
      OccursFits(s, pattern, found.value);
      assert Occurs(s + t, pattern, found.value);
    }
  }

  /** Cutting the text keeps the first occurrence exactly when it lies before the cut. */
  lemma FindInPrefix(s: string, k: nat, pattern: string)
    requires k <= |s| && Find(s, pattern, 0).Some?
    ensures Find(s[..k], pattern, 0)
            == if Find(s, pattern, 0).value + |pattern| <= k then Find(s, pattern, 0) else None
  {
    hide Find, Occurs;
    var end := Find(s, pattern, 0).value;
    assert s[..k] + s[k..] == s;
    FindExtends(s[..k], s[k..], pattern, 0);
    if end + |pattern| <= k { OccursExtends(s[..k], s[k..], pattern, end); }
    if Find(s[..k], pattern, 0).Some? { OccursFits(s[..k], pattern, Find(s[..k], pattern, 0).value); }
  }

  lemma OccursChars(s: string, pattern: string, k: int, i: nat)
    requires i < |pattern|
    ensures Occurs(s, pattern, k) ==> 0 <= k && k + |pattern| <= |s| && s[k + i] == pattern[i]
  {
    if Occurs(s, pattern, k) { assert s[k..k + |pattern|][i] == s[k + i]; }
  }

  lemma OccursFits(s: string, pattern: string, k: int)
    requires Occurs(s, pattern, k)
    ensures 0 <= k && k + |pattern| <= |s|
  {}

  // ----- Text -----

  function TrimLeft(s: string): (r: string)
    ensures |r| <= |s|
  {
    if s != "" && IsSpace(s[0]) then TrimLeft(s[1..]) else s
  }

  function TrimRight(s: string): (r: string)
    ensures |r| <= |s|
  {
    if s != "" && IsSpace(s[|s| - 1]) then TrimRight(s[..|s| - 1]) else s
  }

  function Trim(s: string): string {
    TrimRight(TrimLeft(s))
  }

  function LowerChar(c: char): char {
    if 'A' <= c <= 'Z' then (c as int + 32) as char else c
  }

  function Lower(s: string): (r: string)
    ensures |r| == |s|
  {
    seq(|s|, i requires 0 <= i < |s| => LowerChar(s[i]))
  }

  function Word(s: string): (r: string)
    ensures |r| <= |s| && (s != "" && !IsSpace(s[0]) ==> r != "")
  {
    if s == "" || IsSpace(s[0]) then "" else [s[0]] + Word(s[1..])
  }

  /** What repeated `stream >> word` reads. */
  function Words(s: string): seq<string>
    decreases |s|
  {
    var t := SkipSpace(s);
    if t == "" then [] else [Word(t)] + Words(t[|Word(t)|..])
  }

  // ----- The header block -----

  datatype Lines = Lines(headers: Headers) | BadLines(error: ParseError)

  function AddLine(headers: Headers, line: string): Lines {
    match Find(line, ":", 0)
    case None => BadLines(BadHeader)
    case Some(colon) =>
      if colon == 0 then BadLines(BadHeader)
      else
        var name, value := Lower(Trim(line[..colon])), Trim(line[colon + 1..]);
        if name == "" || |value| > MAX_HEADER_BYTES then BadLines(BadHeader)
        else if name in headers then BadLines(DuplicateHeader)
        else Lines(headers[name := if name == "connection" then Lower(value) else value])
  }

  /** Where the line that starts at `cursor` ends. */
  function LineEnd(block: string, cursor: nat): (e: nat)
    requires cursor <= |block|
    ensures cursor <= e <= |block|
  {
    match Find(block, CRLF, cursor)
    case None => |block|
    case Some(k) => k
  }

  function HeaderLines(block: string, cursor: nat, headers: Headers): Lines
    decreases |block| - cursor
  {
    if cursor >= |block| then Lines(headers)
    else
      var end := LineEnd(block, cursor);
      match AddLine(headers, block[cursor..end])
      case BadLines(e) => BadLines(e)
      case Lines(more) => HeaderLines(block, end + 2, more)
  }

  /** `from_chars` over the whole text: digits only, at least one, within 64 bits. */
  function ContentLength(text: string): Option<nat> {
    if !StartsWithDigit(text) then None
    else
      var (n, rest) := ReadDigits(text, 0);
      if rest == "" && n < SIZE_LIMIT then Some(n) else None
  }

  datatype Head = Head(verb: string, target: string, headers: Headers, length: nat) | BadHead(error: ParseError)

  /** The checks on the finished header map, in their order; the length of the body. */
  function Framing(verb: string, target: string, headers: Headers): Head {
    if "host" !in headers then BadHead(NoHost)
    else if "transfer-encoding" in headers && Lower(headers["transfer-encoding"]) != "identity" then
      BadHead(UnsupportedTransferEncoding)
    else
      match (if "content-length" in headers then ContentLength(headers["content-length"]) else Some(0))
      case None => BadHead(BadContentLength)
      case Some(n) => if n > MAX_BODY_BYTES then BadHead(BodyTooLarge) else Head(verb, target, headers, n)
  }

  /** Everything before the blank line. */
  function ParseHead(block: string): Head {
    match Find(block, CRLF, 0)
    case None => BadHead(MissingRequestLine)
    case Some(end) =>
      var words := Words(block[..end]);
      if |words| != 3 || |words[1]| > MAX_TARGET || words[2] != "HTTP/1.1" then BadHead(BadRequestLine)
      else
        match HeaderLines(block, end + 2, map[])
        case BadLines(e) => BadHead(e)
        case Lines(headers) => Framing(words[0], words[1], headers)
  }

  function Parse(raw: string): (p: Parsed)
    ensures p.Complete? ==> 4 <= p.consumed <= |raw|
  {
    match Find(raw, BLANK_LINE, 0)
    case None => if |raw| > MAX_HEADER_BYTES then Invalid(HeadersTooLarge) else Partial
    case Some(end) =>
      if end + 4 > MAX_HEADER_BYTES then Invalid(HeadersTooLarge)
      else
        match ParseHead(raw[..end])
        case BadHead(e) => Invalid(e)
        case Head(verb, target, headers, length) =>
          if |raw| - (end + 4) < length then Partial
          else Complete(Request(verb, target, headers, raw[end + 4..end + 4 + length]), end + 4 + length)
  }

  // ----- Framing does not depend on how the bytes arrive -----

  /** An answer, whether a request or an error, never changes when more bytes arrive. */
  lemma ParseExtends(raw: string, more: string)
    requires Parse(raw) != Partial
    ensures Parse(raw + more) == Parse(raw)
  {
    hide Find, ParseHead;
    FindExtends(raw, more, BLANK_LINE, 0);
    match Find(raw, BLANK_LINE, 0)
    case None =>
    case Some(end) =>
      OccursFits(raw, BLANK_LINE, end);
      assert (raw + more)[..end] == raw[..end];
      match ParseHead(raw[..end])
      case BadHead(_) =>
      case Head(_, _, _, length) =>
        if end + 4 <= MAX_HEADER_BYTES {
          assert (raw + more)[end + 4..end + 4 + length] == raw[end + 4..end + 4 + length];
        }
  }

  /** Where the header block of a complete request ends, and that its body is what Content-Length says. */
  lemma CompleteShape(raw: string)
    requires Parse(raw).Complete?
    ensures var p := Parse(raw);
            var end := p.consumed - |p.request.body| - 4;
            && 0 <= end && Find(raw, BLANK_LINE, 0) == Some(end as nat)
            && end + 4 <= MAX_HEADER_BYTES && |p.request.body| <= MAX_BODY_BYTES && p.consumed <= |raw|
            && p.request.body == raw[end + 4..p.consumed]
            && ParseHead(raw[..end]) == Head(p.request.verb, p.request.target, p.request.headers, |p.request.body|)
            && (if "content-length" in p.request.headers
                then ContentLength(p.request.headers["content-length"]) == Some(|p.request.body|)
                else p.request.body == "")
            && "host" in p.request.headers
  {
    hide Find, HeaderLines, Words, ContentLength;
    var end := Find(raw, BLANK_LINE, 0).value;
    OccursFits(raw, BLANK_LINE, end);
  }

  lemma HeadEnd(raw: string) returns (end: nat)
    requires Parse(raw).Complete?
    ensures Find(raw, BLANK_LINE, 0) == Some(end) && end + 4 <= MAX_HEADER_BYTES
    ensures end + 4 + |Parse(raw).request.body| == Parse(raw).consumed <= |raw|
    ensures ParseHead(raw[..end]).Head? && ParseHead(raw[..end]).length == |Parse(raw).request.body|
  {
    hide Find, ParseHead, Occurs;
    end := Find(raw, BLANK_LINE, 0).value;
    OccursFits(raw, BLANK_LINE, end);
  }

  /** Every proper prefix of a complete request is incomplete: no prefix is taken for another request or an error. */
  lemma PrefixIsPartial(raw: string, k: nat)
    requires Parse(raw).Complete? && k < Parse(raw).consumed
    ensures Parse(raw[..k]) == Partial
  {
    hide Find, Occurs, Parse, ParseHead;
    var end := HeadEnd(raw);
    CutIsPartial(raw, k, end, |Parse(raw).request.body|);
  }

  lemma CutIsPartial(raw: string, k: nat, end: nat, length: nat)
    requires Find(raw, BLANK_LINE, 0) == Some(end) && end + 4 <= MAX_HEADER_BYTES
    requires end + 4 <= |raw| && ParseHead(raw[..end]).Head? && ParseHead(raw[..end]).length == length
    requires k < end + 4 + length && k <= |raw|
    ensures Parse(raw[..k]) == Partial
  {
    hide Find, Occurs, Parse, ParseHead;
    var cut := raw[..k];
    FindInPrefix(raw, k, BLANK_LINE);
    if end + 4 <= k { assert cut[..end] == raw[..end]; }
    StillPartial(cut, end, length);
  }

  lemma StillPartial(raw: string, end: nat, length: nat)
    requires end + 4 <= MAX_HEADER_BYTES && |raw| < end + 4 + length
    requires Find(raw, BLANK_LINE, 0) == if end + 4 <= |raw| then Some(end) else None
    requires end + 4 <= |raw| ==> ParseHead(raw[..end]).Head? && ParseHead(raw[..end]).length == length
    ensures Parse(raw) == Partial
  {
    hide Find, Occurs, ParseHead;
  }

  /** What still waits for bytes is smaller than the largest request, so it never meets the connection's cap. */
  lemma PartialIsSmall(raw: string)
    requires Parse(raw) == Partial
    ensures |raw| < MAX_HEADER_BYTES + MAX_BODY_BYTES
  {
    hide Find, HeaderLines, Words, ContentLength;
  }

  // ----- The parser as it runs -----

  /** `trim`: two cursors close in on the text. */
  method TrimView(value: string) returns (r: string)
    ensures r == Trim(value)
  {
    var begin, end := 0, |value|;
    while begin < end && IsSpace(value[begin])
      invariant 0 <= begin <= end == |value|
      invariant TrimLeft(value[begin..]) == TrimLeft(value)
    {
      assert value[begin..][1..] == value[begin + 1..];
      begin := begin + 1;
    }
    assert TrimLeft(value) == value[begin..] == value[begin..end];
    while end > begin && IsSpace(value[end - 1])
      invariant begin <= end <= |value|
      invariant TrimRight(value[begin..end]) == TrimRight(value[begin..])
    {
      assert value[begin..end][..end - begin - 1] == value[begin..end - 1];
      end := end - 1;
    }
    r := value[begin..end];
  }

  method ReadLine(headers: Headers, line: string) returns (r: Lines)
    ensures r == AddLine(headers, line)
  {
    hide Find, Trim;
    var colon := Find(line, ":", 0);
    if colon == None || colon.value == 0 { return BadLines(BadHeader); }
    OccursFits(line, ":", colon.value);
    var name := TrimView(line[..colon.value]);
    name := Lower(name);
    var value := TrimView(line[colon.value + 1..]);
    if name == "" || |value| > MAX_HEADER_BYTES { return BadLines(BadHeader); }
    if name in headers { return BadLines(DuplicateHeader); }
    r := Lines(headers[name := if name == "connection" then Lower(value) else value]);
  }

  /** The header loop: one line at a time from the cursor, into the map. */
  method ReadHeaders(block: string, start: nat) returns (r: Lines)
    ensures r == HeaderLines(block, start, map[])
  {
    hide LineEnd, AddLine;
    var cursor, headers: Headers := start, map[];
    while cursor < |block|
      invariant HeaderLines(block, cursor, headers) == HeaderLines(block, start, map[])
      decreases |block| - cursor
    {
      var end := LineEnd(block, cursor);
      var lines := ReadLine(headers, block[cursor..end]);
      if lines.BadLines? { return lines; }
      headers := lines.headers;
      cursor := end + 2;
    }
    r := Lines(headers);
  }

  /** `parse`, with the number of bytes the request takes. */
  method ParseRequest(raw: string) returns (p: Parsed)
    ensures p == Parse(raw)
  {
    hide Find, Words, HeaderLines;
    var blank := Find(raw, BLANK_LINE, 0);
    if blank == None { return if |raw| > MAX_HEADER_BYTES then Invalid(HeadersTooLarge) else Partial; }
    if blank.value + 4 > MAX_HEADER_BYTES { return Invalid(HeadersTooLarge); }
    OccursFits(raw, BLANK_LINE, blank.value);
    var block := raw[..blank.value];
    var lineEnd := Find(block, CRLF, 0);
    if lineEnd == None { return Invalid(MissingRequestLine); }
    OccursFits(block, CRLF, lineEnd.value);
    var words := Words(block[..lineEnd.value]);
    if |words| != 3 || |words[1]| > MAX_TARGET || words[2] != "HTTP/1.1" { return Invalid(BadRequestLine); }
    var lines := ReadHeaders(block, lineEnd.value + 2);
    if lines.BadLines? { return Invalid(lines.error); }
    var head := Framing(words[0], words[1], lines.headers);
    if head.BadHead? { return Invalid(head.error); }
    var bodyBegin := blank.value + 4;
    if |raw| - bodyBegin < head.length { return Partial; }
    p := Complete(Request(words[0], words[1], lines.headers, raw[bodyBegin..bodyBegin + head.length]), bodyBegin + head.length);
  }
}
