/** Requests as a client writes them, and that the parser reads back exactly what was written. */
module HttpRender {
  import opened Common
  import opened Text
  import opened Http

  datatype Field = Field(name: string, value: string)
  datatype Letter = Letter(verb: string, target: string, fields: seq<Field>, body: string)

  function Line(f: Field): string {
    f.name + ": " + f.value
  }

  function Joined(fields: seq<Field>): string {
    if fields == [] then ""
    else if |fields| == 1 then Line(fields[0])
    else Line(fields[0]) + CRLF + Joined(fields[1..])
  }

  function StartLine(l: Letter): string {
    l.verb + " " + (l.target + " " + "HTTP/1.1")
  }

  function Block(l: Letter): string {
    StartLine(l) + CRLF + Joined(l.fields)
  }

  function Render(l: Letter): string {
    Block(l) + BLANK_LINE + l.body
  }

  /** What the parser keeps of a value. */
  function Kept(f: Field): string {
    if Lower(f.name) == "connection" then Lower(f.value) else f.value
  }

  function HeaderMap(fields: seq<Field>, headers: Headers): Headers {
    if fields == [] then headers else HeaderMap(fields[1..], headers[Lower(fields[0].name) := Kept(fields[0])])
  }

  // ----- What may be written -----

  predicate Solid(s: string) {
    s != "" && forall i :: 0 <= i < |s| ==> !IsSpace(s[i])
  }

  /** No space at either end. */
  predicate Tidy(s: string) {
    s == "" || (!IsSpace(s[0]) && !IsSpace(s[|s| - 1]))
  }

  predicate GoodField(f: Field) {
    && f.name != "" && Tidy(f.name) && ':' !in f.name && '\r' !in f.name
    && Tidy(f.value) && '\r' !in f.value && |f.value| <= MAX_HEADER_BYTES
  }

  predicate GoodFields(fields: seq<Field>) {
    forall i :: 0 <= i < |fields| ==> GoodField(fields[i])
  }

  /** No name occurs twice, whatever its case. */
  predicate NewNames(fields: seq<Field>, headers: Headers) {
    fields == [] ||
    (Lower(fields[0].name) !in headers && NewNames(fields[1..], headers[Lower(fields[0].name) := Kept(fields[0])]))
  }

  /** The Content-Length, when written, is the length of the body; without one there is no body. */
  predicate Framed(headers: Headers, body: string) {
    && "host" in headers
    && PlainEncoding(headers)
    && (if "content-length" in headers then headers["content-length"] == Digits(|body|) else body == "")
    && |body| <= MAX_BODY_BYTES
  }

  /** Each line is well formed and they fit the header limit. */
  predicate WellSpelled(l: Letter) {
    && Solid(l.verb) && Solid(l.target)
    && GoodFields(l.fields) && l.fields != []
    && |Block(l)| + 4 <= MAX_HEADER_BYTES
  }

  predicate Sendable(l: Letter) {
    && WellSpelled(l) && |l.target| <= MAX_TARGET
    && NewNames(l.fields, map[]) && Framed(HeaderMap(l.fields, map[]), l.body)
  }

  function RequestOf(l: Letter): Request {
    Request(l.verb, l.target, HeaderMap(l.fields, map[]), l.body)
  }

  // ----- The request line -----

  lemma {:induction false} WordOf(w: string, rest: string)
    requires forall i :: 0 <= i < |w| ==> !IsSpace(w[i])
    requires rest == "" || IsSpace(rest[0])
    ensures Word(w + rest) == w
  {
    if w == "" {
      assert w + rest == rest;
    } else {
      assert (w + rest)[1..] == w[1..] + rest;
      WordOf(w[1..], rest);
    }
  }

  lemma WordsOf(w: string, rest: string)
    requires Solid(w) && (rest == "" || IsSpace(rest[0]))
    ensures Words(w + rest) == [w] + Words(rest)
  {
    WordOf(w, rest);
    assert SkipSpace(w + rest) == w + rest;
    assert (w + rest)[|w|..] == rest;
  }

  lemma WordsSkip(rest: string)
    ensures Words(" " + rest) == Words(rest)
  {
    assert (" " + rest)[1..] == rest;
    assert SkipSpace(" " + rest) == SkipSpace(rest);
  }

  lemma RequestLineWords(l: Letter)
    requires Solid(l.verb) && Solid(l.target)
    ensures Words(StartLine(l)) == [l.verb, l.target, "HTTP/1.1"]
  {
    var version := "HTTP/1.1";
    LastWord(version) by { assert Solid(version); }
    StartLineIs(l);
    hide Words, StartLine, Solid;
    WordThen(l.verb, l.target + (" " + version));
    WordThen(l.target, version);
  }

  lemma WordThen(w: string, rest: string)
    requires Solid(w)
    ensures Words(w + (" " + rest)) == [w] + Words(rest)
  {
    hide Words, Solid;
    WordsOf(w, " " + rest);
    WordsSkip(rest);
  }

  lemma LastWord(w: string)
    requires Solid(w)
    ensures Words(w) == [w]
  {
    hide Words, Solid;
    assert w + "" == w;
    WordsOf(w, "");
    NoWords();
  }

  lemma StartLineIs(l: Letter)
    ensures StartLine(l) == l.verb + (" " + (l.target + (" " + "HTTP/1.1")))
  {}

  lemma NoWords()
    ensures Words("") == []
  {}

  // ----- Lines -----

  lemma TidyIsTrimmed(s: string)
    requires Tidy(s)
    ensures Trim(s) == s && Trim(" " + s) == s
  {
    assert (" " + s)[1..] == s;
  }

  lemma FindAt(s: string, pattern: string, from: nat, k: nat)
    requires from <= k && Occurs(s, pattern, k) && forall j :: from <= j < k ==> !Occurs(s, pattern, j)
    ensures Find(s, pattern, from) == Some(k)
  {
    hide Find, Occurs;
  }

  /** A pattern is found where its first character is. */
  lemma FindFirst(s: string, pattern: string, from: nat, k: nat)
    requires from <= k < |s| && pattern != "" && Occurs(s, pattern, k)
    requires forall j :: from <= j < k ==> s[j] != pattern[0]
    ensures Find(s, pattern, from) == Some(k)
  {
    hide Find, Occurs;
    OccursFits(s, pattern, k);
    forall j | from <= j < k ensures !Occurs(s, pattern, j) {
      OccursChars(s, pattern, j, 0);
    }
    FindAt(s, pattern, from, k);
  }

  lemma AddGoodLine(headers: Headers, f: Field)
    requires GoodField(f)
    ensures AddLine(headers, Line(f))
            == if Lower(f.name) in headers then BadLines(DuplicateHeader) else Lines(headers[Lower(f.name) := Kept(f)])
  {
    hide Find, Trim;
    var line, k := Line(f), |f.name|;
    assert line[..k] == f.name && line[k + 1..] == " " + f.value;
    assert line[k..k + 1] == ":";
    assert forall j :: 0 <= j < k ==> line[j] == f.name[j];
    FindFirst(line, ":", 0, k);
    TidyIsTrimmed(f.name);
    TidyIsTrimmed(f.value);
  }

  lemma LineIsClean(f: Field)
    requires GoodField(f)
    ensures '\r' !in Line(f) && Line(f) != "" && Line(f)[0] != '\r'
  {}

  /** A line that is not the last: an error ends the reading, otherwise it goes on with the next line. */
  lemma StepLine(before: string, line: string, rest: string, headers: Headers)
    requires '\r' !in line
    ensures var block := before + line + CRLF + rest;
            HeaderLines(block, |before|, headers)
            == if AddLine(headers, line).BadLines? then AddLine(headers, line)
               else HeaderLines(block, |before| + |line| + 2, AddLine(headers, line).headers)
  {
    hide HeaderLines, AddLine, LineEnd;
    var block := before + line + CRLF + rest;
    InnerLine(before, line, rest);
    assert block[|before|..|before| + |line|] == line;
    NextLine(block, |before|, headers);
  }

  lemma EndLine(before: string, line: string, headers: Headers)
    requires '\r' !in line && line != ""
    ensures HeaderLines(before + line, |before|, headers) == AddLine(headers, line)
  {
    hide HeaderLines, AddLine, LineEnd;
    var block := before + line;
    LastLine(before, line);
    assert block[|before|..|block|] == line;
    NextLine(block, |before|, headers);
    if AddLine(headers, line).Lines? { NoLine(block, |block| + 2, AddLine(headers, line).headers); }
  }

  /** Reading the lines from the cursor on gives the fields still to come, or finds a name for the second time. */
  lemma {:induction false} LinesOf(before: string, fields: seq<Field>, headers: Headers)
    requires GoodFields(fields) && fields != []
    ensures HeaderLines(before + Joined(fields), |before|, headers)
            == if NewNames(fields, headers) then Lines(HeaderMap(fields, headers)) else BadLines(DuplicateHeader)
    decreases |fields|
  {
    hide HeaderLines, AddLine, Line, GoodField, Kept, Lower;
    var line, more := Line(fields[0]), headers[Lower(fields[0].name) := Kept(fields[0])];
    assert GoodField(fields[0]);
    LineIsClean(fields[0]);
    AddGoodLine(headers, fields[0]);
    if |fields| == 1 {
      EndLine(before, line, headers);
      assert fields[1..] == [];
    } else {
      var rest, next := Joined(fields[1..]), before + line + CRLF;
      hide Joined;
      StepLine(before, line, rest, headers);
      JoinedMore(fields);
      assert before + Joined(fields) == next + rest by { assert before + (line + CRLF + rest) == next + rest; }
      LinesOf(next, fields[1..], more);
    }
  }

  lemma JoinedMore(fields: seq<Field>)
    requires |fields| > 1
    ensures Joined(fields) == Line(fields[0]) + CRLF + Joined(fields[1..])
  {}

  lemma NextLine(block: string, cursor: nat, headers: Headers)
    requires cursor < |block|
    ensures var added := AddLine(headers, block[cursor..LineEnd(block, cursor)]);
            HeaderLines(block, cursor, headers)
            == if added.BadLines? then added else HeaderLines(block, LineEnd(block, cursor) + 2, added.headers)
  {
    hide AddLine, LineEnd;
  }

  lemma NoLine(block: string, cursor: nat, headers: Headers)
    requires |block| <= cursor
    ensures HeaderLines(block, cursor, headers) == Lines(headers)
  {}

  lemma LastLine(before: string, line: string)
    requires '\r' !in line
    ensures LineEnd(before + line, |before|) == |before + line|
  {
    hide Find, Occurs;
    var s := before + line;
    assert forall j :: |before| <= j < |s| ==> s[j] == line[j - |before|];
    forall k | |before| <= k ensures !Occurs(s, CRLF, k) { OccursChars(s, CRLF, k, 0); }
  }

  lemma InnerLine(before: string, line: string, rest: string)
    requires '\r' !in line
    ensures LineEnd(before + line + CRLF + rest, |before|) == |before| + |line|
  {
    hide Find;
    var s, k := before + line + CRLF + rest, |before| + |line|;
    assert s[k..k + 2] == CRLF;
    assert forall j :: |before| <= j < k ==> s[j] == line[j - |before|];
    FindFirst(s, CRLF, |before|, k);
  }

  // ----- The blank line -----

  /** After every line end inside, another line begins. */
  predicate NoBlank(s: string) {
    forall k :: 0 <= k < |s| && s[k] == '\r' ==> k + 2 < |s| && s[k + 2] != '\r'
  }

  lemma LineThen(line: string, rest: string)
    requires '\r' !in line && NoBlank(rest) && rest != "" && rest[0] != '\r'
    ensures NoBlank(line + CRLF + rest)
  {
    var s, n := line + CRLF + rest, |line|;
    forall k | 0 <= k < |s| && s[k] == '\r' ensures k + 2 < |s| && s[k + 2] != '\r' {
      assert forall i :: 0 <= i < n ==> s[i] == line[i];
      assert k >= n + 2 ==> s[k] == rest[k - (n + 2)];
      if k >= n + 2 { assert s[k + 2] == rest[k - n]; } else { assert k == n && s[n + 2] == rest[0]; }
    }
  }

  lemma {:induction false} JoinedHasNoBlank(fields: seq<Field>)
    requires fields != [] && forall i :: 0 <= i < |fields| ==> GoodField(fields[i])
    ensures NoBlank(Joined(fields)) && Joined(fields) != "" && Joined(fields)[0] != '\r'
    decreases |fields|
  {
    hide GoodField, Line;
    LineIsClean(fields[0]);
    if |fields| > 1 {
      JoinedHasNoBlank(fields[1..]);
      LineThen(Line(fields[0]), Joined(fields[1..]));
    }
  }

  lemma BlankLineFound(block: string, rest: string)
    requires NoBlank(block)
    ensures Find(block + BLANK_LINE + rest, BLANK_LINE, 0) == Some(|block|)
  {
    hide Find;
    var s := block + BLANK_LINE + rest;
    assert s[|block|..|block| + 4] == BLANK_LINE;
    forall j | 0 <= j < |block| ensures !Occurs(s, BLANK_LINE, j) {
      OccursChars(s, BLANK_LINE, j, 0);
      OccursChars(s, BLANK_LINE, j, 2);
      assert s[j] == block[j];
      assert j + 2 < |block| ==> s[j + 2] == block[j + 2];
    }
    FindAt(s, BLANK_LINE, 0, |block|);
  }

  // ----- Round trip -----

  /** The request line is judged first, then the names, then the finished header map. */
  lemma HeadOf(l: Letter)
    requires WellSpelled(l)
    ensures ParseHead(Block(l))
            == if |l.target| > MAX_TARGET then BadHead(BadRequestLine)
               else if !NewNames(l.fields, map[]) then BadHead(DuplicateHeader)
               else Framing(l.verb, l.target, HeaderMap(l.fields, map[]))
  {
    hide Find, Words, HeaderLines, Joined, HeaderMap, Framing, GoodFields, NewNames;
    var block, n := Block(l), |StartLine(l)|;
    RequestLineWords(l);
    InnerLine("", StartLine(l), Joined(l.fields)) by { StartLineIsClean(l); }
    assert "" + StartLine(l) + CRLF + Joined(l.fields) == block;
    StartIsFound(block, n);
    assert block[..n] == StartLine(l);
    LinesOf(StartLine(l) + CRLF, l.fields, map[]);
  }

  lemma StartIsFound(block: string, n: nat)
    requires n < |block| && LineEnd(block, 0) == n
    ensures Find(block, CRLF, 0) == Some(n)
  {
    hide Find;
  }

  lemma StartLineIsClean(l: Letter)
    requires Solid(l.verb) && Solid(l.target)
    ensures '\r' !in StartLine(l)
  {
    assert '\r' !in l.verb && '\r' !in l.target && '\r' !in "HTTP/1.1" && '\r' !in " ";
  }

  lemma LengthOf(n: nat)
    requires n < SIZE_LIMIT
    ensures ContentLength(Digits(n)) == Some(n)
  {
    ReadDigitsOf(n, "");
    assert Digits(n) + "" == Digits(n);
  }

  /** Where the parser finds the head and the body of what was written. */
  lemma RenderedParts(l: Letter, more: string)
    requires WellSpelled(l)
    ensures var raw, end := Render(l) + more, |Block(l)|;
            && Find(raw, BLANK_LINE, 0) == Some(end) && end + 4 + |l.body| <= |raw|
            && raw[..end] == Block(l) && raw[end + 4..end + 4 + |l.body|] == l.body
  {
    BlockHasNoBlank(l);
    hide Find, WellSpelled, Block, NoBlank;
    var raw, block, rest := Render(l) + more, Block(l), l.body + more;
    assert raw == block + BLANK_LINE + rest;
    BlankLineFound(block, rest);
    BehindBlank(block, l.body, more);
  }

  lemma BehindBlank(block: string, body: string, more: string)
    ensures var raw, end := block + BLANK_LINE + (body + more), |block|;
            |raw| == end + 4 + |body| + |more| && raw[..end] == block && raw[end + 4..end + 4 + |body|] == body
  {}

  lemma BlockHasNoBlank(l: Letter)
    requires WellSpelled(l)
    ensures NoBlank(Block(l))
  {
    hide GoodFields, NoBlank;
    JoinedHasNoBlank(l.fields) by { FieldsAreGood(l.fields); }
    StartLineIsClean(l);
    LineThen(StartLine(l), Joined(l.fields));
  }

  /** What the parser makes of the head of what was written. */
  lemma ParseOfRendered(l: Letter, more: string)
    requires WellSpelled(l)
    ensures var head := ParseHead(Block(l));
            && (head.BadHead? ==> Parse(Render(l) + more) == Invalid(head.error))
            && (head.Head? && head.length == |l.body| ==>
                  Parse(Render(l) + more) == Complete(Request(head.verb, head.target, head.headers, l.body), |Render(l)|))
  {
    RenderedParts(l, more);
    assert |Block(l)| + 4 <= MAX_HEADER_BYTES && |Render(l)| == |Block(l)| + 4 + |l.body|;
    hide Find, ParseHead, Block, Render, WellSpelled;
  }

  /** What a client writes is read back field by field, whatever follows it on the connection. */
  lemma ParseInvertsRender(l: Letter, more: string)
    requires Sendable(l)
    ensures Parse(Render(l) + more) == Complete(RequestOf(l), |Render(l)|)
  {
    hide Parse, ParseHead, HeaderMap, WellSpelled, NewNames, Digits, ContentLength, Render;
    ParseOfRendered(l, more);
    HeadOf(l);
    LengthOf(|l.body|);
  }

  /** What is refused, and with which error, whatever follows. */
  lemma RefusedRequests(l: Letter, more: string)
    requires WellSpelled(l)
    ensures var p, h := Parse(Render(l) + more), HeaderMap(l.fields, map[]);
            && (|l.target| > MAX_TARGET ==> p == Invalid(BadRequestLine))
            && (|l.target| <= MAX_TARGET && !NewNames(l.fields, map[]) ==> p == Invalid(DuplicateHeader))
            && (|l.target| <= MAX_TARGET && NewNames(l.fields, map[]) ==>
                  && ("host" !in h ==> p == Invalid(NoHost))
                  && ("host" in h && !PlainEncoding(h) ==> p == Invalid(UnsupportedTransferEncoding))
                  && ("host" in h && PlainEncoding(h) && "content-length" in h ==>
                        && (ContentLength(h["content-length"]) == None ==> p == Invalid(BadContentLength))
                        && (TooLong(h["content-length"]) ==> p == Invalid(BodyTooLarge))))
  {
    hide Parse, ParseHead, HeaderMap, WellSpelled, NewNames, ContentLength, Render;
    ParseOfRendered(l, more);
    HeadOf(l);
  }

  predicate TooLong(text: string) {
    ContentLength(text).Some? && ContentLength(text).value > MAX_BODY_BYTES
  }

  predicate PlainEncoding(headers: Headers) {
    "transfer-encoding" in headers ==> Lower(headers["transfer-encoding"]) == "identity"
  }

  /** A length is digits and nothing else. */
  lemma {:induction false} LengthIsDigits(text: string, acc: nat)
    requires ReadDigits(text, acc).1 == ""
    ensures forall i :: 0 <= i < |text| ==> IsDigit(text[i])
    decreases |text|
  {
    if text != "" && IsDigit(text[0]) {
      LengthIsDigits(text[1..], 10 * acc + DigitValue(text[0]));
      assert text == [text[0]] + text[1..];
    }
  }

  lemma FieldsAreGood(fields: seq<Field>)
    requires GoodFields(fields)
    ensures forall i :: 0 <= i < |fields| ==> GoodField(fields[i])
  {}
}
