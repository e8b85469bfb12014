/** The read side of a connection: bytes go into the buffer, whole requests come out. */
module HttpConnection {
  import opened Common
  import opened Http
  import opened HttpRender
  import opened Text

  /** The most a connection buffers before it answers 413. */
  const BUFFER_CAP: nat := 8 * 1024 * 1024 + 64 * 1024

  predicate KeepAlive(r: Request) {
    "connection" !in r.headers || Find(r.headers["connection"], "close", 0) == None
  }

  /** The value of a field is in the map under its name. */
  lemma {:induction false} FieldIsKept(fields: seq<Field>, headers: Headers, i: nat)
    requires NewNames(fields, headers) && i < |fields|
    ensures var h := HeaderMap(fields, headers); Lower(fields[i].name) in h && h[Lower(fields[i].name)] == Kept(fields[i])
    decreases |fields|
  {
    hide Lower, Kept;
    var more := headers[Lower(fields[0].name) := Kept(fields[0])];
    if i > 0 {
      FieldIsKept(fields[1..], more, i - 1);
    } else {
      SeenIsKept(fields[1..], more, Lower(fields[0].name));
    }
  }

  lemma {:induction false} SeenIsKept(fields: seq<Field>, headers: Headers, n: string)
    requires NewNames(fields, headers) && n in headers
    ensures n in HeaderMap(fields, headers) && HeaderMap(fields, headers)[n] == headers[n]
    decreases |fields|
  {
    hide Lower, Kept;
    if fields != [] { SeenIsKept(fields[1..], headers[Lower(fields[0].name) := Kept(fields[0])], n); }
  }

  lemma {:induction false} NamesAreFields(fields: seq<Field>, headers: Headers, n: string) returns (i: nat)
    requires n in HeaderMap(fields, headers) && n !in headers
    ensures i < |fields| && Lower(fields[i].name) == n
    decreases |fields|
  {
    hide Lower, Kept;
    var more := headers[Lower(fields[0].name) := Kept(fields[0])];
    if n in more { return 0; }
    i := NamesAreFields(fields[1..], more, n);
    i := i + 1;
  }

  /** The sender asks for the connection to be closed, in whatever case: some field named connection says close. */
  predicate AsksToClose(f: Field) {
    Lower(f.name) == "connection" && exists k :: 0 <= k <= |f.value| && Occurs(Lower(f.value), "close", k)
  }

  /** A request keeps its connection exactly when no field asks to close it. */
  lemma KeepAliveIff(l: Letter)
    requires Sendable(l)
    ensures KeepAlive(RequestOf(l)) <==> forall i :: 0 <= i < |l.fields| ==> !AsksToClose(l.fields[i])
  {
    hide HeaderMap, NewNames, Lower, Find, Occurs, Framed, WellSpelled;
    var h := HeaderMap(l.fields, map[]);
    if "connection" in h {
      var i := NamesAreFields(l.fields, map[], "connection");
      FieldIsKept(l.fields, map[], i);
      ClosesIff(l.fields[i]);
    }
    forall i | 0 <= i < |l.fields| && AsksToClose(l.fields[i]) ensures !KeepAlive(RequestOf(l)) {
      FieldIsKept(l.fields, map[], i);
      ClosesIff(l.fields[i]);
    }
  }

  lemma ClosesIff(f: Field)
    requires Lower(f.name) == "connection"
    ensures Find(Kept(f), "close", 0).Some? <==> AsksToClose(f)
  {
    hide Find, Lower, Occurs;
    var found := Find(Kept(f), "close", 0);
    if found.Some? { OccursFits(Kept(f), "close", found.value); }
  }

  // ----- What a byte stream contains -----

  datatype End = Waiting(rest: string) | Closed | Bad(error: ParseError)
  datatype Outcome = Outcome(requests: seq<Request>, end: End)

  /** The requests of a stream, up to the one that closes it or is invalid. */
  function Extract(stream: string): Outcome
    decreases |stream|
  {
    match Parse(stream)
    case Partial => Outcome([], Waiting(stream))
    case Invalid(e) => Outcome([], Bad(e))
    case Complete(r, n) =>
      if KeepAlive(r) then Join([r], Extract(stream[n..])) else Outcome([r], Closed)
  }

  function Join(requests: seq<Request>, o: Outcome): Outcome {
    Outcome(requests + o.requests, o.end)
  }

  lemma JoinJoin(a: seq<Request>, b: seq<Request>, o: Outcome)
    ensures Join(a, Join(b, o)) == Join(a + b, o)
  {
    assert a + (b + o.requests) == a + b + o.requests;
  }

  /** More bytes never change what was extracted: they only continue what was waiting. */
  lemma {:induction false} ExtractExtends(s: string, t: string)
    ensures var o := Extract(s);
            Extract(s + t) == if o.end.Waiting? then Join(o.requests, Extract(o.end.rest + t)) else o
    decreases |s|
  {
    hide Parse, KeepAlive;
    if Parse(s) != Partial { ParseExtends(s, t); }
    match Parse(s)
    case Partial => assert [] + Extract(s + t).requests == Extract(s + t).requests;
    case Invalid(_) =>
    case Complete(r, n) =>
      if KeepAlive(r) {
        assert (s + t)[n..] == s[n..] + t;
        ExtractExtends(s[n..], t);
        var o := Extract(s[n..]);
        if o.end.Waiting? { JoinJoin([r], o.requests, Extract(o.end.rest + t)); }
      }
  }

  // ----- Chunks -----

  datatype Shut = Open | AfterLast | BadRequest(error: ParseError) | TooLarge
  datatype Conn = Conn(buffer: string, requests: seq<Request>, shut: Shut)

  /** Nothing has arrived yet. */
  const START: Conn := Conn("", [], Open)

  /** One read event without a worker pool. */
  function Feed(c: Conn, chunk: string): Conn {
    if c.shut != Open then c
    else if |c.buffer + chunk| > BUFFER_CAP then c.(shut := TooLarge)
    else
      var o := Extract(c.buffer + chunk);
      match o.end
      case Waiting(rest) => Conn(rest, c.requests + o.requests, Open)
      case Closed => Conn("", c.requests + o.requests, AfterLast)
      case Bad(e) => Conn("", c.requests + o.requests, BadRequest(e))
  }

  function FeedAll(c: Conn, chunks: seq<string>): Conn
    decreases |chunks|
  {
    if chunks == [] then c else FeedAll(Feed(c, chunks[0]), chunks[1..])
  }

  function Stream(chunks: seq<string>): string {
    if chunks == [] then "" else chunks[0] + Stream(chunks[1..])
  }

  /** The connection after the whole stream arrived at once. */
  function Whole(stream: string): Conn {
    var o := Extract(stream);
    match o.end
    case Waiting(rest) => Conn(rest, o.requests, Open)
    case Closed => Conn("", o.requests, AfterLast)
    case Bad(e) => Conn("", o.requests, BadRequest(e))
  }

  /** The bytes that wait for more, together with the next read, are over the cap. */
  predicate Overflows(seen: string, chunk: string) {
    Whole(seen).shut == Open && |Whole(seen).buffer| + |chunk| > BUFFER_CAP
  }

  lemma FeedFollows(seen: string, chunk: string)
    ensures Feed(Whole(seen), chunk) == if Overflows(seen, chunk) then Whole(seen).(shut := TooLarge) else Whole(seen + chunk)
  {
    hide Extract;
    ExtractExtends(seen, chunk);
  }

  lemma {:induction false} ShutStays(c: Conn, chunks: seq<string>)
    requires c.shut != Open
    ensures FeedAll(c, chunks) == c
    decreases |chunks|
  {
    if chunks != [] { ShutStays(c, chunks[1..]); }
  }

  /** After reads that never overflow, whatever the connection had seen, it is where the whole stream would bring it. */
  lemma {:induction false} FeedAllFollows(seen: string, chunks: seq<string>)
    requires forall i :: 0 <= i < |chunks| ==> !Overflows(seen + Stream(chunks[..i]), chunks[i])
    ensures FeedAll(Whole(seen), chunks) == Whole(seen + Stream(chunks))
    decreases |chunks|
  {
    hide Feed, Whole, Overflows;
    if chunks == [] {
      assert seen + Stream(chunks) == seen;
    } else {
      var next, rest := seen + chunks[0], chunks[1..];
      assert chunks[..0] == [] && seen + Stream(chunks[..0]) == seen;
      FeedFollows(seen, chunks[0]);
      forall i | 0 <= i < |rest| ensures !Overflows(next + Stream(rest[..i]), rest[i]) {
        StreamFirst(seen, chunks, i + 1);
      }
      FeedAllFollows(next, rest);
      assert next + Stream(rest) == seen + Stream(chunks);
    }
  }

  lemma StreamFirst(seen: string, chunks: seq<string>, i: nat)
    requires 0 < i <= |chunks|
    ensures seen + Stream(chunks[..i]) == seen + chunks[0] + Stream(chunks[1..][..i - 1])
  {
    assert chunks[..i][1..] == chunks[1..][..i - 1];
    assert seen + (chunks[0] + Stream(chunks[..i][1..])) == seen + chunks[0] + Stream(chunks[..i][1..]);
  }

  lemma {:induction false} FeedAllSplits(c: Conn, chunks: seq<string>, more: seq<string>)
    ensures FeedAll(c, chunks + more) == FeedAll(FeedAll(c, chunks), more)
    decreases |chunks|
  {
    hide Feed;
    if chunks == [] {
      assert chunks + more == more;
    } else {
      assert (chunks + more)[1..] == chunks[1..] + more;
      FeedAllSplits(Feed(c, chunks[0]), chunks[1..], more);
    }
  }

  /** The first read that overflows shuts the connection, with the requests of what came before it. */
  lemma OverflowShuts(chunks: seq<string>, i: nat)
    requires i < |chunks| && Overflows(Stream(chunks[..i]), chunks[i])
    requires forall j :: 0 <= j < i ==> !Overflows(Stream(chunks[..j]), chunks[j])
    ensures FeedAll(START, chunks) == Whole(Stream(chunks[..i])).(shut := TooLarge)
  {
    hide Feed, Whole, Overflows, FeedAll;
    PrefixFollows(chunks, i);
    FeedFollows(Stream(chunks[..i]), chunks[i]);
    ShutStays(Feed(Whole(Stream(chunks[..i])), chunks[i]), chunks[i + 1..]);
    FeedAllAt(START, chunks, i);
  }

  lemma PrefixFollows(chunks: seq<string>, i: nat)
    requires i <= |chunks| && forall j :: 0 <= j < i ==> !Overflows(Stream(chunks[..j]), chunks[j])
    ensures FeedAll(START, chunks[..i]) == Whole(Stream(chunks[..i]))
  {
    hide Whole, Overflows, FeedAll, Stream;
    var before := chunks[..i];
    NothingYet();
    forall j | 0 <= j < |before| ensures !Overflows("" + Stream(before[..j]), before[j]) {
      assert before[..j] == chunks[..j] && "" + Stream(before[..j]) == Stream(chunks[..j]);
    }
    FeedAllFollows("", before);
    assert "" + Stream(before) == Stream(before);
  }

  lemma FeedAllAt(c: Conn, chunks: seq<string>, i: nat)
    requires i < |chunks|
    ensures FeedAll(c, chunks) == FeedAll(Feed(FeedAll(c, chunks[..i]), chunks[i]), chunks[i + 1..])
  {
    hide Feed;
    var rest := chunks[i..];
    assert chunks == chunks[..i] + rest && rest[1..] == chunks[i + 1..];
    FeedAllSplits(c, chunks[..i], rest);
  }

  lemma NothingYet()
    ensures Whole("") == START
  {
    assert Find("", BLANK_LINE, 0) == None;
    assert Parse("") == Partial;
  }

  /** Some read overflows, on top of what the bytes before it left waiting. */
  ghost predicate SomeOverflow(chunks: seq<string>) {
    exists i :: 0 <= i < |chunks| && Overflows(Stream(chunks[..i]), chunks[i])
  }

  /** The first read that overflows. */
  lemma {:induction false} FirstOverflow(chunks: seq<string>, n: nat) returns (i: nat)
    requires n < |chunks| && Overflows(Stream(chunks[..n]), chunks[n])
    ensures i < |chunks| && Overflows(Stream(chunks[..i]), chunks[i])
    ensures forall j :: 0 <= j < i ==> !Overflows(Stream(chunks[..j]), chunks[j])
    decreases n
  {
    hide Overflows, Stream;
    if j :| 0 <= j < n && Overflows(Stream(chunks[..j]), chunks[j]) {
      i := FirstOverflow(chunks, j);
    } else {
      i := n;
    }
  }

  /**
   What a connection hands to the router, what it still waits for and how it ends depend only on the bytes, not on
   how they were split into reads, exactly when no read overflows; and exactly then there is no 413.
   */
  lemma SplitDoesNotMatterIff(chunks: seq<string>)
    ensures FeedAll(START, chunks) == Whole(Stream(chunks)) <==> !SomeOverflow(chunks)
    ensures FeedAll(START, chunks).shut == TooLarge <==> SomeOverflow(chunks)
  {
    hide Extract, FeedAll, Stream, Overflows;
    NothingYet();
    assert Whole(Stream(chunks)).shut != TooLarge;
    if SomeOverflow(chunks) {
      var n :| 0 <= n < |chunks| && Overflows(Stream(chunks[..n]), chunks[n]);
      var i := FirstOverflow(chunks, n);
      OverflowShuts(chunks, i);
    } else {
      PrefixFollows(chunks, |chunks|);
      assert chunks[..|chunks|] == chunks;
    }
  }

  /** The cap is never met by a stream that fits it, nor by a read that the waiting bytes leave room for. */
  lemma {:induction false} SmallStreamsFit(c: Conn, chunks: seq<string>)
    requires c.shut != TooLarge && |c.buffer| + |Stream(chunks)| <= BUFFER_CAP
    ensures FeedAll(c, chunks).shut != TooLarge
    decreases |chunks|
  {
    hide Extract;
    if chunks != [] {
      WaitingIsSuffix(c.buffer + chunks[0]);
      SmallStreamsFit(Feed(c, chunks[0]), chunks[1..]);
    }
  }

  lemma {:induction false} WaitingIsSuffix(s: string)
    ensures Extract(s).end.Waiting? ==>
              |Extract(s).end.rest| <= |s| && Parse(Extract(s).end.rest) == Partial
              && |Extract(s).end.rest| < BUFFER_CAP
    decreases |s|
  {
    hide KeepAlive;
    match Parse(s)
    case Partial => PartialIsSmall(s);
    case Invalid(_) =>
    case Complete(r, n) =>
      hide Parse;
      WaitingIsSuffix(s[n..]);
  }

  // ----- Pipelining -----

  function RenderAll(ls: seq<Letter>): string {
    if ls == [] then "" else Render(ls[0]) + RenderAll(ls[1..])
  }

  function RequestsOf(ls: seq<Letter>): seq<Request> {
    if ls == [] then [] else [RequestOf(ls[0])] + RequestsOf(ls[1..])
  }

  /** After a request the connection goes on exactly when no Connection header of it mentions close. */
  lemma LetterThenMore(l: Letter, more: string)
    requires Sendable(l)
    ensures var r := RequestOf(l);
            Extract(Render(l) + more)
            == if "connection" in r.headers && exists k :: Occurs(r.headers["connection"], "close", k)
               then Outcome([r], Closed) else Join([r], Extract(more))
  {
    hide Parse, Sendable, Render, RequestOf, Find, Occurs;
    ParseInvertsRender(l, more);
    assert (Render(l) + more)[|Render(l)|..] == more;
    var r := RequestOf(l);
    if "connection" in r.headers { OccursSomewhere(r.headers["connection"], "close"); }
  }

  lemma OccursSomewhere(s: string, pattern: string)
    ensures Find(s, pattern, 0) == None <==> forall k :: !Occurs(s, pattern, k)
  {
    hide Find;
    forall k | k < 0 ensures !Occurs(s, pattern, k) {}
    if Find(s, pattern, 0).Some? { assert Occurs(s, pattern, Find(s, pattern, 0).value); }
  }

  /** Requests written one after the other come out as they were written, whatever follows them. */
  lemma {:induction false} PipelineIsRead(ls: seq<Letter>, more: string)
    requires forall i :: 0 <= i < |ls| ==> Sendable(ls[i]) && KeepAlive(RequestOf(ls[i]))
    ensures Extract(RenderAll(ls) + more) == Join(RequestsOf(ls), Extract(more))
    decreases |ls|
  {
    hide Parse, KeepAlive, Sendable, Render, RequestOf;
    if ls == [] {
      assert RenderAll(ls) + more == more && [] + Extract(more).requests == Extract(more).requests;
    } else {
      var rest := RenderAll(ls[1..]) + more;
      assert RenderAll(ls) + more == Render(ls[0]) + rest;
      ParseInvertsRender(ls[0], rest);
      assert (Render(ls[0]) + rest)[|Render(ls[0])|..] == rest;
      PipelineIsRead(ls[1..], more);
      JoinJoin([RequestOf(ls[0])], RequestsOf(ls[1..]), Extract(more));
    }
  }

  // ----- One stream, two splits -----

  /** What one read may deliver whatever room the buffer has. */
  const READ_SIZE: nat := 65536

  /** The bytes in reads of that size. */
  function Pieces(s: string): seq<string> {
    if s == "" then [] else if |s| <= READ_SIZE then [s] else [s[..READ_SIZE]] + Pieces(s[READ_SIZE..])
  }

  predicate SmallReads(chunks: seq<string>) {
    forall i :: 0 <= i < |chunks| ==> 0 < |chunks[i]| <= READ_SIZE
  }

  lemma {:induction false} PiecesAre(s: string)
    ensures Stream(Pieces(s)) == s && SmallReads(Pieces(s))
    decreases |s|
  {
    if |s| > READ_SIZE {
      PiecesAre(s[READ_SIZE..]);
      var rest := Pieces(s[READ_SIZE..]);
      assert Pieces(s) == [s[..READ_SIZE]] + rest && Pieces(s)[1..] == rest;
      assert s == s[..READ_SIZE] + s[READ_SIZE..];
    } else if s != "" {
      assert [s][1..] == [];
    }
  }

  lemma {:induction false} StreamBoth(a: seq<string>, b: seq<string>)
    ensures Stream(a + b) == Stream(a) + Stream(b)
    decreases |a|
  {
    if a == [] {
      assert a + b == b;
    } else {
      assert (a + b)[1..] == a[1..] + b;
      StreamBoth(a[1..], b);
    }
  }

  lemma OneRequest(l: Letter)
    requires Sendable(l) && KeepAlive(RequestOf(l))
    ensures Extract(Render(l)) == Outcome([RequestOf(l)], Waiting(""))
  {
    hide Parse, KeepAlive, Sendable, Render, RequestOf;
    assert Render(l) + "" == Render(l) && Render(l)[|Render(l)|..] == "";
    ParseInvertsRender(l, "");
    NothingYet();
    assert Extract("") == Outcome([], Waiting(""));
  }

  /** All bytes of a request but the last, in reads of any size, wait. */
  lemma AllButLast(l: Letter, chunks: seq<string>)
    requires Sendable(l) && |Render(l)| <= BUFFER_CAP && Stream(chunks) == Render(l)[..|Render(l)| - 1]
    ensures FeedAll(START, chunks) == Conn(Stream(chunks), [], Open)
  {
    hide Parse, Sendable, Render, RequestOf, FeedAll, Stream, SomeOverflow;
    var raw := Render(l);
    assert raw + "" == raw;
    ParseInvertsRender(l, "");
    PrefixIsPartial(raw, |raw| - 1);
    SmallStreamsFit(START, chunks);
    SplitDoesNotMatterIff(chunks);
  }

  lemma RenderHasBytes(l: Letter)
    ensures |Render(l)| > 0
  {
    hide Block;
  }

  /** The last byte alone completes the request. */
  lemma LastByteAnswers(l: Letter)
    requires Sendable(l) && KeepAlive(RequestOf(l)) && |Render(l)| <= BUFFER_CAP
    ensures var raw := Render(l);
            Feed(Conn(raw[..|raw| - 1], [], Open), raw[|raw| - 1..]) == Conn("", [RequestOf(l)], Open)
  {
    hide Parse, KeepAlive, Sendable, Render, RequestOf, Extract;
    var raw := Render(l);
    RenderHasBytes(l);
    assert raw[..|raw| - 1] + raw[|raw| - 1..] == raw;
    OneRequest(l);
    assert [] + [RequestOf(l)] == [RequestOf(l)];
  }

  /** The bytes of a request but the last in pieces, then its last byte with what follows in one read or in two. */
  function Together(l: Letter, more: string): seq<string> {
    var raw := Render(l);
    Pieces(raw[..|raw| - 1]) + [raw[|raw| - 1..] + more]
  }

  function Apart(l: Letter, more: string): seq<string> {
    var raw := Render(l);
    Pieces(raw[..|raw| - 1]) + [raw[|raw| - 1..], more]
  }

  lemma SameStream(l: Letter, more: string)
    requires more != "" && |more| < READ_SIZE
    ensures Stream(Together(l, more)) == Render(l) + more == Stream(Apart(l, more))
    ensures SmallReads(Together(l, more)) && SmallReads(Apart(l, more))
  {
    hide Render, Pieces;
    RenderHasBytes(l);
    var raw, k := Render(l), |Render(l)| - 1;
    PiecesAre(raw[..k]);
    var last := raw[k..];
    assert |last| == 1 && raw == raw[..k] + last;
    StreamBoth(Pieces(raw[..k]), [last + more]);
    StreamBoth(Pieces(raw[..k]), [last, more]);
    assert [last + more][1..] == [] && [last, more][1..] == [more] && [more][1..] == [];
    assert Stream([more]) == more && Stream([last, more]) == last + more && Stream([last + more]) == last + more;
    assert raw[..k] + (last + more) == raw + more;
  }

  /**
   A request of more than 8 MiB and one byte, in reads of at most 64 KiB: when its last byte comes with 65535 bytes that
   follow, the connection answers 413 and nothing else; when it comes alone and they after it, the request is
   answered. The bytes are the same.
   */
  lemma SplitMatters(l: Letter, more: string)
    requires Sendable(l) && KeepAlive(RequestOf(l)) && BUFFER_CAP - READ_SIZE + 2 <= |Render(l)| <= BUFFER_CAP
    requires |more| == READ_SIZE - 1
    ensures SmallReads(Together(l, more)) && SmallReads(Apart(l, more)) && Stream(Together(l, more)) == Stream(Apart(l, more))
    ensures FeedAll(START, Together(l, more)).shut == TooLarge && FeedAll(START, Together(l, more)).requests == []
    ensures FeedAll(START, Apart(l, more)).shut != TooLarge && [RequestOf(l)] <= FeedAll(START, Apart(l, more)).requests
  {
    hide Parse, KeepAlive, Sendable, Render, RequestOf, Extract, Pieces, FeedAll;
    SameStream(l, more);
    var raw, k := Render(l), |Render(l)| - 1;
    var start, last := Pieces(raw[..k]), raw[k..];
    PiecesAre(raw[..k]);
    AllButLast(l, start);
    LastByteAnswers(l);
    FeedAllSplits(START, start, [last + more]);
    FeedAllSplits(START, start, [last, more]);
    FeedOne(Conn(raw[..k], [], Open), last + more);
    FeedTwo(Conn(raw[..k], [], Open), last, more);
  }

  lemma FeedOne(c: Conn, chunk: string)
    ensures FeedAll(c, [chunk]) == Feed(c, chunk)
  {
    hide Feed;
    assert [chunk][1..] == [];
  }

  lemma FeedTwo(c: Conn, a: string, b: string)
    ensures FeedAll(c, [a, b]) == Feed(Feed(c, a), b)
  {
    hide Feed;
    assert [a, b][1..] == [b];
    FeedOne(Feed(c, a), b);
  }

  // ----- Such a request -----

  /** A body of 8 MiB, the most that is taken. */
  function Body(): string {
    seq(MAX_BODY_BYTES, _ => 'x')
  }

  const LENGTH: Field := Field("content-length", "8388608")
  const HOST: Field := Field("host", "h")

  function Upload(): Letter {
    Letter("P", "/", [HOST, LENGTH], Body())
  }

  lemma LowerStays(s: string)
    requires forall i :: 0 <= i < |s| ==> !('A' <= s[i] <= 'Z')
    ensures Lower(s) == s
  {}

  lemma LengthDigits()
    ensures Digits(MAX_BODY_BYTES) == "8388608"
  {
    assert Digits(8) == "8";
    hide Digits;
    OneMoreDigit(8, 3, "8");
    OneMoreDigit(83, 8, "83");
    OneMoreDigit(838, 8, "838");
    OneMoreDigit(8388, 6, "8388");
    OneMoreDigit(83886, 0, "83886");
    OneMoreDigit(838860, 8, "838860");
  }

  lemma OneMoreDigit(n: nat, d: nat, text: string)
    requires n > 0 && d < 10 && Digits(n) == text
    ensures Digits(10 * n + d) == text + [DigitChar(d)]
  {}

  lemma UploadHeaders()
    ensures NewNames(Upload().fields, map[])
    ensures HeaderMap(Upload().fields, map[]) == map["host" := "h", "content-length" := "8388608"]
  {
    hide Lower;
    LowerStays("host");
    LowerStays("content-length");
    var fields := [HOST, LENGTH];
    assert fields[1..] == [LENGTH] && [LENGTH][1..] == [];
    assert |"host"| != |"content-length"| && |"connection"| != |"content-length"| && |"host"| != |"connection"|;
    assert Kept(HOST) == "h" && Kept(LENGTH) == "8388608";
    var one := map["host" := "h"];
    assert NewNames([LENGTH], one) && HeaderMap([LENGTH], one) == one["content-length" := "8388608"];
  }

  lemma UploadLines()
    ensures Joined(Upload().fields) == "host: h" + CRLF + "content-length: 8388608"
  {
    var fields := [HOST, LENGTH];
    assert fields[1..] == [LENGTH];
    assert Joined([LENGTH]) == Line(LENGTH);
    assert Joined(fields) == Line(HOST) + CRLF + Joined([LENGTH]);
    assert Line(HOST) == "host: h" && Line(LENGTH) == "content-length: 8388608";
  }

  lemma UploadFields()
    ensures GoodFields(Upload().fields) && Solid(Upload().verb) && Solid(Upload().target)
  {
    HostIsGood();
    LengthIsGood();
    hide Body, GoodField;
    assert Upload().fields == [HOST, LENGTH];
  }

  lemma HostIsGood()
    ensures GoodField(HOST)
  {}

  lemma LengthIsGood()
    ensures GoodField(LENGTH)
  {}

  lemma UploadBlock()
    ensures WellSpelled(Upload()) && |Render(Upload())| == MAX_BODY_BYTES + |Block(Upload())| + 4
    ensures 20 <= |Block(Upload())| <= 100
  {
    UploadFields();
    UploadLines();
    hide GoodFields, Joined, Solid;
  }

  lemma UploadIsSendable()
    ensures Sendable(Upload()) && KeepAlive(RequestOf(Upload()))
    ensures BUFFER_CAP - READ_SIZE + 2 <= |Render(Upload())| <= BUFFER_CAP
  {
    UploadBlock();
    UploadHeaders();
    LengthDigits();
    hide WellSpelled, Block, NewNames, HeaderMap, Render, Digits;
    assert |"transfer-encoding"| != |"host"| && |"transfer-encoding"| != |"content-length"|;
    assert |"connection"| != |"host"| && |"connection"| != |"content-length"|;
  }

  /** So there is a stream with two splits into reads of at most 64 KiB, one of which ends in a 413. */
  lemma TwoSplits() returns (a: seq<string>, b: seq<string>)
    ensures SmallReads(a) && SmallReads(b) && Stream(a) == Stream(b)
    ensures FeedAll(START, a).shut == TooLarge && FeedAll(START, a).requests == []
    ensures FeedAll(START, b).shut != TooLarge && FeedAll(START, b).requests != []
  {
    UploadIsSendable();
    hide Sendable, KeepAlive, RequestOf, Render, FeedAll, Stream, Upload, Apart, Together;
    var more := seq(READ_SIZE - 1, _ => 'x');
    a, b := Together(Upload(), more), Apart(Upload(), more);
    SplitMatters(Upload(), more);
  }
}
