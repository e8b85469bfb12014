/** The connection object: its buffer, its flags and the loop that takes requests out of the buffer. */
module HttpServer {
  import opened Common
  import opened Http
  import opened HttpConnection
  import B = Buffer

  /** Why the connection was shut: by its last request, with a 400, 413 or 503 answer, or because the peer went away. */
  datatype Answer = NoAnswer | Answer400(error: ParseError) | Answer413 | Answer503 | HungUp

  /** What reading the socket gave; no bytes at all is the end of the stream. */
  datatype Read = Bytes(chunk: string) | WouldBlock | Failed {
    predicate Ends() {
      this == Failed || this == Bytes("")
    }

    function Chunk(): string {
      if this.Bytes? then chunk else ""
    }
  }

  class Connection {
    const input: B.Buffer
    /** Whether requests go to a worker pool, one at a time. */
    const pooled: bool
    var dispatched: seq<Request>
    var closing: bool
    var inFlight: bool
    var keepAlive: bool
    var answer: Answer
    /** Every byte read from the socket. */
    ghost var stream: string

    /** Whatever the reads were, what was dispatched is what the stream contains, up to what still waits. */
    ghost predicate Follows()
      requires input.Valid()
      reads this, input, input.data
    {
      match answer
      case NoAnswer =>
        if closing || (inFlight && !keepAlive) then Extract(stream) == Outcome(dispatched, Closed)
        else Extract(stream) == Join(dispatched, Extract(input.Contents()))
      case Answer400(e) => closing && Extract(stream) == Outcome(dispatched, Bad(e))
      case Answer413 => closing && dispatched <= Extract(stream).requests
      case Answer503 => closing && dispatched < Extract(stream).requests
      case HungUp => closing && Extract(stream) == Join(dispatched, Extract(input.Contents()))
    }

    ghost predicate Valid()
      reads this, input, input.data
    {
      input.Valid() && (inFlight ==> pooled && !closing) && Follows()
    }

    constructor (pooled: bool)
      ensures Valid() && fresh(input) && fresh(input.data) && dispatched == [] && stream == "" && !closing && !inFlight
    {
      this.pooled, dispatched, closing, inFlight, keepAlive, answer := pooled, [], false, false, true, NoAnswer;
      stream := "";
      input := new B.Buffer();
      new;
      assert [] + Extract("").requests == Extract("").requests;
    }

    /**
     `onRead`, with what `readv` gave. `accepts` says whether the worker pool takes the request. A connection left open
     and idle waits for the rest of a request that it has only in part, and has dispatched all others.
     */
    method OnRead(read: Read, accepts: bool)
      requires Valid() && |read.Chunk()| <= input.data.Length - input.writer + B.EXTRA_BUFFER
      modifies this, input, input.data
      ensures Valid() && (input.data == old(input.data) || fresh(input.data))
      ensures old(inFlight || closing) ==>
                && stream == old(stream) && dispatched == old(dispatched) && input.Contents() == old(input.Contents())
                && inFlight == old(inFlight) && closing == old(closing) && answer == old(answer)
      ensures !old(inFlight || closing) ==>
                && stream == old(stream) + read.Chunk()
                && (answer == HungUp <==> read.Ends())
                && (answer == HungUp ==> dispatched == old(dispatched) && input.Contents() == old(input.Contents()))
                && (answer == Answer413 <==> !read.Ends() && |old(input.Contents()) + read.Chunk()| > BUFFER_CAP)
      ensures old(dispatched) <= dispatched
      ensures !closing && !inFlight ==> Extract(stream) == Outcome(dispatched, Waiting(input.Contents()))
    {
      hide Extract, Parse, KeepAlive;
      if inFlight || closing { return; }
      if read.Ends() {
        assert stream + read.Chunk() == stream;
        answer, closing := HungUp, true;
        return;
      }
      ghost var before := input.Contents();
      input.ReadFd(read.Chunk());
      stream := stream + read.Chunk();
      GrownStream(old(stream), dispatched, before, read.Chunk());
      if input.writer - input.reader > BUFFER_CAP {
        answer, closing := Answer413, true;
        return;
      }
      TakeRequests(accepts);
    }

    /** The loop of `onRead`. */
    method TakeRequests(accepts: bool)
      requires Valid() && !closing && !inFlight && answer == NoAnswer
      modifies this`dispatched, this`closing, this`inFlight, this`keepAlive, this`answer, input
      ensures Valid() && input.data == old(input.data)
      ensures old(dispatched) <= dispatched && answer != Answer413 && answer != HungUp
      ensures !closing && !inFlight ==> Extract(stream) == Outcome(dispatched, Waiting(input.Contents()))
    {
      hide Extract, Parse, KeepAlive;
      while input.writer != input.reader && !closing && !inFlight
        invariant Valid() && input.data == old(input.data) && answer == NoAnswer && old(dispatched) <= dispatched
        invariant stream == old(stream)
        decreases |input.Contents()|, !closing, !inFlight
      {
        var raw := input.Contents();
        var p := ParseRequest(raw);
        ExtractUnfolds(raw);
        if p.Partial? {
          assert dispatched + [] == dispatched;
          return;
        }
        if p.Invalid? {
          assert dispatched + [] == dispatched;
          answer, closing := Answer400(p.error), true;
          return;
        }
        var keep := KeepAlive(p.request);
        input.Retrieve(p.consumed);
        assert input.Contents() == raw[p.consumed..];
        JoinJoin(dispatched, [p.request], Extract(raw[p.consumed..]));
        if pooled && !accepts {
          Refused(dispatched, p.request, Extract(stream).requests, keep, Extract(raw[p.consumed..]).requests);
          answer, closing := Answer503, true;
          return;
        }
        dispatched := dispatched + [p.request];
        if pooled {
          inFlight, keepAlive := true, keep;
        } else {
          closing := !keep;
        }
      }
      if !closing && !inFlight {
        EmptyWaits();
        assert input.Contents() == "" && dispatched + [] == dispatched;
      }
    }

    /** The worker's answer arrived: the next request may be taken, unless this one was the last. */
    method OnAsyncResponse()
      requires Valid() && inFlight
      modifies this`inFlight, this`closing
      ensures Valid() && !inFlight && closing == !keepAlive
    {
      inFlight := false;
      closing := !keepAlive;
    }
  }

  lemma ExtractUnfolds(raw: string)
    ensures Parse(raw) == Partial ==> Extract(raw) == Outcome([], Waiting(raw))
    ensures Parse(raw).Invalid? ==> Extract(raw) == Outcome([], Bad(Parse(raw).error))
    ensures Parse(raw).Complete? ==>
              Extract(raw) == if KeepAlive(Parse(raw).request)
                              then Join([Parse(raw).request], Extract(raw[Parse(raw).consumed..]))
                              else Outcome([Parse(raw).request], Closed)
  {
    hide Parse, KeepAlive;
  }

  lemma EmptyWaits()
    ensures Extract("") == Outcome([], Waiting(""))
  {
    assert Find("", BLANK_LINE, 0) == None;
  }

  lemma Refused(dispatched: seq<Request>, r: Request, all: seq<Request>, keep: bool, later: seq<Request>)
    requires all == if keep then dispatched + [r] + later else dispatched + [r]
    ensures dispatched < all
  {}

  lemma GrownStream(stream: string, dispatched: seq<Request>, before: string, chunk: string)
    requires Extract(stream) == Join(dispatched, Extract(before))
    ensures Extract(stream + chunk) == Join(dispatched, Extract(before + chunk))
    ensures dispatched <= Extract(stream + chunk).requests
  {
    hide Extract;
    ExtractExtends(stream, chunk);
    ExtractExtends(before, chunk);
    var o := Extract(before);
    if o.end.Waiting? { JoinJoin(dispatched, o.requests, Extract(o.end.rest + chunk)); }
  }
}
