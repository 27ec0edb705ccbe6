/** The two pumps of a WebSocket bridge: one message is one chunk in both directions. */
module WebSocketPumps {
  import opened Options
  import opened StreamErrors
  import opened StreamPumps
  import Bridge = WebSocketBridge

  const SWITCHING_PROTOCOLS := 101

  /** A message (`isData` for text and binary ones), or the end of reading: `normal` for
      the close codes normal-closure and going-away. */
  datatype Incoming = Message(isData: bool, payload: Bytes) | Ended(normal: bool, error: Error)

  datatype ControlAnswer = ControlSent | CloseAlreadySent | ControlBroke(error: Error)

  class Connection {
    var incoming: seq<Incoming>
    const writeAnswer: nat -> Option<Error>
    const controlAnswer: ControlAnswer
    var written: seq<Bytes>
    var broken: Option<Error>
    var controls: nat

    constructor (incoming: seq<Incoming>, writeAnswer: nat -> Option<Error>, controlAnswer: ControlAnswer)
      ensures this.incoming == incoming && this.writeAnswer == writeAnswer && this.controlAnswer == controlAnswer
      ensures written == [] && broken == None && controls == 0
    {
      this.incoming, this.writeAnswer, this.controlAnswer := incoming, writeAnswer, controlAnswer;
      written, broken, controls := [], None, 0;
    }

    method ReadMessage() returns (r: Incoming)
      modifies this`incoming
      ensures r == HeadOf(old(incoming)) && incoming == TailOf(old(incoming))
    {
      if incoming == [] { return Ended(false, Leaf(EndOfFile)); }
      r, incoming := incoming[0], incoming[1..];
    }

    method WriteMessage(data: Bytes) returns (error: Option<Error>)
      modifies this`written, this`broken
      ensures broken == error
      ensures written == if error.None? then old(written) + [data] else old(written)
    {
      error := writeAnswer(|written|);
      broken := error;
      if error.None? { written := written + [data]; }
    }

    method WriteClose() returns (answer: ControlAnswer)
      modifies this`controls
      ensures controls == old(controls) + 1 && answer == controlAnswer
    {
      controls := controls + 1;
      answer := controlAnswer;
    }
  }

  // ---- requests -----------------------------------------------------------------------

  predicate TooLarge(m: Incoming) { m.Message? && m.isData && |m.payload| > CHUNK_LIMIT }

  /** The data messages before reading ends or a message is too large. */
  function Payloads(incoming: seq<Incoming>): seq<Bytes> {
    if incoming == [] || incoming[0].Ended? || TooLarge(incoming[0]) then []
    else (if incoming[0].isData then [incoming[0].payload] else []) + Payloads(incoming[1..])
  }

  /** How reading ends; None for a message over the limit. */
  function ReadingEnd(incoming: seq<Incoming>): Option<Incoming> {
    if incoming == [] then Some(Ended(false, Leaf(EndOfFile)))
    else if incoming[0].Ended? then Some(incoming[0])
    else if TooLarge(incoming[0]) then None
    else ReadingEnd(incoming[1..])
  }

  predicate EndsNormally(end: Option<Incoming>) { end.Some? && end.value.Ended? && end.value.normal }

  predicate WithinLimit(chunks: seq<Bytes>) { forall i :: 0 <= i < |chunks| ==> |chunks[i]| <= CHUNK_LIMIT }

  predicate Forwarding(all: seq<Bytes>, end: Option<Incoming>, sent: seq<Bytes>, left: seq<Incoming>) {
    WithinLimit(sent) && all == sent + Payloads(left) && end == ReadingEnd(left)
  }

  function HeadOf(incoming: seq<Incoming>): Incoming {
    if incoming == [] then Ended(false, Leaf(EndOfFile)) else incoming[0]
  }

  function TailOf(incoming: seq<Incoming>): seq<Incoming> { if incoming == [] then [] else incoming[1..] }

  /** What one message means for the request pump. */
  lemma MessageStep(all: seq<Bytes>, end: Option<Incoming>, sent: seq<Bytes>, left: seq<Incoming>)
    requires Forwarding(all, end, sent, left)
    ensures sent <= all && WithinLimit(sent)
    ensures var m := HeadOf(left);
            if m.Ended? then sent == all && end == Some(m)
            else if TooLarge(m) then sent == all && end.None?
            else |TailOf(left)| < |left| && Forwarding(all, end, if m.isData then sent + [m.payload] else sent, TailOf(left))
  {
    var m := HeadOf(left);
    if m.Message? && !TooLarge(m) && m.isData {
      assert Payloads(left) == [m.payload] + Payloads(left[1..]);
    }
  }

  /** What the request pump promises about a peer that sends `incoming`. */
  ghost predicate Requested(incoming: seq<Incoming>, session: Session, result: Bridge.PumpResult)
    reads session
  {
    && result.direction == Bridge.Request && result.error.Some?
    && WithinLimit(session.sent) && session.sent <= Payloads(incoming)
    && (session.refused.None? ==> session.sent == Payloads(incoming))
    && (var clean := session.refused.None? && EndsNormally(ReadingEnd(incoming));
        && session.closes == (if clean then 1 else 0)
        && (result.normal <==> clean && session.closeAnswer.None?))
    && (session.refused.Some? ==> result.error == Some(Bridge.ClassifyRuntimeFailure(session.refused.value)))
    && (session.refused.None? && !EndsNormally(ReadingEnd(incoming)) ==> Bridge.FailedByAbort(result.error))
  }

  /** `pumpWebSocketRequests`: the sent chunks are the data messages one by one; the
      request is closed exactly when the peer closed normally and every chunk was
      accepted; the pump ends normally exactly when that close succeeded as well. */
  method PumpRequests(connection: Connection, session: Session) returns (result: Bridge.PumpResult)
    requires session.sent == [] && session.refused.None? && session.closes == 0
    modifies connection`incoming, session
    ensures Requested(old(connection.incoming), session, result)
  {
    ghost var all, end := Payloads(connection.incoming), ReadingEnd(connection.incoming);
    while true
      invariant session.refused.None? && session.closes == 0
      invariant Forwarding(all, end, session.sent, connection.incoming)
      decreases |connection.incoming|
    {
      MessageStep(all, end, session.sent, connection.incoming);
      var message := connection.ReadMessage();
      if message.Ended? {
        if message.normal {
          var closeError := session.CloseRequest();
          if closeError.Some? {
            return Bridge.PumpResult(Bridge.Request, false, Some(Bridge.ClassifyRuntimeFailure(closeError.value)));
          }
          return Bridge.PumpResult(Bridge.Request, true, Some(message.error));
        }
        return Bridge.PumpResult(Bridge.Request, false, Some(WithAbort(Some(message.error))));
      }
      if !message.isData { continue; }
      if |message.payload| > CHUNK_LIMIT {
        return Bridge.PumpResult(Bridge.Request, false, Some(WithAbort(Some(Leaf(Other(2))))));
      }
      var sendError := session.Send(message.payload);
      if sendError.Some? {
        return Bridge.PumpResult(Bridge.Request, false, Some(Bridge.ClassifyRuntimeFailure(sendError.value)));
      }
    }
  }

  // ---- responses ------------------------------------------------------------------------

  /** The chunks a session delivers before it ends or exceeds the limit. */
  function Chunks(receipts: seq<Receipt>): seq<Bytes> {
    if receipts == [] || receipts[0].RecvFailed? || |receipts[0].data| > CHUNK_LIMIT then []
    else [receipts[0].data] + Chunks(receipts[1..])
  }

  /** The error a session ends with; None for a chunk over the limit. */
  function ChunksEnd(receipts: seq<Receipt>): Option<Error> {
    if receipts == [] then Some(Leaf(EndOfFile))
    else if receipts[0].RecvFailed? then Some(receipts[0].error)
    else if |receipts[0].data| > CHUNK_LIMIT then None
    else ChunksEnd(receipts[1..])
  }

  predicate PlainEof(end: Option<Error>) { end.Some? && !IsClassified(end.value) && Is(end.value, EndOfFile) }

  /** The session reached a plain end and its terminal switched protocols. */
  predicate Upgraded(end: Option<Error>, response: Option<nat>) {
    PlainEof(end) && response == Some(SWITCHING_PROTOCOLS)
  }

  /** What a session that ended by itself is reported as, short of a normal end. */
  function SessionFailure(end: Option<Error>, response: Option<nat>): Error {
    if end.None? then WithIncident(Leaf(DispatchTransport), RuntimeTransport)
    else if IsClassified(end.value) then end.value
    else if !Is(end.value, EndOfFile) then Bridge.ClassifyRuntimeFailure(end.value)
    else if response.None? then WithIncident(Leaf(DispatchTransport), MissingTerminal)
    else Wrapped(Leaf(DispatchTransport))
  }

  predicate Delivering(all: seq<Bytes>, end: Option<Error>, written: seq<Bytes>, left: seq<Receipt>) {
    all == written + Chunks(left) && end == ChunksEnd(left)
  }

  /** What one receipt means for the response pump. */
  lemma ReceiptStep(all: seq<Bytes>, end: Option<Error>, written: seq<Bytes>, left: seq<Receipt>)
    requires Delivering(all, end, written, left)
    ensures written <= all
    ensures left == [] ==> written == all && end == Some(Leaf(EndOfFile))
    ensures left != [] ==>
              if left[0].RecvFailed? then written == all && end == Some(left[0].error)
              else if |left[0].data| > CHUNK_LIMIT then written == all && end.None?
              else Delivering(all, end, written + [left[0].data], left[1..])
  {
    if left != [] && left[0].Chunk? && |left[0].data| <= CHUNK_LIMIT {
      assert Chunks(left) == [left[0].data] + Chunks(left[1..]);
    }
  }

  /** What the response pump promises about a session that delivers `receipts`. */
  ghost predicate Responded(receipts: seq<Receipt>, response: Option<nat>, connection: Connection, result: Bridge.PumpResult)
    reads connection
  {
    && result.direction == Bridge.Response && (result.normal <==> result.error.None?)
    && connection.written <= Chunks(receipts)
    && (connection.broken.None? ==> connection.written == Chunks(receipts))
    && (var clean := connection.broken.None? && Upgraded(ChunksEnd(receipts), response);
        && connection.controls == (if clean then 1 else 0)
        && (result.normal <==> clean && !connection.controlAnswer.ControlBroke?)
        && (clean && connection.controlAnswer.ControlBroke? ==> Bridge.FailedByAbort(result.error)))
    && (connection.broken.Some? ==> result.error == Some(WithAbort(connection.broken)))
    && (connection.broken.None? && !Upgraded(ChunksEnd(receipts), response) ==>
          result.error == Some(SessionFailure(ChunksEnd(receipts), response)))
  }

  /** `pumpWebSocketResponses`: the written messages are the received chunks one by one;
      the close frame is written exactly when everything was delivered and the terminal
      switched protocols; the pump ends normally exactly when that frame was sent, now
      or before. */
  method PumpResponses(connection: Connection, session: ResponseSession) returns (result: Bridge.PumpResult)
    requires connection.written == [] && connection.broken.None? && connection.controls == 0
    modifies connection`written, connection`broken, connection`controls, session
    ensures Responded(old(session.receipts), session.response, connection, result)
  {
    ghost var all, end := Chunks(session.receipts), ChunksEnd(session.receipts);
    while true
      invariant connection.broken.None? && connection.controls == 0
      invariant Delivering(all, end, connection.written, session.receipts)
      decreases |session.receipts|
    {
      ReceiptStep(all, end, connection.written, session.receipts);
      var receipt := session.Recv();
      if receipt.RecvFailed? {
        if IsClassified(receipt.error) {
          return Bridge.PumpResult(Bridge.Response, false, Some(receipt.error));
        }
        if Is(receipt.error, EndOfFile) {
          if session.response.None? {
            return Bridge.PumpResult(Bridge.Response, false, Some(WithIncident(Leaf(DispatchTransport), MissingTerminal)));
          }
          if session.response.value != SWITCHING_PROTOCOLS {
            return Bridge.PumpResult(Bridge.Response, false, Some(Wrapped(Leaf(DispatchTransport))));
          }
          var answer := connection.WriteClose();
          if answer.ControlBroke? {
            return Bridge.PumpResult(Bridge.Response, false, Some(WithAbort(Some(answer.error))));
          }
          return Bridge.PumpResult(Bridge.Response, true, None);
        }
        return Bridge.PumpResult(Bridge.Response, false, Some(Bridge.ClassifyRuntimeFailure(receipt.error)));
      }
      if |receipt.data| > CHUNK_LIMIT {
        return Bridge.PumpResult(Bridge.Response, false, Some(WithIncident(Leaf(DispatchTransport), RuntimeTransport)));
      }
      var error := connection.WriteMessage(receipt.data);
      if error.Some? {
        return Bridge.PumpResult(Bridge.Response, false, Some(WithAbort(error)));
      }
    }
  }

  // ---- with the bridge ---------------------------------------------------------------------

  /** Everything was written and the close frame went out, now or before, after a
      terminal that switched protocols. */
  ghost predicate DeliveredAndUpgraded(connection: Connection, receipts: seq<Receipt>, response: Option<nat>)
    reads connection
  {
    && connection.broken.None? && PlainEof(ChunksEnd(receipts)) && response == Some(101)
    && !connection.controlAnswer.ControlBroke?
  }

  /** Both results queued: the arbitration completes exactly on delivery and upgrade,
      however the request side ended and whoever reported first. */
  lemma QueuedCommitsOnlyOnUpgrade(
    connection: Connection, incoming: seq<Incoming>, receipts: seq<Receipt>, session: Session,
    response: Option<nat>, q: Bridge.PumpResult, p: Bridge.PumpResult)
    requires Requested(incoming, session, q) && Responded(receipts, response, connection, p)
    ensures Bridge.Completes(Bridge.Queued(q, p)) <==> DeliveredAndUpgraded(connection, receipts, response)
    ensures Bridge.Completes(Bridge.Queued(p, q)) <==> DeliveredAndUpgraded(connection, receipts, response)
  {
    Bridge.ArbitrationIgnoresArrivalOrder(q, p);
  }

  /** Whole bridge, in every interleaving of the two pumps, the grace timer and the
      bridge: it commits exactly when the response pump had posted before the decision
      and everything was delivered and upgraded; every chunk was then written, and it
      does not matter how the request side ended. */
  lemma BridgeCommitsOnlyOnUpgrade(
    connection: Connection, incoming: seq<Incoming>, receipts: seq<Receipt>, session: Session,
    response: Option<nat>, q: Bridge.PumpResult, p: Bridge.PumpResult,
    w: Bridge.World, acts: seq<Bridge.Action>, last: Bridge.World)
    requires Requested(incoming, session, q) && Responded(receipts, response, connection, p)
    requires Bridge.Init(w) && Bridge.Run(w, acts, last) && last.pc.BridgeReturned?
    requires q in last.consumed && p in last.consumed
    ensures last.outcomes == [Bridge.Completed] <==>
            p in last.seen && DeliveredAndUpgraded(connection, receipts, response)
    ensures last.outcomes == [Bridge.Completed] ==> connection.written == Chunks(receipts)
  {
    Bridge.BridgeConsumesBothAndCompletesOnlyOnResponse(w, acts, last);
    Bridge.SeenWasConsumed(w, acts, last);
    assert last.consumed[0] == p || last.consumed[1] == p;
    if Bridge.HasNormalResponse(last.seen) {
      var i :| 0 <= i < |last.seen| && Bridge.Completes(last.seen[i]);
      assert last.seen[i] == last.consumed[i];
      assert last.seen[i] == p;
    } else if p in last.seen {
      var i :| 0 <= i < |last.seen| && last.seen[i] == p;
      assert !Bridge.Completes(last.seen[i]);
    }
  }
}
