/** The loops that move the bytes of an HTTP stream. Readers, sessions and writers are
    objects that answer from a script no pump can see ahead. */
module StreamPumps {
  import opened Options
  import opened StreamErrors

  type Bytes = seq<bv8>

  /** `MaxProtocolV2RouteChunkSize` */
  const CHUNK_LIMIT := 0x10_0000

  function Concat(chunks: seq<Bytes>): Bytes {
    if chunks == [] then [] else Concat(chunks[..|chunks| - 1]) + chunks[|chunks| - 1]
  }

  lemma ConcatAppend(chunks: seq<Bytes>, x: Bytes)
    ensures Concat(chunks + [x]) == Concat(chunks) + x
  {
    assert (chunks + [x])[..|chunks|] == chunks;
  }

  // ---- readers -----------------------------------------------------------------------

  datatype ReadEvent = ReadEvent(data: Bytes, error: Option<Error>)

  datatype Ending = AtEof | Broken(error: Error) | Stalled

  function EndingBy(e: Error): Ending { if Is(e, EndOfFile) then AtEof else Broken(e) }

  /** What a reader hands out before it ends. */
  function Contents(events: seq<ReadEvent>): Bytes {
    if events == [] then []
    else if events[0].error.Some? || events[0].data == [] then events[0].data
    else events[0].data + Contents(events[1..])
  }

  function EndOf(events: seq<ReadEvent>): Ending {
    if events == [] then AtEof
    else if events[0].error.Some? then EndingBy(events[0].error.value)
    else if events[0].data == [] then Stalled
    else EndOf(events[1..])
  }

  function Size(events: seq<ReadEvent>): nat {
    if events == [] then 0 else |events[0].data| + 1 + Size(events[1..])
  }

  /** One read turned `before` into `after`. */
  predicate Handed(before: seq<ReadEvent>, after: seq<ReadEvent>, data: Bytes, error: Option<Error>) {
    if error.Some? then Contents(before) == data && EndOf(before) == EndingBy(error.value)
    else if data == [] then Contents(before) == [] && EndOf(before) == Stalled
    else Contents(before) == data + Contents(after) && EndOf(before) == EndOf(after) && Size(after) < Size(before)
  }

  /** An `io.Reader`: it may hand out bytes together with its error, or nothing at all. */
  class Reader {
    var events: seq<ReadEvent>

    constructor (events: seq<ReadEvent>)
      ensures this.events == events
    {
      this.events := events;
    }

    method Read(buffer: array<bv8>) returns (n: nat, error: Option<Error>)
      requires buffer.Length > 0
      modifies this, buffer
      ensures n <= buffer.Length && Handed(old(events), events, buffer[..n], error)
    {
      if events == [] { return 0, Some(Leaf(EndOfFile)); }
      var next := events[0];
      n := if |next.data| <= buffer.Length then |next.data| else buffer.Length;
      forall i | 0 <= i < n { buffer[i] := next.data[i]; }
      assert buffer[..n] == next.data[..n];
      if n < |next.data| {
        assert next.data == next.data[..n] + next.data[n..];
        events := [ReadEvent(next.data[n..], next.error)] + events[1..];
        error := None;
      } else {
        assert next.data[..n] == next.data;
        events := events[1..];
        error := next.error;
      }
    }
  }

  // ---- the request side of a session -----------------------------------------------------

  class Session {
    const sendAnswer: nat -> Option<Error>
    const closeAnswer: Option<Error>
    var sent: seq<Bytes>
    var refused: Option<Error>
    var closes: nat

    constructor (sendAnswer: nat -> Option<Error>, closeAnswer: Option<Error>)
      ensures this.sendAnswer == sendAnswer && this.closeAnswer == closeAnswer
      ensures sent == [] && refused == None && closes == 0
    {
      this.sendAnswer := sendAnswer;
      this.closeAnswer := closeAnswer;
      sent, refused, closes := [], None, 0;
    }

    method Send(data: Bytes) returns (error: Option<Error>)
      modifies this
      ensures closes == old(closes) && refused == error == sendAnswer(|old(sent)|)
      ensures sent == if error.None? then old(sent) + [data] else old(sent)
    {
      error := sendAnswer(|sent|);
      refused := error;
      if error.None? { sent := sent + [data]; }
    }

    method CloseRequest() returns (error: Option<Error>)
      modifies this
      ensures sent == old(sent) && refused == old(refused) && closes == old(closes) + 1
      ensures error == closeAnswer
    {
      closes := closes + 1;
      error := closeAnswer;
    }
  }

  /** What the request pump returns when no chunk was refused. */
  function Verdict(ending: Ending, closeAnswer: Option<Error>): Option<Error> {
    match ending
    case AtEof => closeAnswer
    case Broken(e) => Some(WithAbort(Some(e)))
    case Stalled => Some(WithAbort(Some(Leaf(Other(1)))))
  }

  predicate AllBounded(chunks: seq<Bytes>) {
    forall i :: 0 <= i < |chunks| ==> 0 < |chunks[i]| <= 1024 * 1024
  }

  /** The chunks sent so far and what is left make up the whole. */
  predicate Conserved(whole: Bytes, chunks: seq<Bytes>, rest: Bytes) { whole == Concat(chunks) + rest }

  lemma ConserveChunk(whole: Bytes, chunks: seq<Bytes>, x: Bytes, rest: Bytes)
    requires Conserved(whole, chunks, x + rest)
    ensures Conserved(whole, chunks + [x], rest)
    ensures AllBounded(chunks) && 0 < |x| <= CHUNK_LIMIT ==> AllBounded(chunks + [x])
  {
    ConcatAppend(chunks, x);
    assert Concat(chunks) + (x + rest) == Concat(chunks) + x + rest;
  }

  predicate Underway(whole: Bytes, end: Ending, chunks: seq<Bytes>, left: seq<ReadEvent>) {
    AllBounded(chunks) && Conserved(whole, chunks, Contents(left)) && end == EndOf(left)
  }

  /** Everything the reader had was sent in bounded chunks. */
  predicate Whole(whole: Bytes, chunks: seq<Bytes>) { AllBounded(chunks) && Concat(chunks) == whole }

  /** What one read means for the pump. */
  lemma PumpStep(
    whole: Bytes, end: Ending, chunks: seq<Bytes>, before: seq<ReadEvent>, after: seq<ReadEvent>,
    data: Bytes, error: Option<Error>)
    requires Underway(whole, end, chunks, before) && Handed(before, after, data, error) && |data| <= CHUNK_LIMIT
    ensures AllBounded(chunks) && Concat(chunks) <= whole
    ensures data != [] && error.None? ==> Underway(whole, end, chunks + [data], after) && Size(after) < Size(before)
    ensures data != [] && error.Some? ==> Whole(whole, chunks + [data]) && end == EndingBy(error.value)
    ensures data == [] && error.Some? ==> Whole(whole, chunks) && end == EndingBy(error.value)
    ensures data == [] && error.None? ==> Whole(whole, chunks) && end == Stalled
  {
    var rest := if error.None? && data != [] then Contents(after) else [];
    assert Contents(before) == data + rest;
    if data != [] { ConserveChunk(whole, chunks, data, rest); }
  }

  /** What the request pump promises about a reader that held `events`. */
  ghost predicate Pumped(events: seq<ReadEvent>, session: Session, result: Option<Error>)
    reads session
  {
    && AllBounded(session.sent) && Concat(session.sent) <= Contents(events)
    && (session.refused.Some? ==> result == session.refused && session.closes == 0)
    && (session.refused.None? ==>
          && Concat(session.sent) == Contents(events)
          && result == Verdict(EndOf(events), session.closeAnswer)
          && session.closes == if EndOf(events) == AtEof then 1 else 0)
  }

  method PumpLoop(reader: Reader, session: Session) returns (result: Option<Error>)
    requires session.sent == [] && session.refused.None? && session.closes == 0
    modifies reader, session
    ensures Pumped(old(reader.events), session, result)
  {
    ghost var whole, end := Contents(reader.events), EndOf(reader.events);
    var buffer := new bv8[CHUNK_LIMIT];
    while true
      invariant session.refused.None? && session.closes == 0
      invariant Underway(whole, end, session.sent, reader.events)
      decreases Size(reader.events)
    {
      ghost var before := reader.events;
      var read, error := reader.Read(buffer);
      var data := buffer[..read];
      PumpStep(whole, end, session.sent, before, reader.events, data, error);
      if read > 0 {
        var sendError := session.Send(data);
        if sendError.Some? { return sendError; }
      }
      if error.Some? && Is(error.value, EndOfFile) {
        result := session.CloseRequest();
        return;
      }
      if error.Some? { return Some(WithAbort(error)); }
      if read == 0 { return Some(WithAbort(Some(Leaf(Other(1))))); }
    }
  }

  /** `pumpRouteStreamRequest`: every chunk is non-empty and within the limit, the chunks
      are the reader's bytes in order, and the request is closed exactly once, iff the
      reader ended and every chunk was accepted. */
  method PumpRequest(reader: Reader?, session: Session?) returns (result: Option<Error>)
    requires session != null ==> session.sent == [] && session.refused.None? && session.closes == 0
    modifies reader, session
    ensures reader == null ==> result == Some(WithAbort(Some(Leaf(DispatchTransport))))
    ensures reader == null && session != null ==> session.sent == [] && session.closes == 0
    ensures reader != null && session == null ==> result == Some(Leaf(DispatchTransport))
    ensures reader != null && session != null ==> Pumped(old(reader.events), session, result)
  {
    if reader == null { return Some(WithAbort(Some(Leaf(DispatchTransport)))); }
    if session == null { return Some(Leaf(DispatchTransport)); }
    result := PumpLoop(reader, session);
  }

  // ---- the response side ---------------------------------------------------------------------

  datatype Receipt = Chunk(data: Bytes) | RecvFailed(error: Error)

  datatype StreamOutcome = Committed | FailedBy(error: Error) | FailedAs(class_: FailureClass, error: Error) | AbortedBy(error: Error)

  datatype Effect = Wrote(data: Bytes) | Recorded(outcome: StreamOutcome) | CancelCalled

  datatype WriteAnswer = Written | WriteBroke(kept: nat, error: Error) | FlushBroke(error: Error)

  /** The bytes a session delivers before it ends. */
  function Received(receipts: seq<Receipt>): Bytes {
    if receipts == [] || receipts[0].RecvFailed? then [] else receipts[0].data + Received(receipts[1..])
  }

  /** The error a session ends with; a script that runs out ends normally. */
  function ReceiveEnd(receipts: seq<Receipt>): Error {
    if receipts == [] then Leaf(EndOfFile)
    else if receipts[0].RecvFailed? then receipts[0].error
    else ReceiveEnd(receipts[1..])
  }

  function WrittenBytes(log: seq<Effect>): Bytes {
    if log == [] then []
    else
      WrittenBytes(log[..|log| - 1]) +
      if log[|log| - 1].Wrote? then log[|log| - 1].data else []
  }

  lemma WrittenAppend(log: seq<Effect>, e: Effect)
    ensures WrittenBytes(log + [e]) == WrittenBytes(log) + if e.Wrote? then e.data else []
  {
    assert (log + [e])[..|log|] == log;
  }

  predicate OnlyWrites(log: seq<Effect>) { forall i :: 0 <= i < |log| ==> log[i].Wrote? }

  /** Writes, then exactly one outcome, then the cancel. */
  predicate Settled(log: seq<Effect>) {
    |log| >= 2 && OnlyWrites(log[..|log| - 2]) && log[|log| - 2].Recorded? && log[|log| - 1] == CancelCalled
  }

  /** `end` is the error of the first receipt that failed, or a plain EOF if none did. */
  ghost predicate FirstFailure(receipts: seq<Receipt>, end: Error) {
    || (exists i :: 0 <= i < |receipts| && receipts[i] == RecvFailed(end) && forall j :: 0 <= j < i ==> receipts[j].Chunk?)
    || ((forall i :: 0 <= i < |receipts| ==> receipts[i].Chunk?) && end == Leaf(EndOfFile))
  }

  lemma {:induction false} ReceiveEndIsFirstFailure(receipts: seq<Receipt>)
    ensures FirstFailure(receipts, ReceiveEnd(receipts))
  {
    if receipts != [] && receipts[0].Chunk? {
      var rest := receipts[1..];
      ReceiveEndIsFirstFailure(rest);
      if i :| 0 <= i < |rest| && rest[i] == RecvFailed(ReceiveEnd(rest)) && forall j :: 0 <= j < i ==> rest[j].Chunk? {
        assert receipts[i + 1] == rest[i];
        assert forall j :: 0 <= j < i + 1 ==> receipts[j] == if j == 0 then receipts[0] else rest[j - 1];
      }
    }
  }

  /** What an outcome says about the stream and its writer: a commit needs every write,
      an EOF and a response; the writer's failure is an abort by it; an EOF without a
      response is a missing terminal; and any other end of the stream is a failure by
      exactly that error. */
  ghost predicate Justified(outcome: StreamOutcome, end: Error, hasResponse: bool, broken: Option<Error>) {
    && (outcome == Committed <==> broken.None? && Is(end, EndOfFile) && hasResponse)
    && (outcome.AbortedBy? <==> broken.Some?)
    && (broken.Some? ==> outcome == AbortedBy(broken.value))
    && (outcome == FailedAs(MissingTerminal, Leaf(DispatchTransport)) <==> broken.None? && Is(end, EndOfFile) && !hasResponse)
    && (outcome.FailedBy? <==> broken.None? && !Is(end, EndOfFile))
    && (outcome.FailedBy? ==> outcome.error == end)
  }

  /** The receiving half of a session; `response` is the status of its terminal. */
  class ResponseSession {
    var receipts: seq<Receipt>
    const response: Option<nat>

    constructor (receipts: seq<Receipt>, response: Option<nat>)
      ensures this.receipts == receipts && this.response == response
    {
      this.receipts, this.response := receipts, response;
    }

    method Recv() returns (r: Receipt)
      modifies this
      ensures r == if old(receipts) == [] then RecvFailed(Leaf(EndOfFile)) else old(receipts)[0]
      ensures receipts == if old(receipts) == [] then [] else old(receipts)[1..]
    {
      if receipts == [] { return RecvFailed(Leaf(EndOfFile)); }
      r, receipts := receipts[0], receipts[1..];
    }
  }

  /** The buffered writer, the dispatch and the session's cancel, with the order of
      everything they saw. */
  class Journal {
    const writeAnswer: nat -> WriteAnswer
    var log: seq<Effect>
    var broken: Option<Error>

    constructor (writeAnswer: nat -> WriteAnswer)
      ensures this.writeAnswer == writeAnswer && log == [] && broken == None
    {
      this.writeAnswer := writeAnswer;
      log, broken := [], None;
    }

    /** Write and flush one chunk: a broken write may keep a part of it. */
    method WriteAndFlush(data: Bytes) returns (error: Option<Error>)
      modifies this`log, this`broken
      ensures broken == error
      ensures exists kept: nat :: kept <= |data| && log == old(log) + [Wrote(data[..kept])] && (error.None? ==> kept == |data|)
    {
      match writeAnswer(|log|) {
        case Written =>
          error, log := None, log + [Wrote(data[..|data|])];
        case WriteBroke(kept, e) =>
          var part := if kept <= |data| then kept else |data|;
          error, log := Some(e), log + [Wrote(data[..part])];
        case FlushBroke(e) =>
          error, log := Some(e), log + [Wrote(data[..|data|])];
      }
      broken := error;
    }

    method Record(outcome: StreamOutcome)
      modifies this`log
      ensures log == old(log) + [Recorded(outcome)]
    {
      log := log + [Recorded(outcome)];
    }

    method Cancel()
      modifies this`log
      ensures log == old(log) + [CancelCalled]
    {
      log := log + [CancelCalled];
    }
  }

  /** Everything written so far and what is still to come make up the whole. */
  predicate WrittenSoFar(whole: Bytes, log: seq<Effect>, rest: Bytes) {
    OnlyWrites(log) && whole == WrittenBytes(log) + rest
  }

  lemma Regroup(done: Bytes, part: Bytes, tail: Bytes, rest: Bytes)
    ensures done + ((part + tail) + rest) == (done + part) + (tail + rest)
    ensures done + part <= done + ((part + tail) + rest)
  {
  }

  lemma StreamedBy(receipts: seq<Receipt>, hasResponse: bool, log: seq<Effect>, broken: Option<Error>, outcome: StreamOutcome)
    requires OnlyWrites(log) && WrittenBytes(log) <= Received(receipts)
    requires broken.None? ==> WrittenBytes(log) == Received(receipts)
    requires Justified(outcome, ReceiveEnd(receipts), hasResponse, broken)
    ensures Streamed(receipts, hasResponse, log + [Recorded(outcome)], broken)
  {
    WrittenAppend(log, Recorded(outcome));
    ReceiveEndIsFirstFailure(receipts);
    assert (log + [Recorded(outcome)])[..|log|] == log;
  }

  lemma WriteStep(whole: Bytes, log: seq<Effect>, data: Bytes, rest: Bytes, e: Effect)
    requires WrittenSoFar(whole, log, data + rest) && e.Wrote? && e.data <= data
    ensures OnlyWrites(log + [e]) && WrittenBytes(log + [e]) <= whole
    ensures e.data == data ==> WrittenSoFar(whole, log + [e], rest)
  {
    var tail := data[|e.data|..];
    assert data == e.data + tail;
    WrittenAppend(log, e);
    Regroup(WrittenBytes(log), e.data, tail, rest);
    assert tail == [] ==> tail + rest == rest;
  }

  /** The log up to the outcome, for a session that held `receipts`. */
  ghost predicate Streamed(receipts: seq<Receipt>, hasResponse: bool, log: seq<Effect>, broken: Option<Error>) {
    && |log| >= 1 && OnlyWrites(log[..|log| - 1])
    && WrittenBytes(log) <= Received(receipts)
    && (broken.None? ==> WrittenBytes(log) == Received(receipts))
    && log[|log| - 1].Recorded? && Justified(log[|log| - 1].outcome, ReceiveEnd(receipts), hasResponse, broken)
    && FirstFailure(receipts, ReceiveEnd(receipts))
  }

  /** The loop of `streamRouteResponse`, up to its deferred cancel. */
  method StreamUntilOutcome(journal: Journal, session: ResponseSession)
    requires journal.log == [] && journal.broken.None?
    modifies journal, session
    ensures Streamed(old(session.receipts), session.response.Some?, journal.log, journal.broken)
  {
    ghost var whole, end := Received(session.receipts), ReceiveEnd(session.receipts);
    while true
      invariant journal.broken.None?
      invariant WrittenSoFar(whole, journal.log, Received(session.receipts)) && end == ReceiveEnd(session.receipts)
      decreases |session.receipts|
    {
      ghost var log := journal.log;
      var receipt := session.Recv();
      if receipt.RecvFailed? {
        var outcome := FailedBy(receipt.error);
        if Is(receipt.error, EndOfFile) {
          outcome := if session.response.None? then FailedAs(MissingTerminal, Leaf(DispatchTransport)) else Committed;
        }
        StreamedBy(old(session.receipts), session.response.Some?, log, None, outcome);
        journal.Record(outcome);
        return;
      }
      if receipt.data == [] { continue; }
      var error := journal.WriteAndFlush(receipt.data);
      ghost var wrote := journal.log[|log|];
      WriteStep(whole, log, receipt.data, Received(session.receipts), wrote);
      if error.Some? {
        StreamedBy(old(session.receipts), session.response.Some?, journal.log, error, AbortedBy(error.value));
        journal.Record(AbortedBy(error.value));
        return;
      }
    }
  }

  /** `streamRouteResponse`: a prefix of the received bytes is written in order, all of
      them unless the writer broke; one outcome is recorded, and then the session is
      canceled. */
  method StreamResponse(journal: Journal, session: ResponseSession?, wired: bool)
    requires journal.log == [] && journal.broken.None?
    modifies journal, session
    ensures session == null ==> journal.log == []
    ensures session != null && !wired ==> journal.log == [CancelCalled]
    ensures session != null && wired ==>
              && Settled(journal.log)
              && Streamed(old(session.receipts), session.response.Some?, journal.log[..|journal.log| - 1], journal.broken)
  {
    if session == null { return; }
    if wired { StreamUntilOutcome(journal, session); }
    ghost var log := journal.log;
    journal.Cancel();
    assert journal.log[..|log|] == log;
    assert wired ==> journal.log[..|journal.log| - 2] == log[..|log| - 1];
  }
}
