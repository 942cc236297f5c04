/** What the connection of src/connection.rs promises: how the read loop
    accumulates and fails, what the write step puts on the wire, and how the
    state moves. */
module ConnectionLemmas {
  import opened Wrappers
  import opened Codec
  import opened Connections
  import Utf8
  import CodecLemmas

  // ---------------------------------------------------------------------------
  // The read loop

  /** A read after which the loop goes on: some bytes, or an interruption. */
  predicate Continues(o: ReadOutcome)
  {
    (o.Got? && |o.data| > 0) || (o.ReadFailed? && o.error.kind == Interrupted)
  }

  predicate AllContinue(rs: seq<ReadOutcome>)
  {
    forall i :: 0 <= i < |rs| ==> Continues(rs[i])
  }

  /** Successful reads append their bytes in order and interruptions are
      retried without touching the accumulator. */
  lemma {:induction false} DrainPrefix(pre: seq<ReadOutcome>, w: Wire, acc: seq<Byte>)
    requires AllContinue(pre)
    ensures Drain(w.(inbound := pre + w.inbound), acc) == Drain(w, acc + DataOf(pre))
    decreases |pre|
  {
    if pre == [] {
      assert w.(inbound := pre + w.inbound) == w;
      assert acc + DataOf(pre) == acc;
    } else {
      var w0 := w.(inbound := pre + w.inbound);
      assert w0.inbound[0] == pre[0];
      assert w0.inbound[1..] == pre[1..] + w.inbound;
      var next := if pre[0].Got? then acc + pre[0].data else acc;
      DrainPrefix(pre[1..], w, next);
      assert next + DataOf(pre[1..]) == acc + DataOf(pre);
    }
  }

  /** "Would block" ends the loop with everything read so far. */
  lemma DrainUntilWouldBlock(pre: seq<ReadOutcome>, e: IoError, rest: seq<ReadOutcome>, w: Wire)
    requires AllContinue(pre) && e.kind == WouldBlock
    ensures Drain(w.(inbound := pre + [ReadFailed(e)] + rest), []) == (Ok(DataOf(pre)), w.(inbound := rest))
  {
    assert pre + [ReadFailed(e)] + rest == pre + ([ReadFailed(e)] + rest);
    var w1 := w.(inbound := [ReadFailed(e)] + rest);
    DrainPrefix(pre, w1, []);
    assert [] + DataOf(pre) == DataOf(pre);
    assert ReadNext(w1) == (ReadFailed(e), w.(inbound := rest));
  }

  /** A socket that has nothing more to report ends the loop as well. */
  lemma DrainUntilEmpty(pre: seq<ReadOutcome>, w: Wire)
    requires AllContinue(pre) && w.inbound == []
    ensures Drain(w.(inbound := pre), []) == (Ok(DataOf(pre)), w)
  {
    assert pre + w.inbound == pre;
    assert w.(inbound := pre + w.inbound) == w.(inbound := pre);
    DrainPrefix(pre, w, []);
    assert [] + DataOf(pre) == DataOf(pre);
  }

  /** A zero-byte read fails the whole read, however much data came first. */
  lemma DrainZeroRead(pre: seq<ReadOutcome>, rest: seq<ReadOutcome>, w: Wire)
    requires AllContinue(pre)
    ensures Drain(w.(inbound := pre + [Got([])] + rest), []) == (Err(INVALID_READ), w.(inbound := rest))
  {
    assert pre + [Got([])] + rest == pre + ([Got([])] + rest);
    DrainPrefix(pre, w.(inbound := [Got([])] + rest), []);
  }

  /** Any other read error fails the read with that error. */
  lemma DrainReadError(pre: seq<ReadOutcome>, e: IoError, rest: seq<ReadOutcome>, w: Wire)
    requires AllContinue(pre) && e.kind == Other
    ensures Drain(w.(inbound := pre + [ReadFailed(e)] + rest), []) == (Err(e.message), w.(inbound := rest))
  {
    assert pre + [ReadFailed(e)] + rest == pre + ([ReadFailed(e)] + rest);
    DrainPrefix(pre, w.(inbound := [ReadFailed(e)] + rest), []);
  }

  /** The loop only ever consumes reads: the writes and the bytes sent stay. */
  lemma {:induction false} DrainKeepsWrites(w: Wire, acc: seq<Byte>)
    ensures Drain(w, acc).1.outbound == w.outbound && Drain(w, acc).1.sent == w.sent
    ensures |Drain(w, acc).1.inbound| <= |w.inbound|
    decreases |w.inbound|
  {
    if w.inbound != [] {
      var w' := w.(inbound := w.inbound[1..]);
      var o := w.inbound[0];
      if o.Got? && |o.data| > 0 {
        DrainKeepsWrites(w', acc + o.data);
      } else if o.ReadFailed? && o.error.kind == Interrupted {
        DrainKeepsWrites(w', acc);
      }
    }
  }

  // ---------------------------------------------------------------------------
  // The readable branch

  /** A read that ends in "would block" leaves the decoded text in the buffer
      and the state `ReadDone`, or, when the bytes are not UTF-8, fails and
      leaves state and buffer as they were. */
  lemma ReadPhaseOutcome(s: Snapshot, pre: seq<ReadOutcome>, e: IoError, rest: seq<ReadOutcome>)
    requires AllContinue(pre) && e.kind == WouldBlock
    requires s.wire.inbound == pre + [ReadFailed(e)] + rest
    ensures Utf8.Decode(DataOf(pre)).Some? ==>
      ReadPhase(s) == Step(Ok(ReadDone), Snapshot(ReadDone, Utf8.Decode(DataOf(pre)), s.wire.(inbound := rest)))
    ensures Utf8.Decode(DataOf(pre)).None? ==>
      ReadPhase(s) == Step(Err(INVALID_UTF8), s.(wire := s.wire.(inbound := rest)))
  {
    DrainUntilWouldBlock(pre, e, rest, s.wire);
    assert s.wire.(inbound := pre + [ReadFailed(e)] + rest) == s.wire;
  }

  /** The buffered text is exactly the bytes that were read. */
  lemma ReadPhaseBuffer(s: Snapshot)
    requires ReadPhase(s).result.Ok?
    ensures ReadPhase(s).after.buffer.Some?
    ensures Utf8.Encode(ReadPhase(s).after.buffer.value) == Drain(s.wire, []).0.value
  {
    Utf8.EncodeDecode(Drain(s.wire, []).0.value);
  }

  /** A failed read changes neither the state nor the buffer, and writes
      nothing. */
  lemma ReadPhaseFailure(s: Snapshot)
    requires ReadPhase(s).result.Err?
    ensures ReadPhase(s).after.state == s.state && ReadPhase(s).after.buffer == s.buffer
    ensures ReadPhase(s).after.wire.sent == s.wire.sent
  {
    DrainKeepsWrites(s.wire, []);
  }

  // ---------------------------------------------------------------------------
  // The writable branch

  /** The bytes the handler's response is written as. */
  function ResponseBytes(buffer: string, handle: Handler): seq<Byte>
    requires DecodeDefined(buffer)
    requires DeserializeRequest(buffer).Ok? && handle(DeserializeRequest(buffer).value).Ok?
  {
    Utf8.Encode(SerializeResponse(handle(DeserializeRequest(buffer).value).value))
  }

  /** With a buffered request that decodes and a handler that answers, the
      bytes offered to the socket are the serialised response; a write that
      takes them all ends in `WriteDone`. */
  lemma WriteResponseSent(s: Snapshot, handle: Handler, limit: nat)
    requires s.buffer.Some? && DecodeDefined(s.buffer.value)
    requires DeserializeRequest(s.buffer.value).Ok? && handle(DeserializeRequest(s.buffer.value).value).Ok?
    requires s.wire.outbound != [] && s.wire.outbound[0] == Accept(limit)
    requires limit >= |ResponseBytes(s.buffer.value, handle)|
    ensures WritePhase(s, handle) == Step(Ok(WriteDone),
      Snapshot(WriteDone, s.buffer, s.wire.(outbound := s.wire.outbound[1..],
                                           sent := s.wire.sent + ResponseBytes(s.buffer.value, handle))))
  {
    var bytes := ResponseBytes(s.buffer.value, handle);
    assert bytes[..|bytes|] == bytes;
  }

  /** A write that takes fewer bytes than offered fails the event, and the
      state does not become `WriteDone`. */
  lemma ShortWriteFails(s: Snapshot, handle: Handler, limit: nat)
    requires BufferDefined(s.buffer) && SendRes(s.buffer, handle).Ok?
    requires s.wire.outbound != [] && s.wire.outbound[0] == Accept(limit)
    requires limit < |Utf8.Encode(SendRes(s.buffer, handle).value)|
    ensures WritePhase(s, handle).result == Err(SHORT_WRITE)
    ensures WritePhase(s, handle).after.state == s.state
    ensures WritePhase(s, handle).after.wire.sent
         == s.wire.sent + Utf8.Encode(SendRes(s.buffer, handle).value)[..limit]
  {
  }

  /** "Would block" and "interrupted" on the write are not errors: nothing
      is written and the connection is done. */
  lemma TransientWriteError(s: Snapshot, handle: Handler, e: IoError)
    requires BufferDefined(s.buffer) && SendRes(s.buffer, handle).Ok?
    requires s.wire.outbound != [] && s.wire.outbound[0] == WriteFailed(e)
    requires e.kind == WouldBlock || e.kind == Interrupted
    ensures WritePhase(s, handle) == Finish(s.(wire := s.wire.(outbound := s.wire.outbound[1..])))
    ensures WritePhase(s, handle).after.wire.sent == s.wire.sent
  {
  }

  /** A failing decode or handler, or a missing buffer, is answered with a
      400 response whose body is the error's text. */
  lemma BadRequestAnswered(s: Snapshot, handle: Handler)
    requires BufferDefined(s.buffer) && SendRes(s.buffer, handle).Err?
    ensures WritePhase(s, handle) == ErrorResponse(400, SendRes(s.buffer, handle).error, s)
    ensures s.buffer.None? ==> WritePhase(s, handle) == ErrorResponse(400, MISSING_REQUEST, s)
    ensures s.buffer.Some? && DeserializeRequest(s.buffer.value).Err? ==>
              WritePhase(s, handle) == ErrorResponse(400, DeserializeRequest(s.buffer.value).error, s)
    ensures s.buffer.Some? && DeserializeRequest(s.buffer.value).Ok? ==>
              handle(DeserializeRequest(s.buffer.value).value).Err? &&
              WritePhase(s, handle) == ErrorResponse(400, handle(DeserializeRequest(s.buffer.value).value).error, s)
  {
  }

  /** Any other write error is answered with a 500 response carrying its text. */
  lemma WriteErrorAnswered(s: Snapshot, handle: Handler, e: IoError)
    requires BufferDefined(s.buffer) && SendRes(s.buffer, handle).Ok?
    requires s.wire.outbound != [] && s.wire.outbound[0] == WriteFailed(e) && e.kind == Other
    ensures WritePhase(s, handle) == ErrorResponse(500, e.message, s.(wire := s.wire.(outbound := s.wire.outbound[1..])))
  {
  }

  /** An error response carries the status and the message: its status line
      has the code and its text ends with the message. */
  lemma ErrorResponseText(code: StatusCode, msg: string)
    ensures var t := SerializeResponse(NewResponse(code, msg));
      |t| >= |msg| && t[|t| - |msg|..] == msg
    ensures ErrorBytes(code, msg) == Utf8.Encode(StatusLine(NewResponse(code, msg)) + CRLF + CRLF + msg)
  {
    var r := NewResponse(code, msg);
    CodecLemmas.SerializeEndsWithBody(r);
    assert HeaderLines(r.headers) == [];
    assert Strings.CrlfTerminated([]) == "";
    assert SerializeResponse(r) == StatusLine(r) + CRLF + CRLF + msg;
  }

  /** An error response that is written ends the connection with
      `WriteDone` whatever count the write reports: a short write of it is
      not detected, unlike one of the handler's response. If its write
      fails, so does the event. */
  lemma ErrorResponseOutcome(code: StatusCode, msg: string, s: Snapshot)
    ensures s.wire.outbound == [] ==>
      ErrorResponse(code, msg, s) == Finish(s.(wire := s.wire.(sent := s.wire.sent + ErrorBytes(code, msg))))
    ensures s.wire.outbound != [] && s.wire.outbound[0].Accept? ==>
      var bytes := ErrorBytes(code, msg);
      var n := if s.wire.outbound[0].limit < |bytes| then s.wire.outbound[0].limit else |bytes|;
      ErrorResponse(code, msg, s)
        == Finish(s.(wire := s.wire.(outbound := s.wire.outbound[1..], sent := s.wire.sent + bytes[..n])))
    ensures s.wire.outbound != [] && s.wire.outbound[0].WriteFailed? ==>
      && ErrorResponse(code, msg, s).result == Err(s.wire.outbound[0].error.message)
      && ErrorResponse(code, msg, s).after.state == s.state
  {
  }

  // ---------------------------------------------------------------------------
  // Whole events

  lemma ReadPhaseState(s: Snapshot)
    ensures ReadPhase(s).result.Ok? ==> ReadPhase(s).result.value == ReadDone == ReadPhase(s).after.state
  {
  }

  lemma WritePhaseState(s: Snapshot, handle: Handler)
    requires BufferDefined(s.buffer)
    ensures WritePhase(s, handle).result.Ok? ==> WritePhase(s, handle).result.value == WriteDone == WritePhase(s, handle).after.state
  {
    match SendRes(s.buffer, handle)
    case Ok(text) =>
      var bytes := Utf8.Encode(text);
      var (w, wire) := WriteNext(s.wire, bytes);
      if w.WriteError? && w.error.kind == Other {
        ErrorResponseState(500, w.error.message, s.(wire := wire));
      }
    case Err(e) =>
      ErrorResponseState(400, e, s);
  }

  lemma ErrorResponseState(code: StatusCode, msg: string, s: Snapshot)
    ensures ErrorResponse(code, msg, s).result.Ok? ==> ErrorResponse(code, msg, s).after.state == WriteDone
    ensures ErrorResponse(code, msg, s).result.Ok? ==> ErrorResponse(code, msg, s).result.value == WriteDone
  {
  }

  /** `handle_event` returns the state it leaves the connection in. */
  lemma ResultIsState(ev: Event, s: Snapshot, handle: Handler)
    requires Defined(ev, s)
    ensures EventStep(ev, s, handle).result.Ok? ==>
      EventStep(ev, s, handle).result.value == EventStep(ev, s, handle).after.state
  {
    EventStates(ev, s, handle);
  }

  /** A successful writable event always leaves `WriteDone`; a successful
      readable-only event always leaves `ReadDone`. */
  lemma EventStates(ev: Event, s: Snapshot, handle: Handler)
    requires Defined(ev, s)
    ensures ev.writable && EventStep(ev, s, handle).result.Ok? ==> EventStep(ev, s, handle).after.state == WriteDone
    ensures ev.readable && !ev.writable && EventStep(ev, s, handle).result.Ok? ==>
      EventStep(ev, s, handle).after.state == ReadDone
    ensures !ev.readable && !ev.writable ==> EventStep(ev, s, handle) == Step(Ok(s.state), s)
    ensures EventStep(ev, s, handle).result.Ok? ==>
      EventStep(ev, s, handle).result.value == EventStep(ev, s, handle).after.state
  {
    ReadPhaseState(s);
    if ev.readable {
      var r := ReadPhase(s);
      if r.result.Ok? && ev.writable {
        WritePhaseState(r.after, handle);
      }
    } else if ev.writable {
      WritePhaseState(s, handle);
    }
  }

  /** An event both readable and writable reads first and then writes what it
      has just read. */
  lemma ReadThenWrite(s: Snapshot, handle: Handler)
    requires Defined(Event(true, true), s) && ReadPhase(s).result.Ok?
    ensures EventStep(Event(true, true), s, handle) == WritePhase(ReadPhase(s).after, handle)
  {
  }

  /** The readable event of a fresh connection whose request arrives in one
      read buffers the request text. */
  lemma RequestRead(text: string, handle: Handler)
    requires 0 < |Utf8.Encode(text)| <= CHUNK
    ensures var s0 := Snapshot(Read, None, Wire([Got(Utf8.Encode(text))], [], []));
      EventStep(Event(true, false), s0, handle) == Step(Ok(ReadDone), Snapshot(ReadDone, Some(text), Wire([], [], [])))
  {
    var bytes: Chunk := Utf8.Encode(text);
    var s0 := Snapshot(Read, None, Wire([Got(bytes)], [], []));
    assert AllContinue([Got(bytes)]);
    assert DataOf([Got(bytes)]) == bytes;
    DrainUntilEmpty([Got(bytes)], Wire([], [], []));
    assert Wire([], [], []).(inbound := [Got(bytes)]) == s0.wire;
    Utf8.DecodeEncode(text);
  }

  /** The writable event after a buffered request writes exactly the
      serialised response of the handler. */
  lemma ResponseWritten(text: string, handle: Handler, req: Request, resp: Response)
    requires DecodeDefined(text) && DeserializeRequest(text) == Ok(req) && handle(req) == Ok(resp)
    ensures var s1 := Snapshot(Write, Some(text), Wire([], [], []));
      && Defined(Event(false, true), s1)
      && EventStep(Event(false, true), s1, handle)
         == Step(Ok(WriteDone), Snapshot(WriteDone, Some(text), Wire([], [], Utf8.Encode(SerializeResponse(resp)))))
  {
  }

  /** One request on a fresh connection: the readable event buffers the
      request text, and the writable event that follows writes exactly the
      serialised response of the handler. */
  lemma OneRequest(text: string, handle: Handler, req: Request, resp: Response)
    requires 0 < |Utf8.Encode(text)| <= CHUNK
    requires DecodeDefined(text) && DeserializeRequest(text) == Ok(req) && handle(req) == Ok(resp)
    ensures var s0 := Snapshot(Read, None, Wire([Got(Utf8.Encode(text))], [], []));
      && EventStep(Event(true, false), s0, handle) == Step(Ok(ReadDone), Snapshot(ReadDone, Some(text), Wire([], [], [])))
      && var s1 := Snapshot(Write, Some(text), Wire([], [], []));
      && Defined(Event(false, true), s1)
      && EventStep(Event(false, true), s1, handle)
         == Step(Ok(WriteDone), Snapshot(WriteDone, Some(text), Wire([], [], Utf8.Encode(SerializeResponse(resp)))))
  {
    RequestRead(text, handle);
    ResponseWritten(text, handle, req, resp);
  }
}
