/** The per-connection state machine of src/connection.rs. A connection reads
    a request until the socket has nothing more to give, then, once writable,
    decodes the request, hands it to the handler, and writes the encoded
    response once.

    The socket is a `Stream` whose reads and writes report outcomes taken, in
    order, from two scripts fixed when the socket was accepted; the bytes a
    write accepts are kept in `sent`. The handler is an arbitrary function from
    requests to responses or errors. */
module Connections {
  import opened Wrappers
  import opened Codec
  import Utf8

  type Byte = Utf8.Byte

  // ---------------------------------------------------------------------------
  // The socket

  /** The `io::ErrorKind`s the connection tells apart. */
  datatype ErrorKind = WouldBlock | Interrupted | Other

  /** An `io::Error`: its kind and its display text. */
  datatype IoError = IoError(kind: ErrorKind, message: string)

  /** The size of the buffer each read fills: `[0_u8; 512]`. */
  const CHUNK: nat := 512

  type Chunk = s: seq<Byte> | |s| <= CHUNK

  /** What one `read` reports: some bytes (none at all when the peer has
      closed), or an error. */
  datatype ReadOutcome = Got(data: Chunk) | ReadFailed(error: IoError)

  /** What one `write` will do: accept at most `limit` bytes, or fail. */
  datatype WriteOutcome = Accept(limit: nat) | WriteFailed(error: IoError)

  /** What one `write` reports: the number of bytes taken, or an error. */
  datatype WriteResult = Wrote(count: nat) | WriteError(error: IoError)

  /** The observable side of a socket: the outcomes its next reads and writes
      will report, and the bytes written to it so far. */
  datatype Wire = Wire(inbound: seq<ReadOutcome>, outbound: seq<WriteOutcome>, sent: seq<Byte>)

  /** A socket with nothing left in its script has no data ready. */
  const NOTHING_READY: IoError := IoError(WouldBlock, "Resource temporarily unavailable (os error 11)")

  /** One `read`: the next scripted outcome, or "would block" when the script
      is used up. */
  function ReadNext(w: Wire): (r: (ReadOutcome, Wire))
    ensures w.inbound == [] ==> r == (ReadFailed(NOTHING_READY), w)
    ensures w.inbound != [] ==> r == (w.inbound[0], w.(inbound := w.inbound[1..]))
  {
    if w.inbound == [] then (ReadFailed(NOTHING_READY), w)
    else (w.inbound[0], w.(inbound := w.inbound[1..]))
  }

  /** One `write` of `bytes`: the next scripted outcome decides how many of
      them the socket takes; with the script used up it takes them all. */
  function WriteNext(w: Wire, bytes: seq<Byte>): (r: (WriteResult, Wire))
    ensures r.1.inbound == w.inbound
    ensures r.0.Wrote? ==> r.0.count <= |bytes| && r.1.sent == w.sent + bytes[..r.0.count]
    ensures r.0.WriteError? ==> r.1.sent == w.sent
    ensures w.outbound == [] ==> r == (Wrote(|bytes|), w.(sent := w.sent + bytes))
  {
    if w.outbound == [] then
      assert bytes[..|bytes|] == bytes;
      (Wrote(|bytes|), w.(sent := w.sent + bytes))
    else
      var rest := w.(outbound := w.outbound[1..]);
      match w.outbound[0]
      case Accept(limit) =>
        var n := if limit < |bytes| then limit else |bytes|;
        (Wrote(n), rest.(sent := w.sent + bytes[..n]))
      case WriteFailed(e) => (WriteError(e), rest)
  }

  /** A non-blocking TCP stream. */
  class Stream {
    var inbound: seq<ReadOutcome>
    var outbound: seq<WriteOutcome>
    var sent: seq<Byte>

    ghost function Value(): Wire
      reads this
    {
      Wire(inbound, outbound, sent)
    }

    constructor (inbound: seq<ReadOutcome>, outbound: seq<WriteOutcome>)
      ensures Value() == Wire(inbound, outbound, [])
    {
      this.inbound := inbound;
      this.outbound := outbound;
      sent := [];
    }

    /** `stream.read(&mut buff)`. */
    method ReadChunk() returns (o: ReadOutcome)
      modifies this
      ensures (o, Value()) == ReadNext(old(Value()))
    {
      if inbound == [] {
        return ReadFailed(NOTHING_READY);
      }
      o := inbound[0];
      inbound := inbound[1..];
    }

    /** `stream.write(bytes)`. */
    method WriteBytes(bytes: seq<Byte>) returns (r: WriteResult)
      modifies this
      ensures (r, Value()) == WriteNext(old(Value()), bytes)
    {
      if outbound == [] {
        sent := sent + bytes;
        assert bytes[..|bytes|] == bytes;
        return Wrote(|bytes|);
      }
      var next := outbound[0];
      outbound := outbound[1..];
      match next
      case Accept(limit) =>
        var n := if limit < |bytes| then limit else |bytes|;
        sent := sent + bytes[..n];
        r := Wrote(n);
      case WriteFailed(e) =>
        r := WriteError(e);
    }
  }

  // ---------------------------------------------------------------------------
  // The state machine, as a function of the connection's value

  datatype ConnState = Read | ReadDone | Write | WriteDone

  /** Which readiness an event reports; a single event may report both. */
  datatype Event = Event(readable: bool, writable: bool)

  /** A connection's value: its state, its buffered request text, its socket. */
  datatype Snapshot = Snapshot(state: ConnState, buffer: Option<string>, wire: Wire)

  /** What `handle_event` returns, and the connection it leaves behind. */
  datatype Step = Step(result: Result<ConnState>, after: Snapshot)

  /** A request handler: `FnMut(Request, Builder) -> Res<Response>`. */
  type Handler = Request -> Result<Response>

  const INVALID_READ: string := "Invalid request."
  /** The display text of a `Utf8Error`; the server never shows it. */
  const INVALID_UTF8: string := "invalid utf-8 sequence"
  const SHORT_WRITE: string := "Couldn't write to stream"
  const MISSING_REQUEST: string := "Missing HTTP Request"

  /** The text of the successful reads, in order. */
  function DataOf(rs: seq<ReadOutcome>): seq<Byte>
  {
    if rs == [] then []
    else (if rs[0].Got? then rs[0].data else []) + DataOf(rs[1..])
  }

  /** Neither a zero-byte read nor a real error. */
  predicate Harmless(o: ReadOutcome)
  {
    match o
    case Got(data) => |data| > 0
    case ReadFailed(e) => e.kind != Other
  }

  /** The read loop: successful reads accumulate, "would block" ends it,
      "interrupted" retries, and a zero-byte read or any other error fails. */
  function Drain(w: Wire, acc: seq<Byte>): (Result<seq<Byte>>, Wire)
    decreases |w.inbound|
  {
    var (o, w') := ReadNext(w);
    match o
    case Got(data) =>
      if |data| == 0 then (Err(INVALID_READ), w') else Drain(w', acc + data)
    case ReadFailed(e) =>
      match e.kind
      case WouldBlock => (Ok(acc), w')
      case Interrupted => Drain(w', acc)
      case Other => (Err(e.message), w')
  }

  /** The readable branch: drain, then decode the bytes as UTF-8. Only
      success touches the state and the buffer. */
  function ReadPhase(s: Snapshot): Step
  {
    var (got, w) := Drain(s.wire, []);
    match got
    case Err(e) => Step(Err(e), s.(wire := w))
    case Ok(bytes) =>
      match Utf8.Decode(bytes)
      case None => Step(Err(INVALID_UTF8), s.(wire := w))
      case Some(text) => Step(Ok(ReadDone), Snapshot(ReadDone, Some(text), w))
  }

  /** A buffer whose decoding does not panic. */
  predicate BufferDefined(buffer: Option<string>)
  {
    buffer.Some? ==> DecodeDefined(buffer.value)
  }

  /** `send_res`: decode the buffer, call the handler, encode its response. */
  function SendRes(buffer: Option<string>, handle: Handler): (r: Result<string>)
    requires BufferDefined(buffer)
    ensures buffer.None? ==> r == Err(MISSING_REQUEST)
    ensures buffer.Some? && DeserializeRequest(buffer.value).Err? ==>
              r == Err(DeserializeRequest(buffer.value).error)
    ensures buffer.Some? && DeserializeRequest(buffer.value).Ok?
              && handle(DeserializeRequest(buffer.value).value).Err? ==>
              r == Err(handle(DeserializeRequest(buffer.value).value).error)
    ensures buffer.Some? && DeserializeRequest(buffer.value).Ok?
              && handle(DeserializeRequest(buffer.value).value).Ok? ==>
              r == Ok(SerializeResponse(handle(DeserializeRequest(buffer.value).value).value))
    ensures r.Ok? ==> exists req :: DeserializeRequest(buffer.value) == Ok(req) && handle(req).Ok?
                                   && r.value == SerializeResponse(handle(req).value)
  {
    if buffer.None? then Err(MISSING_REQUEST)
    else
      match DeserializeRequest(buffer.value)
      case Err(e) => Err(e)
      case Ok(req) =>
        match handle(req)
        case Err(e) => Err(e)
        case Ok(resp) => Ok(SerializeResponse(resp))
  }

  /** The bytes of an error response: `code` with `msg` as its body. */
  function ErrorBytes(code: StatusCode, msg: string): seq<Byte>
  {
    Utf8.Encode(SerializeResponse(NewResponse(code, msg)))
  }

  function Finish(s: Snapshot): Step
  {
    Step(Ok(WriteDone), s.(state := WriteDone))
  }

  /** `send_err` followed by the end of the writable branch: one write of the
      error response; any error of that write, "would block" included, is
      passed on. */
  function ErrorResponse(code: StatusCode, msg: string, s: Snapshot): Step
  {
    var (w, wire) := WriteNext(s.wire, ErrorBytes(code, msg));
    match w
    case Wrote(_) => Finish(s.(wire := wire))
    case WriteError(e) => Step(Err(e.message), s.(wire := wire))
  }

  /** The writable branch. */
  function WritePhase(s: Snapshot, handle: Handler): Step
    requires BufferDefined(s.buffer)
  {
    match SendRes(s.buffer, handle)
    case Ok(text) =>
      var bytes := Utf8.Encode(text);
      var (w, wire) := WriteNext(s.wire, bytes);
      var s1 := s.(wire := wire);
      (match w
       case Wrote(n) => if n < |bytes| then Step(Err(SHORT_WRITE), s1) else Finish(s1)
       case WriteError(e) =>
         if e.kind == WouldBlock || e.kind == Interrupted then Finish(s1)
         else ErrorResponse(500, e.message, s1))
    case Err(e) => ErrorResponse(400, e, s)
  }

  /** The events on which `handle_event` does not panic: the request text it
      would decode is one the decoder accepts without panicking. */
  predicate Defined(ev: Event, s: Snapshot)
  {
    ev.writable ==>
      if ev.readable then ReadPhase(s).result.Ok? ==> BufferDefined(ReadPhase(s).after.buffer)
      else BufferDefined(s.buffer)
  }

  /** `handle_event`: the readable branch, then the writable branch; a failed
      read ends the call before any write. */
  function EventStep(ev: Event, s: Snapshot, handle: Handler): Step
    requires Defined(ev, s)
  {
    if ev.readable then
      var r := ReadPhase(s);
      if r.result.Err? || !ev.writable then r else WritePhase(r.after, handle)
    else if ev.writable then WritePhase(s, handle)
    else Step(Ok(s.state), s)
  }

  // ---------------------------------------------------------------------------
  // The connection object

  class Connection {
    const stream: Stream
    var state: ConnState
    var buffer: Option<string>

    ghost function Value(): Snapshot
      reads this, stream
    {
      Snapshot(state, buffer, stream.Value())
    }

    /** `Connection::new`: reading, with nothing buffered. */
    constructor (stream: Stream)
      ensures this.stream == stream
      ensures state == Read && buffer == None
    {
      this.stream := stream;
      state := Read;
      buffer := None;
    }

    /** `handle_event`, proved to do what `EventStep` describes. */
    method HandleEvent(ev: Event, handle: Handler) returns (r: Result<ConnState>)
      requires Defined(ev, Value())
      modifies this, stream
      ensures r == EventStep(ev, old(Value()), handle).result
      ensures Value() == EventStep(ev, old(Value()), handle).after
    {
      if ev.readable {
        r := ReadRequest();
        if r.Err? || !ev.writable {
          return;
        }
        assert BufferDefined(buffer);
        r := WriteResponse(handle);
        return;
      }
      if ev.writable {
        r := WriteResponse(handle);
        return;
      }
      return Ok(state);
    }

    /** The readable branch of `handle_event`: the read loop, then UTF-8. */
    method ReadRequest() returns (r: Result<ConnState>)
      modifies this, stream
      ensures Step(r, Value()) == ReadPhase(old(Value()))
    {
      var acc: seq<Byte> := [];
      var reading := true;
      while reading
        invariant state == old(state) && buffer == old(buffer)
        invariant reading ==> Drain(old(stream.Value()), []) == Drain(stream.Value(), acc)
        invariant !reading ==> Drain(old(stream.Value()), []) == (Ok(acc), stream.Value())
        decreases |stream.inbound|, reading
      {
        var o := stream.ReadChunk();
        match o {
          case Got(data) =>
            if |data| == 0 {
              return Err(INVALID_READ);
            }
            acc := acc + data;
          case ReadFailed(e) =>
            if e.kind == WouldBlock {
              reading := false;
            } else if e.kind == Other {
              return Err(e.message);
            }
        }
      }
      var text := Utf8.Decode(acc);
      if text.None? {
        return Err(INVALID_UTF8);
      }
      buffer := Some(text.value);
      state := ReadDone;
      return Ok(state);
    }

    /** The writable branch of `handle_event`: `send_res`, one write, and the
        error responses. */
    method WriteResponse(handle: Handler) returns (r: Result<ConnState>)
      requires BufferDefined(buffer)
      modifies this, stream
      ensures Step(r, Value()) == WritePhase(old(Value()), handle)
    {
      var res := SendRes(buffer, handle);
      match res {
        case Ok(serialized) =>
          var bytes := Utf8.Encode(serialized);
          var w := stream.WriteBytes(bytes);
          match w {
            case Wrote(n) =>
              if n < |bytes| {
                return Err(SHORT_WRITE);
              }
            case WriteError(e) =>
              if e.kind == Other {
                var sent := SendErr(500, e.message, stream);
                if sent.Err? {
                  return Err(sent.error);
                }
              }
          }
        case Err(e) =>
          var sent := SendErr(400, e, stream);
          if sent.Err? {
            return Err(sent.error);
          }
      }
      // The flush that follows is best effort and its result is dropped.
      state := WriteDone;
      return Ok(state);
    }
  }

  /** `send_err`: one write of an error response; a failed write is passed on. */
  method SendErr(code: StatusCode, msg: string, stream: Stream) returns (r: Result<()>)
    modifies stream
    ensures (r.Ok?, stream.Value()) == (WriteNext(old(stream.Value()), ErrorBytes(code, msg)).0.Wrote?,
                                       WriteNext(old(stream.Value()), ErrorBytes(code, msg)).1)
    ensures r.Err? ==> r.error == WriteNext(old(stream.Value()), ErrorBytes(code, msg)).0.error.message
  {
    var w := stream.WriteBytes(ErrorBytes(code, msg));
    match w
    case Wrote(_) => r := Ok(());
    case WriteError(e) => r := Err(e.message);
  }
}
