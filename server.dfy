/** The event loop of src/server.rs, one readiness event at a time. Token 0
    is the listener's; every accepted socket gets the next token, starting
    from 1, and a registry entry in state `Read`. An event for a connection
    runs its `handle_event` and then acts on the result: `ReadDone` turns into
    `Write`, `WriteDone` or an error drops the connection.

    The multiplexer is left out: the listener is a script of what its
    successive `accept` calls report, each accepted socket bringing the
    scripts of its own reads and writes and what registering it will report. */
module EventLoop {
  import opened Wrappers
  import opened Codec
  import opened Connections

  type Token = nat

  /** The listener's token. */
  const SERVER: Token := 0

  /** What one `accept` reports: a new socket, with whether its registration
      fails (and with what text), or an error. */
  datatype AcceptOutcome =
    | Incoming(inbound: seq<ReadOutcome>, outbound: seq<WriteOutcome>, registration: Option<string>)
    | AcceptFailed(error: IoError)

  /** A listener with nothing left in its script has no client pending. */
  const NO_CLIENT: IoError := IoError(WouldBlock, "Resource temporarily unavailable (os error 11)")

  function AcceptNext(pending: seq<AcceptOutcome>): (r: (AcceptOutcome, seq<AcceptOutcome>))
    ensures pending == [] ==> r == (AcceptFailed(NO_CLIENT), [])
    ensures pending != [] ==> r == (pending[0], pending[1..])
  {
    if pending == [] then (AcceptFailed(NO_CLIENT), []) else (pending[0], pending[1..])
  }

  /** A non-blocking listening socket. */
  class Listener {
    var pending: seq<AcceptOutcome>

    constructor (pending: seq<AcceptOutcome>)
      ensures this.pending == pending
    {
      this.pending := pending;
    }

    /** `listener.accept()`. */
    method Accept() returns (o: AcceptOutcome)
      modifies this
      ensures (o, pending) == AcceptNext(old(pending))
    {
      if pending == [] {
        return AcceptFailed(NO_CLIENT);
      }
      o := pending[0];
      pending := pending[1..];
    }
  }

  // ---------------------------------------------------------------------------
  // The loop as a function of its value

  /** The value of the loop: the registry, the last token handed out, and
      the listener's script. */
  datatype Loop = Loop(registry: map<Token, Snapshot>, nextToken: Token, pending: seq<AcceptOutcome>)

  /** A freshly accepted connection. */
  function Fresh(inbound: seq<ReadOutcome>, outbound: seq<WriteOutcome>): Snapshot
  {
    Snapshot(Read, None, Wire(inbound, outbound, []))
  }

  /** The accept loop: accept until "would block"; each new socket takes the
      next token, and a failed accept or registration aborts `listen`. */
  function DrainAccepts(l: Loop): (r: (Result<()>, Loop))
    decreases |l.pending|
  {
    var (o, rest) := AcceptNext(l.pending);
    match o
    case AcceptFailed(e) =>
      if e.kind == WouldBlock then (Ok(()), l.(pending := rest)) else (Err(e.message), l.(pending := rest))
    case Incoming(rs, ws, reg) =>
      var t := l.nextToken + 1;
      if reg.Some? then (Err(reg.value), l.(nextToken := t, pending := rest))
      else DrainAccepts(Loop(l.registry[t := Fresh(rs, ws)], t, rest))
  }

  /** The registry after the connection of `token` took step `st`:
      `ReadDone` becomes `Write`, `WriteDone` or an error removes the entry,
      and `Read` or `Write` keep it. */
  function AfterEvent(registry: map<Token, Snapshot>, token: Token, st: Step): map<Token, Snapshot>
  {
    match st.result
    case Ok(ReadDone) => registry[token := st.after.(state := Write)]
    case Ok(WriteDone) => registry - {token}
    case Err(_) => registry - {token}
    case Ok(_) => registry[token := st.after]
  }

  /** `AfterEvent` does not look at the entry it replaces or removes. */
  lemma AfterEventOverwrites(registry: map<Token, Snapshot>, token: Token, s: Snapshot, st: Step)
    ensures AfterEvent(registry[token := s], token, st) == AfterEvent(registry, token, st)
  {
    match st.result
    case Ok(ReadDone) =>
    case Ok(WriteDone) =>
      assert registry[token := s] - {token} == registry - {token};
    case Err(_) =>
      assert registry[token := s] - {token} == registry - {token};
    case Ok(_) =>
  }

  /** An event for a connection: unknown tokens are ignored. */
  function ConnectionEvent(l: Loop, token: Token, ev: Event, handle: Handler): Loop
    requires token in l.registry ==> Defined(ev, l.registry[token])
  {
    if token !in l.registry then l
    else l.(registry := AfterEvent(l.registry, token, EventStep(ev, l.registry[token], handle)))
  }

  predicate EventDefined(l: Loop, token: Token, ev: Event)
  {
    token != SERVER && token in l.registry ==> Defined(ev, l.registry[token])
  }

  /** One event of the loop: the listener's token accepts, any other token
      is a connection event, whose failures never abort the loop. */
  function HandleToken(l: Loop, token: Token, ev: Event, handle: Handler): (Result<()>, Loop)
    requires EventDefined(l, token, ev)
  {
    if token == SERVER then DrainAccepts(l) else (Ok(()), ConnectionEvent(l, token, ev, handle))
  }

  /** The events of one `poll` on which no connection event panics. */
  predicate BatchDefined(l: Loop, events: seq<(Token, Event)>, handle: Handler)
    decreases |events|
  {
    events == [] ||
    (EventDefined(l, events[0].0, events[0].1) &&
     var (r, l') := HandleToken(l, events[0].0, events[0].1, handle);
     r.Ok? ==> BatchDefined(l', events[1..], handle))
  }

  /** The `for event in &events` loop: the events in order; an accept error
      aborts `listen` and skips the rest. */
  function HandleBatch(l: Loop, events: seq<(Token, Event)>, handle: Handler): (Result<()>, Loop)
    requires BatchDefined(l, events, handle)
    decreases |events|
  {
    if events == [] then (Ok(()), l)
    else
      var (r, l') := HandleToken(l, events[0].0, events[0].1, handle);
      if r.Err? then (r, l') else HandleBatch(l', events[1..], handle)
  }

  /** The successive polls on which no connection event panics. */
  predicate ServeDefined(l: Loop, polls: seq<seq<(Token, Event)>>, handle: Handler)
    decreases |polls|
  {
    polls == [] ||
    (BatchDefined(l, polls[0], handle) &&
     var (r, l') := HandleBatch(l, polls[0], handle);
     r.Ok? ==> ServeDefined(l', polls[1..], handle))
  }

  /** The body of `listen` after the listener is registered: poll after poll
      until an accept fails. `Ok` means that the loop was still running when
      the polls given ran out; the server itself never returns it. */
  function Serve(l: Loop, polls: seq<seq<(Token, Event)>>, handle: Handler): (Result<()>, Loop)
    requires ServeDefined(l, polls, handle)
    decreases |polls|
  {
    if polls == [] then (Ok(()), l)
    else
      var (r, l') := HandleBatch(l, polls[0], handle);
      if r.Err? then (r, l') else Serve(l', polls[1..], handle)
  }

  // ---------------------------------------------------------------------------
  // The server object

  class Server {
    const handle: Handler
    const listener: Listener
    var connections: map<Token, Connection>
    var nextToken: Token
    ghost var Repr: set<object>

    /** Every live token is one already handed out and never the listener's;
        distinct tokens own distinct connections and sockets. */
    ghost predicate Valid()
      reads this, Repr
    {
      && this in Repr && listener in Repr
      && (forall t :: t in connections ==> 0 < t <= nextToken)
      && (forall t :: t in connections ==> connections[t] in Repr && connections[t].stream in Repr)
      && (forall t, u :: t in connections && u in connections && t != u ==>
            connections[t] != connections[u] && connections[t].stream != connections[u].stream)
    }

    ghost function Registry(): map<Token, Snapshot>
      reads this, Repr
      requires Valid()
    {
      map t | t in connections :: connections[t].Value()
    }

    ghost function Value(): Loop
      reads this, Repr
      requires Valid()
    {
      Loop(Registry(), nextToken, listener.pending)
    }

    /** `Server::new` together with the listener it will serve: no
        connections, and no token handed out yet. */
    constructor (handle: Handler, listener: Listener)
      ensures Valid() && fresh(Repr - {listener})
      ensures this.handle == handle && this.listener == listener
      ensures connections == map[] && nextToken == SERVER
    {
      this.handle := handle;
      this.listener := listener;
      connections := map[];
      nextToken := SERVER;
      Repr := {this, listener};
    }

    /** The listener's event: the accept loop. */
    method AcceptAll() returns (r: Result<()>)
      requires Valid()
      modifies this, listener
      ensures Valid() && fresh(Repr - old(Repr))
      ensures (r, Value()) == DrainAccepts(old(Value()))
    {
      ghost var start := Value();
      while true
        invariant Valid() && fresh(Repr - old(Repr))
        invariant DrainAccepts(start) == DrainAccepts(Value())
        decreases |listener.pending|
      {
        ghost var before := Value();
        var o := listener.Accept();
        match o {
          case AcceptFailed(e) =>
            assert Registry() == before.registry;
            if e.kind == WouldBlock {
              return Ok(());
            }
            return Err(e.message);
          case Incoming(rs, ws, reg) =>
            nextToken := nextToken + 1;
            assert Registry() == before.registry;
            if reg.Some? {
              return Err(reg.value);
            }
            Insert(rs, ws);
        }
      }
    }

    /** A new `Connection` for an accepted socket, under the last token. */
    method Insert(inbound: seq<ReadOutcome>, outbound: seq<WriteOutcome>)
      requires Valid() && nextToken > 0
      modifies this
      ensures Valid() && fresh(Repr - old(Repr))
      ensures nextToken == old(nextToken)
      ensures Registry() == old(Registry())[nextToken := Fresh(inbound, outbound)]
    {
      var stream := new Stream(inbound, outbound);
      var conn := new Connection(stream);
      connections := connections[nextToken := conn];
      Repr := Repr + {conn, stream};
    }

    /** The event loop of `listen`, over the events of successive polls. */
    method Listen(polls: seq<seq<(Token, Event)>>) returns (r: Result<()>)
      requires Valid() && ServeDefined(Value(), polls, handle)
      modifies Repr
      ensures Valid() && fresh(Repr - old(Repr))
      ensures (r, Value()) == Serve(old(Value()), polls, handle)
    {
      for i := 0 to |polls|
        invariant Valid() && fresh(Repr - old(Repr))
        invariant ServeDefined(Value(), polls[i..], handle)
        invariant Serve(old(Value()), polls, handle) == Serve(Value(), polls[i..], handle)
      {
        assert polls[i..][1..] == polls[i + 1..];
        r := HandleEvents(polls[i]);
        if r.Err? {
          return;
        }
      }
      return Ok(());
    }

    /** The events one `poll` reported, handled in order. */
    method HandleEvents(events: seq<(Token, Event)>) returns (r: Result<()>)
      requires Valid() && BatchDefined(Value(), events, handle)
      modifies Repr
      ensures Valid() && fresh(Repr - old(Repr))
      ensures (r, Value()) == HandleBatch(old(Value()), events, handle)
    {
      for i := 0 to |events|
        invariant Valid() && fresh(Repr - old(Repr))
        invariant BatchDefined(Value(), events[i..], handle)
        invariant HandleBatch(old(Value()), events, handle) == HandleBatch(Value(), events[i..], handle)
      {
        assert events[i..][1..] == events[i + 1..];
        r := Dispatch(events[i].0, events[i].1);
        if r.Err? {
          return;
        }
      }
      return Ok(());
    }

    /** The body of the `for event in &events` loop for one event. */
    method Dispatch(token: Token, ev: Event) returns (r: Result<()>)
      requires Valid()
      requires token != SERVER && token in connections ==> Defined(ev, connections[token].Value())
      modifies Repr
      ensures Valid() && fresh(Repr - old(Repr))
      ensures (r, Value()) == HandleToken(old(Value()), token, ev, handle)
    {
      if token == SERVER {
        r := AcceptAll();
        return;
      }
      if token in connections {
        Forward(token, ev);
      }
      return Ok(());
    }

    /** An event for a live connection: `handle_event`, then the registry
        update its result calls for. */
    method Forward(token: Token, ev: Event)
      requires Valid() && token in connections
      requires Defined(ev, connections[token].Value())
      modifies this, connections[token], connections[token].stream
      ensures Valid() && Repr == old(Repr)
      ensures nextToken == old(nextToken)
      ensures Registry() == AfterEvent(old(Registry()), token, EventStep(ev, old(Registry())[token], handle))
    {
      ghost var before := Registry();
      var conn := connections[token];
      var res := conn.HandleEvent(ev, handle);
      assert forall t :: t in connections && t != token ==> connections[t].Value() == before[t];
      assert Registry() == before[token := conn.Value()];
      ghost var after := conn.Value();
      assert Step(res, after) == EventStep(ev, before[token], handle);
      Settle(token, res);
      AfterEventOverwrites(before, token, after, Step(res, after));
    }

    /** Acts on the result of a connection's `handle_event`. */
    method Settle(token: Token, res: Result<ConnState>)
      requires Valid() && token in connections
      modifies this, connections[token]
      ensures Valid() && Repr == old(Repr)
      ensures nextToken == old(nextToken)
      ensures Registry() == AfterEvent(old(Registry()), token, Step(res, old(connections[token].Value())))
    {
      ghost var before := Registry();
      var conn := connections[token];
      match res {
        case Ok(ReadDone) =>
          // The socket is re-registered for writing; that result is dropped.
          conn.state := Write;
          assert forall t :: t in connections && t != token ==> connections[t].Value() == before[t];
        case Ok(WriteDone) =>
          connections := connections - {token};
        case Err(_) =>
          connections := connections - {token};
        case Ok(_) =>
      }
    }
  }
}
