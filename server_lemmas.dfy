/** What the event loop of src/server.rs guarantees: tokens, the accept
    loop, what a connection event does to the registry, and the life of one
    request. */
module EventLoopLemmas {
  import opened Wrappers
  import opened Connections
  import opened EventLoop
  import Codec
  import Utf8
  import ConnectionLemmas

  // ---------------------------------------------------------------------------
  // Tokens and states

  /** Every live token was handed out already and is not the listener's. */
  predicate TokensIssued(l: Loop)
  {
    forall t :: t in l.registry ==> 0 < t <= l.nextToken
  }

  /** Between events a live connection is reading or writing: `ReadDone` is
      turned into `Write` at once and `WriteDone` is dropped. */
  predicate LiveStates(l: Loop)
  {
    forall t :: t in l.registry ==> l.registry[t].state == Read || l.registry[t].state == Write
  }

  /** The accept loop hands out tokens above the last one, leaves the
      existing entries alone and adds only fresh, reading connections. */
  lemma {:induction false} DrainAcceptsFrame(l: Loop)
    requires forall t :: t in l.registry ==> t <= l.nextToken
    ensures var (r, l2) := DrainAccepts(l);
      && l.nextToken <= l2.nextToken
      && (forall t :: t in l.registry ==> t in l2.registry && l2.registry[t] == l.registry[t])
      && (forall t :: t in l2.registry && t !in l.registry ==>
            && l.nextToken < t <= l2.nextToken
            && l2.registry[t].state == Read && l2.registry[t].buffer == None
            && l2.registry[t].wire.sent == [])
    decreases |l.pending|
  {
    var (o, rest) := AcceptNext(l.pending);
    match o
    case AcceptFailed(e) =>
    case Incoming(rs, ws, reg) =>
      var t := l.nextToken + 1;
      if reg.None? {
        DrainAcceptsFrame(Loop(l.registry[t := Fresh(rs, ws)], t, rest));
      }
  }

  /** The accept outcomes of clients that connect and register. */
  function Incomings(clients: seq<(seq<ReadOutcome>, seq<WriteOutcome>)>): (os: seq<AcceptOutcome>)
    ensures |os| == |clients|
    ensures forall i :: 0 <= i < |clients| ==> os[i] == Incoming(clients[i].0, clients[i].1, None)
  {
    seq(|clients|, i requires 0 <= i < |clients| => Incoming(clients[i].0, clients[i].1, None))
  }

  /** The registry after admitting `clients` in order after token `next`. */
  function Admitted(registry: map<Token, Snapshot>, next: Token, clients: seq<(seq<ReadOutcome>, seq<WriteOutcome>)>)
    : map<Token, Snapshot>
    decreases |clients|
  {
    if clients == [] then registry
    else Admitted(registry[next + 1 := Fresh(clients[0].0, clients[0].1)], next + 1, clients[1..])
  }

  /** Admitting k clients after token n adds exactly the tokens n+1 .. n+k,
      the i-th client under n+1+i, and keeps every older entry. */
  lemma {:induction false} AdmittedEntries(registry: map<Token, Snapshot>, next: Token,
                                           clients: seq<(seq<ReadOutcome>, seq<WriteOutcome>)>)
    requires forall t :: t in registry ==> t <= next
    ensures forall t :: t in Admitted(registry, next, clients) <==> t in registry || next < t <= next + |clients|
    ensures forall t :: t in registry ==> Admitted(registry, next, clients)[t] == registry[t]
    ensures forall i :: 0 <= i < |clients| ==>
      Admitted(registry, next, clients)[next + 1 + i] == Fresh(clients[i].0, clients[i].1)
    decreases |clients|
  {
    if clients != [] {
      var r1 := registry[next + 1 := Fresh(clients[0].0, clients[0].1)];
      AdmittedEntries(r1, next + 1, clients[1..]);
      forall i | 0 <= i < |clients|
        ensures next + 1 + i in Admitted(registry, next, clients)
        ensures Admitted(registry, next, clients)[next + 1 + i] == Fresh(clients[i].0, clients[i].1)
      {
        assert Admitted(registry, next, clients) == Admitted(r1, next + 1, clients[1..]);
        if i > 0 {
          assert clients[1..][i - 1] == clients[i];
          assert next + 1 + i == (next + 1) + 1 + (i - 1);
        } else {
          assert next + 1 in r1;
        }
      }
    }
  }

  /** The accept loop admits every client that connects and registers, and
      then stops where the listener says: nothing pending or "would block"
      ends it well, any other accept error or a failed registration ends
      `listen` with that error (the failed client's token is used up). */
  lemma {:induction false} AcceptEveryClient(registry: map<Token, Snapshot>, next: Token,
                                             clients: seq<(seq<ReadOutcome>, seq<WriteOutcome>)>,
                                             rest: seq<AcceptOutcome>)
    requires rest == [] || !(rest[0].Incoming? && rest[0].registration.None?)
    ensures var (r, l2) := DrainAccepts(Loop(registry, next, Incomings(clients) + rest));
      var admitted := Admitted(registry, next, clients);
      && (rest == [] ==> (r, l2) == (Ok(()), Loop(admitted, next + |clients|, [])))
      && (rest != [] && rest[0].AcceptFailed? ==>
            && l2 == Loop(admitted, next + |clients|, rest[1..])
            && r == if rest[0].error.kind == WouldBlock then Ok(()) else Err(rest[0].error.message))
      && (rest != [] && rest[0].Incoming? ==>
            (r, l2) == (Err(rest[0].registration.value), Loop(admitted, next + |clients| + 1, rest[1..])))
    decreases |clients|
  {
    if clients == [] {
      assert Incomings(clients) + rest == rest;
    } else {
      var pending := Incomings(clients) + rest;
      assert pending[0] == Incoming(clients[0].0, clients[0].1, None);
      assert pending[1..] == Incomings(clients[1..]) + rest;
      AcceptEveryClient(registry[next + 1 := Fresh(clients[0].0, clients[0].1)], next + 1, clients[1..], rest);
    }
  }

  /** The listener's event keeps the token and state invariants. */
  lemma AcceptsKeepInvariants(l: Loop)
    requires TokensIssued(l) && LiveStates(l)
    ensures TokensIssued(DrainAccepts(l).1) && LiveStates(DrainAccepts(l).1)
  {
    DrainAcceptsFrame(l);
  }

  // ---------------------------------------------------------------------------
  // Connection events

  /** A connection event never aborts the loop, and it touches its own
      entry only: a token nobody holds changes nothing; otherwise the entry
      stays exactly when `handle_event` returned `Read`, `ReadDone` or
      `Write`, and a `ReadDone` connection is switched to `Write`. */
  lemma ConnectionEventEffect(l: Loop, token: Token, ev: Event, handle: Handler)
    requires token != SERVER && EventDefined(l, token, ev)
    ensures var (r, l2) := HandleToken(l, token, ev, handle);
      && r == Ok(())
      && l2.nextToken == l.nextToken && l2.pending == l.pending
      && (token !in l.registry ==> l2 == l)
      && (forall t :: t != token ==> (t in l2.registry <==> t in l.registry))
      && (forall t :: t != token && t in l2.registry ==> l2.registry[t] == l.registry[t])
      && (token in l.registry ==>
            var st := EventStep(ev, l.registry[token], handle);
            && (token in l2.registry <==> st.result.Ok? && st.result.value != WriteDone)
            && (token in l2.registry ==>
                  && l2.registry[token].wire == st.after.wire
                  && l2.registry[token].buffer == st.after.buffer
                  && l2.registry[token].state == (if st.result.value == ReadDone then Write else st.result.value)))
  {
    if token in l.registry {
      ConnectionLemmas.ResultIsState(ev, l.registry[token], handle);
    }
  }

  /** Connection events keep the token and state invariants. */
  lemma ConnectionEventKeepsInvariants(l: Loop, token: Token, ev: Event, handle: Handler)
    requires token != SERVER && EventDefined(l, token, ev)
    requires TokensIssued(l) && LiveStates(l)
    ensures TokensIssued(HandleToken(l, token, ev, handle).1) && LiveStates(HandleToken(l, token, ev, handle).1)
  {
    ConnectionEventEffect(l, token, ev, handle);
  }

  /** Every event keeps the invariants. */
  lemma HandleTokenKeepsInvariants(l: Loop, token: Token, ev: Event, handle: Handler)
    requires EventDefined(l, token, ev) && TokensIssued(l) && LiveStates(l)
    ensures TokensIssued(HandleToken(l, token, ev, handle).1) && LiveStates(HandleToken(l, token, ev, handle).1)
  {
    if token == SERVER {
      AcceptsKeepInvariants(l);
    } else {
      ConnectionEventKeepsInvariants(l, token, ev, handle);
    }
  }

  /** A batch of events keeps the invariants. */
  lemma {:induction false} BatchKeepsInvariants(l: Loop, events: seq<(Token, Event)>, handle: Handler)
    requires BatchDefined(l, events, handle) && TokensIssued(l) && LiveStates(l)
    ensures TokensIssued(HandleBatch(l, events, handle).1) && LiveStates(HandleBatch(l, events, handle).1)
    decreases |events|
  {
    if events != [] {
      HandleTokenKeepsInvariants(l, events[0].0, events[0].1, handle);
      var (r, l2) := HandleToken(l, events[0].0, events[0].1, handle);
      if r.Ok? {
        BatchKeepsInvariants(l2, events[1..], handle);
      }
    }
  }

  /** The whole loop keeps the invariants, from the empty registry on. */
  lemma {:induction false} ServeKeepsInvariants(l: Loop, polls: seq<seq<(Token, Event)>>, handle: Handler)
    requires ServeDefined(l, polls, handle) && TokensIssued(l) && LiveStates(l)
    ensures TokensIssued(Serve(l, polls, handle).1) && LiveStates(Serve(l, polls, handle).1)
    decreases |polls|
  {
    if polls != [] {
      BatchKeepsInvariants(l, polls[0], handle);
      var (r, l2) := HandleBatch(l, polls[0], handle);
      if r.Ok? {
        ServeKeepsInvariants(l2, polls[1..], handle);
      }
    }
  }

  // ---------------------------------------------------------------------------
  // One request through the loop

  /** A client whose request arrives in one read: its readable event buffers
      the request and switches the connection to `Write`; the writable event
      that follows sends the handler's response and drops the connection,
      leaving every other entry as it was. */
  lemma RequestLifecycle(l: Loop, token: Token, text: string, handle: Handler,
                         req: Codec.Request, resp: Codec.Response)
    requires 0 < |Utf8.Encode(text)| <= CHUNK
    requires Codec.DecodeDefined(text) && Codec.DeserializeRequest(text) == Ok(req) && handle(req) == Ok(resp)
    requires token != SERVER && token in l.registry && l.registry[token] == Fresh([Got(Utf8.Encode(text))], [])
    ensures var l1 := HandleToken(l, token, Event(true, false), handle).1;
      && l1.registry == l.registry[token := Snapshot(Write, Some(text), Wire([], [], []))]
      && EventDefined(l1, token, Event(false, true))
      && EventStep(Event(false, true), l1.registry[token], handle).after.wire.sent
         == Utf8.Encode(Codec.SerializeResponse(resp))
      && HandleToken(l1, token, Event(false, true), handle) == (Ok(()), l.(registry := l.registry - {token}))
  {
    ConnectionLemmas.OneRequest(text, handle, req, resp);
    var l1 := HandleToken(l, token, Event(true, false), handle).1;
    assert l1.registry - {token} == l.registry - {token};
  }
}
