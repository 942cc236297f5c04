# A verified model of a small chat server over a hand-written HTTP layer

The system is a single-threaded HTTP/1.1 server built on a readiness event
loop, together with the chat service it is started with. The model follows
its source files one by one:

- request.rs: the wire codec. `deserialize_request` turns request text into
  a method, a target, a header map and a body. `serialize_response` writes a
  status line, the header lines, a blank line and the body. Module `Codec`
  holds the code; module `CodecLemmas` holds its properties.
- path_utils.rs: `match_path`, which matches a target such as
  `/chats/5/messages?x=1` against a pattern with `{name}` placeholders in
  path segments and query values. Module `PathUtils`.
- connection.rs: one client connection. Its state runs `Read`, `ReadDone`,
  `Write`, `WriteDone`. A readable event drains the socket; a writable event
  decodes the request, calls the handler and writes the response. Module
  `Connections` holds the code; module `ConnectionLemmas` holds its
  properties.
- server.rs: the event loop of `listen`. It keeps a registry from token to
  connection. The listener's token 0 runs the accept loop, and other tokens
  go to their connection. Module `EventLoop` holds the code; module
  `EventLoopLemmas` holds its properties.
- chat.rs: a chat, with an append-only message list. Module `Chats`.
- main.rs: the handler closure. It keeps the chats and each user's chat
  identifiers between requests, next to a fixed address book. Module
  `ChatApp` holds the code; module `ChatAppLemmas` holds its properties.

Rust's `str::lines`, `split`, `split_whitespace` and `splitn(2, ..)` are
modelled in `Strings`. `i64::from_str` and `Display` are modelled in
`Int64`. `std::str::from_utf8` and `as_bytes` are modelled in `Utf8`.

## How the model is built

- **Classes for what changes in place.** `Connection` (state, buffer),
  `Stream`, `Listener`, `Server` (registry, next token), `Chat` (messages)
  and `App` (the chats and users maps) are classes. Their methods update
  their fields.
- **Methods proved against functions.** Each method is proved equal to a pure
  function of the old state: `EventStep`, `DrainAccepts`, `HandleToken`,
  `HandleBatch`, `Serve`, `Parts`, `QueryOf`, `Respond`. The properties are
  then proved about those functions.
- **Scripted I/O.** Sockets are scripts. A stream is a sequence of read
  outcomes and write outcomes plus the bytes sent so far. A listener is a
  sequence of accept outcomes, each carrying the new client's script and
  whether its registration fails. `poll` is the sequence of event batches it
  reports.
- **Panics are preconditions.** The `unwrap` and index sites become
  requirements on the input: `DecodeDefined`, `QueryOk`, `RouteDefined`,
  `TargetDefined` (with `RouteDefined` for GET and POST only, combined in
  `Routable`),
  `BufferDefined`, `Defined`, `EventDefined`, `BatchDefined`,
  `ServeDefined`. Response header values are a subset type of visible text.
- **Parameters for foreign code.** The request handler and the JSON encoders
  and decoders are function-valued parameters.

## Edge behaviour of the code

- A status code with no canonical phrase gets the reason text "400"
  (`CodecLemmas.ReasonFallback`).
- A request line needs only a method and a target; a third word is never
  read (`CodecLemmas.DecodeNoUri`).
- Any zero-byte read fails, even one that follows data
  (`ConnectionLemmas.DrainZeroRead`).
- A 500 is sent when writing the handler's response fails with an
  unexpected error (`ConnectionLemmas.WriteErrorAnswered`). A failure to
  send an error response ends the event with that error, but a short write
  of one goes unnoticed and the connection still ends in `WriteDone`
  (`ConnectionLemmas.ErrorResponseOutcome`). A short write of the handler's
  response fails the event (`ConnectionLemmas.ShortWriteFails`).
- The routes see `path_and_query()` of the target, so a fragment is dropped
  before routing (`ChatAppLemmas.FragmentIgnored`).

## Model

| member | source | states |
|---|---|---|
| Strings.Split | src/path_utils.rs:6-7 | `split(c)`: at least one piece, and no piece holds the separator |
| Strings.SplitAfter | src/path_utils.rs:15-16 | the first piece ends at the first separator and the rest is split again |
| Strings.JoinSplit | src/path_utils.rs:15-16 | joining the pieces with the separator gives back the text |
| Strings.SplitJoin | src/path_utils.rs:56-57 | splitting a join of separator-free pieces gives back the pieces |
| Strings.SplitOnce | src/request.rs:73 | `splitn(2, ':')`: no second part exactly when there is no separator; otherwise the text is first part, separator, second part, and the first part has no separator |
| Strings.Lines | src/request.rs:37-42 | `lines()`: no line holds a line feed, and only the empty text has no lines |
| Strings.LinesOfCrlfTerminated | src/request.rs:37-42 | `lines()` gives back lines that were each written with CRLF after them |
| Strings.Words | src/request.rs:41 | `split_whitespace()`: every word is non-empty and holds no whitespace |
| Strings.WordsEmpty | src/request.rs:41-43 | a line has no words exactly when it is all whitespace |
| Strings.WordsSpaced | src/request.rs:41-44 | words joined by single spaces split back into the same words |
| Strings.IndexOf | src/path_utils.rs:6-7 | the first index of a character, or the length when the character is absent |
| Int64.ParseOkShape | src/main.rs:25 | a text that parses is an optional sign followed by decimal digits only |
| Int64.ParseShow | src/main.rs:38 | parsing the decimal text of any `i64` gives the number back |
| Int64.AccumulateValue | src/main.rs:38 | digits whose value fits in `i64` are read exactly, for both signs |
| Int64.DigitsOf | src/main.rs:38 | the digits of a number are non-empty and decimal |
| Utf8.Encode | src/connection.rs:62 | `as_bytes()`: at least one byte per character |
| Utf8.DecodeEncode | src/connection.rs:55 | `from_utf8` of the bytes of a text gives back the text |
| Utf8.EncodeDecode | src/connection.rs:55 | the bytes `from_utf8` accepts are exactly the bytes of the text it returns |
| Utf8.EncodeAppend | src/connection.rs:48 | the bytes of a concatenation are the concatenated bytes |
| Utf8.EncodeAscii | src/request.rs:25 | ASCII text has one byte per character |
| Codec.VersionText | src/request.rs:15 | the `Debug` text of a version is a non-empty word |
| Codec.StatusText | src/request.rs:16 | `as_str()` of a status code is three characters without space or line feed |
| Codec.LowerAscii | src/request.rs:74 | header names are stored ASCII-lowercased, character by character |
| Codec.NewResponse | src/connection.rs:87 | `Response::builder().status(code).body(msg)` has that status and body, no headers, HTTP/1.1 |
| Codec.HeaderLines | src/request.rs:22-27 | one `name: value` line per header, in order |
| Codec.NewBuilder | src/request.rs:52-60 | the builder keeps the method and target, and it is usable exactly when the target parses as a URI |
| Codec.ParseHeaderLine | src/request.rs:73-75 | a header line yields a valid name and value, or the name error, or the value error |
| Codec.BodyStart | src/request.rs:66-69 | the body starts at the first empty line, or after the last line when there is none |
| Codec.HeaderMap | src/request.rs:73-75 | the header lines give a map, or fail with the name error or the value error only |
| Codec.Parts | src/request.rs:62-79 | `parse_parts` fails with "Missing Headers" exactly when the builder is unusable, and otherwise keeps the method and target |
| Codec.ParseParts | src/request.rs:62-79 | the loop with its `is_body` flag computes `Parts` |
| Codec.RunBody | src/request.rs:67-71 | once the empty line is seen, every later line is appended to the body without a terminator |
| Codec.RunHeaders | src/request.rs:66-76 | before the body the loop builds the header map or stops at its first error, and the body is the lines from the first empty line on |
| Codec.RunParts | src/request.rs:62-79 | the loop over all lines gives `Parts` and never panics on defined input |
| Codec.RunFailed | src/request.rs:74-75 | a failed header ends the loop with that error |
| CodecLemmas.DecodeEmpty | src/request.rs:37-41 | decoding fails with "Invalid HTTP Request" exactly for the empty text |
| CodecLemmas.DecodeNoMethod | src/request.rs:43 | decoding fails with "Invalid HTTP Method" exactly when the first line is all whitespace |
| CodecLemmas.DecodeNoUri | src/request.rs:44 | decoding fails with "Invalid HTTP URI" exactly when the first line has one word; a version word is never required |
| CodecLemmas.DecodeOtherMethod | src/request.rs:45-49 | any method word other than `GET` or `POST` fails with "Unsupported HTTP Method: " and the word |
| CodecLemmas.DecodeOtherHead | src/request.rs:45-49 | the same for any text whose first line has those words |
| CodecLemmas.LowercaseGetIsUnsupported | src/request.rs:45-48 | methods are case-sensitive: `get` is unsupported |
| CodecLemmas.PartsMissingHeaders | src/request.rs:63 | "Missing Headers" comes exactly from a target the URI parser refuses |
| CodecLemmas.NoBlankLine | src/request.rs:64-78 | with no empty line the body is empty and parsing still succeeds when the headers do |
| CodecLemmas.HeaderMapSnoc | src/request.rs:73-75 | a later header of the same name replaces an earlier one |
| CodecLemmas.ParseFieldLine | src/request.rs:73-75 | `name:value` splits at the first colon into that name and value |
| CodecLemmas.FieldsHeaderMap | src/request.rs:73-75 | well-formed header lines give the map of their fields, last one winning |
| CodecLemmas.FramedParts | src/request.rs:62-79 | header lines, an empty line and a body parse to that header map and body |
| CodecLemmas.RequestTextLines | src/request.rs:37-42 | the lines of a request text are its request line, its header lines, an empty line and the body |
| CodecLemmas.DecodeRequestText | src/request.rs:33-79 | round trip: decoding a well-formed request text gives back its method, target, headers and body |
| CodecLemmas.DecodeFramed | src/request.rs:33-79 | the same for any text with those lines |
| CodecLemmas.BodyLines | src/request.rs:70-71 | the body's lines, glued without terminators, are the body |
| CodecLemmas.BodyStartAfter | src/request.rs:66-69 | the first empty line after the header lines starts the body |
| CodecLemmas.ReadStatusText | src/request.rs:16 | the three digits written for a status code read back as that code |
| CodecLemmas.StatusLineWords | src/request.rs:13-16 | the status line's first word is the version and its second reads back as the status code |
| CodecLemmas.SerializeLines | src/request.rs:13-30 | a response serialises to the status line, one line per header, an empty line and the body's lines |
| CodecLemmas.SerializeEndsWithBody | src/request.rs:29 | the body ends the serialised response unchanged |
| CodecLemmas.ReasonFallback | src/request.rs:17-20 | the reason is the canonical phrase, or the text "400" when there is none |
| CodecLemmas.ServerReasons | src/connection.rs:68-75 | discharges `SerializeLines`'s precondition for the codes the server sends: the reasons of 200, 400, 404 and 500 hold no line feed |
| CodecLemmas.UriIsWord | src/request.rs:44 | a target the URI parser accepts is a single word |
| PathUtils.NoQueryPart | src/path_utils.rs:6-11 | a target without `?` is all path and has no query |
| PathUtils.OnlyFirstTwoPieces | src/path_utils.rs:6-11 | only the first two `?`-separated pieces are consulted |
| PathUtils.MatchPartPath | src/path_utils.rs:14-28 | the loop succeeds exactly when the segment counts agree and every literal segment is equal, and then yields the placeholder bindings |
| PathUtils.BindSegmentsAt | src/path_utils.rs:21-22 | a `{name}` segment binds `name` to the path segment at its position, when no later segment has that name |
| PathUtils.BindSegmentsOther | src/path_utils.rs:20-26 | a name no segment carries keeps its earlier value or stays unbound |
| PathUtils.ParseQueryParams | src/path_utils.rs:53-62 | the loop computes the query map of the `&`-separated pieces |
| PathUtils.QueryMapAt | src/path_utils.rs:56-58 | a key takes the value of the last piece that carries it |
| PathUtils.QueryMapAbsent | src/path_utils.rs:56-58 | a key that no piece carries is absent |
| PathUtils.PieceOfPair | src/path_utils.rs:57-58 | `k=v` reads back as key `k` and value `v` |
| PathUtils.SecondEqualsIgnored | src/path_utils.rs:57-58 | text after a second `=` is dropped |
| PathUtils.QueryRoundTrip | src/path_utils.rs:53-62 | round trip: a query written from plain pairs parses to the map of the pairs |
| PathUtils.PairsQueryMap | src/path_utils.rs:53-62 | the pieces written from plain pairs give the map of the pairs |
| PathUtils.MatchPartParams | src/path_utils.rs:30-51 | the loop over the pattern's query succeeds exactly when every entry is bound or equal, and then yields exactly the bindings |
| PathUtils.VisitFail | src/path_utils.rs:45-47 | a literal query entry that the path lacks or contradicts fails the match |
| PathUtils.VisitEnd | src/path_utils.rs:38-50 | after every entry of the pattern's query is visited, the match holds with the bindings made |
| PathUtils.BindStep | src/path_utils.rs:39-44 | a `k={v}` entry binds `v` to the path's value for `k` |
| PathUtils.SkipStep | src/path_utils.rs:45-47 | a literal entry binds nothing |
| PathUtils.BindingsUnique | src/path_utils.rs:39-44 | with distinct placeholder names, each name ends bound to the path's value for its key |
| PathUtils.BindingsWithoutPatternQuery | src/path_utils.rs:11 | a pattern without a query returns the path bindings and ignores the path's query |
| PathUtils.MatchPath | src/path_utils.rs:5-12 | `match_path` succeeds exactly when the path part and the query match, and returns the path bindings extended by the query bindings |
| Connections.ReadNext | src/connection.rs:46 | a read takes the next scripted outcome, or "would block" when the script is exhausted |
| Connections.WriteNext | src/connection.rs:63 | a write sends at most the bytes offered, an error sends nothing, and an unscripted write takes everything |
| Connections.Stream.ReadChunk | src/connection.rs:46 | `stream.read` is `ReadNext` on the stream's state |
| Connections.Stream.WriteBytes | src/connection.rs:63 | `stream.write` is `WriteNext` on the stream's state |
| Connections.Connection.constructor | src/connection.rs:27-33 | a new connection is in `Read` with no buffer |
| Connections.Connection.HandleEvent | src/connection.rs:34-82 | `handle_event` returns `EventStep`'s result and leaves its new state |
| Connections.Connection.ReadRequest | src/connection.rs:39-57 | the read loop and UTF-8 check compute `ReadPhase` |
| Connections.Connection.WriteResponse | src/connection.rs:59-79 | the writable branch computes `WritePhase` |
| Connections.SendRes | src/connection.rs:92-100 | no buffer gives "Missing HTTP Request"; a decode error is passed on unchanged; after a successful decode, a handler error is passed on unchanged; when both succeed the result is the serialised response of the handler on the decoded request, and only then is it `Ok` |
| Connections.SendErr | src/connection.rs:85-90 | `send_err` makes one write of the error response, and fails with the write's error text |
| ConnectionLemmas.DrainPrefix | src/connection.rs:45-53 | data reads and interruptions are accumulated in order, and interruptions add nothing |
| ConnectionLemmas.DrainUntilWouldBlock | src/connection.rs:49 | "would block" ends the loop with everything read so far |
| ConnectionLemmas.DrainUntilEmpty | src/connection.rs:49 | an exhausted script ends the loop the same way |
| ConnectionLemmas.DrainZeroRead | src/connection.rs:47 | a zero-byte read fails with "Invalid request." even after data |
| ConnectionLemmas.DrainReadError | src/connection.rs:51 | another read error fails with its own text |
| ConnectionLemmas.DrainKeepsWrites | src/connection.rs:45-53 | reading never touches the write script or the bytes sent |
| ConnectionLemmas.ReadPhaseOutcome | src/connection.rs:45-56 | valid UTF-8 is buffered and gives `ReadDone`; invalid bytes fail and leave state and buffer |
| ConnectionLemmas.ReadPhaseBuffer | src/connection.rs:55 | the buffered text is exactly the bytes that were read |
| ConnectionLemmas.ReadPhaseFailure | src/connection.rs:47-55 | a failed read leaves the state, the buffer and the bytes sent unchanged |
| ConnectionLemmas.WriteResponseSent | src/connection.rs:60-65 | a write that takes everything sends the handler's serialised response and ends in `WriteDone` |
| ConnectionLemmas.ShortWriteFails | src/connection.rs:64 | a short write fails with "Couldn't write to stream" without reaching `WriteDone` |
| ConnectionLemmas.TransientWriteError | src/connection.rs:66-67 | "would block" and "interrupted" on write end the event in `WriteDone` without sending |
| ConnectionLemmas.BadRequestAnswered | src/connection.rs:75 | a missing buffer is answered with a 400 carrying "Missing HTTP Request", a decode error with a 400 carrying the decode error's text, and, after a successful decode, a handler error with a 400 carrying the handler's error text |
| ConnectionLemmas.WriteErrorAnswered | src/connection.rs:68-72 | another write error is answered with a 500 carrying its text |
| ConnectionLemmas.ErrorResponseText | src/connection.rs:85-90 | an error response is a status line, two CRLFs and the message as body |
| ConnectionLemmas.ErrorResponseOutcome | src/connection.rs:85-90 | an error response written to an unscripted socket is sent whole and ends in `WriteDone`; a scripted write that takes `limit` bytes sends the first `min(limit, length)` bytes and still ends in `WriteDone`, since the byte count is ignored; a failed write passes its error on and keeps the state |
| ConnectionLemmas.ResultIsState | src/connection.rs:81 | `handle_event` returns the state it leaves the connection in |
| ConnectionLemmas.EventStates | src/connection.rs:39-81 | a successful writable event ends in `WriteDone` and a readable-only one in `ReadDone`; an event with neither changes nothing |
| ConnectionLemmas.ReadThenWrite | src/connection.rs:39-79 | a readable and writable event reads, then writes what it has just read |
| ConnectionLemmas.RequestRead | src/connection.rs:39-57 | a request arriving in one read is buffered and gives `ReadDone` |
| ConnectionLemmas.ResponseWritten | src/connection.rs:59-79 | the next writable event sends exactly the serialised response |
| ConnectionLemmas.OneRequest | src/connection.rs:34-100 | the two events of one request, together |
| EventLoop.AcceptNext | src/server.rs:41 | `accept` takes the next scripted outcome, or "would block" when none is left |
| EventLoop.Listener.Accept | src/server.rs:41 | the listener's `accept` is `AcceptNext` |
| EventLoop.AfterEventOverwrites | src/server.rs:57-72 | the registry after an event does not depend on the entry replaced |
| EventLoop.Server.constructor | src/server.rs:16-21 | the handler is kept; the registry starts empty and the last token is the listener's 0, as at the start of `listen` |
| EventLoop.Server.AcceptAll | src/server.rs:40-55 | the accept loop computes `DrainAccepts` |
| EventLoop.Server.Insert | src/server.rs:54 | a fresh connection is entered under the last token |
| EventLoop.Server.Dispatch | src/server.rs:38-75 | one event computes `HandleToken` |
| EventLoop.Server.Forward | src/server.rs:56-74 | a connection event replaces or removes only that token's entry, as `AfterEvent` says |
| EventLoop.Server.Settle | src/server.rs:58-72 | `ReadDone` becomes `Write`; `WriteDone` or an error removes the token |
| EventLoop.Server.HandleEvents | src/server.rs:38-76 | the events of one poll are handled in order, stopping at the first error |
| EventLoop.Server.Listen | src/server.rs:34-77 | the loop over successive polls computes `Serve` |
| EventLoopLemmas.DrainAcceptsFrame | src/server.rs:40-55 | accepting only adds entries, above the last token, each a fresh reading connection, and keeps the old ones |
| EventLoopLemmas.AdmittedEntries | src/server.rs:49-54 | admitting k clients after token n adds exactly n+1 .. n+k, the i-th client under n+1+i |
| EventLoopLemmas.AcceptEveryClient | src/server.rs:40-55 | every client is admitted in order; "would block" or no client ends the loop well; another error, or a failed registration, aborts `listen` |
| EventLoopLemmas.AcceptsKeepInvariants | src/server.rs:40-55 | accepting keeps tokens positive and issued, and states `Read` or `Write` |
| EventLoopLemmas.ConnectionEventEffect | src/server.rs:56-74 | an unknown token changes nothing; only the token's entry changes; it stays exactly after `Read`, `ReadDone` or `Write`, and `ReadDone` becomes `Write` |
| EventLoopLemmas.ConnectionEventKeepsInvariants | src/server.rs:56-74 | connection events keep the invariants |
| EventLoopLemmas.HandleTokenKeepsInvariants | src/server.rs:38-75 | every event keeps the invariants |
| EventLoopLemmas.BatchKeepsInvariants | src/server.rs:38-76 | a poll's events keep the invariants |
| EventLoopLemmas.ServeKeepsInvariants | src/server.rs:34-77 | the whole loop keeps the invariants |
| EventLoopLemmas.RequestLifecycle | src/server.rs:56-74 | a request in one read is buffered, then answered with the handler's response, and the token is removed |
| EventLoopLemmas.Incomings | src/server.rs:41-54 | the accept script of registering clients has one incoming outcome per client |
| Chats.Chat.constructor | src/chat.rs:14-20 | `Chat::new` has the given identity and no messages |
| Chats.Chat.AddMessage | src/chat.rs:21-23 | the message goes last and the identity and earlier messages are kept |
| Chats.PostAllAppends | src/chat.rs:21-23 | after a series of `add_message`, the messages are the earlier ones followed by the new ones in call order |
| Chats.PostAllOrder | src/chat.rs:21-23 | on a new chat, the i-th message is the i-th one added |
| ChatApp.MatchUserChats | src/main.rs:24 | the first GET route matches exactly the `/chats` path with a `userId` query, binding its value |
| ChatApp.MatchChatMessages | src/main.rs:37 | the messages route matches exactly `/chats/<x>/messages`, binding `x` |
| ChatApp.MatchChats | src/main.rs:49 | the creation route matches exactly the `/chats` path, with any query |
| ChatApp.BindUserId | src/main.rs:24 | `match_path` against the user's-chats pattern binds `user_id` to the query's `userId` |
| ChatApp.BindChatId | src/main.rs:37 | `match_path` against the messages pattern binds `chat_id` to the third segment |
| ChatApp.MatchesChats | src/main.rs:49 | `match_path` against `/chats` succeeds exactly for that path |
| ChatApp.MatchChatsSegments | src/main.rs:49 | only the segments of `/chats` match the segments of `/chats` |
| ChatApp.Render | src/main.rs:33-45 | 404 only for no route; empty body and no headers for stores and 404; JSON content type and the encoder's text for lists |
| ChatApp.PathAndQuery | src/main.rs:22 | `path_and_query().as_str()` of an origin-form target: the longest prefix without `#`, cut exactly at the first `#` |
| ChatApp.App.constructor | src/main.rs:15-17 | no chats and no users |
| ChatApp.App.Handle | src/main.rs:19-87 | for a target whose `path_and_query()` exists (and, under GET and POST, whose query is well formed once a route's path matches), the closure answers what `Respond` and `Render` say, and leaves `Respond`'s new state |
| ChatApp.App.Route | src/main.rs:22-86 | the match on method and `path_and_query()` (the target up to its first `#`) computes `Respond`; methods other than GET and POST never read the query |
| ChatApp.App.RouteGet | src/main.rs:23-47 | the GET arms, in order, on a path-and-query text: the user's chats, then a chat's messages, then 404 (`Dispatch`) |
| ChatApp.App.RoutePost | src/main.rs:48-82 | the POST arms, in order, on a path-and-query text: chat creation, then a new message, then 404 (`Dispatch`) |
| ChatApp.App.ListChatsOf | src/main.rs:25-31 | the user's listed chats that exist, or "No chats for user", or the parse error |
| ChatApp.App.MessagesOf | src/main.rs:38-40 | the chat's messages, or "Chat does not exist", or the parse error |
| ChatApp.App.AddChat | src/main.rs:50-66 | creation as `CreateChat` says |
| ChatApp.App.AddMessage | src/main.rs:68-80 | posting as `PostMessage` says |
| ChatAppLemmas.ShowIsPlain | src/main.rs:25 | the text of an identifier holds none of the router's separators, and no `#` |
| ChatAppLemmas.Unfragmented | src/main.rs:22 | a target without `#` is its own path and query |
| ChatAppLemmas.FragmentCut | src/main.rs:22 | the path and query of `t#f` is `t` when `t` has no `#` |
| ChatAppLemmas.FragmentIgnored | src/main.rs:22 | an origin-form request whose target carries a fragment is answered, and changes the state, exactly as the same request without the fragment |
| ChatAppLemmas.MessagesPathRoutes | src/main.rs:37 | `/chats/<id>/messages` is routable, is its own path and query, and takes the messages route with the text of `id` |
| ChatAppLemmas.UserChatsPathRoutes | src/main.rs:24 | `/chats?userId=<id>` is routable, is its own path and query, and takes the user's-chats route with the text of `id` |
| ChatAppLemmas.ChatsRoutes | src/main.rs:49 | `/chats` is routable, is its own path and query, and takes the creation route only |
| ChatAppLemmas.UnroutedNotFound | src/main.rs:83-86 | another method, on any origin-form or `*` target, or a GET or POST whose path and query matches no route of its method, gives a 404 with an empty body and changes nothing |
| ChatAppLemmas.OtherMethodNotFound | src/main.rs:83-86 | `PUT /chats?<q>` with a query piece lacking `=` (say `PUT /chats?a`) is answered 404, while the same target is excluded under GET and POST, where it panics |
| ChatAppLemmas.OnlySuccessfulPostsChange | src/main.rs:22-86 | GET and failed requests leave the state; only a stored POST changes it |
| ChatAppLemmas.CreateChatEffect | src/main.rs:53-64 | the chat identifier joins both participants' sets, created if absent; no other user changes; a fresh chat is stored under the identifier |
| ChatAppLemmas.CreateChatReplaces | src/main.rs:61-64 | creating under an identifier in use replaces the chat and drops its messages |
| ChatAppLemmas.PostMessageChecks | src/main.rs:69-77 | the checks in order: body, sender's address book entry ("Can't send message to contact not in address list"), chat identifier, chat ("Missing Chat"); each failure leaves the state |
| ChatAppLemmas.UnlistedRecipientAccepted | src/main.rs:70-73 | a sender with an address book entry may write to a recipient the entry does not list |
| ChatAppLemmas.PostThenRead | src/main.rs:75-78 | a stored message is appended last to its chat; other chats and users are unchanged |
| ChatAppLemmas.IndexedInvariant | src/main.rs:53-64 | every request keeps each chat under its own identifier and listed for both its participants |
| ChatAppLemmas.ParticipantSeesChat | src/main.rs:26-31 | in such a state, each participant's listing shows the chat |
| ChatAppLemmas.CreateThenList | src/main.rs:24-66 | after a chat is created, either participant's GET lists it |
| ChatAppLemmas.PostThenReadRequests | src/main.rs:37-80 | after a message is posted, the chat's GET ends with it |
| ChatAppLemmas.PostEachAppends | src/main.rs:67-80 | posts to one chat are kept in the order they were posted |

## Left out

- Sockets, `Poll`, `Events`, the registry of interests and `flush` are left out. The scripted outcomes stand in for them. Re-registration for writing is ignored; its result is discarded in the source too.
- EventLoop.Server.Listen and `EventLoop.Serve` run over a finite list of polls: `Ok` means the polls ran out, where the source loops forever. Binding and parsing the listen address is left out.
- Codec.NewBuilder reduces URI parsing to non-empty visible ASCII. This stands in for the http crate's `Uri` parser.
- Codec.ParseHeaderLine checks header names against the RFC 9110 token characters and values against visible text and tabs. The http crate's validation is not modelled beyond that. Names are stored lowercased, and a value keeps the space after the colon.
- Codec.VersionText: the `Debug` text of a version is written as the http crate prints it. Only HTTP/1.1 is ever built.
- Utf8.Decode: the error text of a UTF-8 failure is a fixed string. The source's message names the offending byte position.
- The JSON encoding and decoding of chats, messages and summaries are function-valued parameters. Loading `contacts.json` at start-up is a parameter too (`App.contacts`).
- `println!` logging is left out.
- ChatApp.App.Handle is modelled apart from the server. The server's `Handler` is a pure function of the request, so the closure's captured state is not threaded through `Connection.HandleEvent`. `EventLoopLemmas.RequestLifecycle` and `ChatApp.App.Handle` together describe one request end to end.
- A header line without `:` is a precondition (`Codec.DecodeDefined`), because `header[1]` panics. So is a query piece without `=` in a GET or POST whose path matches a route (`PathUtils.QueryOk`, `ChatApp.RouteDefined`); other methods never read the query, and `ChatApp.Routable` does not ask it of them. So is `path_and_query().unwrap()` (`ChatApp.TargetDefined`): a target in authority form, such as `chats`, has no path and query, and the source panics on it. These are panics in the source.
- ChatApp.App.Route requires `ChatApp.TargetDefined`: the target is in origin form (it starts with `/`) or is `*`. An absolute-form target such as `http://h/chats` is outside the model, although the source routes it by its path and query. Scheme and authority parsing are not modelled; `Codec.UriParses` only approximates which targets parse.
- ChatApp.App.Handle carries the same requirement as `ChatApp.App.Route`, so absolute-form targets are outside its contract too.
- ChatApp.App.RouteGet and the POST arms take the path-and-query text already cut from an origin-form or `*` target; what an absolute-form target's path and query would be is not modelled.
- ChatApp.App.RoutePost: as for `ChatApp.App.RouteGet`, absolute-form targets never reach it in the model.
- ChatAppLemmas.UnroutedNotFound covers only origin-form and `*` targets (`ChatApp.Routable`). On an authority-form target the source panics rather than answering 404; on an absolute-form target the source routes by its path and query, which the model does not cover.
- ChatApp.App.ListChatsOf returns a set of chat summaries. The source returns a vector in `HashSet` iteration order, which is unspecified.
- PathUtils.MatchPartParams visits the pattern's query keys in an unspecified order, as the source's `HashMap` iteration does. Its contract states the result for every order.
