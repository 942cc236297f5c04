/** What the chat service of src/main.rs guarantees across requests. */
module ChatAppLemmas {
  import opened Wrappers
  import opened Strings
  import opened Int64
  import opened Chats
  import opened PathUtils
  import opened ChatApp
  import Codec

  // ---------------------------------------------------------------------------
  // Request targets built from identifiers

  /** The decimal text of an identifier holds no separator the router uses. */
  lemma ShowIsPlain(n: I64)
    ensures '/' !in Show(n) && '?' !in Show(n) && '&' !in Show(n) && '=' !in Show(n) && '#' !in Show(n)
  {
    if n < 0 {
      var ds := DigitsOf(-(n as int));
      assert Show(n) == "-" + ds;
      assert forall i :: 0 <= i < |ds| ==> IsDigit(ds[i]);
    }
  }

  /** A target without a fragment is its own path and query. */
  lemma Unfragmented(target: string)
    requires '#' !in target
    ensures PathAndQuery(target) == target
  {
  }

  /** The path and query of a target with a fragment stops at its `#`. */
  lemma FragmentCut(target: string, fragment: string)
    requires '#' !in target
    ensures PathAndQuery(target + ['#'] + fragment) == target
  {
    var t := target + ['#'] + fragment;
    assert t[|target|] == '#';
    assert forall j :: 0 <= j < |target| ==> t[j] == target[j];
    assert t[..|target|] == target;
  }

  /** A fragment is dropped before routing: an origin-form request is
      answered as if its target ended before its `#`. */
  lemma FragmentIgnored(s: AppState, contacts: Contacts, json: Json, req: Codec.Request, fragment: string)
    requires '#' !in req.uri && Routable(req.httpMethod, req.uri) && req.uri != "*"
    ensures var tagged := req.(uri := req.uri + ['#'] + fragment);
      && Routable(tagged.httpMethod, tagged.uri)
      && PathAndQuery(tagged.uri) == req.uri
      && Respond(s, contacts, json, tagged) == Respond(s, contacts, json, req)
  {
    var t := req.uri + ['#'] + fragment;
    Unfragmented(req.uri);
    FragmentCut(req.uri, fragment);
    assert t[0] == '/';
  }

  function MessagesPath(id: I64): string
  {
    "/chats/" + Show(id) + "/messages"
  }

  function UserChatsPathOf(user: I64): string
  {
    "/chats?userId=" + Show(user)
  }

  /** `/chats/<id>/messages` takes the messages route with that identifier. */
  lemma MessagesPathRoutes(id: I64)
    ensures TargetDefined(MessagesPath(id)) && RouteDefined(MessagesPath(id))
    ensures PathAndQuery(MessagesPath(id)) == MessagesPath(id)
    ensures IsMessagesPath(MessagesPath(id)) && ChatIdText(MessagesPath(id)) == Show(id)
    ensures !IsChatsPath(MessagesPath(id)) && !IsUserChatsPath(MessagesPath(id))
  {
    MessagesPathSegments(id);
    MessagesPathTarget(id);
  }

  lemma MessagesPathSegments(id: I64)
    ensures RouteDefined(MessagesPath(id))
    ensures IsMessagesPath(MessagesPath(id)) && ChatIdText(MessagesPath(id)) == Show(id)
    ensures !IsChatsPath(MessagesPath(id)) && !IsUserChatsPath(MessagesPath(id))
  {
    var x := Show(id);
    ShowIsPlain(id);
    assert MessagesPath(id) == "" + ['/'] + ("chats" + ['/'] + (x + ['/'] + "messages"));
    ThreeSegments(MessagesPath(id), "chats", x, "messages");
  }

  lemma MessagesPathTarget(id: I64)
    ensures TargetDefined(MessagesPath(id)) && PathAndQuery(MessagesPath(id)) == MessagesPath(id)
  {
    ShowIsPlain(id);
    assert '#' !in "/chats/" && '#' !in "/messages";
    Unfragmented(MessagesPath(id));
  }

  /** `/chats?userId=<id>` takes the user's-chats route with that identifier. */
  lemma UserChatsPathRoutes(user: I64)
    ensures TargetDefined(UserChatsPathOf(user)) && RouteDefined(UserChatsPathOf(user))
    ensures PathAndQuery(UserChatsPathOf(user)) == UserChatsPathOf(user)
    ensures IsUserChatsPath(UserChatsPathOf(user)) && UserIdText(UserChatsPathOf(user)) == Show(user)
    ensures !IsMessagesPath(UserChatsPathOf(user))
  {
    UserChatsPathQuery(user);
    UserChatsPathTarget(user);
  }

  lemma UserChatsPathQuery(user: I64)
    ensures RouteDefined(UserChatsPathOf(user))
    ensures IsUserChatsPath(UserChatsPathOf(user)) && UserIdText(UserChatsPathOf(user)) == Show(user)
    ensures !IsMessagesPath(UserChatsPathOf(user))
  {
    var x := Show(user);
    ShowIsPlain(user);
    ChatsText();
    OneSegment(CHATS, "chats");
    var q := "userId" + ['='] + x;
    assert UserChatsPathOf(user) == CHATS + ['?'] + q;
    OneQueryPiece(UserChatsPathOf(user), CHATS, q, "userId", x);
  }

  lemma UserChatsPathTarget(user: I64)
    ensures TargetDefined(UserChatsPathOf(user)) && PathAndQuery(UserChatsPathOf(user)) == UserChatsPathOf(user)
  {
    ShowIsPlain(user);
    assert '#' !in "/chats?userId=";
    Unfragmented(UserChatsPathOf(user));
  }

  // ---------------------------------------------------------------------------
  // One request

  /** A request that takes no route is answered 404 with an empty body and
      changes nothing. */
  lemma UnroutedNotFound(s: AppState, contacts: Contacts, json: Json, req: Codec.Request)
    requires Routable(req.httpMethod, req.uri)
    requires var path := PathAndQuery(req.uri);
             || req.httpMethod.Extension?
             || (req.httpMethod.Get? && !IsUserChatsPath(path) && !IsMessagesPath(path))
             || (req.httpMethod.Post? && !IsChatsPath(path) && !IsMessagesPath(path))
    ensures Respond(s, contacts, json, req) == (Ok(NotFound), s)
    ensures RenderResult(Respond(s, contacts, json, req).0, json) == Ok(Codec.Response(Codec.Http11, 404, [], ""))
  {
  }

  /** A method other than GET and POST never reads the query, so a query
      piece without `=` does not panic there: `PUT /chats?<q>`, say
      `PUT /chats?a`, is answered 404, although the same target would panic
      under GET or POST. */
  lemma OtherMethodNotFound(s: AppState, contacts: Contacts, json: Json, q: string,
                            headers: map<string, string>, body: string)
    requires '?' !in q && '&' !in q && '=' !in q && '#' !in q
    ensures var req := Codec.Request(Codec.Extension("PUT"), CHATS + ['?'] + q, headers, body);
      && Routable(req.httpMethod, req.uri)
      && !Routable(Codec.Get, req.uri) && !Routable(Codec.Post, req.uri)
      && Respond(s, contacts, json, req) == (Ok(NotFound), s)
  {
    var t := CHATS + ['?'] + q;
    ChatsText();
    OneSegment(CHATS, "chats");
    assert t[0] == '/';
    assert '#' !in CHATS;
    Unfragmented(t);
    BareQueryPiece(t, CHATS, q);
  }

  /** Reads never change the state, and neither does a failed request. */
  lemma OnlySuccessfulPostsChange(s: AppState, contacts: Contacts, json: Json, req: Codec.Request)
    requires Routable(req.httpMethod, req.uri)
    ensures req.httpMethod.Get? ==> Respond(s, contacts, json, req).1 == s
    ensures Respond(s, contacts, json, req).0.Err? ==> Respond(s, contacts, json, req).1 == s
    ensures Respond(s, contacts, json, req).1 != s ==>
              req.httpMethod.Post? && Respond(s, contacts, json, req).0 == Ok(Stored)
  {
  }

  /** Creating a chat lists it for both participants, stores it without
      messages, and touches no other chat and no other user. */
  lemma CreateChatEffect(s: AppState, c: ChatInfo)
    ensures var (r, s2) := CreateChat(s, Ok(c));
      && r == Ok(Stored)
      && s2.chats == s.chats[c.id := NewChat(c)]
      && c.participantIds.0 in s2.users && c.id in s2.users[c.participantIds.0]
      && c.participantIds.1 in s2.users && c.id in s2.users[c.participantIds.1]
      && (forall u :: u in s.users ==> u in s2.users && s.users[u] <= s2.users[u])
      && (forall u :: u in s2.users ==> u in s.users || u == c.participantIds.0 || u == c.participantIds.1)
      && (forall u :: u in s2.users && u != c.participantIds.0 && u != c.participantIds.1 ==>
            s2.users[u] == s.users[u])
      && (forall u :: u in s2.users ==> s2.users[u] <= (if u in s.users then s.users[u] else {}) + {c.id})
  {
  }

  /** Creating a chat under an identifier in use replaces that chat and
      forgets its messages. */
  lemma CreateChatReplaces(s: AppState, c: ChatInfo)
    requires c.id in s.chats
    ensures CreateChat(s, Ok(c)).1.chats[c.id].messages == []
    ensures CreateChat(s, Ok(c)).1.chats[c.id].info == c
  {
  }

  /** The checks of a new message, in order: the body, an address book entry
      for the sender, the chat identifier, the chat. */
  lemma PostMessageChecks(s: AppState, contacts: Contacts, body: Result<Message>, text: string)
    ensures body.Err? ==> PostMessage(s, contacts, body, text) == (Err(body.error), s)
    ensures body.Ok? && body.value.sourceUserId !in contacts ==>
              PostMessage(s, contacts, body, text) == (Err(NOT_A_CONTACT), s)
    ensures body.Ok? && body.value.sourceUserId in contacts && Parse(text).Err? ==>
              PostMessage(s, contacts, body, text) == (Err(Parse(text).error), s)
    ensures body.Ok? && body.value.sourceUserId in contacts && Parse(text).Ok? && Parse(text).value !in s.chats ==>
              PostMessage(s, contacts, body, text) == (Err(MISSING_CHAT), s)
  {
  }

  /** A sender with an address book entry may write to anybody: whether the
      recipient is listed is not consulted. */
  lemma UnlistedRecipientAccepted(s: AppState, contacts: Contacts, m: Message, id: I64)
    requires m.sourceUserId in contacts && m.destinationUserId !in contacts[m.sourceUserId]
    requires id in s.chats
    ensures PostMessage(s, contacts, Ok(m), Show(id)).0 == Ok(Stored)
  {
    ParseShow(id);
  }

  /** A stored message is read back last, after the chat's earlier messages. */
  lemma PostThenRead(s: AppState, contacts: Contacts, m: Message, id: I64)
    requires m.sourceUserId in contacts && id in s.chats
    ensures var (r, s2) := PostMessage(s, contacts, Ok(m), Show(id));
      && r == Ok(Stored)
      && ListMessages(s2, Show(id)) == Ok(MessageList(s.chats[id].messages + [m]))
      && (forall k :: k in s.chats && k != id ==> k in s2.chats && s2.chats[k] == s.chats[k])
      && s2.users == s.users
  {
    ParseShow(id);
  }

  // ---------------------------------------------------------------------------
  // Many requests

  /** Every chat is stored under its identifier and listed for both its
      participants. */
  predicate Indexed(s: AppState)
  {
    forall id :: id in s.chats ==>
      && s.chats[id].info.id == id
      && s.chats[id].info.participantIds.0 in s.users && id in s.users[s.chats[id].info.participantIds.0]
      && s.chats[id].info.participantIds.1 in s.users && id in s.users[s.chats[id].info.participantIds.1]
  }

  /** The empty state is indexed, and every request keeps it so. */
  lemma IndexedInvariant(s: AppState, contacts: Contacts, json: Json, req: Codec.Request)
    requires Routable(req.httpMethod, req.uri)
    ensures Indexed(AppState(map[], map[]))
    ensures Indexed(s) ==> Indexed(Respond(s, contacts, json, req).1)
  {
    if Indexed(s) {
      DispatchKeepsIndexed(s, contacts, json, req.httpMethod, PathAndQuery(req.uri), req.body);
    }
  }

  lemma DispatchKeepsIndexed(s: AppState, contacts: Contacts, json: Json, m: Codec.Method, path: string, body: string)
    requires m.Get? || m.Post? ==> RouteDefined(path)
    requires Indexed(s)
    ensures Indexed(Dispatch(s, contacts, json, m, path, body).1)
  {
    if m.Post? {
      if IsChatsPath(path) {
        CreateKeepsIndexed(s, json.decodeChat(body));
      } else if IsMessagesPath(path) {
        PostKeepsIndexed(s, contacts, json.decodeMessage(body), ChatIdText(path));
      }
    }
  }

  lemma CreateKeepsIndexed(s: AppState, chat: Result<ChatInfo>)
    requires Indexed(s)
    ensures Indexed(CreateChat(s, chat).1)
  {
    if chat.Ok? {
      CreateChatEffect(s, chat.value);
    }
  }

  lemma PostKeepsIndexed(s: AppState, contacts: Contacts, body: Result<Message>, text: string)
    requires Indexed(s)
    ensures Indexed(PostMessage(s, contacts, body, text).1)
  {
    var s2 := PostMessage(s, contacts, body, text).1;
    assert s2.users == s.users;
    assert forall id :: id in s2.chats ==> id in s.chats && s2.chats[id].info == s.chats[id].info;
  }

  /** In an indexed state a participant's listing shows each of their chats. */
  lemma ParticipantSeesChat(s: AppState, id: I64, user: I64)
    requires Indexed(s) && id in s.chats
    requires user == s.chats[id].info.participantIds.0 || user == s.chats[id].info.participantIds.1
    ensures ListChats(s, Show(user)).Ok?
    ensures s.chats[id].info in ListChats(s, Show(user)).value.chats
  {
    ParseShow(user);
    assert s.chats[id].info in ChatsOf(s, user);
  }

  /** `/chats` takes the chat-creation route. */
  lemma ChatsRoutes()
    ensures TargetDefined(CHATS) && RouteDefined(CHATS) && PathAndQuery(CHATS) == CHATS
    ensures IsChatsPath(CHATS) && !IsMessagesPath(CHATS) && !IsUserChatsPath(CHATS)
  {
    ChatsText();
    OneSegment(CHATS, "chats");
    assert '#' !in CHATS;
    Unfragmented(CHATS);
  }

  /** The requests of a client that creates a chat (at `/chats`, see
      `ChatsRoutes`) and then asks for one participant's chats: the new chat
      is among them. */
  lemma CreateThenList(s: AppState, contacts: Contacts, json: Json, path: string, body: string, c: ChatInfo,
                       headers: map<string, string>)
    requires Indexed(s) && json.decodeChat(body) == Ok(c)
    requires Routable(Codec.Post, path) && IsChatsPath(PathAndQuery(path))
    ensures var s2 := Respond(s, contacts, json, Codec.Request(Codec.Post, path, headers, body)).1;
      && Routable(Codec.Get, UserChatsPathOf(c.participantIds.0))
      && var r := Respond(s2, contacts, json, Codec.Request(Codec.Get, UserChatsPathOf(c.participantIds.0), headers, "")).0;
      && r.Ok? && r.value.ChatList? && c in r.value.chats
  {
    var req := Codec.Request(Codec.Post, path, headers, body);
    IndexedInvariant(s, contacts, json, req);
    var s2 := Respond(s, contacts, json, req).1;
    CreateChatEffect(s, c);
    assert s2 == CreateChat(s, Ok(c)).1;
    UserChatsPathRoutes(c.participantIds.0);
    ParticipantSeesChat(s2, c.id, c.participantIds.0);
  }

  /** The requests of a client that posts a message to a chat and then reads
      the chat's messages: the message comes last. */
  lemma PostThenReadRequests(s: AppState, contacts: Contacts, json: Json, body: string, m: Message, id: I64,
                             headers: map<string, string>)
    requires json.decodeMessage(body) == Ok(m) && m.sourceUserId in contacts && id in s.chats
    ensures Routable(Codec.Post, MessagesPath(id)) && Routable(Codec.Get, MessagesPath(id))
    ensures var (r1, s2) := Respond(s, contacts, json, Codec.Request(Codec.Post, MessagesPath(id), headers, body));
      && r1 == Ok(Stored)
      && Respond(s2, contacts, json, Codec.Request(Codec.Get, MessagesPath(id), headers, "")).0
         == Ok(MessageList(s.chats[id].messages + [m]))
  {
    MessagesPathRoutes(id);
    PostThenRead(s, contacts, m, id);
  }

  /** The state after posting `ms` to the chat `text` names, one request
      after the other. */
  function PostEach(s: AppState, contacts: Contacts, ms: seq<Message>, text: string): AppState
    decreases |ms|
  {
    if ms == [] then s else PostEach(PostMessage(s, contacts, Ok(ms[0]), text).1, contacts, ms[1..], text)
  }

  /** Messages posted one after the other to an existing chat by senders
      with an address book entry are kept in the order they were posted. */
  lemma {:induction false} PostEachAppends(s: AppState, contacts: Contacts, ms: seq<Message>, id: I64)
    requires id in s.chats
    requires forall i :: 0 <= i < |ms| ==> ms[i].sourceUserId in contacts
    ensures id in PostEach(s, contacts, ms, Show(id)).chats
    ensures PostEach(s, contacts, ms, Show(id)).chats[id] == PostAll(s.chats[id], ms)
    ensures PostEach(s, contacts, ms, Show(id)).chats[id].messages == s.chats[id].messages + ms
    decreases |ms|
  {
    PostAllAppends(s.chats[id], ms);
    if ms != [] {
      ParseShow(id);
      var s1 := PostMessage(s, contacts, Ok(ms[0]), Show(id)).1;
      assert s1.chats[id] == Post(s.chats[id], ms[0]);
      PostEachAppends(s1, contacts, ms[1..], id);
    }
  }
}
