/** The chat service of src/main.rs: the request handler the server is
    started with, and the state it keeps between requests (the chats by
    identifier, and for every user the identifiers of the chats they take
    part in), next to the fixed address book read at start-up.

    Routes:
      GET  /chats?userId={user_id}     the summaries of the user's chats
      GET  /chats/{chat_id}/messages   the messages of a chat
      POST /chats                      create (or replace) a chat
      POST /chats/{chat_id}/messages   append a message to a chat
    and a 404 with an empty body for anything else. */
module ChatApp {
  import opened Wrappers
  import opened Strings
  import opened Int64
  import opened Chats
  import opened PathUtils
  import Codec

  // ---------------------------------------------------------------------------
  // Routes

  const USER_CHATS: string := "/chats?userId={user_id}"
  const CHAT_MESSAGES: string := "/chats/{chat_id}/messages"
  const CHATS: string := "/chats"

  /** The path part is `/chats`. */
  predicate IsChatsPath(path: string)
  {
    Segments(PathPart(path)) == ["", "chats"]
  }

  /** The path part is `/chats/<anything without a slash>/messages`. */
  predicate IsMessagesPath(path: string)
  {
    var segs := Segments(PathPart(path));
    |segs| == 4 && segs[0] == "" && segs[1] == "chats" && segs[3] == "messages"
  }

  /** Targets whose routing does not panic: once the path part matches a
      route, the query is read, and a query piece without `=` panics. */
  predicate RouteDefined(path: string)
  {
    IsChatsPath(path) || IsMessagesPath(path) ==> QueryOk(QueryPart(path))
  }

  /** Targets `uri().path_and_query()` gives a value for: an origin-form
      target (one that starts with `/`) and the asterisk target `*`. For a
      target in authority form it gives `None`, and `unwrap` panics. */
  predicate TargetDefined(target: string)
  {
    (|target| > 0 && target[0] == '/') || target == "*"
  }

  /** The text of `path_and_query()` for such a target: the target up to
      its first `#`, the fragment being no part of it. */
  function PathAndQuery(target: string): (p: string)
    ensures p <= target && '#' !in p
    ensures |p| < |target| ==> target[|p|] == '#'
  {
    target[..IndexOf(target, '#')]
  }

  /** Requests whose handling does not panic: every method needs a path and
      query, and only GET and POST go on to match it against the routes. */
  predicate Routable(m: Codec.Method, target: string)
  {
    TargetDefined(target) && (m.Get? || m.Post? ==> RouteDefined(PathAndQuery(target)))
  }

  /** `/chats` with a `userId` in its query. */
  predicate IsUserChatsPath(path: string)
  {
    IsChatsPath(path) && QueryOk(QueryPart(path)) && "userId" in QueryOf(QueryPart(path))
  }

  function UserIdText(path: string): string
    requires IsUserChatsPath(path)
  {
    QueryOf(QueryPart(path))["userId"]
  }

  function ChatIdText(path: string): string
    requires IsMessagesPath(path)
  {
    Segments(PathPart(path))[2]
  }

  const USER_QUERY: string := "userId={user_id}"

  lemma ChatsText()
    ensures CHATS == "" + ['/'] + "chats"
  {
  }

  lemma UserChatsText()
    ensures USER_CHATS == CHATS + ['?'] + USER_QUERY
    ensures USER_QUERY == "userId" + ['='] + "{user_id}"
  {
  }

  lemma ChatMessagesText()
    ensures CHAT_MESSAGES == "" + ['/'] + ("chats" + ['/'] + ("{chat_id}" + ['/'] + "messages"))
  {
  }

  /** A pattern with path `/chats` and no query. */
  predicate ChatsShape(pat: string)
  {
    Segments(PathPart(pat)) == ["", "chats"] && QueryPart(pat) == None
  }

  /** A pattern with path `/chats` whose query binds `userId` to `user_id`. */
  predicate UserChatsShape(pat: string)
  {
    && Segments(PathPart(pat)) == ["", "chats"]
    && QueryOk(QueryPart(pat)) && QueryOf(QueryPart(pat)) == map["userId" := "{user_id}"]
  }

  /** A pattern with path `/chats/{chat_id}/messages` and no query. */
  predicate ChatMessagesShape(pat: string)
  {
    Segments(PathPart(pat)) == ["", "chats", "{chat_id}", "messages"] && QueryPart(pat) == None
  }

  /** `/` followed by a segment, with no query. */
  lemma OneSegment(pat: string, seg: string)
    requires pat == "" + ['/'] + seg && '/' !in seg && '?' !in seg
    ensures PathPart(pat) == pat && QueryPart(pat) == None
    ensures Segments(pat) == ["", seg]
  {
    assert '?' !in pat;
    SplitNone(pat, '?');
    SplitTwo("", '/', seg);
  }

  /** `/a/b/c` with no query. */
  lemma ThreeSegments(pat: string, a: string, b: string, c: string)
    requires pat == "" + ['/'] + (a + ['/'] + (b + ['/'] + c))
    requires '/' !in a && '/' !in b && '/' !in c && '?' !in a && '?' !in b && '?' !in c
    ensures PathPart(pat) == pat && QueryPart(pat) == None
    ensures Segments(pat) == ["", a, b, c]
  {
    assert '?' !in pat;
    SplitNone(pat, '?');
    SplitFour("", a, b, c, '/');
  }

  /** `<path>?<piece>` whose one query piece has no `=`: a malformed query. */
  lemma BareQueryPiece(pat: string, path: string, q: string)
    requires pat == path + ['?'] + q
    requires '?' !in path && '?' !in q && '&' !in q && '=' !in q
    ensures PathPart(pat) == path && QueryPart(pat) == Some(q)
    ensures !QueryOk(QueryPart(pat))
  {
    SplitTwo(path, '?', q);
    SplitNone(q, '&');
    assert Split(q, '&')[0] == q;
  }

  /** A path, `?`, and one `key=value` query piece. */
  lemma OneQueryPiece(pat: string, path: string, q: string, key: string, value: string)
    requires pat == path + ['?'] + q && q == key + ['='] + value
    requires '?' !in path && '?' !in key && '?' !in value && '&' !in key && '&' !in value
    requires '=' !in key && '=' !in value
    ensures PathPart(pat) == path && QueryPart(pat) == Some(q)
    ensures QueryOk(QueryPart(pat)) && QueryOf(QueryPart(pat)) == map[key := value]
  {
    assert '?' !in q && '&' !in q;
    SplitTwo(path, '?', q);
    SplitNone(q, '&');
    SplitTwo(key, '=', value);
    assert QueryMap([q]) == QueryMap([])[PieceKey(q) := PieceValue(q)];
  }

  lemma ChatsPattern()
    ensures ChatsShape(CHATS)
  {
    ChatsText();
    OneSegment(CHATS, "chats");
  }

  lemma UserChatsPattern()
    ensures UserChatsShape(USER_CHATS)
  {
    ChatsText();
    OneSegment(CHATS, "chats");
    UserChatsText();
    OneQueryPiece(USER_CHATS, CHATS, USER_QUERY, "userId", "{user_id}");
  }

  lemma ChatMessagesPattern()
    ensures ChatMessagesShape(CHAT_MESSAGES)
  {
    ChatMessagesText();
    ThreeSegments(CHAT_MESSAGES, "chats", "{chat_id}", "messages");
  }

  /** Two segments match "" and "chats" exactly when they are those. */
  lemma MatchChatsSegments(segs: seq<string>)
    ensures SegmentsMatch(segs, ["", "chats"]) <==> segs == ["", "chats"]
  {
    if SegmentsMatch(segs, ["", "chats"]) {
      assert !IsPlaceholder("") && !IsPlaceholder("chats");
      assert segs[0] == "" && segs[1] == "chats";
    }
  }

  /** `match_path(path, "/chats?userId={user_id}")` and `vars["user_id"]`. */
  method BindUserId(path: string, pat: string) returns (user: Option<string>)
    requires RouteDefined(path) && UserChatsShape(pat)
    ensures user.Some? <==> IsUserChatsPath(path)
    ensures user.Some? ==> user.value == UserIdText(path)
  {
    var patQ := map["userId" := "{user_id}"];
    var segs := Segments(PathPart(path));
    MatchChatsSegments(segs);
    var vars := MatchPath(path, pat);
    if vars.None? {
      return None;
    }
    assert IsPlaceholder(patQ["userId"]) && PlaceholderName(patQ["userId"]) == "user_id";
    BindingsUnique(BindSegments(map[], segs, ["", "chats"]), QueryOf(QueryPart(path)), patQ, vars.value, "userId");
    return Some(vars.value["user_id"]);
  }

  /** `match_path(path, "/chats/{chat_id}/messages")` and `vars["chat_id"]`. */
  method BindChatId(path: string, pat: string) returns (chat: Option<string>)
    requires RouteDefined(path) && ChatMessagesShape(pat)
    ensures chat.Some? <==> IsMessagesPath(path)
    ensures chat.Some? ==> chat.value == ChatIdText(path)
  {
    var pattern := ["", "chats", "{chat_id}", "messages"];
    var segs := Segments(PathPart(path));
    assert !IsPlaceholder("") && !IsPlaceholder("chats") && !IsPlaceholder("messages");
    assert IsPlaceholder("{chat_id}") && PlaceholderName("{chat_id}") == "chat_id";
    assert SegmentsMatch(segs, pattern) <==> IsMessagesPath(path) by {
      if IsMessagesPath(path) {
        assert forall i :: 0 <= i < 4 && !IsPlaceholder(pattern[i]) ==> segs[i] == pattern[i];
      }
      if SegmentsMatch(segs, pattern) {
        assert segs[0] == pattern[0] && segs[1] == pattern[1] && segs[3] == pattern[3];
      }
    }
    var vars := MatchPath(path, pat);
    if vars.None? {
      return None;
    }
    BindingsWithoutPatternQuery(BindSegments(map[], segs, pattern), QueryOf(QueryPart(path)), vars.value);
    BindSegmentsAt(map[], segs, pattern, 2);
    return Some(vars.value["chat_id"]);
  }

  /** `match_path(path, "/chats").is_some()`. */
  method MatchesChats(path: string, pat: string) returns (matched: bool)
    requires RouteDefined(path) && ChatsShape(pat)
    ensures matched <==> IsChatsPath(path)
  {
    MatchChatsSegments(Segments(PathPart(path)));
    var vars := MatchPath(path, pat);
    return vars.Some?;
  }

  /** The three routes of the handler. */
  method MatchUserChats(path: string) returns (user: Option<string>)
    requires RouteDefined(path)
    ensures user.Some? <==> IsUserChatsPath(path)
    ensures user.Some? ==> user.value == UserIdText(path)
  {
    UserChatsPattern();
    user := BindUserId(path, USER_CHATS);
  }

  method MatchChatMessages(path: string) returns (chat: Option<string>)
    requires RouteDefined(path)
    ensures chat.Some? <==> IsMessagesPath(path)
    ensures chat.Some? ==> chat.value == ChatIdText(path)
  {
    ChatMessagesPattern();
    chat := BindChatId(path, CHAT_MESSAGES);
  }

  method MatchChats(path: string) returns (matched: bool)
    requires RouteDefined(path)
    ensures matched <==> IsChatsPath(path)
  {
    ChatsPattern();
    matched := MatchesChats(path, CHATS);
  }

  // ---------------------------------------------------------------------------
  // The service as a function of its state

  const NO_CHATS: string := "No chats for user"
  const NO_SUCH_CHAT: string := "Chat does not exist"
  const MISSING_CHAT: string := "Missing Chat"
  const NOT_A_CONTACT: string := "Can't send message to contact not in address list"

  /** The address book: for a user, the users they may write to. */
  type Contacts = map<I64, seq<I64>>

  /** The JSON conversions, which are not part of this model: decoding a
      request body into a chat or a message, and encoding the replies. */
  datatype Json = Json(decodeChat: string -> Result<ChatInfo>,
                       decodeMessage: string -> Result<Message>,
                       encodeChats: set<ChatInfo> -> string,
                       encodeMessages: seq<Message> -> string)

  /** What the handler answers before it is turned into a response. */
  datatype Reply =
    | ChatList(chats: set<ChatInfo>)
    | MessageList(messages: seq<Message>)
    | Stored
    | NotFound

  /** The service's state as a value. */
  datatype AppState = AppState(chats: map<I64, ChatRecord>, users: map<I64, set<I64>>)

  /** The summaries of the chats listed for `user` that exist. */
  function ChatsOf(s: AppState, user: I64): set<ChatInfo>
    requires user in s.users
  {
    set id | id in s.users[user] && id in s.chats :: s.chats[id].info
  }

  /** GET /chats?userId=...: parse the user, who must have chats listed. */
  function ListChats(s: AppState, text: string): Result<Reply>
  {
    match Parse(text)
    case Err(e) => Err(e)
    case Ok(user) => if user !in s.users then Err(NO_CHATS) else Ok(ChatList(ChatsOf(s, user)))
  }

  /** GET /chats/{chat_id}/messages: parse the chat, which must exist. */
  function ListMessages(s: AppState, text: string): Result<Reply>
  {
    match Parse(text)
    case Err(e) => Err(e)
    case Ok(id) => if id !in s.chats then Err(NO_SUCH_CHAT) else Ok(MessageList(s.chats[id].messages))
  }

  /** `users.entry(user).or_insert(HashSet::new()).insert(id)`. */
  function Enlist(users: map<I64, set<I64>>, user: I64, id: I64): map<I64, set<I64>>
  {
    users[user := (if user in users then users[user] else {}) + {id}]
  }

  /** POST /chats: the body's chat is listed for both participants and
      stored, without messages, under its identifier. */
  function CreateChat(s: AppState, body: Result<ChatInfo>): (Result<Reply>, AppState)
  {
    match body
    case Err(e) => (Err(e), s)
    case Ok(c) =>
      var users := Enlist(Enlist(s.users, c.participantIds.0, c.id), c.participantIds.1, c.id);
      (Ok(Stored), AppState(s.chats[c.id := NewChat(c)], users))
  }

  /** POST /chats/{chat_id}/messages: the body's message, a sender with an
      address book entry, a parsable chat identifier and an existing chat,
      checked in that order; then the message is appended. Whether the
      recipient is in the sender's address book is computed and dropped. */
  function PostMessage(s: AppState, contacts: Contacts, body: Result<Message>, text: string): (Result<Reply>, AppState)
  {
    match body
    case Err(e) => (Err(e), s)
    case Ok(m) =>
      if m.sourceUserId !in contacts then (Err(NOT_A_CONTACT), s)
      else
        match Parse(text)
        case Err(e) => (Err(e), s)
        case Ok(id) =>
          if id !in s.chats then (Err(MISSING_CHAT), s)
          else (Ok(Stored), s.(chats := s.chats[id := Post(s.chats[id], m)]))
  }

  /** The handler on a request: the routes see `uri().path_and_query()`. */
  function Respond(s: AppState, contacts: Contacts, json: Json, req: Codec.Request): (Result<Reply>, AppState)
    requires Routable(req.httpMethod, req.uri)
  {
    Dispatch(s, contacts, json, req.httpMethod, PathAndQuery(req.uri), req.body)
  }

  /** The routes on a method and a path-and-query text: GET tries the user's
      chats and then a chat's messages, POST tries chat creation and then a
      new message, and anything else is not found. */
  function Dispatch(s: AppState, contacts: Contacts, json: Json, m: Codec.Method, path: string, body: string)
    : (Result<Reply>, AppState)
    requires m.Get? || m.Post? ==> RouteDefined(path)
  {
    match m
    case Get =>
      if IsUserChatsPath(path) then (ListChats(s, UserIdText(path)), s)
      else if IsMessagesPath(path) then (ListMessages(s, ChatIdText(path)), s)
      else (Ok(NotFound), s)
    case Post =>
      if IsChatsPath(path) then CreateChat(s, json.decodeChat(body))
      else if IsMessagesPath(path) then PostMessage(s, contacts, json.decodeMessage(body), ChatIdText(path))
      else (Ok(NotFound), s)
    case Extension(_) => (Ok(NotFound), s)
  }

  const JSON_HEADER: (Codec.FieldName, Codec.FieldText) := ("content-type", "application/json")

  /** The response for a reply: listings are JSON with status 200, a stored
      chat or message is an empty 200, and a miss an empty 404. */
  function Render(reply: Reply, json: Json): (r: Codec.Response)
    ensures r.version == Codec.Http11
    ensures r.status == if reply.NotFound? then 404 else 200
    ensures reply.Stored? || reply.NotFound? ==> r.headers == [] && r.body == ""
    ensures reply.ChatList? ==> r.headers == [JSON_HEADER] && r.body == json.encodeChats(reply.chats)
    ensures reply.MessageList? ==> r.headers == [JSON_HEADER] && r.body == json.encodeMessages(reply.messages)
  {
    match reply
    case ChatList(cs) => Codec.Response(Codec.Http11, 200, [JSON_HEADER], json.encodeChats(cs))
    case MessageList(ms) => Codec.Response(Codec.Http11, 200, [JSON_HEADER], json.encodeMessages(ms))
    case Stored => Codec.NewResponse(200, "")
    case NotFound => Codec.NewResponse(404, "")
  }

  function RenderResult(r: Result<Reply>, json: Json): Result<Codec.Response>
  {
    match r
    case Err(e) => Err(e)
    case Ok(reply) => Ok(Render(reply, json))
  }

  // ---------------------------------------------------------------------------
  // The service object

  class App {
    const contacts: Contacts
    const json: Json
    var chats: map<I64, Chat>
    var users: map<I64, set<I64>>

    /** Every chat is stored under its own identifier, each in its own object. */
    ghost predicate Valid()
      reads this
    {
      && (forall k :: k in chats ==> chats[k].id == k)
      && (forall j, k :: j in chats && k in chats && j != k ==> chats[j] != chats[k])
    }

    ghost function Value(): AppState
      reads this, chats.Values
    {
      AppState(map k | k in chats :: chats[k].Record(), users)
    }

    /** The state `main` starts the server with: no chats, no users. */
    constructor (contacts: Contacts, json: Json)
      ensures Valid()
      ensures this.contacts == contacts && this.json == json
      ensures Value() == AppState(map[], map[])
    {
      this.contacts := contacts;
      this.json := json;
      chats := map[];
      users := map[];
    }

    /** The closure given to `Server::new`. */
    method Handle(req: Codec.Request) returns (r: Result<Codec.Response>)
      requires Valid() && Routable(req.httpMethod, req.uri)
      modifies this, chats.Values
      ensures Valid()
      ensures r == RenderResult(Respond(old(Value()), contacts, json, req).0, json)
      ensures Value() == Respond(old(Value()), contacts, json, req).1
    {
      var reply := Route(req);
      match reply {
        case Err(e) => r := Err(e);
        case Ok(x) => r := Ok(Render(x, json));
      }
    }

    /** The `match` on method and `path_and_query()`. */
    method Route(req: Codec.Request) returns (r: Result<Reply>)
      requires Valid() && Routable(req.httpMethod, req.uri)
      modifies this, chats.Values
      ensures Valid()
      ensures (r, Value()) == Respond(old(Value()), contacts, json, req)
    {
      var path := PathAndQuery(req.uri);
      match req.httpMethod {
        case Get => r := RouteGet(path);
        case Post => r := RoutePost(path, req.body);
        case Extension(_) => r := Ok(NotFound);
      }
    }

    /** The GET arms: a user's chats, then a chat's messages. */
    method RouteGet(path: string) returns (r: Result<Reply>)
      requires Valid() && RouteDefined(path)
      ensures (r, Value()) == Dispatch(Value(), contacts, json, Codec.Get, path, "")
    {
      var user := MatchUserChats(path);
      if user.Some? {
        r := ListChatsOf(user.value);
        return;
      }
      var chat := MatchChatMessages(path);
      if chat.Some? {
        r := MessagesOf(chat.value);
        return;
      }
      return Ok(NotFound);
    }

    /** The POST arms: a new chat, then a new message. */
    method RoutePost(path: string, body: string) returns (r: Result<Reply>)
      requires Valid() && RouteDefined(path)
      modifies this, chats.Values
      ensures Valid()
      ensures (r, Value()) == Dispatch(old(Value()), contacts, json, Codec.Post, path, body)
    {
      var isChats := MatchChats(path);
      if isChats {
        r := AddChat(json.decodeChat(body));
        return;
      }
      var chat := MatchChatMessages(path);
      if chat.Some? {
        r := AddMessage(json.decodeMessage(body), chat.value);
        return;
      }
      return Ok(NotFound);
    }

    /** GET /chats?userId=...: the chats listed for the user that exist,
        collected by walking the user's set. */
    method ListChatsOf(text: string) returns (r: Result<Reply>)
      requires Valid()
      ensures r == ListChats(Value(), text)
    {
      var user :- Parse(text);
      if user !in users {
        return Err(NO_CHATS);
      }
      var todo := users[user];
      ghost var done: set<I64> := {};
      var found: set<ChatInfo> := {};
      while todo != {}
        invariant todo + done == users[user] && todo !! done
        invariant found == set id | id in done && id in chats :: chats[id].Info()
        decreases |todo|
      {
        var id :| id in todo;
        if id in chats {
          found := found + {chats[id].Info()};
        }
        todo := todo - {id};
        done := done + {id};
      }
      assert found == ChatsOf(Value(), user);
      return Ok(ChatList(found));
    }

    /** GET /chats/{chat_id}/messages. */
    method MessagesOf(text: string) returns (r: Result<Reply>)
      requires Valid()
      ensures r == ListMessages(Value(), text)
    {
      var id :- Parse(text);
      if id !in chats {
        return Err(NO_SUCH_CHAT);
      }
      return Ok(MessageList(chats[id].messages));
    }

    /** POST /chats. */
    method AddChat(body: Result<ChatInfo>) returns (r: Result<Reply>)
      requires Valid()
      modifies this
      ensures Valid()
      ensures (r, Value()) == CreateChat(old(Value()), body)
    {
      var c :- body;
      ghost var before := Value();
      var first := c.participantIds.0;
      users := users[first := (if first in users then users[first] else {}) + {c.id}];
      var second := c.participantIds.1;
      users := users[second := (if second in users then users[second] else {}) + {c.id}];
      var chat := new Chat(c.id, c.participantIds);
      chats := chats[c.id := chat];
      ghost var expected := before.chats[c.id := NewChat(c)];
      assert Value().chats.Keys == expected.Keys;
      forall k | k in expected
        ensures Value().chats[k] == expected[k]
      {
        if k != c.id {
          assert chats[k] == old(chats)[k];
        }
      }
      assert Value().chats == expected;
      return Ok(Stored);
    }

    /** POST /chats/{chat_id}/messages. */
    method AddMessage(body: Result<Message>, text: string) returns (r: Result<Reply>)
      requires Valid()
      modifies chats.Values
      ensures Valid()
      ensures (r, Value()) == PostMessage(old(Value()), contacts, body, text)
    {
      var m :- body;
      if m.sourceUserId !in contacts {
        return Err(NOT_A_CONTACT);
      }
      var id :- Parse(text);
      if id !in chats {
        return Err(MISSING_CHAT);
      }
      ghost var before := Value();
      var chat := chats[id];
      chat.AddMessage(m);
      assert Value().chats == before.chats[id := Post(before.chats[id], m)];
      return Ok(Stored);
    }
  }
}
