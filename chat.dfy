/** The chat store of src/chat.rs: a chat between two participants and its
    append-only list of messages. */
module Chats {
  import opened Int64

  /** A message as the client posts it. */
  datatype Message = Message(id: string, sourceUserId: I64, destinationUserId: I64, timestamp: I64, message: string)

  /** The part of a chat that is decoded from and encoded to JSON: the
      messages are skipped both ways. */
  datatype ChatInfo = ChatInfo(id: I64, participantIds: (I64, I64))

  /** A chat as a value: its identity and its messages, oldest first. */
  datatype ChatRecord = ChatRecord(info: ChatInfo, messages: seq<Message>)

  /** A new chat has no messages. */
  function NewChat(info: ChatInfo): ChatRecord
  {
    ChatRecord(info, [])
  }

  /** `add_message` on the value of a chat: the message goes last. */
  function Post(c: ChatRecord, m: Message): ChatRecord
  {
    c.(messages := c.messages + [m])
  }

  /** The chat after posting `ms` one after the other. */
  function PostAll(c: ChatRecord, ms: seq<Message>): ChatRecord
    decreases |ms|
  {
    if ms == [] then c else PostAll(Post(c, ms[0]), ms[1..])
  }

  /** Posting keeps the chat's identity and the messages already there, and
      adds the posted ones after them in the order they were posted. */
  lemma {:induction false} PostAllAppends(c: ChatRecord, ms: seq<Message>)
    ensures PostAll(c, ms).info == c.info
    ensures PostAll(c, ms).messages == c.messages + ms
    decreases |ms|
  {
    if ms != [] {
      PostAllAppends(Post(c, ms[0]), ms[1..]);
      assert c.messages + [ms[0]] + ms[1..] == c.messages + ms;
    }
  }

  /** Messages are numbered by arrival: after posting, the i-th message of
      the chat is the one posted i-th. */
  lemma PostAllOrder(info: ChatInfo, ms: seq<Message>, i: nat)
    requires i < |ms|
    ensures i < |PostAll(NewChat(info), ms).messages|
    ensures PostAll(NewChat(info), ms).messages[i] == ms[i]
  {
    PostAllAppends(NewChat(info), ms);
  }

  class Chat {
    const id: I64
    const participantIds: (I64, I64)
    var messages: seq<Message>

    /** `Chat::new`: the given identity and no messages. */
    constructor (id: I64, participantIds: (I64, I64))
      ensures this.id == id && this.participantIds == participantIds
      ensures messages == []
      ensures Record() == NewChat(ChatInfo(id, participantIds))
    {
      this.id := id;
      this.participantIds := participantIds;
      messages := [];
    }

    function Info(): ChatInfo
    {
      ChatInfo(id, participantIds)
    }

    ghost function Record(): ChatRecord
      reads this
    {
      ChatRecord(Info(), messages)
    }

    /** `add_message`: the message goes last; the earlier messages, the
        identifier and the participants stay as they were. */
    method AddMessage(message: Message)
      modifies this
      ensures messages == old(messages) + [message]
      ensures Record() == Post(old(Record()), message)
    {
      messages := messages + [message];
    }
  }
}
