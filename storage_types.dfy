/** The records of the conversation store (src/catgpt/storage/types.py). */
module StorageTypes {
  import opened Wrappers

  /**
   * One turn of a topic. `mediaUrl` is None until the message is decoded from storage or
   * set by a handler; `content` is always a string here (Python's None content is not modelled).
   */
  datatype Message = Message(
    role: string,
    content: string,
    messageId: int,
    chatId: int,
    topicId: int,
    ts: int,
    messageType: int,
    mediaUrl: Option<string>)

  /** `types.Message(role, content, message_id, chat_id, topic_id, ts, message_type)` */
  function NewMessage(role: string, content: string, messageId: int, chatId: int,
                      topicId: int, ts: int, messageType: int := 0): (m: Message)
    ensures m.mediaUrl == None && m.topicId == topicId && m.messageType == messageType
  {
    Message(role, content, messageId, chatId, topicId, ts, messageType, None)
  }

  /** A conversation thread; `topicLabel` is the source's `label` (a Dafny keyword). A thread id of 0 stands for Python's `None` (stored as `thread_id or 0`). */
  datatype Topic = Topic(
    tid: int,
    topicLabel: string,
    chatId: int,
    userId: int,
    title: string,
    generateTitle: bool,
    threadId: int,
    messages: seq<Message>)

  /** Per (uid, chat_id, thread_id) session settings. */
  datatype Profile = Profile(
    uid: int,
    model: string,
    endpoint: string,
    prompt: string,
    chatType: int,
    chatId: int,
    threadId: int,
    topicId: int)

  datatype User = User(uid: int, blocked: int)

  datatype GroupInfo = GroupInfo(chatId: int, respondMessage: int)
}
