/**
 * The topic service of src/catgpt/topic.py: conversation threads and their messages over
 * the topic storage. A failed `assert` of the source becomes an `Err` that leaves the
 * tables untouched; the uuid labels the source draws are parameters.
 */
module TopicService {
  import opened Wrappers
  import opened Seqs
  import opened StorageTypes
  import opened Sqlite3SessionStorage

  /** The fields of a Telegram message the service reads. */
  datatype TgMessage = TgMessage(text: string, messageId: int, chatId: int, date: int)

  /** Lines 20-37: the user's turn at its date, the assistant's at its own date plus one, both under `topicId`. */
  function Exchange(topicId: int, user: TgMessage, assistant: TgMessage): (ms: seq<Message>)
    ensures |ms| == 2
    ensures ms[0].role == "user" && ms[1].role == "assistant"
    ensures ms[0].content == user.text && ms[1].content == assistant.text
    ensures ms[0].messageId == user.messageId && ms[1].messageId == assistant.messageId
    ensures ms[0].chatId == user.chatId && ms[1].chatId == assistant.chatId
    ensures ms[0].ts == user.date && ms[1].ts == assistant.date + 1
    ensures forall i :: 0 <= i < 2 ==> ms[i].topicId == topicId && ms[i].messageType == 0 && ms[i].mediaUrl == None
  {
    [NewMessage("user", user.text, user.messageId, user.chatId, topicId, user.date),
     NewMessage("assistant", assistant.text, assistant.messageId, assistant.chatId, topicId, assistant.date + 1)]
  }

  /** The messages of a batch with their topic id set to `tid` (lines 78-79). */
  function Restamped(ms: seq<Message>, tid: int): (r: seq<Message>)
    ensures |r| == |ms|
    ensures forall i :: 0 <= i < |ms| ==> r[i] == ms[i].(topicId := tid)
  {
    if ms == [] then [] else Restamped(ms[..|ms| - 1], tid) + [ms[|ms| - 1].(topicId := tid)]
  }

  /** Stamping a batch first does not change the rows it is stored as. */
  lemma RowsIgnoreStamp(ms: seq<Message>, tid: int)
    ensures Rows(tid, Restamped(ms, tid)) == Rows(tid, ms)
  {
  }

  /** Line 70: a listed topic with its own messages. */
  function WithMessages(t: Topic, grouped: map<int, seq<Message>>): (r: Topic)
    ensures r.(messages := t.messages) == t
    ensures r.messages == if t.tid in grouped then grouped[t.tid] else []
  {
    t.(messages := if t.tid in grouped then grouped[t.tid] else [])
  }

  /** Lines 69-70: each listed topic takes its group of messages, or none. */
  method AttachMessages(topics: seq<Topic>, mapping: map<int, seq<Message>>, ghost messages: seq<Message>)
    returns (result: seq<Topic>)
    requires forall k :: k in mapping ==> mapping[k] == OfTopic(messages, k)
    requires forall k :: k !in mapping ==> OfTopic(messages, k) == []
    ensures |result| == |topics|
    ensures forall k :: 0 <= k < |topics| ==> result[k] == topics[k].(messages := OfTopic(messages, topics[k].tid))
  {
    result := [];
    for i := 0 to |topics|
      invariant |result| == i
      invariant forall k :: 0 <= k < i ==> result[k] == topics[k].(messages := OfTopic(messages, topics[k].tid))
    {
      result := result + [WithMessages(topics[i], mapping)];
    }
  }

  /** Lines 78-79: the seed messages re-stamped with the new topic id. */
  method RestampAll(messages: seq<Message>, tid: int) returns (stamped: seq<Message>)
    ensures stamped == Restamped(messages, tid)
  {
    stamped := [];
    for i := 0 to |messages|
      invariant stamped == Restamped(messages[..i], tid)
    {
      assert messages[..i + 1][..i] == messages[..i];
      stamped := stamped + [messages[i].(topicId := tid)];
    }
    assert messages[..|messages|] == messages;
  }

  /** The topic `clear_topic` stores (lines 118-121). */
  function Cleared(topic: Topic, topicLabel: string): (r: Topic)
    ensures r.tid == topic.tid && r.chatId == topic.chatId && r.userId == topic.userId && r.threadId == topic.threadId
    ensures r.generateTitle && r.title == "new topic" && r.topicLabel == topicLabel
  {
    topic.(generateTitle := true, title := "new topic", topicLabel := topicLabel)
  }

  /** Lines 63-67: the messages grouped by topic id, each group in the order given. */
  method GroupByTopic(messages: seq<Message>) returns (mapping: map<int, seq<Message>>)
    ensures forall k :: k in mapping ==> mapping[k] == OfTopic(messages, k) && mapping[k] != []
    ensures forall k :: k !in mapping ==> OfTopic(messages, k) == []
  {
    mapping := map[];
    for i := 0 to |messages|
      invariant forall k :: k in mapping ==> mapping[k] == OfTopic(messages[..i], k) && mapping[k] != []
      invariant forall k :: k !in mapping ==> OfTopic(messages[..i], k) == []
    {
      var m := messages[i];
      assert messages[..i + 1] == messages[..i] + [m];
      forall k {
        OfTopicSnoc(messages[..i], m, k);
      }
      if m.topicId !in mapping {
        mapping := mapping[m.topicId := []];
      }
      mapping := mapping[m.topicId := mapping[m.topicId] + [m]];
    }
    assert messages[..|messages|] == messages;
  }

  class Topics {
    const storage: Sqlite3TopicStorage

    constructor (storage: Sqlite3TopicStorage)
      ensures this.storage == storage
    {
      this.storage := storage;
    }

    /** Lines 12-13 */
    method GetMessages(topicIds: seq<int>) returns (result: seq<Message>)
      ensures result == DecodeAll(MessagesOf(storage.messages, topicIds))
    {
      result := storage.GetMessages(topicIds);
    }

    /** Lines 15-39: one exchange appended to the topic, the user's turn first. */
    method AppendMessages(topicId: int, user: TgMessage, assistant: TgMessage)
      modifies storage
      ensures storage.messages == old(storage.messages) + Rows(topicId, Exchange(topicId, user, assistant))
      ensures storage.topics == old(storage.topics) && storage.nextTid == old(storage.nextTid)
    {
      storage.AppendMessage(topicId, Exchange(topicId, user, assistant));
    }

    /** Lines 41-45 */
    method RemoveMessages(topicId: int, messageIds: seq<int>) returns (r: Result<()>)
      modifies storage
      ensures r.Err? <==> topicId <= 0 || messageIds == []
      ensures r.Err? ==> storage.messages == old(storage.messages)
      ensures r.Ok? ==> storage.messages == WithoutMessages(old(storage.messages), topicId, messageIds)
      ensures storage.topics == old(storage.topics) && storage.nextTid == old(storage.nextTid)
    {
      if topicId <= 0 {
        return Err("Invalid topic id");
      }
      if messageIds == [] {
        return Err("message ids cannot be empty");
      }
      storage.RemoveMessages(topicId, messageIds);
      r := Ok(());
    }

    /** Lines 47-56: the topic row, with its decoded messages when asked for. */
    method GetTopic(topicId: int, fetchMessages: bool) returns (r: Option<Topic>)
      ensures r.None? <==> storage.GetTopic(topicId).None?
      ensures r.Some? ==> r.value == storage.GetTopic(topicId).value.(messages :=
        if fetchMessages then DecodeAll(MessagesOf(storage.messages, [topicId]))
        else storage.GetTopic(topicId).value.messages)
    {
      var topic := storage.GetTopic(topicId);
      if topic.None? {
        return None;
      }
      var t := topic.value;
      if fetchMessages {
        var messages := GetMessages([topicId]);
        t := t.(messages := messages);
      }
      r := Some(t);
    }

    /**
     * Lines 58-72: the listed topics, each carrying exactly its own stored messages, decoded
     * and in rowid order.
     */
    method ListTopics(uid: int, chatId: int, threadId: int) returns (result: seq<Topic>)
      ensures |result| == |storage.ListTopics(uid, chatId, threadId)|
      ensures forall i :: 0 <= i < |result| ==>
        result[i] == storage.ListTopics(uid, chatId, threadId)[i].(messages :=
          DecodeAll(OfTopic(storage.messages, storage.ListTopics(uid, chatId, threadId)[i].tid)))
    {
      var topics := storage.ListTopics(uid, chatId, threadId);
      var topicIds := seq(|topics|, i requires 0 <= i < |topics| => topics[i].tid);
      var messages := GetMessages(topicIds);

      var mapping := GroupByTopic(messages);
      result := AttachMessages(topics, mapping, messages);
      forall k | 0 <= k < |result|
        ensures result[k] == topics[k].(messages := DecodeAll(OfTopic(storage.messages, topics[k].tid)))
      {
        assert topicIds[k] == topics[k].tid;
        GroupedSelection(storage.messages, topicIds, topics[k].tid);
      }
    }

    /**
     * Lines 74-82: the topic row under a fresh id, then its seed messages re-stamped with that
     * id; the topic comes back carrying the id and the re-stamped messages.
     */
    method CreateTopic(topic: Topic) returns (created: Topic)
      requires storage.Valid()
      modifies storage
      ensures storage.Valid()
      ensures created == topic.(tid := old(storage.nextTid), messages := Restamped(topic.messages, created.tid))
      ensures created.tid > 0 && forall i :: 0 <= i < |old(storage.topics)| ==> old(storage.topics)[i].tid != created.tid
      ensures storage.topics == old(storage.topics) + [TopicRow(topic, created.tid)]
      ensures storage.messages == old(storage.messages) + Rows(created.tid, topic.messages)
      ensures storage.GetTopic(created.tid) == Some(TopicRow(topic, created.tid))
      ensures MessagesOf(storage.messages, [created.tid])
        == MessagesOf(old(storage.messages), [created.tid]) + Rows(created.tid, topic.messages)
    {
      var tid := storage.CreateTopic(topic);
      var messages := topic.messages;
      if messages != [] {
        messages := RestampAll(messages, tid);
        RowsIgnoreStamp(topic.messages, tid);
        storage.AppendMessage(tid, messages);
      } else {
        assert old(storage.messages) + Rows(tid, topic.messages) == old(storage.messages);
      }
      AppendedRowsAreSelected(old(storage.messages), tid, topic.messages, [tid]);
      assert storage.GetTopic(tid) == Some(TopicRow(topic, tid));
      created := topic.(tid := tid, messages := Restamped(topic.messages, tid));
    }

    /** Lines 84-86 */
    method UpdateTopic(topic: Topic) returns (r: Result<()>)
      requires storage.Valid()
      modifies storage
      ensures storage.Valid()
      ensures r.Err? <==> topic.tid <= 0
      ensures r.Err? ==> storage.topics == old(storage.topics)
      ensures r.Ok? && old(storage.GetTopic(topic.tid)).Some? ==> storage.GetTopic(topic.tid) == Some(TopicRow(topic, topic.tid))
      ensures storage.messages == old(storage.messages) && storage.nextTid == old(storage.nextTid)
    {
      if topic.tid <= 0 {
        return Err("Topic id must be > 0");
      }
      storage.UpdateTopic(topic);
      r := Ok(());
    }

    /** Lines 88-108: a topic with the given fields and seed messages, created under a fresh id. */
    method NewTopic(title: string, chatId: int, userId: int, threadId: int, messages: seq<Message>,
                    generateTitle: bool, topicLabel: string) returns (created: Topic)
      requires storage.Valid()
      modifies storage
      ensures storage.Valid()
      ensures created.tid == old(storage.nextTid) && created.tid > 0
      ensures created == Topic(created.tid, topicLabel, chatId, userId, title, generateTitle, threadId, Restamped(messages, created.tid))
      ensures storage.GetTopic(created.tid) == Some(Topic(created.tid, topicLabel, chatId, userId, title, generateTitle, threadId, []))
      ensures storage.messages == old(storage.messages) + Rows(created.tid, messages)
    {
      var topic := Topic(0, topicLabel, chatId, userId, title, generateTitle, threadId, []);
      if messages != [] {
        topic := topic.(messages := messages);
      }
      created := CreateTopic(topic);
    }

    /**
     * Lines 110-121: the topic's messages are replaced by the prompt alone (or nothing), and
     * it is renamed "new topic" with a fresh label and title generation switched on.
     */
    method ClearTopic(topic: Topic, prompt: Option<Message>, topicLabel: string) returns (r: Result<Topic>)
      requires storage.Valid()
      modifies storage
      ensures storage.Valid()
      ensures r.Err? <==> topic.tid <= 0
      ensures r.Err? ==> storage.messages == old(storage.messages) && storage.topics == old(storage.topics)
      ensures r.Ok? ==> r.value == Cleared(topic, topicLabel)
      ensures r.Ok? ==> (storage.messages ==
        Filter(old(storage.messages), (m: Message) => m.topicId != topic.tid)
        + (if prompt.Some? then Rows(topic.tid, [prompt.value]) else []))
      ensures r.Ok? && old(storage.GetTopic(topic.tid)).Some? ==>
        storage.GetTopic(topic.tid) == Some(TopicRow(Cleared(topic, topicLabel), topic.tid))
    {
      if topic.tid <= 0 {
        return Err("Topic id must be > 0");
      }
      storage.RemoveMessageByTopic(topic.tid);
      ghost var kept := storage.messages;
      if prompt.Some? {
        storage.AppendMessage(topic.tid, [prompt.value]);
      } else {
        assert kept + [] == kept;
      }
      var cleared := Cleared(topic, topicLabel);
      storage.UpdateTopic(cleared);
      r := Ok(cleared);
    }

    /** Lines 123-128: the topic row and all of its messages are gone. */
    method RemoveTopic(topicId: int) returns (r: Result<()>)
      requires storage.Valid()
      modifies storage
      ensures storage.Valid()
      ensures r.Err? <==> topicId <= 0
      ensures r.Err? ==> storage.messages == old(storage.messages) && storage.topics == old(storage.topics)
      ensures r.Ok? ==> storage.topics == WithoutTopic(old(storage.topics), topicId)
      ensures r.Ok? ==> storage.messages == Filter(old(storage.messages), (m: Message) => m.topicId != topicId)
      ensures r.Ok? ==> storage.GetTopic(topicId) == None && MessagesOf(storage.messages, [topicId]) == []
    {
      if topicId <= 0 {
        return Err("Topic id must be > 0");
      }
      storage.DeleteTopic(topicId);
      storage.RemoveMessageByTopic(topicId);
      r := Ok(());
    }
  }
}
