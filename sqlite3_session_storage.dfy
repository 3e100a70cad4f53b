/**
 * The sqlite3 tables of src/catgpt/storage/sqlite3_session_storage.py, kept in memory in
 * insertion (rowid) order: `Sqlite3TopicStorage` (tables `topic` and `message`),
 * `Sqlite3ProfileStorage` (table `profile`) and `Sqlite3UserStorage` (table `users`).
 * Each storage call is one update of its table that always succeeds. Module Tx models
 * the connection operations of the transaction around it, not their effect on the tables.
 */
module Sqlite3SessionStorage {
  import opened Wrappers
  import opened PyStr
  import opened Seqs
  import opened StorageTypes
  import opened Types

  /** The f-string rendering of a media url: Python formats `None` as "None". */
  function MediaText(url: Option<string>): string {
    match url
    case None => "None"
    case Some(u) => u
  }

  /** Lines 85-88 and 96-98: a photo is stored as `media_url,content`; other types as they are. */
  function EncodeContent(m: Message): (c: string)
    ensures m.messageType != PHOTO ==> c == m.content
    ensures m.messageType == PHOTO ==> |c| == |MediaText(m.mediaUrl)| + 1 + |m.content|
  {
    if m.messageType == PHOTO then MediaText(m.mediaUrl) + "," + m.content else m.content
  }

  /**
   * Lines 75-83: a stored photo gets the text before the first comma as its media url, and
   * the second comma-separated field, when there is one, as its content.
   */
  function DecodeContent(m: Message): (r: Message)
    ensures m.messageType != PHOTO ==> r == m
    ensures m.messageType == PHOTO ==>
      && r.(content := m.content, mediaUrl := m.mediaUrl) == m
      && r.mediaUrl.Some? && ',' !in r.mediaUrl.value
      && StartsWith(m.content, r.mediaUrl.value)
      && (',' !in m.content ==> r.content == m.content)
  {
    if m.messageType == PHOTO then
      var segments := Split(m.content, ',');
      SplitHead(m.content, ',');
      m.(content := if |segments| > 1 then segments[1] else m.content, mediaUrl := Some(segments[0]))
    else m
  }

  /** The row `append_message` writes for `m` (lines 95-109): the argument topic id, the encoded content, no media url column. */
  function Row(topicId: int, m: Message): (row: Message)
    ensures row.topicId == topicId && row.mediaUrl == None
    ensures row.(content := m.content, topicId := m.topicId, mediaUrl := m.mediaUrl) == m
    ensures row.content == EncodeContent(m)
  {
    m.(content := EncodeContent(m), topicId := topicId, mediaUrl := None)
  }

  /** Reading a stored non-photo message back: it comes back with no media url. */
  lemma PlainRowReadBack(topicId: int, m: Message)
    requires m.messageType != PHOTO
    ensures DecodeContent(Row(topicId, m)) == m.(topicId := topicId, mediaUrl := None)
  {
  }

  /**
   * The packing codec round-trips a photo exactly when it has a media url and neither the
   * url nor the content holds a comma.
   */
  lemma {:induction false} PhotoRowReadBack(topicId: int, m: Message)
    requires m.messageType == PHOTO
    ensures DecodeContent(Row(topicId, m)) == m.(topicId := topicId)
        <==> m.mediaUrl.Some? && ',' !in m.mediaUrl.value && ',' !in m.content
  {
    var u := MediaText(m.mediaUrl);
    var c := m.content;
    var stored := Row(topicId, m);
    assert stored.content == u + [','] + c;
    var segments := Split(stored.content, ',');
    var back := DecodeContent(stored);
    assert back.mediaUrl == Some(segments[0]);
    SplitHead(stored.content, ',');
    if ',' !in u {
      SplitAppend(u, ',', c);
      assert segments == [u] + Split(c, ',');
      SplitHead(c, ',');
      assert back.content == Split(c, ',')[0];
      if ',' !in c {
        SplitNoSep(c, ',');
      }
      if m.mediaUrl.None? {
        assert back.mediaUrl != m.mediaUrl;
      }
    } else {
      assert segments[0] != u;
      assert back.mediaUrl != m.mediaUrl;
    }
  }

  /** The rows of `insert ... executemany` for a batch, in input order. */
  function Rows(topicId: int, ms: seq<Message>): (rows: seq<Message>)
    ensures |rows| == |ms|
    ensures forall i :: 0 <= i < |ms| ==> rows[i] == Row(topicId, ms[i])
  {
    if ms == [] then [] else Rows(topicId, ms[..|ms| - 1]) + [Row(topicId, ms[|ms| - 1])]
  }

  /** `select * from message where topic_id IN (...)` */
  function MessagesOf(rows: seq<Message>, topicIds: seq<int>): (r: seq<Message>)
    ensures forall i :: 0 <= i < |r| ==> r[i] in rows && r[i].topicId in topicIds
    ensures forall i :: 0 <= i < |rows| && rows[i].topicId in topicIds ==> rows[i] in r
  {
    Filter(rows, (m: Message) => m.topicId in topicIds)
  }

  /** Every message of a batch appended to a topic is read back, after the older ones, by a query naming that topic. */
  lemma AppendedRowsAreSelected(rows: seq<Message>, topicId: int, ms: seq<Message>, topicIds: seq<int>)
    requires topicId in topicIds
    ensures MessagesOf(rows + Rows(topicId, ms), topicIds) == MessagesOf(rows, topicIds) + Rows(topicId, ms)
  {
    var p := (m: Message) => m.topicId in topicIds;
    FilterAppend(rows, Rows(topicId, ms), p);
    FilterAll(Rows(topicId, ms), p);
  }

  /** A batch appended to a topic is invisible to a query that does not name it. */
  lemma AppendedRowsAreNotSelected(rows: seq<Message>, topicId: int, ms: seq<Message>, topicIds: seq<int>)
    requires topicId !in topicIds
    ensures MessagesOf(rows + Rows(topicId, ms), topicIds) == MessagesOf(rows, topicIds)
  {
    var p := (m: Message) => m.topicId in topicIds;
    FilterAppend(rows, Rows(topicId, ms), p);
    FilterNone(Rows(topicId, ms), p);
  }

  /** Every row decoded, as `get_messages` does (lines 188-191). */
  function DecodeAll(rows: seq<Message>): (r: seq<Message>)
    ensures |r| == |rows|
    ensures forall i :: 0 <= i < |rows| ==> r[i] == DecodeContent(rows[i])
  {
    if rows == [] then [] else DecodeAll(rows[..|rows| - 1]) + [DecodeContent(rows[|rows| - 1])]
  }

  /** Stored non-photo messages are read back as they were given, under the batch's topic id. */
  lemma {:induction false} PlainRowsReadBack(topicId: int, ms: seq<Message>)
    requires forall i :: 0 <= i < |ms| ==> ms[i].messageType != PHOTO && ms[i].mediaUrl == None
    ensures DecodeAll(Rows(topicId, ms)) == seq(|ms|, i requires 0 <= i < |ms| => ms[i].(topicId := topicId))
  {
    var back := DecodeAll(Rows(topicId, ms));
    forall i | 0 <= i < |ms|
      ensures back[i] == ms[i].(topicId := topicId)
    {
      PlainRowReadBack(topicId, ms[i]);
    }
  }

  /** The messages of one topic. */
  function OfTopic(rows: seq<Message>, tid: int): (r: seq<Message>)
    ensures forall i :: 0 <= i < |r| ==> r[i] in rows && r[i].topicId == tid
    ensures forall i :: 0 <= i < |rows| && rows[i].topicId == tid ==> rows[i] in r
  {
    Filter(rows, (m: Message) => m.topicId == tid)
  }

  lemma MessagesOfSnoc(rows: seq<Message>, x: Message, topicIds: seq<int>)
    ensures MessagesOf(rows + [x], topicIds) == MessagesOf(rows, topicIds) + (if x.topicId in topicIds then [x] else [])
  {
    assert (rows + [x])[..|rows|] == rows;
  }

  lemma OfTopicSnoc(rows: seq<Message>, x: Message, tid: int)
    ensures OfTopic(rows + [x], tid) == OfTopic(rows, tid) + (if x.topicId == tid then [x] else [])
  {
    assert (rows + [x])[..|rows|] == rows;
  }

  lemma DecodeAllSnoc(rows: seq<Message>, x: Message)
    ensures DecodeAll(rows + [x]) == DecodeAll(rows) + [DecodeContent(x)]
  {
    assert (rows + [x])[..|rows|] == rows;
  }

  /**
   * Grouping the decoded result of one query over several topics by topic id gives each
   * topic exactly its own stored messages, decoded, in rowid order.
   */
  lemma {:induction false} GroupedSelection(rows: seq<Message>, topicIds: seq<int>, tid: int)
    requires tid in topicIds
    ensures OfTopic(DecodeAll(MessagesOf(rows, topicIds)), tid) == DecodeAll(OfTopic(rows, tid))
  {
    if rows != [] {
      var init := rows[..|rows| - 1];
      var x := rows[|rows| - 1];
      assert rows == init + [x];
      GroupedSelection(init, topicIds, tid);
      var sel := MessagesOf(init, topicIds);
      var own := OfTopic(init, tid);
      MessagesOfSnoc(init, x, topicIds);
      OfTopicSnoc(init, x, tid);
      if x.topicId in topicIds {
        DecodeAllSnoc(sel, x);
        OfTopicSnoc(DecodeAll(sel), DecodeContent(x), tid);
        if x.topicId == tid {
          DecodeAllSnoc(own, x);
        }
      }
    }
  }

  /** `delete from message where topic_id = ? and message_id in (...)` keeps the other rows. */
  function WithoutMessages(rows: seq<Message>, topicId: int, messageIds: seq<int>): (r: seq<Message>)
    ensures forall i :: 0 <= i < |r| ==> r[i] in rows && !(r[i].topicId == topicId && r[i].messageId in messageIds)
    ensures forall i :: 0 <= i < |rows| && !(rows[i].topicId == topicId && rows[i].messageId in messageIds) ==> rows[i] in r
  {
    Filter(rows, (m: Message) => !(m.topicId == topicId && m.messageId in messageIds))
  }

  /** `delete from topic where tid = ?` */
  function WithoutTopic(rows: seq<Topic>, tid: int): (r: seq<Topic>)
    ensures forall i :: 0 <= i < |r| ==> r[i] in rows && r[i].tid != tid
    ensures forall i :: 0 <= i < |rows| && rows[i].tid != tid ==> rows[i] in r
  {
    Filter(rows, (t: Topic) => t.tid != tid)
  }

  /** The row of topic `tid`: the first one with that id. */
  function FindTopic(rows: seq<Topic>, tid: int): (r: Option<Topic>)
    ensures r.Some? ==> r.value in rows && r.value.tid == tid
    ensures r.None? <==> forall i :: 0 <= i < |rows| ==> rows[i].tid != tid
  {
    match FirstIndex(rows, (t: Topic) => t.tid == tid)
    case None => None
    case Some(k) => Some(rows[k])
  }

  /** Lines 210-214: `user_id` and `chat_id` always filter; `thread_id` only when it is not 0. */
  predicate ListedIn(t: Topic, uid: int, chatId: int, threadId: int) {
    t.userId == uid && t.chatId == chatId && (threadId != 0 ==> t.threadId == threadId)
  }

  /** The row a topic is stored as (lines 245-253): it carries no messages. */
  function TopicRow(topic: Topic, tid: int): (row: Topic)
    ensures row.tid == tid && row.messages == []
    ensures row.(tid := topic.tid, messages := topic.messages) == topic
  {
    topic.(tid := tid, messages := [])
  }

  class Sqlite3TopicStorage {
    var topics: seq<Topic>
    var messages: seq<Message>
    /** The rowid sqlite assigns to the next topic. */
    var nextTid: int

    /** Topic rows hold no messages and carry ids below the next rowid. */
    ghost predicate Valid()
      reads this
    {
      && nextTid >= 1
      && forall i :: 0 <= i < |topics| ==> 0 < topics[i].tid < nextTid && topics[i].messages == []
    }

    constructor ()
      ensures Valid() && topics == [] && messages == []
    {
      topics := [];
      messages := [];
      nextTid := 1;
    }

    /** Lines 91-114: every message is stored under the argument topic id, in input order. */
    method AppendMessage(topicId: int, batch: seq<Message>)
      modifies this
      ensures messages == old(messages) + Rows(topicId, batch)
      ensures topics == old(topics) && nextTid == old(nextTid)
    {
      var tuples: seq<Message> := [];
      for i := 0 to |batch|
        invariant tuples == Rows(topicId, batch[..i])
      {
        assert batch[..i + 1][..i] == batch[..i];
        tuples := tuples + [Row(topicId, batch[i])];
      }
      assert batch[..|batch|] == batch;
      messages := messages + tuples;
    }

    /** Lines 176-193: the stored messages of the given topics, decoded, in rowid order. */
    method GetMessages(topicIds: seq<int>) returns (result: seq<Message>)
      ensures result == DecodeAll(MessagesOf(messages, topicIds))
    {
      var records := MessagesOf(messages, topicIds);
      result := [];
      for i := 0 to |records|
        invariant result == DecodeAll(records[..i])
      {
        assert records[..i + 1][..i] == records[..i];
        result := result + [DecodeContent(records[i])];
      }
      assert records[..|records|] == records;
    }

    /** Lines 196-203 */
    function GetTopic(tid: int): (r: Option<Topic>)
      reads this
      ensures r.Some? ==> r.value in topics && r.value.tid == tid
      ensures r.None? <==> forall i :: 0 <= i < |topics| ==> topics[i].tid != tid
    {
      FindTopic(topics, tid)
    }

    /** Lines 206-220 */
    function ListTopics(uid: int, chatId: int, threadId: int): (r: seq<Topic>)
      reads this
      ensures forall i :: 0 <= i < |r| ==> r[i] in topics && ListedIn(r[i], uid, chatId, threadId)
      ensures forall i :: 0 <= i < |topics| && ListedIn(topics[i], uid, chatId, threadId) ==> topics[i] in r
    {
      Filter(topics, (t: Topic) => ListedIn(t, uid, chatId, threadId))
    }

    /** Lines 223-226: only the topic row goes; its messages stay. */
    method DeleteTopic(tid: int)
      requires Valid()
      modifies this
      ensures Valid()
      ensures topics == WithoutTopic(old(topics), tid)
      ensures messages == old(messages) && nextTid == old(nextTid)
      ensures GetTopic(tid) == None
    {
      topics := WithoutTopic(topics, tid);
    }

    /** Lines 229-235 */
    method RemoveMessages(topicId: int, messageIds: seq<int>)
      modifies this
      ensures messages == WithoutMessages(old(messages), topicId, messageIds)
      ensures topics == old(topics) && nextTid == old(nextTid)
    {
      messages := WithoutMessages(messages, topicId, messageIds);
    }

    /** Lines 238-240: afterwards no message of the topic is stored. */
    method RemoveMessageByTopic(topicId: int)
      modifies this
      ensures messages == Filter(old(messages), (m: Message) => m.topicId != topicId)
      ensures MessagesOf(messages, [topicId]) == []
      ensures topics == old(topics) && nextTid == old(nextTid)
    {
      messages := Filter(messages, (m: Message) => m.topicId != topicId);
      FilterNone(messages, (m: Message) => m.topicId in [topicId]);
    }

    /** Lines 243-257: a new row under a fresh rowid, which is returned; no message is stored. */
    method CreateTopic(topic: Topic) returns (tid: int)
      requires Valid()
      modifies this
      ensures Valid()
      ensures tid == old(nextTid) && tid > 0
      ensures forall i :: 0 <= i < |old(topics)| ==> old(topics)[i].tid != tid
      ensures topics == old(topics) + [TopicRow(topic, tid)]
      ensures messages == old(messages)
      ensures GetTopic(tid) == Some(TopicRow(topic, tid))
    {
      tid := nextTid;
      topics := topics + [TopicRow(topic, tid)];
      nextTid := nextTid + 1;
      FirstIndexAt(topics, (t: Topic) => t.tid == tid, |topics| - 1);
    }

    /** Lines 260-272: every row with the topic's id takes all of its columns. */
    method UpdateTopic(topic: Topic)
      requires Valid()
      modifies this
      ensures Valid()
      ensures |topics| == |old(topics)|
      ensures forall i :: 0 <= i < |topics| ==>
        topics[i] == if old(topics)[i].tid == topic.tid then TopicRow(topic, topic.tid) else old(topics)[i]
      ensures messages == old(messages) && nextTid == old(nextTid)
      ensures old(GetTopic(topic.tid)).Some? ==> GetTopic(topic.tid) == Some(TopicRow(topic, topic.tid))
      ensures old(GetTopic(topic.tid)).None? ==> topics == old(topics)
    {
      var before := topics;
      topics := seq(|before|, i requires 0 <= i < |before| =>
        if before[i].tid == topic.tid then TopicRow(topic, topic.tid) else before[i]);
      if FindTopic(before, topic.tid).None? {
        assert topics == before;
      } else {
        var k := FirstIndex(before, (t: Topic) => t.tid == topic.tid).value;
        assert FirstIndex(topics, (t: Topic) => t.tid == topic.tid) == Some(k) by {
          assert forall j :: 0 <= j < |topics| ==> (topics[j].tid == topic.tid <==> before[j].tid == topic.tid);
          FirstIndexSame(before, topics, (t: Topic) => t.tid == topic.tid);
        }
      }
    }
  }

  /** Two tables on which a condition holds at the same positions have the same first match. */
  lemma {:induction false} FirstIndexSame<T>(a: seq<T>, b: seq<T>, p: T -> bool)
    requires |a| == |b|
    requires forall j :: 0 <= j < |a| ==> (p(a[j]) <==> p(b[j]))
    ensures FirstIndex(a, p) == FirstIndex(b, p)
  {
    if a != [] && !p(a[0]) {
      FirstIndexSame(a[1..], b[1..], p);
    }
  }

  /** The profile key of lines 322-323 and 347: `(uid, chat_id, thread_id or 0)`. */
  predicate ProfileKeyed(p: Profile, uid: int, chatId: int, threadId: int) {
    p.uid == uid && p.chatId == chatId && p.threadId == threadId
  }

  /** A row after `update profile set model, endpoint, prompt, topic_id` from `profile`. */
  function Reconfigured(row: Profile, profile: Profile): (r: Profile)
    ensures r.(model := row.model, endpoint := row.endpoint, prompt := row.prompt, topicId := row.topicId) == row
    ensures r.model == profile.model && r.endpoint == profile.endpoint
    ensures r.prompt == profile.prompt && r.topicId == profile.topicId
  {
    row.(model := profile.model, endpoint := profile.endpoint, prompt := profile.prompt, topicId := profile.topicId)
  }

  /** The table after `update profile ... where` the key of `profile` (lines 343-359). */
  function UpdatedRows(rows: seq<Profile>, profile: Profile): (r: seq<Profile>)
    ensures |r| == |rows|
    ensures forall i :: 0 <= i < |rows| ==>
      r[i] == if ProfileKeyed(rows[i], profile.uid, profile.chatId, profile.threadId)
              then Reconfigured(rows[i], profile) else rows[i]
  {
    seq(|rows|, i requires 0 <= i < |rows| =>
      if ProfileKeyed(rows[i], profile.uid, profile.chatId, profile.threadId) then Reconfigured(rows[i], profile) else rows[i])
  }

  class Sqlite3ProfileStorage {
    var profiles: seq<Profile>
    var lastRowId: int

    constructor ()
      ensures profiles == [] && lastRowId == 0
    {
      profiles := [];
      lastRowId := 0;
    }

    /** Lines 299-315: the row is appended and its new rowid returned. */
    method CreateProfile(profile: Profile) returns (rowid: int)
      modifies this
      ensures profiles == old(profiles) + [profile]
      ensures rowid == old(lastRowId) + 1 && lastRowId == rowid
    {
      profiles := profiles + [profile];
      lastRowId := lastRowId + 1;
      rowid := lastRowId;
    }

    /** Lines 318-327: the first row with the key, if any. */
    function GetProfile(uid: int, chatId: int, threadId: int): (r: Option<Profile>)
      reads this
      ensures r.Some? ==> r.value in profiles && ProfileKeyed(r.value, uid, chatId, threadId)
      ensures r.None? <==> forall i :: 0 <= i < |profiles| ==> !ProfileKeyed(profiles[i], uid, chatId, threadId)
    {
      match FirstIndex(profiles, (p: Profile) => ProfileKeyed(p, uid, chatId, threadId))
      case None => None
      case Some(k) => Some(profiles[k])
    }

    /**
     * Lines 343-359: the rows keyed like `profile` take its model, endpoint, prompt and topic
     * id. The `uid`, `chat_id` and `thread_id` arguments are not used by the statement.
     */
    method Update(uid: int, chatId: int, threadId: int, profile: Profile)
      modifies this
      ensures profiles == UpdatedRows(old(profiles), profile) && lastRowId == old(lastRowId)
      ensures old(GetProfile(profile.uid, profile.chatId, profile.threadId)).Some? ==>
        GetProfile(profile.uid, profile.chatId, profile.threadId)
          == Some(Reconfigured(old(GetProfile(profile.uid, profile.chatId, profile.threadId)).value, profile))
    {
      var before := profiles;
      var keyed := (p: Profile) => ProfileKeyed(p, profile.uid, profile.chatId, profile.threadId);
      profiles := UpdatedRows(before, profile);
      if FirstIndex(before, keyed).Some? {
        var k := FirstIndex(before, keyed).value;
        assert FirstIndex(profiles, keyed) == Some(k) by {
          FirstIndexSame(before, profiles, keyed);
        }
      }
    }
  }

  class Sqlite3UserStorage {
    var users: seq<User>
    var lastRowId: int

    constructor ()
      ensures users == [] && lastRowId == 0
    {
      users := [];
      lastRowId := 0;
    }

    /** Lines 278-285: the first row with the uid, if any. */
    function GetUser(uid: int): (r: Option<User>)
      reads this
      ensures r.Some? ==> r.value in users && r.value.uid == uid
      ensures r.None? <==> forall i :: 0 <= i < |users| ==> users[i].uid != uid
    {
      match FirstIndex(users, (u: User) => u.uid == uid)
      case None => None
      case Some(k) => Some(users[k])
    }

    /** Lines 288-293: the row is appended and its new rowid returned. */
    method CreateUser(user: User) returns (rowid: int)
      modifies this
      ensures users == old(users) + [user]
      ensures rowid == old(lastRowId) + 1 && lastRowId == rowid
      ensures old(GetUser(user.uid)).None? ==> GetUser(user.uid) == Some(user)
    {
      users := users + [user];
      lastRowId := lastRowId + 1;
      rowid := lastRowId;
      if FirstIndex(old(users), (u: User) => u.uid == user.uid).None? {
        assert forall j :: 0 <= j < |users| - 1 ==> users[j] == old(users)[j];
        FirstIndexAt(users, (u: User) => u.uid == user.uid, |users| - 1);
      }
    }
  }
}
