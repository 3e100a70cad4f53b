/**
 * The `/revoke` command of src/catgpt/commands/revoke.py: choosing the latest messages of
 * a chat in the current topic, asking for confirmation, and removing them from the topic
 * and from the chat. The conversation that `get_convo` loads (profile, then topic with its
 * messages) is a parameter; Telegram calls are returned as values.
 */
module Revoke {
  import opened Wrappers
  import opened PyStr
  import opened Seqs
  import opened StorageTypes
  import opened Sqlite3SessionStorage
  import opened TopicService
  import opened TgBot

  /** The longest text Telegram accepts in one message. */
  const MAX_TEXT_LENGTH: int := 4096

  /** The messages of the chat, in topic order (lines 21-23). */
  function ChatMessages(messages: seq<Message>, chatId: int): (r: seq<Message>)
    ensures |r| <= |messages|
    ensures forall i :: 0 <= i < |r| ==> r[i] in messages && r[i].chatId == chatId
    ensures forall i :: 0 <= i < |messages| && messages[i].chatId == chatId ==> messages[i] in r
  {
    Filter(messages, (m: Message) => m.chatId == chatId)
  }

  predicate IsUser(m: Message) {
    m.role == "user"
  }

  /**
   * How many of the chat's latest messages are revoked: `count` of them (at least one, lines
   * 28-30) or, with no count, back to and including the last user message (lines 32-33);
   * never more than there are.
   */
  function RevokeCount(chat: seq<Message>, count: Option<int>): (n: nat)
    ensures n <= |chat|
    ensures chat != [] ==> n >= 1
  {
    match count
    case Some(c) => if c <= 1 then (if chat == [] then 0 else 1) else if c < |chat| then c else |chat|
    case None =>
      match LastIndex(chat, IsUser)
      case Some(k) => |chat| - k
      case None => |chat|
  }

  /** Lines 17-35 as a selection: the latest `RevokeCount` messages of the chat, in order. */
  function RevokeSelection(messages: seq<Message>, chatId: int, count: Option<int>): (r: seq<Message>)
    ensures var chat := ChatMessages(messages, chatId);
      && |r| <= |chat| && r == chat[|chat| - |r|..]
      && (r == [] <==> chat == [])
      && (count.Some? ==> |r| == if chat == [] then 0 else if count.value < 1 then 1
                                 else if count.value < |chat| then count.value else |chat|)
      && (count.None? ==> (forall k :: 0 < k < |r| ==> !IsUser(r[k]))
                          && (r == chat || IsUser(r[0])))
  {
    var chat := ChatMessages(messages, chatId);
    SuffixStopsAtUser(chat, count);
    chat[|chat| - RevokeCount(chat, count)..]
  }

  /** Without a count, the kept suffix starts at the latest user message and holds no other. */
  lemma SuffixStopsAtUser(chat: seq<Message>, count: Option<int>)
    ensures var r := chat[|chat| - RevokeCount(chat, count)..];
      count.None? ==> (forall k :: 0 < k < |r| ==> !IsUser(r[k])) && (r == chat || IsUser(r[0]))
  {
    if count.Some? {
      return;
    }
    var n := RevokeCount(chat, count);
    var r := chat[|chat| - n..];
    var last := LastIndex(chat, IsUser);
    if last.Some? {
      var k := last.value;
      assert |chat| - n == k;
      forall j | 0 < j < |r|
        ensures !IsUser(r[j])
      {
        assert r[j] == chat[k + j];
      }
      assert r[0] == chat[k];
    } else {
      assert r == chat;
    }
  }

  /**
   * Lines 17-35: walks the messages from the latest back, keeping those of the chat, and
   * stops once `count` are kept or, with no count, once a user message is kept.
   */
  method GetMessagesToRevoke(messages: seq<Message>, chatId: int, count: Option<int>) returns (result: seq<Message>)
    ensures result == RevokeSelection(messages, chatId, count)
  {
    result := [];
    var i := |messages|;
    ghost var stopped := false;
    while i > 0
      invariant 0 <= i <= |messages|
      invariant result == ChatMessages(messages[i..], chatId)
      invariant count.Some? ==> |result| < (if count.value < 1 then 1 else count.value)
      invariant count.None? ==> forall k :: 0 <= k < |result| ==> !IsUser(result[k])
      decreases i
    {
      i := i - 1;
      var msg := messages[i];
      ChatMessagesCons(messages, i, chatId);
      if msg.chatId != chatId {
        continue;
      }
      ghost var later := result;
      result := [msg] + result;
      assert forall k :: 0 < k < |result| ==> result[k] == later[k - 1];
      if count.Some? {
        if |result| >= count.value {
          stopped := true;
          break;
        }
      } else if IsUser(msg) {
        stopped := true;
        break;
      }
    }
    SelectionIsSuffix(messages, chatId, i, count, result, stopped);
  }

  /** One message further back: it joins the front of the chat's messages when it is in the chat. */
  lemma ChatMessagesCons(messages: seq<Message>, i: nat, chatId: int)
    requires i < |messages|
    ensures ChatMessages(messages[i..], chatId)
      == (if messages[i].chatId == chatId then [messages[i]] else []) + ChatMessages(messages[i + 1..], chatId)
  {
    assert messages[i..] == [messages[i]] + messages[i + 1..];
    FilterCons(messages[i], messages[i + 1..], (m: Message) => m.chatId == chatId);
  }

  /** What the walk ends with is the selection: it is a suffix of the chat's messages whose length the stop rule fixes. */
  lemma SelectionIsSuffix(messages: seq<Message>, chatId: int, i: nat, count: Option<int>, result: seq<Message>,
                          stopped: bool)
    requires i <= |messages|
    requires result == ChatMessages(messages[i..], chatId)
    requires stopped ==> result != [] && (if count.Some? then |result| >= count.value else IsUser(result[0]))
    requires !stopped ==> i == 0
    requires count.Some? && !stopped ==> |result| < (if count.value < 1 then 1 else count.value)
    requires count.Some? && stopped ==> |result| <= (if count.value < 1 then 1 else count.value)
    requires count.None? ==> forall k :: 0 < k < |result| ==> !IsUser(result[k])
    requires count.None? && !stopped ==> forall k :: 0 <= k < |result| ==> !IsUser(result[k])
    ensures result == RevokeSelection(messages, chatId, count)
  {
    var inChat := (m: Message) => m.chatId == chatId;
    var chat := ChatMessages(messages, chatId);
    assert messages == messages[..i] + messages[i..];
    FilterAppend(messages[..i], messages[i..], inChat);
    var before := Filter(messages[..i], inChat);
    assert chat == before + result;
    assert result == chat[|before|..];
    var n := RevokeCount(chat, count);
    if !stopped {
      assert before == [];
      if count.None? {
        assert LastIndex(chat, IsUser).None? by {
          assert forall j :: 0 <= j < |chat| ==> !IsUser(chat[j]);
        }
      }
      assert n == |chat|;
    } else if count.None? {
      LastIndexAt(chat, IsUser, |before|);
    }
    assert n == |result|;
  }

  /** The count argument of `/revoke <count>` (line 47): the second word as an integer, if it parses. */
  function CountArgument(text: string): (count: Option<int>)
    ensures |Words(text)| <= 1 ==> count == None
  {
    var words := Words(text);
    if |words| > 1 then ParseInt(words[1]) else None
  }

  /** `/revoke <n>` carries the count `n`. */
  lemma CountOfCommand(command: string, n: int)
    requires command != [] && forall j :: 0 <= j < |command| ==> !IsSpace(command[j])
    ensures CountArgument(command + " " + IntToString(n)) == Some(n)
  {
    var d := IntToString(n);
    IntToStringChars(n);
    WordsOfCommand(command, d);
    ParseIntOfIntToString(n);
  }

  /** One confirmation entry (line 68). */
  function Entry(m: Message): string {
    "### " + m.role + "\n" + m.content + "\n\n"
  }

  /** The entries of the selected messages, in order. */
  function Entries(ms: seq<Message>): (r: string)
    ensures ms == [] ==> r == ""
  {
    if ms == [] then "" else Entries(ms[..|ms| - 1]) + Entry(ms[|ms| - 1])
  }

  /** Lines 71-72: a text above the limit is cut to its first 4095 characters. */
  function Capped(content: string): (r: string)
    ensures |r| <= MAX_TEXT_LENGTH && |r| <= |content|
    ensures r == content[..|r|]
    ensures |content| <= MAX_TEXT_LENGTH ==> r == content
  {
    if |content| > MAX_TEXT_LENGTH then content[0..4095] else content
  }

  /** The confirmation's text before escaping (line 70). */
  function ConfirmText(content: string): string {
    "Are you sure? This operation will revoke the messages below:\n\n" + content
  }

  /** The notice after a revocation (line 135): `n` messages besides the confirmation. */
  function RevokedNotice(n: int): string {
    IntToString(n) + " messages revoked"
  }

  /** Lines 58-64: `revoke:<choice>:<message id>:<chat id>:<user id>` */
  function CallbackData(choice: string, messageId: int, chatId: int, uid: int): string {
    "revoke:" + choice + ":" + IntToString(messageId) + ":" + IntToString(chatId) + ":" + IntToString(uid)
  }

  /**
   * Lines 38-80: without a conversation, or with nothing of this chat in it, a notice;
   * otherwise a request to confirm, listing the selected messages.
   */
  method HandleRevoke(convo: Option<Topic>, text: string, messageId: int, chatId: int, uid: int,
                      escape: string -> string) returns (call: BotCall)
    ensures convo.None? ==> call == Reply("Please select a topic to use.")
    ensures convo.Some? && RevokeSelection(convo.value.messages, chatId, CountArgument(text)) == [] ==>
      call == Reply("Could not find any messages in current conversation")
    ensures convo.Some? && RevokeSelection(convo.value.messages, chatId, CountArgument(text)) != [] ==>
      call == Confirm(chatId,
        Capped(escape(ConfirmText(Entries(RevokeSelection(convo.value.messages, chatId, CountArgument(text)))))),
        CallbackData("yes", messageId, chatId, uid), CallbackData("no", messageId, chatId, uid))
  {
    if convo.None? {
      return Reply("Please select a topic to use.");
    }
    var count := CountArgument(text);
    var revokeMessages := GetMessagesToRevoke(convo.value.messages, chatId, count);
    if revokeMessages == [] {
      return Reply("Could not find any messages in current conversation");
    }
    var content := "";
    for i := 0 to |revokeMessages|
      invariant content == Entries(revokeMessages[..i])
    {
      assert revokeMessages[..i + 1][..i] == revokeMessages[..i];
      content := content + Entry(revokeMessages[i]);
    }
    assert revokeMessages[..|revokeMessages|] == revokeMessages;
    content := Capped(escape(ConfirmText(content)));
    call := Confirm(chatId, content, CallbackData("yes", messageId, chatId, uid), CallbackData("no", messageId, chatId, uid));
  }

  /** The message ids of the selection (line 126). */
  function MessageIds(ms: seq<Message>): (ids: seq<int>)
    ensures |ids| == |ms|
    ensures forall i :: 0 <= i < |ms| ==> ids[i] == ms[i].messageId
  {
    seq(|ms|, i requires 0 <= i < |ms| => ms[i].messageId)
  }

  /**
   * Lines 83-138, for the callback of the confirmation; `original` is the text of the
   * command message, None when it cannot be fetched. "no" deletes the confirmation and the
   * command. Otherwise the messages selected exactly as for the confirmation are removed
   * from the topic and deleted from the chat with the confirmation, and their number is
   * reported.
   */
  method DoRevoke(topics: Topics, operation: string, msgIds: seq<int>, chatId: int,
                  callbackMessageId: int, convo: Option<Topic>, original: Option<string>)
    returns (r: Result<seq<BotCall>>)
    requires |msgIds| > 0
    modifies topics.storage
    ensures topics.storage.topics == old(topics.storage.topics)
    ensures operation == "no" ==> r == Ok([Delete(chatId, [msgIds[0], callbackMessageId])])
    ensures operation != "no" && convo.None? ==> r == Ok([Notify(chatId, "Conversation not found", msgIds[0])])
    ensures operation != "no" && convo.Some? ==>
      var selected := RevokeSelection(convo.value.messages, chatId,
                                      if original.Some? then CountArgument(original.value) else None);
      && (selected == [] ==>
            r == Ok([Notify(chatId, "Could not find any messages in the current conversation", msgIds[0])]))
      && (selected != [] && convo.value.tid <= 0 ==> r.Err?)
      && (selected != [] && convo.value.tid > 0 ==>
            && topics.storage.messages == WithoutMessages(old(topics.storage.messages), convo.value.tid, MessageIds(selected))
            && r == Ok([Delete(chatId, MessageIds(selected) + [callbackMessageId]),
                        Notify(chatId, RevokedNotice(|selected|), msgIds[0])]))
    ensures r.Ok? && (operation == "no" || convo.None? || r.value[0].Notify?) ==>
      topics.storage.messages == old(topics.storage.messages)
  {
    var messageId := msgIds[0];
    if operation == "no" {
      return Ok([Delete(chatId, [messageId, callbackMessageId])]);
    }
    if convo.None? {
      return Ok([Notify(chatId, "Conversation not found", messageId)]);
    }
    var count := if original.Some? then CountArgument(original.value) else None;
    var revokeMessages := GetMessagesToRevoke(convo.value.messages, chatId, count);
    if revokeMessages == [] {
      return Ok([Notify(chatId, "Could not find any messages in the current conversation", messageId)]);
    }
    var messageIds := MessageIds(revokeMessages);
    var removed := topics.RemoveMessages(convo.value.tid, messageIds);
    if removed.Err? {
      return Err(removed.message);
    }
    var deleted := messageIds + [callbackMessageId];
    r := Ok([Delete(chatId, deleted), Notify(chatId, RevokedNotice(|deleted| - 1), messageId)]);
  }
}
