/**
 * The per-group reply setting of src/catgpt/group.py: a memo keyed by `str(chat_id)` in
 * front of a group-info table. The storage behind `GroupInfoStorage` is only an interface
 * in src/catgpt/storage/types.py:189-198; here it is an in-memory table, first row per chat.
 */
module Group {
  import opened Wrappers
  import opened Seqs
  import opened PyStr
  import opened StorageTypes

  /** The table after every row of `chatId` takes `respondMessage`. */
  function Reset(rows: seq<GroupInfo>, chatId: int, respondMessage: int): (r: seq<GroupInfo>)
    ensures |r| == |rows|
    ensures forall i :: 0 <= i < |rows| ==>
      r[i] == if rows[i].chatId == chatId then GroupInfo(chatId, respondMessage) else rows[i]
  {
    seq(|rows|, i requires 0 <= i < |rows| =>
      if rows[i].chatId == chatId then GroupInfo(chatId, respondMessage) else rows[i])
  }

  class GroupInfoTable {
    var rows: seq<GroupInfo>

    constructor ()
      ensures rows == []
    {
      rows := [];
    }

    /** `get_group_info`: the first row of the chat, or None. */
    function GetGroupInfo(chatId: int): (r: Option<GroupInfo>)
      reads this
      ensures r.Some? ==> r.value in rows && r.value.chatId == chatId
      ensures r.None? <==> forall i :: 0 <= i < |rows| ==> rows[i].chatId != chatId
    {
      match FirstIndex(rows, (g: GroupInfo) => g.chatId == chatId)
      case None => None
      case Some(k) => Some(rows[k])
    }

    /** `create_group_info`: one row more. */
    method CreateGroupInfo(info: GroupInfo)
      modifies this
      ensures rows == old(rows) + [info]
    {
      rows := rows + [info];
    }

    /** `update_group_info`: the chat's rows take the new setting. */
    method UpdateGroupInfo(chatId: int, respondMessage: int)
      modifies this
      ensures rows == Reset(old(rows), chatId, respondMessage)
      ensures old(GetGroupInfo(chatId)).Some? ==> GetGroupInfo(chatId) == Some(GroupInfo(chatId, respondMessage))
    {
      var before := rows;
      rows := Reset(before, chatId, respondMessage);
      if FirstIndex(before, (g: GroupInfo) => g.chatId == chatId).Some? {
        var k := FirstIndex(before, (g: GroupInfo) => g.chatId == chatId).value;
        FirstIndexAt(rows, (g: GroupInfo) => g.chatId == chatId, k);
      }
    }
  }

  /** The memo key of a chat (lines 11 and 27). */
  function Key(chatId: int): string {
    IntToString(chatId)
  }

  /** Different chats never share a memo entry. */
  lemma KeysDistinct(a: int, b: int)
    ensures Key(a) == Key(b) <==> a == b
  {
    ParseIntOfIntToString(a);
    ParseIntOfIntToString(b);
  }

  class GroupConfig {
    const storage: GroupInfoTable
    const respondMessages: int
    var memory: map<string, int>

    /** Lines 5-8. */
    constructor (storage: GroupInfoTable, respondMessages: int)
      ensures this.storage == storage && this.respondMessages == respondMessages && memory == map[]
    {
      this.storage := storage;
      this.respondMessages := respondMessages;
      memory := map[];
    }

    /**
     * Lines 10-23. A remembered chat answers from the memo and storage is not touched.
     * Otherwise a row with the configured default is created when the chat has none, and
     * the configured default is remembered and returned, whatever a stored row says.
     */
    method IsRespondGroupMessage(chatId: int) returns (r: int)
      modifies this, storage
      ensures Key(chatId) in old(memory) ==>
        r == old(memory[Key(chatId)]) && memory == old(memory) && storage.rows == old(storage.rows)
      ensures Key(chatId) !in old(memory) ==>
        && r == respondMessages
        && memory == old(memory)[Key(chatId) := respondMessages]
        && storage.rows == old(storage.rows)
             + (if old(storage.GetGroupInfo(chatId)).None? then [GroupInfo(chatId, respondMessages)] else [])
      ensures storage.GetGroupInfo(chatId).Some?
          || (Key(chatId) in old(memory) && old(storage.GetGroupInfo(chatId)).None?)
    {
      var key := Key(chatId);
      if key in memory {
        return memory[key];
      }
      var info := storage.GetGroupInfo(chatId);
      if info.None? {
        storage.CreateGroupInfo(GroupInfo(chatId, respondMessages));
        assert storage.rows[|storage.rows| - 1].chatId == chatId;
      } else {
        assert storage.GetGroupInfo(chatId) == info;
      }
      memory := memory[key := respondMessages];
      r := respondMessages;
    }

    /** Lines 25-27: storage and memo both take the new setting. */
    method UpdateRespondMessages(chatId: int, respondMessages: int)
      modifies this, storage
      ensures storage.rows == Reset(old(storage.rows), chatId, respondMessages)
      ensures memory == old(memory)[Key(chatId) := respondMessages]
    {
      storage.UpdateGroupInfo(chatId, respondMessages);
      memory := memory[Key(chatId) := respondMessages];
    }
  }
}
