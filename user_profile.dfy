/**
 * The profile service of src/catgpt/user_profile.py: the preset table read from the
 * presets file, the enrolment memo in front of the profile storage, and the argument
 * checks of the update operations.
 *
 * The service was written against an older profile storage keyed by uid alone, while the
 * storage it is given (`Sqlite3ProfileStorage`) is keyed by `(uid, chat_id, thread_id)`.
 * The model keeps the intended behaviour: `is_enrolled` asks whether any profile row has
 * the uid, and the updates take the three-part key the command handlers pass.
 */
module UserProfile {
  import opened Wrappers
  import opened Seqs
  import opened PyStr
  import opened StorageTypes
  import opened Sqlite3SessionStorage

  /**
   * One object of the presets file. `role` is None when the key is absent; `prompt` is None
   * when the key is absent and Some(None) when it holds JSON null.
   */
  datatype Preset = Preset(role: Option<string>, prompt: Option<Option<string>>)

  /** Line 13: the preset used when the file yields none. */
  const DEFAULT_PRESET := Preset(Some("System"), Some(None))

  /** Line 27: only objects with both keys enter the table. */
  predicate Complete(p: Preset) {
    p.role.Some? && p.prompt.Some?
  }

  /** Lines 26-28: the table after the loop over `ps`, keyed by role; a later entry overwrites. */
  function PresetTable(ps: seq<Preset>): map<string, Preset> {
    if ps == [] then map[]
    else
      var t := PresetTable(ps[..|ps| - 1]);
      var p := ps[|ps| - 1];
      if Complete(p) then t[p.role.value := p] else t
  }

  /** Lines 23-31: the table for the file's contents (None: no such file), never empty. */
  function PresetsOf(file: Option<seq<Preset>>): (t: map<string, Preset>)
    ensures t != map[]
    ensures file.None? ==> t == map["System" := DEFAULT_PRESET]
  {
    var loaded := if file.Some? then PresetTable(file.value) else map[];
    if |loaded| == 0 then map["System" := DEFAULT_PRESET] else loaded
  }

  /** Every entry is complete and filed under its own role. */
  ghost predicate WellFiled(t: map<string, Preset>) {
    forall k :: k in t ==> Complete(t[k]) && t[k].role == Some(k)
  }

  lemma {:induction false} PresetTableWellFiled(ps: seq<Preset>)
    ensures WellFiled(PresetTable(ps))
  {
    if ps != [] {
      PresetTableWellFiled(ps[..|ps| - 1]);
    }
  }

  /** A role is in the table exactly when some complete entry of the file names it. */
  lemma {:induction false} PresetTableKeys(ps: seq<Preset>, role: string)
    ensures role in PresetTable(ps) <==> exists i :: 0 <= i < |ps| && Complete(ps[i]) && ps[i].role.value == role
  {
    if ps != [] {
      var n := |ps| - 1;
      PresetTableKeys(ps[..n], role);
      if exists i :: 0 <= i < n && Complete(ps[..n][i]) && ps[..n][i].role.value == role {
        var i :| 0 <= i < n && Complete(ps[..n][i]) && ps[..n][i].role.value == role;
        assert ps[i] == ps[..n][i];
      }
      if exists i :: 0 <= i < |ps| && Complete(ps[i]) && ps[i].role.value == role {
        var i :| 0 <= i < |ps| && Complete(ps[i]) && ps[i].role.value == role;
        if i < n {
          assert ps[..n][i] == ps[i];
        }
      }
    }
  }

  /** The last complete entry for a role is the one the table keeps. */
  lemma {:induction false} PresetTableLastWins(ps: seq<Preset>, i: nat)
    requires i < |ps| && Complete(ps[i])
    requires forall j :: i < j < |ps| && Complete(ps[j]) ==> ps[j].role != ps[i].role
    ensures ps[i].role.value in PresetTable(ps) && PresetTable(ps)[ps[i].role.value] == ps[i]
  {
    var n := |ps| - 1;
    if i < n {
      forall j | i < j < n && Complete(ps[..n][j])
        ensures ps[..n][j].role != ps[..n][i].role
      {
        assert ps[..n][j] == ps[j];
      }
      PresetTableLastWins(ps[..n], i);
      assert ps[..n][i] == ps[i];
    }
  }

  /** `uid > 0`, the assert that opens every update (lines 63, 67, 73, 82). */
  function UidCheck(uid: int): (r: Result<()>)
    ensures r.Ok? <==> uid > 0
    ensures r.Err? ==> r.message == "invalid uid: " + IntToString(uid)
  {
    if uid > 0 then Ok(()) else Err("invalid uid: " + IntToString(uid))
  }

  /** Lines 66-68: the checks of `update_model`, in order. */
  function ModelCheck(uid: int, model: string): (r: Result<()>)
    ensures r.Ok? <==> uid > 0 && model != []
    ensures uid <= 0 ==> r == UidCheck(uid)
    ensures uid > 0 && model == [] ==> r == Err("invalid model: ")
  {
    if uid <= 0 then UidCheck(uid)
    else if model == [] then Err("invalid model: " + model)
    else Ok(())
  }

  /** The old single-key lookup `get_profile(uid)`: some profile row has the uid. */
  predicate HasProfile(rows: seq<Profile>, uid: int) {
    FirstIndex(rows, (p: Profile) => p.uid == uid).Some?
  }

  lemma HasProfileMeans(rows: seq<Profile>, uid: int)
    ensures HasProfile(rows, uid) <==> exists i :: 0 <= i < |rows| && rows[i].uid == uid
  {
    var r := FirstIndex(rows, (p: Profile) => p.uid == uid);
    if r.Some? {
      assert rows[r.value].uid == uid;
    }
  }

  class UserProfile {
    const storage: Sqlite3ProfileStorage
    var presets: map<string, Preset>
    /** The `memory` dict: the uids it maps to True. */
    var memory: set<int>

    ghost predicate Valid()
      reads this
    {
      presets != map[] && WellFiled(presets)
    }

    /** Every remembered uid has a profile row: the memo never answers what storage would not. */
    ghost predicate MemoSound()
      reads this, storage
    {
      forall u :: u in memory ==> HasProfile(storage.profiles, u)
    }

    /** Lines 17-31; `presetFile` is the parsed file, None when it does not exist. */
    constructor (storage: Sqlite3ProfileStorage, presetFile: Option<seq<Preset>>)
      ensures this.storage == storage && memory == {}
      ensures presets == PresetsOf(presetFile)
      ensures Valid() && MemoSound()
    {
      var table: map<string, Preset> := map[];
      if presetFile.Some? {
        var ps := presetFile.value;
        for i := 0 to |ps|
          invariant table == PresetTable(ps[..i])
        {
          assert ps[..i + 1][..i] == ps[..i];
          var p := ps[i];
          if p.role.Some? && p.prompt.Some? {
            table := table[p.role.value := p];
          }
        }
        assert ps[..|ps|] == ps;
        PresetTableWellFiled(ps);
      }
      if |table| == 0 {
        table := map["System" := DEFAULT_PRESET];
      }
      this.storage := storage;
      presets := table;
      memory := {};
    }

    /** Lines 59-60: `presets.get(name)`. */
    function GetPreset(name: string): (r: Option<Preset>)
      reads this
      ensures r.Some? <==> name in presets
      ensures r.Some? ==> r.value == presets[name]
      ensures Valid() && r.Some? ==> r.value.role == Some(name) && Complete(r.value)
    {
      if name in presets then Some(presets[name]) else None
    }

    /**
     * Lines 107-109: the preset's "prompt" value (None for JSON null), and "" for a name
     * that is not a preset.
     */
    function GetPrompt(name: string): (r: Option<string>)
      reads this
      ensures name !in presets ==> r == Some("")
      ensures Valid() && name in presets ==> Some(r) == presets[name].prompt
    {
      if name in presets && presets[name].prompt.Some? then presets[name].prompt.value else Some("")
    }

    /**
     * Lines 85-94: a remembered uid answers true at once; otherwise the storage is asked
     * and only a positive answer is remembered. The storage is asked by uid alone, a
     * lookup its three-part `get_profile` does not offer.
     */
    method IsEnrolled(uid: int) returns (b: bool)
      requires MemoSound()
      modifies this
      ensures MemoSound()
      ensures b <==> HasProfile(storage.profiles, uid)
      ensures old(uid in memory) ==> b
      ensures memory == if b then old(memory) + {uid} else old(memory)
      ensures presets == old(presets)
    {
      if uid in memory {
        return true;
      }
      var found := FirstIndex(storage.profiles, (p: Profile) => p.uid == uid);
      if found.Some? {
        memory := memory + {uid};
        return true;
      }
      return false;
    }

    /** Lines 62-64, with the three-part key the storage takes. */
    method Update(uid: int, chatId: int, threadId: int, profile: Profile) returns (r: Result<()>)
      modifies storage
      ensures r == UidCheck(uid)
      ensures r.Err? ==> storage.profiles == old(storage.profiles)
      ensures r.Ok? ==> storage.profiles == UpdatedRows(old(storage.profiles), profile)
      ensures r.Ok? && old(storage.GetProfile(profile.uid, profile.chatId, profile.threadId)).Some? ==>
        storage.GetProfile(profile.uid, profile.chatId, profile.threadId)
          == Some(Reconfigured(old(storage.GetProfile(profile.uid, profile.chatId, profile.threadId)).value, profile))
      ensures storage.lastRowId == old(storage.lastRowId)
    {
      r := UidCheck(uid);
      if r.Err? {
        return;
      }
      storage.Update(uid, chatId, threadId, profile);
    }

    /**
     * Lines 66-70. The profile storage has no `update_model`; the model is persisted by
     * updating the stored profile with the new model. Nothing changes when there is no profile.
     */
    method UpdateModel(uid: int, chatId: int, threadId: int, model: string) returns (r: Result<()>)
      modifies storage
      ensures r == ModelCheck(uid, model)
      ensures r.Err? || old(storage.GetProfile(uid, chatId, threadId)).None? ==>
        storage.profiles == old(storage.profiles)
      ensures r.Ok? && old(storage.GetProfile(uid, chatId, threadId)).Some? ==>
        storage.GetProfile(uid, chatId, threadId) == Some(old(storage.GetProfile(uid, chatId, threadId)).value.(model := model))
      ensures r.Ok? && old(storage.GetProfile(uid, chatId, threadId)).Some? ==>
        storage.profiles == UpdatedRows(old(storage.profiles), old(storage.GetProfile(uid, chatId, threadId)).value.(model := model))
      ensures storage.lastRowId == old(storage.lastRowId)
    {
      r := ModelCheck(uid, model);
      if r.Err? {
        return;
      }
      var stored := storage.GetProfile(uid, chatId, threadId);
      if stored.None? {
        return;
      }
      var p := stored.value;
      storage.Update(uid, chatId, threadId, p.(model := model));
    }
  }
}
