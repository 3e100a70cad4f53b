/**
 * The `/endpoint` command of src/catgpt/commands/endpoints.py: switching a profile to
 * another configured endpoint, from the command text or from a menu button.
 */
module Endpoints {
  import opened Wrappers
  import opened PyStr
  import opened StorageTypes
  import opened Sqlite3SessionStorage
  import opened Context
  import opened UserProfile
  import opened TgBot
  import Chat

  const ACTION := "endpoint"
  /** The operation of the menu's last button. */
  const DISMISS := "dismiss"
  /** The notice for a name that is not configured (line 74). */
  const NOT_FOUND := "endpoint not found"

  /** What Python raises when the profile to change was not found. */
  const NO_PROFILE := "'NoneType' object has no attribute 'endpoint'"

  /** The notice of a switch (line 91). */
  function SwitchNotice(name: string): string {
    "current endpoint: `" + name + "`"
  }

  /** The menu's heading (line 46). */
  function MenuNotice(current: string): string {
    "current endpoint: **" + current + "** \nEndpoints:"
  }

  /** `s or "None"` */
  function OrNone(s: string): (r: string)
    ensures r != []
    ensures s != [] ==> r == s
  {
    if s == [] then "None" else s
  }

  /**
   * Lines 79-83: the profile on the new endpoint. Its model is kept when the endpoint lists
   * it and is otherwise the endpoint's default model, the rule of the chat handler.
   */
  function SwitchedProfile(profile: Profile, endpoint: Endpoint): (p: Profile)
    ensures p.endpoint == endpoint.name
    ensures p.model == Chat.CoerceModel(profile.model, endpoint.models, endpoint.defaultModel)
    ensures profile.model in endpoint.models ==> p.model == profile.model
    ensures p.(endpoint := profile.endpoint, model := profile.model) == profile
  {
    profile.(endpoint := endpoint.name,
             model := if profile.model in endpoint.models then profile.model else endpoint.defaultModel)
  }

  /** The stored row a switch writes is the switched profile itself. */
  lemma SwitchedRow(profile: Profile, endpoint: Endpoint)
    ensures Reconfigured(profile, SwitchedProfile(profile, endpoint)) == SwitchedProfile(profile, endpoint)
  {
    var p := SwitchedProfile(profile, endpoint);
    var q := Reconfigured(profile, p);
    assert q.model == p.model && q.endpoint == p.endpoint && q.prompt == p.prompt && q.topicId == p.topicId;
  }

  /**
   * Lines 55-94. `msgIds` come from the callback data (or the command message in a fast
   * switch) and `origin` is the id of the message the call belongs to.
   */
  method DoEndpointChange(config: Configuration, profiles: UserProfile, operation: string,
                          msgIds: seq<int>, chatId: int, uid: int, threadId: int, origin: int,
                          escape: string -> string) returns (r: Result<seq<BotCall>>)
    requires |msgIds| > 0
    modifies profiles.storage
    ensures profiles.storage.lastRowId == old(profiles.storage.lastRowId)
    ensures operation == DISMISS ==> r == Ok([Delete(chatId, [msgIds[0], origin])])
    ensures operation != DISMISS && config.GetEndpoint(operation).None? ==>
      r == Ok([Notify(chatId, escape(NOT_FOUND), msgIds[0])])
    ensures operation != DISMISS && config.GetEndpoint(operation).Some? ==>
      var endpoint := config.GetEndpoint(operation).value;
      var stored := old(profiles.storage.GetProfile(uid, chatId, threadId));
      && (stored.None? ==> r == Err(NO_PROFILE))
      && (stored.Some? ==> (r.Err? <==> uid <= 0))
      && (stored.Some? && uid > 0 ==>
            && profiles.storage.profiles == UpdatedRows(old(profiles.storage.profiles), SwitchedProfile(stored.value, endpoint))
            && profiles.storage.GetProfile(uid, chatId, threadId) == Some(SwitchedProfile(stored.value, endpoint))
            && r == Ok([Notify(chatId, escape(SwitchNotice(operation)), msgIds[0]),
                        Delete(chatId, [msgIds[0], origin])]))
    ensures r.Err? || operation == DISMISS || config.GetEndpoint(operation).None? ==>
      profiles.storage.profiles == old(profiles.storage.profiles)
  {
    var messageId := msgIds[0];
    if operation == DISMISS {
      return Ok([Delete(chatId, [messageId, origin])]);
    }
    var found := config.GetEndpoint(operation);
    if found.None? {
      return Ok([Notify(chatId, escape(NOT_FOUND), messageId)]);
    }
    var endpoint := found.value;
    var stored := profiles.storage.GetProfile(uid, chatId, threadId);
    if stored.None? {
      return Err(NO_PROFILE);
    }
    var profile := SwitchedProfile(stored.value, endpoint);
    SwitchedRow(stored.value, endpoint);
    var updated := profiles.Update(uid, chatId, threadId, profile);
    if updated.Err? {
      return Err(updated.message);
    }
    r := Ok([Notify(chatId, escape(SwitchNotice(operation)), messageId),
             Delete(chatId, [messageId, origin])]);
  }

  /** The menu buttons of lines 27-43: one per endpoint, then "dismiss" when there is any. */
  function EndpointButtons(endpoints: seq<Endpoint>, context: string): (b: seq<Button>)
    ensures |b| == |endpoints| + (if endpoints == [] then 0 else 1)
    ensures forall i :: 0 <= i < |endpoints| ==>
      b[i] == Button(endpoints[i].name, Callback(ACTION, endpoints[i].name, context))
    ensures endpoints != [] ==> b[|endpoints|] == Button(DISMISS, Callback(ACTION, DISMISS, context))
  {
    EndpointChoices(endpoints, context)
      + if endpoints == [] then [] else [Button(DISMISS, Callback(ACTION, DISMISS, context))]
  }

  function EndpointChoices(endpoints: seq<Endpoint>, context: string): (b: seq<Button>)
    ensures |b| == |endpoints|
    ensures forall i :: 0 <= i < |endpoints| ==>
      b[i] == Button(endpoints[i].name, Callback(ACTION, endpoints[i].name, context))
  {
    if endpoints == [] then []
    else
      var last := endpoints[|endpoints| - 1];
      EndpointChoices(endpoints[..|endpoints| - 1], context) + [Button(last.name, Callback(ACTION, last.name, context))]
  }

  /** Lines 27-43: the loop that lays out the menu. */
  method MenuButtons(endpoints: seq<Endpoint>, context: string) returns (buttons: seq<Button>)
    ensures buttons == EndpointButtons(endpoints, context)
  {
    buttons := [];
    for i := 0 to |endpoints|
      invariant buttons == EndpointChoices(endpoints[..i], context)
    {
      assert endpoints[..i + 1][..i] == endpoints[..i];
      buttons := buttons + [Button(endpoints[i].name, Callback(ACTION, endpoints[i].name, context))];
    }
    assert endpoints[..|endpoints|] == endpoints;
    if |buttons| > 0 {
      buttons := buttons + [Button(DISMISS, Callback(ACTION, DISMISS, context))];
    }
  }

  /**
   * Lines 9-52. A name after the command that resolves to an endpoint switches at once;
   * anything else shows the menu of endpoints with the profile's current endpoint.
   */
  method HandleEndpoints(config: Configuration, profiles: UserProfile, text: string, botName: string,
                         messageId: int, chatId: int, uid: int, threadId: int,
                         escape: string -> string) returns (r: Result<seq<BotCall>>)
    modifies profiles.storage
    ensures profiles.storage.lastRowId == old(profiles.storage.lastRowId)
    ensures var name := CommandArgument(text, "/endpoint", botName);
      var stored := old(profiles.storage.GetProfile(uid, chatId, threadId));
      && (name != [] && config.GetEndpoint(name).Some? ==>
            var endpoint := config.GetEndpoint(name).value;
            && (name == DISMISS ==>
                  r == Ok([Delete(chatId, [messageId, messageId])]) && profiles.storage.profiles == old(profiles.storage.profiles))
            && (name != DISMISS && stored.Some? && uid > 0 ==>
                  && profiles.storage.profiles == UpdatedRows(old(profiles.storage.profiles), SwitchedProfile(stored.value, endpoint))
                  && profiles.storage.GetProfile(uid, chatId, threadId) == Some(SwitchedProfile(stored.value, endpoint))
                  && r == Ok([Notify(chatId, escape(SwitchNotice(name)), messageId),
                              Delete(chatId, [messageId, messageId])]))
            && (name != DISMISS && (stored.None? || uid <= 0) ==> r.Err?))
      && (!(name != [] && config.GetEndpoint(name).Some?) ==>
            && profiles.storage.profiles == old(profiles.storage.profiles)
            && (stored.None? ==> r == Err(NO_PROFILE))
            && (stored.Some? ==>
                  r == Ok([Menu(chatId, escape(MenuNotice(OrNone(stored.value.endpoint))),
                                EndpointButtons(config.endpoints, CallContext(messageId, chatId, uid)))])))
    ensures r.Err? ==> profiles.storage.profiles == old(profiles.storage.profiles)
  {
    var name := CommandArgument(text, "/endpoint", botName);
    if |name| > 0 {
      var endpoint := config.GetEndpoint(name);
      if endpoint.Some? {
        r := DoEndpointChange(config, profiles, name, [messageId], chatId, uid, threadId, messageId, escape);
        return;
      }
    }
    var stored := profiles.storage.GetProfile(uid, chatId, threadId);
    var buttons := MenuButtons(config.endpoints, CallContext(messageId, chatId, uid));
    if stored.None? {
      return Err(NO_PROFILE);
    }
    var current := OrNone(stored.value.endpoint);
    r := Ok([Menu(chatId, escape(MenuNotice(current)), buttons)]);
  }
}
