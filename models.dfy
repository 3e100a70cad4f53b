/**
 * The `/model` command of src/catgpt/commands/models.py: choosing a model of the profile's
 * endpoint by name, by short alias or by its index in the menu.
 */
module Models {
  import opened Wrappers
  import opened PyStr
  import opened StorageTypes
  import opened Sqlite3SessionStorage
  import opened Context
  import opened UserProfile
  import opened TgBot
  import Endpoints

  const ACTION := "model"

  /** What Python raises when the profile was not found. */
  const NO_PROFILE := "'NoneType' object has no attribute 'endpoint'"

  /** What Python raises when the profile's endpoint is not configured (line 34). */
  const NO_ENDPOINT := "'NoneType' object has no attribute 'models'"

  /** Lines 8-24: short names a user may type for a model. */
  const SHORT_NAME: map<string, string> := map[
    "gpt4" := "gpt-4",
    "gpt4_32k" := "gpt-4-32k",
    "gpt4_16k" := "gpt-4-16k",
    "0314" := "gpt-4-0314",
    "0613" := "gpt-4-0613",
    "1106" := "gpt-4-1106-preview",
    "0125" := "gpt-4-0125-preview",
    "0409" := "gpt-4-turbo-2024-04-09",
    "gpt4o" := "gpt-4o",
    "4o" := "gpt-4o",
    "g2" := "gemini-2.0-flash",
    "g2think" := "gemini-2.0-flash-thinking-exp-01-21",
    "g2pro" := "gemini-2.0-pro-exp-02-05",
    "v3" := "deepseek-chat",
    "r1" := "deepseek-reasoner"
  ]

  /**
   * Lines 36-58: the model a command argument selects among `models`: the text itself when
   * listed, else its alias target when that is listed, else none.
   */
  function FastSwitchModel(text: string, models: seq<string>): (r: Option<string>)
    ensures r.Some? ==> r.value in models
    ensures text in models ==> r == Some(text)
    ensures text !in models ==>
      r == if text in SHORT_NAME && SHORT_NAME[text] in models then Some(SHORT_NAME[text]) else None
  {
    if text in models then Some(text)
    else if text in SHORT_NAME && SHORT_NAME[text] in models then Some(SHORT_NAME[text])
    else None
  }

  /** The menu's heading (line 102): the profile's endpoint and model. */
  function MenuNotice(profile: Profile): string {
    "current endpoint: `" + Endpoints.OrNone(profile.endpoint) + "`\ncurrent model: `" + Endpoints.OrNone(profile.model) + "`\n"
  }

  /** The refusal of a model the endpoint does not list (line 175). */
  function UnsupportedNotice(model: string): string {
    "current endpoint does not support the model `" + model + "`"
  }

  /** The message confirming the model. */
  function Confirmed(chatId: int, model: string, msgIds: seq<int>, escape: string -> string): seq<BotCall> {
    [Send(chatId, escape("current model: `" + model + "`")), Delete(chatId, msgIds)]
  }

  /**
   * Lines 148-189 (`_do_model_change`). The current model is confirmed without an update.
   * Another model is refused when the profile's endpoint is unknown or does not list it;
   * otherwise it is stored and confirmed.
   */
  method ChangeModel(config: Configuration, profiles: UserProfile, profile: Profile, model: string,
                     msgIds: seq<int>, chatId: int, uid: int, threadId: int,
                     escape: string -> string) returns (r: Result<seq<BotCall>>)
    requires |msgIds| > 0
    modifies profiles.storage
    ensures profiles.storage.lastRowId == old(profiles.storage.lastRowId)
    ensures profile.model == model ==> r == Ok(Confirmed(chatId, model, msgIds, escape))
    ensures profile.model != model && config.GetEndpoint(Endpoints.OrNone(profile.endpoint)).None? ==>
      r == Ok([Notify(chatId, escape("endpoint not found"), msgIds[0])])
    ensures profile.model != model && config.GetEndpoint(Endpoints.OrNone(profile.endpoint)).Some?
            && model !in config.GetEndpoint(Endpoints.OrNone(profile.endpoint)).value.models ==>
      r == Ok([Notify(chatId, escape(UnsupportedNotice(model)), msgIds[0])])
    ensures (profile.model != model && config.GetEndpoint(Endpoints.OrNone(profile.endpoint)).Some?
             && model in config.GetEndpoint(Endpoints.OrNone(profile.endpoint)).value.models) ==>
      && (r.Ok? <==> ModelCheck(uid, model).Ok?)
      && (r.Ok? ==> r == Ok(Confirmed(chatId, model, msgIds, escape)))
      && (r.Ok? && old(profiles.storage.GetProfile(uid, chatId, threadId)).Some? ==>
            profiles.storage.GetProfile(uid, chatId, threadId)
              == Some(old(profiles.storage.GetProfile(uid, chatId, threadId)).value.(model := model)))
    ensures profile.model == model || r.Err? || (r.Ok? && r.value[0].Notify?) ==>
      profiles.storage.profiles == old(profiles.storage.profiles)
    ensures profile.model != model && r.Ok? && !r.value[0].Notify? ==>
      var stored := old(profiles.storage.GetProfile(uid, chatId, threadId));
      profiles.storage.profiles ==
        if stored.Some? then UpdatedRows(old(profiles.storage.profiles), stored.value.(model := model))
        else old(profiles.storage.profiles)
  {
    if profile.model != model {
      var messageId := msgIds[0];
      var endpoint := config.GetEndpoint(Endpoints.OrNone(profile.endpoint));
      if endpoint.None? {
        return Ok([Notify(chatId, escape("endpoint not found"), messageId)]);
      }
      if model !in endpoint.value.models {
        return Ok([Notify(chatId, escape(UnsupportedNotice(model)), messageId)]);
      }
      var updated := profiles.UpdateModel(uid, chatId, threadId, model);
      if updated.Err? {
        return Err(updated.message);
      }
    }
    r := Ok(Confirmed(chatId, model, msgIds, escape));
  }

  /**
   * Lines 112-145, for a menu button. "dismiss" deletes the menu and the command; otherwise
   * the operation must be the index of a model of the profile's endpoint, and anything
   * else (no endpoint, not an integer, out of range) does nothing.
   */
  method DoModelChange(config: Configuration, profiles: UserProfile, operation: string,
                       msgIds: seq<int>, chatId: int, uid: int, threadId: int, origin: int,
                       escape: string -> string) returns (r: Result<seq<BotCall>>)
    requires |msgIds| > 0
    modifies profiles.storage
    ensures profiles.storage.lastRowId == old(profiles.storage.lastRowId)
    ensures operation == "dismiss" ==>
      r == Ok([Delete(chatId, [origin, msgIds[0]])]) && profiles.storage.profiles == old(profiles.storage.profiles)
    ensures operation != "dismiss" ==>
      var stored := old(profiles.storage.GetProfile(uid, chatId, threadId));
      && (stored.None? ==> r == Err(NO_PROFILE) && profiles.storage.profiles == old(profiles.storage.profiles))
      && (stored.Some? ==>
            var endpoint := config.GetEndpoint(Endpoints.OrNone(stored.value.endpoint));
            var idx := ParseInt(operation);
            && (endpoint.None? || idx.None? || !(0 <= idx.value < |endpoint.value.models|) ==>
                  r == Ok([]) && profiles.storage.profiles == old(profiles.storage.profiles))
            && (endpoint.Some? && idx.Some? && 0 <= idx.value < |endpoint.value.models| ==>
                  var model := endpoint.value.models[idx.value];
                  && (r.Ok? <==> stored.value.model == model || ModelCheck(uid, model).Ok?)
                  && (r.Ok? ==>
                        && r == Ok(Confirmed(chatId, model, msgIds + [origin], escape))
                        && profiles.storage.GetProfile(uid, chatId, threadId) == Some(stored.value.(model := model)))
                  && profiles.storage.profiles ==
                       if r.Err? || stored.value.model == model then old(profiles.storage.profiles)
                       else UpdatedRows(old(profiles.storage.profiles), stored.value.(model := model))))
  {
    if operation == "dismiss" {
      return Ok([Delete(chatId, [origin, msgIds[0]])]);
    }
    var stored := profiles.storage.GetProfile(uid, chatId, threadId);
    if stored.None? {
      return Err(NO_PROFILE);
    }
    var profile := stored.value;
    var endpoint := config.GetEndpoint(Endpoints.OrNone(profile.endpoint));
    if endpoint.None? {
      return Ok([]);
    }
    var idx := ParseInt(operation);
    if idx.None? {
      return Ok([]);
    }
    var models := endpoint.value.models;
    if idx.value < 0 || idx.value >= |models| {
      return Ok([]);
    }
    var model := models[idx.value];
    assert profile.model == model ==> profile.(model := model) == profile;
    r := ChangeModel(config, profiles, profile, model, msgIds + [origin], chatId, uid, threadId, escape);
  }

  /** The menu buttons of lines 80-100: one per model, carrying its index, then "dismiss" when there is any. */
  function ModelButtons(models: seq<string>, context: string): (b: seq<Button>)
    ensures |b| == |models| + (if models == [] then 0 else 1)
    ensures forall i :: 0 <= i < |models| ==> b[i] == Button(models[i], Callback(ACTION, IntToString(i), context))
    ensures models != [] ==> b[|models|] == Button("dismiss", Callback(ACTION, "dismiss", context))
  {
    ModelChoices(models, context)
      + if models == [] then [] else [Button("dismiss", Callback(ACTION, "dismiss", context))]
  }

  function ModelChoices(models: seq<string>, context: string): (b: seq<Button>)
    ensures |b| == |models|
    ensures forall i :: 0 <= i < |models| ==> b[i] == Button(models[i], Callback(ACTION, IntToString(i), context))
  {
    if models == [] then []
    else
      var n := |models| - 1;
      ModelChoices(models[..n], context) + [Button(models[n], Callback(ACTION, IntToString(n), context))]
  }

  /** Lines 71-109 (`display_models`). */
  method DisplayModels(profile: Profile, models: seq<string>, messageId: int, chatId: int, uid: int,
                       escape: string -> string) returns (call: BotCall)
    ensures call == Menu(chatId,
      escape(MenuNotice(profile)),
      ModelButtons(models, CallContext(messageId, chatId, uid)))
  {
    var context := CallContext(messageId, chatId, uid);
    var buttons: seq<Button> := [];
    for idx := 0 to |models|
      invariant buttons == ModelChoices(models[..idx], context)
    {
      assert models[..idx + 1][..idx] == models[..idx];
      buttons := buttons + [Button(models[idx], Callback(ACTION, IntToString(idx), context))];
    }
    assert models[..|models|] == models;
    if |buttons| > 0 {
      buttons := buttons + [Button("dismiss", Callback(ACTION, "dismiss", context))];
    }
    call := Menu(chatId, escape(MenuNotice(profile)), buttons);
  }

  /**
   * The button showing `models[i]` selects that model: the router hands `DoModelChange` the
   * second field of its data, which parses back to `i`.
   */
  lemma ModelButtonSelects(models: seq<string>, i: nat, messageId: int, chatId: int, uid: int)
    requires i < |models|
    ensures var data := ModelButtons(models, CallContext(messageId, chatId, uid))[i].data;
      var fields := Split(data, ':');
      && |fields| == 5
      && ParseInt(fields[1]) == Some(i)
      && models[ParseInt(fields[1]).value] == ModelButtons(models, CallContext(messageId, chatId, uid))[i].caption
  {
    IntToStringHasNo(i, ':');
    CallbackFields(ACTION, IntToString(i), messageId, chatId, uid);
    ParseIntOfIntToString(i);
  }

  /**
   * Lines 27-68 (`handle_models`). A command argument naming a model of the profile's
   * endpoint, or an alias of one, changes to it at once; otherwise the menu is shown.
   */
  method HandleModels(config: Configuration, profiles: UserProfile, text: string, botName: string,
                      messageId: int, chatId: int, uid: int, threadId: int,
                      escape: string -> string) returns (r: Result<seq<BotCall>>)
    modifies profiles.storage
    ensures profiles.storage.lastRowId == old(profiles.storage.lastRowId)
    ensures var stored := old(profiles.storage.GetProfile(uid, chatId, threadId));
      var arg := CommandArgument(text, "/model", botName);
      && (stored.None? ==> r == Err(NO_PROFILE))
      && (stored.Some? && config.GetEndpoint(Endpoints.OrNone(stored.value.endpoint)).None? ==> r == Err(NO_ENDPOINT))
      && (stored.Some? && config.GetEndpoint(Endpoints.OrNone(stored.value.endpoint)).Some? ==>
            var models := config.GetEndpoint(Endpoints.OrNone(stored.value.endpoint)).value.models;
            var chosen := FastSwitchModel(arg, models);
            && (arg != [] && chosen.Some? ==>
                  && (r.Ok? <==> stored.value.model == chosen.value || uid > 0)
                  && (r.Ok? ==>
                        && r == Ok(Confirmed(chatId, chosen.value, [messageId], escape))
                        && profiles.storage.GetProfile(uid, chatId, threadId) == Some(stored.value.(model := chosen.value)))
                  && profiles.storage.profiles ==
                       if r.Err? || stored.value.model == chosen.value then old(profiles.storage.profiles)
                       else UpdatedRows(old(profiles.storage.profiles), stored.value.(model := chosen.value)))
            && (!(arg != [] && chosen.Some?) ==>
                  && profiles.storage.profiles == old(profiles.storage.profiles)
                  && r == Ok([Menu(chatId,
                                   escape(MenuNotice(stored.value)),
                                   ModelButtons(models, CallContext(messageId, chatId, uid)))])))
    ensures r.Err? ==> profiles.storage.profiles == old(profiles.storage.profiles)
  {
    var stored := profiles.storage.GetProfile(uid, chatId, threadId);
    if stored.None? {
      return Err(NO_PROFILE);
    }
    var profile := stored.value;
    var endpoint := config.GetEndpoint(Endpoints.OrNone(profile.endpoint));
    var arg := CommandArgument(text, "/model", botName);
    if endpoint.None? {
      return Err(NO_ENDPOINT);
    }
    var models := endpoint.value.models;
    if |arg| > 0 {
      var chosen := FastSwitchModel(arg, models);
      if chosen.Some? {
        var model := chosen.value;
        assert model != [] by {
          if arg !in models {
            assert model in SHORT_NAME.Values;
          }
        }
        assert profile.model == model ==> profile.(model := model) == profile;
        r := ChangeModel(config, profiles, profile, model, [messageId], chatId, uid, threadId, escape);
        return;
      }
    }
    var call := DisplayModels(profile, models, messageId, chatId, uid, escape);
    r := Ok([call]);
  }
}
