/**
 * The Telegram side of the command handlers: the bot calls they make, and how a command
 * message yields its argument.
 */
module TgBot {
  import opened PyStr

  /** An inline keyboard button: its caption and its callback data. */
  datatype Button = Button(caption: string, data: string)

  /** A Telegram call a handler makes. Buttons are listed in order; their layout in rows is not modelled. */
  datatype BotCall =
    | Reply(text: string)                                      // `reply_to` the command
    | Confirm(chatId: int, text: string, yesData: string, noData: string)
    | Delete(chatId: int, messageIds: seq<int>)
    | Notify(chatId: int, text: string, replyTo: int)          // `send_message` replying to a message
    | Send(chatId: int, text: string)                          // `send_message` replying to nothing
    | Menu(chatId: int, text: string, buttons: seq<Button>)    // `send_message` with an inline keyboard

  /**
   * `message.text.replace(command, "").replace(bot_name, "").strip()`, the argument of a
   * command (src/catgpt/commands/endpoints.py:11, src/catgpt/commands/models.py:33).
   */
  function CommandArgument(text: string, command: string, botName: string): string {
    Strip(Replace(Replace(text, command, ""), botName, ""))
  }

  /** `/command name` yields `name` when the name holds neither the command nor the bot name. */
  lemma CommandArgumentOf(command: string, botName: string, name: string)
    requires command != [] && botName != [] && command[0] != ' ' && botName[0] != ' '
    requires !Contains(name, command) && !Contains(name, botName)
    requires name == [] || (!IsSpace(name[0]) && !IsSpace(name[|name| - 1]))
    ensures CommandArgument(command + " " + name, command, botName) == name
  {
    assert command + " " + name == command + (" " + name);
    ReplaceFront(command, " " + name, "");
    ContainsCons(' ', name, command);
    ReplaceAbsent(" " + name, command, "");
    assert "" + (" " + name) == " " + name;
    ContainsCons(' ', name, botName);
    ReplaceAbsent(" " + name, botName, "");
    StripSpaced(name);
  }

  /** `f"{message_id}:{chat_id}:{uid}"`, the context part of a callback. */
  function CallContext(messageId: int, chatId: int, uid: int): string {
    IntToString(messageId) + ":" + IntToString(chatId) + ":" + IntToString(uid)
  }

  /** `f'{action}:{operation}:{context}'`, the callback data of a button. */
  function Callback(action: string, operation: string, context: string): string {
    action + ":" + operation + ":" + context
  }

  /**
   * The callback router splits the data on ':' (src/catgpt/commands/__init__.py:113-118):
   * a button's data gives back its action, its operation and the three numbers of its
   * context when neither the action nor the operation holds a colon.
   */
  lemma {:induction false} CallbackFields(action: string, operation: string, messageId: int, chatId: int, uid: int)
    requires ':' !in action && ':' !in operation
    ensures Split(Callback(action, operation, CallContext(messageId, chatId, uid)), ':')
      == [action, operation, IntToString(messageId), IntToString(chatId), IntToString(uid)]
  {
    var xs := [action, operation, IntToString(messageId), IntToString(chatId), IntToString(uid)];
    IntToStringChars(messageId);
    IntToStringChars(chatId);
    IntToStringChars(uid);
    IntToStringHasNo(messageId, ':');
    IntToStringHasNo(chatId, ':');
    IntToStringHasNo(uid, ':');
    assert Join(xs[4..], ':') == xs[4];
    assert Join(xs[3..], ':') == xs[3] + ":" + xs[4];
    assert Join(xs[2..], ':') == xs[2] + ":" + (xs[3] + ":" + xs[4]);
    assert Join(xs[1..], ':') == xs[1] + ":" + (xs[2] + ":" + (xs[3] + ":" + xs[4]));
    assert Join(xs, ':') == Callback(action, operation, CallContext(messageId, chatId, uid));
    SplitJoin(xs, ':');
  }
}
