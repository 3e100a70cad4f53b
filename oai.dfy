/** The OpenAI request payload of src/catgpt/provider/oai.py. */
module Oai {
  import opened Wrappers
  import opened PyStr
  import opened StorageTypes
  import opened Types
  import opened Prompt

  /** One part of a multimodal message. */
  datatype Part = TextPart(text: string) | ImageUrlPart(url: string)

  /** One entry of `messages`: a plain `{role, content}` or a list of parts. */
  datatype Payload =
    | Plain(role: string, content: string)
    | Multipart(role: string, parts: seq<Part>)

  /** Lines 25-27 */
  predicate IsOnline(mediaUrl: string) {
    StartsWith(mediaUrl, "https://") || StartsWith(mediaUrl, "http://")
  }

  /** Lines 35-39: an online url as it is, anything else as base64 jpeg data (a data URL as in RFC 2397). */
  function ImageUrl(mediaUrl: string): (url: string)
    ensures IsOnline(mediaUrl) ==> url == mediaUrl
    ensures !IsOnline(mediaUrl) ==> StartsWith(url, "data:image/jpeg;base64,") && url[23..] == mediaUrl
  {
    if IsOnline(mediaUrl) then mediaUrl else "data:image/jpeg;base64," + mediaUrl
  }

  /** The text and document types travel as plain content (line 21). */
  predicate IsPlain(m: Message) {
    m.messageType == TEXT || m.messageType == DOCUMENT
  }

  /**
   * Lines 21-43 for one message: None where the source would fail on `media_url.startswith`
   * because the message has no media url.
   */
  function PayloadOf(m: Message): (r: Option<Payload>)
    ensures r.None? <==> !IsPlain(m) && m.mediaUrl.None?
    ensures r.Some? ==> r.value.role == m.role
    ensures r.Some? && IsPlain(m) ==> r.value == Plain(m.role, m.content)
    ensures r.Some? && !IsPlain(m) ==>
      && r.value.Multipart?
      && |r.value.parts| == (if m.content == "" then 1 else 2)
      && r.value.parts[|r.value.parts| - 1] == ImageUrlPart(ImageUrl(m.mediaUrl.value))
      && (m.content != "" ==> r.value.parts[0] == TextPart(m.content))
  {
    if IsPlain(m) then Some(Plain(m.role, m.content))
    else if m.mediaUrl.None? then None
    else
      var text := if |m.content| > 0 then [TextPart(m.content)] else [];
      Some(Multipart(m.role, text + [ImageUrlPart(ImageUrl(m.mediaUrl.value))]))
  }

  /** Lines 18-45: one entry per message, in order. */
  method MessageToPayload(messages: seq<Message>) returns (r: Result<seq<Payload>>)
    ensures r.Ok? <==> forall i :: 0 <= i < |messages| ==> PayloadOf(messages[i]).Some?
    ensures r.Ok? ==> |r.value| == |messages|
    ensures r.Ok? ==> forall i :: 0 <= i < |messages| ==> r.value[i] == PayloadOf(messages[i]).value
  {
    var messagesPayload: seq<Payload> := [];
    for i := 0 to |messages|
      invariant |messagesPayload| == i
      invariant forall k :: 0 <= k < i ==> PayloadOf(messages[k]).Some? && messagesPayload[k] == PayloadOf(messages[k]).value
    {
      var m := messages[i];
      if m.messageType == TEXT || m.messageType == DOCUMENT {
        messagesPayload := messagesPayload + [Plain(m.role, m.content)];
      } else {
        if m.mediaUrl.None? {
          return Err("'NoneType' object has no attribute 'startswith'");
        }
        var content: seq<Part> := [];
        var isOnline := StartsWith(m.mediaUrl.value, "https://") || StartsWith(m.mediaUrl.value, "http://");
        if |m.content| > 0 {
          content := content + [TextPart(m.content)];
        }
        content := content + [ImageUrlPart(if isOnline then m.mediaUrl.value else "data:image/jpeg;base64," + m.mediaUrl.value)];
        messagesPayload := messagesPayload + [Multipart(m.role, content)];
      }
    }
    r := Ok(messagesPayload);
  }

  /** A list of payload entries that `inject_system_prompt_if_need` changes in place. */
  class PayloadList {
    var entries: seq<Payload>

    constructor (entries: seq<Payload>)
      ensures this.entries == entries
    {
      this.entries := entries;
    }

    /**
     * Lines 9-15: a list already opening with a system entry is left alone; otherwise the
     * model's system prompt, if it has one, is put first.
     */
    method InjectSystemPromptIfNeed(model: string)
      requires entries != []
      modifies this
      ensures old(entries[0].role) == "system" || GetSystemPrompt(model).None? ==> entries == old(entries)
      ensures old(entries[0].role) != "system" && GetSystemPrompt(model).Some? ==>
        entries == [Plain("system", GetSystemPrompt(model).value)] + old(entries)
      ensures entries != [] && entries[|entries| - 1] == old(entries[|entries| - 1])
    {
      if entries[0].role == "system" {
        return;
      }
      var prompt := GetSystemPrompt(model);
      if prompt.Some? {
        entries := [Plain("system", prompt.value)] + entries;
      }
    }
  }
}
