/**
 * The Gemini request payload of src/catgpt/provider/gemini.py. `decodeImage` stands for
 * `tg_image.decode_image`, which is not part of this model.
 */
module Gemini {
  import opened StorageTypes
  import opened Types

  datatype GeminiPart = InlineData(mimeType: string, data: seq<bv8>) | Text(text: string)

  datatype Content = Content(role: string, parts: seq<GeminiPart>)

  /** Line 27 */
  function RoleOf(role: string): (r: string)
    ensures r == "model" <==> role == "assistant"
    ensures r != "model" ==> r == "user"
  {
    if role == "assistant" then "model" else "user"
  }

  /** A media url Python treats as true: present and non-empty. */
  predicate HasMedia(m: Message) {
    m.mediaUrl.Some? && m.mediaUrl.value != ""
  }

  /** Lines 28-35: the image of a photo with a media url, then the text when there is any. */
  function PartsOf(m: Message, decodeImage: string -> seq<bv8>): (parts: seq<GeminiPart>)
    ensures |parts| <= 2
    ensures parts != [] && parts[0].InlineData? <==> m.messageType == PHOTO && HasMedia(m)
    ensures parts != [] && parts[|parts| - 1].Text? <==> m.content != ""
    ensures m.messageType == PHOTO && HasMedia(m) ==> parts[0] == InlineData("image/jpeg", decodeImage(m.mediaUrl.value))
    ensures m.content != "" ==> parts[|parts| - 1] == Text(m.content)
    ensures parts == [] <==> !(m.messageType == PHOTO && HasMedia(m)) && m.content == ""
  {
    var image := if m.messageType == PHOTO && HasMedia(m) then [InlineData("image/jpeg", decodeImage(m.mediaUrl.value))] else [];
    var text := if m.content != "" then [Text(m.content)] else [];
    image + text
  }

  /** Lines 24-40 as a fold: messages without parts are dropped, the rest keep their order. */
  function ContentsOf(messages: seq<Message>, decodeImage: string -> seq<bv8>): (r: seq<Content>)
    ensures |r| <= |messages|
    ensures forall k :: 0 <= k < |r| ==> r[k].parts != []
  {
    if messages == [] then []
    else
      var m := messages[|messages| - 1];
      var parts := PartsOf(m, decodeImage);
      ContentsOf(messages[..|messages| - 1], decodeImage) + (if parts != [] then [Content(RoleOf(m.role), parts)] else [])
  }

  /** Converting a conversation piecewise gives the same payload. */
  lemma {:induction false} ContentsOfAppend(a: seq<Message>, b: seq<Message>, decodeImage: string -> seq<bv8>)
    ensures ContentsOf(a + b, decodeImage) == ContentsOf(a, decodeImage) + ContentsOf(b, decodeImage)
  {
    if b == [] {
      assert a + b == a;
    } else {
      var init := b[..|b| - 1];
      assert (a + b)[..|a + b| - 1] == a + init;
      assert (a + b)[|a + b| - 1] == b[|b| - 1];
      ContentsOfAppend(a, init, decodeImage);
    }
  }

  /** A text message is always sent, under its mapped role. */
  lemma TextMessageKept(m: Message, decodeImage: string -> seq<bv8>)
    requires m.content != ""
    ensures ContentsOf([m], decodeImage) == [Content(RoleOf(m.role), PartsOf(m, decodeImage))]
  {
    assert [m][..0] == [];
  }

  /** Lines 24-40 */
  method MessageToPayload(messages: seq<Message>, decodeImage: string -> seq<bv8>) returns (contents: seq<Content>)
    ensures contents == ContentsOf(messages, decodeImage)
  {
    contents := [];
    for i := 0 to |messages|
      invariant contents == ContentsOf(messages[..i], decodeImage)
    {
      var m := messages[i];
      assert messages[..i + 1][..i] == messages[..i];
      var role := if m.role == "assistant" then "model" else "user";
      var parts: seq<GeminiPart> := [];
      if m.messageType == PHOTO && m.mediaUrl.Some? && m.mediaUrl.value != "" {
        var binData := decodeImage(m.mediaUrl.value);
        parts := parts + [InlineData("image/jpeg", binData)];
      }
      if m.content != "" {
        parts := parts + [Text(m.content)];
      }
      assert parts == PartsOf(m, decodeImage);
      if |parts| > 0 {
        contents := contents + [Content(role, parts)];
      }
    }
    assert messages[..|messages|] == messages;
  }
}
