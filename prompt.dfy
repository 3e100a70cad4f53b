/** The system prompts of src/catgpt/utils/prompt.py. */
module Prompt {
  import opened Wrappers
  import opened PyStr
  import opened StorageTypes

  /** Lines 3-10: the knowledge cutoff of each listed model. */
  const MODELS: map<string, string> := map[
    "gpt-4o" := "2023-10",
    "gpt-4-turbo-2024-04-09" := "2023-11",
    "gpt-4-0125-preview" := "2023-11",
    "gpt-4-1106-preview" := "2023-04",
    "gpt-4-turbo" := "2023-11",
    "gpt-4" := "2023-09"]

  /** Line 22 */
  function Cutoff(model: string): string {
    if model in MODELS then MODELS[model] else "2023-09"
  }

  /** `DEFAULT_SYSTEM_TEMPLATE` (lines 12-17), around its two fields. */
  const TEMPLATE_HEAD: string := "\nYou are ChatGPT, a large language model trained by OpenAI.\nKnowledge cutoff: "
  const TEMPLATE_MIDDLE: string := "\nCurrent model: "
  const TEMPLATE_TAIL: string := "\n`;\n"

  /** `DEFAULT_SYSTEM_TEMPLATE.format(cutoff=..., model=...)` (lines 23-26). */
  function SystemTemplate(cutoff: string, model: string): string {
    TEMPLATE_HEAD + cutoff + TEMPLATE_MIDDLE + model + TEMPLATE_TAIL
  }

  /** Lines 20-28: a prompt naming the model and its cutoff, for gpt-4 models only. */
  function GetSystemPrompt(model: string): (r: Option<string>)
    ensures r.None? <==> !StartsWith(model, "gpt-4")
    ensures r.Some? ==> Contains(r.value, model) && Contains(r.value, Cutoff(model))
  {
    if StartsWith(model, "gpt-4") then
      var c := Cutoff(model);
      var p := SystemTemplate(c, model);
      assert p == TEMPLATE_HEAD + c + (TEMPLATE_MIDDLE + model + TEMPLATE_TAIL);
      ContainsMiddle(TEMPLATE_HEAD, c, TEMPLATE_MIDDLE + model + TEMPLATE_TAIL);
      ContainsMiddle(TEMPLATE_HEAD + c + TEMPLATE_MIDDLE, model, TEMPLATE_TAIL);
      Some(p)
    else None
  }

  /** Unlisted gpt-4 models get the default cutoff; other families get no prompt. */
  lemma SystemPromptCutoffs()
    ensures GetSystemPrompt("gpt-4o") == Some(SystemTemplate("2023-10", "gpt-4o"))
    ensures GetSystemPrompt("gpt-4-0613") == Some(SystemTemplate("2023-09", "gpt-4-0613"))
    ensures GetSystemPrompt("gpt-3.5-turbo") == None
  {
    assert StartsWith("gpt-4-0613", "gpt-4");
    assert "gpt-4-0613" !in MODELS;
    assert !StartsWith("gpt-3.5-turbo", "gpt-4") by {
      assert "gpt-3.5-turbo"[..5] != "gpt-4" by {
        assert "gpt-3.5-turbo"[4] == '3';
      }
    }
  }

  /** Lines 31-37: a system message carrying a non-empty prompt, with every id and the time 0. */
  function GetPrompt(prompt: string): (r: Option<Message>)
    ensures r.None? <==> prompt == ""
    ensures r.Some? ==>
      && r.value.role == "system" && r.value.content == prompt
      && r.value.messageId == 0 && r.value.chatId == 0 && r.value.ts == 0 && r.value.topicId == 0
      && r.value.messageType == 0 && r.value.mediaUrl == None
  {
    if prompt != "" then Some(NewMessage("system", prompt, 0, 0, 0, 0)) else None
  }
}
