/** The backend's router table: the endpoint groups mounted under `/api/v1`,
    and what the assistant panel gets back from `/api/v1/ai/assist`. */
module ApiRouter {
  import opened Wrappers
  import opened Text
  import AiApi
  import AIAssist

  /** The prefixes the table mounts, as written: the assistant's router is
      not among them. */
  const MountedAsWritten: seq<string> := ["/auth", "/users", "/goals", "/todos", "/sms"]

  /** The table with the assistant's router mounted under `/ai` as well. */
  const Mounted: seq<string> := MountedAsWritten + ["/ai"]

  /** The reply to the panel's POST to `/api/v1/ai/assist`: the assistant's
      answer when `/ai` is mounted, and otherwise a 404, a response whose
      `ok` flag is false. */
  function AssistReply(mounted: seq<string>, prompt: string): (r: Fetch<AiApi.AssistBody>)
    ensures r.Ok? <==> "/ai" in mounted
    ensures r.Ok? ==> r.data == AiApi.ToBody(AiApi.Assist(prompt))
  {
    if "/ai" in mounted then Ok(AiApi.ToBody(AiApi.Assist(prompt))) else NotOk
  }

  /** As written, every non-empty prompt ends in the apology, whatever the
      assistant would have answered. */
  lemma AsWrittenEveryPromptApologises(prompt: string)
    requires prompt != ""
    ensures AssistReply(MountedAsWritten, prompt) == NotOk
    ensures AIAssist.Dispatch(prompt, AssistReply(MountedAsWritten, prompt)) == AIAssist.ShowResponse(AIAssist.Apology)
  {
    assert "/ai" !in MountedAsWritten by {
      assert forall k :: 0 <= k < |MountedAsWritten| ==> |MountedAsWritten[k]| != 3;
    }
  }

  /** With the assistant mounted, the panel acts on the assistant's answer:
      `create new goal` (and only that) switches the tab, the other commands
      navigate, and every other prompt shows the fallback text. */
  lemma MountedAssistEndToEnd(prompt: string)
    requires prompt != ""
    ensures var a := AIAssist.Dispatch(prompt, AssistReply(Mounted, prompt));
      && (Lower(prompt) == "create new goal" <==> a == AIAssist.SwitchTab("new-goal"))
      && (Lower(prompt) == "go to to-do" ==> a == AIAssist.Navigate("/?tab=todos"))
      && (StartsWith(Lower(prompt), "edit habits for") ==> a == AIAssist.Navigate("/edit-habits"))
      && (Lower(prompt) == "go to dashboard" ==> a == AIAssist.Navigate("/"))
      && (AiApi.Assist(prompt).Response? <==> a == AIAssist.ShowResponse(AiApi.Fallback))
  {
    assert Mounted[|Mounted| - 1] == "/ai";
    AIAssist.AssistEndToEnd(prompt);
  }
}
