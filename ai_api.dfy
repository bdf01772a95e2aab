/** The backend's scripted assistant endpoint `POST /api/v1/ai/assist`. */
module AiApi {
  import opened Wrappers
  import opened Text

  datatype AssistResult = Redirect(path: string) | Response(text: string)

  const Fallback := "I cannot complete this request."

  /** A prompt starting with the edit command is none of the other commands. */
  lemma EditIsNoOtherCommand(p: string)
    ensures StartsWith(p, "edit habits for") ==>
      p != "go to to-do" && p != "create new goal" && p != "go to dashboard"
  {
    if StartsWith(p, "edit habits for") {
      assert p[0] == 'e';
    }
  }

  /** The `if/elif` chain on the lower-cased prompt. */
  function Assist(prompt: string): (r: AssistResult)
    ensures Lower(prompt) == "go to to-do" ==> r == Redirect("/?tab=todos")
    ensures StartsWith(Lower(prompt), "edit habits for") ==> r == Redirect("/edit-habits")
    ensures Lower(prompt) == "create new goal" ==> r == Redirect("/new-goal")
    ensures Lower(prompt) == "go to dashboard" ==> r == Redirect("/")
    ensures r.Response? <==>
      !(|| Lower(prompt) == "go to to-do"
        || StartsWith(Lower(prompt), "edit habits for")
        || Lower(prompt) == "create new goal"
        || Lower(prompt) == "go to dashboard")
    ensures r.Response? ==> r.text == Fallback
  {
    var p := Lower(prompt);
    EditIsNoOtherCommand(p);
    if p == "go to to-do" then Redirect("/?tab=todos")
    else if StartsWith(p, "edit habits for") then Redirect("/edit-habits")
    else if p == "create new goal" then Redirect("/new-goal")
    else if p == "go to dashboard" then Redirect("/")
    else Response(Fallback)
  }

  /** Matching ignores case: a prompt and its lower-cased form get the same answer. */
  lemma AssistIgnoresCase(prompt: string, other: string)
    requires Lower(prompt) == Lower(other)
    ensures Assist(Lower(prompt)) == Assist(prompt) == Assist(other)
  {
    LowerIdempotent(prompt);
  }

  /** The JSON body: `{"redirect": ...}` or `{"response": ...}`. */
  datatype AssistBody = AssistBody(redirect: Option<string>, response: Option<string>)

  function ToBody(r: AssistResult): (b: AssistBody)
    ensures b.redirect.Some? != b.response.Some?
    ensures r.Redirect? ==> b.redirect == Some(r.path)
    ensures r.Response? ==> b.response == Some(r.text)
  {
    match r
    case Redirect(path) => AssistBody(Some(path), None)
    case Response(text) => AssistBody(None, Some(text))
  }
}
