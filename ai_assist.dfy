/** The assistant panel: the greeting name, and what the panel does with the
    backend's answer to a prompt. */
module AIAssist {
  import opened Wrappers
  import opened Types
  import opened Text
  import AiApi

  /** What the greeting renders as the user's name, as written: `split('@')`
      yields the array of pieces, and React renders an array of strings as
      the pieces side by side. */
  datatype Shown = Pieces(pieces: seq<string>) | Plain(text: string)

  function Concat(pieces: seq<string>): string {
    if pieces == [] then "" else pieces[0] + Concat(pieces[1..])
  }

  function Rendered(d: Shown): string {
    match d
    case Pieces(ps) => Concat(ps)
    case Plain(t) => t
  }

  /** `user?.email ? user.email.split('@') : "there"`. */
  function DisplayNameAsWritten(user: Option<User>): (d: Shown)
    ensures !(user.Some? && user.value.email != "") ==> d == Plain("there")
    ensures user.Some? && user.value.email != "" ==>
      d.Pieces? && |d.pieces| > 0 && forall k :: 0 <= k < |d.pieces| ==> '@' !in d.pieces[k]
  {
    if user.Some? && user.value.email != "" then Pieces(Split(user.value.email, '@')) else Plain("there")
  }

  lemma ConcatCons(a: string, rest: seq<string>)
    ensures Concat([a] + rest) == a + Concat(rest)
  {
    assert ([a] + rest)[1..] == rest;
  }

  /** Rendering the pieces of a split side by side is the text with every
      separator dropped. */
  lemma {:induction false} ConcatSplit(s: string, sep: char)
    ensures Concat(Split(s, sep)) == Drop(s, sep)
    decreases |s|
  {
    if sep in s {
      var i := FirstIndex(s, sep);
      var a, b := s[..i], s[i + 1..];
      assert s == a + [sep] + b;
      assert Split(s, sep) == [a] + Split(b, sep);
      ConcatCons(a, Split(b, sep));
      ConcatSplit(b, sep);
      DropAppend(a + [sep], b, sep);
      DropAppend(a, [sep], sep);
      DropAbsent(a, sep);
      assert Drop([sep], sep) == [];
    } else {
      DropAbsent(s, sep);
      ConcatCons(s, []);
    }
  }

  /** As written, the greeting shows the whole email with its `@` signs
      dropped. */
  lemma AsWrittenShowsEmailWithoutAt(email: string)
    requires email != ""
    ensures Rendered(DisplayNameAsWritten(Some(User(email)))) == Drop(email, '@')
  {
    ConcatSplit(email, '@');
  }

  /** The name the greeting is evidently meant to show: the part of the email
      before the first `@`, or "there" when there is no email. */
  function DisplayName(user: Option<User>): (name: string)
    ensures !(user.Some? && user.value.email != "") ==> name == "there"
    ensures user.Some? && user.value.email != "" ==>
      var email := user.value.email;
      && '@' !in name
      && StartsWith(email, name)
      && ('@' in email ==> email[|name|] == '@')
      && ('@' !in email ==> name == email)
  {
    if user.Some? && user.value.email != "" then
      var email := user.value.email;
      var local := Split(email, '@')[0];
      assert '@' in email ==> local == email[..FirstIndex(email, '@')];
      local
    else "there"
  }

  /** What the panel does with one submission. */
  datatype Action = Nothing | ShowResponse(text: string) | SwitchTab(tab: string) | Navigate(path: string)

  const Apology := "Sorry, something went wrong."
  const NewGoalPath := "/new-goal"

  /** `data.response`, with an absent field read as the empty response
      (both render the greeting again). */
  function OrEmpty(s: Option<string>): string {
    if s.Some? then s.value else ""
  }

  /** `handleSubmit`'s decision: nothing for an empty prompt; for an ok reply
      with a truthy redirect, a tab switch for `/new-goal` and a navigation
      otherwise; the response text for an ok reply without one; the apology
      for any failure. */
  function Dispatch(prompt: string, reply: Fetch<AiApi.AssistBody>): (a: Action)
    ensures prompt == "" ==> a == Nothing
    ensures a.SwitchTab? <==> prompt != "" && reply.Ok? && reply.data.redirect == Some(NewGoalPath)
    ensures a.SwitchTab? ==> a.tab == "new-goal"
    ensures a.Navigate? <==>
      prompt != "" && reply.Ok? && Present(reply.data.redirect) && reply.data.redirect != Some(NewGoalPath)
    ensures a.Navigate? ==> reply.Ok? && reply.data.redirect == Some(a.path)
    ensures prompt != "" && !reply.Ok? ==> a == ShowResponse(Apology)
    ensures prompt != "" && reply.Ok? && !Present(reply.data.redirect) ==>
      a == ShowResponse(OrEmpty(reply.data.response))
  {
    if prompt == "" then Nothing
    else match reply
      case Ok(data) =>
        if Present(data.redirect) then
          if data.redirect.value == NewGoalPath then SwitchTab("new-goal") else Navigate(data.redirect.value)
        else ShowResponse(OrEmpty(data.response))
      case NotOk => ShowResponse(Apology)
      case Thrown => ShowResponse(Apology)
  }

  /** Composed with the assistant endpoint's answer: a non-empty prompt it
      maps to `/new-goal` switches the tab, the other redirects navigate, and
      every other prompt shows its fallback text. */
  lemma AssistEndToEnd(prompt: string)
    requires prompt != ""
    ensures var a := Dispatch(prompt, Ok(AiApi.ToBody(AiApi.Assist(prompt))));
      && (Lower(prompt) == "create new goal" <==> a == SwitchTab("new-goal"))
      && (Lower(prompt) == "go to to-do" ==> a == Navigate("/?tab=todos"))
      && (StartsWith(Lower(prompt), "edit habits for") ==> a == Navigate("/edit-habits"))
      && (Lower(prompt) == "go to dashboard" ==> a == Navigate("/"))
      && (AiApi.Assist(prompt).Response? <==> a == ShowResponse(AiApi.Fallback))
  {
    var p := Lower(prompt);
    var body := AiApi.ToBody(AiApi.Assist(prompt));
    var a := Dispatch(prompt, Ok(body));
    if p == "go to to-do" {
      assert body.redirect == Some("/?tab=todos");
      assert a == Navigate("/?tab=todos");
    } else if StartsWith(p, "edit habits for") {
      assert p[0] == 'e';
      assert body.redirect == Some("/edit-habits");
      assert a == Navigate("/edit-habits");
    } else if p == "create new goal" {
      assert body.redirect == Some(NewGoalPath);
    } else if p == "go to dashboard" {
      assert body.redirect == Some("/");
      assert a == Navigate("/");
    } else {
      assert body == AiApi.AssistBody(None, Some(AiApi.Fallback));
    }
  }

  /** The panel's state and the two pieces of page state it drives: the
      dashboard's active tab and the window location. */
  class AssistPanel {
    var prompt: string
    var response: string
    var activeTab: string
    var location: string

    constructor (activeTab: string, location: string)
      ensures prompt == "" && response == "" && this.activeTab == activeTab && this.location == location
    {
      prompt := "";
      response := "";
      this.activeTab := activeTab;
      this.location := location;
    }

    method SetPrompt(text: string)
      modifies this
      ensures prompt == text && response == old(response)
      ensures activeTab == old(activeTab) && location == old(location)
    {
      prompt := text;
    }

    /** `handleSubmit`; `reply` is the outcome of the POST to `/api/v1/ai/assist`. */
    method HandleSubmit(reply: Fetch<AiApi.AssistBody>)
      modifies this
      ensures prompt == old(prompt)
      ensures var a := Dispatch(old(prompt), reply);
        && response == (if a.ShowResponse? then a.text else old(response))
        && activeTab == (if a.SwitchTab? then a.tab else old(activeTab))
        && location == (if a.Navigate? then a.path else old(location))
    {
      if prompt == "" {
        return;
      }
      match reply {
        case Ok(data) =>
          if data.redirect.Some? && data.redirect.value != "" {
            if data.redirect.value == NewGoalPath {
              activeTab := "new-goal";
            } else {
              location := data.redirect.value;
            }
          } else {
            response := OrEmpty(data.response);
          }
        case NotOk =>
          response := Apology;
        case Thrown =>
          response := Apology;
      }
    }
  }
}
