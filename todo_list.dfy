/** The to-do list card: toggling and deleting to-dos by id after the
    backend answers, and the text of the SMS summary. */
module TodoList {
  import opened Wrappers
  import opened Types
  import opened Text
  import opened AuthContext

  /** The list after `todos.map(todo => todo._id === id ? {...todo, completed: !completed} : todo)`. */
  function Toggled(todos: seq<Todo>, id: string, completed: bool): (r: seq<Todo>)
    ensures |r| == |todos|
    ensures forall k :: 0 <= k < |todos| ==>
      && r[k].id == todos[k].id
      && r[k].description == todos[k].description
      && r[k].dueDate == todos[k].dueDate
      && r[k].habitId == todos[k].habitId
      && r[k].completed == (if todos[k].id == id then !completed else todos[k].completed)
  {
    if todos == [] then []
    else
      var t := todos[0];
      [if t.id == id then t.(completed := !completed) else t] + Toggled(todos[1..], id, completed)
  }

  /** Ids are unique within the list, as the backend's document ids are. */
  predicate UniqueIds(todos: seq<Todo>) {
    forall i, j :: 0 <= i < j < |todos| ==> todos[i].id != todos[j].id
  }

  /** Clicking a checkbox passes the row's current flag, so clicking the same
      row twice (both requests succeeding) gives back the original list. */
  lemma ToggleTwiceRestores(todos: seq<Todo>, k: nat)
    requires k < |todos| && UniqueIds(todos)
    ensures var once := Toggled(todos, todos[k].id, todos[k].completed);
            once[k].completed == !todos[k].completed &&
            Toggled(once, once[k].id, once[k].completed) == todos
  {
    var id := todos[k].id;
    var once := Toggled(todos, id, todos[k].completed);
    assert once[k].id == id && once[k].completed == !todos[k].completed;
    var twice := Toggled(once, id, !todos[k].completed);
    forall i | 0 <= i < |todos|
      ensures twice[i] == todos[i]
    {
      if i != k {
        assert todos[i].id != id;
      }
      var t := todos[i];
      assert twice[i] == Todo(t.id, t.description, t.completed, t.dueDate, t.habitId);
    }
    assert twice == todos;
  }

  /** The list after `todos.filter(todo => todo._id !== id)`. */
  function Without(todos: seq<Todo>, id: string): (r: seq<Todo>)
    ensures |r| <= |todos|
    ensures forall t :: t in r <==> t in todos && t.id != id
  {
    if todos == [] then []
    else (if todos[0].id != id then [todos[0]] else []) + Without(todos[1..], id)
  }

  /** The number of to-dos in the list that carry the id. */
  function CountId(todos: seq<Todo>, id: string): nat {
    if todos == [] then 0
    else (if todos[0].id == id then 1 else 0) + CountId(todos[1..], id)
  }

  /** Deleting keeps the relative order: it works piecewise on any split of the list. */
  lemma {:induction false} WithoutKeepsOrder(a: seq<Todo>, b: seq<Todo>, id: string)
    ensures Without(a + b, id) == Without(a, id) + Without(b, id)
  {
    if a == [] {
      assert a + b == b;
    } else {
      assert (a + b)[0] == a[0];
      assert (a + b)[1..] == a[1..] + b;
      WithoutKeepsOrder(a[1..], b, id);
    }
  }

  /** Deleting removes exactly the matching to-dos, and is the identity when
      no to-do matches. */
  lemma {:induction false} WithoutRemovesMatches(a: seq<Todo>, id: string)
    ensures |Without(a, id)| + CountId(a, id) == |a|
    ensures CountId(a, id) == 0 ==> Without(a, id) == a
  {
    if a != [] {
      WithoutRemovesMatches(a[1..], id);
      assert a == [a[0]] + a[1..];
    }
  }

  /** One line of the SMS: `description - Completed` or `description - Pending`. */
  function SmsLine(t: Todo): string {
    t.description + StatusSuffix(t.completed)
  }

  function StatusSuffix(completed: bool): (r: string)
    ensures '\n' !in r
  {
    var r := if completed then " - Completed" else " - Pending";
    assert forall i :: 0 <= i < |r| ==> r[i] != '\n';
    r
  }

  lemma SmsLineHasNoNewline(t: Todo)
    requires '\n' !in t.description
    ensures '\n' !in SmsLine(t)
  {
  }

  function SmsLines(todos: seq<Todo>): (r: seq<string>)
    ensures |r| == |todos|
    ensures forall k :: 0 <= k < |todos| ==> r[k] == SmsLine(todos[k])
  {
    if todos == [] then [] else [SmsLine(todos[0])] + SmsLines(todos[1..])
  }

  /** The SMS text: the lines joined by newlines. */
  function SmsMessage(todos: seq<Todo>): (m: string)
    ensures todos == [] ==> m == ""
    ensures |todos| == 1 ==> m == SmsLine(todos[0])
    ensures |todos| > 1 ==> m == SmsLine(todos[0]) + "\n" + SmsMessage(todos[1..])
  {
    Join(SmsLines(todos), '\n')
  }

  /** The message has exactly one line per to-do, in list order, when no
      description itself holds a newline, and is empty for an empty list. */
  lemma SmsMessageLines(todos: seq<Todo>)
    requires forall k :: 0 <= k < |todos| ==> '\n' !in todos[k].description
    ensures todos == [] ==> SmsMessage(todos) == ""
    ensures todos != [] ==> Split(SmsMessage(todos), '\n') == SmsLines(todos)
  {
    var lines := SmsLines(todos);
    forall k | 0 <= k < |lines|
      ensures '\n' !in lines[k]
    {
      SmsLineHasNoNewline(todos[k]);
    }
    if todos != [] {
      SplitJoin(lines, '\n');
    }
  }

  /** The body of the request to `/api/v1/sms/send-sms/`. */
  datatype SmsRequest = SmsRequest(phoneNumber: string, message: string)

  /** The list state the card shows and replaces through `setTodos`. */
  class TodoListView {
    var todos: seq<Todo>

    constructor (todos: seq<Todo>)
      ensures this.todos == todos
    {
      this.todos := todos;
    }

    /** `handleToggle(id, completed)`. `reply` is the answer to the PUT request;
        the returned `nav` is the route pushed, if any. */
    method HandleToggle(storage: TokenStore, id: string, completed: bool, reply: Fetch<()>)
      returns (nav: Option<string>)
      modifies this
      ensures !Present(storage.token) ==> nav == Some(LoginRoute) && todos == old(todos)
      ensures Present(storage.token) ==> nav == None
      ensures Present(storage.token) && reply.Ok? ==> todos == Toggled(old(todos), id, completed)
      ensures !reply.Ok? ==> todos == old(todos)
    {
      var token := storage.token;
      if !(token.Some? && token.value != "") {
        return Some(LoginRoute);
      }
      nav := None;
      if reply.Ok? {
        todos := Toggled(todos, id, completed);
      }
    }

    /** The checkbox of row `k`: it passes the row's id and current flag. */
    method ToggleRow(storage: TokenStore, k: nat, reply: Fetch<()>) returns (nav: Option<string>)
      requires k < |todos|
      modifies this
      ensures Present(storage.token) && reply.Ok? ==>
        todos == Toggled(old(todos), old(todos)[k].id, old(todos)[k].completed)
      ensures !Present(storage.token) || !reply.Ok? ==> todos == old(todos)
    {
      nav := HandleToggle(storage, todos[k].id, todos[k].completed, reply);
    }

    /** `handleDelete(id)`. `confirmed` is the user's answer to the confirm
        dialog; `reply` the answer to the DELETE request. */
    method HandleDelete(storage: TokenStore, id: string, confirmed: bool, reply: Fetch<()>)
      returns (nav: Option<string>)
      modifies this
      ensures !Present(storage.token) ==> nav == Some(LoginRoute) && todos == old(todos)
      ensures Present(storage.token) ==> nav == None
      ensures Present(storage.token) && confirmed && reply.Ok? ==> todos == Without(old(todos), id)
      ensures !confirmed || !reply.Ok? ==> todos == old(todos)
    {
      var token := storage.token;
      if !(token.Some? && token.value != "") {
        return Some(LoginRoute);
      }
      nav := None;
      if confirmed && reply.Ok? {
        todos := Without(todos, id);
      }
    }

    /** `handleSendSms`: the request it sends, if any, and the alert it shows. */
    method HandleSendSms(storage: TokenStore, phoneNumber: string, reply: Fetch<()>)
      returns (nav: Option<string>, request: Option<SmsRequest>, alert: Option<string>)
      ensures !Present(storage.token) ==> nav == Some(LoginRoute) && request == None && alert == None
      ensures Present(storage.token) ==>
        && nav == None
        && request == Some(SmsRequest(phoneNumber, SmsMessage(todos)))
        && alert == Some(match reply
                         case Ok(_) => "SMS sent successfully!"
                         case NotOk => "Failed to send SMS."
                         case Thrown => "An error occurred while sending the SMS.")
    {
      var token := storage.token;
      if !(token.Some? && token.value != "") {
        return Some(LoginRoute), None, None;
      }
      var message := SmsMessage(todos);
      request := Some(SmsRequest(phoneNumber, message));
      nav := None;
      match reply {
        case Ok(_) => alert := Some("SMS sent successfully!");
        case NotOk => alert := Some("Failed to send SMS.");
        case Thrown => alert := Some("An error occurred while sending the SMS.");
      }
    }
  }
}
