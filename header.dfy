/** The dashboard header's three numbers: total, completed and remaining habits. */
module Header {
  import opened Wrappers
  import opened Types
  import opened TodoList

  /** `goals.reduce((acc, goal) => acc + goal.habits.length, 0)`, folded from the left. */
  function TotalHabits(goals: seq<GoalWithHabits>): (n: nat)
    ensures n == 0 <==> forall i :: 0 <= i < |goals| ==> goals[i].habits == []
    ensures forall i :: 0 <= i < |goals| ==> |goals[i].habits| <= n
    decreases |goals|
  {
    if goals == [] then 0
    else
      var init := goals[..|goals| - 1];
      assert forall i :: 0 <= i < |init| ==> init[i] == goals[i];
      TotalHabits(init) + |goals[|goals| - 1].habits|
  }

  /** The reduce adds up over any split of the goal list. */
  lemma {:induction false} TotalHabitsAppend(a: seq<GoalWithHabits>, b: seq<GoalWithHabits>)
    ensures TotalHabits(a + b) == TotalHabits(a) + TotalHabits(b)
    decreases |b|
  {
    if b == [] {
      assert a + b == a;
    } else {
      var c := a + b;
      assert c[..|c| - 1] == a + b[..|b| - 1];
      TotalHabitsAppend(a, b[..|b| - 1]);
    }
  }

  /** A single goal contributes exactly its own habit count. */
  lemma TotalHabitsOne(g: GoalWithHabits)
    ensures TotalHabits([g]) == |g.habits|
  {
    assert [g][..0] == [];
  }

  /** A to-do that the header counts as a completed habit. */
  predicate CountsAsCompletedHabit(t: Todo) {
    t.completed && Present(t.habitId)
  }

  /** `todos.filter(todo => todo.completed && todo.habit_id)`. */
  function CompletedHabitTodos(todos: seq<Todo>): (r: seq<Todo>)
    ensures |r| <= |todos|
    ensures forall t :: t in r <==> t in todos && CountsAsCompletedHabit(t)
  {
    if todos == [] then []
    else (if CountsAsCompletedHabit(todos[0]) then [todos[0]] else []) + CompletedHabitTodos(todos[1..])
  }

  /** The filter works piecewise on any split of the list, so it keeps each
      counted to-do once, in order. */
  lemma {:induction false} CompletedHabitTodosAppend(a: seq<Todo>, b: seq<Todo>)
    ensures CompletedHabitTodos(a + b) == CompletedHabitTodos(a) + CompletedHabitTodos(b)
  {
    if a == [] {
      assert a + b == b;
    } else {
      assert (a + b)[0] == a[0];
      assert (a + b)[1..] == a[1..] + b;
      CompletedHabitTodosAppend(a[1..], b);
    }
  }

  /** The number of to-dos the header counts as completed habits. */
  function CountCompleted(todos: seq<Todo>): nat {
    if todos == [] then 0
    else (if CountsAsCompletedHabit(todos[0]) then 1 else 0) + CountCompleted(todos[1..])
  }

  /** `filter(...).length` is the number of completed habit to-dos, and it
      adds up over any split of the list. */
  lemma {:induction false} CompletedHabitsCounts(a: seq<Todo>, b: seq<Todo>)
    ensures CompletedHabits(a) == CountCompleted(a)
    ensures CompletedHabits(a + b) == CompletedHabits(a) + CompletedHabits(b)
  {
    CompletedHabitTodosAppend(a, b);
    if a != [] {
      CompletedHabitsCounts(a[1..], b);
    }
  }

  function CompletedHabits(todos: seq<Todo>): (n: nat)
    ensures n <= |todos|
    ensures n == 0 <==> forall k :: 0 <= k < |todos| ==> !CountsAsCompletedHabit(todos[k])
  {
    var r := CompletedHabitTodos(todos);
    assert r != [] ==> r[0] in r;
    |r|
  }

  /** `totalHabits - completedHabits`, with no clamping. */
  function RemainingHabits(goals: seq<GoalWithHabits>, todos: seq<Todo>): (r: int)
    ensures TotalHabits(goals) - |todos| <= r <= TotalHabits(goals)
    ensures r == TotalHabits(goals) <==> forall k :: 0 <= k < |todos| ==> !CountsAsCompletedHabit(todos[k])
  {
    TotalHabits(goals) - CompletedHabits(todos)
  }

  /** The three header numbers add up, and the remaining count can go below zero. */
  lemma HeaderBalance(goals: seq<GoalWithHabits>, todos: seq<Todo>)
    ensures RemainingHabits(goals, todos) + CompletedHabits(todos) == TotalHabits(goals)
    ensures RemainingHabits(goals, todos) >= TotalHabits(goals) - |todos|
  {
  }

  lemma RemainingCanBeNegative()
    ensures RemainingHabits([], [Todo("t", "read", true, "", Some("h"))]) == -1
  {
    var todos := [Todo("t", "read", true, "", Some("h"))];
    assert CompletedHabitTodos(todos[1..]) == [];
    assert CompletedHabitTodos(todos) == todos;
  }

  /** Toggling a pending habit to-do on (as the to-do list does after an ok
      reply) raises the completed count by exactly one. */
  lemma {:induction false} ToggleOnCountsOne(todos: seq<Todo>, k: nat)
    requires k < |todos| && UniqueIds(todos)
    requires !todos[k].completed && Present(todos[k].habitId)
    ensures CompletedHabits(Toggled(todos, todos[k].id, false)) == CompletedHabits(todos) + 1
  {
    var id := todos[k].id;
    var tail := todos[1..];
    assert UniqueIds(tail) by {
      forall i, j | 0 <= i < j < |tail| ensures tail[i].id != tail[j].id {
        assert tail[i] == todos[i + 1] && tail[j] == todos[j + 1];
      }
    }
    if k == 0 {
      assert Toggled(tail, id, false) == tail by {
        forall i | 0 <= i < |tail| ensures Toggled(tail, id, false)[i] == tail[i] {
          assert tail[i] == todos[i + 1];
        }
      }
    } else {
      ToggleOnCountsOne(tail, k - 1);
      assert tail[k - 1] == todos[k];
    }
  }
}
