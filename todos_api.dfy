/** The backend's to-do endpoints: the daily to-dos derived from daily
    habits, and the completion update. */
module TodosApi {
  import opened Wrappers
  import opened Database

  const MicrosPerSecond := 1_000_000
  const SecondsPerDay := 86_400

  /** `datetime(today.year, today.month, today.day)` for day number `day`. */
  function StartOfDay(day: int): int {
    day * SecondsPerDay * MicrosPerSecond
  }

  /** `datetime(..., 23, 59, 59)`: the last whole second of the day. */
  function EndOfDay(day: int): int {
    StartOfDay(day) + (SecondsPerDay - 1) * MicrosPerSecond
  }

  /** The `due_date` window of the lookup: `$gte` start and `$lte` end. */
  predicate DueOn(t: TodoDoc, day: int) {
    StartOfDay(day) <= t.dueDate <= EndOfDay(day)
  }

  /** `[goal["_id"] for goal in goals]` over the user's goals. */
  function GoalIdsOf(goals: seq<GoalDoc>, user: Id): (r: seq<Id>)
    ensures forall k :: 0 <= k < |goals| && goals[k].userId == user ==> goals[k].id in r
    ensures forall id :: id in r ==> exists k :: 0 <= k < |goals| && goals[k].userId == user && goals[k].id == id
  {
    if goals == [] then []
    else
      var rest := GoalIdsOf(goals[1..], user);
      assert forall id :: id in rest ==> exists k :: 1 <= k < |goals| && goals[k].userId == user && goals[k].id == id by {
        forall id | id in rest
          ensures exists k :: 1 <= k < |goals| && goals[k].userId == user && goals[k].id == id
        {
          var k :| 0 <= k < |goals[1..]| && goals[1..][k].userId == user && goals[1..][k].id == id;
          assert goals[k + 1] == goals[1..][k];
        }
      }
      assert forall k :: 1 <= k < |goals| ==> goals[k] == goals[1..][k - 1];
      (if goals[0].userId == user then [goals[0].id] else []) + rest
  }

  predicate IsDaily(h: HabitDoc, goalIds: seq<Id>) {
    h.frequency == "daily" && h.goalId in goalIds
  }

  /** `db.habits.find({"goal_id": {"$in": goal_ids}, "frequency": "daily"})`. */
  function DailyHabits(habits: seq<HabitDoc>, goalIds: seq<Id>): (r: seq<HabitDoc>)
    ensures |r| <= |habits|
  {
    if habits == [] then []
    else (if IsDaily(habits[0], goalIds) then [habits[0]] else []) + DailyHabits(habits[1..], goalIds)
  }

  /** Exactly the stored daily habits of the given goals are selected. */
  lemma {:induction false} DailyHabitsMembers(habits: seq<HabitDoc>, goalIds: seq<Id>)
    ensures forall h :: h in DailyHabits(habits, goalIds) <==> h in habits && IsDaily(h, goalIds)
  {
    if habits != [] {
      DailyHabitsMembers(habits[1..], goalIds);
      assert habits == [habits[0]] + habits[1..];
    }
  }

  /** The daily habits keep their store order: the query works piecewise on
      any split of the collection. */
  lemma {:induction false} DailyHabitsAppend(a: seq<HabitDoc>, b: seq<HabitDoc>, goalIds: seq<Id>)
    ensures DailyHabits(a + b, goalIds) == DailyHabits(a, goalIds) + DailyHabits(b, goalIds)
  {
    if a == [] {
      assert a + b == b;
    } else {
      var head := if IsDaily(a[0], goalIds) then [a[0]] else [];
      assert (a + b)[0] == a[0];
      assert (a + b)[1..] == a[1..] + b;
      assert DailyHabits(a + b, goalIds) == head + DailyHabits(a[1..] + b, goalIds);
      DailyHabitsAppend(a[1..], b, goalIds);
      assert DailyHabits(a, goalIds) == head + DailyHabits(a[1..], goalIds);
      assert head + (DailyHabits(a[1..], goalIds) + DailyHabits(b, goalIds))
          == (head + DailyHabits(a[1..], goalIds)) + DailyHabits(b, goalIds);
    }
  }

  /** The daily habits keep the store's distinct ids. */
  lemma {:induction false} DailyHabitsDistinct(habits: seq<HabitDoc>, goalIds: seq<Id>)
    requires HabitIdsDistinct(habits)
    ensures HabitIdsDistinct(DailyHabits(habits, goalIds))
  {
    if habits != [] {
      var tail := habits[1..];
      assert HabitIdsDistinct(tail) by {
        forall i, j | 0 <= i < j < |tail| ensures tail[i].id != tail[j].id {
          assert tail[i] == habits[i + 1] && tail[j] == habits[j + 1];
        }
      }
      DailyHabitsDistinct(tail, goalIds);
      DailyHabitsMembers(tail, goalIds);
      var rest := DailyHabits(tail, goalIds);
      forall h | h in rest ensures h.id != habits[0].id {
        var j :| 0 <= j < |tail| && tail[j] == h;
        assert habits[j + 1] == h;
      }
      var r := DailyHabits(habits, goalIds);
      if IsDaily(habits[0], goalIds) {
        forall i, j | 0 <= i < j < |r| ensures r[i].id != r[j].id {
          assert r[j] == rest[j - 1];
          assert rest[j - 1] in rest;
          if i > 0 {
            assert r[i] == rest[i - 1];
          }
        }
      }
    }
  }

  /** `db.todos.find_one(...)`: the first to-do, in store order, for the habit
      with a due date inside the day's window. */
  function FindToday(todos: seq<TodoDoc>, habitId: Id, day: int): (r: Option<TodoDoc>)
    ensures r.Some? ==> r.value in todos && r.value.habitId == Some(habitId) && DueOn(r.value, day)
    ensures r.None? ==> forall t :: t in todos ==> !(t.habitId == Some(habitId) && DueOn(t, day))
  {
    if todos == [] then None
    else if todos[0].habitId == Some(habitId) && DueOn(todos[0], day) then Some(todos[0])
    else FindToday(todos[1..], habitId, day)
  }

  /** Appending keeps a first match first, and else finds the first match of
      the appended part. */
  lemma {:induction false} FindTodayAppend(todos: seq<TodoDoc>, extra: seq<TodoDoc>, habitId: Id, day: int)
    ensures FindToday(todos, habitId, day).Some? ==>
      FindToday(todos + extra, habitId, day) == FindToday(todos, habitId, day)
    ensures FindToday(todos, habitId, day).None? ==>
      FindToday(todos + extra, habitId, day) == FindToday(extra, habitId, day)
  {
    if todos == [] {
      assert todos + extra == extra;
    } else {
      assert (todos + extra)[0] == todos[0];
      assert (todos + extra)[1..] == todos[1..] + extra;
      FindTodayAppend(todos[1..], extra, habitId, day);
    }
  }

  /** The to-do `get_daily_todos` creates for a habit that has none today. */
  predicate IsNewTodoFor(t: TodoDoc, h: HabitDoc, user: Id, day: int) {
    && t.description == h.description
    && !t.completed
    && t.dueDate == StartOfDay(day)
    && t.userId == user
    && t.habitId == Some(h.id)
  }

  /** The to-dos among `ts` whose id is at least `bound`, i.e. the ones given
      fresh ids after the store's counter stood at `bound`. */
  function FreshOnes(ts: seq<TodoDoc>, bound: Id): (r: seq<TodoDoc>)
    ensures |r| <= |ts|
  {
    if ts == [] then []
    else FreshOnes(ts[..|ts| - 1], bound) + (if ts[|ts| - 1].id >= bound then [ts[|ts| - 1]] else [])
  }

  lemma {:induction false} FreshOnesMembers(ts: seq<TodoDoc>, bound: Id)
    ensures forall t :: t in FreshOnes(ts, bound) ==> t in ts && t.id >= bound
  {
    if ts != [] {
      FreshOnesMembers(ts[..|ts| - 1], bound);
      assert ts == ts[..|ts| - 1] + [ts[|ts| - 1]];
    }
  }

  lemma {:induction false} FreshOnesNone(ts: seq<TodoDoc>, bound: Id)
    requires forall k :: 0 <= k < |ts| ==> ts[k].id < bound
    ensures FreshOnes(ts, bound) == []
  {
    if ts != [] {
      FreshOnesNone(ts[..|ts| - 1], bound);
    }
  }

  // What the loop of `get_daily_todos` has established once `result` holds
  // the to-dos of the first `|result|` daily habits, in four parts.

  /** The store grew by the freshly created to-dos only, and every id stays
      below the counter. */
  ghost predicate Grown(before: seq<TodoDoc>, bound: Id, todos: seq<TodoDoc>, nextId: Id, result: seq<TodoDoc>) {
    && nextId >= bound
    && todos == before + FreshOnes(result, bound)
    && (forall k :: 0 <= k < |todos| ==> todos[k].id < nextId)
  }

  /** Each result belongs to its habit and is due today. */
  ghost predicate Keyed(daily: seq<HabitDoc>, result: seq<TodoDoc>, day: int) {
    && |result| <= |daily|
    && (forall j :: 0 <= j < |result| ==> result[j].habitId == Some(daily[j].id) && DueOn(result[j], day))
  }

  /** Each handled habit now finds its result as today's first match. */
  ghost predicate Found(todos: seq<TodoDoc>, daily: seq<HabitDoc>, result: seq<TodoDoc>, day: int) {
    && |result| <= |daily|
    && (forall j :: 0 <= j < |result| ==> FindToday(todos, daily[j].id, day) == Some(result[j]))
  }

  /** Each result is the to-do the habit already had, or a new one made for it. */
  ghost predicate Origins(before: seq<TodoDoc>, bound: Id, daily: seq<HabitDoc>, result: seq<TodoDoc>, user: Id, day: int) {
    && |result| <= |daily|
    && (forall j :: 0 <= j < |result| && FindToday(before, daily[j].id, day).Some? ==>
          result[j] == FindToday(before, daily[j].id, day).value && result[j].id < bound)
    && (forall j :: 0 <= j < |result| && FindToday(before, daily[j].id, day).None? ==>
          IsNewTodoFor(result[j], daily[j], user, day) && result[j].id >= bound)
  }

  /** No fresh to-do yet belongs to the next daily habit, since habit ids are distinct. */
  lemma NextHabitHasNoFreshTodo(
    before: seq<TodoDoc>, bound: Id, todos: seq<TodoDoc>, nextId: Id,
    daily: seq<HabitDoc>, result: seq<TodoDoc>, day: int)
    requires Grown(before, bound, todos, nextId, result) && Keyed(daily, result, day)
    requires |result| < |daily| && HabitIdsDistinct(daily)
    ensures FindToday(todos, daily[|result|].id, day) == FindToday(before, daily[|result|].id, day)
  {
    var i := |result|;
    var added := FreshOnes(result, bound);
    FreshOnesMembers(result, bound);
    FindTodayAppend(before, added, daily[i].id, day);
    forall t | t in added
      ensures !(t.habitId == Some(daily[i].id) && DueOn(t, day))
    {
      var j :| 0 <= j < i && result[j] == t;
      assert daily[j].id != daily[i].id;
    }
  }

  lemma GrownByNew(before: seq<TodoDoc>, bound: Id, todos: seq<TodoDoc>, nextId: Id, result: seq<TodoDoc>, t: TodoDoc)
    requires Grown(before, bound, todos, nextId, result) && t.id == nextId
    ensures Grown(before, bound, todos + [t], nextId + 1, result + [t])
  {
    assert (result + [t])[..|result|] == result;
  }

  lemma GrownByExisting(before: seq<TodoDoc>, bound: Id, todos: seq<TodoDoc>, nextId: Id, result: seq<TodoDoc>, t: TodoDoc)
    requires Grown(before, bound, todos, nextId, result) && t.id < bound
    ensures Grown(before, bound, todos, nextId, result + [t])
  {
    assert (result + [t])[..|result|] == result;
  }

  lemma KeyedStep(daily: seq<HabitDoc>, result: seq<TodoDoc>, day: int, t: TodoDoc)
    requires Keyed(daily, result, day) && |result| < |daily|
    requires t.habitId == Some(daily[|result|].id) && DueOn(t, day)
    ensures Keyed(daily, result + [t], day)
  {
  }

  lemma FoundByNew(todos: seq<TodoDoc>, daily: seq<HabitDoc>, result: seq<TodoDoc>, day: int, t: TodoDoc)
    requires Found(todos, daily, result, day) && |result| < |daily|
    requires FindToday(todos, daily[|result|].id, day).None?
    requires t.habitId == Some(daily[|result|].id) && DueOn(t, day)
    ensures Found(todos + [t], daily, result + [t], day)
  {
    forall j | 0 <= j < |result|
      ensures FindToday(todos + [t], daily[j].id, day) == Some(result[j])
    {
      FindTodayAppend(todos, [t], daily[j].id, day);
    }
    FindTodayAppend(todos, [t], daily[|result|].id, day);
  }

  lemma FoundByExisting(todos: seq<TodoDoc>, daily: seq<HabitDoc>, result: seq<TodoDoc>, day: int, t: TodoDoc)
    requires Found(todos, daily, result, day) && |result| < |daily|
    requires FindToday(todos, daily[|result|].id, day) == Some(t)
    ensures Found(todos, daily, result + [t], day)
  {
  }

  lemma OriginsByNew(before: seq<TodoDoc>, bound: Id, daily: seq<HabitDoc>, result: seq<TodoDoc>, user: Id, day: int, t: TodoDoc)
    requires Origins(before, bound, daily, result, user, day) && |result| < |daily|
    requires FindToday(before, daily[|result|].id, day).None?
    requires IsNewTodoFor(t, daily[|result|], user, day) && t.id >= bound
    ensures Origins(before, bound, daily, result + [t], user, day)
  {
  }

  lemma OriginsByExisting(before: seq<TodoDoc>, bound: Id, daily: seq<HabitDoc>, result: seq<TodoDoc>, user: Id, day: int, t: TodoDoc)
    requires Origins(before, bound, daily, result, user, day) && |result| < |daily|
    requires FindToday(before, daily[|result|].id, day) == Some(t) && t.id < bound
    ensures Origins(before, bound, daily, result + [t], user, day)
  {
  }

  /** One turn of the loop keeps all four parts: `t`, `todos1` and `next1`
      are what `TodayFor` gives for the next daily habit. */
  lemma Advance(
    before: seq<TodoDoc>, bound: Id, todos0: seq<TodoDoc>, next0: Id, todos1: seq<TodoDoc>, next1: Id,
    daily: seq<HabitDoc>, result: seq<TodoDoc>, user: Id, day: int, t: TodoDoc)
    requires |result| < |daily| && HabitIdsDistinct(daily)
    requires forall k :: 0 <= k < |before| ==> before[k].id < bound
    requires Grown(before, bound, todos0, next0, result) && Keyed(daily, result, day)
    requires Found(todos0, daily, result, day) && Origins(before, bound, daily, result, user, day)
    requires FindToday(todos0, daily[|result|].id, day).Some? ==>
      t == FindToday(todos0, daily[|result|].id, day).value && todos1 == todos0 && next1 == next0
    requires FindToday(todos0, daily[|result|].id, day).None? ==>
      t == TodoDoc(next0, daily[|result|].description, false, StartOfDay(day), user, Some(daily[|result|].id))
      && todos1 == todos0 + [t] && next1 == next0 + 1
    ensures Grown(before, bound, todos1, next1, result + [t]) && Keyed(daily, result + [t], day)
    ensures Found(todos1, daily, result + [t], day) && Origins(before, bound, daily, result + [t], user, day)
  {
    var habit := daily[|result|];
    NextHabitHasNoFreshTodo(before, bound, todos0, next0, daily, result, day);
    if FindToday(todos0, habit.id, day).Some? {
      assert t in before;
      GrownByExisting(before, bound, todos0, next0, result, t);
      FoundByExisting(todos0, daily, result, day, t);
      OriginsByExisting(before, bound, daily, result, user, day, t);
    } else {
      GrownByNew(before, bound, todos0, next0, result, t);
      FoundByNew(todos0, daily, result, day, t);
      OriginsByNew(before, bound, daily, result, user, day, t);
    }
    KeyedStep(daily, result, day, t);
  }

  /** Once every daily habit is handled, the four parts say what
      `get_daily_todos` returns. */
  lemma DailyComplete(
    before: seq<TodoDoc>, bound: Id, todos: seq<TodoDoc>, nextId: Id,
    daily: seq<HabitDoc>, result: seq<TodoDoc>, user: Id, day: int)
    requires |result| == |daily|
    requires Grown(before, bound, todos, nextId, result) && Keyed(daily, result, day)
    requires Found(todos, daily, result, day) && Origins(before, bound, daily, result, user, day)
    ensures (forall k :: 0 <= k < |daily| ==> result[k].habitId == Some(daily[k].id) && DueOn(result[k], day))
    ensures (forall k :: 0 <= k < |daily| ==> FindToday(todos, daily[k].id, day) == Some(result[k]))
    ensures (forall k :: 0 <= k < |daily| && FindToday(before, daily[k].id, day).Some? ==>
              result[k] == FindToday(before, daily[k].id, day).value && result[k].id < bound)
    ensures (forall k :: 0 <= k < |daily| && FindToday(before, daily[k].id, day).None? ==>
              IsNewTodoFor(result[k], daily[k], user, day) && result[k].id >= bound)
    ensures todos == before + FreshOnes(result, bound)
  {
  }

  /** Adding to-dos whose ids lie below a counter that never went back keeps
      the store's invariant. */
  lemma GrownKeepsValid(
    users: seq<UserDoc>, goals: seq<GoalDoc>, habits: seq<HabitDoc>,
    before: seq<TodoDoc>, bound: Id, todos: seq<TodoDoc>, nextId: Id)
    requires ValidState(users, goals, habits, before, bound)
    requires nextId >= bound && forall k :: 0 <= k < |todos| ==> todos[k].id < nextId
    ensures ValidState(users, goals, habits, todos, nextId)
  {
  }

  /** The loop body of `get_daily_todos` for one habit: today's to-do for it,
      or a new one inserted with the next id. */
  method TodayFor(db: Store, habit: HabitDoc, user: Id, day: int) returns (t: TodoDoc)
    modifies db`todos, db`nextId
    ensures FindToday(old(db.todos), habit.id, day).Some? ==>
      t == FindToday(old(db.todos), habit.id, day).value
      && db.todos == old(db.todos) && db.nextId == old(db.nextId)
    ensures FindToday(old(db.todos), habit.id, day).None? ==>
      t == TodoDoc(old(db.nextId), habit.description, false, StartOfDay(day), user, Some(habit.id))
      && db.todos == old(db.todos) + [t] && db.nextId == old(db.nextId) + 1
  {
    var existing := FindToday(db.todos, habit.id, day);
    if existing.Some? {
      t := existing.value;
    } else {
      t := TodoDoc(db.nextId, habit.description, false, StartOfDay(day), user, Some(habit.id));
      db.todos := db.todos + [t];
      db.nextId := db.nextId + 1;
    }
  }

  /** The loop of `get_daily_todos` over the selected daily habits, in order:
      today's to-do for each, created and inserted when there is none. */
  method TodosForHabits(db: Store, daily: seq<HabitDoc>, user: Id, day: int) returns (result: seq<TodoDoc>)
    requires HabitIdsDistinct(daily)
    requires forall k :: 0 <= k < |db.todos| ==> db.todos[k].id < db.nextId
    modifies db`todos, db`nextId
    ensures |result| == |daily|
    ensures forall k :: 0 <= k < |daily| ==> result[k].habitId == Some(daily[k].id) && DueOn(result[k], day)
    ensures forall k :: 0 <= k < |daily| ==> FindToday(db.todos, daily[k].id, day) == Some(result[k])
    ensures forall k :: 0 <= k < |daily| && FindToday(old(db.todos), daily[k].id, day).Some? ==>
      result[k] == FindToday(old(db.todos), daily[k].id, day).value && result[k].id < old(db.nextId)
    ensures forall k :: 0 <= k < |daily| && FindToday(old(db.todos), daily[k].id, day).None? ==>
      IsNewTodoFor(result[k], daily[k], user, day) && result[k].id >= old(db.nextId)
    ensures db.todos == old(db.todos) + FreshOnes(result, old(db.nextId))
    ensures db.nextId >= old(db.nextId) && forall k :: 0 <= k < |db.todos| ==> db.todos[k].id < db.nextId
  {
    ghost var before := db.todos;
    ghost var bound := db.nextId;
    result := [];
    assert db.todos == before + FreshOnes(result, bound);
    var i := 0;
    while i < |daily|
      modifies db`todos, db`nextId
      invariant 0 <= i <= |daily| && |result| == i
      invariant Grown(before, bound, db.todos, db.nextId, result)
      invariant Keyed(daily, result, day)
      invariant Found(db.todos, daily, result, day)
      invariant Origins(before, bound, daily, result, user, day)
    {
      ghost var todos0, next0 := db.todos, db.nextId;
      var t := TodayFor(db, daily[i], user, day);
      Advance(before, bound, todos0, next0, db.todos, db.nextId, daily, result, user, day, t);
      result := result + [t];
      i := i + 1;
    }
    DailyComplete(before, bound, db.todos, db.nextId, daily, result, user, day);
  }

  /** `get_daily_todos`: for each daily habit of the user's goals, in habit
      order, return today's to-do, creating and inserting it when there is none. */
  method GetDailyTodos(db: Store, user: Id, day: int) returns (result: seq<TodoDoc>)
    requires db.Valid()
    modifies db
    ensures db.Valid()
    ensures db.users == old(db.users) && db.goals == old(db.goals) && db.habits == old(db.habits)
    ensures db.nextId >= old(db.nextId)
    ensures var daily := DailyHabits(db.habits, GoalIdsOf(db.goals, user));
      && |result| == |daily|
      && (forall k :: 0 <= k < |daily| ==> result[k].habitId == Some(daily[k].id) && DueOn(result[k], day))
      && (forall k :: 0 <= k < |daily| ==> FindToday(db.todos, daily[k].id, day) == Some(result[k]))
      && (forall k :: 0 <= k < |daily| && FindToday(old(db.todos), daily[k].id, day).Some? ==>
            result[k] == FindToday(old(db.todos), daily[k].id, day).value
            && result[k].id < old(db.nextId))
      && (forall k :: 0 <= k < |daily| && FindToday(old(db.todos), daily[k].id, day).None? ==>
            IsNewTodoFor(result[k], daily[k], user, day) && result[k].id >= old(db.nextId))
      && db.todos == old(db.todos) + FreshOnes(result, old(db.nextId))
  {
    var goalIds := GoalIdsOf(db.goals, user);
    var daily := DailyHabits(db.habits, goalIds);
    DailyHabitsDistinct(db.habits, goalIds);
    ghost var before, bound := db.todos, db.nextId;
    result := TodosForHabits(db, daily, user, day);
    GrownKeepsValid(db.users, db.goals, db.habits, before, bound, db.todos, db.nextId);
  }

  /** Within one day a second call inserts nothing and returns the same
      to-dos: the store ends as the first call left it. */
  method GetDailyTodosTwice(db: Store, user: Id, day: int) returns (first: seq<TodoDoc>, second: seq<TodoDoc>)
    requires db.Valid()
    modifies db
    ensures first == second
    ensures db.todos == old(db.todos) + FreshOnes(first, old(db.nextId))
  {
    first := GetDailyTodos(db, user, day);
    ghost var todos1, next1 := db.todos, db.nextId;
    second := GetDailyTodos(db, user, day);
    forall k | 0 <= k < |second| ensures second[k] == first[k] && second[k].id < next1 {
    }
    FreshOnesNone(second, next1);
    assert db.todos == todos1;
  }

  /** The position of the first to-do with the id that belongs to the user:
      the record `find_one_and_update` matches. */
  function FindOwned(todos: seq<TodoDoc>, todoId: Id, user: Id): (r: Option<nat>)
    ensures r.Some? ==> r.value < |todos| && todos[r.value].id == todoId && todos[r.value].userId == user
    ensures r.None? ==> forall k :: 0 <= k < |todos| ==> !(todos[k].id == todoId && todos[k].userId == user)
  {
    if todos == [] then None
    else if todos[0].id == todoId && todos[0].userId == user then Some(0)
    else
      var rest := FindOwned(todos[1..], todoId, user);
      if rest.Some? then Some(rest.value + 1) else None
  }

  /** `update_todo`: set `completed` on the user's to-do and return it, or raise 404. */
  method UpdateTodo(db: Store, todoId: Id, user: Id, completed: bool) returns (r: Result<TodoDoc, HttpError>)
    requires db.Valid()
    modifies db
    ensures db.Valid()
    ensures db.users == old(db.users) && db.goals == old(db.goals) && db.habits == old(db.habits)
    ensures db.nextId == old(db.nextId)
    ensures match FindOwned(old(db.todos), todoId, user)
      case None => r == Failure(HttpError(404, "Todo not found")) && db.todos == old(db.todos)
      case Some(k) =>
        && db.todos == old(db.todos)[k := old(db.todos)[k].(completed := completed)]
        && r == Success(db.todos[k])
  {
    var found := FindOwned(db.todos, todoId, user);
    match found {
      case None =>
        r := Failure(HttpError(404, "Todo not found"));
      case Some(k) =>
        db.todos := db.todos[k := db.todos[k].(completed := completed)];
        r := Success(db.todos[k]);
    }
  }
}
