/** The backend's goal endpoints: creating a goal with its habit plan, and
    listing the user's goals with their habits. */
module GoalsApi {
  import opened Wrappers
  import opened Database

  /** The cursor cap `to_list(length=100)`. */
  const CursorLimit := 100

  /** One entry of the habit plan the plan generator returns. */
  datatype PlanEntry = PlanEntry(description: string, frequency: string)

  /** The `GoalWithHabits` response: the goal document and its habits. */
  datatype GoalWithHabitsDoc = GoalWithHabitsDoc(goal: GoalDoc, habits: seq<HabitDoc>)

  /** `to_list(length=n)`: at most the first `n` documents of a cursor. */
  function Take<T>(s: seq<T>, n: nat): (r: seq<T>)
    ensures |r| == if |s| <= n then |s| else n
    ensures |s| <= n ==> r == s
    ensures r == s[..|r|]
  {
    if |s| <= n then s else s[..n]
  }

  /** `db.goals.find({"user_id": user})`, in store order. */
  function GoalsOf(goals: seq<GoalDoc>, user: Id): (r: seq<GoalDoc>)
    ensures |r| <= |goals|
  {
    if goals == [] then []
    else (if goals[0].userId == user then [goals[0]] else []) + GoalsOf(goals[1..], user)
  }

  /** The goals found are exactly the stored ones of the user. */
  lemma {:induction false} GoalsOfMembers(goals: seq<GoalDoc>, user: Id)
    ensures forall g :: g in GoalsOf(goals, user) <==> g in goals && g.userId == user
  {
    if goals != [] {
      GoalsOfMembers(goals[1..], user);
      assert goals == [goals[0]] + goals[1..];
    }
  }

  /** The goals of the user keep their store order: the lookup works
      piecewise on any split of the collection. */
  lemma {:induction false} GoalsOfAppend(a: seq<GoalDoc>, b: seq<GoalDoc>, user: Id)
    ensures GoalsOf(a + b, user) == GoalsOf(a, user) + GoalsOf(b, user)
  {
    if a == [] {
      assert a + b == b;
    } else {
      var head := if a[0].userId == user then [a[0]] else [];
      assert (a + b)[0] == a[0];
      assert (a + b)[1..] == a[1..] + b;
      assert GoalsOf(a + b, user) == head + GoalsOf(a[1..] + b, user);
      GoalsOfAppend(a[1..], b, user);
      assert GoalsOf(a, user) == head + GoalsOf(a[1..], user);
      assert head + (GoalsOf(a[1..], user) + GoalsOf(b, user))
          == (head + GoalsOf(a[1..], user)) + GoalsOf(b, user);
    }
  }

  /** `db.habits.find({"goal_id": goalId})`, in store order. */
  function HabitsOf(habits: seq<HabitDoc>, goalId: Id): (r: seq<HabitDoc>)
    ensures |r| <= |habits|
  {
    if habits == [] then []
    else (if habits[0].goalId == goalId then [habits[0]] else []) + HabitsOf(habits[1..], goalId)
  }

  /** The habits found are exactly the stored ones that point at the goal. */
  lemma {:induction false} HabitsOfMembers(habits: seq<HabitDoc>, goalId: Id)
    ensures forall h :: h in HabitsOf(habits, goalId) <==> h in habits && h.goalId == goalId
  {
    if habits != [] {
      HabitsOfMembers(habits[1..], goalId);
      assert habits == [habits[0]] + habits[1..];
    }
  }

  lemma {:induction false} HabitsOfAppend(a: seq<HabitDoc>, b: seq<HabitDoc>, goalId: Id)
    ensures HabitsOf(a + b, goalId) == HabitsOf(a, goalId) + HabitsOf(b, goalId)
  {
    if a == [] {
      assert a + b == b;
    } else {
      var head := if a[0].goalId == goalId then [a[0]] else [];
      assert (a + b)[0] == a[0];
      assert (a + b)[1..] == a[1..] + b;
      assert HabitsOf(a + b, goalId) == head + HabitsOf(a[1..] + b, goalId);
      HabitsOfAppend(a[1..], b, goalId);
      assert HabitsOf(a, goalId) == head + HabitsOf(a[1..], goalId);
      assert head + (HabitsOf(a[1..], goalId) + HabitsOf(b, goalId))
          == (head + HabitsOf(a[1..], goalId)) + HabitsOf(b, goalId);
    }
  }

  lemma {:induction false} HabitsOfNone(habits: seq<HabitDoc>, goalId: Id)
    requires forall k :: 0 <= k < |habits| ==> habits[k].goalId != goalId
    ensures HabitsOf(habits, goalId) == []
  {
    if habits != [] {
      HabitsOfNone(habits[1..], goalId);
    }
  }

  lemma {:induction false} HabitsOfAll(habits: seq<HabitDoc>, goalId: Id)
    requires forall k :: 0 <= k < |habits| ==> habits[k].goalId == goalId
    ensures HabitsOf(habits, goalId) == habits
  {
    if habits != [] {
      HabitsOfAll(habits[1..], goalId);
    }
  }

  /** The habit documents `create_goal` inserts for a plan: one per entry, in
      plan order, copying description and frequency, pointing at the goal,
      with the ids `firstId, firstId + 1, ...` the insert gives them. */
  function Planned(plan: seq<PlanEntry>, goalId: Id, firstId: Id): (r: seq<HabitDoc>)
    ensures |r| == |plan|
  {
    if plan == [] then []
    else
      var n := |plan| - 1;
      Planned(plan[..n], goalId, firstId) + [HabitDoc(firstId + n, plan[n].description, plan[n].frequency, goalId)]
  }

  /** The `k`-th planned habit comes from the `k`-th plan entry. */
  lemma {:induction false} PlannedAt(plan: seq<PlanEntry>, goalId: Id, firstId: Id, k: nat)
    requires k < |plan|
    ensures Planned(plan, goalId, firstId)[k] == HabitDoc(firstId + k, plan[k].description, plan[k].frequency, goalId)
  {
    var n := |plan| - 1;
    if k < n {
      PlannedAt(plan[..n], goalId, firstId, k);
    }
  }

  /** `db.goals.find_one({"_id": goalId})`. */
  function FindGoal(goals: seq<GoalDoc>, goalId: Id): (r: Option<GoalDoc>)
    ensures r.Some? ==> r.value in goals && r.value.id == goalId
    ensures r.None? ==> forall g :: g in goals ==> g.id != goalId
  {
    if goals == [] then None
    else if goals[0].id == goalId then Some(goals[0])
    else FindGoal(goals[1..], goalId)
  }

  /** A goal appended with an id no stored goal has is the one found by that id. */
  lemma {:induction false} FindGoalAppended(goals: seq<GoalDoc>, g: GoalDoc)
    requires forall k :: 0 <= k < |goals| ==> goals[k].id != g.id
    ensures FindGoal(goals + [g], g.id) == Some(g)
  {
    if goals == [] {
      assert goals + [g] == [g];
    } else {
      assert (goals + [g])[1..] == goals[1..] + [g];
      FindGoalAppended(goals[1..], g);
    }
  }

  /** The stored habits of a freshly created goal are exactly its planned habits. */
  lemma CreatedHabitsAreThePlan(oldHabits: seq<HabitDoc>, plan: seq<PlanEntry>, goalId: Id)
    requires forall k :: 0 <= k < |oldHabits| ==> oldHabits[k].goalId < goalId
    ensures HabitsOf(oldHabits + Planned(plan, goalId, goalId + 1), goalId) == Planned(plan, goalId, goalId + 1)
  {
    var added := Planned(plan, goalId, goalId + 1);
    HabitsOfAppend(oldHabits, added, goalId);
    HabitsOfNone(oldHabits, goalId);
    forall k | 0 <= k < |added| ensures added[k].goalId == goalId {
      PlannedAt(plan, goalId, goalId + 1, k);
    }
    HabitsOfAll(added, goalId);
  }

  /** Planned habits take ids above every stored id, so habit ids stay
      distinct and below the advanced counter. */
  lemma PlannedHabitsFit(habits: seq<HabitDoc>, plan: seq<PlanEntry>, goalId: Id)
    requires forall k :: 0 <= k < |habits| ==> habits[k].id < goalId && habits[k].goalId < goalId
    requires HabitIdsDistinct(habits)
    ensures var all := habits + Planned(plan, goalId, goalId + 1);
      && HabitIdsDistinct(all)
      && forall k :: 0 <= k < |all| ==> all[k].id < goalId + 1 + |plan| && all[k].goalId <= goalId
  {
    var added := Planned(plan, goalId, goalId + 1);
    var all := habits + added;
    forall i, j | 0 <= i < j < |all| ensures all[i].id != all[j].id {
      if j >= |habits| {
        assert all[j] == added[j - |habits|];
        PlannedAt(plan, goalId, goalId + 1, j - |habits|);
        if i >= |habits| {
          assert all[i] == added[i - |habits|];
          PlannedAt(plan, goalId, goalId + 1, i - |habits|);
        } else {
          assert all[i] == habits[i];
        }
      } else {
        assert all[i] == habits[i] && all[j] == habits[j];
      }
    }
    forall k | 0 <= k < |all| ensures all[k].id < goalId + 1 + |plan| && all[k].goalId <= goalId {
      if k >= |habits| {
        assert all[k] == added[k - |habits|];
        PlannedAt(plan, goalId, goalId + 1, k - |habits|);
      } else {
        assert all[k] == habits[k];
      }
    }
  }

  /** The store's invariant survives appending a goal with the next id and
      its planned habits. */
  lemma CreatedKeepsValid(
    users: seq<UserDoc>, goals: seq<GoalDoc>, habits: seq<HabitDoc>, todos: seq<TodoDoc>, nextId: Id,
    goal: GoalDoc, plan: seq<PlanEntry>)
    requires ValidState(users, goals, habits, todos, nextId) && goal.id == nextId
    ensures ValidState(users, goals + [goal], habits + Planned(plan, nextId, nextId + 1), todos, nextId + 1 + |plan|)
  {
    PlannedHabitsFit(habits, plan, nextId);
    var gs := goals + [goal];
    forall k | 0 <= k < |gs| ensures gs[k].id < nextId + 1 + |plan| {
      if k < |goals| {
        assert gs[k] == goals[k];
      }
    }
  }

  /** The loop that builds `habits_to_create`: one habit document per plan
      entry, in plan order. */
  method HabitsToCreate(plan: seq<PlanEntry>, goalId: Id) returns (toCreate: seq<HabitDoc>)
    ensures toCreate == Planned(plan, goalId, goalId + 1)
  {
    toCreate := [];
    var k := 0;
    while k < |plan|
      invariant 0 <= k <= |plan|
      invariant toCreate == Planned(plan[..k], goalId, goalId + 1)
    {
      assert plan[..k + 1][..k] == plan[..k];
      toCreate := toCreate + [HabitDoc(goalId + 1 + k, plan[k].description, plan[k].frequency, goalId)];
      k := k + 1;
    }
    assert plan[..k] == plan;
  }

  /** `db.goals.insert_one`: the goal gets the next id, which is returned. */
  method InsertGoal(db: Store, description: string, user: Id) returns (goalId: Id)
    modifies db`goals, db`nextId
    ensures goalId == old(db.nextId)
    ensures db.goals == old(db.goals) + [GoalDoc(goalId, description, user)] && db.nextId == goalId + 1
  {
    goalId := db.nextId;
    db.goals := db.goals + [GoalDoc(goalId, description, user)];
    db.nextId := goalId + 1;
  }

  /** `db.habits.insert_many`: the documents are appended and the counter
      moves past the ids they carry. */
  method InsertHabits(db: Store, docs: seq<HabitDoc>)
    modifies db`habits, db`nextId
    ensures db.habits == old(db.habits) + docs && db.nextId == old(db.nextId) + |docs|
  {
    db.habits := db.habits + docs;
    db.nextId := db.nextId + |docs|;
  }

  /** `create_goal`: with an empty plan, a 500 and nothing stored; otherwise
      the goal is inserted, then one habit per plan entry, and the response
      is the stored goal with its stored habits, capped at 100. */
  method CreateGoal(db: Store, description: string, user: Id, plan: seq<PlanEntry>)
    returns (r: Result<GoalWithHabitsDoc, HttpError>)
    requires db.Valid()
    modifies db`goals, db`habits, db`nextId
    ensures db.Valid()
    ensures plan == [] ==>
      && r == Failure(HttpError(500, "Failed to generate habit plan"))
      && db.goals == old(db.goals) && db.habits == old(db.habits) && db.nextId == old(db.nextId)
    ensures plan != [] ==>
      var goalId := old(db.nextId);
      var goal := GoalDoc(goalId, description, user);
      && db.goals == old(db.goals) + [goal]
      && db.habits == old(db.habits) + Planned(plan, goalId, goalId + 1)
      && db.nextId == goalId + 1 + |plan|
      && r.Success? && r.value.goal == goal
      && r.value.habits == Take(HabitsOf(db.habits, goalId), CursorLimit)
      && r.value.habits == Take(Planned(plan, goalId, goalId + 1), CursorLimit)
  {
    if plan == [] {
      return Failure(HttpError(500, "Failed to generate habit plan"));
    }
    ghost var goals0, habits0 := db.goals, db.habits;
    var goalId := InsertGoal(db, description, user);
    var toCreate := HabitsToCreate(plan, goalId);
    assert |toCreate| == |plan| > 0;
    if toCreate != [] {
      InsertHabits(db, toCreate);
    }
    CreatedKeepsValid(db.users, goals0, habits0, db.todos, goalId, GoalDoc(goalId, description, user), plan);
    FindGoalAppended(goals0, GoalDoc(goalId, description, user));
    CreatedHabitsAreThePlan(habits0, plan, goalId);

    var created := FindGoal(db.goals, goalId);
    var stored := Take(HabitsOf(db.habits, goalId), CursorLimit);
    r := Success(GoalWithHabitsDoc(created.value, stored));
  }

  /** A listed goal is a stored goal of the user. */
  lemma ListedGoalBelongs(goals: seq<GoalDoc>, user: Id, k: nat)
    requires k < |Take(GoalsOf(goals, user), CursorLimit)|
    ensures Take(GoalsOf(goals, user), CursorLimit)[k] == GoalsOf(goals, user)[k]
    ensures GoalsOf(goals, user)[k] in goals && GoalsOf(goals, user)[k].userId == user
  {
    GoalsOfMembers(goals, user);
    assert GoalsOf(goals, user)[k] in GoalsOf(goals, user);
  }

  /** A listed habit is a stored habit of that goal. */
  lemma ListedHabitBelongs(habits: seq<HabitDoc>, goalId: Id, h: HabitDoc)
    requires h in Take(HabitsOf(habits, goalId), CursorLimit)
    ensures h in habits && h.goalId == goalId
  {
    var found := HabitsOf(habits, goalId);
    var j :| 0 <= j < |Take(found, CursorLimit)| && Take(found, CursorLimit)[j] == h;
    assert found[j] == h;
    HabitsOfMembers(habits, goalId);
  }

  /** `get_goals`: at most 100 of the user's goals, in store order, each with
      at most 100 of its habits. */
  method GetGoals(db: Store, user: Id) returns (r: seq<GoalWithHabitsDoc>)
    ensures |r| <= CursorLimit
    ensures |r| == |Take(GoalsOf(db.goals, user), CursorLimit)|
    ensures forall k :: 0 <= k < |r| ==> r[k].goal == GoalsOf(db.goals, user)[k]
    ensures forall k :: 0 <= k < |r| ==> r[k].goal in db.goals && r[k].goal.userId == user
    ensures forall k :: 0 <= k < |r| ==> r[k].habits == Take(HabitsOf(db.habits, r[k].goal.id), CursorLimit)
    ensures forall k :: 0 <= k < |r| ==> |r[k].habits| <= CursorLimit
    ensures forall k, h :: 0 <= k < |r| && h in r[k].habits ==> h in db.habits && h.goalId == r[k].goal.id
  {
    var goals := Take(GoalsOf(db.goals, user), CursorLimit);
    r := [];
    var i := 0;
    while i < |goals|
      invariant 0 <= i <= |goals| && |r| == i
      invariant forall k :: 0 <= k < i ==> r[k].goal == goals[k]
      invariant forall k :: 0 <= k < i ==> r[k].habits == Take(HabitsOf(db.habits, goals[k].id), CursorLimit)
    {
      var habits := Take(HabitsOf(db.habits, goals[i].id), CursorLimit);
      r := r + [GoalWithHabitsDoc(goals[i], habits)];
      i := i + 1;
    }
    forall k | 0 <= k < |r|
      ensures r[k].goal == GoalsOf(db.goals, user)[k] && r[k].goal in db.goals && r[k].goal.userId == user
    {
      ListedGoalBelongs(db.goals, user, k);
    }
    forall k, h | 0 <= k < |r| && h in r[k].habits ensures h in db.habits && h.goalId == r[k].goal.id {
      ListedHabitBelongs(db.habits, goals[k].id, h);
    }
  }
}
