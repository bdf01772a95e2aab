/** The edit-habits page: the editable habit list of one goal and the
    request that saves it. */
module EditHabits {
  import opened Wrappers
  import opened Types
  import opened AuthContext

  /** The keys of a habit record that `handleHabitChange` may set. */
  datatype HabitField = IdField | DescriptionField | FrequencyField | GoalIdField

  function Get(h: Habit, f: HabitField): string {
    match f
    case IdField => h.id
    case DescriptionField => h.description
    case FrequencyField => h.frequency
    case GoalIdField => h.goalId
  }

  /** `{ ...h, [field]: value }`. */
  function WithField(h: Habit, f: HabitField, v: string): (r: Habit)
    ensures Get(r, f) == v
    ensures forall g :: g != f ==> Get(r, g) == Get(h, g)
  {
    match f
    case IdField => h.(id := v)
    case DescriptionField => h.(description := v)
    case FrequencyField => h.(frequency := v)
    case GoalIdField => h.(goalId := v)
  }

  /** The habit `addHabit` appends. */
  function NewHabit(goalId: string): Habit {
    Habit("", "", "daily", goalId)
  }

  /** `habits.filter((_, i) => i !== index)`: every position but `index`. */
  function DropIndex(habits: seq<Habit>, index: int): (r: seq<Habit>)
    ensures 0 <= index < |habits| ==> r == habits[..index] + habits[index + 1..]
    ensures !(0 <= index < |habits|) ==> r == habits
  {
    if habits == [] then []
    else (if index == 0 then [] else [habits[0]]) + DropIndex(habits[1..], index - 1)
  }

  /** `habits.map(({ description, frequency }) => ({ description, frequency }))`. */
  function Payload(habits: seq<Habit>): (r: seq<HabitPlanEntry>)
    ensures |r| == |habits|
    ensures forall k :: 0 <= k < |habits| ==>
      r[k].description == habits[k].description && r[k].frequency == habits[k].frequency
  {
    if habits == [] then [] else [HabitPlanEntry(habits[0].description, habits[0].frequency)] + Payload(habits[1..])
  }

  /** Removing the habit just added gives back the list before the add, and
      the payload does not see the fields other than description and frequency. */
  lemma AddThenRemoveRestores(habits: seq<Habit>, goalId: string, i: nat, f: HabitField, v: string)
    requires i < |habits| && (f == IdField || f == GoalIdField)
    ensures DropIndex(habits + [NewHabit(goalId)], |habits|) == habits
    ensures Payload(habits[i := WithField(habits[i], f, v)]) == Payload(habits)
  {
    assert (habits + [NewHabit(goalId)])[..|habits|] == habits;
  }

  /** The request `handleSubmit` sends: the goal id and the habit payload. */
  datatype HabitsUpdate = HabitsUpdate(goalId: string, habits: seq<HabitPlanEntry>)

  const HomeRoute := "/"

  /** Page state: `goalId` from the query string, the fetched goal and the
      editable copy of its habits. */
  class EditHabitsPage {
    const goalId: Option<string>
    var goal: Option<GoalWithHabits>
    var habits: seq<Habit>

    constructor (goalId: Option<string>)
      ensures this.goalId == goalId && goal == None && habits == []
    {
      this.goalId := goalId;
      goal := None;
      habits := [];
    }

    /** The mount effect: without a goal id go home; without a token go to
        login; otherwise fetch the goal, keep it and its habits on success, go
        home on failure. */
    method LoadGoal(storage: TokenStore, reply: Fetch<GoalWithHabits>) returns (nav: Option<string>)
      modifies this
      ensures !Present(goalId) ==> nav == Some(HomeRoute) && goal == old(goal) && habits == old(habits)
      ensures Present(goalId) && !Present(storage.token) ==>
        nav == Some(LoginRoute) && goal == old(goal) && habits == old(habits)
      ensures Present(goalId) && Present(storage.token) ==>
        match reply
        case Ok(g) => nav == None && goal == Some(g) && habits == g.habits
        case _ => nav == Some(HomeRoute) && goal == old(goal) && habits == old(habits)
    {
      if !(goalId.Some? && goalId.value != "") {
        return Some(HomeRoute);
      }
      var token := storage.token;
      if !(token.Some? && token.value != "") {
        return Some(LoginRoute);
      }
      match reply {
        case Ok(data) =>
          goal := Some(data);
          habits := data.habits;
          nav := None;
        case NotOk =>
          nav := Some(HomeRoute);
        case Thrown =>
          nav := Some(HomeRoute);
      }
    }

    /** `handleHabitChange(index, field, value)`: copy the list, replace one
        element, and store the copy. The page only calls it with the index of
        a rendered row. */
    method HabitChange(index: nat, field: HabitField, value: string)
      requires index < |habits|
      modifies this
      ensures |habits| == |old(habits)|
      ensures habits[index] == WithField(old(habits)[index], field, value)
      ensures forall k :: 0 <= k < |habits| && k != index ==> habits[k] == old(habits)[k]
      ensures goal == old(goal)
    {
      var newHabits := new Habit[|habits|](k requires 0 <= k < |habits| reads this => habits[k]);
      newHabits[index] := WithField(newHabits[index], field, value);
      habits := newHabits[..];
    }

    /** `addHabit`: append a blank daily habit, only when a goal id is present. */
    method AddHabit()
      modifies this
      ensures Present(goalId) ==> habits == old(habits) + [NewHabit(goalId.value)]
      ensures !Present(goalId) ==> habits == old(habits)
      ensures goal == old(goal)
    {
      if goalId.Some? && goalId.value != "" {
        habits := habits + [NewHabit(goalId.value)];
      }
    }

    /** `removeHabit(index)`. */
    method RemoveHabit(index: int)
      modifies this
      ensures habits == DropIndex(old(habits), index)
      ensures goal == old(goal)
    {
      habits := DropIndex(habits, index);
    }

    /** `handleSubmit`: the guards on the provider's `isAuthenticated`, the
        goal id and the stored token, then the PUT request and, on an ok
        reply, the way home. */
    method Submit(auth: AuthProvider, reply: Fetch<()>)
      returns (request: Option<HabitsUpdate>, nav: Option<string>)
      ensures !auth.Authenticated() || !Present(goalId) || !Present(auth.storage.token) ==>
        request == None && nav == Some(LoginRoute)
      ensures auth.Authenticated() && Present(goalId) && Present(auth.storage.token) ==>
        && request == Some(HabitsUpdate(goalId.value, Payload(habits)))
        && nav == (if reply.Ok? then Some(HomeRoute) else None)
    {
      if !auth.Authenticated() || !(goalId.Some? && goalId.value != "") {
        return None, Some(LoginRoute);
      }
      var token := auth.storage.token;
      if !(token.Some? && token.value != "") {
        return None, Some(LoginRoute);
      }
      request := Some(HabitsUpdate(goalId.value, Payload(habits)));
      nav := if reply.Ok? then Some(HomeRoute) else None;
    }
  }
}
