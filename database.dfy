/** The backend's MongoDB collections, as in-memory sequences in natural
    (insertion) order, and the document shapes stored in them. */
module Database {
  import opened Wrappers

  /** A document id (a MongoDB ObjectId); fresh ones come from `Store.nextId`. */
  type Id = nat

  datatype UserDoc = UserDoc(id: Id, email: string, hashedPassword: string, createdAt: int)
  datatype GoalDoc = GoalDoc(id: Id, description: string, userId: Id)
  datatype HabitDoc = HabitDoc(id: Id, description: string, frequency: string, goalId: Id)

  /** A to-do document; `dueDate` is a timestamp in microseconds. */
  datatype TodoDoc = TodoDoc(
    id: Id,
    description: string,
    completed: bool,
    dueDate: int,
    userId: Id,
    habitId: Option<Id>)

  /** An `HTTPException` raised by a handler. */
  datatype HttpError = HttpError(status: nat, detail: string)

  predicate HabitIdsDistinct(habits: seq<HabitDoc>) {
    forall i, j :: 0 <= i < j < |habits| ==> habits[i].id != habits[j].id
  }

  /** Every id in use, and every goal a habit points to, lies below
      `nextId`; habit ids are distinct. */
  ghost predicate ValidState(
    users: seq<UserDoc>, goals: seq<GoalDoc>, habits: seq<HabitDoc>, todos: seq<TodoDoc>, nextId: Id)
  {
    && (forall k :: 0 <= k < |users| ==> users[k].id < nextId)
    && (forall k :: 0 <= k < |goals| ==> goals[k].id < nextId)
    && (forall k :: 0 <= k < |habits| ==> habits[k].id < nextId && habits[k].goalId < nextId)
    && (forall k :: 0 <= k < |todos| ==> todos[k].id < nextId)
    && HabitIdsDistinct(habits)
  }

  /** The database: four collections and the source of fresh ids. */
  class Store {
    var users: seq<UserDoc>
    var goals: seq<GoalDoc>
    var habits: seq<HabitDoc>
    var todos: seq<TodoDoc>
    var nextId: Id

    ghost predicate Valid()
      reads this
    {
      ValidState(users, goals, habits, todos, nextId)
    }

    constructor ()
      ensures Valid()
      ensures users == [] && goals == [] && habits == [] && todos == []
    {
      users, goals, habits, todos := [], [], [], [];
      nextId := 0;
    }
  }
}
