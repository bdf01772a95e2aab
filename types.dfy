/** The records the frontend holds, mirroring the JSON the backend returns. */
module Types {
  import opened Wrappers

  /** A habit: `frequency` is a free string ("daily", "weekly", "monthly",
      "one-time" in practice); its `goalId` names the owning goal. */
  datatype Habit = Habit(id: string, description: string, frequency: string, goalId: string)

  datatype GoalWithHabits = GoalWithHabits(
    id: string,
    description: string,
    userId: string,
    category: string,
    habits: seq<Habit>)

  /** A to-do. `habitId` is set on the to-dos the backend derives from daily habits. */
  datatype Todo = Todo(
    id: string,
    description: string,
    completed: bool,
    dueDate: string,
    habitId: Option<string>)

  datatype User = User(email: string)

  /** One habit as it is sent to the backend: description and frequency only. */
  datatype HabitPlanEntry = HabitPlanEntry(description: string, frequency: string)
}
