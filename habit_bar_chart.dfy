/** The bar chart of habits per frequency across all goals. */
module HabitBarChart {
  import opened Types
  import Header

  /** The four counter keys, in chart order, and the bar labels. */
  const Frequencies: seq<string> := ["daily", "weekly", "monthly", "one-time"]
  const Labels: seq<string> := ["Daily", "Weekly", "Monthly", "One-Time"]

  datatype ChartEntry = ChartEntry(name: string, value: nat)

  predicate Recognised(f: string) {
    f == "daily" || f == "weekly" || f == "monthly" || f == "one-time"
  }

  /** The number of habits in `habits` whose frequency is `f`. */
  function CountIn(habits: seq<Habit>, f: string): nat {
    if habits == [] then 0
    else CountIn(habits[..|habits| - 1], f) + (if habits[|habits| - 1].frequency == f then 1 else 0)
  }

  /** The number of habits across all goals whose frequency is `f`. */
  function FrequencyCount(goals: seq<GoalWithHabits>, f: string): nat {
    if goals == [] then 0
    else FrequencyCount(goals[..|goals| - 1], f) + CountIn(goals[|goals| - 1].habits, f)
  }

  /** The number of habits across all goals whose frequency is none of the four. */
  function UnrecognisedCount(goals: seq<GoalWithHabits>): nat {
    if goals == [] then 0
    else UnrecognisedCount(goals[..|goals| - 1]) + UnrecognisedIn(goals[|goals| - 1].habits)
  }

  function UnrecognisedIn(habits: seq<Habit>): nat {
    if habits == [] then 0
    else UnrecognisedIn(habits[..|habits| - 1]) + (if Recognised(habits[|habits| - 1].frequency) then 0 else 1)
  }

  /** The inner `goal.habits.forEach`: bump the counter of each habit's
      frequency when it is one of the counter keys. */
  method CountHabits(counts: map<string, nat>, habits: seq<Habit>) returns (r: map<string, nat>)
    requires forall f :: f in counts <==> Recognised(f)
    ensures forall f :: f in r <==> Recognised(f)
    ensures forall f :: f in r ==> r[f] == counts[f] + CountIn(habits, f)
  {
    r := counts;
    var j := 0;
    while j < |habits|
      invariant 0 <= j <= |habits|
      invariant forall f :: f in r <==> Recognised(f)
      invariant forall f :: f in r ==> r[f] == counts[f] + CountIn(habits[..j], f)
    {
      var frequency := habits[j].frequency;
      if frequency in r {
        r := r[frequency := r[frequency] + 1];
      }
      assert habits[..j + 1][..j] == habits[..j];
      j := j + 1;
    }
    assert habits[..j] == habits;
  }

  /** The `useMemo` body: four counters, bumped in nested loops over the goals
      and their habits when the frequency is one of the counter keys, then
      read out in the fixed order Daily, Weekly, Monthly, One-Time. */
  method ChartData(goals: seq<GoalWithHabits>) returns (data: seq<ChartEntry>)
    ensures |data| == 4
    ensures forall k :: 0 <= k < 4 ==>
      data[k].name == Labels[k] && data[k].value == FrequencyCount(goals, Frequencies[k])
  {
    var habitCounts: map<string, nat> := map["daily" := 0, "weekly" := 0, "monthly" := 0, "one-time" := 0];
    var i := 0;
    while i < |goals|
      invariant 0 <= i <= |goals|
      invariant forall f :: f in habitCounts <==> Recognised(f)
      invariant forall f :: f in habitCounts ==> habitCounts[f] == FrequencyCount(goals[..i], f)
    {
      assert goals[..i + 1][..i] == goals[..i];
      habitCounts := CountHabits(habitCounts, goals[i].habits);
      i := i + 1;
    }
    assert goals[..i] == goals;
    data := [
      ChartEntry("Daily", habitCounts["daily"]),
      ChartEntry("Weekly", habitCounts["weekly"]),
      ChartEntry("Monthly", habitCounts["monthly"]),
      ChartEntry("One-Time", habitCounts["one-time"])
    ];
  }

  /** `data.every(d => d.value === 0)`: the chart renders nothing. */
  predicate Hidden(data: seq<ChartEntry>) {
    forall k :: 0 <= k < |data| ==> data[k].value == 0
  }

  function BarSum(goals: seq<GoalWithHabits>): nat {
    FrequencyCount(goals, "daily") + FrequencyCount(goals, "weekly")
    + FrequencyCount(goals, "monthly") + FrequencyCount(goals, "one-time")
  }

  /** Every habit lands in exactly one of the four bars or in none. */
  lemma {:induction false} CountInSplits(habits: seq<Habit>)
    ensures CountIn(habits, "daily") + CountIn(habits, "weekly") + CountIn(habits, "monthly")
      + CountIn(habits, "one-time") + UnrecognisedIn(habits) == |habits|
    decreases |habits|
  {
    if habits != [] {
      CountInSplits(habits[..|habits| - 1]);
    }
  }

  /** The four bars plus the unrecognised habits are all the habits; so the
      bars add up to at most the header's total. */
  lemma {:induction false} BarsCoverHabits(goals: seq<GoalWithHabits>)
    ensures BarSum(goals) + UnrecognisedCount(goals) == Header.TotalHabits(goals)
    ensures BarSum(goals) <= Header.TotalHabits(goals)
    decreases |goals|
  {
    if goals != [] {
      BarsCoverHabits(goals[..|goals| - 1]);
      CountInSplits(goals[|goals| - 1].habits);
    }
  }

  /** A count is zero exactly when no habit has that frequency. */
  lemma {:induction false} CountInZero(habits: seq<Habit>, f: string)
    ensures CountIn(habits, f) == 0 <==> forall j :: 0 <= j < |habits| ==> habits[j].frequency != f
    decreases |habits|
  {
    if habits != [] {
      var init := habits[..|habits| - 1];
      CountInZero(init, f);
      assert forall j :: 0 <= j < |init| ==> init[j] == habits[j];
    }
  }

  /** No habit of any goal has frequency `f`. */
  predicate NoneWith(goals: seq<GoalWithHabits>, f: string) {
    forall i, j :: 0 <= i < |goals| && 0 <= j < |goals[i].habits| ==> goals[i].habits[j].frequency != f
  }

  /** No habit of any goal has one of the four counted frequencies. */
  predicate NoneRecognised(goals: seq<GoalWithHabits>) {
    forall i, j :: 0 <= i < |goals| && 0 <= j < |goals[i].habits| ==> !Recognised(goals[i].habits[j].frequency)
  }

  lemma {:induction false} FrequencyCountZero(goals: seq<GoalWithHabits>, f: string)
    ensures FrequencyCount(goals, f) == 0 <==> NoneWith(goals, f)
    decreases |goals|
  {
    if goals != [] {
      var init := goals[..|goals| - 1];
      FrequencyCountZero(init, f);
      CountInZero(goals[|goals| - 1].habits, f);
      assert forall i :: 0 <= i < |init| ==> init[i] == goals[i];
    }
  }

  lemma NoneRecognisedIffNoneWithEach(goals: seq<GoalWithHabits>)
    ensures NoneRecognised(goals) <==>
      NoneWith(goals, "daily") && NoneWith(goals, "weekly") && NoneWith(goals, "monthly") && NoneWith(goals, "one-time")
  {
  }

  /** The chart is hidden exactly when no habit of any goal has one of the four
      frequencies; in particular with no goals at all. */
  lemma HiddenIffNothingRecognised(goals: seq<GoalWithHabits>, data: seq<ChartEntry>)
    requires |data| == 4
    requires forall k :: 0 <= k < 4 ==> data[k].value == FrequencyCount(goals, Frequencies[k])
    ensures Hidden(data) <==> NoneRecognised(goals)
    ensures goals == [] ==> Hidden(data)
  {
    FrequencyCountZero(goals, "daily");
    FrequencyCountZero(goals, "weekly");
    FrequencyCountZero(goals, "monthly");
    FrequencyCountZero(goals, "one-time");
    NoneRecognisedIffNoneWithEach(goals);
    assert data[0].value == FrequencyCount(goals, "daily");
    assert data[1].value == FrequencyCount(goals, "weekly");
    assert data[2].value == FrequencyCount(goals, "monthly");
    assert data[3].value == FrequencyCount(goals, "one-time");
    assert Hidden(data) <==> data[0].value == 0 && data[1].value == 0 && data[2].value == 0 && data[3].value == 0;
  }
}
