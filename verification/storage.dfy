/** The local persistence layer (localstorage/storage.tsx): one JSON array per
    collection key in the device's asynchronous key-value store.

    The store is modelled as a map from key to a typed value; JSON encoding is
    abstracted away. A stored value whose shape does not match its key's
    collection stands for text that `JSON.parse` rejects. Whether a read or a
    write of the underlying store fails is not decided by the application, so
    each operation takes it as a flag (`readFails`, `writeFails`). */
module Storage {
  import opened Types
  import opened Wrappers
  import Strings

  const ExercisesKey := "exercises_list"
  const WeightHistoryKey := "weight_history"
  const MeasurementsHistoryKey := "measurements_history"
  const CurrentMeasurementsKey := "current_measurements"
  const WorkoutTemplatesKey := "workout_templates"
  const WorkoutSessionsKey := "workout_sessions"
  /** Written by the theme provider, never by this layer. */
  const ThemePreferenceKey := "themePreference"

  /** The keys `clearAllData` rewrites. */
  const CollectionKeys: set<string> :=
    {WorkoutTemplatesKey, WeightHistoryKey, WorkoutSessionsKey, ExercisesKey,
     MeasurementsHistoryKey, CurrentMeasurementsKey}

  /** What a key of the store can hold: one of the collections, or some other text. */
  datatype Value =
    | ExerciseList(exercises: seq<Exercise>)
    | TemplateList(templates: seq<WorkoutTemplate>)
    | SessionList(sessions: seq<WorkoutSession>)
    | WeightList(weights: seq<WeightEntry>)
    | HistoryList(history: seq<MeasurementEntry>)
    | CurrentList(current: seq<CurrentMeasurement>)
    | Raw(text: string)

  /** The contents of the device's key-value store. */
  type KeyValue = map<string, Value>

  /** `after` differs from `before` at most at the keys in `keys`. */
  ghost predicate WritesOnly(before: KeyValue, after: KeyValue, keys: set<string>) {
    forall k :: k !in keys ==> (k in before <==> k in after) && (k in before ==> before[k] == after[k])
  }

  /** The names of the built-in exercise catalog, in catalog order. */
  const DefaultExerciseNames: seq<string> :=
    [
      // Chest
      "Bench Press",
      "Incline Bench Press",
      "Decline Bench Press",
      "Dumbbell Press",
      "Incline Dumbbell Press",
      "Dumbbell Flyes",
      "Push-ups",
      "Chest Dips",
      // Back
      "Pull-ups",
      "Chin-ups",
      "Lat Pulldown",
      "Seated Cable Row",
      "Barbell Row",
      "Dumbbell Row",
      "T-Bar Row",
      "Deadlift",
      // Shoulder
      "Overhead Press",
      "Dumbbell Shoulder Press",
      "Lateral Raises",
      "Front Raises",
      "Rear Delt Flyes",
      "Arnold Press",
      "Upright Row",
      "Shrugs",
      // Arm
      "Bicep Curls",
      "Hammer Curls",
      "Preacher Curls",
      "Tricep Dips",
      "Tricep Pushdown",
      "Overhead Tricep Extension",
      "Close Grip Bench Press",
      "Cable Curls",
      // Leg
      "Squats",
      "Front Squats",
      "Leg Press",
      "Lunges",
      "Romanian Deadlift",
      "Leg Curls",
      "Leg Extensions",
      "Calf Raises",
      "Bulgarian Split Squats",
      "Hip Thrusts",
      // Core
      "Plank",
      "Crunches",
      "Russian Twists",
      "Mountain Climbers",
      "Bicycle Crunches",
      "Dead Bug",
      "Hanging Leg Raises",
      "Ab Wheel Rollout"
    ]

  /** The built-in exercise catalog (`getDefaultExercises`): entry i is named
      `DefaultExerciseNames[i]` and has id i + 1 written in decimal. */
  function DefaultExercises(): (r: seq<Exercise>)
    ensures |r| == 50
    ensures forall i :: 0 <= i < |r| ==> r[i].id == Strings.NatToString(i + 1)
  {
    seq(|DefaultExerciseNames|, i requires 0 <= i < |DefaultExerciseNames| =>
      Exercise(Strings.NatToString(i + 1), DefaultExerciseNames[i]))
  }

  /** The catalog's ids are pairwise distinct. */
  lemma DefaultExerciseIdsDistinct()
    ensures forall i, j :: 0 <= i < j < |DefaultExercises()| ==> DefaultExercises()[i].id != DefaultExercises()[j].id
  {
    NumberedIdsDistinct(DefaultExercises());
  }

  /** Exercises numbered by position have pairwise distinct ids. */
  lemma NumberedIdsDistinct(d: seq<Exercise>)
    requires forall i :: 0 <= i < |d| ==> d[i].id == Strings.NatToString(i + 1)
    ensures forall i, j :: 0 <= i < j < |d| ==> d[i].id != d[j].id
  {
    forall i, j | 0 <= i < j < |d|
      ensures d[i].id != d[j].id
    {
      if d[i].id == d[j].id {
        Strings.NatToStringInjective(i + 1, j + 1);
      }
    }
  }

  /** `loadExercises`: the stored catalog, or the built-in one when the key is
      absent, the read fails or the stored text does not parse. */
  function LoadExercises(m: KeyValue, readFails: bool): (r: seq<Exercise>)
    ensures r == DefaultExercises() || (ExercisesKey in m && m[ExercisesKey] == ExerciseList(r))
    ensures readFails || ExercisesKey !in m ==> r == DefaultExercises()
    ensures !readFails && ExercisesKey in m && m[ExercisesKey].ExerciseList? ==> r == m[ExercisesKey].exercises
  {
    if readFails || ExercisesKey !in m then DefaultExercises()
    else match m[ExercisesKey]
      case ExerciseList(xs) => xs
      case _ => DefaultExercises()
  }

  /** `loadWorkoutTemplates`: the stored templates, or [] on a missing key or any failure. */
  function LoadWorkoutTemplates(m: KeyValue, readFails: bool): (r: seq<WorkoutTemplate>)
    ensures r == [] || (WorkoutTemplatesKey in m && m[WorkoutTemplatesKey] == TemplateList(r))
    ensures readFails || WorkoutTemplatesKey !in m ==> r == []
    ensures !readFails && WorkoutTemplatesKey in m && m[WorkoutTemplatesKey].TemplateList? ==> r == m[WorkoutTemplatesKey].templates
  {
    if readFails || WorkoutTemplatesKey !in m then []
    else match m[WorkoutTemplatesKey]
      case TemplateList(xs) => xs
      case _ => []
  }

  /** `loadWorkoutSessions`: the stored sessions, or [] on a missing key or any failure. */
  function LoadWorkoutSessions(m: KeyValue, readFails: bool): (r: seq<WorkoutSession>)
    ensures r == [] || (WorkoutSessionsKey in m && m[WorkoutSessionsKey] == SessionList(r))
    ensures readFails || WorkoutSessionsKey !in m ==> r == []
    ensures !readFails && WorkoutSessionsKey in m && m[WorkoutSessionsKey].SessionList? ==> r == m[WorkoutSessionsKey].sessions
  {
    if readFails || WorkoutSessionsKey !in m then []
    else match m[WorkoutSessionsKey]
      case SessionList(xs) => xs
      case _ => []
  }

  /** `loadWeightHistory`: the stored readings, or [] on a missing key or any failure. */
  function LoadWeightHistory(m: KeyValue, readFails: bool): (r: seq<WeightEntry>)
    ensures r == [] || (WeightHistoryKey in m && m[WeightHistoryKey] == WeightList(r))
    ensures readFails || WeightHistoryKey !in m ==> r == []
    ensures !readFails && WeightHistoryKey in m && m[WeightHistoryKey].WeightList? ==> r == m[WeightHistoryKey].weights
  {
    if readFails || WeightHistoryKey !in m then []
    else match m[WeightHistoryKey]
      case WeightList(xs) => xs
      case _ => []
  }

  /** `loadMeasurementsHistory`: the stored snapshots, or [] when the stored text
      is missing or empty, or on any failure. */
  function LoadMeasurementsHistory(m: KeyValue, readFails: bool): (r: seq<MeasurementEntry>)
    ensures r == [] || (MeasurementsHistoryKey in m && m[MeasurementsHistoryKey] == HistoryList(r))
    ensures readFails || MeasurementsHistoryKey !in m ==> r == []
    ensures MeasurementsHistoryKey in m && m[MeasurementsHistoryKey] == Raw("") ==> r == []
    ensures !readFails && MeasurementsHistoryKey in m && m[MeasurementsHistoryKey].HistoryList? ==> r == m[MeasurementsHistoryKey].history
  {
    if readFails || MeasurementsHistoryKey !in m then []
    else match m[MeasurementsHistoryKey]
      case HistoryList(xs) => xs
      case _ => []
  }

  /** `loadCurrentMeasurements`: the stored current values, or [] when the stored
      text is missing or empty, or on any failure. */
  function LoadCurrentMeasurements(m: KeyValue, readFails: bool): (r: seq<CurrentMeasurement>)
    ensures r == [] || (CurrentMeasurementsKey in m && m[CurrentMeasurementsKey] == CurrentList(r))
    ensures readFails || CurrentMeasurementsKey !in m ==> r == []
    ensures CurrentMeasurementsKey in m && m[CurrentMeasurementsKey] == Raw("") ==> r == []
    ensures !readFails && CurrentMeasurementsKey in m && m[CurrentMeasurementsKey].CurrentList? ==> r == m[CurrentMeasurementsKey].current
  {
    if readFails || CurrentMeasurementsKey !in m then []
    else match m[CurrentMeasurementsKey]
      case CurrentList(xs) => xs
      case _ => []
  }

  /** The store after the `multiSet` of `clearAllData`: every collection empty,
      the catalog back to the built-in one, every other key untouched. */
  function ClearedAll(m: KeyValue): (r: KeyValue)
    ensures WritesOnly(m, r, CollectionKeys)
    ensures LoadWorkoutTemplates(r, false) == []
    ensures LoadWeightHistory(r, false) == []
    ensures LoadWorkoutSessions(r, false) == []
    ensures LoadExercises(r, false) == DefaultExercises()
    ensures LoadMeasurementsHistory(r, false) == []
    ensures LoadCurrentMeasurements(r, false) == []
  {
    m[WorkoutTemplatesKey := TemplateList([])]
     [WeightHistoryKey := WeightList([])]
     [WorkoutSessionsKey := SessionList([])]
     [ExercisesKey := ExerciseList(DefaultExercises())]
     [MeasurementsHistoryKey := HistoryList([])]
     [CurrentMeasurementsKey := CurrentList([])]
  }

  /** Clearing twice leaves the store as clearing once: for `clearAllData` and
      for the session list of `clearWorkoutSessions`. */
  lemma ClearingIsIdempotent(m: KeyValue)
    ensures ClearedAll(ClearedAll(m)) == ClearedAll(m)
    ensures m[WorkoutSessionsKey := SessionList([])][WorkoutSessionsKey := SessionList([])]
            == m[WorkoutSessionsKey := SessionList([])]
  {
  }

  /** The device store together with the accessors of the persistence layer. */
  class LocalStorage {
    var data: KeyValue

    constructor (initial: KeyValue)
      ensures data == initial
    {
      data := initial;
    }

    /** `AsyncStorage.setItem`: a failed write leaves the store as it was. */
    method SetItem(key: string, value: Value, writeFails: bool)
      modifies this
      ensures data == if writeFails then old(data) else old(data)[key := value]
      ensures WritesOnly(old(data), data, {key})
    {
      if !writeFails {
        data := data[key := value];
      }
    }

    /** `saveExercises`: the only save that reports a failed write to its caller (by throwing). */
    method SaveExercises(exercises: seq<Exercise>, writeFails: bool) returns (outcome: Outcome<string>)
      modifies this
      ensures outcome == if writeFails then Fail("Failed to save exercises") else Pass
      ensures data == if writeFails then old(data) else old(data)[ExercisesKey := ExerciseList(exercises)]
      ensures WritesOnly(old(data), data, {ExercisesKey})
      ensures !writeFails ==> LoadExercises(data, false) == exercises
    {
      SetItem(ExercisesKey, ExerciseList(exercises), writeFails);
      outcome := if writeFails then Fail("Failed to save exercises") else Pass;
    }

    /** `saveWorkoutTemplates`: a failed write is swallowed. */
    method SaveWorkoutTemplates(templates: seq<WorkoutTemplate>, writeFails: bool)
      modifies this
      ensures data == if writeFails then old(data) else old(data)[WorkoutTemplatesKey := TemplateList(templates)]
      ensures WritesOnly(old(data), data, {WorkoutTemplatesKey})
      ensures !writeFails ==> LoadWorkoutTemplates(data, false) == templates
    {
      SetItem(WorkoutTemplatesKey, TemplateList(templates), writeFails);
    }

    /** `saveWorkoutSession`: read the sessions, append one, write the whole list.
        A failed read counts as an empty list, so the write then keeps only `session`. */
    method SaveWorkoutSession(session: WorkoutSession, readFails: bool, writeFails: bool)
      modifies this
      ensures data == if writeFails then old(data)
                      else old(data)[WorkoutSessionsKey := SessionList(LoadWorkoutSessions(old(data), readFails) + [session])]
      ensures WritesOnly(old(data), data, {WorkoutSessionsKey})
      ensures !readFails && !writeFails ==>
                LoadWorkoutSessions(data, false) == LoadWorkoutSessions(old(data), false) + [session]
    {
      var existing := LoadWorkoutSessions(data, readFails);
      SetItem(WorkoutSessionsKey, SessionList(existing + [session]), writeFails);
    }

    /** `clearWorkoutSessions`: store an empty session list. */
    method ClearWorkoutSessions(writeFails: bool)
      modifies this
      ensures data == if writeFails then old(data) else old(data)[WorkoutSessionsKey := SessionList([])]
      ensures WritesOnly(old(data), data, {WorkoutSessionsKey})
      ensures !writeFails ==> LoadWorkoutSessions(data, false) == []
    {
      SetItem(WorkoutSessionsKey, SessionList([]), writeFails);
    }

    /** `saveWeightHistory`: a failed write is swallowed. */
    method SaveWeightHistory(weightHistory: seq<WeightEntry>, writeFails: bool)
      modifies this
      ensures data == if writeFails then old(data) else old(data)[WeightHistoryKey := WeightList(weightHistory)]
      ensures WritesOnly(old(data), data, {WeightHistoryKey})
      ensures !writeFails ==> LoadWeightHistory(data, false) == weightHistory
    {
      SetItem(WeightHistoryKey, WeightList(weightHistory), writeFails);
    }

    /** `addWeightEntry`: read the history, append one reading, save the whole list. */
    method AddWeightEntry(newEntry: WeightEntry, readFails: bool, writeFails: bool)
      modifies this
      ensures data == if writeFails then old(data)
                      else old(data)[WeightHistoryKey := WeightList(LoadWeightHistory(old(data), readFails) + [newEntry])]
      ensures WritesOnly(old(data), data, {WeightHistoryKey})
      ensures !readFails && !writeFails ==>
                LoadWeightHistory(data, false) == LoadWeightHistory(old(data), false) + [newEntry]
    {
      var existing := LoadWeightHistory(data, readFails);
      SaveWeightHistory(existing + [newEntry], writeFails);
    }

    /** `saveMeasurementsHistory`: a failed write is swallowed. */
    method SaveMeasurementsHistory(history: seq<MeasurementEntry>, writeFails: bool)
      modifies this
      ensures data == if writeFails then old(data) else old(data)[MeasurementsHistoryKey := HistoryList(history)]
      ensures WritesOnly(old(data), data, {MeasurementsHistoryKey})
      ensures !writeFails ==> LoadMeasurementsHistory(data, false) == history
    {
      SetItem(MeasurementsHistoryKey, HistoryList(history), writeFails);
    }

    /** `saveCurrentMeasurements`: a failed write is swallowed. */
    method SaveCurrentMeasurements(measurements: seq<CurrentMeasurement>, writeFails: bool)
      modifies this
      ensures data == if writeFails then old(data) else old(data)[CurrentMeasurementsKey := CurrentList(measurements)]
      ensures WritesOnly(old(data), data, {CurrentMeasurementsKey})
      ensures !writeFails ==> LoadCurrentMeasurements(data, false) == measurements
    {
      SetItem(CurrentMeasurementsKey, CurrentList(measurements), writeFails);
    }

    /** `clearAllData`: one `multiSet` of all six collection keys, taken as all or nothing. */
    method ClearAllData(writeFails: bool)
      modifies this
      ensures data == if writeFails then old(data) else ClearedAll(old(data))
      ensures WritesOnly(old(data), data, CollectionKeys)
    {
      if !writeFails {
        data := ClearedAll(data);
      }
    }
  }
}
