/** The persisted records of the application (components/types.tsx).
    Dates, stored by the application as ISO-8601 strings, are modelled as
    millisecond timestamps; JavaScript numbers become `int` for counts and
    durations and `real` for weights. */
module Types {

  /** Milliseconds since the epoch. */
  type Timestamp = int

  /** An entry of the exercise catalog. */
  datatype Exercise = Exercise(id: string, name: string)

  /** One exercise inside a template or a session, with its target or realised load. */
  datatype Workout = Workout(id: string, exercise: string, sets: int, reps: int, weight: real)

  /** A named, reusable list of planned exercises. */
  datatype WorkoutTemplate = WorkoutTemplate(id: string, name: string, exercises: seq<Workout>)

  /** A finished workout: when it happened, how long it took (ms) and what was done. */
  datatype WorkoutSession = WorkoutSession(
    id: string, name: string, date: Timestamp, duration: int, exercises: seq<Workout>)

  /** One body-weight reading. */
  datatype WeightEntry = WeightEntry(id: string, date: Timestamp, weight: real)

  /** The current value of one body measurement; also the shape of each item of a history snapshot. */
  datatype CurrentMeasurement = CurrentMeasurement(part: string, measure: string)

  /** A dated snapshot of all current measurements. */
  datatype MeasurementEntry = MeasurementEntry(
    id: string, date: Timestamp, measurements: seq<CurrentMeasurement>)
}
