/** Values shared by the prompt assembler and the session handlers of the
    daily health check-in page. */
module Types {

  datatype Option<+T> = None | Some(value: T)

  /** A calendar day, as an ordinal; only equality and order matter. */
  type Day = nat

  /** The role of one chat turn. Only the request payload holds a system turn. */
  datatype Role = System | User | Assistant

  /** One chat turn: `{"role": ..., "content": ...}`. */
  datatype Turn = Turn(role: Role, content: string)

  /** The session's `today_log` dictionary: its seven keys, each absent (`None`)
      or holding the value last written by the sidebar. */
  datatype TodayLog = TodayLog(
    steps: Option<nat>,
    waterOz: Option<nat>,
    calories: Option<nat>,
    activeMinutes: Option<nat>,
    workout: Option<string>,
    notes: Option<string>,
    diary: Option<string>)

  /** The log as created at session start and by "New day / reset chat". */
  const EmptyLog: TodayLog := TodayLog(None, None, None, None, None, None, None)

  predicate AllAbsent(log: TodayLog) {
    log.steps == None && log.waterOz == None && log.calories == None &&
    log.activeMinutes == None && log.workout == None && log.notes == None &&
    log.diary == None
  }

  /** The values the sidebar widgets return in one run: four non-negative
      number inputs and two text inputs that may be empty. */
  datatype StatsInput = StatsInput(
    steps: nat,
    waterOz: nat,
    calories: nat,
    activeMinutes: nat,
    workout: Option<string>,
    notes: Option<string>)

  /** The three buttons under the chat. */
  datatype Button = ReflectionButton | CompleteButton | ResetButton
}
