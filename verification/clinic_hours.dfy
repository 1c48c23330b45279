/**
 * getClinicStatus (js/main.js): classifies a weekday (0 = Sunday) and a
 * minute of the day against the clinic's fixed weekly schedule. The clock is
 * a parameter: `day` is Date.getDay() and `t` is hours * 60 + minutes.
 */
module ClinicHours {

  const MORNING_START: int := 9 * 60
  const MORNING_END: int := 13 * 60
  const AFTERNOON_START: int := 15 * 60
  const AFTERNOON_END: int := 19 * 60

  datatype Session = Morning | Afternoon

  datatype Status = Open(session: Session) | Break | Closed | Holiday | Before

  datatype DaySchedule = DaySchedule(morning: bool, afternoon: bool)

  /** The weekly table: Sunday closed, Wednesday and Saturday mornings only,
      Thursday afternoons only, the other days both sessions. */
  function Schedule(day: int): DaySchedule
    requires 0 <= day <= 6
  {
    match day
    case 0 => DaySchedule(false, false)
    case 1 => DaySchedule(true, true)
    case 2 => DaySchedule(true, true)
    case 3 => DaySchedule(true, false)
    case 4 => DaySchedule(false, true)
    case 5 => DaySchedule(true, true)
    case 6 => DaySchedule(true, false)
  }

  /** The guard chain of getClinicStatus; its contract restates the outcome
      per weekday, so that every (day, minute) pair is placed in exactly one
      of the five statuses by the schedule alone. */
  function ClinicStatus(day: int, t: int): (s: Status)
    requires 0 <= day <= 6
    ensures s == Holiday <==> day == 0
    ensures s == Open(Morning) <==> day in {1, 2, 3, 5, 6} && 540 <= t < 780
    ensures s == Open(Afternoon) <==> day in {1, 2, 4, 5} && 900 <= t < 1140
    ensures s == Break <==> day in {1, 2, 5} && 780 <= t < 900
    ensures s == Closed <==> day != 0 && 1140 <= t
    ensures s == Before <==>
      || (day in {1, 2, 3, 5, 6} && t < 540)
      || (day == 4 && t < 900)
      || (day in {3, 6} && 780 <= t < 1140)
  {
    var today := Schedule(day);
    if today.morning && MORNING_START <= t < MORNING_END then Open(Morning)
    else if today.afternoon && AFTERNOON_START <= t < AFTERNOON_END then Open(Afternoon)
    else if today.morning && today.afternoon && MORNING_END <= t < AFTERNOON_START then Break
    else if (today.morning || today.afternoon) && t >= AFTERNOON_END then Closed
    else if !today.morning && !today.afternoon then Holiday
    else Before
  }

  /** The message shown beside each status. */
  function Message(s: Status): string {
    match s
    case Open(Morning) => "午前診療中 (13:00まで)"
    case Open(Afternoon) => "午後診療中 (19:00まで)"
    case Break => "休憩時間 (15:00から午後診療)"
    case Closed => "本日の診療は終了しました"
    case Holiday => "本日は休診日です"
    case Before => "診療開始前 (9:00から)"
  }

  /** The status string of the returned record ('open', 'break', ...). */
  function StatusName(s: Status): (name: string)
    ensures name == "open" <==> s.Open?
  {
    match s
    case Open(_) => "open"
    case Break => "break"
    case Closed => "closed"
    case Holiday => "holiday"
    case Before => "before"
  }

  /** Each status carries its own message, so the message identifies the status. */
  lemma MessagesDistinct(a: Status, b: Status)
    requires a != b
    ensures Message(a) != Message(b)
  {
  }
}
