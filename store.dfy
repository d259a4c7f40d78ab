/** The browser's key-value store, one field per key the program uses; an absent key is `None`. */
module Store {
  import opened Common

  /** The value under `study-progress`. */
  datatype ProgressRecord = ProgressRecord(date: Day, totalMinutes: nat, lastStudyDate: Day)

  /** The value under `pomodoro-sessions`. */
  datatype SessionRecord = SessionRecord(date: Day, count: int)

  /** An element of the array under `study-notes`, after the string replacer turned its `bigint` id into text. */
  datatype StoredNote = StoredNote(id: string, subject: string, content: string)

  /** An element of the array under `study-exams`; `id` and `date` are `bigint` values written as text. */
  datatype StoredExam = StoredExam(id: string, name: string, date: string)

  class LocalStore {
    var progress: Option<ProgressRecord>
    /** The value under `study-streak`; the text written by `toString` and read by `parseInt` is not modelled. */
    var streak: Option<int>
    var sessions: Option<SessionRecord>
    var notes: Option<seq<StoredNote>>
    var exams: Option<seq<StoredExam>>

    /** A store in which no key has been written yet. */
    constructor Empty()
      ensures progress == None && streak == None && sessions == None && notes == None && exams == None
    {
      progress, streak, sessions, notes, exams := None, None, None, None, None;
    }
  }
}
