/** The study planner: the timetable total, the hours-and-minutes display, and the add-subject
    and add-exam dialogs. */
module StudyPlanner {
  import opened Common
  import opened Text
  import opened Store
  import Queries

  type Subject = Queries.Subject

  /** `totalStudyTime`: the reduce summing the subjects' study times from the left. */
  function TotalStudyTime(subjects: seq<Subject>): int {
    if subjects == [] then 0
    else TotalStudyTime(subjects[..|subjects| - 1]) + subjects[|subjects| - 1].studyTime
  }

  /** The total of a concatenation is the sum of the totals. */
  lemma {:induction false} TotalAppend(a: seq<Subject>, b: seq<Subject>)
    ensures TotalStudyTime(a + b) == TotalStudyTime(a) + TotalStudyTime(b)
    decreases |b|
  {
    if b == [] {
      assert a + b == a;
    } else {
      var b' := b[..|b| - 1];
      assert (a + b)[..|a + b| - 1] == a + b';
      assert (a + b)[|a + b| - 1] == b[|b| - 1];
      TotalAppend(a, b');
    }
  }

  /** With no negative study time, the total is at least each subject's time. */
  lemma {:induction false} TotalBoundsEach(subjects: seq<Subject>, i: int)
    requires forall k :: 0 <= k < |subjects| ==> subjects[k].studyTime >= 0
    requires 0 <= i < |subjects|
    ensures TotalStudyTime(subjects) >= subjects[i].studyTime
  {
    var init := subjects[..|subjects| - 1];
    if i < |subjects| - 1 {
      TotalBoundsEach(init, i);
    } else {
      TotalNonNegative(init);
    }
  }

  lemma {:induction false} TotalNonNegative(subjects: seq<Subject>)
    requires forall k :: 0 <= k < |subjects| ==> subjects[k].studyTime >= 0
    ensures TotalStudyTime(subjects) >= 0
  {
    if subjects != [] {
      TotalNonNegative(subjects[..|subjects| - 1]);
    }
  }

  /** The `%` of the language: the remainder takes the sign of the dividend. */
  function TruncRem(t: int, d: int): (m: int)
    requires d > 0
    ensures -d < m < d
    ensures t >= 0 ==> 0 <= m
    ensures t < 0 ==> m <= 0
  {
    if t >= 0 then t % d else -((-t) % d)
  }

  /** `Math.floor(t / 60)` and `t % 60`, as the display shows them. */
  function HoursMinutes(t: int): (hm: (int, int)) {
    (t / 60, TruncRem(t, 60))
  }

  /** For a non-negative time the two parts add back up to it, minutes below an hour. */
  lemma HoursMinutesSplit(t: int)
    requires t >= 0
    ensures var (h, m) := HoursMinutes(t); h * 60 + m == t && 0 <= m < 60 && h >= 0
  {
  }

  /** For a negative time that is not a whole number of hours the two parts do not add up, since
      the hours are floored but the minutes truncated: minus one minute shows as minus one hour
      and minus one minute. */
  lemma HoursMinutesNegative(t: int)
    requires t < 0 && t % 60 != 0
    ensures var (h, m) := HoursMinutes(t); h * 60 + m == t - 60 && m < 0
  {
  }

  /** The name an exam is stored under: the name as typed, then the subject in parentheses, or
      "General" without one. */
  function ExamLabel(examName: string, examSubject: string): (name: string)
    ensures |name| == |examName| + |SubjectOrGeneral(examSubject)| + |" ()"|
  {
    examName + " (" + SubjectOrGeneral(examSubject) + ")"
  }

  function SubjectOrGeneral(examSubject: string): (s: string)
    ensures s != []
    ensures examSubject != [] ==> s == examSubject
  {
    if examSubject == "" then "General" else examSubject
  }

  /** The stored name can be read back: the untrimmed name first, the subject between the brackets. */
  lemma ExamLabelParts(examName: string, examSubject: string)
    ensures var name := ExamLabel(examName, examSubject);
      && name[..|examName|] == examName
      && name[|examName|..|examName| + 2] == " ("
      && name[|examName| + 2..|name| - 1] == SubjectOrGeneral(examSubject)
      && name[|name| - 1] == ')'
  {
    var g := SubjectOrGeneral(examSubject);
    var name := ExamLabel(examName, examSubject);
    assert name == examName + (" (" + g + ")");
    assert name[|examName|..] == " (" + g + ")";
  }

  /** The same name with two different subjects gives two different labels. */
  lemma ExamLabelInjective(examName: string, s1: string, s2: string)
    requires SubjectOrGeneral(s1) != SubjectOrGeneral(s2)
    ensures ExamLabel(examName, s1) != ExamLabel(examName, s2)
  {
    ExamLabelParts(examName, s1);
    ExamLabelParts(examName, s2);
  }

  /** The exam date in nanoseconds: the millisecond time times 1000000. */
  function ExamTimestamp(ms: int): (ns: int)
    ensures ns / 1000000 == ms && ns % 1000000 == 0
  {
    ms * 1000000
  }

  /** Days left between two instants given in milliseconds: the floor of their difference over
      a day of 86400000 milliseconds. */
  lemma DaysLeftInMilliseconds(examMs: int, nowMs: int)
    ensures Queries.DaysLeft(ExamTimestamp(examMs), nowMs * 1000000) == (examMs - nowMs) / 86400000
  {
    var d := Queries.DaysLeft(ExamTimestamp(examMs), nowMs * 1000000);
    assert ExamTimestamp(examMs) - nowMs * 1000000 == (examMs - nowMs) * 1000000;
    assert Queries.NsPerDay == 86400000 * 1000000;
    assert d * 86400000 * 1000000 <= (examMs - nowMs) * 1000000 < (d + 1) * 86400000 * 1000000;
    assert d * 86400000 <= examMs - nowMs < (d + 1) * 86400000;
  }

  /** `handleAddSubject`'s guard: a non-blank name and a non-empty study-time text; the name is
      sent trimmed, with the study time `parseInt` read from the text. */
  function SubjectSubmission(subjectName: string, studyTime: string, parsed: int): (r: Option<(string, int)>)
    ensures r.Some? <==> Trim(subjectName) != [] && studyTime != []
    ensures r.Some? ==> r.value == (Trim(subjectName), parsed)
  {
    if Trim(subjectName) != [] && studyTime != "" then Some((Trim(subjectName), parsed)) else None
  }

  /** `handleAddExam`'s guard: a non-blank exam name and a non-empty date text; the exam is sent
      under its name, with the date in nanoseconds. */
  function ExamSubmission(examName: string, examSubject: string, examDate: string, dateMs: int): (r: Option<(string, int)>)
    ensures r.Some? <==> Trim(examName) != [] && examDate != []
    ensures r.Some? ==> r.value == (ExamLabel(examName, examSubject), ExamTimestamp(dateMs))
  {
    if Trim(examName) != [] && examDate != "" then Some((ExamLabel(examName, examSubject), ExamTimestamp(dateMs)))
    else None
  }

  /** The planner's two dialogs. */
  class PlannerForm {
    var subjectName: string
    var studyTime: string
    var examName: string
    var examSubject: string
    var examDate: string
    var dialogOpen: bool
    var examDialogOpen: bool

    constructor()
      ensures subjectName == "" && studyTime == "" && examName == "" && examSubject == "" && examDate == ""
      ensures !dialogOpen && !examDialogOpen
    {
      subjectName, studyTime := "", "";
      examName, examSubject, examDate := "", "", "";
      dialogOpen, examDialogOpen := false, false;
    }

    /** The mutation's success callback: empties the subject fields and closes the dialog. */
    method ClearSubjectDialog()
      modifies this`subjectName, this`studyTime, this`dialogOpen
      ensures subjectName == "" && studyTime == "" && !dialogOpen
    {
      subjectName, studyTime := "", "";
      dialogOpen := false;
    }

    /** Sends the subject when the guard passes; on success clears the subject dialog and closes it.
        `parsed` is what `parseInt` reads from the study-time text. */
    method HandleAddSubject(actor: Queries.Actor?, parsed: int) returns (r: Option<Result<()>>)
      modifies this`subjectName, this`studyTime, this`dialogOpen, actor
      ensures SubjectSubmission(old(subjectName), old(studyTime), parsed).None? ==>
        r.None? && subjectName == old(subjectName) && studyTime == old(studyTime) && dialogOpen == old(dialogOpen)
        && (actor != null ==> actor.calls == old(actor.calls))
      ensures SubjectSubmission(old(subjectName), old(studyTime), parsed).Some? ==> r.Some?
      ensures r.Some? && actor == null ==> r.value == Err(ActorNotInitialized)
      ensures r.Some? && actor != null && old(actor.accepting) ==>
        r.value == Ok(()) && actor.calls == old(actor.calls) + [Queries.AddSubjectCall(Trim(old(subjectName)), parsed)]
      ensures r.Some? && actor != null && !old(actor.accepting) ==>
        r.value == Err(Queries.CallRejected) && actor.calls == old(actor.calls)
      ensures r.Some? && r.value.Ok? ==> subjectName == "" && studyTime == "" && !dialogOpen
      ensures r.Some? && r.value.Err? ==>
        subjectName == old(subjectName) && studyTime == old(studyTime) && dialogOpen == old(dialogOpen)
    {
      var sent := SubjectSubmission(subjectName, studyTime, parsed);
      if sent.None? {
        return None;
      }
      var result := Queries.AddSubject(actor, sent.value.0, sent.value.1);
      if result.Ok? {
        ClearSubjectDialog();
      }
      r := Some(result);
    }

    /** `handleRemoveSubject`: asks for the subject to be removed, with no guard. */
    method HandleRemoveSubject(actor: Queries.Actor?, name: string) returns (r: Result<()>)
      modifies actor
      ensures actor == null ==> r == Err(ActorNotInitialized)
      ensures actor != null && old(actor.accepting) ==>
        r == Ok(()) && actor.calls == old(actor.calls) + [Queries.RemoveSubjectCall(name)]
      ensures actor != null && !old(actor.accepting) ==> r == Err(Queries.CallRejected) && actor.calls == old(actor.calls)
    {
      r := Queries.RemoveSubject(actor, name);
    }

    /** The exam dialog as it was before the handler ran. */
    twostate predicate ExamDialogUnchanged()
      reads this
    {
      examName == old(examName) && examSubject == old(examSubject) && examDate == old(examDate)
      && examDialogOpen == old(examDialogOpen)
    }

    predicate ExamDialogCleared()
      reads this
    {
      examName == [] && examSubject == [] && examDate == [] && !examDialogOpen
    }

    /** The mutation's success callback: empties the exam fields and closes the dialog. */
    method ClearExamDialog()
      modifies this`examName, this`examSubject, this`examDate, this`examDialogOpen
      ensures ExamDialogCleared()
    {
      examName, examSubject, examDate := "", "", "";
      examDialogOpen := false;
    }

    /** Sends the exam when the guard passes; on success clears the exam dialog and closes it.
        `dateMs` is the millisecond time `new Date` reads from the date text. */
    method HandleAddExam(actor: Queries.Actor?, store: LocalStore, dateMs: int) returns (r: Option<Result<int>>)
      modifies this`examName, this`examSubject, this`examDate, this`examDialogOpen, actor, store`exams
      ensures r.None? <==> ExamSubmission(old(examName), old(examSubject), old(examDate), dateMs).None?
      ensures r.None? ==> store.exams == old(store.exams) && (actor != null ==> actor.calls == old(actor.calls))
      ensures r.Some? && actor != null && old(actor.accepting) ==>
        var sent := ExamSubmission(old(examName), old(examSubject), old(examDate), dateMs).value;
        actor.calls == old(actor.calls) + [Queries.AddExamCall(sent.0, sent.1)]
      ensures r.Some? && actor == null ==> r.value == Err(ActorNotInitialized) && store.exams == old(store.exams)
      ensures r.Some? && actor != null && !old(actor.accepting) ==>
        r.value == Err(Queries.CallRejected) && store.exams == old(store.exams) && actor.calls == old(actor.calls)
      ensures r.Some? && actor != null && old(actor.accepting) && Queries.StoredExams(old(store.exams)).Some? ==>
        r.value == Ok(old(actor.nextId))
      ensures r.Some? && actor != null && old(actor.accepting) && Queries.StoredExams(old(store.exams)).Some? ==>
        var sent := ExamSubmission(old(examName), old(examSubject), old(examDate), dateMs).value;
        Queries.StoredExams(store.exams) == Some(Queries.StoredExams(old(store.exams)).value
          + [Queries.ExamEntry(old(actor.nextId), sent.0, sent.1)])
      ensures r.Some? && actor != null && old(actor.accepting) && Queries.StoredExams(old(store.exams)).None? ==>
        r.value == Err(Queries.MalformedStore) && store.exams == old(store.exams)
      ensures r.Some? && r.value.Ok? ==> ExamDialogCleared()
      ensures !(r.Some? && r.value.Ok?) ==> ExamDialogUnchanged()
    {
      var sent := ExamSubmission(examName, examSubject, examDate, dateMs);
      if sent.None? {
        return None;
      }
      var result := Queries.AddExam(actor, store, sent.value.0, sent.value.1);
      if result.Ok? {
        ClearExamDialog();
      }
      r := Some(result);
    }
  }
}
