/** The data-access hooks: remote actor calls, and the notes and exams kept in the local store. */
module Queries {
  import opened Common
  import opened Store
  import Decimal

  /** The records the remote actor hands out. */
  datatype Subject = Subject(name: string, studyTime: int)
  datatype Flashcard = Flashcard(id: int, question: string, answer: string)

  /** A note and an exam as the program holds them in memory (`bigint` fields as integers). */
  datatype Note = Note(id: int, subject: string, content: string)
  datatype ExamEntry = ExamEntry(id: int, name: string, date: int)

  /** An exam as `useExams` returns it, with its days left. */
  datatype Exam = Exam(id: int, name: string, date: int, daysLeft: Option<int>)

  /** The mutating calls made on the remote actor. */
  datatype Call =
    | AddSubjectCall(name: string, studyTime: int)
    | RemoveSubjectCall(name: string)
    | CreateFlashcardCall(question: string, answer: string)
    | AddNoteCall(subject: string, content: string)
    | AddExamCall(name: string, date: int)

  /** The remote actor, seen from this side: the calls it accepted, the data its queries return, the
      identifiers it hands out, and whether it accepts calls at all (a call to an unreachable or
      failing canister rejects, and the awaiting hook throws). */
  class Actor {
    var calls: seq<Call>
    var timetable: seq<Subject>
    var flashcards: seq<Flashcard>
    var nextId: nat
    var accepting: bool

    constructor(timetable: seq<Subject>, flashcards: seq<Flashcard>, nextId: nat, accepting: bool)
      ensures calls == [] && this.timetable == timetable && this.flashcards == flashcards
      ensures this.nextId == nextId && this.accepting == accepting
    {
      calls := [];
      this.timetable := timetable;
      this.flashcards := flashcards;
      this.nextId := nextId;
      this.accepting := accepting;
    }

    /** An update call: when accepted, it is recorded and returns an identifier not handed out
        before; when rejected, nothing changes and the call fails. */
    method Receive(c: Call) returns (r: Result<nat>)
      modifies this`calls, this`nextId
      ensures accepting ==> calls == old(calls) + [c] && r == Ok(old(nextId)) && nextId == old(nextId) + 1
      ensures !accepting ==> r == Err(CallRejected) && calls == old(calls) && nextId == old(nextId)
      ensures timetable == old(timetable) && flashcards == old(flashcards)
    {
      if !accepting {
        return Err(CallRejected);
      }
      calls := calls + [c];
      r := Ok(nextId);
      nextId := nextId + 1;
    }
  }

  /** The error a rejected actor call throws; the agent's own message is not modelled. */
  const CallRejected: string := "Call rejected"

  /** Nanoseconds in a day: 1000000 * 1000 * 60 * 60 * 24. */
  const NsPerDay: int := 1000000 * 1000 * 60 * 60 * 24

  /** `Math.floor((date - now) / NsPerDay)`: whole days from `now` to `date`, rounded down. */
  function DaysLeft(dateNs: int, nowNs: int): (d: int)
    ensures d * NsPerDay <= dateNs - nowNs < (d + 1) * NsPerDay
    ensures d < 0 <==> dateNs < nowNs
    ensures d == 0 <==> nowNs <= dateNs < nowNs + NsPerDay
  {
    (dateNs - nowNs) / NsPerDay
  }

  /** The exams with their days left, `now` being `Date.now()` in milliseconds. */
  function WithDaysLeft(exams: seq<ExamEntry>, nowMs: int): (r: seq<Exam>)
    ensures |r| == |exams|
    ensures forall i :: 0 <= i < |r| ==>
      r[i].id == exams[i].id && r[i].name == exams[i].name && r[i].date == exams[i].date
      && r[i].daysLeft == Some(DaysLeft(exams[i].date, nowMs * 1000000))
  {
    if exams == [] then []
    else
      var e := exams[0];
      [Exam(e.id, e.name, e.date, Some(DaysLeft(e.date, nowMs * 1000000)))] + WithDaysLeft(exams[1..], nowMs)
  }

  /** A list written element by element. */
  function MapAll<A, B>(xs: seq<A>, f: A -> B): (ys: seq<B>)
    ensures |ys| == |xs|
    ensures forall i :: 0 <= i < |xs| ==> ys[i] == f(xs[i])
  {
    if xs == [] then [] else [f(xs[0])] + MapAll(xs[1..], f)
  }

  /** A list read element by element; it fails as soon as one element does. */
  function ReadAll<A, B>(ys: seq<B>, g: B -> Option<A>): Option<seq<A>> {
    if ys == [] then Some([])
    else
      var x := g(ys[0]);
      var rest := ReadAll(ys[1..], g);
      if x.Some? && rest.Some? then Some([x.value] + rest.value) else None
  }

  /** When every element reads back, the whole list does. */
  lemma {:induction false} ReadAllMapAll<A, B>(xs: seq<A>, f: A -> B, g: B -> Option<A>)
    requires forall x :: g(f(x)) == Some(x)
    ensures ReadAll(MapAll(xs, f), g) == Some(xs)
  {
    if xs != [] {
      var ys := MapAll(xs, f);
      assert ys[1..] == MapAll(xs[1..], f);
      ReadAllMapAll(xs[1..], f, g);
      assert [xs[0]] + xs[1..] == xs;
    }
  }

  /** Writing a concatenation writes the parts one after the other. */
  lemma MapAllAppend<A, B>(a: seq<A>, b: seq<A>, f: A -> B)
    ensures MapAll(a + b, f) == MapAll(a, f) + MapAll(b, f)
  {
  }

  /** The string replacer of `JSON.stringify` on a note: its `bigint` id becomes decimal text. */
  function EncodeNote(n: Note): StoredNote {
    StoredNote(Decimal.ToDecimal(n.id), n.subject, n.content)
  }

  /** The reviver of `JSON.parse` on a note: an `id` held as text becomes a `bigint` again;
      `BigInt` of malformed text throws, here `None`. */
  function DecodeNote(s: StoredNote): Option<Note> {
    var id := Decimal.ParseBigInt(s.id);
    if id.Some? then Some(Note(id.value, s.subject, s.content)) else None
  }

  /** The same for an exam, whose `id` and `date` are both `bigint`s. */
  function EncodeExam(e: ExamEntry): StoredExam {
    StoredExam(Decimal.ToDecimal(e.id), e.name, Decimal.ToDecimal(e.date))
  }

  function DecodeExam(s: StoredExam): Option<ExamEntry> {
    var id := Decimal.ParseBigInt(s.id);
    var date := Decimal.ParseBigInt(s.date);
    if id.Some? && date.Some? then Some(ExamEntry(id.value, s.name, date.value)) else None
  }

  lemma NoteRoundTrip(n: Note)
    ensures DecodeNote(EncodeNote(n)) == Some(n)
  {
    Decimal.DecimalRoundTrip(n.id);
  }

  lemma ExamRoundTrip(e: ExamEntry)
    ensures DecodeExam(EncodeExam(e)) == Some(e)
  {
    Decimal.DecimalRoundTrip(e.id);
    Decimal.DecimalRoundTrip(e.date);
  }

  function EncodeNotes(notes: seq<Note>): seq<StoredNote> {
    MapAll(notes, EncodeNote)
  }

  function DecodeNotes(stored: seq<StoredNote>): Option<seq<Note>> {
    ReadAll(stored, DecodeNote)
  }

  function EncodeExams(exams: seq<ExamEntry>): seq<StoredExam> {
    MapAll(exams, EncodeExam)
  }

  function DecodeExams(stored: seq<StoredExam>): Option<seq<ExamEntry>> {
    ReadAll(stored, DecodeExam)
  }

  /** Notes written with the replacer read back unchanged with the reviver. */
  lemma NotesRoundTrip(notes: seq<Note>)
    ensures DecodeNotes(EncodeNotes(notes)) == Some(notes)
  {
    forall n ensures DecodeNote(EncodeNote(n)) == Some(n) {
      NoteRoundTrip(n);
    }
    ReadAllMapAll(notes, EncodeNote, DecodeNote);
  }

  /** Exams written with the replacer read back unchanged with the reviver, `id` and `date` alike. */
  lemma ExamsRoundTrip(exams: seq<ExamEntry>)
    ensures DecodeExams(EncodeExams(exams)) == Some(exams)
  {
    forall e ensures DecodeExam(EncodeExam(e)) == Some(e) {
      ExamRoundTrip(e);
    }
    ReadAllMapAll(exams, EncodeExam, DecodeExam);
  }

  /** Encoding distributes over appending: a stored list with one element added is the old stored
      list with that element's encoding added. */
  lemma EncodeNotesAppend(a: seq<Note>, b: seq<Note>)
    ensures EncodeNotes(a + b) == EncodeNotes(a) + EncodeNotes(b)
  {
    MapAllAppend(a, b, EncodeNote);
  }

  lemma EncodeExamsAppend(a: seq<ExamEntry>, b: seq<ExamEntry>)
    ensures EncodeExams(a + b) == EncodeExams(a) + EncodeExams(b)
  {
    MapAllAppend(a, b, EncodeExam);
  }

  /** The notes the store holds under `study-notes`: none when the key is absent. */
  function StoredNotes(stored: Option<seq<StoredNote>>): Option<seq<Note>> {
    if stored.None? then Some([]) else DecodeNotes(stored.value)
  }

  function StoredExams(stored: Option<seq<StoredExam>>): Option<seq<ExamEntry>> {
    if stored.None? then Some([]) else DecodeExams(stored.value)
  }

  /** What the store holds after writing `notes` is read back as `notes`. */
  lemma ReadBackNotes(notes: seq<Note>)
    ensures StoredNotes(Some(EncodeNotes(notes))) == Some(notes)
  {
    NotesRoundTrip(notes);
  }

  lemma ReadBackExams(exams: seq<ExamEntry>)
    ensures StoredExams(Some(EncodeExams(exams))) == Some(exams)
  {
    ExamsRoundTrip(exams);
  }

  /** The message a query or mutation fails with when the stored text does not parse. */
  const MalformedStore: string := "SyntaxError"

  /** `useSubjects`: the actor's timetable, nothing without an actor, or the rejection. */
  method UseSubjects(actor: Actor?) returns (r: Result<seq<Subject>>)
    ensures actor == null ==> r == Ok([])
    ensures actor != null && actor.accepting ==> r == Ok(actor.timetable)
    ensures actor != null && !actor.accepting ==> r == Err(CallRejected)
  {
    if actor == null {
      r := Ok([]);
    } else if !actor.accepting {
      r := Err(CallRejected);
    } else {
      r := Ok(actor.timetable);
    }
  }

  /** `useFlashcards`: the actor's flashcards, nothing without an actor, or the rejection. */
  method UseFlashcards(actor: Actor?) returns (r: Result<seq<Flashcard>>)
    ensures actor == null ==> r == Ok([])
    ensures actor != null && actor.accepting ==> r == Ok(actor.flashcards)
    ensures actor != null && !actor.accepting ==> r == Err(CallRejected)
  {
    if actor == null {
      r := Ok([]);
    } else if !actor.accepting {
      r := Err(CallRejected);
    } else {
      r := Ok(actor.flashcards);
    }
  }

  /** `useNotes`: the notes of the local store, or nothing without an actor. */
  method UseNotes(actor: Actor?, store: LocalStore) returns (r: Result<seq<Note>>)
    ensures actor == null ==> r == Ok([])
    ensures actor != null && StoredNotes(store.notes).Some? ==> r == Ok(StoredNotes(store.notes).value)
    ensures actor != null && StoredNotes(store.notes).None? ==> r == Err(MalformedStore)
  {
    if actor == null {
      return Ok([]);
    }
    var notes := StoredNotes(store.notes);
    if notes.None? {
      return Err(MalformedStore);
    }
    r := Ok(notes.value);
  }

  /** `useExams`: the exams of the local store with their days left, or nothing without an actor. */
  method UseExams(actor: Actor?, store: LocalStore, nowMs: int) returns (r: Result<seq<Exam>>)
    ensures actor == null ==> r == Ok([])
    ensures actor != null && StoredExams(store.exams).Some? ==>
      r == Ok(WithDaysLeft(StoredExams(store.exams).value, nowMs))
    ensures actor != null && StoredExams(store.exams).None? ==> r == Err(MalformedStore)
  {
    if actor == null {
      return Ok([]);
    }
    var exams := StoredExams(store.exams);
    if exams.None? {
      return Err(MalformedStore);
    }
    r := Ok(WithDaysLeft(exams.value, nowMs));
  }

  /** `useAddSubject`: fails without an actor, otherwise sends the subject; a rejected call fails. */
  method AddSubject(actor: Actor?, name: string, studyTime: int) returns (r: Result<()>)
    modifies actor
    ensures actor == null ==> r == Err(ActorNotInitialized)
    ensures actor != null && old(actor.accepting) ==>
      r == Ok(()) && actor.calls == old(actor.calls) + [AddSubjectCall(name, studyTime)]
    ensures actor != null && !old(actor.accepting) ==> r == Err(CallRejected) && actor.calls == old(actor.calls)
    ensures actor != null ==> actor.timetable == old(actor.timetable) && actor.flashcards == old(actor.flashcards)
    ensures actor != null ==> actor.accepting == old(actor.accepting)
  {
    if actor == null {
      return Err(ActorNotInitialized);
    }
    var sent := actor.Receive(AddSubjectCall(name, studyTime));
    r := if sent.Ok? then Ok(()) else Err(sent.error);
  }

  /** `useRemoveSubject`: fails without an actor, otherwise asks the actor to remove the subject; a
      rejected call fails. */
  method RemoveSubject(actor: Actor?, name: string) returns (r: Result<()>)
    modifies actor
    ensures actor == null ==> r == Err(ActorNotInitialized)
    ensures actor != null && old(actor.accepting) ==>
      r == Ok(()) && actor.calls == old(actor.calls) + [RemoveSubjectCall(name)]
    ensures actor != null && !old(actor.accepting) ==> r == Err(CallRejected) && actor.calls == old(actor.calls)
    ensures actor != null ==> actor.timetable == old(actor.timetable) && actor.flashcards == old(actor.flashcards)
    ensures actor != null ==> actor.accepting == old(actor.accepting)
  {
    if actor == null {
      return Err(ActorNotInitialized);
    }
    var sent := actor.Receive(RemoveSubjectCall(name));
    r := if sent.Ok? then Ok(()) else Err(sent.error);
  }

  /** `useAddFlashcard`: fails without an actor, otherwise creates the card and returns its id; a
      rejected call fails. */
  method AddFlashcard(actor: Actor?, question: string, answer: string) returns (r: Result<int>)
    modifies actor
    ensures actor == null ==> r == Err(ActorNotInitialized)
    ensures actor != null && old(actor.accepting) ==>
      r == Ok(old(actor.nextId)) && actor.calls == old(actor.calls) + [CreateFlashcardCall(question, answer)]
    ensures actor != null && !old(actor.accepting) ==> r == Err(CallRejected) && actor.calls == old(actor.calls)
    ensures actor != null ==> actor.timetable == old(actor.timetable) && actor.flashcards == old(actor.flashcards)
    ensures actor != null ==> actor.accepting == old(actor.accepting)
  {
    if actor == null {
      return Err(ActorNotInitialized);
    }
    var sent := actor.Receive(CreateFlashcardCall(question, answer));
    r := if sent.Ok? then Ok(sent.value as int) else Err(sent.error);
  }

  /** `useAddNote`: fails without an actor before touching the store; otherwise sends the note, and
      when the actor accepts, appends the note with the id it returned to the stored notes and
      returns that id. A rejected call throws before the store is written. */
  method AddNote(actor: Actor?, store: LocalStore, subject: string, content: string) returns (r: Result<int>)
    modifies actor, store`notes
    ensures actor == null ==> r == Err(ActorNotInitialized) && store.notes == old(store.notes)
    ensures actor != null && !old(actor.accepting) ==>
      r == Err(CallRejected) && store.notes == old(store.notes) && actor.calls == old(actor.calls)
    ensures actor != null && old(actor.accepting) ==> actor.calls == old(actor.calls) + [AddNoteCall(subject, content)]
    ensures actor != null ==> actor.timetable == old(actor.timetable) && actor.flashcards == old(actor.flashcards)
    ensures actor != null ==> actor.accepting == old(actor.accepting)
    ensures actor != null && old(actor.accepting) && StoredNotes(old(store.notes)).Some? ==>
      (r == Ok(old(actor.nextId))
       && StoredNotes(store.notes) == Some(StoredNotes(old(store.notes)).value + [Note(old(actor.nextId), subject, content)]))
    ensures actor != null && old(actor.accepting) && StoredNotes(old(store.notes)).None? ==>
      r == Err(MalformedStore) && store.notes == old(store.notes)
  {
    if actor == null {
      return Err(ActorNotInitialized);
    }
    var sent := actor.Receive(AddNoteCall(subject, content));
    if sent.Err? {
      return Err(sent.error);
    }
    var id := sent.value;
    var notes := StoredNotes(store.notes);
    if notes.None? {
      return Err(MalformedStore);
    }
    var updated := notes.value + [Note(id, subject, content)];
    var encoded := EncodeNotes(updated);
    ReadBackNotes(updated);
    store.notes := Some(encoded);
    r := Ok(id);
  }

  /** `useAddExam`: as `useAddNote`, for an exam with its name and date. */
  method AddExam(actor: Actor?, store: LocalStore, name: string, date: int) returns (r: Result<int>)
    modifies actor, store`exams
    ensures actor == null ==> r == Err(ActorNotInitialized) && store.exams == old(store.exams)
    ensures actor != null && !old(actor.accepting) ==>
      r == Err(CallRejected) && store.exams == old(store.exams) && actor.calls == old(actor.calls)
    ensures actor != null && old(actor.accepting) ==> actor.calls == old(actor.calls) + [AddExamCall(name, date)]
    ensures actor != null ==> actor.timetable == old(actor.timetable) && actor.flashcards == old(actor.flashcards)
    ensures actor != null ==> actor.accepting == old(actor.accepting)
    ensures actor != null && old(actor.accepting) && StoredExams(old(store.exams)).Some? ==>
      (r == Ok(old(actor.nextId))
       && StoredExams(store.exams) == Some(StoredExams(old(store.exams)).value + [ExamEntry(old(actor.nextId), name, date)]))
    ensures actor != null && old(actor.accepting) && StoredExams(old(store.exams)).None? ==>
      r == Err(MalformedStore) && store.exams == old(store.exams)
  {
    if actor == null {
      return Err(ActorNotInitialized);
    }
    var sent := actor.Receive(AddExamCall(name, date));
    if sent.Err? {
      return Err(sent.error);
    }
    var id := sent.value;
    var exams := StoredExams(store.exams);
    if exams.None? {
      return Err(MalformedStore);
    }
    var updated := exams.value + [ExamEntry(id, name, date)];
    var encoded := EncodeExams(updated);
    ReadBackExams(updated);
    store.exams := Some(encoded);
    r := Ok(id);
  }
}
