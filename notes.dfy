/** The notes page: the add-note guard, the case-insensitive search, and grouping by subject. */
module NotesSection {
  import opened Common
  import opened Text
  import opened Store
  import Queries

  type Note = Queries.Note

  /** The search condition: the lower-cased subject or the lower-cased content includes the
      lower-cased query. */
  predicate Matches(note: Note, query: string) {
    Includes(Lower(note.subject), Lower(query)) || Includes(Lower(note.content), Lower(query))
  }

  /** `filteredNotes`. */
  function Filtered(notes: seq<Note>, query: string): (r: seq<Note>)
    ensures |r| <= |notes|
    ensures forall n :: n in r <==> n in notes && Matches(n, query)
  {
    if notes == [] then []
    else
      var rest := Filtered(notes[..|notes| - 1], query);
      var last := notes[|notes| - 1];
      assert notes == notes[..|notes| - 1] + [last];
      if Matches(last, query) then rest + [last] else rest
  }

  /** The filter keeps the order of the notes: filtering a concatenation concatenates the
      filtered parts. */
  lemma {:induction false} FilteredAppend(a: seq<Note>, b: seq<Note>, query: string)
    ensures Filtered(a + b, query) == Filtered(a, query) + Filtered(b, query)
    decreases |b|
  {
    if b == [] {
      assert a + b == a;
    } else {
      var b' := b[..|b| - 1];
      assert (a + b)[..|a + b| - 1] == a + b';
      assert (a + b)[|a + b| - 1] == b[|b| - 1];
      FilteredAppend(a, b', query);
    }
  }

  /** An empty query keeps every note. */
  lemma {:induction false} EmptyQueryKeepsAll(notes: seq<Note>)
    ensures Filtered(notes, "") == notes
  {
    if notes != [] {
      assert Lower("") == "";
      IncludesEmpty(Lower(notes[|notes| - 1].subject));
      EmptyQueryKeepsAll(notes[..|notes| - 1]);
      assert notes == notes[..|notes| - 1] + [notes[|notes| - 1]];
    }
  }

  /** The search ignores the case of the query. */
  lemma QueryCaseIgnored(notes: seq<Note>, query: string)
    ensures Filtered(notes, query) == Filtered(notes, Lower(query))
  {
    LowerIdempotent(query);
    assert forall n :: Matches(n, query) == Matches(n, Lower(query));
  }

  /** The notes of one subject, in their order. */
  function OfSubject(notes: seq<Note>, subject: string): (r: seq<Note>)
    ensures |r| <= |notes|
    ensures forall n :: n in r <==> n in notes && n.subject == subject
  {
    if notes == [] then []
    else
      var rest := OfSubject(notes[..|notes| - 1], subject);
      var last := notes[|notes| - 1];
      assert notes == notes[..|notes| - 1] + [last];
      if last.subject == subject then rest + [last] else rest
  }

  /** A group keeps the order of the notes: grouping a concatenation concatenates the groups. */
  lemma {:induction false} OfSubjectAppend(a: seq<Note>, b: seq<Note>, subject: string)
    ensures OfSubject(a + b, subject) == OfSubject(a, subject) + OfSubject(b, subject)
    decreases |b|
  {
    if b == [] {
      assert a + b == a;
    } else {
      var b' := b[..|b| - 1];
      assert (a + b)[..|a + b| - 1] == a + b';
      assert (a + b)[|a + b| - 1] == b[|b| - 1];
      OfSubjectAppend(a, b', subject);
    }
  }

  /** The subjects that occur among the notes. */
  function Subjects(notes: seq<Note>): set<string> {
    set i | 0 <= i < |notes| :: notes[i].subject
  }

  /** A subject that does not occur has no notes. */
  lemma {:induction false} OfAbsentSubject(notes: seq<Note>, subject: string)
    requires subject !in Subjects(notes)
    ensures OfSubject(notes, subject) == []
  {
    if notes != [] {
      var init := notes[..|notes| - 1];
      forall j | 0 <= j < |init|
        ensures init[j].subject != subject
      {
        assert init[j] == notes[j];
        assert notes[j].subject in Subjects(notes);
      }
      assert notes[|notes| - 1].subject in Subjects(notes);
      OfAbsentSubject(init, subject);
    }
  }

  /** One note more adds its subject. */
  lemma SubjectsSnoc(notes: seq<Note>, i: int)
    requires 0 <= i < |notes|
    ensures Subjects(notes[..i + 1]) == Subjects(notes[..i]) + {notes[i].subject}
  {
    var a, b := notes[..i], notes[..i + 1];
    forall s | s in Subjects(b)
      ensures s in Subjects(a) + {notes[i].subject}
    {
      var j :| 0 <= j < i + 1 && b[j].subject == s;
      if j < i {
        assert a[j].subject == s;
      }
    }
    forall s | s in Subjects(a)
      ensures s in Subjects(b)
    {
      var j :| 0 <= j < i && a[j].subject == s;
      assert b[j].subject == s;
    }
    assert b[i].subject == notes[i].subject;
  }

  /** The names a plain object `{}` inherits from `Object.prototype`. Looking one of them up gives
      the inherited member, which is truthy and has no `push`. */
  const InheritedNames: set<string> := {
    "constructor", "hasOwnProperty", "isPrototypeOf", "propertyIsEnumerable", "toLocaleString",
    "toString", "valueOf", "__proto__", "__defineGetter__", "__defineSetter__", "__lookupGetter__",
    "__lookupSetter__"
  }

  /** The error calling `push` on an inherited member throws. */
  const NotAFunction: string := "TypeError"

  /** `groupedNotes`: the reduce building a record from subject to its notes, pushing each note
      onto its subject's array. A note whose subject is an inherited name makes the lookup find the
      inherited member, so no array is created and the push throws. */
  method GroupNotes(notes: seq<Note>) returns (r: Result<map<string, seq<Note>>>)
    ensures r.Err? <==> exists i :: 0 <= i < |notes| && notes[i].subject in InheritedNames
    ensures r.Err? ==> r.error == NotAFunction
    ensures r.Ok? ==> r.value.Keys == Subjects(notes)
    ensures r.Ok? ==> forall s :: s in r.value ==> r.value[s] == OfSubject(notes, s)
  {
    var groups := map[];
    for i := 0 to |notes|
      invariant forall j :: 0 <= j < i ==> notes[j].subject !in InheritedNames
      invariant groups.Keys == Subjects(notes[..i])
      invariant forall s :: s in groups ==> groups[s] == OfSubject(notes[..i], s)
    {
      var note := notes[i];
      if note.subject in InheritedNames {
        return Err(NotAFunction);
      }
      assert notes[..i + 1][..i] == notes[..i];
      if note.subject !in groups {
        groups := groups[note.subject := []];
        OfAbsentSubject(notes[..i], note.subject);
      }
      groups := groups[note.subject := groups[note.subject] + [note]];
      SubjectsSnoc(notes, i);
    }
    assert notes[..|notes|] == notes;
    r := Ok(groups);
  }

  /** The group sizes over a list of subjects. */
  function SizeSum(notes: seq<Note>, keys: seq<string>): nat {
    if keys == [] then 0 else |OfSubject(notes, keys[0])| + SizeSum(notes, keys[1..])
  }

  function Count(keys: seq<string>, s: string): nat {
    if keys == [] then 0 else (if keys[0] == s then 1 else 0) + Count(keys[1..], s)
  }

  lemma {:induction false} SizeSumSnoc(notes: seq<Note>, note: Note, keys: seq<string>)
    ensures SizeSum(notes + [note], keys) == SizeSum(notes, keys) + Count(keys, note.subject)
  {
    if keys != [] {
      assert (notes + [note])[..|notes + [note]| - 1] == notes;
      SizeSumSnoc(notes, note, keys[1..]);
    }
  }

  lemma {:induction false} CountDistinct(keys: seq<string>, s: string)
    requires forall i, j :: 0 <= i < j < |keys| ==> keys[i] != keys[j]
    requires s in keys
    ensures Count(keys, s) == 1
  {
    if keys[0] != s {
      CountDistinct(keys[1..], s);
    } else {
      CountAbsent(keys[1..], s);
    }
  }

  lemma {:induction false} CountAbsent(keys: seq<string>, s: string)
    requires s !in keys
    ensures Count(keys, s) == 0
  {
    if keys != [] {
      CountAbsent(keys[1..], s);
    }
  }

  /** Listing each subject once, the group sizes add up to the number of notes. */
  lemma {:induction false} GroupSizesSum(notes: seq<Note>, keys: seq<string>)
    requires forall i, j :: 0 <= i < j < |keys| ==> keys[i] != keys[j]
    requires Subjects(notes) <= set k | k in keys
    ensures SizeSum(notes, keys) == |notes|
    decreases |notes|
  {
    if notes == [] {
      SizeSumEmpty(keys);
    } else {
      var init := notes[..|notes| - 1];
      var last := notes[|notes| - 1];
      assert notes == init + [last];
      assert Subjects(init) <= Subjects(notes) by {
        forall s | s in Subjects(init)
          ensures s in Subjects(notes)
        {
          var j :| 0 <= j < |init| && init[j].subject == s;
          assert notes[j].subject == s;
        }
      }
      GroupSizesSum(init, keys);
      SizeSumSnoc(init, last, keys);
      assert last.subject in Subjects(notes);
      CountDistinct(keys, last.subject);
    }
  }

  lemma {:induction false} SizeSumEmpty(keys: seq<string>)
    ensures SizeSum([], keys) == 0
  {
    if keys != [] {
      SizeSumEmpty(keys[1..]);
    }
  }

  /** Every note lands in the group of its own subject and in no other. */
  lemma GroupOfNote(notes: seq<Note>, groups: map<string, seq<Note>>, n: Note)
    requires groups.Keys == Subjects(notes)
    requires forall s :: s in groups ==> groups[s] == OfSubject(notes, s)
    requires n in notes
    ensures n.subject in groups && n in groups[n.subject]
    ensures forall s :: s in groups && s != n.subject ==> n !in groups[s]
  {
    var j :| 0 <= j < |notes| && notes[j] == n;
    assert n.subject in Subjects(notes);
  }

  /** `handleAddNote`'s guard: both fields non-blank; the note is sent trimmed. */
  function Submission(subject: string, content: string): (r: Option<(string, string)>)
    ensures r.Some? <==> Trim(subject) != [] && Trim(content) != []
    ensures r.Some? ==> r.value == (Trim(subject), Trim(content))
  {
    if Trim(subject) != [] && Trim(content) != [] then Some((Trim(subject), Trim(content))) else None
  }

  /** The add-note dialog. */
  class NoteForm {
    var subject: string
    var content: string
    var dialogOpen: bool

    constructor()
      ensures subject == "" && content == "" && !dialogOpen
    {
      subject := "";
      content := "";
      dialogOpen := false;
    }

    /** The mutation's success callback: empties both fields and closes the dialog. */
    method ClearDialog()
      modifies this
      ensures subject == "" && content == "" && !dialogOpen
    {
      subject := "";
      content := "";
      dialogOpen := false;
    }

    /** Sends the trimmed note when both fields are filled in, and on success clears the fields
        and closes the dialog. */
    method HandleAddNote(actor: Queries.Actor?, store: LocalStore) returns (r: Option<Result<int>>)
      modifies this, actor, store`notes
      ensures Submission(old(subject), old(content)).None? ==>
        r.None? && subject == old(subject) && content == old(content) && dialogOpen == old(dialogOpen)
        && store.notes == old(store.notes) && (actor != null ==> actor.calls == old(actor.calls))
      ensures Submission(old(subject), old(content)).Some? ==> r.Some?
      ensures r.Some? && actor != null && old(actor.accepting) ==>
        actor.calls == old(actor.calls) + [Queries.AddNoteCall(Trim(old(subject)), Trim(old(content)))]
      ensures r.Some? && r.value.Ok? ==> subject == "" && content == "" && !dialogOpen
      ensures r.Some? && r.value.Err? ==> subject == old(subject) && content == old(content) && dialogOpen == old(dialogOpen)
      ensures r.Some? && actor == null ==> r.value == Err(ActorNotInitialized) && store.notes == old(store.notes)
      ensures r.Some? && actor != null && !old(actor.accepting) ==>
        r.value == Err(Queries.CallRejected) && store.notes == old(store.notes) && actor.calls == old(actor.calls)
      ensures r.Some? && actor != null && old(actor.accepting) && Queries.StoredNotes(old(store.notes)).Some? ==>
        r.value == Ok(old(actor.nextId))
      ensures r.Some? && actor != null && old(actor.accepting) && Queries.StoredNotes(old(store.notes)).Some? ==>
        Queries.StoredNotes(store.notes) == Some(Queries.StoredNotes(old(store.notes)).value
          + [Queries.Note(old(actor.nextId), Trim(old(subject)), Trim(old(content)))])
      ensures r.Some? && actor != null && old(actor.accepting) && Queries.StoredNotes(old(store.notes)).None? ==>
        r.value == Err(Queries.MalformedStore) && store.notes == old(store.notes)
    {
      var sent := Submission(subject, content);
      if sent.None? {
        return None;
      }
      var result := Queries.AddNote(actor, store, sent.value.0, sent.value.1);
      if result.Ok? {
        ClearDialog();
      }
      r := Some(result);
    }
  }
}
