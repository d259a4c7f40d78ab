# Smart Study Buddy — a verified model of its rules

Smart Study Buddy is a React study app. It has a Pomodoro timer, daily study progress with a
streak, a scripted study assistant, flashcard review, exam cards, a dashboard of upcoming exams,
searchable notes grouped by subject, and a study planner. Subjects and flashcards live on a remote
actor. Notes, exams, progress, the streak and the day's Pomodoro sessions live in the browser's
local storage.

This project models the rules behind those screens in Dafny and proves what they promise.

## How the model is organised

- `common.dfy`: `Option` and `Result`, the day type (calendar days are integer day numbers), and the
  "Actor not initialized" message.
- `text.dfy`: ASCII `toLowerCase`, `includes`, and `trim`.
- `decimal.dfy`: `bigint` to decimal text and back (`toString` and `BigInt(text)`).
- `store.dfy`: the local storage, as one object `LocalStore` with one optional field per key.
  The keys are `study-progress`, `study-streak`, `pomodoro-sessions`, `study-notes` and
  `study-exams`. A JSON value held under a key is modelled by the record it holds.
- `progress.dfy`: the progress hook.
  - Pure rules: the initial record, the day rollover, `addSession`, the streak rule and the goal
    percentage.
  - `ProgressTracker`: the class whose methods replace the record and write the store.
- `timer.dfy`: the Pomodoro hook.
  - `Next` is one step of the countdown effect. `Run` is many steps.
  - `PomodoroTimer` is the hook's state. Its `Tick` is proved to follow `Next` and to credit the
    progress tracker and the session record exactly on a focus completion. A tick that changes state
    also renders: the progress hook evaluates the streak, and its new-day effect runs. Mounting
    the hook renders the same way, so a stale stored record is rolled over on mount.
- `chat.dfy`: `getResponse` as a first-match keyword dispatch, and `Chat`, the transcript with its
  typing flag.
- `queries.dfy`: the data hooks.
  - The remote actor is a class `Actor`. Its `accepting` field, set by its environment, says whether
    it answers calls or rejects them. It records the mutating calls it accepts and hands out fresh
    identifiers for them. `null` stands for the missing actor.
  - The hooks cover subjects and flashcards on the actor. Notes and exams are kept in the store
    through the `bigint` replacer and reviver.
  - `daysLeft` is computed per exam.
- `flashcards.dfy`: the review cursor, and the `Review` class holding it.
- `examcard.dfy`, `dashboard.dfy`, `notes.dfy`, `planner.dfy`: the rules of those screens. The
  notes and planner dialogs are classes whose handlers guard, send, and clear the form on success.

The model follows the code where the code and its design description differ:

- `addSession` adds to the record the last render saw. It does not roll the day over first
  (`frontend/src/hooks/useStudyProgress.ts:66-74`). When a day rollover and a focus completion
  fall in the same tick, the session is added to the record from before the rollover. `todayHours` is read from the record before the
  rollover effect has run.
- `calculateStreak` runs on every render (`useStudyProgress.ts:62`). With a gap of one day it writes
  the incremented streak each time, and `lastStudyDate` does not move. So evaluating it again
  increments again: `StudyProgress.NextDayRendersInflateStreak` proves that n evaluations add n.
  Only a completed session, through `addSession`, settles the streak.
- A negative gap resets the streak to 1, like any gap other than 0 and 1.
- Phase completion fires whenever `timeLeft` is 0, running or not (`useTimer.ts:40`). A focus phase
  therefore takes its 1500 ticks to reach 0 and one more step to complete.
- The session count is read from the store once, when the hook mounts (`useTimer.ts:31`). It is then
  written as `sessionCount + 1` under today's date, with no reset on a day change while mounted.
- When several chat messages are waiting for their replies, each delivered reply clears the typing
  flag, even if later replies are still pending.

## Model

| member | source | states |
|---|---|---|
| Text.Lower | frontend/src/hooks/useAIChat.ts:62 | lower-casing keeps the length, maps each character through ASCII lower-casing, and leaves no upper-case letter |
| Text.LowerIdempotent | frontend/src/pages/NotesSection.tsx:38-39 | lower-casing twice is lower-casing once |
| Text.Includes | frontend/src/hooks/useAIChat.ts:65 | `includes` holds exactly when the text occurs at some position |
| Text.Trim | frontend/src/pages/NotesSection.tsx:22-24 | the result starts where the leading white space ends, occurs there in the original, only white space lies before and after it, and it neither begins nor ends with white space; it is empty exactly when the original is all white space |
| Text.TrimUnique | frontend/src/pages/NotesSection.tsx:22-24 | any piece of the text with only white space around it and no white space at its ends is the trimmed text, so the contract of `Trim` determines it |
| Text.TrimIdempotent | frontend/src/pages/StudyPlanner.tsx:27-29 | trimming twice is trimming once |
| Decimal.DecimalRoundTrip | frontend/src/hooks/useQueries.ts:59-62 | `BigInt` of the `toString` text of any integer, negative ones included, gives the integer back |
| Decimal.DecimalInjective | frontend/src/hooks/useQueries.ts:84-86 | two integers with the same decimal text are equal |
| Decimal.ToDecimal | frontend/src/hooks/useQueries.ts:84-86 | the text is never empty and starts with `-` exactly for a negative integer; `DecimalRoundTrip` proves that it parses back |
| Decimal.ParseBigInt | frontend/src/hooks/useQueries.ts:59-62 | `BigInt(text)`: the trimmed text is parsed by `ParseText`; `DecimalRoundTrip` and `PaddedPrefixedText` state its results |
| Decimal.ParseText | frontend/src/hooks/useQueries.ts:59-62 | blank text is 0; an optional sign and decimal digits, or `0x`, `0o`, `0b` and digits of that base; anything else throws; the example lemmas below state its results |
| Decimal.HexText | frontend/src/hooks/useQueries.ts:59-62 | `BigInt("0x1F")` is 31 |
| Decimal.OctalText | frontend/src/hooks/useQueries.ts:59-62 | `BigInt("0o17")` is 15 |
| Decimal.BinaryText | frontend/src/hooks/useQueries.ts:59-62 | `BigInt("0B101")` is 5: the prefix letter may be upper case |
| Decimal.MalformedPrefixedText | frontend/src/hooks/useQueries.ts:59-62 | `BigInt` throws on a prefix with no digits, on a signed prefixed text and on a digit outside the base |
| Decimal.PaddedPrefixedText | frontend/src/hooks/useQueries.ts:59-62 | white space around a prefixed text is ignored: `BigInt(" 0x10 ")` is 16 |
| StudyProgress.InitialRecord | frontend/src/hooks/useStudyProgress.ts:15-19 | a fresh record is dated today, last studied today, with 0 minutes |
| StudyProgress.LoadRecord | frontend/src/hooks/useStudyProgress.ts:10-20 | a stored record is used as it is; with none the record is the initial one |
| StudyProgress.RolledOver | frontend/src/hooks/useStudyProgress.ts:26-36 | on a new day the minutes become 0 and the date today, keeping the last study date; on the same day nothing changes |
| StudyProgress.RolloverIdempotent | frontend/src/hooks/useStudyProgress.ts:26-36 | a second rollover on the same day changes nothing |
| StudyProgress.WithSession | frontend/src/hooks/useStudyProgress.ts:66-74 | a session adds exactly its minutes and dates both the record and the last study date today |
| StudyProgress.EvaluateStreak | frontend/src/hooks/useStudyProgress.ts:39-60 | gap 0 returns the stored streak (1 without one) and writes nothing; gap 1 returns and writes the stored streak plus 1 (1 without one); any other gap, negative ones too, returns and writes 1 |
| StudyProgress.NextDayRendersInflateStreak | frontend/src/hooks/useStudyProgress.ts:49-54 | n evaluations on the day after the last study day raise the stored streak by n |
| StudyProgress.SameDayRendersKeepStreak | frontend/src/hooks/useStudyProgress.ts:45-48 | any number of evaluations on the last study day leave the stored streak as it was and return it |
| StudyProgress.BrokenStreakIsOne | frontend/src/hooks/useStudyProgress.ts:55-59 | after at least one evaluation with a gap other than 0 and 1 the stored streak is 1 |
| StudyProgress.SessionSettlesStreak | frontend/src/hooks/useStudyProgress.ts:66-74 | after a session the streak evaluation writes nothing |
| StudyProgress.TodayHours | frontend/src/hooks/useStudyProgress.ts:63 | the hours times 60 equal the minutes |
| StudyProgress.ProgressPercentage | frontend/src/hooks/useStudyProgress.ts:23 | the percentage lies in [0, 100] and is 100 exactly when at least 120 minutes are recorded (see also line 64) |
| StudyProgress.ProgressTracker.NewDayEffect | frontend/src/hooks/useStudyProgress.ts:26-36 | the record becomes its rollover, and it is written only on a new day |
| StudyProgress.ProgressTracker.CalculateStreak | frontend/src/hooks/useStudyProgress.ts:39-60 | returns the streak of the rule above and leaves the streak key as the rule writes it |
| StudyProgress.ProgressTracker.AddSession | frontend/src/hooks/useStudyProgress.ts:66-74 | the record becomes the record the last render saw, with the session added, and that record is written |
| StudyProgress.ProgressTracker.Render | frontend/src/hooks/useStudyProgress.ts:62 | a render evaluates the streak rule against the current record and writes the streak key as the rule says; the record it saw is what `addSession` later reads |
| StudyProgress.ProgressTracker.constructor | frontend/src/hooks/useStudyProgress.ts:10-36 | mounting loads the stored record, or a fresh one; the first render evaluates the streak; the new-day effect rolls a stale record over and writes it, and then a second render evaluates the streak again; the streak key is what those one or two evaluations write |
| Timer.Next | frontend/src/hooks/useTimer.ts:33-68 | running with time left: one second less, phase and flag unchanged; at 0: stopped, phase flipped, 300 s after focus and 1500 s after a break, credit exactly after focus; otherwise nothing; the countdown bounds are kept |
| Timer.CommandsKeepPhase | frontend/src/hooks/useTimer.ts:70-82 | start and pause only change the running flag; reset gives focus, 1500 s, stopped, and two resets equal one |
| Timer.RunSplit | frontend/src/hooks/useTimer.ts:33-68 | running a+b steps is running a steps and then b, credits added |
| Timer.Run | frontend/src/hooks/useTimer.ts:33-68 | `n` countdown steps and the focus completions among them; `RunSplit`, `Countdown` and `FocusSessionEndToEnd` state what it computes |
| Timer.Countdown | frontend/src/hooks/useTimer.ts:36-39 | while running, n steps with at least n seconds left take off exactly n seconds with no credit |
| Timer.PausedStays | frontend/src/hooks/useTimer.ts:36-40 | a paused timer with time left does not move |
| Timer.PhaseCompletes | frontend/src/hooks/useTimer.ts:36-62 | a running phase with t seconds left, after t+1 or more steps, is stopped at the start of the other phase with one credit after focus and none after a break |
| Timer.FocusSessionEndToEnd | frontend/src/hooks/useTimer.ts:36-62 | from the initial state started, 1501 steps end in a 300 s break, stopped, with exactly one credit; 1500 steps give none (see also lines 4-10) |
| Timer.BreakReturnsToFocus | frontend/src/hooks/useTimer.ts:40-62 | a started break comes back to the initial focus state with no credit |
| Timer.Clock | frontend/src/hooks/useTimer.ts:13-14 | minutes times 60 plus seconds is the time left, with seconds in [0, 60) and minutes at most 25 |
| Timer.Progress | frontend/src/hooks/useTimer.ts:15-16 | the progress lies in [0, 100]; it is 0 exactly at a full phase and 100 exactly at 0 s left |
| Timer.GetSessionCount | frontend/src/hooks/useTimer.ts:19-29 | the stored count when it is dated today, otherwise 0 |
| Timer.SessionCountReadBack | frontend/src/hooks/useTimer.ts:49-51 | a count written under a day reads back as that count on that day and as 0 on any other |
| Timer.PomodoroTimer.constructor | frontend/src/hooks/useTimer.ts:8-11 | the timer starts at focus, 1500 s, stopped, with the session count read from the store (see also line 31); the progress hook is mounted with its first render and new-day effect, as its constructor states |
| Timer.PomodoroTimer.Start | frontend/src/hooks/useTimer.ts:70-72 | sets the running flag and nothing else |
| Timer.PomodoroTimer.Pause | frontend/src/hooks/useTimer.ts:74-76 | clears the running flag and nothing else |
| Timer.PomodoroTimer.Reset | frontend/src/hooks/useTimer.ts:78-82 | back to focus, 1500 s, stopped |
| Timer.PomodoroTimer.Tick | frontend/src/hooks/useTimer.ts:33-68 | the state follows `Next`; no render happens exactly when nothing changes; on a focus completion 25 minutes are added to the record the last render saw and `sessionCount + 1` is stored under today; otherwise the record only rolls over, the count and sessions key stay, and a rollover not batched with a completion costs a second render; the streak key is what the streak rule writes after those renders |
| Timer.PomodoroTimer.RenderAfterPass | frontend/src/hooks/useTimer.ts:11 | the render after a state change: the progress hook sees its current record and writes the streak key as the streak rule says |
| AIChat.FirstMatchAt | frontend/src/hooks/useAIChat.ts:65-82 | the first rule whose keywords occur decides the reply |
| AIChat.NoMatchFallsBack | frontend/src/hooks/useAIChat.ts:83-91 | with no keyword of any rule present the reply is the default one |
| AIChat.DispatchIsFirstMatch | frontend/src/hooks/useAIChat.ts:64-92 | the if-else chain equals the first match over the rule table in the order photosynthesis, quadratic/equation, world war/ww2, memorize/formula, hello/hi, thank |
| AIChat.Dispatch | frontend/src/hooks/useAIChat.ts:65-66 | a text containing "photosynthesis" gets the photosynthesis reply |
| AIChat.CaseInsensitive | frontend/src/hooks/useAIChat.ts:62 | the reply to a message equals the reply to its lower-cased form |
| AIChat.Classify | frontend/src/hooks/useAIChat.ts:61-93 | the rule chosen for the lower-cased message; `DispatchIsFirstMatch` and `CaseInsensitive` state what it is |
| AIChat.GetResponse | frontend/src/hooks/useAIChat.ts:61-93 | the text of that rule; the example lemmas above state its replies |
| AIChat.PhotosynthesisWins | frontend/src/hooks/useAIChat.ts:65-66 | any message mentioning photosynthesis in any case gets that reply, whatever else it contains |
| AIChat.NoKeywordFallsBack | frontend/src/hooks/useAIChat.ts:83-91 | a message with no keyword gets the default reply |
| AIChat.QuadraticFormulaExample | frontend/src/hooks/useAIChat.ts:67-72 | "quadratic formula" gets the quadratic reply, not the memorising tips |
| AIChat.ThanksAnsweredWithGreeting | frontend/src/hooks/useAIChat.ts:73-82 | "thank you, this helped" gets the greeting, because it contains "hi" |
| AIChat.Chat.SendMessage | frontend/src/hooks/useAIChat.ts:95-101 | appends exactly the user's message, raises the typing flag and schedules its reply; earlier messages are unchanged and every earlier user message stays answered in order |
| AIChat.Chat.DeliverReply | frontend/src/hooks/useAIChat.ts:102-107 | appends exactly one assistant message, the reply to the oldest pending message, and clears the typing flag |
| AIChat.Chat.constructor | frontend/src/hooks/useAIChat.ts:58-59 | the transcript starts empty, not typing, with no reply pending, and answers with `getResponse` |
| AIChat.Exchange | frontend/src/hooks/useAIChat.ts:95-107 | a fresh chat after one message and its reply holds the user's message and then `getResponse` of it, typing in between and not after |
| Queries.DaysLeft | frontend/src/hooks/useQueries.ts:142-144 | the floor of the nanosecond difference over a day: negative exactly for past dates, 0 exactly within the day ahead |
| Queries.WithDaysLeft | frontend/src/hooks/useQueries.ts:143-146 | keeps the length and every other field, and adds each exam's days left |
| Queries.NotesRoundTrip | frontend/src/hooks/useQueries.ts:59-62 | notes written with the replacer read back unchanged with the reviver (see also lines 84-86) |
| Queries.ExamsRoundTrip | frontend/src/hooks/useQueries.ts:136-139 | exams written with the replacer read back unchanged, `id` and `date` alike (see also lines 168-170) |
| Queries.NoteRoundTrip | frontend/src/hooks/useQueries.ts:59-62 | one note turned to text by the replacer comes back unchanged through the reviver (see also lines 84-86) |
| Queries.ExamRoundTrip | frontend/src/hooks/useQueries.ts:136-139 | one exam turned to text by the replacer comes back unchanged through the reviver, `id` and `date` alike (see also lines 168-170) |
| Queries.EncodeNote | frontend/src/hooks/useQueries.ts:84-86 | the replacer: a note with its `id` as decimal text; `NoteRoundTrip` states that `DecodeNote` undoes it |
| Queries.DecodeNote | frontend/src/hooks/useQueries.ts:59-62 | the reviver: a note whose `id` text parses, or the parse error |
| Queries.EncodeExam | frontend/src/hooks/useQueries.ts:168-170 | the replacer on an exam, `id` and `date` as decimal text; `ExamRoundTrip` states that `DecodeExam` undoes it |
| Queries.DecodeExam | frontend/src/hooks/useQueries.ts:136-139 | the reviver on an exam: both texts parse, or the parse error |
| Queries.ReadAllMapAll | frontend/src/hooks/useQueries.ts:59-62 | decoding every element of an encoded list gives the list back whenever each element round-trips (see also lines 84-86) |
| Queries.ReadBackNotes | frontend/src/hooks/useQueries.ts:57-62 | the notes read from the `study-notes` key after writing a list are that list (see also lines 84-86) |
| Queries.ReadBackExams | frontend/src/hooks/useQueries.ts:134-139 | the exams read from the `study-exams` key after writing a list are that list (see also lines 168-170) |
| Queries.EncodeNotesAppend | frontend/src/hooks/useQueries.ts:83-86 | encoding a list with a note appended appends that note's encoding |
| Queries.EncodeExamsAppend | frontend/src/hooks/useQueries.ts:167-170 | encoding a list with an exam appended appends that exam's encoding |
| Queries.UseSubjects | frontend/src/hooks/useQueries.ts:6-17 | the actor's timetable; nothing without an actor; the rejection when the actor rejects the call |
| Queries.UseFlashcards | frontend/src/hooks/useQueries.ts:97-108 | the actor's flashcards; nothing without an actor; the rejection when the actor rejects the call |
| Queries.UseNotes | frontend/src/hooks/useQueries.ts:50-66 | nothing without an actor; otherwise the stored notes (none when the key is absent), or the parse error |
| Queries.UseExams | frontend/src/hooks/useQueries.ts:126-150 | nothing without an actor; otherwise the stored exams with their days left, or the parse error |
| Queries.AddSubject | frontend/src/hooks/useQueries.ts:19-32 | fails with "Actor not initialized" without an actor; an accepted call is recorded exactly once; a rejected one fails and records nothing; the actor's data never changes |
| Queries.RemoveSubject | frontend/src/hooks/useQueries.ts:34-47 | fails without an actor; an accepted call is recorded exactly once; a rejected one fails and records nothing |
| Queries.AddFlashcard | frontend/src/hooks/useQueries.ts:110-123 | fails without an actor; an accepted create call is recorded exactly once and returns the fresh id; a rejected one fails and records nothing |
| Queries.AddNote | frontend/src/hooks/useQueries.ts:68-94 | fails without an actor, or when the actor rejects the call, before any store write; otherwise one add-note call, and the stored notes read back as the old ones with exactly one `{id, subject, content}` appended |
| Queries.AddExam | frontend/src/hooks/useQueries.ts:152-178 | fails without an actor, or when the actor rejects the call, before any store write; otherwise one add-exam call, and the stored exams read back as the old ones with exactly one `{id, name, date}` appended |
| Queries.Actor.Receive | frontend/src/backend.d.ts:19-30 | an accepted call is recorded and answered with a fresh id; a rejected one is answered with the rejection and recorded nowhere; the actor's data is unchanged |
| Queries.Actor.constructor | frontend/src/backend.d.ts:19-30 | an actor with the given data, no calls yet, and the given acceptance |
| FlashcardReview.Next | frontend/src/components/FlashcardReview.tsx:23-28 | stays within the deck; moves one card on with the question up, or at the last card changes nothing |
| FlashcardReview.Previous | frontend/src/components/FlashcardReview.tsx:30-35 | stays within the deck; moves one card back with the question up, or at the first card changes nothing |
| FlashcardReview.Flip | frontend/src/components/FlashcardReview.tsx:37-39 | toggles the side and keeps the card |
| FlashcardReview.FlipTwice | frontend/src/components/FlashcardReview.tsx:37-39 | flipping twice restores the state |
| FlashcardReview.PreviousUndoesNext | frontend/src/components/FlashcardReview.tsx:23-35 | a step back after a step forward returns to the card, question up |
| FlashcardReview.ForwardReaches | frontend/src/components/FlashcardReview.tsx:23-28 | k presses of "Next" move k cards on and stop at the last card |
| FlashcardReview.ReviewProgress | frontend/src/components/FlashcardReview.tsx:21 | the progress lies in (0, 100] and is 100 exactly at the last card |
| FlashcardReview.ShownText | frontend/src/components/FlashcardReview.tsx:66-69 | the answer when the answer side is up, otherwise the question |
| FlashcardReview.Review.constructor | frontend/src/pages/FlashcardsMode.tsx:37 | review starts only with a non-empty deck, at the first card, question up |
| FlashcardReview.Review.HandleNext | frontend/src/components/FlashcardReview.tsx:23-28 | the cursor becomes `Next` of the old cursor and stays within the deck |
| FlashcardReview.Review.HandlePrevious | frontend/src/components/FlashcardReview.tsx:30-35 | the cursor becomes `Previous` of the old cursor and stays within the deck |
| FlashcardReview.Review.HandleFlip | frontend/src/components/FlashcardReview.tsx:37-39 | the cursor becomes `Flip` of the old cursor |
| FlashcardReview.Review.PreviousDisabled | frontend/src/components/FlashcardReview.tsx:81-84 | the "Previous" button is disabled exactly where its handler does nothing |
| FlashcardReview.Review.NextDisabled | frontend/src/components/FlashcardReview.tsx:95-98 | the "Next" button is disabled exactly where its handler does nothing |
| FlashcardReview.Review.Shown | frontend/src/components/FlashcardReview.tsx:20 | the current card's answer when flipped, its question otherwise (see also lines 66-69) |
| FlashcardReview.Review.Progress | frontend/src/components/FlashcardReview.tsx:21 | in (0, 100], and 100 exactly when "Next" is disabled |
| ExamCard.FlagsExclusive | frontend/src/components/ExamCard.tsx:15-17 | past, today and urgent exclude one another, and `null` sets none of them |
| ExamCard.IsPast | frontend/src/components/ExamCard.tsx:15 | days left known and negative; `FlagsExclusive` relates the three flags |
| ExamCard.IsToday | frontend/src/components/ExamCard.tsx:16 | days left known and 0 |
| ExamCard.IsUrgent | frontend/src/components/ExamCard.tsx:17 | days left known and from 1 to 7 |
| ExamCard.Badge | frontend/src/components/ExamCard.tsx:19-24 | secondary exactly when past, destructive exactly today, default exactly for 1 to 7 days, outline exactly for `null` or more than 7 days |
| ExamCard.StatusText | frontend/src/components/ExamCard.tsx:26-31 | "Completed" when past, "Today!" today, "1 day left" for one day, otherwise the number (or `null`) followed by " days left" |
| ExamCard.StatusTextDeterminesDays | frontend/src/components/ExamCard.tsx:26-31 | two exams still ahead with the same status text have the same days left |
| ExamCard.BorderOf | frontend/src/components/ExamCard.tsx:34 | destructive exactly today, primary exactly when urgent, none exactly when the badge is secondary or outline |
| Dashboard.Qualifying | frontend/src/pages/Dashboard.tsx:15 | keeps an exam exactly when its days left are known and non-negative, with as many copies of each kept exam as the input has |
| Dashboard.QualifyingAppend | frontend/src/pages/Dashboard.tsx:15 | filtering a concatenation is filtering each part and concatenating, so input order is kept |
| Dashboard.QualifyingSingle | frontend/src/pages/Dashboard.tsx:15 | a single exam is kept exactly when it qualifies |
| Dashboard.Insert | frontend/src/pages/Dashboard.tsx:16 | inserting into a sorted list gives a sorted list with the exam added |
| Dashboard.Sort | frontend/src/pages/Dashboard.tsx:16 | the sorted list is ascending by days left and a permutation of its input |
| Dashboard.TakePrefix | frontend/src/pages/Dashboard.tsx:17 | `slice(0, n)` is the longest prefix of length at most n, and stays sorted |
| Dashboard.UpcomingShape | frontend/src/pages/Dashboard.tsx:14-17 | every listed exam has non-negative days left; the list holds three exams or all qualifying ones if fewer; it is sorted; every element comes from the input |
| Dashboard.Upcoming | frontend/src/pages/Dashboard.tsx:14-17 | the first three of the sorted qualifying exams; `UpcomingShape` and `LeftOutAreLater` state what the list is |
| Dashboard.LeftOutAreLater | frontend/src/pages/Dashboard.tsx:16-17 | a qualifying exam left out has no fewer days left than any listed one |
| NotesSection.Filtered | frontend/src/pages/NotesSection.tsx:36-40 | a note is kept exactly when its lower-cased subject or content includes the lower-cased query |
| NotesSection.FilteredAppend | frontend/src/pages/NotesSection.tsx:36-40 | filtering keeps the order: filtering a concatenation concatenates the filtered parts |
| NotesSection.EmptyQueryKeepsAll | frontend/src/pages/NotesSection.tsx:18 | the empty query keeps every note, in order (see also lines 36-40) |
| NotesSection.QueryCaseIgnored | frontend/src/pages/NotesSection.tsx:38-39 | a query and its lower-cased form select the same notes |
| NotesSection.OfSubject | frontend/src/pages/NotesSection.tsx:46 | a group holds exactly the notes of its subject |
| NotesSection.OfSubjectAppend | frontend/src/pages/NotesSection.tsx:46 | within a group the notes keep their order |
| NotesSection.GroupNotes | frontend/src/pages/NotesSection.tsx:42-48 | throws a `TypeError` exactly when some subject names an inherited member of a plain object; otherwise the groups are keyed by exactly the subjects present, and each holds that subject's notes in order |
| NotesSection.GroupOfNote | frontend/src/pages/NotesSection.tsx:42-48 | each note lands in the group of its subject and in no other |
| NotesSection.GroupSizesSum | frontend/src/pages/NotesSection.tsx:42-48 | listing each subject once, the group sizes add up to the number of notes |
| NotesSection.Submission | frontend/src/pages/NotesSection.tsx:22-24 | a note is sent exactly when the trimmed subject and content are both non-empty, and it is sent trimmed |
| NotesSection.NoteForm.HandleAddNote | frontend/src/pages/NotesSection.tsx:21-34 | with a blank field nothing is sent or changed; otherwise the trimmed note goes to the add-note mutation; when the actor accepts it, the call is recorded and the stored notes read back as the old ones plus the trimmed note with the fresh id, or, with a malformed store, the parse error with the store unchanged; a rejection leaves the store and calls unchanged; only success clears the fields and closes the dialog, and any failure leaves them |
| StudyPlanner.TotalAppend | frontend/src/pages/StudyPlanner.tsx:62 | the total of a concatenation is the sum of the totals |
| StudyPlanner.TotalStudyTime | frontend/src/pages/StudyPlanner.tsx:62 | the sum of the study times; `TotalAppend` and `TotalBoundsEach` state its properties |
| StudyPlanner.TotalBoundsEach | frontend/src/pages/StudyPlanner.tsx:62 | with no negative study time, the total is at least each subject's time |
| StudyPlanner.TruncRem | frontend/src/pages/StudyPlanner.tsx:77 | the remainder takes the sign of the dividend and is smaller than the divisor in size |
| StudyPlanner.HoursMinutesSplit | frontend/src/pages/StudyPlanner.tsx:77 | for a non-negative time, hours times 60 plus minutes is the time, with minutes in [0, 60) (see also line 136) |
| StudyPlanner.HoursMinutes | frontend/src/pages/StudyPlanner.tsx:136 | hours floored and minutes truncated; `HoursMinutesSplit` and `HoursMinutesNegative` state what the pair is |
| StudyPlanner.HoursMinutesNegative | frontend/src/pages/StudyPlanner.tsx:77 | for a negative time that is not whole hours, the parts add up to an hour less than the time and the minutes are negative (see also line 136) |
| StudyPlanner.ExamLabelParts | frontend/src/pages/StudyPlanner.tsx:49 | the stored name is the untrimmed exam name, " (", the subject or "General", and ")" |
| StudyPlanner.ExamLabel | frontend/src/pages/StudyPlanner.tsx:49 | the label's length is the name's, the subject's or "General"'s, and three more; `ExamLabelParts` and `ExamLabelInjective` state its parts |
| StudyPlanner.ExamLabelInjective | frontend/src/pages/StudyPlanner.tsx:49 | the same name with different shown subjects gives different stored names |
| StudyPlanner.ExamTimestamp | frontend/src/pages/StudyPlanner.tsx:47 | the nanosecond time divided by 1000000 is the millisecond time, with no remainder |
| StudyPlanner.DaysLeftInMilliseconds | frontend/src/pages/StudyPlanner.tsx:47 | for dates set this way, days left is the floor of the millisecond difference over 86400000 |
| StudyPlanner.SubjectSubmission | frontend/src/pages/StudyPlanner.tsx:26-29 | a subject is sent exactly when its trimmed name and the study-time text are non-empty, with the name trimmed |
| StudyPlanner.ExamSubmission | frontend/src/pages/StudyPlanner.tsx:45-49 | an exam is sent exactly when its trimmed name and the date text are non-empty, under its label and with the nanosecond date |
| StudyPlanner.PlannerForm.HandleAddSubject | frontend/src/pages/StudyPlanner.tsx:26-39 | as the guard says, one add-subject call when the actor accepts it, the rejection or the missing-actor error otherwise; the subject dialog is cleared and closed only on success and otherwise unchanged |
| StudyPlanner.PlannerForm.HandleRemoveSubject | frontend/src/pages/StudyPlanner.tsx:41-43 | one remove-subject call when the actor accepts it; otherwise the rejection, with nothing recorded, or the missing-actor error |
| StudyPlanner.PlannerForm.HandleAddExam | frontend/src/pages/StudyPlanner.tsx:45-60 | as the guard says, one add-exam call with the label and nanosecond date when the actor accepts it; the stored exams then read back as the old ones plus that exam with the fresh id, or, with a malformed store, the parse error with the store unchanged; a rejection leaves the store and calls unchanged; the exam dialog is cleared and closed only on success and otherwise unchanged |

## Left out

- Rendering, routing, icons and layout are not modelled: `App.tsx`, `Layout.tsx`, the page markup, `FlashcardList.tsx` and `NoteCard.tsx`.
- The remote actor's implementation is not part of this model; `backend.d.ts` only declares its types. The actor is a class that records the calls it accepts, hands out fresh identifiers, and rejects every call while its `accepting` field is false; why a real actor rejects a call, and the text of its error, are not modelled (a rejection is the message "Call rejected"). Its timetable and flashcards do not change in response to calls, because the queries that would show the change are refetches the model does not run.
- React Query caching, invalidation and refetching are left out; a query is a method reading the current actor or store.
- `setInterval` and `setTimeout` are not modelled (`useTimer.ts:37`, `useAIChat.ts:102`). A timer tick and the delayed chat reply are explicit method calls.
- `alert` messages on phase completion (`useTimer.ts:55`, `:57`) are I/O and left out.
- Clocks are parameters: the current day, `Date.now()` in milliseconds, and the date picked in the planner as milliseconds. `toDateString`, `new Date(text)` and `toLocaleDateString` are outside the model.
- Text parsing is not modelled beyond what the rules need. Only the results of `JSON.parse` and `parseInt` are modelled: a stored streak is an integer, and the study time sent by the planner is the integer `parseInt` read. A `NaN` from `parseInt`, and the error `BigInt(NaN)` would throw, are not modelled.
- The store holds structured values, not JSON text. An empty string stored under a key, which the code treats like a missing key, cannot be represented. A malformed note or exam `id` or `date` is the parse error `SyntaxError`; other malformed JSON is not represented.
- `Text.Lower`: lower-cases ASCII letters only; the full Unicode case mapping of `toLowerCase` is not modelled.
- `Text.Trim`: covers the common white-space characters, not every Unicode space separator or line terminator that `trim` removes.
- Floating point is not modelled. Percentages are reals; `Math.round` is half-up on reals. The model treats the `Number(bigint)` conversions in `daysLeft` and `totalStudyTime` as exact; the code converts to doubles, which round above 2^53, and an exam date in nanoseconds is near 1.7e18, so `daysLeft` in the code can differ from the model's by the rounding of that conversion. Day differences are in whole days, with no daylight-saving effects.
- StudyPlanner.HoursMinutesSplit: states `h*60 + m == t` with `0 <= m < 60` only for non-negative totals, because the display floors the hours but truncates the minutes; `StudyPlanner.HoursMinutesNegative` states what happens for negative totals.
- `Timer.PomodoroTimer.Start`, `Timer.PomodoroTimer.Pause`, `Timer.PomodoroTimer.Reset`: the renders these commands cause, and the streak evaluation they run, are not modelled; only a tick renders.
- `NotesSection.GroupNotes`: the groups are a map, so the order in which `Object.entries` lists them on the page (`NotesSection.tsx:113`: integer-like subjects first, the others by first occurrence) is not modelled. The object behind it has the standard prototype; a `TypeError` is raised for the inherited member names listed in `InheritedNames`, and the model does not represent other modifications of `Object.prototype`.
- The assistant page's trim-before-send guard (`AIAssistant.tsx:20-25`) is not a precondition of `Chat.SendMessage`: the hook itself accepts any text.
- `Dashboard.Sort`: the stability of the dashboard sort (ties keep input order) is how `Dashboard.Insert` is written, but it is not stated as a proved property.
