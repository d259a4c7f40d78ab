/** The dashboard's list of upcoming exams: those not yet past, soonest first, at most three. */
module Dashboard {
  import opened Common
  import opened Queries

  /** The exams listed: those with a known, non-negative number of days left. */
  predicate Qualifies(e: Exam) {
    e.daysLeft.Some? && e.daysLeft.value >= 0
  }

  /** The sort key `daysLeft || 0`. */
  function Key(e: Exam): int {
    if e.daysLeft.Some? then e.daysLeft.value else 0
  }

  /** `filter(exam => exam.daysLeft !== null && exam.daysLeft >= 0)`. */
  function Qualifying(exams: seq<Exam>): (r: seq<Exam>)
    ensures |r| <= |exams|
    ensures forall e :: e in r <==> e in exams && Qualifies(e)
    ensures forall e :: multiset(r)[e] == if Qualifies(e) then multiset(exams)[e] else 0
    ensures multiset(r) <= multiset(exams)
  {
    if exams == [] then []
    else
      var rest := Qualifying(exams[1..]);
      assert exams == [exams[0]] + exams[1..];
      if Qualifies(exams[0]) then [exams[0]] + rest else rest
  }

  /** The filter keeps the order of the exams: a concatenation is filtered part by part. With
      `QualifyingSingle` this determines the filter. */
  lemma {:induction false} QualifyingAppend(a: seq<Exam>, b: seq<Exam>)
    ensures Qualifying(a + b) == Qualifying(a) + Qualifying(b)
  {
    if a == [] {
      assert a + b == b;
    } else {
      assert (a + b)[1..] == a[1..] + b;
      QualifyingAppend(a[1..], b);
    }
  }

  /** A single exam is kept exactly when it qualifies. */
  lemma QualifyingSingle(e: Exam)
    ensures Qualifying([e]) == if Qualifies(e) then [e] else []
  {
    assert [e][1..] == [];
  }

  predicate Sorted(s: seq<Exam>) {
    forall i, j :: 0 <= i < j < |s| ==> Key(s[i]) <= Key(s[j])
  }

  /** Places `x` in the sorted `s`, after every exam with the same key. */
  function Insert(x: Exam, s: seq<Exam>): (r: seq<Exam>)
    requires Sorted(s)
    ensures Sorted(r)
    ensures multiset(r) == multiset(s) + multiset{x}
  {
    if s == [] then [x]
    else if Key(x) < Key(s[0]) then [x] + s
    else
      var rest := Insert(x, s[1..]);
      assert s == [s[0]] + s[1..];
      LowerBound(Key(s[0]), rest, s[1..], x);
      [s[0]] + rest
  }

  /** A bound below `x` and below every exam of `t` is below every exam of a list holding both. */
  lemma LowerBound(b: int, rest: seq<Exam>, t: seq<Exam>, x: Exam)
    requires multiset(rest) == multiset(t) + multiset{x}
    requires b <= Key(x) && forall j :: 0 <= j < |t| ==> b <= Key(t[j])
    ensures forall j :: 0 <= j < |rest| ==> b <= Key(rest[j])
  {
    forall j | 0 <= j < |rest|
      ensures b <= Key(rest[j])
    {
      assert rest[j] in multiset(rest);
      if rest[j] != x {
        assert rest[j] in multiset(t);
        var i :| 0 <= i < |t| && t[i] == rest[j];
      }
    }
  }

  /** The comparator sort `(a, b) => key(a) - key(b)`, stable as the language requires. */
  function Sort(s: seq<Exam>): (r: seq<Exam>)
    ensures Sorted(r)
    ensures multiset(r) == multiset(s)
  {
    if s == [] then []
    else
      assert s == s[..|s| - 1] + [s[|s| - 1]];
      Insert(s[|s| - 1], Sort(s[..|s| - 1]))
  }

  function Take(s: seq<Exam>, n: nat): seq<Exam> {
    if |s| <= n then s else s[..n]
  }

  /** `upcomingExams`: filter, sort, and the first three. */
  function Upcoming(exams: seq<Exam>): seq<Exam> {
    Take(Sort(Qualifying(exams)), 3)
  }

  /** The first `n` exams: a prefix of the list, as long as it can be, and sorted if the list is. */
  lemma TakePrefix(s: seq<Exam>, n: nat)
    ensures var t := Take(s, n);
      && |t| == (if |s| < n then |s| else n)
      && t == s[..|t|]
      && multiset(t) <= multiset(s)
      && (Sorted(s) ==> Sorted(t))
  {
    var t := Take(s, n);
    assert s == t + s[|t|..];
  }

  /** Sorting keeps the length. */
  lemma SortLength(s: seq<Exam>)
    ensures |Sort(s)| == |s|
  {
    assert |multiset(Sort(s))| == |multiset(s)|;
  }

  /** What the dashboard shows: soonest first, only exams not past, three or as many as qualify,
      and every listed exam comes from the input. */
  lemma UpcomingShape(exams: seq<Exam>)
    ensures var r := Upcoming(exams);
      && (forall e :: e in r ==> e.daysLeft.Some? && e.daysLeft.value >= 0)
      && |r| == (if |Qualifying(exams)| < 3 then |Qualifying(exams)| else 3)
      && Sorted(r)
      && (forall e :: e in r ==> e in exams)
      && multiset(r) <= multiset(exams)
  {
    var q := Qualifying(exams);
    var s := Sort(q);
    var r := Upcoming(exams);
    SortLength(q);
    TakePrefix(s, 3);
    assert multiset(r) <= multiset(q);
    forall e | e in r
      ensures Qualifies(e) && e in exams
    {
      assert e in multiset(r);
      assert e in multiset(q);
    }
  }

  /** An exam of a sorted list that is not in a prefix of it has a key no smaller than the prefix's. */
  lemma AfterPrefix(s: seq<Exam>, t: seq<Exam>, e: Exam)
    requires Sorted(s) && |t| <= |s| && t == s[..|t|]
    requires e in s && e !in t
    ensures forall x :: x in t ==> Key(x) <= Key(e)
  {
    var k :| 0 <= k < |s| && s[k] == e;
    assert |t| <= k by {
      assert forall i :: 0 <= i < |t| ==> s[i] == t[i] != e;
    }
    forall x | x in t
      ensures Key(x) <= Key(e)
    {
      var i :| 0 <= i < |t| && t[i] == x;
      assert s[i] == x;
    }
  }

  /** An exam that qualifies but did not make the list is due no sooner than every listed one. */
  lemma LeftOutAreLater(exams: seq<Exam>, e: Exam)
    requires e in Qualifying(exams) && e !in Upcoming(exams)
    ensures forall x :: x in Upcoming(exams) ==> x.daysLeft.Some? && x.daysLeft.value <= e.daysLeft.value
  {
    var q := Qualifying(exams);
    var s := Sort(q);
    var r := Upcoming(exams);
    UpcomingShape(exams);
    TakePrefix(s, 3);
    assert e in s by {
      assert e in multiset(q);
    }
    AfterPrefix(s, r, e);
  }
}
