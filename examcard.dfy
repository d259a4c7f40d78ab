/** The card of one exam: its status flags, badge, status text and border. */
module ExamCard {
  import opened Common
  import Decimal

  /** `daysLeft` is a number or `null`. */
  predicate IsPast(daysLeft: Option<int>) {
    daysLeft.Some? && daysLeft.value < 0
  }

  predicate IsToday(daysLeft: Option<int>) {
    daysLeft == Some(0)
  }

  predicate IsUrgent(daysLeft: Option<int>) {
    daysLeft.Some? && 0 < daysLeft.value <= 7
  }

  /** At most one of the flags holds, and none for `null`. */
  lemma FlagsExclusive(daysLeft: Option<int>)
    ensures !(IsPast(daysLeft) && IsToday(daysLeft))
    ensures !(IsPast(daysLeft) && IsUrgent(daysLeft))
    ensures !(IsToday(daysLeft) && IsUrgent(daysLeft))
    ensures daysLeft.None? ==> !IsPast(daysLeft) && !IsToday(daysLeft) && !IsUrgent(daysLeft)
  {
  }

  datatype BadgeVariant = Secondary | Destructive | Default | Outline

  /** `getBadgeVariant`. */
  function Badge(daysLeft: Option<int>): (b: BadgeVariant)
    ensures b == Secondary <==> daysLeft.Some? && daysLeft.value < 0
    ensures b == Destructive <==> daysLeft == Some(0)
    ensures b == Default <==> daysLeft.Some? && 1 <= daysLeft.value <= 7
    ensures b == Outline <==> daysLeft.None? || daysLeft.value > 7
  {
    if IsPast(daysLeft) then Secondary
    else if IsToday(daysLeft) then Destructive
    else if IsUrgent(daysLeft) then Default
    else Outline
  }

  /** A number or `null` as a template literal writes it. */
  function Interpolate(daysLeft: Option<int>): string {
    if daysLeft.None? then "null" else Decimal.ToDecimal(daysLeft.value)
  }

  /** `getStatusText`. */
  function StatusText(daysLeft: Option<int>): (t: string)
    ensures daysLeft.Some? && daysLeft.value < 0 ==> t == "Completed"
    ensures daysLeft == Some(0) ==> t == "Today!"
    ensures daysLeft == Some(1) ==> t == "1 day left"
    ensures daysLeft.None? || daysLeft.value > 1 ==> t == Interpolate(daysLeft) + " days left"
  {
    if IsPast(daysLeft) then "Completed"
    else if IsToday(daysLeft) then "Today!"
    else if daysLeft == Some(1) then "1 day left"
    else Interpolate(daysLeft) + " days left"
  }

  /** Two exams still ahead with the same status text have the same number of days left. */
  lemma StatusTextDeterminesDays(a: int, b: int)
    requires a > 0 && b > 0
    requires StatusText(Some(a)) == StatusText(Some(b))
    ensures a == b
  {
    var suffix := " days left";
    if a > 1 && b > 1 {
      var da, db := Decimal.ToDecimal(a), Decimal.ToDecimal(b);
      assert StatusText(Some(a)) == da + suffix;
      assert StatusText(Some(b)) == db + suffix;
      assert |da| == |db|;
      assert da == (da + suffix)[..|da|];
      assert db == (db + suffix)[..|db|];
      Decimal.DecimalInjective(a, b);
    } else if a > 1 || b > 1 {
      assert false;
    }
  }

  datatype Border = DestructiveBorder | PrimaryBorder | NoBorder

  /** The border class: today's exam first, then an urgent one. */
  function BorderOf(daysLeft: Option<int>): (b: Border)
    ensures b == DestructiveBorder <==> IsToday(daysLeft)
    ensures b == PrimaryBorder <==> IsUrgent(daysLeft)
    ensures b == NoBorder <==> Badge(daysLeft) in {Secondary, Outline}
  {
    if IsToday(daysLeft) then DestructiveBorder
    else if IsUrgent(daysLeft) then PrimaryBorder
    else NoBorder
  }
}
