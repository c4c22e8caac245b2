/** The due-date badge of a task card: the day difference shown as a label and a colour variant. */
module DueBadge {
  import opened Calendar
  import opened Strings

  datatype BadgeVariant = Destructive | Default | Secondary | Outline

  datatype Badge = Badge(text: string, variant: BadgeVariant)

  /** The label and variant for a difference of `diffDays` days between the due day and today. */
  function BadgeFor(diffDays: int): (b: Badge)
    ensures b.variant == Destructive <==> diffDays < 0
    ensures b.variant == Default <==> diffDays == 0
    ensures b.variant == Secondary <==> diffDays == 1
    ensures b.variant == Outline <==> diffDays >= 2
  {
    if diffDays < 0 then Badge(NatToString(-diffDays) + " dni temu", Destructive)
    else if diffDays == 0 then Badge("Dzisiaj", Default)
    else if diffDays == 1 then Badge("Jutro", Secondary)
    else Badge("Za " + NatToString(diffDays) + " dni", Outline)
  }

  /** `formatDate`: the badge for a due instant, seen on the day of `now`. */
  function FormatDate(due: Instant, now: Instant): (b: Badge)
    ensures b == BadgeFor(DayNumber(due.date) - DayNumber(now.date))
  {
    BadgeFor(DiffDays(due, now))
  }

  /** `isOverdue`: the badge is the destructive one. */
  predicate IsOverdue(due: Instant, now: Instant): (overdue: bool)
    ensures overdue <==> DayNumber(due.date) < DayNumber(now.date)
  {
    FormatDate(due, now).variant == Destructive
  }

  /** A task is overdue exactly when its due day is before today, whatever the times of day. */
  lemma OverdueIffEarlierDay(due: Instant, now: Instant)
    ensures IsOverdue(due, now) <==> Before(due.date, now.date)
  {
    if Before(due.date, now.date) {
      DayNumberMonotone(due.date, now.date);
    } else if Before(now.date, due.date) {
      DayNumberMonotone(now.date, due.date);
    }
  }

  /** The overdue label reads back as the number of days overdue. */
  lemma OverdueLabelCarriesDays(days: nat)
    requires days >= 1
    ensures |NatToString(days)| <= |BadgeFor(-(days as int)).text|
    ensures BadgeFor(-(days as int)).text[|NatToString(days)|..] == " dni temu"
    ensures ParseDigits(BadgeFor(-(days as int)).text[..|NatToString(days)|]) == days
  {
    var digits := NatToString(days);
    var t := digits + " dni temu";
    assert BadgeFor(-(days as int)).text == t;
    assert t[..|digits|] == digits;
    assert t[|digits|..] == " dni temu";
    ParseNatToString(days);
  }

  /** The label of a later due day reads back as the number of days left. */
  lemma FutureLabelCarriesDays(days: nat)
    requires days >= 2
    ensures 3 + |NatToString(days)| <= |BadgeFor(days).text| && BadgeFor(days).text[..3] == "Za "
    ensures BadgeFor(days).text[3 + |NatToString(days)|..] == " dni"
    ensures ParseDigits(BadgeFor(days).text[3..3 + |NatToString(days)|]) == days
  {
    var digits := NatToString(days);
    var t := "Za " + digits + " dni";
    assert BadgeFor(days).text == t;
    assert t[3..3 + |digits|] == digits;
    assert t[..3] == "Za ";
    assert t[3 + |digits|..] == " dni";
    ParseNatToString(days);
  }

  /** A due date later today is "today", and one just past midnight is "tomorrow". */
  lemma TodayAndTomorrow(now: Instant, t: TimeOfDay)
    ensures FormatDate(Instant(now.date, t), now) == Badge("Dzisiaj", Default)
    ensures FormatDate(Instant(AddDays(now.date, 1), t), now) == Badge("Jutro", Secondary)
  {
  }
}
