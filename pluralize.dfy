/** Polish numeral agreement: which of three noun forms goes with a count. */
module Pluralize {
  function Abs(n: int): nat {
    if n < 0 then -n else n
  }

  /** The counts that take the 2-4 form: last digit 2, 3 or 4, but not 12, 13 or 14. */
  predicate TakesPaucal(n: nat) {
    2 <= n % 10 <= 4 && (n % 100 < 12 || n % 100 > 14)
  }

  /** `pluralize`: the singular for 1, the 2-4 form for the paucal counts, and the many form otherwise; the sign is ignored. */
  function Pluralize(count: int, singular: string, plural: string, pluralMany: string): (r: string)
    ensures r == singular || r == plural || r == pluralMany
  {
    var absCount := Abs(count);
    if absCount == 1 then singular
    else
      var lastDigit := absCount % 10;
      var lastTwoDigits := absCount % 100;
      if lastDigit >= 2 && lastDigit <= 4 && (lastTwoDigits < 12 || lastTwoDigits > 14) then plural
      else pluralMany
  }

  /** When the three forms differ, the form tells exactly which class the count is in. */
  lemma PluralizeClasses(count: int, singular: string, plural: string, pluralMany: string)
    requires singular != plural && singular != pluralMany && plural != pluralMany
    ensures Pluralize(count, singular, plural, pluralMany) == singular <==> Abs(count) == 1
    ensures Pluralize(count, singular, plural, pluralMany) == plural <==> TakesPaucal(Abs(count))
    ensures Pluralize(count, singular, plural, pluralMany) == pluralMany <==>
      Abs(count) != 1 && !TakesPaucal(Abs(count))
  {
  }

  /** A negative count agrees like its absolute value. */
  lemma SignIgnored(count: int, singular: string, plural: string, pluralMany: string)
    ensures Pluralize(-count, singular, plural, pluralMany) == Pluralize(count, singular, plural, pluralMany)
  {
  }

  /** Apart from 1 itself, agreement depends only on the last two digits. */
  lemma PeriodicInHundreds(n: nat, singular: string, plural: string, pluralMany: string)
    requires n != 1
    ensures Pluralize(n + 100, singular, plural, pluralMany) == Pluralize(n, singular, plural, pluralMany)
  {
    assert n + 100 == 10 * (n / 10 + 10) + n % 10;
    assert (n + 100) % 10 == n % 10;
    assert n + 100 == 100 * (n / 100 + 1) + n % 100;
    assert (n + 100) % 100 == n % 100;
  }

  /** `pluralizeDays`. */
  function PluralizeDays(count: int): (r: string)
    ensures r == "dzień" <==> Abs(count) == 1
    ensures r != "dzień" ==> r == "dni"
  {
    Pluralize(count, "dzień", "dni", "dni")
  }

  /** `pluralizeMonths`. */
  function PluralizeMonths(count: int): (r: string)
    ensures r == "miesiąc" <==> Abs(count) == 1
    ensures r == "miesiące" <==> TakesPaucal(Abs(count))
    ensures r == "miesięcy" <==> Abs(count) != 1 && !TakesPaucal(Abs(count))
  {
    PluralizeClasses(count, "miesiąc", "miesiące", "miesięcy");
    Pluralize(count, "miesiąc", "miesiące", "miesięcy")
  }

  lemma MonthExamples()
    ensures PluralizeMonths(1) == "miesiąc" && PluralizeMonths(-1) == "miesiąc"
    ensures PluralizeMonths(2) == "miesiące" && PluralizeMonths(22) == "miesiące" && PluralizeMonths(104) == "miesiące"
    ensures PluralizeMonths(5) == "miesięcy" && PluralizeMonths(12) == "miesięcy"
    ensures PluralizeMonths(0) == "miesięcy" && PluralizeMonths(11) == "miesięcy" && PluralizeMonths(21) == "miesięcy"
  {
  }
}
