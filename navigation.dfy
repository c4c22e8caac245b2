/** How the navigation shows the signed-in user: initials, the name in the greeting, the display name. */
module Navigation {
  import opened Wrappers
  import opened Strings

  /** `NavigationUser`: the e-mail, and the full name from the user metadata when there is one. */
  datatype NavigationUser = NavigationUser(email: string, fullName: Option<string>)

  /** `if (fullName)`: a missing or empty name is no name. */
  predicate HasFullName(u: NavigationUser) {
    u.fullName.Some? && u.fullName.value != ""
  }

  /** When a trimmed name splits into two or more parts, the first and the last are non-empty. */
  lemma OuterPartsNonEmpty(t: string)
    requires Trimmed(t)
    requires |Split(t, ' ')| >= 2
    ensures Split(t, ' ')[0] != [] && Split(t, ' ')[|Split(t, ' ')| - 1] != []
  {
    assert ' ' in t && IsWhitespace(' ');
    SplitFirst(t, ' ');
    SplitLast(t, ' ');
  }

  /** The two-letter initials of a trimmed name of two or more words. */
  function FirstAndLastInitials(t: string): (r: string)
    requires Trimmed(t)
    requires |Split(t, ' ')| >= 2
    ensures |r| == 2
  {
    OuterPartsNonEmpty(t);
    var parts := Split(t, ' ');
    Upper([parts[0][0], parts[|parts| - 1][0]])
  }

  /** `getInitials`. */
  function GetInitials(u: NavigationUser): (r: string)
    ensures |r| <= 2
    ensures !HasFullName(u) ==> r == Upper(Prefix(u.email, 2))
  {
    if HasFullName(u) then
      var fullName := u.fullName.value;
      var t := Trim(fullName);
      if |Split(t, ' ')| >= 2 then FirstAndLastInitials(t)
      else Upper(Prefix(fullName, 2))
    else Upper(Prefix(u.email, 2))
  }

  /**
   * A name of two or more words gives two letters: the first letter of the
   * trimmed name and the letter after its last space, upper-cased.
   */
  lemma InitialsOfSeveralWords(u: NavigationUser, t: string) returns (j: nat)
    requires HasFullName(u) && t == Trim(u.fullName.value) && ' ' in t
    ensures j < |t| - 1 && t[j] == ' ' && ' ' !in t[j + 1..]
    ensures GetInitials(u) == [UpperChar(t[0]), UpperChar(t[j + 1])]
  {
    SplitAtSeparator(t, ' ');
    j := LastWordInitial(t);
  }

  /** Where the last word of a trimmed name of several words starts, and its initials. */
  lemma LastWordInitial(t: string) returns (j: nat)
    requires Trimmed(t)
    requires |Split(t, ' ')| >= 2
    ensures j < |t| - 1 && t[j] == ' ' && ' ' !in t[j + 1..]
    ensures FirstAndLastInitials(t) == [UpperChar(t[0]), UpperChar(t[j + 1])]
  {
    var parts := Split(t, ' ');
    OuterPartsNonEmpty(t);
    SplitFirst(t, ' ');
    SplitLast(t, ' ');
    var last := parts[|parts| - 1];
    j := |t| - |last| - 1;
    assert t[j + 1..] == last;
    assert parts[0][0] == t[0] && last[0] == t[j + 1];
    assert FirstAndLastInitials(t) == Upper([t[0], t[j + 1]]);
  }

  /** A one-word name gives its first two characters, upper-cased, taken from the name as given. */
  lemma InitialsOfOneWord(u: NavigationUser)
    requires HasFullName(u) && ' ' !in Trim(u.fullName.value)
    ensures GetInitials(u) == Upper(Prefix(u.fullName.value, 2))
  {
  }

  /** `getGreetingName`: the name up to its first space, else the e-mail up to its `@`. */
  function GetGreetingName(u: NavigationUser): (r: string)
    ensures HasFullName(u) ==>
              r <= u.fullName.value && ' ' !in r
              && (|r| < |u.fullName.value| ==> u.fullName.value[|r|] == ' ')
    ensures !HasFullName(u) ==>
              r <= u.email && '@' !in r
              && (|r| < |u.email| ==> u.email[|r|] == '@')
  {
    if HasFullName(u) then
      SplitFirst(u.fullName.value, ' ');
      Split(u.fullName.value, ' ')[0]
    else
      SplitFirst(u.email, '@');
      Split(u.email, '@')[0]
  }

  /** `getDisplayName`: the full name when there is one, else the e-mail. */
  function GetDisplayName(u: NavigationUser): (r: string)
    ensures r == if HasFullName(u) then u.fullName.value else u.email
  {
    if u.fullName.Some? && u.fullName.value != "" then u.fullName.value else u.email
  }

  /** `getGreeting`. */
  function GetGreeting(u: NavigationUser): (r: string)
    ensures |r| == |GetGreetingName(u)| + 8
    ensures r[..7] == "Witaj, " && r[|r| - 1] == '!'
    ensures r[7..|r| - 1] == GetGreetingName(u)
  {
    "Witaj, " + GetGreetingName(u) + "!"
  }

  /** The greeting names the first word of the full name, and never the e-mail's domain. */
  lemma GreetingUsesFirstWord(first: string, rest: string, email: string)
    requires first != "" && ' ' !in first
    ensures GetGreeting(NavigationUser(email, Some(first + " " + rest))) == "Witaj, " + first + "!"
  {
    var name := first + " " + rest;
    assert name[|first|] == ' ' && name[..|first|] == first;
    FirstSeparatorAt(name, ' ', |first|);
  }

  lemma GreetingFromEmail(local: string, domain: string)
    requires '@' !in local
    ensures GetGreeting(NavigationUser(local + "@" + domain, None)) == "Witaj, " + local + "!"
  {
    var email := local + "@" + domain;
    assert email[|local|] == '@' && email[..|local|] == local;
    FirstSeparatorAt(email, '@', |local|);
  }
}
