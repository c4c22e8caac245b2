/** Grouping of tasks by their recurrence period, for the list views. */
module RecurrenceGroups {
  import opened Strings
  import opened Recurrence
  import opened Store
  import opened Pluralize

  /** `TaskGroup`: a heading, the key of the period, and the tasks with that period. */
  datatype TaskGroup = TaskGroup(title: string, recurrenceKey: string, tasks: seq<TaskDto>)

  /** How the tasks table writes a unit. */
  function UnitText(unit: RecurrenceUnit): (r: string)
    ensures r == "days" <==> unit == Days
  {
    match unit
    case Days => "days"
    case Months => "months"
  }

  /**
   * `formatRecurrenceTitle` as written: a heading for the period, with names
   * for a day, a week, two weeks and a month, and the singular "miesiąc"
   * after every other count of months.
   */
  function FormatRecurrenceTitle(value: int, unit: RecurrenceUnit): (r: string)
    ensures unit == Days && value == 1 ==> r == "Codziennie"
    ensures unit == Days && value == 7 ==> r == "Co tydzień"
    ensures unit == Days && value == 14 ==> r == "Co 2 tygodnie"
    ensures unit == Days && Abs(value) != 1 && value != 7 && value != 14 ==>
      r == "Co " + IntToString(value) + " " + PluralizeDays(value)
    ensures unit == Months && value == 1 ==> r == "Co miesiąc"
    ensures unit == Months && value != 1 ==> r == "Co " + IntToString(value) + " " + PluralizeMonths(1)
  {
    match unit
    case Days =>
      if value == 1 then "Codziennie"
      else if value == 7 then "Co tydzień"
      else if value == 14 then "Co 2 tygodnie"
      else "Co " + IntToString(value) + " dni"
    case Months =>
      if value == 1 then "Co miesiąc"
      else "Co " + IntToString(value) + " miesiąc"
  }

  /** A heading that spells out a count: the count's digits sit between "Co " and the noun. */
  lemma CountedTitle(value: nat, noun: string)
    requires noun == " dni" || noun == " miesiąc"
    ensures ("Co " + NatToString(value) + noun)[2] == ' '
    ensures IsDigit(("Co " + NatToString(value) + noun)[3])
    ensures var r := "Co " + NatToString(value) + noun;
      |r| >= |noun| + 4 && r[|r| - 1] == noun[|noun| - 1] && r[3..|r| - |noun|] == NatToString(value)
  {
    var r := "Co " + NatToString(value) + noun;
    assert r[3] == NatToString(value)[0];
    assert r[3..|r| - |noun|] == NatToString(value);
  }

  /** Which branch of `formatRecurrenceTitle` a period takes. */
  function TitleBranch(value: int, unit: RecurrenceUnit): nat {
    match unit
    case Days => if value == 1 then 0 else if value == 7 then 1 else if value == 14 then 2 else 4
    case Months => if value == 1 then 3 else 5
  }

  /** Three characters of a heading that tell its branch: the third, whether the fourth is a digit, the last. */
  function Signature(r: string): (char, bool, char)
    requires |r| >= 4
  {
    (r[2], IsDigit(r[3]), r[|r| - 1])
  }

  function BranchSignature(branch: nat): (char, bool, char) {
    if branch == 0 then ('d', false, 'e')
    else if branch == 1 then (' ', false, 'ń')
    else if branch == 2 then (' ', true, 'e')
    else if branch == 3 then (' ', false, 'c')
    else if branch == 4 then (' ', true, 'i')
    else (' ', true, 'c')
  }

  lemma TitleSignature(value: nat, unit: RecurrenceUnit)
    requires value >= 1
    ensures |FormatRecurrenceTitle(value, unit)| >= 4
    ensures Signature(FormatRecurrenceTitle(value, unit)) == BranchSignature(TitleBranch(value, unit))
  {
    if TitleBranch(value, unit) == 4 {
      CountedTitle(value, " dni");
    } else if TitleBranch(value, unit) == 5 {
      CountedTitle(value, " miesiąc");
    }
  }

  /**
   * Positive periods get distinct headings: the heading tells the period,
   * so no two groups of the list view share one.
   */
  lemma HeadingsDistinguishPeriods(v1: nat, u1: RecurrenceUnit, v2: nat, u2: RecurrenceUnit)
    requires v1 >= 1 && v2 >= 1
    requires FormatRecurrenceTitle(v1, u1) == FormatRecurrenceTitle(v2, u2)
    ensures v1 == v2 && u1 == u2
  {
    TitleSignature(v1, u1);
    TitleSignature(v2, u2);
    var b := TitleBranch(v1, u1);
    BranchSignatureInjective(b, TitleBranch(v2, u2));
    if b == 4 || b == 5 {
      SameCount(v1, v2, if b == 4 then " dni" else " miesiąc");
    }
  }

  lemma BranchSignatureInjective(a: nat, b: nat)
    requires a <= 5 && b <= 5
    requires BranchSignature(a) == BranchSignature(b)
    ensures a == b
  {
  }

  lemma SameCount(v1: nat, v2: nat, noun: string)
    requires noun == " dni" || noun == " miesiąc"
    requires "Co " + NatToString(v1) + noun == "Co " + NatToString(v2) + noun
    ensures v1 == v2
  {
    CountedTitle(v1, noun);
    CountedTitle(v2, noun);
    NatToStringInjective(v1, v2);
  }

  /** Two months are headed "Co 2 miesiąc", where the agreeing form is "miesiące". */
  lemma MonthTitleDisagrees()
    ensures FormatRecurrenceTitle(2, Months) == "Co 2 miesiąc"
    ensures PluralizeMonths(2) == "miesiące"
  {
    assert IntToString(2) == "2";
  }

  /**
   * The heading with the noun agreeing with the count, as the function's own
   * description promises ("z poprawną odmianą"): the months branch declines
   * "miesiąc" like `pluralizeMonths`.
   */
  function RecurrenceTitle(value: int, unit: RecurrenceUnit): (r: string)
    ensures unit == Days ==> r == FormatRecurrenceTitle(value, Days)
    ensures unit == Months ==> (r == FormatRecurrenceTitle(value, Months) <==> Abs(value) == 1)
  {
    match unit
    case Days =>
      if value == 1 then "Codziennie"
      else if value == 7 then "Co tydzień"
      else if value == 14 then "Co 2 tygodnie"
      else "Co " + IntToString(value) + " dni"
    case Months =>
      if value == 1 then "Co miesiąc"
      else
        var count := "Co " + IntToString(value) + " ";
        assert (count + PluralizeMonths(value))[|count|..] == PluralizeMonths(value);
        assert (count + "miesiąc")[|count|..] == "miesiąc";
        count + PluralizeMonths(value)
  }

  /**
   * Every heading that spells out a count ends with the noun form that
   * `pluralizeDays` / `pluralizeMonths` give for that count.
   */
  lemma TitleNounAgrees(value: nat, unit: RecurrenceUnit)
    requires value >= 2 && (unit == Days ==> value != 7 && value != 14)
    ensures RecurrenceTitle(value, unit)
         == "Co " + NatToString(value) + " " + (if unit == Days then PluralizeDays(value) else PluralizeMonths(value))
  {
  }

  /** The key `${recurrence_unit}-${recurrence_value}` of a period. */
  function RecurrenceKey(unit: RecurrenceUnit, value: int): (key: string)
    ensures value >= 0 ==> Split(key, '-') == [UnitText(unit), NatToString(value)]
  {
    if value < 0 then UnitText(unit) + "-" + IntToString(value)
    else
      KeyParts(UnitText(unit), NatToString(value));
      UnitText(unit) + "-" + IntToString(value)
  }

  function KeyOf(t: TaskDto): string {
    RecurrenceKey(t.task.recurrenceUnit, t.task.recurrenceValue)
  }

  /** The recurrence values the request schemas admit: positive integers. */
  predicate PositivePeriods(tasks: seq<TaskDto>) {
    forall i | 0 <= i < |tasks| :: tasks[i].task.recurrenceValue >= 1
  }

  // ---------------------------------------------------------------------
  // the grouping, as a specification
  // ---------------------------------------------------------------------

  /**
   * The tasks whose key is `key`, in their order in the list. The grouping is
   * stated for any key function `keyOf`; the list views use `KeyOf`.
   */
  function Members(tasks: seq<TaskDto>, keyOf: TaskDto -> string, key: string): (r: seq<TaskDto>)
    ensures |r| <= |tasks|
  {
    if tasks == [] then []
    else
      var t := tasks[|tasks| - 1];
      Members(tasks[..|tasks| - 1], keyOf, key) + if keyOf(t) == key then [t] else []
  }

  /** The members of a key are exactly the tasks of the list that have that key. */
  lemma {:induction false} MembersHaveTheKey(tasks: seq<TaskDto>, keyOf: TaskDto -> string, key: string, t: TaskDto)
    ensures t in Members(tasks, keyOf, key) <==> t in tasks && keyOf(t) == key
  {
    if tasks != [] {
      var init := tasks[..|tasks| - 1];
      MembersHaveTheKey(init, keyOf, key, t);
      assert tasks == init + [tasks[|tasks| - 1]];
    }
  }

  /** The keys of the tasks, each once, in the order of first appearance (the order of a JS Map). */
  function FirstKeys(tasks: seq<TaskDto>, keyOf: TaskDto -> string): (keys: seq<string>)
    ensures forall i, j | 0 <= i < j < |keys| :: keys[i] != keys[j]
  {
    if tasks == [] then []
    else
      var keys := FirstKeys(tasks[..|tasks| - 1], keyOf);
      var k := keyOf(tasks[|tasks| - 1]);
      if k in keys then keys else keys + [k]
  }

  /** Some task of the list has the key. */
  predicate KeyAppears(tasks: seq<TaskDto>, keyOf: TaskDto -> string, key: string) {
    exists i | 0 <= i < |tasks| :: keyOf(tasks[i]) == key
  }

  lemma {:induction false} FirstKeysAreTheKeys(tasks: seq<TaskDto>, keyOf: TaskDto -> string, key: string)
    ensures key in FirstKeys(tasks, keyOf) <==> KeyAppears(tasks, keyOf, key)
  {
    if tasks != [] {
      var init := tasks[..|tasks| - 1];
      FirstKeysAreTheKeys(init, keyOf, key);
      if KeyAppears(init, keyOf, key) {
        var i :| 0 <= i < |init| && keyOf(init[i]) == key;
        assert keyOf(tasks[i]) == key;
      }
      if KeyAppears(tasks, keyOf, key) && keyOf(tasks[|tasks| - 1]) != key {
        var i :| 0 <= i < |tasks| && keyOf(tasks[i]) == key;
        assert keyOf(init[i]) == key;
      }
    }
  }

  /** The group of one key: its heading comes from the first task with that key. */
  function GroupFor(tasks: seq<TaskDto>, keyOf: TaskDto -> string, key: string): TaskGroup
    requires Members(tasks, keyOf, key) != []
  {
    var members := Members(tasks, keyOf, key);
    TaskGroup(FormatRecurrenceTitle(members[0].task.recurrenceValue, members[0].task.recurrenceUnit), key, members)
  }

  /** The groups of the given keys, in that order. */
  function GroupsOf(tasks: seq<TaskDto>, keyOf: TaskDto -> string, keys: seq<string>): (r: seq<TaskGroup>)
    requires forall i | 0 <= i < |keys| :: keys[i] in FirstKeys(tasks, keyOf)
    ensures |r| == |keys|
  {
    if keys == [] then []
    else
      var k := keys[|keys| - 1];
      MembersOfKnownKey(tasks, keyOf, k);
      GroupsOf(tasks, keyOf, keys[..|keys| - 1]) + [GroupFor(tasks, keyOf, k)]
  }

  /** Every key that appears has at least one member. */
  lemma MembersOfKnownKey(tasks: seq<TaskDto>, keyOf: TaskDto -> string, key: string)
    requires key in FirstKeys(tasks, keyOf)
    ensures Members(tasks, keyOf, key) != []
  {
    FirstKeysAreTheKeys(tasks, keyOf, key);
    var i :| 0 <= i < |tasks| && keyOf(tasks[i]) == key;
    MembersHaveTheKey(tasks, keyOf, key, tasks[i]);
  }

  /** The groups of one more key are the groups so far and the group of that key. */
  lemma GroupsOfStep(tasks: seq<TaskDto>, keyOf: TaskDto -> string, keys: seq<string>, j: nat, group: TaskGroup)
    requires j < |keys| && forall i | 0 <= i < |keys| :: keys[i] in FirstKeys(tasks, keyOf)
    requires Members(tasks, keyOf, keys[j]) != [] && group == GroupFor(tasks, keyOf, keys[j])
    ensures GroupsOf(tasks, keyOf, keys[..j + 1]) == GroupsOf(tasks, keyOf, keys[..j]) + [group]
  {
    assert keys[..j + 1][..j] == keys[..j];
  }

  /** Adding one task adds it to its own key's members and to no other. */
  lemma MembersSnoc(tasks: seq<TaskDto>, keyOf: TaskDto -> string, t: TaskDto, key: string)
    ensures Members(tasks + [t], keyOf, key) == Members(tasks, keyOf, key) + if keyOf(t) == key then [t] else []
  {
    assert (tasks + [t])[..|tasks|] == tasks;
  }

  lemma FirstKeysSnoc(tasks: seq<TaskDto>, keyOf: TaskDto -> string, t: TaskDto)
    ensures FirstKeys(tasks + [t], keyOf)
         == if keyOf(t) in FirstKeys(tasks, keyOf) then FirstKeys(tasks, keyOf) else FirstKeys(tasks, keyOf) + [keyOf(t)]
  {
    assert (tasks + [t])[..|tasks|] == tasks;
  }

  /** A key not yet seen has no members. */
  lemma UnseenKeyHasNoMembers(tasks: seq<TaskDto>, keyOf: TaskDto -> string, key: string)
    requires key !in FirstKeys(tasks, keyOf)
    ensures Members(tasks, keyOf, key) == []
  {
    FirstKeysAreTheKeys(tasks, keyOf, key);
    if Members(tasks, keyOf, key) != [] {
      var t := Members(tasks, keyOf, key)[0];
      MembersHaveTheKey(tasks, keyOf, key, t);
    }
  }

  // ---------------------------------------------------------------------
  // groupTasksByRecurrence
  // ---------------------------------------------------------------------

  /** The unsorted groups: one per key, in the order the keys first appear. */
  function Unsorted(tasks: seq<TaskDto>): (r: seq<TaskGroup>)
    ensures |r| == |FirstKeys(tasks, KeyOf)|
  {
    GroupsOf(tasks, KeyOf, FirstKeys(tasks, KeyOf))
  }

  /** `keys` and `groups` hold what collecting `done` gives: the keys in first-appearance order and each key's members. */
  ghost predicate Collected(done: seq<TaskDto>, keyOf: TaskDto -> string, keys: seq<string>, groups: map<string, seq<TaskDto>>) {
    && keys == FirstKeys(done, keyOf)
    && (forall k :: k in groups <==> k in keys)
    && (forall k | k in groups :: groups[k] == Members(done, keyOf, k))
  }

  /** Collecting one more task: a new key is appended once, and the task joins its key's list. */
  lemma CollectStep(tasks: seq<TaskDto>, i: nat, keyOf: TaskDto -> string, t: TaskDto,
                    keys: seq<string>, groups: map<string, seq<TaskDto>>,
                    keys': seq<string>, groups': map<string, seq<TaskDto>>)
    requires i < |tasks| && t == tasks[i]
    requires Collected(tasks[..i], keyOf, keys, groups)
    requires keys' == if keyOf(t) in groups then keys else keys + [keyOf(t)]
    requires groups' == groups[keyOf(t) := (if keyOf(t) in groups then groups[keyOf(t)] else []) + [t]]
    ensures Collected(tasks[..i + 1], keyOf, keys', groups')
  {
    var done := tasks[..i];
    assert tasks[..i + 1] == done + [t];
    FirstKeysSnoc(done, keyOf, t);
    forall k | k in groups' ensures groups'[k] == Members(done + [t], keyOf, k) {
      MembersSnoc(done, keyOf, t, k);
      if k == keyOf(t) && k !in groups {
        UnseenKeyHasNoMembers(done, keyOf, k);
      }
    }
  }

  /** One step of the first `forEach`: a key seen for the first time gets an empty list, then the task joins its key's list. */
  method CollectOne(tasks: seq<TaskDto>, i: nat, keys: seq<string>, groups: map<string, seq<TaskDto>>)
    returns (keys': seq<string>, groups': map<string, seq<TaskDto>>)
    requires i < |tasks| && Collected(tasks[..i], KeyOf, keys, groups)
    ensures Collected(tasks[..i + 1], KeyOf, keys', groups')
  {
    var t := tasks[i];
    var key := KeyOf(t);
    keys', groups' := keys, groups;
    if key !in groups' {
      keys' := keys' + [key];
      groups' := groups'[key := []];
    }
    groups' := groups'[key := groups'[key] + [t]];
    CollectStep(tasks, i, KeyOf, t, keys, groups, keys', groups');
  }

  /** The first `forEach`: the tasks collected per key; `keys` is the order the map remembers. */
  method CollectByKey(tasks: seq<TaskDto>) returns (keys: seq<string>, groups: map<string, seq<TaskDto>>)
    ensures keys == FirstKeys(tasks, KeyOf)
    ensures forall k :: k in groups <==> k in keys
    ensures forall k | k in groups :: groups[k] == Members(tasks, KeyOf, k)
  {
    keys := [];
    groups := map[];
    var i := 0;
    while i < |tasks|
      invariant 0 <= i <= |tasks|
      invariant Collected(tasks[..i], KeyOf, keys, groups)
    {
      keys, groups := CollectOne(tasks, i, keys, groups);
      i := i + 1;
    }
    assert tasks[..i] == tasks;
  }

  /** Every collected key has its non-empty list of members. */
  lemma KeyHasGroup(tasks: seq<TaskDto>, keyOf: TaskDto -> string, keys: seq<string>, groups: map<string, seq<TaskDto>>,
                    j: nat)
    requires Collected(tasks, keyOf, keys, groups) && j < |keys|
    ensures keys[j] in groups && groups[keys[j]] == Members(tasks, keyOf, keys[j]) && groups[keys[j]] != []
  {
    MembersOfKnownKey(tasks, keyOf, keys[j]);
  }

  /** One pass of the second `forEach`: the group of the next key, titled after its first task. */
  method AddGroup(tasks: seq<TaskDto>, keyOf: TaskDto -> string, keys: seq<string>, groups: map<string, seq<TaskDto>>,
                  j: nat, unsorted: seq<TaskGroup>)
    returns (unsorted': seq<TaskGroup>)
    requires Collected(tasks, keyOf, keys, groups) && j < |keys|
    requires unsorted == GroupsOf(tasks, keyOf, keys[..j])
    ensures unsorted' == GroupsOf(tasks, keyOf, keys[..j + 1])
  {
    KeyHasGroup(tasks, keyOf, keys, groups, j);
    var members := groups[keys[j]];
    var first := members[0];
    var group := TaskGroup(FormatRecurrenceTitle(first.task.recurrenceValue, first.task.recurrenceUnit), keys[j], members);
    GroupsOfStep(tasks, keyOf, keys, j, group);
    unsorted' := unsorted + [group];
  }

  /** The second `forEach`: one group per key, titled after its first task. */
  method BuildGroups(tasks: seq<TaskDto>, keyOf: TaskDto -> string, keys: seq<string>, groups: map<string, seq<TaskDto>>)
    returns (unsorted: seq<TaskGroup>)
    requires keys == FirstKeys(tasks, keyOf)
    requires forall k :: k in groups <==> k in keys
    requires forall k | k in groups :: groups[k] == Members(tasks, keyOf, k)
    ensures unsorted == GroupsOf(tasks, keyOf, FirstKeys(tasks, keyOf))
  {
    unsorted := [];
    var j := 0;
    while j < |keys|
      invariant 0 <= j <= |keys|
      invariant unsorted == GroupsOf(tasks, keyOf, keys[..j])
    {
      unsorted := AddGroup(tasks, keyOf, keys, groups, j, unsorted);
      j := j + 1;
    }
    assert keys[..j] == keys;
  }

  /** `groupTasksByRecurrence`: collect per key, build the groups in key order, sort them. */
  method GroupTasksByRecurrence(tasks: seq<TaskDto>) returns (result: seq<TaskGroup>)
    ensures result == SortGroups(Unsorted(tasks))
  {
    var keys, groups := CollectByKey(tasks);
    var unsorted := BuildGroups(tasks, KeyOf, keys, groups);
    result := SortGroups(unsorted);
  }

  // ---------------------------------------------------------------------
  // the order of the groups
  // ---------------------------------------------------------------------

  /** `parseInt` of the digits of a key; keys are built from positive integers, so there always are digits. */
  function ParseCount(s: string): nat {
    if s != [] && forall k | 0 <= k < |s| :: IsDigit(s[k]) then ParseDigits(s) else 0
  }

  /** The comparator of `result.sort`: days before months, then by the parsed value. */
  function CompareKeys(a: string, b: string): (r: int)
    ensures r == 0 ==> Split(a, '-')[0] == Split(b, '-')[0]
  {
    var pa := Split(a, '-');
    var pb := Split(b, '-');
    var valueA := if |pa| >= 2 then pa[1] else "";
    var valueB := if |pb| >= 2 then pb[1] else "";
    if pa[0] != pb[0] then (if pa[0] == "days" then -1 else 1)
    else ParseCount(valueA) - ParseCount(valueB)
  }

  /** Stable insertion: `g` goes after every group that does not compare greater than it. */
  function Insert(sorted: seq<TaskGroup>, g: TaskGroup): (r: seq<TaskGroup>)
    ensures multiset(r) == multiset(sorted) + multiset{g}
    ensures |r| == |sorted| + 1
  {
    if sorted == [] then [g]
    else if CompareKeys(sorted[0].recurrenceKey, g.recurrenceKey) > 0 then [g] + sorted
    else
      assert sorted == [sorted[0]] + sorted[1..];
      [sorted[0]] + Insert(sorted[1..], g)
  }

  /** `result.sort(...)`: a stable sort by `CompareKeys`. */
  function SortGroups(groups: seq<TaskGroup>): (r: seq<TaskGroup>)
    ensures multiset(r) == multiset(groups)
  {
    if groups == [] then []
    else
      assert groups == groups[..|groups| - 1] + [groups[|groups| - 1]];
      Insert(SortGroups(groups[..|groups| - 1]), groups[|groups| - 1])
  }

  // ---------------------------------------------------------------------
  // what the comparator means on the keys it is given
  // ---------------------------------------------------------------------

  /** A unit text and a run of digits joined by '-' split back into those two. */
  lemma KeyParts(u: string, digits: string)
    requires u == "days" || u == "months"
    requires forall k | 0 <= k < |digits| :: IsDigit(digits[k])
    ensures Split(u + "-" + digits, '-') == [u, digits]
  {
    var key := u + "-" + digits;
    assert key[|u|] == '-' && key[..|u|] == u && key[|u| + 1..] == digits;
    assert '-' !in u;
    FirstSeparatorAt(key, '-', |u|);
    assert '-' !in digits by {
      forall k | 0 <= k < |digits| ensures digits[k] != '-' {
        assert IsDigit(digits[k]);
      }
    }
  }

  lemma ParseCountOfNat(value: nat)
    ensures ParseCount(NatToString(value)) == value
  {
    ParseNatToString(value);
  }

  /** On keys built from non-negative values, the comparator orders days before months, then by value. */
  lemma {:induction false} CompareKeysMeaning(u1: RecurrenceUnit, v1: nat, u2: RecurrenceUnit, v2: nat)
    ensures CompareKeys(RecurrenceKey(u1, v1), RecurrenceKey(u2, v2))
         == if u1 != u2 then (if u1 == Days then -1 else 1) else v1 - v2
  {
    ParseCountOfNat(v1);
    ParseCountOfNat(v2);
  }

  /** A group whose key is the key of its first task, with a positive value. */
  predicate WellFormedGroup(g: TaskGroup) {
    |g.tasks| > 0 && g.tasks[0].task.recurrenceValue >= 1 && g.recurrenceKey == KeyOf(g.tasks[0])
  }

  predicate AllWellFormed(gs: seq<TaskGroup>) {
    forall i | 0 <= i < |gs| :: WellFormedGroup(gs[i])
  }

  predicate DistinctKeys(gs: seq<TaskGroup>) {
    forall i, j | 0 <= i < j < |gs| :: gs[i].recurrenceKey != gs[j].recurrenceKey
  }

  /** Each group compares strictly before every later one. */
  predicate StrictlyOrdered(gs: seq<TaskGroup>) {
    forall i, j | 0 <= i < j < |gs| :: CompareKeys(gs[i].recurrenceKey, gs[j].recurrenceKey) < 0
  }

  /** The comparator on well-formed groups: antisymmetric, transitive, and zero only on equal keys. */
  lemma GroupOrder(a: TaskGroup, b: TaskGroup, c: TaskGroup)
    requires WellFormedGroup(a) && WellFormedGroup(b) && WellFormedGroup(c)
    ensures CompareKeys(a.recurrenceKey, b.recurrenceKey) > 0 ==> CompareKeys(b.recurrenceKey, a.recurrenceKey) < 0
    ensures CompareKeys(a.recurrenceKey, b.recurrenceKey) == 0 ==> a.recurrenceKey == b.recurrenceKey
    ensures CompareKeys(a.recurrenceKey, b.recurrenceKey) < 0 && CompareKeys(b.recurrenceKey, c.recurrenceKey) < 0
            ==> CompareKeys(a.recurrenceKey, c.recurrenceKey) < 0
  {
    GroupCompare(a, b);
    GroupCompare(b, a);
    GroupCompare(b, c);
    GroupCompare(a, c);
  }

  /** On well-formed groups the comparator compares the units of their first tasks, then the values. */
  lemma GroupCompare(a: TaskGroup, b: TaskGroup)
    requires WellFormedGroup(a) && WellFormedGroup(b)
    ensures CompareKeys(a.recurrenceKey, b.recurrenceKey)
         == if a.tasks[0].task.recurrenceUnit != b.tasks[0].task.recurrenceUnit then
              (if a.tasks[0].task.recurrenceUnit == Days then -1 else 1)
            else a.tasks[0].task.recurrenceValue - b.tasks[0].task.recurrenceValue
    ensures a.tasks[0].task.recurrenceUnit == b.tasks[0].task.recurrenceUnit
            && a.tasks[0].task.recurrenceValue == b.tasks[0].task.recurrenceValue
            ==> a.recurrenceKey == b.recurrenceKey
  {
    var ta, tb := a.tasks[0].task, b.tasks[0].task;
    CompareKeysMeaning(ta.recurrenceUnit, ta.recurrenceValue, tb.recurrenceUnit, tb.recurrenceValue);
  }

  /** A group before the head of an ordered list, and so before all of it. */
  lemma PrependOrdered(g: TaskGroup, sorted: seq<TaskGroup>)
    requires AllWellFormed(sorted) && WellFormedGroup(g) && StrictlyOrdered(sorted)
    requires sorted != [] && CompareKeys(g.recurrenceKey, sorted[0].recurrenceKey) < 0
    ensures StrictlyOrdered([g] + sorted)
  {
    forall j | 0 <= j < |sorted| ensures CompareKeys(g.recurrenceKey, sorted[j].recurrenceKey) < 0 {
      if j > 0 {
        assert WellFormedGroup(sorted[0]) && WellFormedGroup(sorted[j]);
        assert CompareKeys(sorted[0].recurrenceKey, sorted[j].recurrenceKey) < 0;
        GroupOrder(g, sorted[0], sorted[j]);
      }
    }
    ConsOrdered(g, sorted);
  }

  /** An ordered list behind a group that is before each of its members. */
  lemma ConsOrdered(first: TaskGroup, rest: seq<TaskGroup>)
    requires StrictlyOrdered(rest)
    requires forall j | 0 <= j < |rest| :: CompareKeys(first.recurrenceKey, rest[j].recurrenceKey) < 0
    ensures StrictlyOrdered([first] + rest)
  {
    var r := [first] + rest;
    assert forall j | 1 <= j < |r| :: r[j] == rest[j - 1];
  }

  /** Inserting a group with a new key into an ordered list keeps it ordered. */
  lemma {:induction false} InsertOrdered(sorted: seq<TaskGroup>, g: TaskGroup)
    requires AllWellFormed(sorted) && WellFormedGroup(g) && StrictlyOrdered(sorted)
    requires forall i | 0 <= i < |sorted| :: sorted[i].recurrenceKey != g.recurrenceKey
    ensures StrictlyOrdered(Insert(sorted, g))
  {
    if sorted == [] {
    } else if CompareKeys(sorted[0].recurrenceKey, g.recurrenceKey) > 0 {
      GroupOrder(sorted[0], g, g);
      PrependOrdered(g, sorted);
    } else {
      var first, tail := sorted[0], sorted[1..];
      GroupOrder(first, g, g);
      TailFacts(sorted, g);
      InsertOrdered(tail, g);
      var rest := Insert(tail, g);
      forall j | 0 <= j < |rest| ensures CompareKeys(first.recurrenceKey, rest[j].recurrenceKey) < 0 {
        InsertedFrom(tail, g, rest[j]);
        if rest[j] != g {
          HeadBeforeTail(sorted, rest[j]);
        }
      }
      ConsOrdered(first, rest);
    }
  }

  /** Every member of an insertion is the inserted group or a member of the list. */
  lemma InsertedFrom(sorted: seq<TaskGroup>, g: TaskGroup, x: TaskGroup)
    requires x in Insert(sorted, g)
    ensures x == g || x in sorted
  {
    assert x in multiset(Insert(sorted, g));
  }

  /** The head of a strictly ordered list is before every later member. */
  lemma HeadBeforeTail(sorted: seq<TaskGroup>, x: TaskGroup)
    requires StrictlyOrdered(sorted) && sorted != [] && x in sorted[1..]
    ensures CompareKeys(sorted[0].recurrenceKey, x.recurrenceKey) < 0
  {
    var k :| 0 <= k < |sorted[1..]| && sorted[1..][k] == x;
    assert sorted[k + 1] == x;
  }

  /** The tail of a list meets the insertion lemma's requirements when the list does. */
  lemma TailFacts(sorted: seq<TaskGroup>, g: TaskGroup)
    requires sorted != [] && AllWellFormed(sorted) && StrictlyOrdered(sorted)
    requires forall i | 0 <= i < |sorted| :: sorted[i].recurrenceKey != g.recurrenceKey
    ensures AllWellFormed(sorted[1..]) && StrictlyOrdered(sorted[1..])
    ensures forall i | 0 <= i < |sorted[1..]| :: sorted[1..][i].recurrenceKey != g.recurrenceKey
  {
    var tail := sorted[1..];
    assert forall i | 0 <= i < |tail| :: tail[i] == sorted[i + 1];
  }

  /** With well-formed groups and distinct keys, the sort orders them strictly. */
  lemma {:induction false} SortOrders(gs: seq<TaskGroup>)
    requires AllWellFormed(gs) && DistinctKeys(gs)
    ensures StrictlyOrdered(SortGroups(gs))
  {
    if gs != [] {
      var init := gs[..|gs| - 1];
      var last := gs[|gs| - 1];
      SortOrders(init);
      var sorted := SortGroups(init);
      forall i | 0 <= i < |sorted| ensures sorted[i].recurrenceKey != last.recurrenceKey && WellFormedGroup(sorted[i]) {
        SortedFrom(init, sorted[i]);
        EarlierGroupFacts(gs, sorted[i]);
      }
      InsertOrdered(sorted, last);
    }
  }

  /** The sort only rearranges: every member of the result is a member of the input. */
  lemma SortedFrom(gs: seq<TaskGroup>, x: TaskGroup)
    requires x in SortGroups(gs)
    ensures x in gs
  {
    assert x in multiset(SortGroups(gs));
  }

  /** A group before the last one is well formed and has a key other than the last one's. */
  lemma EarlierGroupFacts(gs: seq<TaskGroup>, x: TaskGroup)
    requires AllWellFormed(gs) && DistinctKeys(gs)
    requires gs != [] && x in gs[..|gs| - 1]
    ensures WellFormedGroup(x) && x.recurrenceKey != gs[|gs| - 1].recurrenceKey
  {
    var k :| 0 <= k < |gs| - 1 && gs[..|gs| - 1][k] == x;
    assert gs[k] == x;
  }

  // ---------------------------------------------------------------------
  // what the grouping promises
  // ---------------------------------------------------------------------

  lemma {:induction false} GroupsOfAt(tasks: seq<TaskDto>, keyOf: TaskDto -> string, keys: seq<string>, i: nat)
    requires forall k | 0 <= k < |keys| :: keys[k] in FirstKeys(tasks, keyOf)
    requires i < |keys|
    ensures Members(tasks, keyOf, keys[i]) != []
    ensures GroupsOf(tasks, keyOf, keys)[i] == GroupFor(tasks, keyOf, keys[i])
  {
    MembersOfKnownKey(tasks, keyOf, keys[i]);
    if i < |keys| - 1 {
      GroupsOfAt(tasks, keyOf, keys[..|keys| - 1], i);
    }
  }

  /** The group at position `i` of the unsorted groups is the group of the `i`-th key to appear. */
  lemma GroupOfFirstKey(tasks: seq<TaskDto>, keyOf: TaskDto -> string, i: nat)
    requires i < |FirstKeys(tasks, keyOf)|
    ensures FirstKeys(tasks, keyOf)[i] in FirstKeys(tasks, keyOf)
    ensures Members(tasks, keyOf, FirstKeys(tasks, keyOf)[i]) != []
    ensures GroupsOf(tasks, keyOf, FirstKeys(tasks, keyOf))[i] == GroupFor(tasks, keyOf, FirstKeys(tasks, keyOf)[i])
  {
    GroupsOfAt(tasks, keyOf, FirstKeys(tasks, keyOf), i);
  }

  /** The unsorted groups are well formed and have distinct keys. */
  lemma UnsortedWellFormed(tasks: seq<TaskDto>)
    requires PositivePeriods(tasks)
    ensures AllWellFormed(Unsorted(tasks)) && DistinctKeys(Unsorted(tasks))
  {
    var keys := FirstKeys(tasks, KeyOf);
    var gs := Unsorted(tasks);
    forall i | 0 <= i < |gs| ensures WellFormedGroup(gs[i]) && gs[i].recurrenceKey == keys[i] {
      GroupsOfAt(tasks, KeyOf, keys, i);
      var first := Members(tasks, KeyOf, keys[i])[0];
      MembersHaveTheKey(tasks, KeyOf, keys[i], first);
    }
  }

  /** The sorted groups are ordered strictly: days before months, and by value within a unit. */
  lemma GroupsAreOrdered(tasks: seq<TaskDto>)
    requires PositivePeriods(tasks)
    ensures StrictlyOrdered(SortGroups(Unsorted(tasks)))
  {
    UnsortedWellFormed(tasks);
    SortOrders(Unsorted(tasks));
  }

  /** Every group holds exactly the tasks of its key, in list order, under the heading of the first of them. */
  lemma EachGroupIsItsKeysMembers(tasks: seq<TaskDto>, g: TaskGroup)
    requires g in SortGroups(Unsorted(tasks))
    ensures g.recurrenceKey in FirstKeys(tasks, KeyOf)
    ensures Members(tasks, KeyOf, g.recurrenceKey) != [] && g == GroupFor(tasks, KeyOf, g.recurrenceKey)
  {
    var unsorted := Unsorted(tasks);
    SortedFrom(unsorted, g);
    var i :| 0 <= i < |unsorted| && unsorted[i] == g;
    GroupOfFirstKey(tasks, KeyOf, i);
  }

  /** Every task is in the group of its own key. */
  lemma EachTaskInItsGroup(tasks: seq<TaskDto>, t: TaskDto)
    requires t in tasks
    ensures Members(tasks, KeyOf, KeyOf(t)) != []
    ensures GroupFor(tasks, KeyOf, KeyOf(t)) in SortGroups(Unsorted(tasks))
  {
    var keys := FirstKeys(tasks, KeyOf);
    var n :| 0 <= n < |tasks| && tasks[n] == t;
    FirstKeysAreTheKeys(tasks, KeyOf, KeyOf(t));
    var i :| 0 <= i < |keys| && keys[i] == KeyOf(t);
    GroupsOfAt(tasks, KeyOf, keys, i);
    assert Unsorted(tasks)[i] in multiset(SortGroups(Unsorted(tasks)));
  }

  /** The number of tasks over all groups. */
  function Total(gs: seq<TaskGroup>): nat {
    if gs == [] then 0 else |gs[0].tasks| + Total(gs[1..])
  }

  lemma {:induction false} TotalSnoc(gs: seq<TaskGroup>, g: TaskGroup)
    ensures Total(gs + [g]) == Total(gs) + |g.tasks|
  {
    if gs != [] {
      assert (gs + [g])[1..] == gs[1..] + [g];
      TotalSnoc(gs[1..], g);
    }
  }

  lemma {:induction false} TotalInsert(sorted: seq<TaskGroup>, g: TaskGroup)
    ensures Total(Insert(sorted, g)) == Total(sorted) + |g.tasks|
  {
    if sorted != [] && CompareKeys(sorted[0].recurrenceKey, g.recurrenceKey) <= 0 {
      TotalInsert(sorted[1..], g);
    }
  }

  lemma {:induction false} TotalSort(gs: seq<TaskGroup>)
    ensures Total(SortGroups(gs)) == Total(gs)
  {
    if gs != [] {
      var init, last := gs[..|gs| - 1], gs[|gs| - 1];
      TotalSort(init);
      TotalInsert(SortGroups(init), last);
      assert SortGroups(gs) == Insert(SortGroups(init), last);
      TotalOfSnoc(gs, init, last);
    }
  }

  lemma TotalOfSnoc(gs: seq<TaskGroup>, init: seq<TaskGroup>, last: TaskGroup)
    requires gs != [] && init == gs[..|gs| - 1] && last == gs[|gs| - 1]
    ensures Total(gs) == Total(init) + |last.tasks|
  {
    assert gs == init + [last];
    TotalSnoc(init, last);
  }

  /** The number of members over the given keys. */
  function MemberCount(tasks: seq<TaskDto>, keyOf: TaskDto -> string, keys: seq<string>): nat {
    if keys == [] then 0
    else MemberCount(tasks, keyOf, keys[..|keys| - 1]) + |Members(tasks, keyOf, keys[|keys| - 1])|
  }

  lemma {:induction false} TotalOfGroups(tasks: seq<TaskDto>, keyOf: TaskDto -> string, keys: seq<string>)
    requires forall k | 0 <= k < |keys| :: keys[k] in FirstKeys(tasks, keyOf)
    ensures Total(GroupsOf(tasks, keyOf, keys)) == MemberCount(tasks, keyOf, keys)
  {
    if keys != [] {
      var k := keys[|keys| - 1];
      MembersOfKnownKey(tasks, keyOf, k);
      TotalOfGroups(tasks, keyOf, keys[..|keys| - 1]);
      TotalSnoc(GroupsOf(tasks, keyOf, keys[..|keys| - 1]), GroupFor(tasks, keyOf, k));
    }
  }

  lemma {:induction false} MemberCountSnoc(tasks: seq<TaskDto>, t: TaskDto, keyOf: TaskDto -> string, keys: seq<string>)
    requires forall i, j | 0 <= i < j < |keys| :: keys[i] != keys[j]
    ensures MemberCount(tasks + [t], keyOf, keys)
         == MemberCount(tasks, keyOf, keys) + if keyOf(t) in keys then 1 else 0
  {
    if keys != [] {
      var init := keys[..|keys| - 1];
      var k := keys[|keys| - 1];
      MemberCountSnoc(tasks, t, keyOf, init);
      MembersSnoc(tasks, keyOf, t, k);
      assert keys == init + [k];
      if keyOf(t) == k {
        assert keyOf(t) !in init;
      }
    }
  }

  lemma {:induction false} EveryTaskCounted(tasks: seq<TaskDto>, keyOf: TaskDto -> string)
    ensures MemberCount(tasks, keyOf, FirstKeys(tasks, keyOf)) == |tasks|
  {
    if tasks != [] {
      var init := tasks[..|tasks| - 1];
      var t := tasks[|tasks| - 1];
      var keys := FirstKeys(init, keyOf);
      assert tasks == init + [t];
      EveryTaskCounted(init, keyOf);
      FirstKeysSnoc(init, keyOf, t);
      MemberCountSnoc(init, t, keyOf, keys);
      if keyOf(t) !in keys {
        UnseenKeyHasNoMembers(init, keyOf, keyOf(t));
        MembersSnoc(init, keyOf, t, keyOf(t));
        assert (keys + [keyOf(t)])[..|keys|] == keys;
      }
    }
  }

  /** No task is lost or repeated: the group sizes add up to the number of tasks. */
  lemma GroupsCoverAllTasks(tasks: seq<TaskDto>)
    ensures Total(SortGroups(Unsorted(tasks))) == |tasks|
  {
    TotalSort(Unsorted(tasks));
    TotalOfGroups(tasks, KeyOf, FirstKeys(tasks, KeyOf));
    EveryTaskCounted(tasks, KeyOf);
  }
}
