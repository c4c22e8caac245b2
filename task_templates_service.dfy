/** `listTaskTemplates`: the catalogue of task templates, optionally for one space type, in a requested order. */
module TaskTemplatesService {
  import opened Wrappers
  import opened Strings
  import opened Store
  import opened Query

  /** The order used when the caller gives none. */
  const DefaultTemplateSort: string := "space_type.asc,display_order.asc"

  /** `pieces.map(s => s.trim())`. */
  function TrimEach(pieces: seq<string>): (parts: seq<string>)
    ensures |parts| == |pieces|
    ensures forall k | 0 <= k < |parts| :: parts[k] == Trim(pieces[k])
    decreases |pieces|
  {
    if pieces == [] then [] else [Trim(pieces[0])] + TrimEach(pieces[1..])
  }

  /** `sort.split(',').map(s => s.trim())`. */
  function SortParts(sort: string): (parts: seq<string>)
    ensures |parts| == |Split(sort, ',')| && |parts| >= 1
    ensures forall k | 0 <= k < |parts| :: parts[k] == Trim(Split(sort, ',')[k])
  {
    TrimEach(Split(sort, ','))
  }

  /**
   * The clause one part gives: `const [field, direction] = part.split('.')`,
   * applied only when both are non-empty, ascending only for `asc`.
   */
  function ClauseOf(part: string): (c: Option<Order>)
    ensures c.Some? <==> Split(part, '.')[0] != "" && |Split(part, '.')| >= 2 && Split(part, '.')[1] != ""
    ensures c.Some? ==> c.value == Order(Split(part, '.')[0], Split(part, '.')[1] == "asc")
  {
    var pieces := Split(part, '.');
    if pieces[0] != "" && |pieces| >= 2 && pieces[1] != "" then Some(Order(pieces[0], pieces[1] == "asc"))
    else None
  }

  /** The clauses of all parts, left to right, skipping the parts that give none. */
  function Clauses(parts: seq<string>): seq<Order>
    decreases |parts|
  {
    if parts == [] then []
    else
      var last := ClauseOf(parts[|parts| - 1]);
      Clauses(parts[..|parts| - 1]) + (if last.Some? then [last.value] else [])
  }

  lemma ClausesStep(parts: seq<string>, i: nat)
    requires i < |parts|
    ensures Clauses(parts[..i + 1]) ==
      Clauses(parts[..i]) + (if ClauseOf(parts[i]).Some? then [ClauseOf(parts[i]).value] else [])
  {
    assert parts[..i + 1][..i] == parts[..i];
  }

  /** The clauses of two lists of parts are the clauses of the first followed by those of the second. */
  lemma {:induction false} ClausesAppend(a: seq<string>, b: seq<string>)
    ensures Clauses(a + b) == Clauses(a) + Clauses(b)
    decreases |b|
  {
    if b == [] {
      assert a + b == a;
    } else {
      var n := |b| - 1;
      assert (a + b)[..|a + b| - 1] == a + b[..n];
      assert (a + b)[|a + b| - 1] == b[n];
      ClausesAppend(a, b[..n]);
    }
  }

  /** Every clause comes from one part, so there are never more clauses than parts. */
  lemma {:induction false} ClausesAtMostParts(parts: seq<string>)
    ensures |Clauses(parts)| <= |parts|
    decreases |parts|
  {
    if parts != [] {
      ClausesAtMostParts(parts[..|parts| - 1]);
    }
  }

  /** A part with a field but no direction is skipped, and so is one that has a direction but no field. */
  lemma PartWithoutDirectionSkipped(field: string)
    requires '.' !in field
    ensures ClauseOf(field) == None && ClauseOf("." + field) == None
  {
    assert Split("." + field, '.')[0] == "" by {
      assert IndexOf("." + field, '.') == 0;
    }
  }

  /** Any direction other than `asc` sorts descending. */
  lemma OtherDirectionDescends(field: string, direction: string)
    requires field != "" && '.' !in field && direction != "" && '.' !in direction
    ensures ClauseOf(field + "." + direction) == Some(Order(field, direction == "asc"))
  {
    var s := field + "." + direction;
    assert s[|field|] == '.';
    assert s[..|field|] == field;
    assert s[|field| + 1..] == direction;
    assert Split(s, '.') == [field] + Split(direction, '.');
  }

  /** Surrounding white space in a part is ignored. */
  lemma PartsAreTrimmed(part: string)
    ensures Trim(" " + part + " ") == Trim(part)
  {
    TrimPadded(part, ' ');
  }

  /** Parts written without commas and without surrounding space are read back as written. */
  lemma SortPartsOfJoin(parts: seq<string>)
    requires |parts| >= 1
    requires forall k | 0 <= k < |parts| :: ',' !in parts[k] && Trim(parts[k]) == parts[k]
    ensures SortParts(Join(parts, ',')) == parts
  {
    SplitJoin(parts, ',');
  }

  /** The errors of `listTaskTemplates`. */
  datatype TemplateError = DatabaseError

  /** The `for` loop over the sort parts: one `.order(...)` per usable part, in order. */
  method ApplySortParts(q: Select, sortParts: seq<string>) returns (query: Select)
    ensures query == q.(orders := q.orders + Clauses(sortParts))
  {
    query := q;
    var i := 0;
    while i < |sortParts|
      invariant 0 <= i <= |sortParts|
      invariant query == q.(orders := q.orders + Clauses(sortParts[..i]))
    {
      var pieces := Split(sortParts[i], '.');
      var field := pieces[0];
      if field != "" && |pieces| >= 2 && pieces[1] != "" {
        query := query.(orders := query.orders + [Order(field, pieces[1] == "asc")]);
      }
      ClausesStep(sortParts, i);
      i := i + 1;
    }
    assert sortParts[..i] == sortParts;
  }

  /** The query of `listTaskTemplates`: the optional space-type filter, then the order clauses of the sort string. */
  method TemplatesQuery(spaceType: Option<string>, sortText: string) returns (query: Select)
    ensures query.table == "task_templates" && query.range == None
    ensures query.filters ==
      if spaceType.Some? && spaceType.value != "" then [Eq("space_type", Text(spaceType.value))] else []
    ensures query.orders == Clauses(SortParts(sortText))
  {
    query := From("task_templates");
    if spaceType.Some? && spaceType.value != "" {
      query := query.(filters := query.filters + [Eq("space_type", Text(spaceType.value))]);
    }
    query := ApplySortParts(query, SortParts(sortText));
  }

  /**
   * `listTaskTemplates`: an optional equality filter on the space type, one
   * order clause per usable part of the sort string (the default when none
   * is given), then the rows as they come back.
   */
  method ListTaskTemplates(spaceType: Option<string>, sort: Option<string>, answer: Answer<Template>)
    returns (query: Select, r: Result<seq<Template>, TemplateError>)
    ensures query.table == "task_templates" && query.range == None
    ensures query.filters ==
      if spaceType.Some? && spaceType.value != "" then [Eq("space_type", Text(spaceType.value))] else []
    ensures query.orders == Clauses(SortParts(sort.GetOr(DefaultTemplateSort)))
    ensures answer.failed ==> r == Err(DatabaseError)
    ensures !answer.failed ==> r == Ok(answer.data.GetOr([]))
  {
    query := TemplatesQuery(spaceType, sort.GetOr(DefaultTemplateSort));
    r := if answer.failed then Err(DatabaseError) else Ok(answer.data.GetOr([]));
  }
}
