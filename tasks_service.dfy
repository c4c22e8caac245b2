/**
 * The task operations of the service layer: read, check, then write one
 * or more rows of the store. Each returns its error instead of throwing it.
 */
module TasksService {
  import opened Wrappers
  import opened Calendar
  import opened Recurrence
  import opened Store
  import opened TaskLifecycle
  import opened Provisioning
  import opened Pagination
  import opened Query

  /** The errors the task operations raise, one per error class, and a store failure (`Error`). */
  datatype TaskError =
    | TaskNotFound(taskId: Uuid)
    | SpaceNotFound(spaceId: Uuid)
    | SpaceNotFoundForBulk
    | DuplicateTask(taskName: string)
    | PostponementLimit
    | PageOutOfRange(requestedPage: int, maxPage: int)
    | DatabaseError

  /** `completeTask`: start a new cycle at `completedAt`, or at `now` when none is given. */
  method CompleteTask(db: Database, userId: UserId, taskId: Uuid, completedAt: Option<Instant>, now: Instant, fault: Fault)
    returns (r: Outcome<TaskError>)
    requires db.Valid()
    modifies db
    ensures db.Valid()
    ensures db.spaces == old(db.spaces) && db.nextId == old(db.nextId)
    ensures db.spaceTypes == old(db.spaceTypes) && db.templates == old(db.templates)
    ensures fault == ReadFails || OwnedTask(old(db.tasks), userId, taskId).None? ==>
      r == Fail(TaskNotFound(taskId)) && db.tasks == old(db.tasks)
    ensures fault == WriteFails && OwnedTask(old(db.tasks), userId, taskId).Some? ==>
      r == Fail(DatabaseError) && db.tasks == old(db.tasks)
    ensures fault == NoFault && OwnedTask(old(db.tasks), userId, taskId).Some? ==>
      r == Pass &&
      db.tasks == old(db.tasks)[taskId := AfterCompletion(old(db.tasks)[taskId], completedAt.GetOr(now))]
  {
    if fault == ReadFails || OwnedTask(db.tasks, userId, taskId).None? {
      return Fail(TaskNotFound(taskId));
    }
    var task := db.tasks[taskId];
    var completedDate := if completedAt.Some? then completedAt.value else now;
    var newDueDate := CalculateDueDate(completedDate, task.recurrenceValue, task.recurrenceUnit);
    if fault == WriteFails {
      return Fail(DatabaseError);
    }
    var row := task.(lastCompletedAt := Some(completedDate), postponementCount := 0,
                     dueDate := newDueDate, status := Pending);
    db.ReplaceTask(row);
    return Pass;
  }

  /** `postponeTask`: one more postponement, due a day after `now`, refused from the third on. */
  method PostponeTask(db: Database, userId: UserId, taskId: Uuid, now: Instant, fault: Fault)
    returns (r: Outcome<TaskError>)
    requires db.Valid()
    modifies db
    ensures db.Valid()
    ensures db.spaces == old(db.spaces) && db.nextId == old(db.nextId)
    ensures db.spaceTypes == old(db.spaceTypes) && db.templates == old(db.templates)
    ensures fault == ReadFails || OwnedTask(old(db.tasks), userId, taskId).None? ==>
      r == Fail(TaskNotFound(taskId)) && db.tasks == old(db.tasks)
    ensures fault != ReadFails && OwnedTask(old(db.tasks), userId, taskId).Some?
            && old(db.tasks)[taskId].postponementCount >= MaxPostponements ==>
      r == Fail(PostponementLimit) && db.tasks == old(db.tasks)
    ensures fault == WriteFails && OwnedTask(old(db.tasks), userId, taskId).Some?
            && old(db.tasks)[taskId].postponementCount < MaxPostponements ==>
      r == Fail(DatabaseError) && db.tasks == old(db.tasks)
    ensures fault == NoFault && OwnedTask(old(db.tasks), userId, taskId).Some?
            && old(db.tasks)[taskId].postponementCount < MaxPostponements ==>
      r == Pass && db.tasks == old(db.tasks)[taskId := AfterPostponement(old(db.tasks)[taskId], now)]
  {
    if fault == ReadFails || OwnedTask(db.tasks, userId, taskId).None? {
      return Fail(TaskNotFound(taskId));
    }
    var task := db.tasks[taskId];
    if task.postponementCount >= 3 {
      return Fail(PostponementLimit);
    }
    var newDueDate := AddDaysAt(now, 1);
    if fault == WriteFails {
      return Fail(DatabaseError);
    }
    var row := task.(postponementCount := task.postponementCount + 1, dueDate := newDueDate, status := Postponed);
    assert row == AfterPostponement(task, now);
    db.ReplaceTask(row);
    return Pass;
  }

  /** `CreateTaskCommand`. */
  datatype CreateTaskCommand = CreateTaskCommand(spaceId: Uuid, name: string, recurrenceValue: int, recurrenceUnit: RecurrenceUnit)

  /**
   * `createTask`: the space must belong to the user, then the row is
   * inserted; every failure leaves the table as it was.
   */
  method CreateTask(db: Database, userId: UserId, command: CreateTaskCommand, now: Instant, fault: Fault)
    returns (r: Result<TaskDto, TaskError>)
    requires db.Valid()
    modifies db
    ensures db.Valid()
    ensures db.spaces == old(db.spaces) && db.spaceTypes == old(db.spaceTypes) && db.templates == old(db.templates)
    ensures r.Err? ==> db.tasks == old(db.tasks) && db.nextId == old(db.nextId)
    ensures r == Err(SpaceNotFound(command.spaceId)) <==>
      fault == ReadFails || OwnedSpace(old(db.spaces), userId, command.spaceId).None?
    ensures r == Err(DatabaseError) <==>
      fault == WriteFails && OwnedSpace(old(db.spaces), userId, command.spaceId).Some?
    ensures r == Err(DuplicateTask(command.name)) <==>
      fault == NoFault && OwnedSpace(old(db.spaces), userId, command.spaceId).Some?
      && TaskNameTaken(old(db.tasks), command.spaceId, command.name)
    ensures fault == NoFault && OwnedSpace(old(db.spaces), userId, command.spaceId).Some?
            && !TaskNameTaken(old(db.tasks), command.spaceId, command.name)
            ==> r.Ok?
    ensures r.Ok? ==>
      && r.value.task == Task(old(db.nextId), command.spaceId, userId, command.name,
                              command.recurrenceValue, command.recurrenceUnit,
                              CalculateDueDate(now, command.recurrenceValue, command.recurrenceUnit), Pending, 0, None)
      && r.value.space == Summary(old(db.spaces)[command.spaceId])
      && db.tasks == old(db.tasks)[old(db.nextId) := r.value.task] && db.nextId == old(db.nextId) + 1
  {
    if fault == ReadFails || OwnedSpace(db.spaces, userId, command.spaceId).None? {
      return Err(SpaceNotFound(command.spaceId));
    }
    var space := db.spaces[command.spaceId];
    var dueDate := CalculateDueDate(now, command.recurrenceValue, command.recurrenceUnit);
    if fault == WriteFails {
      return Err(DatabaseError);
    }
    if TaskNameTaken(db.tasks, command.spaceId, command.name) {
      return Err(DuplicateTask(command.name));
    }
    var row := Task(db.nextId, command.spaceId, userId, command.name,
                    command.recurrenceValue, command.recurrenceUnit, dueDate, Pending, 0, None);
    db.InsertTask(row);
    return Ok(TaskDto(row, Summary(space)));
  }

  /** The body of the loop of `bulkCreateFromTemplates` for one item: one result, and at most one new row. */
  method CreateFromTemplate(db: Database, space: Space, userId: UserId, item: BulkItem, fault: ItemFault,
                            now: Instant, results: seq<BulkResult>)
    returns (results': seq<BulkResult>)
    requires db.Valid()
    requires space.id in db.spaces && db.spaces[space.id] == space && space.userId == userId
    modifies db
    ensures db.Valid()
    ensures db.spaces == old(db.spaces) && db.spaceTypes == old(db.spaceTypes) && db.templates == old(db.templates)
    ensures Batch(results', db.tasks, db.nextId)
         == ProvisionItem(Batch(results, old(db.tasks), old(db.nextId)), db.templates, space, userId, item, fault, now)
  {
    if fault == Throws {
      results' := results + [Failed(500, "internal_error", item.templateId)];
    } else if fault == TemplateReadFails || item.templateId !in db.templates {
      results' := results + [Failed(404, "template_not_found", item.templateId)];
    } else {
      var template := db.templates[item.templateId];
      var value := if item.overrideValue.Some? then item.overrideValue.value else template.defaultRecurrenceValue;
      var unit := if item.overrideUnit.Some? then item.overrideUnit.value else template.defaultRecurrenceUnit;
      var dueDate := CalculateDueDate(now, value, unit);
      if fault == InsertFails {
        results' := results + [Failed(500, "internal_error", item.templateId)];
      } else if TaskNameTaken(db.tasks, space.id, template.taskName) {
        results' := results + [Failed(409, "duplicate_task", item.templateId)];
      } else {
        var row := Task(db.nextId, space.id, userId, template.taskName, value, unit, dueDate, Pending, 0, None);
        db.InsertTask(row);
        results' := results + [Created(TaskDto(row, Summary(space)))];
      }
    }
  }

  /**
   * `bulkCreateFromTemplates`: the space check, then one result per item in
   * input order, each item inserted on its own.
   */
  method BulkCreateFromTemplates(db: Database, userId: UserId, spaceId: Uuid, items: seq<BulkItem>,
                                 now: Instant, spaceReadFails: bool, faults: seq<ItemFault>)
    returns (r: Result<seq<BulkResult>, TaskError>)
    requires db.Valid()
    requires |faults| == |items|
    modifies db
    ensures db.Valid()
    ensures db.spaces == old(db.spaces) && db.spaceTypes == old(db.spaceTypes) && db.templates == old(db.templates)
    ensures spaceReadFails || OwnedSpace(old(db.spaces), userId, spaceId).None? ==>
      r == Err(SpaceNotFoundForBulk) && db.tasks == old(db.tasks) && db.nextId == old(db.nextId)
    ensures !spaceReadFails && OwnedSpace(old(db.spaces), userId, spaceId).Some? ==>
      && r.Ok? && |r.value| == |items|
      && Batch(r.value, db.tasks, db.nextId)
         == ProvisionAll(Batch([], old(db.tasks), old(db.nextId)), old(db.templates),
                         old(db.spaces)[spaceId], userId, items, faults, now)
  {
    if spaceReadFails || OwnedSpace(db.spaces, userId, spaceId).None? {
      return Err(SpaceNotFoundForBulk);
    }
    var space := db.spaces[spaceId];
    ghost var start := Batch([], db.tasks, db.nextId);
    var results: seq<BulkResult> := [];
    var i := 0;
    while i < |items|
      invariant 0 <= i <= |items|
      invariant Batch(results, db.tasks, db.nextId) == Prior(start, db.templates, space, userId, items, faults, now, i)
      invariant db.spaces == old(db.spaces) && db.spaceTypes == old(db.spaceTypes) && db.templates == old(db.templates)
      invariant db.Valid()
    {
      results := CreateFromTemplate(db, space, userId, items[i], faults[i], now, results);
      PriorStep(start, db.templates, space, userId, items, faults, now, i);
      i := i + 1;
    }
    assert items[..i] == items && faults[..i] == faults;
    return Ok(results);
  }

  /** `GetTasksQueryDto`: every field optional. */
  datatype TaskFilters = TaskFilters(
    spaceId: Option<Uuid>,
    status: Option<TaskStatus>,
    dueBefore: Option<string>,
    dueAfter: Option<string>,
    page: Option<int>,
    limit: Option<int>,
    sort: Option<string>)

  /** `TaskListDto`. */
  datatype TaskList = TaskList(data: seq<TaskDto>, pagination: PageInfo)

  function StatusText(s: TaskStatus): string {
    match s
    case Pending => "pending"
    case Postponed => "postponed"
  }

  /** The order clauses of a `getTasks` sort: the recurrence sorts order by unit, then by value. */
  function TaskOrders(sort: string): (orders: seq<Order>)
    ensures sort == "recurrence.asc" ==>
      orders == [Order("recurrence_unit", true), Order("recurrence_value", true)]
    ensures sort == "recurrence.desc" ==>
      orders == [Order("recurrence_unit", false), Order("recurrence_value", false)]
    ensures sort != "recurrence.asc" && sort != "recurrence.desc" ==> orders == [OrderOf(sort)]
  {
    if sort == "recurrence.asc" then [Order("recurrence_unit", true), Order("recurrence_value", true)]
    else if sort == "recurrence.desc" then [Order("recurrence_unit", false), Order("recurrence_value", false)]
    else [OrderOf(sort)]
  }

  /** A filter clause `getTasks` applies: always the owner, and each optional filter that is given (and non-empty). */
  predicate TaskFilterWanted(userId: UserId, filters: TaskFilters, f: Filter) {
    || f == Eq("user_id", Text(userId))
    || (filters.spaceId.Some? && f == Eq("space_id", Id(filters.spaceId.value)))
    || (filters.status.Some? && f == Eq("status", Text(StatusText(filters.status.value))))
    || (filters.dueBefore.Some? && filters.dueBefore.value != "" && f == Lt("due_date", Text(filters.dueBefore.value)))
    || (filters.dueAfter.Some? && filters.dueAfter.value != "" && f == Gt("due_date", Text(filters.dueAfter.value)))
  }

  /** The filtering steps of `getTasks`, appended to a query that has none yet. */
  method FilterTasks(q: Select, userId: UserId, filters: TaskFilters) returns (query: Select)
    requires q.filters == []
    ensures query == q.(filters := query.filters)
    ensures forall f :: f in query.filters <==> TaskFilterWanted(userId, filters, f)
  {
    query := q.(filters := q.filters + [Eq("user_id", Text(userId))]);
    if filters.spaceId.Some? {
      query := query.(filters := query.filters + [Eq("space_id", Id(filters.spaceId.value))]);
    }
    if filters.status.Some? {
      query := query.(filters := query.filters + [Eq("status", Text(StatusText(filters.status.value)))]);
    }
    if filters.dueBefore.Some? && filters.dueBefore.value != "" {
      query := query.(filters := query.filters + [Lt("due_date", Text(filters.dueBefore.value))]);
    }
    if filters.dueAfter.Some? && filters.dueAfter.value != "" {
      query := query.(filters := query.filters + [Gt("due_date", Text(filters.dueAfter.value))]);
    }
  }

  /** The sorting steps of `getTasks`, appended to a query that has no order yet. */
  method SortTasks(q: Select, sort: string) returns (query: Select)
    requires q.orders == []
    ensures query == q.(orders := TaskOrders(sort))
  {
    query := q;
    if sort == "recurrence.asc" {
      query := query.(orders := query.orders + [Order("recurrence_unit", true)]);
      query := query.(orders := query.orders + [Order("recurrence_value", true)]);
    } else if sort == "recurrence.desc" {
      query := query.(orders := query.orders + [Order("recurrence_unit", false)]);
      query := query.(orders := query.orders + [Order("recurrence_value", false)]);
    } else {
      query := query.(orders := query.orders + [OrderOf(sort)]);
    }
  }

  /** The page asked for; the first when none is given. */
  function RequestedPage(filters: TaskFilters): int {
    filters.page.GetOr(1)
  }

  /** The page size: 20 when none is given, and never more than 100. */
  function PageSize(filters: TaskFilters): (size: int)
    ensures size <= 100
    ensures filters.limit.None? ==> size == 20
    ensures filters.limit.Some? ==> size <= filters.limit.value && (size == filters.limit.value || size == 100)
  {
    Min(filters.limit.GetOr(20), 100)
  }

  /**
   * `getTasks`: builds the query (owner filter, optional filters, order,
   * one page of rows) and turns the database's answer into a page.
   */
  method GetTasks(userId: UserId, filters: TaskFilters, answer: Answer<TaskDto>)
    returns (query: Select, r: Result<TaskList, TaskError>)
    requires filters.page.Some? ==> filters.page.value >= 1
    requires filters.limit.Some? ==> filters.limit.value >= 1
    ensures 1 <= PageSize(filters) <= 100
    ensures query.table == "tasks"
    ensures query.range == Some(Range((RequestedPage(filters) - 1) * PageSize(filters),
                                      (RequestedPage(filters) - 1) * PageSize(filters) + PageSize(filters) - 1))
    ensures query.orders == TaskOrders(filters.sort.GetOr("recurrence.asc"))
    ensures answer.failed ==> r == Err(DatabaseError)
    ensures !answer.failed ==>
      (r.Err? <==> OutOfRange(RequestedPage(filters), answer.count.GetOr(0), PageSize(filters)))
    ensures !answer.failed && r.Err? ==>
      r.error == PageOutOfRange(RequestedPage(filters), TotalPages(answer.count.GetOr(0), PageSize(filters)))
    ensures !answer.failed && r.Ok? ==>
      r.value == TaskList(answer.data.GetOr([]),
                          PageInfo(RequestedPage(filters), PageSize(filters), answer.count.GetOr(0),
                                   TotalPages(answer.count.GetOr(0), PageSize(filters))))
    ensures forall f :: f in query.filters <==> TaskFilterWanted(userId, filters, f)
  {
    var page := RequestedPage(filters);
    var effectiveLimit := PageSize(filters);
    var sort := filters.sort.GetOr("recurrence.asc");

    query := From("tasks");
    query := FilterTasks(query, userId, filters);
    ghost var filtered := query.filters;
    query := SortTasks(query, sort);

    var from := (page - 1) * effectiveLimit;
    var to := from + effectiveLimit - 1;
    query := query.(range := Some(Range(from, to)));
    assert query.filters == filtered;

    if answer.failed {
      r := Err(DatabaseError);
    } else {
      var total := answer.count.GetOr(0);
      var totalPages := TotalPages(total, effectiveLimit);
      if total > 0 && page > totalPages {
        r := Err(PageOutOfRange(page, totalPages));
      } else {
        r := Ok(TaskList(answer.data.GetOr([]), PageInfo(page, effectiveLimit, total, totalPages)));
      }
    }
  }
}
