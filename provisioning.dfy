/**
 * `bulkCreateFromTemplates` item by item, as a left fold: each item appends
 * exactly one tagged result and, when it succeeds, one row of `tasks`.
 */
module Provisioning {
  import opened Wrappers
  import opened Calendar
  import opened Recurrence
  import opened Store

  /** One item of the request: the template, and optional overrides of its default recurrence. */
  datatype BulkItem = BulkItem(templateId: Uuid, overrideValue: Option<int>, overrideUnit: Option<RecurrenceUnit>)

  /**
   * What the store does while one item is processed: nothing unusual, the
   * template query fails, the insert fails with an error other than a
   * unique violation, or an exception escapes before anything is written.
   */
  datatype ItemFault = Healthy | TemplateReadFails | InsertFails | Throws

  /** `BulkCreateTaskResultDto`: status 201 with the task, or an error status with a code and the item's template id. */
  datatype BulkResult =
    | Created(task: TaskDto)
    | Failed(status: int, code: string, templateId: Uuid)

  function Status(r: BulkResult): int {
    if r.Created? then 201 else r.status
  }

  /** The results so far and the state of `tasks` they left. */
  datatype Batch = Batch(results: seq<BulkResult>, tasks: map<Uuid, Task>, nextId: Uuid)

  function Reject(b: Batch, status: int, code: string, item: BulkItem): Batch {
    b.(results := b.results + [Failed(status, code, item.templateId)])
  }

  /** The row inserted for an item whose template is `tpl`. */
  function NewRow(id: Uuid, space: Space, userId: UserId, tpl: Template, item: BulkItem, now: Instant): Task {
    var value := item.overrideValue.GetOr(tpl.defaultRecurrenceValue);
    var unit := item.overrideUnit.GetOr(tpl.defaultRecurrenceUnit);
    Task(id, space.id, userId, tpl.taskName, value, unit, CalculateDueDate(now, value, unit), Pending, 0, None)
  }

  /** The body of the loop for one item. */
  function ProvisionItem(b: Batch, templates: map<Uuid, Template>, space: Space, userId: UserId,
                         item: BulkItem, fault: ItemFault, now: Instant): Batch
  {
    if fault == Throws then Reject(b, 500, "internal_error", item)
    else if fault == TemplateReadFails || item.templateId !in templates then
      Reject(b, 404, "template_not_found", item)
    else
      var tpl := templates[item.templateId];
      if fault == InsertFails then Reject(b, 500, "internal_error", item)
      else if TaskNameTaken(b.tasks, space.id, tpl.taskName) then Reject(b, 409, "duplicate_task", item)
      else
        var row := NewRow(b.nextId, space, userId, tpl, item, now);
        Batch(b.results + [Created(TaskDto(row, Summary(space)))], b.tasks[b.nextId := row], b.nextId + 1)
  }

  /**
   * All items in input order. Earlier results are never revised, and rows
   * already in the table are never removed or changed.
   */
  function ProvisionAll(start: Batch, templates: map<Uuid, Template>, space: Space, userId: UserId,
                        items: seq<BulkItem>, faults: seq<ItemFault>, now: Instant): (r: Batch)
    requires |faults| == |items|
    ensures |r.results| == |start.results| + |items|
    ensures r.results[..|start.results|] == start.results
    ensures start.nextId <= r.nextId
    ensures IdsBelow(start.tasks, start.nextId) ==>
      IdsBelow(r.tasks, r.nextId) &&
      forall id | id in start.tasks :: id in r.tasks && r.tasks[id] == start.tasks[id]
    decreases |items|
  {
    if items == [] then start
    else
      var n := |items| - 1;
      var before := ProvisionAll(start, templates, space, userId, items[..n], faults[..n], now);
      ProvisionItem(before, templates, space, userId, items[n], faults[n], now)
  }

  /** Every row id is one already handed out by the allocator. */
  predicate IdsBelow(tasks: map<Uuid, Task>, nextId: Uuid) {
    forall id | id in tasks :: id < nextId
  }

  /** The state left by the first `k` items. */
  function Prior(start: Batch, templates: map<Uuid, Template>, space: Space, userId: UserId,
                 items: seq<BulkItem>, faults: seq<ItemFault>, now: Instant, k: nat): Batch
    requires |faults| == |items| && k <= |items|
  {
    ProvisionAll(start, templates, space, userId, items[..k], faults[..k], now)
  }

  /** The state after `k + 1` items is the state after `k` items with item `k` processed. */
  lemma PriorStep(start: Batch, templates: map<Uuid, Template>, space: Space, userId: UserId,
                  items: seq<BulkItem>, faults: seq<ItemFault>, now: Instant, k: nat)
    requires |faults| == |items| && k < |items|
    ensures Prior(start, templates, space, userId, items, faults, now, k + 1)
         == ProvisionItem(Prior(start, templates, space, userId, items, faults, now, k),
                          templates, space, userId, items[k], faults[k], now)
  {
    assert items[..k + 1][..k] == items[..k] && faults[..k + 1][..k] == faults[..k];
    assert items[..k + 1][k] == items[k] && faults[..k + 1][k] == faults[k];
  }

  /** One item appends exactly one result, and a rejected item leaves the table alone. */
  lemma ItemAppendsOne(b: Batch, templates: map<Uuid, Template>, space: Space, userId: UserId,
                       item: BulkItem, fault: ItemFault, now: Instant)
    ensures var r := ProvisionItem(b, templates, space, userId, item, fault, now);
      && |r.results| == |b.results| + 1 && r.results[..|b.results|] == b.results
      && (r.results[|b.results|].Failed? ==> r.tasks == b.tasks && r.nextId == b.nextId)
  {
  }

  /**
   * The outcome of one item, by case: the failures carry the item's
   * template id; 404 exactly when its template cannot be read; 409 exactly
   * when the template's task name is already used in the space; 500 for a
   * thrown exception or another insert error; otherwise 201 with a pending,
   * never-postponed task in this space whose recurrence is the override
   * when given and the template default otherwise.
   */
  lemma ItemOutcome(b: Batch, templates: map<Uuid, Template>, space: Space, userId: UserId,
                    item: BulkItem, fault: ItemFault, now: Instant)
    ensures var res := ProvisionItem(b, templates, space, userId, item, fault, now).results[|b.results|];
      var found := fault != TemplateReadFails && item.templateId in templates;
      && (res.Failed? ==> res.templateId == item.templateId)
      && (Status(res) == 404 <==> fault != Throws && !found)
      && (res.Failed? && res.status == 404 ==> res.code == "template_not_found")
      && (Status(res) == 500 <==> fault == Throws || (found && fault == InsertFails))
      && (res.Failed? && res.status == 500 ==> res.code == "internal_error")
      && (Status(res) == 409 <==>
            fault == Healthy && found && TaskNameTaken(b.tasks, space.id, templates[item.templateId].taskName))
      && (res.Failed? && res.status == 409 ==> res.code == "duplicate_task")
      && (res.Created? <==>
            fault == Healthy && found && !TaskNameTaken(b.tasks, space.id, templates[item.templateId].taskName))
      && (res.Created? ==>
            var tpl := templates[item.templateId];
            var t := res.task.task;
            && res.task.space == Summary(space)
            && t.spaceId == space.id && t.userId == userId && t.name == tpl.taskName
            && t.status == Pending && t.postponementCount == 0 && t.lastCompletedAt == None
            && t.recurrenceValue == (if item.overrideValue.Some? then item.overrideValue.value
                                     else tpl.defaultRecurrenceValue)
            && t.recurrenceUnit == (if item.overrideUnit.Some? then item.overrideUnit.value
                                    else tpl.defaultRecurrenceUnit)
            && t.dueDate == CalculateDueDate(now, t.recurrenceValue, t.recurrenceUnit))
  {
  }

  lemma PrefixOfPrefix<T>(s: seq<T>, k: nat, n: nat)
    requires k <= n <= |s|
    ensures s[..n][..k] == s[..k]
  {
  }

  /**
   * Result `k` is the outcome of item `k` on the state the earlier items
   * left, and processing the later items never changes it.
   */
  lemma {:induction false} ResultOfItem(start: Batch, templates: map<Uuid, Template>, space: Space, userId: UserId,
                                        items: seq<BulkItem>, faults: seq<ItemFault>, now: Instant, k: nat)
    requires |faults| == |items| && k < |items|
    ensures ProvisionAll(start, templates, space, userId, items, faults, now).results[|start.results| + k]
         == ProvisionItem(Prior(start, templates, space, userId, items, faults, now, k),
                          templates, space, userId, items[k], faults[k], now)
              .results[|Prior(start, templates, space, userId, items, faults, now, k).results|]
    decreases |items|
  {
    var n := |items| - 1;
    var init := ProvisionAll(start, templates, space, userId, items[..n], faults[..n], now);
    ItemAppendsOne(init, templates, space, userId, items[n], faults[n], now);
    if k == n {
      assert items[..n] == items[..k] && faults[..n] == faults[..k];
    } else {
      ResultOfItem(start, templates, space, userId, items[..n], faults[..n], now, k);
      PrefixOfPrefix(items, k, n);
      PrefixOfPrefix(faults, k, n);
      assert items[..n][k] == items[k] && faults[..n][k] == faults[k];
    }
  }

  /** Every task reported as created is in the table, as reported. */
  predicate CreatedRowsStored(b: Batch) {
    forall j | 0 <= j < |b.results| && b.results[j].Created? ::
      b.results[j].task.task.id in b.tasks && b.tasks[b.results[j].task.task.id] == b.results[j].task.task
  }

  /** Every task reported as created is in the table at the end: no later failure rolls it back. */
  lemma {:induction false} CreatedRowsPersist(start: Batch, templates: map<Uuid, Template>, space: Space, userId: UserId,
                                              items: seq<BulkItem>, faults: seq<ItemFault>, now: Instant)
    requires |faults| == |items|
    requires IdsBelow(start.tasks, start.nextId)
    requires CreatedRowsStored(start)
    ensures CreatedRowsStored(ProvisionAll(start, templates, space, userId, items, faults, now))
    decreases |items|
  {
    if items != [] {
      var n := |items| - 1;
      var before := ProvisionAll(start, templates, space, userId, items[..n], faults[..n], now);
      CreatedRowsPersist(start, templates, space, userId, items[..n], faults[..n], now);
      ItemAppendsOne(before, templates, space, userId, items[n], faults[n], now);
      NewRowIsFresh(before, templates, space, userId, items[n], faults[n], now);
      var r := ProvisionItem(before, templates, space, userId, items[n], faults[n], now);
      forall j | 0 <= j < |r.results| && r.results[j].Created?
        ensures r.results[j].task.task.id in r.tasks && r.tasks[r.results[j].task.task.id] == r.results[j].task.task
      {
        if j < |before.results| {
          assert r.results[j] == before.results[j];
          assert IdsBelow(before.tasks, before.nextId);
        }
      }
    }
  }

  /** An item that creates a row uses an id above every id already in the table. */
  lemma NewRowIsFresh(b: Batch, templates: map<Uuid, Template>, space: Space, userId: UserId,
                      item: BulkItem, fault: ItemFault, now: Instant)
    ensures var r := ProvisionItem(b, templates, space, userId, item, fault, now);
      (r.results[|b.results|].Created? ==>
         r.tasks == b.tasks[b.nextId := r.results[|b.results|].task.task] && r.nextId == b.nextId + 1
         && r.results[|b.results|].task.task.id == b.nextId)
  {
  }

  /** One item provisioned into a space the user owns keeps the tables well formed. */
  lemma ItemKeepsTables(b: Batch, spaces: map<Uuid, Space>, templates: map<Uuid, Template>,
                        space: Space, userId: UserId, item: BulkItem, fault: ItemFault, now: Instant)
    requires space.id in spaces && spaces[space.id] == space && space.userId == userId
    requires TablesWellFormed(spaces, b.tasks, b.nextId)
    ensures TablesWellFormed(spaces, ProvisionItem(b, templates, space, userId, item, fault, now).tasks,
                             ProvisionItem(b, templates, space, userId, item, fault, now).nextId)
  {
    if fault == Healthy && item.templateId in templates
       && !TaskNameTaken(b.tasks, space.id, templates[item.templateId].taskName) {
      var row := NewRow(b.nextId, space, userId, templates[item.templateId], item, now);
      InsertTaskKeepsTables(spaces, b.tasks, b.nextId, row);
    }
  }

  /** Provisioning into a space the user owns keeps the tables well formed. */
  lemma {:induction false} ProvisionKeepsTables(start: Batch, spaces: map<Uuid, Space>, templates: map<Uuid, Template>,
                                                space: Space, userId: UserId,
                                                items: seq<BulkItem>, faults: seq<ItemFault>, now: Instant)
    requires |faults| == |items|
    requires space.id in spaces && spaces[space.id] == space && space.userId == userId
    requires TablesWellFormed(spaces, start.tasks, start.nextId)
    ensures TablesWellFormed(spaces, ProvisionAll(start, templates, space, userId, items, faults, now).tasks,
                             ProvisionAll(start, templates, space, userId, items, faults, now).nextId)
    decreases |items|
  {
    if items != [] {
      var n := |items| - 1;
      var b := ProvisionAll(start, templates, space, userId, items[..n], faults[..n], now);
      ProvisionKeepsTables(start, spaces, templates, space, userId, items[..n], faults[..n], now);
      ItemKeepsTables(b, spaces, templates, space, userId, items[n], faults[n], now);
    }
  }

  /** An empty request gives no results and writes nothing. */
  lemma NoItemsNoResults(start: Batch, templates: map<Uuid, Template>, space: Space, userId: UserId, now: Instant)
    ensures ProvisionAll(start, templates, space, userId, [], [], now) == start
  {
  }
}
