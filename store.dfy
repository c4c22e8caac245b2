/**
 * The rows of the `spaces`, `space_types`, `task_templates` and `tasks`
 * tables, and the in-memory store that stands for them.
 */
module Store {
  import opened Wrappers
  import opened Calendar
  import opened Recurrence

  /** Row identifiers (UUIDs in the database) are drawn from a counter. */
  type Uuid = nat
  type UserId = string

  datatype Space = Space(id: Uuid, userId: UserId, name: string, spaceType: Option<string>, icon: Option<string>)

  /** `SpaceMinDto`: the space summary nested in every task returned to a client. */
  datatype SpaceMin = SpaceMin(id: Uuid, name: string, spaceType: Option<string>, icon: Option<string>)

  function Summary(s: Space): (m: SpaceMin)
    ensures m.id == s.id && m.name == s.name && m.spaceType == s.spaceType && m.icon == s.icon
  {
    SpaceMin(s.id, s.name, s.spaceType, s.icon)
  }

  datatype Template = Template(
    id: Uuid,
    spaceType: string,
    taskName: string,
    defaultRecurrenceValue: int,
    defaultRecurrenceUnit: RecurrenceUnit,
    displayOrder: int)

  datatype TaskStatus = Pending | Postponed

  datatype Task = Task(
    id: Uuid,
    spaceId: Uuid,
    userId: UserId,
    name: string,
    recurrenceValue: int,
    recurrenceUnit: RecurrenceUnit,
    dueDate: Instant,
    status: TaskStatus,
    postponementCount: int,
    lastCompletedAt: Option<Instant>)

  /** `TaskDto`: a task row with the summary of its space. */
  datatype TaskDto = TaskDto(task: Task, space: SpaceMin)

  /** At most this many postponements are allowed in one cycle. */
  const MaxPostponements: int := 3

  /** A failure of the store itself, independent of the data (a lost connection, a timeout). */
  datatype Fault = NoFault | ReadFails | WriteFails

  /** The task and space rows a user owns, looked up the way the service looks them up: by id and owner. */
  function OwnedTask(tasks: map<Uuid, Task>, userId: UserId, id: Uuid): (r: Option<Task>)
    ensures r.Some? <==> id in tasks && tasks[id].userId == userId
    ensures r.Some? ==> r.value == tasks[id]
  {
    if id in tasks && tasks[id].userId == userId then Some(tasks[id]) else None
  }

  /** The same lookup on `spaces`; a separate function so that each table keeps its own row type. */
  function OwnedSpace(spaces: map<Uuid, Space>, userId: UserId, id: Uuid): (r: Option<Space>)
    ensures r.Some? <==> id in spaces && spaces[id].userId == userId
    ensures r.Some? ==> r.value == spaces[id]
  {
    if id in spaces && spaces[id].userId == userId then Some(spaces[id]) else None
  }

  /** The unique constraint on (space_id, name) of `tasks` would reject a new row with this pair. */
  predicate TaskNameTaken(tasks: map<Uuid, Task>, spaceId: Uuid, name: string) {
    exists id | id in tasks :: tasks[id].spaceId == spaceId && tasks[id].name == name
  }

  /** The unique constraint on (user_id, name) of `spaces`, ignoring the row `except` being updated. */
  predicate SpaceNameTaken(spaces: map<Uuid, Space>, userId: UserId, name: string, except: Option<Uuid>) {
    exists id | id in spaces :: Some(id) != except && spaces[id].userId == userId && spaces[id].name == name
  }

  /** Each row sits under its own id, and ids below `nextId` are the ones already handed out. */
  predicate SpacesWellFormed(spaces: map<Uuid, Space>, nextId: Uuid) {
    && (forall id | id in spaces :: spaces[id].id == id && id < nextId)
    && (forall a, b | a in spaces && b in spaces && a != b ::
          spaces[a].userId != spaces[b].userId || spaces[a].name != spaces[b].name)
  }

  /**
   * The tasks table: (space_id, name) is unique and each task's space exists,
   * as the table enforces; the services also keep the postponement counter in
   * 0..3 and a task's space owned by the task's own user.
   */
  predicate TasksWellFormed(tasks: map<Uuid, Task>, spaces: map<Uuid, Space>, nextId: Uuid) {
    && (forall id | id in tasks :: tasks[id].id == id && id < nextId)
    && (forall id | id in tasks :: 0 <= tasks[id].postponementCount <= MaxPostponements)
    && (forall id | id in tasks ::
          tasks[id].spaceId in spaces && spaces[tasks[id].spaceId].userId == tasks[id].userId)
    && (forall a, b | a in tasks && b in tasks && a != b ::
          tasks[a].spaceId != tasks[b].spaceId || tasks[a].name != tasks[b].name)
  }

  predicate TablesWellFormed(spaces: map<Uuid, Space>, tasks: map<Uuid, Task>, nextId: Uuid) {
    SpacesWellFormed(spaces, nextId) && TasksWellFormed(tasks, spaces, nextId)
  }

  /** Inserting a row whose (space, name) is free keeps the tasks table well formed. */
  lemma InsertTaskKeepsTables(spaces: map<Uuid, Space>, tasks: map<Uuid, Task>, nextId: Uuid, row: Task)
    requires TablesWellFormed(spaces, tasks, nextId)
    requires row.id == nextId && 0 <= row.postponementCount <= MaxPostponements
    requires row.spaceId in spaces && spaces[row.spaceId].userId == row.userId
    requires !TaskNameTaken(tasks, row.spaceId, row.name)
    ensures TablesWellFormed(spaces, tasks[nextId := row], nextId + 1)
  {
    var t := tasks[nextId := row];
    forall a, b | a in t && b in t && a != b
      ensures t[a].spaceId != t[b].spaceId || t[a].name != t[b].name
    {
      if a == nextId {
        assert b in tasks;
      } else if b == nextId {
        assert a in tasks;
      }
    }
  }

  /** Replacing a task row by one with the same identity, space, owner and name keeps the tables well formed. */
  lemma ReplaceTaskKeepsTables(spaces: map<Uuid, Space>, tasks: map<Uuid, Task>, nextId: Uuid, row: Task)
    requires TablesWellFormed(spaces, tasks, nextId)
    requires row.id in tasks
    requires row.spaceId == tasks[row.id].spaceId && row.userId == tasks[row.id].userId
    requires row.name == tasks[row.id].name
    requires 0 <= row.postponementCount <= MaxPostponements
    ensures TablesWellFormed(spaces, tasks[row.id := row], nextId)
  {
    var t := tasks[row.id := row];
    forall a, b | a in t && b in t && a != b
      ensures t[a].spaceId != t[b].spaceId || t[a].name != t[b].name
    {
      assert t[a].spaceId == tasks[a].spaceId && t[a].name == tasks[a].name;
      assert t[b].spaceId == tasks[b].spaceId && t[b].name == tasks[b].name;
    }
  }

  /** Inserting a space whose name is free for its owner keeps the tables well formed. */
  lemma InsertSpaceKeepsTables(spaces: map<Uuid, Space>, tasks: map<Uuid, Task>, nextId: Uuid, row: Space)
    requires TablesWellFormed(spaces, tasks, nextId)
    requires row.id == nextId
    requires !SpaceNameTaken(spaces, row.userId, row.name, None)
    ensures TablesWellFormed(spaces[nextId := row], tasks, nextId + 1)
  {
    var s := spaces[nextId := row];
    forall a, b | a in s && b in s && a != b
      ensures s[a].userId != s[b].userId || s[a].name != s[b].name
    {
      if a == nextId {
        assert b in spaces;
      } else if b == nextId {
        assert a in spaces;
      }
    }
    forall id | id in tasks
      ensures tasks[id].spaceId in s && s[tasks[id].spaceId].userId == tasks[id].userId
    {
      assert tasks[id].spaceId in spaces;
    }
  }

  /** Renaming a space (or changing its icon) to a name its owner does not use elsewhere keeps the tables well formed. */
  lemma ReplaceSpaceKeepsTables(spaces: map<Uuid, Space>, tasks: map<Uuid, Task>, nextId: Uuid, row: Space)
    requires TablesWellFormed(spaces, tasks, nextId)
    requires row.id in spaces && row.userId == spaces[row.id].userId
    requires !SpaceNameTaken(spaces, row.userId, row.name, Some(row.id))
    ensures TablesWellFormed(spaces[row.id := row], tasks, nextId)
  {
    var s := spaces[row.id := row];
    forall a, b | a in s && b in s && a != b
      ensures s[a].userId != s[b].userId || s[a].name != s[b].name
    {
      if a == row.id {
        assert b in spaces;
      } else if b == row.id {
        assert a in spaces;
      }
    }
  }

  /** The tasks that remain when a space is deleted: `ON DELETE CASCADE` removes the space's own tasks. */
  function TasksOutside(tasks: map<Uuid, Task>, spaceId: Uuid): (r: map<Uuid, Task>)
    ensures forall id :: id in r <==> id in tasks && tasks[id].spaceId != spaceId
    ensures forall id | id in r :: r[id] == tasks[id]
  {
    map id | id in tasks && tasks[id].spaceId != spaceId :: tasks[id]
  }

  /** Deleting a space together with its tasks keeps the tables well formed. */
  lemma DeleteSpaceKeepsTables(spaces: map<Uuid, Space>, tasks: map<Uuid, Task>, nextId: Uuid, spaceId: Uuid)
    requires TablesWellFormed(spaces, tasks, nextId)
    ensures TablesWellFormed(spaces - {spaceId}, TasksOutside(tasks, spaceId), nextId)
  {
  }

  /** The database the services work on: one map per table, and the id allocator. */
  class Database {
    var spaces: map<Uuid, Space>
    var spaceTypes: set<string>
    var templates: map<Uuid, Template>
    var tasks: map<Uuid, Task>
    var nextId: Uuid

    ghost predicate Valid()
      reads this
    {
      TablesWellFormed(spaces, tasks, nextId)
    }

    /** A database with the given dictionaries (space types, task templates) and no user data. */
    constructor (spaceTypes: set<string>, templates: map<Uuid, Template>)
      ensures Valid()
      ensures this.spaces == map[] && this.tasks == map[] && this.nextId == 0
      ensures this.spaceTypes == spaceTypes && this.templates == templates
    {
      this.spaces := map[];
      this.spaceTypes := spaceTypes;
      this.templates := templates;
      this.tasks := map[];
      this.nextId := 0;
    }

    /** The update of an existing task row that keeps its space, owner and name. */
    method ReplaceTask(row: Task)
      requires Valid()
      requires row.id in tasks
      requires row.spaceId == tasks[row.id].spaceId && row.userId == tasks[row.id].userId
      requires row.name == tasks[row.id].name
      requires 0 <= row.postponementCount <= MaxPostponements
      modifies this
      ensures Valid()
      ensures tasks == old(tasks)[row.id := row]
      ensures spaces == old(spaces) && nextId == old(nextId)
      ensures spaceTypes == old(spaceTypes) && templates == old(templates)
    {
      ReplaceTaskKeepsTables(spaces, tasks, nextId, row);
      tasks := tasks[row.id := row];
    }

    /** The insert of a task row under the next id, where the row's (space, name) pair is still free. */
    method InsertTask(row: Task)
      requires Valid()
      requires row.id == nextId && 0 <= row.postponementCount <= MaxPostponements
      requires row.spaceId in spaces && spaces[row.spaceId].userId == row.userId
      requires !TaskNameTaken(tasks, row.spaceId, row.name)
      modifies this
      ensures Valid()
      ensures tasks == old(tasks)[old(nextId) := row] && nextId == old(nextId) + 1
      ensures spaces == old(spaces) && spaceTypes == old(spaceTypes) && templates == old(templates)
    {
      InsertTaskKeepsTables(spaces, tasks, nextId, row);
      tasks := tasks[nextId := row];
      nextId := nextId + 1;
    }
  }
}
