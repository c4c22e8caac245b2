/**
 * The space operations of the service layer: the paged, searchable list,
 * and create, update and delete, each checking before it writes.
 */
module SpacesService {
  import opened Wrappers
  import opened Strings
  import opened Store
  import opened Pagination
  import opened Query

  /** The errors the space operations raise, one per error class, and a store failure. */
  datatype SpaceError =
    | SpaceTypeNotFound(code: string)
    | DuplicateSpaceName(name: string)
    | SpaceNotFound
    | PageOutOfRange(requestedPage: int, maxPage: int)
    | DatabaseError

  /** `SpaceListDto`. */
  datatype SpaceList = SpaceList(data: seq<Space>, pagination: PageInfo)

  /** The name filter of `listSpaces`: a case-insensitive match on the trimmed search text, when there is any. */
  function SearchFilter(search: Option<string>): (f: Option<Filter>)
    ensures f.Some? <==> search.Some? && Trim(search.value) != ""
    ensures f.Some? ==> f.value == ILike("name", "%" + Trim(search.value) + "%")
  {
    if search.Some? && search.value != "" && Trim(search.value) != "" then
      Some(ILike("name", "%" + Trim(search.value) + "%"))
    else None
  }

  /** A blank search is no search: only the owner filter is applied. */
  lemma BlankSearchIgnored(search: string)
    requires forall i | 0 <= i < |search| :: IsWhitespace(search[i])
    ensures SearchFilter(Some(search)) == None
  {
  }

  /** Surrounding whitespace does not change the search. */
  lemma SearchIgnoresSurroundingSpace(search: string)
    ensures SearchFilter(Some(" " + search + " ")) == SearchFilter(Some(search))
  {
    TrimPadded(search, ' ');
  }

  /**
   * `listSpaces`: builds the query (owner, optional name search, one order
   * clause, one page of rows) and turns the database's answer into a page.
   */
  method ListSpaces(userId: UserId, search: Option<string>, page: int, limit: int, sort: string, answer: Answer<Space>)
    returns (query: Select, r: Result<SpaceList, SpaceError>)
    requires page >= 1 && limit >= 1
    ensures query.table == "spaces"
    ensures query.filters == [Eq("user_id", Text(userId))]
                             + (if SearchFilter(search).Some? then [SearchFilter(search).value] else [])
    ensures query.orders == [OrderOf(sort)]
    ensures query.range == Some(Range((page - 1) * limit, (page - 1) * limit + limit - 1))
    ensures answer.failed ==> r == Err(DatabaseError)
    ensures !answer.failed ==> (r.Err? <==> OutOfRange(page, answer.count.GetOr(0), limit))
    ensures !answer.failed && r.Err? ==>
      r.error == PageOutOfRange(page, TotalPages(answer.count.GetOr(0), limit))
    ensures !answer.failed && r.Ok? ==>
      r.value == SpaceList(answer.data.GetOr([]),
                           PageInfo(page, limit, answer.count.GetOr(0), TotalPages(answer.count.GetOr(0), limit)))
  {
    var order := OrderOf(sort);
    query := From("spaces");
    query := query.(filters := query.filters + [Eq("user_id", Text(userId))]);
    if search.Some? && search.value != "" && Trim(search.value) != "" {
      query := query.(filters := query.filters + [ILike("name", "%" + Trim(search.value) + "%")]);
    }
    query := query.(orders := query.orders + [order]);
    var from := (page - 1) * limit;
    var to := from + limit - 1;
    query := query.(range := Some(Range(from, to)));

    if answer.failed {
      r := Err(DatabaseError);
    } else {
      var total := answer.count.GetOr(0);
      var totalPages := TotalPages(total, limit);
      if total > 0 && page > totalPages {
        r := Err(PageOutOfRange(page, totalPages));
      } else {
        r := Ok(SpaceList(answer.data.GetOr([]), PageInfo(page, limit, total, totalPages)));
      }
    }
  }

  /** `CreateSpaceCommand`. */
  datatype CreateSpaceCommand = CreateSpaceCommand(name: string, spaceType: Option<string>, icon: Option<string>)

  /** A given (non-empty) space type that cannot be read or is not in the catalogue. */
  predicate TypeRejected(command: CreateSpaceCommand, fault: Fault, spaceTypes: set<string>) {
    && command.spaceType.Some? && command.spaceType.value != ""
    && (fault == ReadFails || command.spaceType.value !in spaceTypes)
  }

  /**
   * `createSpace`: a given (non-empty) space type must exist before
   * anything is inserted; a name the user already uses is refused.
   */
  method CreateSpace(db: Database, userId: UserId, command: CreateSpaceCommand, fault: Fault)
    returns (r: Result<Space, SpaceError>)
    requires db.Valid()
    modifies db
    ensures db.Valid()
    ensures db.tasks == old(db.tasks) && db.spaceTypes == old(db.spaceTypes) && db.templates == old(db.templates)
    ensures r.Err? ==> db.spaces == old(db.spaces) && db.nextId == old(db.nextId)
    ensures (r.Err? && r.error.SpaceTypeNotFound?) <==> TypeRejected(command, fault, old(db.spaceTypes))
    ensures r.Err? && r.error.SpaceTypeNotFound? ==> r.error.code == command.spaceType.value
    ensures r == Err(DuplicateSpaceName(command.name)) <==>
      fault != WriteFails && !TypeRejected(command, fault, old(db.spaceTypes))
      && SpaceNameTaken(old(db.spaces), userId, command.name, None)
    ensures r == Err(DatabaseError) <==> fault == WriteFails && !TypeRejected(command, fault, old(db.spaceTypes))
    ensures fault != WriteFails && !TypeRejected(command, fault, old(db.spaceTypes))
            && !SpaceNameTaken(old(db.spaces), userId, command.name, None)
            ==> r.Ok?
    ensures r.Ok? ==>
      && r.value == Space(old(db.nextId), userId, command.name, command.spaceType, command.icon)
      && db.spaces == old(db.spaces)[r.value.id := r.value] && db.nextId == old(db.nextId) + 1
  {
    if command.spaceType.Some? && command.spaceType.value != "" {
      if fault == ReadFails || command.spaceType.value !in db.spaceTypes {
        return Err(SpaceTypeNotFound(command.spaceType.value));
      }
    }
    if fault == WriteFails {
      return Err(DatabaseError);
    }
    if SpaceNameTaken(db.spaces, userId, command.name, None) {
      return Err(DuplicateSpaceName(command.name));
    }
    var row := Space(db.nextId, userId, command.name, command.spaceType, command.icon);
    InsertSpaceKeepsTables(db.spaces, db.tasks, db.nextId, row);
    db.spaces := db.spaces[db.nextId := row];
    db.nextId := db.nextId + 1;
    return Ok(row);
  }

  /** `UpdateSpaceCommand`: a new name, and a new icon (possibly none), each optional. */
  datatype UpdateSpaceCommand = UpdateSpaceCommand(name: Option<string>, icon: Option<Option<string>>)

  /** The name reported by `DuplicateSpaceNameError` on update: `command.name || 'unknown'`. */
  function ReportedName(name: Option<string>): string {
    if name.Some? && name.value != "" then name.value else "unknown"
  }

  /** `updateSpace`: ownership is checked first; then the given fields are written unless the new name is taken. */
  method UpdateSpace(db: Database, userId: UserId, spaceId: Uuid, command: UpdateSpaceCommand, fault: Fault)
    returns (r: Result<Space, SpaceError>)
    requires db.Valid()
    modifies db
    ensures db.Valid()
    ensures db.tasks == old(db.tasks) && db.nextId == old(db.nextId)
    ensures db.spaceTypes == old(db.spaceTypes) && db.templates == old(db.templates)
    ensures r.Err? ==> db.spaces == old(db.spaces)
    ensures r == Err(SpaceNotFound) <==> fault == ReadFails || OwnedSpace(old(db.spaces), userId, spaceId).None?
    ensures r == Err(DatabaseError) <==> fault == WriteFails && OwnedSpace(old(db.spaces), userId, spaceId).Some?
    ensures r == Err(DuplicateSpaceName(ReportedName(command.name))) <==>
      fault == NoFault && OwnedSpace(old(db.spaces), userId, spaceId).Some?
      && command.name.Some? && SpaceNameTaken(old(db.spaces), userId, command.name.value, Some(spaceId))
    ensures fault == NoFault && OwnedSpace(old(db.spaces), userId, spaceId).Some?
            && !(command.name.Some? && SpaceNameTaken(old(db.spaces), userId, command.name.value, Some(spaceId)))
            ==> r.Ok?
    ensures r.Ok? ==>
      var before := old(db.spaces)[spaceId];
      && r.value == before.(name := command.name.GetOr(before.name), icon := command.icon.GetOr(before.icon))
      && db.spaces == old(db.spaces)[spaceId := r.value]
  {
    if fault == ReadFails || OwnedSpace(db.spaces, userId, spaceId).None? {
      return Err(SpaceNotFound);
    }
    if fault == WriteFails {
      return Err(DatabaseError);
    }
    if command.name.Some? && SpaceNameTaken(db.spaces, userId, command.name.value, Some(spaceId)) {
      return Err(DuplicateSpaceName(ReportedName(command.name)));
    }
    var before := db.spaces[spaceId];
    var row := before.(name := if command.name.Some? then command.name.value else before.name,
                       icon := if command.icon.Some? then command.icon.value else before.icon);
    ReplaceSpaceKeepsTables(db.spaces, db.tasks, db.nextId, row);
    db.spaces := db.spaces[spaceId := row];
    return Ok(row);
  }

  /** `deleteSpace`: ownership is checked first; the space goes and its tasks with it. */
  method DeleteSpace(db: Database, userId: UserId, spaceId: Uuid, fault: Fault)
    returns (r: Outcome<SpaceError>)
    requires db.Valid()
    modifies db
    ensures db.Valid()
    ensures db.nextId == old(db.nextId) && db.spaceTypes == old(db.spaceTypes) && db.templates == old(db.templates)
    ensures r == Fail(SpaceNotFound) <==> fault == ReadFails || OwnedSpace(old(db.spaces), userId, spaceId).None?
    ensures r == Fail(DatabaseError) <==> fault == WriteFails && OwnedSpace(old(db.spaces), userId, spaceId).Some?
    ensures fault == NoFault && OwnedSpace(old(db.spaces), userId, spaceId).Some? ==> r == Pass
    ensures r.Fail? ==> db.spaces == old(db.spaces) && db.tasks == old(db.tasks)
    ensures r.Pass? ==>
      && db.spaces == old(db.spaces) - {spaceId}
      && db.tasks == TasksOutside(old(db.tasks), spaceId)
  {
    if fault == ReadFails || OwnedSpace(db.spaces, userId, spaceId).None? {
      return Fail(SpaceNotFound);
    }
    if fault == WriteFails {
      return Fail(DatabaseError);
    }
    DeleteSpaceKeepsTables(db.spaces, db.tasks, db.nextId, spaceId);
    db.spaces := db.spaces - {spaceId};
    db.tasks := TasksOutside(db.tasks, spaceId);
    return Pass;
  }
}
