/**
 * The query a service hands to the database, as a value: table, filters,
 * ordering and row range. What the database does with it is outside this
 * model; its answer comes back as an `Answer`.
 */
module Query {
  import opened Wrappers
  import opened Strings

  datatype Value = Text(text: string) | Id(id: nat)

  datatype Filter =
    | Eq(column: string, value: Value)
    | Lt(column: string, value: Value)
    | Gt(column: string, value: Value)
    | ILike(column: string, pattern: string)

  datatype Order = Order(column: string, ascending: bool)

  datatype Range = Range(from: int, to: int)

  datatype Select = Select(table: string, filters: seq<Filter>, orders: seq<Order>, range: Option<Range>)

  /** `supabase.from(table).select(...)`: no filter, no order, no range yet. */
  function From(table: string): (q: Select)
    ensures q.table == table && q.filters == [] && q.orders == [] && q.range == None
  {
    Select(table, [], [], None)
  }

  /** `{ data, error, count }`: the rows, whether the query failed, and the exact count when requested. */
  datatype Answer<T> = Answer(data: Option<seq<T>>, failed: bool, count: Option<nat>)

  /**
   * `const [field, direction] = spec.split('.')` followed by
   * `.order(field, { ascending: direction === 'asc' })`: a missing direction
   * sorts descending.
   */
  function OrderOf(spec: string): (o: Order)
    ensures '.' !in o.column && o.column <= spec
    ensures |o.column| == |spec| || spec[|o.column|] == '.'
    ensures o.ascending <==> |Split(spec, '.')| >= 2 && Split(spec, '.')[1] == "asc"
  {
    SplitFirst(spec, '.');
    var parts := Split(spec, '.');
    Order(parts[0], |parts| >= 2 && parts[1] == "asc")
  }
}
