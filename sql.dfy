/** The SQL the service layer sends to MySQL, as structured statements rather than
    text: which rows a SELECT reads, which columns an INSERT or UPDATE binds, and how
    many `?` placeholders each statement carries. */
module Sql {
  import opened Wrappers
  import opened JsText

  /** A value bound to a `?` placeholder or read back from a column. JavaScript
      numbers appear as integers where the service layer uses them as ids, counts
      and stock, and as reals where it uses them as prices. */
  datatype SqlValue = SqlInt(i: int) | SqlReal(x: real) | SqlText(s: string) | SqlNull

  /** One result row, column name to value. */
  type Row = map<string, SqlValue>

  /** The three tables the services write. */
  datatype Table = Users | Products | Categories

  function TableName(t: Table): string {
    match t
    case Users => "users"
    case Products => "products"
    case Categories => "categories"
  }

  /** `ORDER BY <column> ASC|DESC`. */
  datatype Direction = Asc | Desc
  datatype Order = Order(column: string, direction: Direction)

  /** The select list: `*`, `p.*, c.name as category_name`, `COUNT(*) as total`, or `1`. */
  datatype Projection = AllColumns | ProductWithCategoryName | CountTotal | ConstantOne

  /** The FROM clause: a table named by the caller, `products p`, or `products p`
      left-joined with `categories c ON p.category_id = c.id`. */
  datatype Source = Named(name: string) | ProductsAliased | ProductsJoinCategories

  /** No LIMIT, `LIMIT 1`, or `LIMIT ? OFFSET ?` with both values bound. */
  datatype Limit = Unlimited | LimitOne | LimitOffset

  /** A SELECT. `condition` is the caller's WHERE text, placeholders included; `None`
      means the statement has no WHERE at all. */
  datatype Select = Select(
    projection: Projection,
    source: Source,
    condition: Option<string>,
    order: Option<Order>,
    limit: Limit)

  /** The writes: `INSERT INTO t (c1, …) VALUES (?, …)`,
      `UPDATE t SET c1 = ?, …, updated_at = CURRENT_TIMESTAMP WHERE id = ?` and
      `DELETE FROM t WHERE id = ?`. */
  datatype Statement =
    | InsertInto(table: Table, columns: seq<string>)
    | UpdateById(table: Table, columns: seq<string>)
    | DeleteById(table: Table)

  /** The number of `?` placeholders in a SELECT. */
  function SelectPlaceholders(q: Select): nat {
    (match q.condition
     case None => 0
     case Some(c) => Occurrences(c, '?'))
    + (if q.limit == LimitOffset then 2 else 0)
  }

  /** The number of `?` placeholders in a write. */
  function StatementPlaceholders(s: Statement): nat {
    match s
    case InsertInto(_, columns) => |columns|
    case UpdateById(_, columns) => |columns| + 1
    case DeleteById(_) => 1
  }
}
