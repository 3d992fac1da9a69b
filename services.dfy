/** The database service layer: `DatabaseService` (query, queryOne, exists, count,
    paginate, insert, update, delete) and the user, product and category services
    built on it. Reads go through a `Reader`, the rows the database returns for a
    statement; writes change the in-memory tables of `Tables.Database`. */
module Services {
  import opened Wrappers
  import opened JsText
  import opened Sql
  import opened Tables

  const QueryFailed := "数据库查询失败"

  /** The database as a reader: the rows a SELECT returns for its bound values, or
      the driver's error. */
  type Reader = (Select, seq<SqlValue>) -> Result<seq<Row>, string>

  // ---------------------------------------------------------------------------
  // query, queryOne, exists, count
  // ---------------------------------------------------------------------------

  /** `DatabaseService.query`: the driver's rows; any driver error is replaced by
      the one fixed message. */
  function Query(run: Reader, q: Select, params: seq<SqlValue>): (r: Result<seq<Row>, string>)
    ensures r.Failure? <==> run(q, params).Failure?
    ensures r.Failure? ==> r.error == QueryFailed
    ensures r.Success? ==> r.value == run(q, params).value
  {
    match run(q, params)
    case Success(rows) => Success(rows)
    case Failure(_) => Failure(QueryFailed)
  }

  /** `DatabaseService.queryOne`: the first row, or `null` (`None`) when there is
      none. */
  function QueryOne(run: Reader, q: Select, params: seq<SqlValue>): (r: Result<Option<Row>, string>)
    ensures r.Failure? <==> run(q, params).Failure?
    ensures r.Failure? ==> r.error == QueryFailed
    ensures r.Success? ==>
      (r.value == None <==> run(q, params).value == [])
      && (r.value.Some? ==> r.value.value == run(q, params).value[0])
  {
    match Query(run, q, params)
    case Failure(e) => Failure(e)
    case Success(rows) => Success(if |rows| > 0 then Some(rows[0]) else None)
  }

  /** `result?.total || 0`: the `total` column of the count row; a missing row, a
      missing column, NULL and 0 all give 0. */
  function TotalOf(row: Option<Row>): (total: int)
    ensures total != 0 ==> row.Some? && "total" in row.value && row.value["total"] == SqlInt(total)
    ensures row.Some? && "total" in row.value && row.value["total"].SqlInt? ==> total == row.value["total"].i
  {
    if row.Some? && "total" in row.value && row.value["total"].SqlInt? then row.value["total"].i else 0
  }

  /** `whereClause ? \`WHERE ${whereClause}\` : ''`: an empty clause means no WHERE. */
  function WhereOf(whereClause: string): (w: Option<string>)
    ensures w.None? <==> whereClause == ""
    ensures w.Some? ==> w.value == whereClause
  {
    if whereClause == "" then None else Some(whereClause)
  }

  /** The SELECT `exists` sends: `SELECT 1 FROM t WHERE … LIMIT 1`. The clause is
      always written after WHERE, even when empty. */
  function ExistsQuery(table: string, whereClause: string): Select {
    Select(ConstantOne, Named(table), Some(whereClause), None, LimitOne)
  }

  /** `DatabaseService.exists`: whether `queryOne` finds a row. */
  function Exists(run: Reader, table: string, whereClause: string, params: seq<SqlValue>): (r: Result<bool, string>)
    ensures r.Failure? <==> run(ExistsQuery(table, whereClause), params).Failure?
    ensures r.Failure? ==> r.error == QueryFailed
    ensures r.Success? ==> (r.value <==> run(ExistsQuery(table, whereClause), params).value != [])
  {
    match QueryOne(run, ExistsQuery(table, whereClause), params)
    case Failure(e) => Failure(e)
    case Success(row) => Success(row != None)
  }

  /** The SELECT `count` sends: `SELECT COUNT(*) as total FROM t [WHERE …]`. */
  function CountQuery(table: string, whereClause: string): Select {
    Select(CountTotal, Named(table), WhereOf(whereClause), None, Unlimited)
  }

  /** `DatabaseService.count`: the count row's total, 0 when no row comes back. */
  function Count(run: Reader, table: string, whereClause: string, params: seq<SqlValue>): (r: Result<int, string>)
    ensures r.Failure? <==> run(CountQuery(table, whereClause), params).Failure?
    ensures r.Failure? ==> r.error == QueryFailed
    ensures run(CountQuery(table, whereClause), params) == Success([]) ==> r == Success(0)
    ensures r.Success? && r.value != 0 ==>
      var rows := run(CountQuery(table, whereClause), params).value;
      |rows| > 0 && "total" in rows[0] && rows[0]["total"] == SqlInt(r.value)
    ensures run(CountQuery(table, whereClause), params).Success? ==>
      var rows := run(CountQuery(table, whereClause), params).value;
      r == Success(if |rows| > 0 then TotalOf(Some(rows[0])) else 0)
  {
    match QueryOne(run, CountQuery(table, whereClause), params)
    case Failure(e) => Failure(e)
    case Success(row) => Success(TotalOf(row))
  }

  // ---------------------------------------------------------------------------
  // Pagination
  // ---------------------------------------------------------------------------

  /** `QueryOptions` as `paginate` reads it; `None` is an absent field. */
  datatype QueryOptions = QueryOptions(
    page: Option<int>,
    limit: Option<int>,
    orderBy: Option<string>,
    orderDirection: Option<Direction>)

  const NoOptions := QueryOptions(None, None, None, None)

  /** The first row of page `page` when pages hold `limit` rows. */
  function PageOffset(page: int, limit: int): int {
    (page - 1) * limit
  }

  /** The two statements of one page request with their bound values, and the page
      and limit the envelope echoes. */
  datatype PagePlan = PagePlan(
    page: int,
    limit: int,
    offset: int,
    data: Select,
    dataParams: seq<SqlValue>,
    count: Select,
    countParams: seq<SqlValue>)

  /** The statements `paginate` and `ProductService.findAll` build: options take
      their defaults (page 1, limit 10, the given column, DESC); the data query
      reads `limit` rows from `offset`, and the count query counts the rows the same
      WHERE selects. */
  function PlanPage(
    projection: Projection, dataSource: Source, countSource: Source, defaultOrderBy: string,
    options: QueryOptions, whereClause: string, whereParams: seq<SqlValue>): PagePlan
  {
    var page := options.page.GetOr(1);
    var limit := options.limit.GetOr(10);
    var offset := PageOffset(page, limit);
    var where := WhereOf(whereClause);
    var order := Order(options.orderBy.GetOr(defaultOrderBy), options.orderDirection.GetOr(Desc));
    PagePlan(
      page, limit, offset,
      Select(projection, dataSource, where, Some(order), LimitOffset),
      whereParams + [SqlText(IntToDecimal(limit)), SqlText(IntToDecimal(offset))],
      Select(CountTotal, countSource, where, None, Unlimited),
      whereParams)
  }

  /** What every page plan binds: the data and the count query share one WHERE
      (none exactly when the clause is empty); the data query binds the WHERE
      values, then the limit, then the offset, as decimal text MySQL reads back as
      those numbers; the count query binds the WHERE values alone; and when the
      clause has one `?` per WHERE value, every placeholder of both queries is
      bound. */
  lemma PlanPageBindings(
    projection: Projection, dataSource: Source, countSource: Source, defaultOrderBy: string,
    options: QueryOptions, whereClause: string, whereParams: seq<SqlValue>)
    ensures var plan := PlanPage(projection, dataSource, countSource, defaultOrderBy, options, whereClause, whereParams);
      && plan.data.condition == plan.count.condition
      && (plan.data.condition == None <==> whereClause == "")
      && (plan.data.condition != None ==> plan.data.condition == Some(whereClause))
      && plan.offset == PageOffset(plan.page, plan.limit)
      && |plan.dataParams| == |whereParams| + 2
      && plan.dataParams[..|whereParams|] == whereParams
      && plan.dataParams[|whereParams|].SqlText?
      && ParseInt(plan.dataParams[|whereParams|].s) == Some(plan.limit)
      && plan.dataParams[|whereParams| + 1].SqlText?
      && ParseInt(plan.dataParams[|whereParams| + 1].s) == Some(plan.offset)
      && plan.countParams == whereParams
      && (Occurrences(whereClause, '?') == |whereParams| ==>
            SelectPlaceholders(plan.data) == |plan.dataParams|
            && SelectPlaceholders(plan.count) == |plan.countParams|)
  {
    var plan := PlanPage(projection, dataSource, countSource, defaultOrderBy, options, whereClause, whereParams);
    ParseIntDecimal(plan.limit);
    ParseIntDecimal(plan.offset);
    assert plan.dataParams[..|whereParams|] == whereParams;
  }

  /** Absent options read page 1, ten rows from offset 0, newest first. */
  lemma PlanPageDefaults(
    projection: Projection, dataSource: Source, countSource: Source, defaultOrderBy: string,
    whereClause: string, whereParams: seq<SqlValue>)
    ensures var plan := PlanPage(projection, dataSource, countSource, defaultOrderBy, NoOptions, whereClause, whereParams);
      && plan.page == 1 && plan.limit == 10 && plan.offset == 0
      && plan.data.order == Some(Order(defaultOrderBy, Desc))
      && plan.dataParams == whereParams + [SqlText("10"), SqlText("0")]
  {
    assert IntToDecimal(10) == "10";
  }

  /** Row `index` of the ordered result is on page `page`. */
  predicate OnPage(index: int, page: int, limit: int) {
    PageOffset(page, limit) <= index < PageOffset(page, limit) + limit
  }

  lemma MultiplyMonotone(a: int, b: int, limit: int)
    requires a <= b && limit >= 0
    ensures a * limit <= b * limit
  {
    assert b * limit - a * limit == (b - a) * limit;
  }

  lemma MultiplyCancel(a: int, b: int, limit: int)
    requires a * limit < b * limit && limit >= 0
    ensures a < b
  {
    assert b * limit - a * limit == (b - a) * limit;
  }

  /** Pages tile the result: consecutive pages start `limit` rows apart, page 1
      starts at row 0, and every row lies on exactly one page. */
  lemma PagesPartitionRows(index: nat, limit: int)
    requires limit >= 1
    ensures PageOffset(1, limit) == 0
    ensures forall page :: PageOffset(page + 1, limit) == PageOffset(page, limit) + limit
    ensures forall page :: OnPage(index, page, limit) <==> page == index / limit + 1
  {
    var q := index / limit;
    assert index == q * limit + index % limit;
    forall page ensures OnPage(index, page, limit) <==> page == q + 1 {
      if page <= q {
        MultiplyMonotone(page, q, limit);
        assert PageOffset(page, limit) + limit == page * limit;
      } else if page >= q + 2 {
        MultiplyMonotone(q + 1, page - 1, limit);
        assert PageOffset(page, limit) == (page - 1) * limit;
      } else {
        assert PageOffset(page, limit) == q * limit;
      }
    }
  }

  /** `Math.ceil(a / b)` for a non-zero divisor: the least integer at or above the
      exact quotient. */
  function CeilQuotient(a: int, b: int): (q: int)
    requires b != 0
    ensures b > 0 ==> (q - 1) * b < a <= q * b
    ensures b < 0 ==> q * b <= a < (q - 1) * b
  {
    if b > 0 then
      var m := (-a) / b;
      assert -a == m * b + (-a) % b;
      -m
    else
      var m := a / (-b);
      assert a == m * (-b) + a % (-b);
      -m
  }

  /** `Math.ceil(total / limit)`; `None` when the limit is 0, where JavaScript
      gives `Infinity` or `NaN` and the JSON envelope carries `null`. */
  function TotalPages(total: int, limit: int): Option<int> {
    if limit == 0 then None else Some(CeilQuotient(total, limit))
  }

  /** With a positive limit the pages 1..totalPages hold exactly the rows
      0..total-1: every row is on one of them, the last row is on the last page,
      and there are no pages at all exactly when there are no rows. */
  lemma TotalPagesCoverRows(total: nat, limit: int)
    requires limit >= 1
    ensures TotalPages(total, limit).Some?
    ensures var pages := TotalPages(total, limit).value;
      && pages * limit >= total
      && (total > 0 ==> (pages - 1) * limit < total)
      && (pages == 0 <==> total == 0)
      && (forall index | 0 <= index < total :: 1 <= index / limit + 1 <= pages)
      && (total > 0 ==> OnPage(total - 1, pages, limit))
  {
    var pages := CeilQuotient(total, limit);
    MultiplyCancel(-1, pages, limit);
    if total == 0 {
      MultiplyCancel(pages - 1, 0, limit);
    } else {
      MultiplyCancel(0, pages, limit);
      assert OnPage(total - 1, pages, limit);
    }
    forall index | 0 <= index < total ensures 1 <= index / limit + 1 <= pages {
      assert (index / limit) * limit <= index;
      MultiplyCancel(index / limit, pages, limit);
    }
  }

  /** `pagination` of `PaginationResponse`. */
  datatype Pagination = Pagination(page: int, limit: int, total: int, totalPages: Option<int>)

  /** `PaginationResponse`: one page of rows and its envelope. */
  datatype Page = Page(data: seq<Row>, pagination: Pagination)

  /** Runs a page plan: the data query first, then the count query. Either
      failure ends the request with the fixed message; otherwise the rows of the
      data query come back with the echoed page and limit, the counted total and
      `ceil(total / limit)` pages. */
  function RunPage(run: Reader, plan: PagePlan): (r: Result<Page, string>)
    ensures r.Success? <==> run(plan.data, plan.dataParams).Success? && run(plan.count, plan.countParams).Success?
    ensures r.Failure? ==> r.error == QueryFailed
    ensures r.Success? ==>
      && r.value.data == run(plan.data, plan.dataParams).value
      && r.value.pagination.page == plan.page
      && r.value.pagination.limit == plan.limit
      && r.value.pagination.totalPages == TotalPages(r.value.pagination.total, plan.limit)
    ensures r.Success? ==>
      var counted := run(plan.count, plan.countParams).value;
      r.value.pagination.total == (if |counted| > 0 then TotalOf(Some(counted[0])) else 0)
    ensures run(plan.data, plan.dataParams).Success? && run(plan.count, plan.countParams) == Success([]) ==>
      r.Success? && r.value.pagination.total == 0
  {
    match Query(run, plan.data, plan.dataParams)
    case Failure(e) => Failure(e)
    case Success(rows) =>
      match QueryOne(run, plan.count, plan.countParams)
      case Failure(e) => Failure(e)
      case Success(row) =>
        var total := TotalOf(row);
        Success(Page(rows, Pagination(plan.page, plan.limit, total, TotalPages(total, plan.limit))))
  }

  /** The plan of `DatabaseService.paginate`: `SELECT * FROM table`, ordered by
      `created_at` unless told otherwise. */
  function PaginatePlan(table: string, options: QueryOptions, whereClause: string, whereParams: seq<SqlValue>): PagePlan {
    PlanPage(AllColumns, Named(table), Named(table), "created_at", options, whereClause, whereParams)
  }

  /** `DatabaseService.paginate`: the envelope echoes the requested page and
      limit, or 1 and 10 when they are absent; a failed query gives the fixed
      message. */
  function Paginate(run: Reader, table: string, options: QueryOptions, whereClause: string, whereParams: seq<SqlValue>): (r: Result<Page, string>)
    ensures r.Failure? ==> r.error == QueryFailed
    ensures r.Success? ==>
      r.value.pagination.page == options.page.GetOr(1) && r.value.pagination.limit == options.limit.GetOr(10)
  {
    RunPage(run, PaginatePlan(table, options, whereClause, whereParams))
  }

  /** The WHERE clause `ProductService.findAll` filters by. */
  const CategoryFilter := "p.category_id = ?"

  /** A condition `column = ?` has one placeholder when the column name has none. */
  lemma ColumnConditionPlaceholder(column: string)
    requires '?' !in column
    ensures Occurrences(column + " = ?", '?') == 1
  {
    OccurrencesConcat(column, " = ?", '?');
    var tail := " = ?";
    assert tail[1..][1..][1..] == "?";
  }

  lemma CategoryFilterPlaceholder()
    ensures Occurrences(CategoryFilter, '?') == 1
  {
    var column := "p.category_id";
    assert '?' !in column;
    ColumnConditionPlaceholder(column);
    assert column + " = ?" == CategoryFilter;
  }

  /** `categoryId ? … : …`: a category filter applies unless the id is absent or 0. */
  predicate FiltersByCategory(categoryId: Option<int>) {
    categoryId.Some? && categoryId.value != 0
  }

  /** The plan of `ProductService.findAll`: products joined with their category's
      name, ordered by `p.created_at` unless told otherwise, and counted over
      `products p`; filtered by `p.category_id = ?` when a category id is given. */
  function ProductFindAllPlan(options: QueryOptions, categoryId: Option<int>): PagePlan {
    var filtered := FiltersByCategory(categoryId);
    PlanPage(
      ProductWithCategoryName, ProductsJoinCategories, ProductsAliased, "p.created_at", options,
      if filtered then CategoryFilter else "",
      if filtered then [SqlInt(categoryId.value)] else [])
  }

  /** `ProductService.findAll`: the same envelope as `paginate`, over products
      joined with their category names. */
  function ProductFindAll(run: Reader, options: QueryOptions, categoryId: Option<int>): (r: Result<Page, string>)
    ensures r.Failure? ==> r.error == QueryFailed
    ensures r.Success? ==>
      r.value.pagination.page == options.page.GetOr(1) && r.value.pagination.limit == options.limit.GetOr(10)
  {
    RunPage(run, ProductFindAllPlan(options, categoryId))
  }

  /** The category filter is in both queries exactly when the category id is
      truthy, binds that id first, and leaves every placeholder bound. */
  lemma ProductFindAllFilter(options: QueryOptions, categoryId: Option<int>)
    ensures var plan := ProductFindAllPlan(options, categoryId);
      && plan.data.condition == plan.count.condition
      && (plan.data.condition.Some? <==> FiltersByCategory(categoryId))
      && (FiltersByCategory(categoryId) ==>
            plan.data.condition == Some(CategoryFilter)
            && plan.dataParams[0] == SqlInt(categoryId.value)
            && plan.countParams == [SqlInt(categoryId.value)])
      && (!FiltersByCategory(categoryId) ==> plan.countParams == [] && |plan.dataParams| == 2)
      && SelectPlaceholders(plan.data) == |plan.dataParams|
      && SelectPlaceholders(plan.count) == |plan.countParams|
  {
    var filtered := FiltersByCategory(categoryId);
    var clause := if filtered then CategoryFilter else "";
    var params := if filtered then [SqlInt(categoryId.value)] else [];
    CategoryFilterPlaceholder();
    PlanPageBindings(ProductWithCategoryName, ProductsJoinCategories, ProductsAliased, "p.created_at", options, clause, params);
  }

  /** `UserService.findAll`: every user, paginated. */
  function UserFindAll(run: Reader, options: QueryOptions): (r: Result<Page, string>)
    ensures r.Failure? ==> r.error == QueryFailed
    ensures r.Success? ==>
      r.value.pagination.page == options.page.GetOr(1) && r.value.pagination.limit == options.limit.GetOr(10)
  {
    Paginate(run, "users", options, "", [])
  }

  /** `UserService.findAll` filters nothing: both queries read all of `users`
      with no WHERE, the count binds no values, the data query binds only the
      limit and offset, and every placeholder is bound. */
  lemma UserFindAllUnfiltered(options: QueryOptions)
    ensures var plan := PaginatePlan("users", options, "", []);
      && plan.data.source == Named("users") && plan.count.source == Named("users")
      && plan.data.condition == None && plan.count.condition == None
      && plan.countParams == [] && |plan.dataParams| == 2
      && plan.dataParams[0].SqlText? && ParseInt(plan.dataParams[0].s) == Some(plan.limit)
      && plan.dataParams[1].SqlText? && ParseInt(plan.dataParams[1].s) == Some(plan.offset)
      && SelectPlaceholders(plan.data) == |plan.dataParams|
      && SelectPlaceholders(plan.count) == |plan.countParams|
  {
    PlanPageBindings(AllColumns, Named("users"), Named("users"), "created_at", options, "", []);
  }

  // ---------------------------------------------------------------------------
  // Writes: the statements the entity services send, and their effect
  // ---------------------------------------------------------------------------

  /** `categoryId || null`: an absent or zero category id is bound as NULL. */
  function CategoryIdOrNull(categoryId: Option<int>): (v: SqlValue)
    ensures v == SqlNull <==> !FiltersByCategory(categoryId)
    ensures v != SqlNull ==> v == SqlInt(categoryId.value)
  {
    if FiltersByCategory(categoryId) then SqlInt(categoryId.value) else SqlNull
  }

  /** `description || null`: an absent or empty description is bound as NULL. */
  function DescriptionOrNull(description: Option<string>): (v: SqlValue)
    ensures v == SqlNull <==> description.None? || description.value == ""
    ensures v != SqlNull ==> v == SqlText(description.value)
  {
    if description.Some? && description.value != "" then SqlText(description.value) else SqlNull
  }

  /** A write statement with the values bound to its placeholders. */
  datatype Command = Command(statement: Statement, params: seq<SqlValue>)

  const UserColumns: seq<string> := ["username", "email"]
  const ProductColumns: seq<string> := ["name", "description", "price", "stock", "category_id"]
  const CategoryColumns: seq<string> := ["name", "description"]

  function UserValues(username: string, email: string): seq<SqlValue> {
    [SqlText(username), SqlText(email)]
  }

  /** The product's description is bound as given; only the category id becomes
      NULL when falsy. */
  function ProductValues(name: string, description: string, price: real, stock: int, categoryId: Option<int>): seq<SqlValue> {
    [SqlText(name), SqlText(description), SqlReal(price), SqlInt(stock), CategoryIdOrNull(categoryId)]
  }

  function CategoryValues(name: string, description: Option<string>): seq<SqlValue> {
    [SqlText(name), DescriptionOrNull(description)]
  }

  /** `UserService.create`. */
  function UserCreate(username: string, email: string): Command {
    Command(InsertInto(Users, UserColumns), UserValues(username, email))
  }

  /** `UserService.update`. */
  function UserUpdate(id: int, username: string, email: string): Command {
    Command(UpdateById(Users, UserColumns), UserValues(username, email) + [SqlInt(id)])
  }

  /** `ProductService.create`. */
  function ProductCreate(name: string, description: string, price: real, stock: int, categoryId: Option<int>): Command {
    Command(InsertInto(Products, ProductColumns), ProductValues(name, description, price, stock, categoryId))
  }

  /** `ProductService.update`. */
  function ProductUpdate(id: int, name: string, description: string, price: real, stock: int, categoryId: Option<int>): Command {
    Command(UpdateById(Products, ProductColumns), ProductValues(name, description, price, stock, categoryId) + [SqlInt(id)])
  }

  /** `CategoryService.create`. */
  function CategoryCreate(name: string, description: Option<string>): Command {
    Command(InsertInto(Categories, CategoryColumns), CategoryValues(name, description))
  }

  /** `CategoryService.update`. */
  function CategoryUpdate(id: int, name: string, description: Option<string>): Command {
    Command(UpdateById(Categories, CategoryColumns), CategoryValues(name, description) + [SqlInt(id)])
  }

  /** `UserService.delete`, `ProductService.delete`, `CategoryService.delete`. */
  function DeleteCommand(t: Table, id: int): Command {
    Command(DeleteById(t), [SqlInt(id)])
  }

  /** Every write binds exactly as many values as its statement has `?`
      placeholders. An update names the same columns as the matching create and
      binds the id last; that its other values equal the create's holds by
      construction, since both are built from the same `*Values` list. */
  lemma WriteBindings(id: int, username: string, email: string, name: string, description: string,
                      price: real, stock: int, categoryId: Option<int>, categoryDescription: Option<string>, t: Table)
    ensures var c := UserCreate(username, email); var u := UserUpdate(id, username, email);
      && u.statement.columns == c.statement.columns && u.params == c.params + [SqlInt(id)]
      && StatementPlaceholders(c.statement) == |c.params| && StatementPlaceholders(u.statement) == |u.params|
    ensures var c := ProductCreate(name, description, price, stock, categoryId);
      var u := ProductUpdate(id, name, description, price, stock, categoryId);
      && u.statement.columns == c.statement.columns && u.params == c.params + [SqlInt(id)]
      && StatementPlaceholders(c.statement) == |c.params| && StatementPlaceholders(u.statement) == |u.params|
    ensures var c := CategoryCreate(name, categoryDescription); var u := CategoryUpdate(id, name, categoryDescription);
      && u.statement.columns == c.statement.columns && u.params == c.params + [SqlInt(id)]
      && StatementPlaceholders(c.statement) == |c.params| && StatementPlaceholders(u.statement) == |u.params|
    ensures StatementPlaceholders(DeleteCommand(t, id).statement) == |DeleteCommand(t, id).params|
  {
  }

  /** The row a user's values describe. */
  function UserRow(username: string, email: string): Row {
    map["username" := SqlText(username), "email" := SqlText(email)]
  }

  function ProductRow(name: string, description: string, price: real, stock: int, categoryId: Option<int>): Row {
    map["name" := SqlText(name), "description" := SqlText(description), "price" := SqlReal(price),
        "stock" := SqlInt(stock), "category_id" := CategoryIdOrNull(categoryId)]
  }

  function CategoryRow(name: string, description: Option<string>): Row {
    map["name" := SqlText(name), "description" := DescriptionOrNull(description)]
  }

  /** Binding the values to the columns, in order, writes each value to the column
      it is meant for. */
  lemma UserRowBinding(username: string, email: string)
    ensures Assign(map[], UserColumns, UserValues(username, email)) == UserRow(username, email)
  {
    var c := UserColumns;
    var v := UserValues(username, email);
    var a0 := Assign(map[], c[..1][..0], v[..1][..0]);
    var a1 := Assign(map[], c[..1], v[..1]);
    assert a0 == map[];
    assert a1 == a0["username" := v[0]];
    assert Assign(map[], c, v) == a1["email" := v[1]];
  }

  lemma CategoryRowBinding(name: string, description: Option<string>)
    ensures Assign(map[], CategoryColumns, CategoryValues(name, description)) == CategoryRow(name, description)
  {
    var c := CategoryColumns;
    var v := CategoryValues(name, description);
    var a0 := Assign(map[], c[..1][..0], v[..1][..0]);
    var a1 := Assign(map[], c[..1], v[..1]);
    assert a0 == map[];
    assert a1 == a0["name" := v[0]];
    assert Assign(map[], c, v) == a1["description" := v[1]];
  }

  lemma ProductRowBinding(name: string, description: string, price: real, stock: int, categoryId: Option<int>)
    ensures Assign(map[], ProductColumns, ProductValues(name, description, price, stock, categoryId))
         == ProductRow(name, description, price, stock, categoryId)
  {
    var c := ProductColumns;
    var v := ProductValues(name, description, price, stock, categoryId);
    var a0 := Assign(map[], c[..0], v[..0]);
    var a1 := Assign(map[], c[..1], v[..1]);
    var a2 := Assign(map[], c[..2], v[..2]);
    var a3 := Assign(map[], c[..3], v[..3]);
    var a4 := Assign(map[], c[..4], v[..4]);
    assert a0 == map[];
    assert c[..1][..0] == c[..0] && v[..1][..0] == v[..0];
    assert a1 == a0["name" := v[0]];
    assert c[..2][..1] == c[..1] && v[..2][..1] == v[..1];
    assert a2 == a1["description" := v[1]];
    assert c[..3][..2] == c[..2] && v[..3][..2] == v[..2];
    assert a3 == a2["price" := v[2]];
    assert c[..4][..3] == c[..3] && v[..4][..3] == v[..3];
    assert a4 == a3["stock" := v[3]];
    assert c[..4] == c[..|c| - 1] && v[..4] == v[..|v| - 1];
    assert Assign(map[], c, v) == a4["category_id" := v[4]];
  }

  /** `UserService.create`: inserts the user and returns its new id; fails when the
      username or the e-mail is already taken. */
  method CreateUser(db: Database, username: string, email: string) returns (r: Result<int, string>)
    requires db.Valid()
    modifies db
    ensures db.Valid()
    ensures r.Success? <==> old(FreeOf(db.rows[Users], UserRow(username, email), UniqueColumns(Users)))
    ensures r.Success? ==>
      r.value !in old(db.rows[Users])
      && db.rows == old(db.rows[Users := db.rows[Users][r.value := UserRow(username, email)]])
    ensures r.Failure? ==> r.error == InsertFailed && db.rows == old(db.rows)
  {
    var c := UserCreate(username, email);
    UserRowBinding(username, email);
    assert db.nextId[Users] !in db.rows[Users];
    r := db.Insert(c.statement, c.params);
  }

  /** `UserService.update`: overwrites the user's username and e-mail and returns
      the number of affected rows, 0 for an unknown id; fails when the new username
      or e-mail belongs to another user. */
  method UpdateUser(db: Database, id: int, username: string, email: string) returns (r: Result<int, string>)
    requires db.Valid()
    modifies db
    ensures db.Valid()
    ensures id !in old(db.rows[Users]) ==> r == Success(0) && db.rows == old(db.rows)
    ensures id in old(db.rows[Users]) ==>
      var row := old(db.rows[Users][id]) + UserRow(username, email);
      if old(FreeOf(db.rows[Users] - {id}, row, UniqueColumns(Users)))
      then r == Success(1) && db.rows == old(db.rows[Users := db.rows[Users][id := row]])
      else r == Failure(UpdateFailed) && db.rows == old(db.rows)
  {
    var c := UserUpdate(id, username, email);
    UserRowBinding(username, email);
    if id in db.rows[Users] {
      AssignMerge(db.rows[Users][id], UserColumns, UserValues(username, email));
    }
    assert c.params[|UserColumns|] == SqlInt(id) && c.params[..|UserColumns|] == UserValues(username, email);
    r := db.Update(c.statement, c.params);
  }

  /** `ProductService.create`: inserts the product and returns its new id; a falsy
      category id is stored as NULL, and a category id naming no category fails
      the insert. */
  method CreateProduct(db: Database, name: string, description: string, price: real, stock: int, categoryId: Option<int>)
    returns (r: Result<int, string>)
    requires db.Valid()
    modifies db
    ensures db.Valid()
    ensures r.Success? <==> !FiltersByCategory(categoryId) || categoryId.value in old(db.rows[Categories])
    ensures r.Success? ==>
      r.value !in old(db.rows[Products])
      && db.rows == old(db.rows[Products := db.rows[Products][r.value := ProductRow(name, description, price, stock, categoryId)]])
    ensures r.Failure? ==> r.error == InsertFailed && db.rows == old(db.rows)
  {
    var c := ProductCreate(name, description, price, stock, categoryId);
    ProductRowBinding(name, description, price, stock, categoryId);
    assert db.nextId[Products] !in db.rows[Products];
    r := db.Insert(c.statement, c.params);
  }

  /** `ProductService.update`: overwrites the product's five fields and returns the
      number of affected rows, 0 for an unknown id; a falsy category id is stored
      as NULL, and one naming no category fails the update. */
  method UpdateProduct(db: Database, id: int, name: string, description: string, price: real, stock: int, categoryId: Option<int>)
    returns (r: Result<int, string>)
    requires db.Valid()
    modifies db
    ensures db.Valid()
    ensures id !in old(db.rows[Products]) ==> r == Success(0) && db.rows == old(db.rows)
    ensures id in old(db.rows[Products]) ==>
      var row := old(db.rows[Products][id]) + ProductRow(name, description, price, stock, categoryId);
      if !FiltersByCategory(categoryId) || categoryId.value in old(db.rows[Categories])
      then r == Success(1) && db.rows == old(db.rows[Products := db.rows[Products][id := row]])
      else r == Failure(UpdateFailed) && db.rows == old(db.rows)
  {
    var c := ProductUpdate(id, name, description, price, stock, categoryId);
    var values := ProductValues(name, description, price, stock, categoryId);
    ProductRowBinding(name, description, price, stock, categoryId);
    if id in db.rows[Products] {
      AssignMerge(db.rows[Products][id], ProductColumns, values);
    }
    assert c.params[|ProductColumns|] == SqlInt(id) && c.params[..|ProductColumns|] == values;
    r := db.Update(c.statement, c.params);
  }

  /** `CategoryService.create`: inserts the category and returns its new id; an
      absent or empty description is stored as NULL; fails when the name is taken. */
  method CreateCategory(db: Database, name: string, description: Option<string>) returns (r: Result<int, string>)
    requires db.Valid()
    modifies db
    ensures db.Valid()
    ensures r.Success? <==> old(FreeOf(db.rows[Categories], CategoryRow(name, description), UniqueColumns(Categories)))
    ensures r.Success? ==>
      r.value !in old(db.rows[Categories])
      && db.rows == old(db.rows[Categories := db.rows[Categories][r.value := CategoryRow(name, description)]])
    ensures r.Failure? ==> r.error == InsertFailed && db.rows == old(db.rows)
  {
    var c := CategoryCreate(name, description);
    CategoryRowBinding(name, description);
    assert db.nextId[Categories] !in db.rows[Categories];
    r := db.Insert(c.statement, c.params);
  }

  /** `CategoryService.update`: overwrites the category's name and description and
      returns the number of affected rows, 0 for an unknown id; fails when another
      category has the new name. */
  method UpdateCategory(db: Database, id: int, name: string, description: Option<string>) returns (r: Result<int, string>)
    requires db.Valid()
    modifies db
    ensures db.Valid()
    ensures id !in old(db.rows[Categories]) ==> r == Success(0) && db.rows == old(db.rows)
    ensures id in old(db.rows[Categories]) ==>
      var row := old(db.rows[Categories][id]) + CategoryRow(name, description);
      if old(FreeOf(db.rows[Categories] - {id}, row, UniqueColumns(Categories)))
      then r == Success(1) && db.rows == old(db.rows[Categories := db.rows[Categories][id := row]])
      else r == Failure(UpdateFailed) && db.rows == old(db.rows)
  {
    var c := CategoryUpdate(id, name, description);
    CategoryRowBinding(name, description);
    if id in db.rows[Categories] {
      AssignMerge(db.rows[Categories][id], CategoryColumns, CategoryValues(name, description));
    }
    assert c.params[|CategoryColumns|] == SqlInt(id) && c.params[..|CategoryColumns|] == CategoryValues(name, description);
    r := db.Update(c.statement, c.params);
  }

  /** `UserService.delete`, `ProductService.delete` and `CategoryService.delete`:
      removes the row and returns the number of affected rows, 0 for an unknown id;
      products of a deleted category lose their category. */
  method Remove(db: Database, t: Table, id: int) returns (r: Result<int, string>)
    requires db.Valid()
    modifies db
    ensures db.Valid()
    ensures r == Success(if id in old(db.rows[t]) then 1 else 0)
    ensures id !in old(db.rows[t]) ==> db.rows == old(db.rows)
    ensures id in old(db.rows[t]) ==> db.rows == Deleted(old(db.rows), t, id) && id !in db.rows[t]
  {
    var c := DeleteCommand(t, id);
    r := db.Delete(c.statement, c.params);
  }
}
