/** The three MySQL tables the services write (`users`, `categories`, `products`),
    held in memory, and what the driver's `execute` does to them for the INSERT,
    UPDATE and DELETE statements the services send: the new row's AUTO_INCREMENT id,
    the number of affected rows, and the failures the schema's UNIQUE and FOREIGN KEY
    constraints cause. */
module Tables {
  import opened Wrappers
  import opened Sql

  const InsertFailed := "数据库插入失败"
  const UpdateFailed := "数据库更新失败"
  const DeleteFailed := "数据库删除失败"

  /** The columns the schema declares UNIQUE. */
  function UniqueColumns(t: Table): seq<string> {
    match t
    case Users => ["username", "email"]
    case Categories => ["name"]
    case Products => []
  }

  /** `row` with each `columns[k]` set to `values[k]`, left to right, so a column
      named twice keeps its last value. */
  function Assign(row: Row, columns: seq<string>, values: seq<SqlValue>): Row
    requires |columns| == |values|
  {
    if columns == [] then row
    else
      var n := |columns| - 1;
      Assign(row, columns[..n], values[..n])[columns[n] := values[n]]
  }

  /** Assigning adds exactly the named columns and leaves every other column alone. */
  lemma {:induction false} AssignKeeps(row: Row, columns: seq<string>, values: seq<SqlValue>)
    requires |columns| == |values|
    ensures forall c :: c in Assign(row, columns, values) <==> c in row || c in columns
    ensures forall c | c in row && c !in columns :: Assign(row, columns, values)[c] == row[c]
  {
    if columns != [] {
      var n := |columns| - 1;
      AssignKeeps(row, columns[..n], values[..n]);
      assert forall c :: c in columns <==> c in columns[..n] || c == columns[n];
    }
  }

  /** A column gets the value bound at its last occurrence. */
  lemma {:induction false} AssignBinds(row: Row, columns: seq<string>, values: seq<SqlValue>, k: int)
    requires |columns| == |values|
    requires 0 <= k < |columns| && columns[k] !in columns[k + 1..]
    ensures columns[k] in Assign(row, columns, values)
    ensures Assign(row, columns, values)[columns[k]] == values[k]
  {
    var n := |columns| - 1;
    if k < n {
      assert columns[n] in columns[k + 1..];
      assert columns[..n][k + 1..] == columns[k + 1..n];
      AssignBinds(row, columns[..n], values[..n], k);
    }
  }

  /** Assigning to a row is overwriting it with the row the assignments alone
      build. */
  lemma {:induction false} AssignMerge(row: Row, columns: seq<string>, values: seq<SqlValue>)
    requires |columns| == |values|
    ensures Assign(row, columns, values) == row + Assign(map[], columns, values)
  {
    if columns != [] {
      var n := |columns| - 1;
      AssignMerge(row, columns[..n], values[..n]);
    }
  }

  /** No two rows of `table` share a value in any of `columns`. */
  ghost predicate UniqueHolds(table: map<int, Row>, columns: seq<string>) {
    forall i, j, c | i in table && j in table && i != j && c in columns && c in table[i] && c in table[j] ::
      table[i][c] != table[j][c]
  }

  /** `row` shares no value in `columns` with any row of `table`. */
  predicate FreeOf(table: map<int, Row>, row: Row, columns: seq<string>) {
    forall j, c | j in table && c in columns && c in table[j] && c in row :: table[j][c] != row[c]
  }

  /** `category_id` is absent, NULL, or the id of an existing category. */
  predicate ReferenceOk(row: Row, categories: map<int, Row>) {
    "category_id" !in row
    || row["category_id"] == SqlNull
    || (row["category_id"].SqlInt? && row["category_id"].i in categories)
  }

  ghost predicate ReferencesHold(products: map<int, Row>, categories: map<int, Row>) {
    forall id | id in products :: ReferenceOk(products[id], categories)
  }

  /** `row` with a `category_id` equal to `id` set to NULL (`ON DELETE SET NULL`). */
  function Detach(row: Row, id: int): (r: Row)
    ensures r.Keys == row.Keys
  {
    if "category_id" in row && row["category_id"] == SqlInt(id) then row["category_id" := SqlNull] else row
  }

  /** Every table is present with a positive AUTO_INCREMENT counter, and every id
      in use lies below its table's counter. */
  ghost predicate CountersHold(rows: map<Table, map<int, Row>>, nextId: map<Table, int>) {
    && (forall t: Table :: t in rows && t in nextId && 1 <= nextId[t])
    && (forall t, id | t in rows && id in rows[t] :: t in nextId && 1 <= id < nextId[t])
  }

  /** The schema's invariants over the stored rows: counters ahead of the ids in
      use, UNIQUE columns unique, and every product's category existing. */
  ghost predicate Consistent(rows: map<Table, map<int, Row>>, nextId: map<Table, int>) {
    && CountersHold(rows, nextId)
    && (forall t | t in rows :: UniqueHolds(rows[t], UniqueColumns(t)))
    && ReferencesHold(rows[Products], rows[Categories])
  }

  lemma UniqueInsert(table: map<int, Row>, columns: seq<string>, id: int, row: Row)
    requires UniqueHolds(table, columns) && id !in table && FreeOf(table, row, columns)
    ensures UniqueHolds(table[id := row], columns)
  {
    var after := table[id := row];
    forall i, j, c | i in after && j in after && i != j && c in columns && c in after[i] && c in after[j]
      ensures after[i][c] != after[j][c]
    {
      if i != id && j != id {
        assert after[i] == table[i] && after[j] == table[j];
      }
    }
  }

  lemma UniqueReplace(table: map<int, Row>, columns: seq<string>, id: int, row: Row)
    requires UniqueHolds(table, columns) && FreeOf(table - {id}, row, columns)
    ensures UniqueHolds(table[id := row], columns)
  {
    var after := table[id := row];
    forall i, j, c | i in after && j in after && i != j && c in columns && c in after[i] && c in after[j]
      ensures after[i][c] != after[j][c]
    {
      if i != id && j != id {
        assert after[i] == table[i] && after[j] == table[j];
      } else if i == id {
        assert j in table - {id};
      } else {
        assert i in table - {id};
      }
    }
  }

  /** Products keep their references when the categories only grow. */
  lemma ReferencesGrow(products: map<int, Row>, categories: map<int, Row>, more: map<int, Row>)
    requires ReferencesHold(products, categories) && categories.Keys <= more.Keys
    ensures ReferencesHold(products, more)
  {
    forall pid | pid in products ensures ReferenceOk(products[pid], more) {
      assert ReferenceOk(products[pid], categories);
    }
  }

  /** Inserting a row the constraints accept under the next id keeps the tables
      consistent. */
  lemma InsertConsistent(rows: map<Table, map<int, Row>>, nextId: map<Table, int>, t: Table, row: Row)
    requires Consistent(rows, nextId)
    requires FreeOf(rows[t], row, UniqueColumns(t))
    requires t == Products ==> ReferenceOk(row, rows[Categories])
    ensures Consistent(rows[t := rows[t][nextId[t] := row]], nextId[t := nextId[t] + 1])
  {
    var id := nextId[t];
    var after := rows[t := rows[t][id := row]];
    var counters := nextId[t := id + 1];
    forall u, k | u in after && k in after[u] ensures u in counters && 1 <= k < counters[u] {
      if u == t && k != id {
        assert k in rows[t];
      } else if u != t {
        assert k in rows[u];
      }
    }
    UniqueInsert(rows[t], UniqueColumns(t), id, row);
    if t == Categories {
      ReferencesGrow(rows[Products], rows[Categories], after[Categories]);
    } else if t == Products {
      forall pid | pid in after[Products] ensures ReferenceOk(after[Products][pid], after[Categories]) {
        if pid != id {
          assert ReferenceOk(rows[Products][pid], rows[Categories]);
        }
      }
    }
  }

  /** Replacing row `id` with a row the constraints accept keeps the tables
      consistent. */
  lemma UpdateConsistent(rows: map<Table, map<int, Row>>, nextId: map<Table, int>, t: Table, id: int, row: Row)
    requires Consistent(rows, nextId) && id in rows[t]
    requires FreeOf(rows[t] - {id}, row, UniqueColumns(t))
    requires t == Products ==> ReferenceOk(row, rows[Categories])
    ensures Consistent(rows[t := rows[t][id := row]], nextId)
  {
    var after := rows[t := rows[t][id := row]];
    forall u, k | u in after && k in after[u] ensures u in nextId && 1 <= k < nextId[u] {
      if u != t || k != id {
        assert k in rows[u];
      }
    }
    UniqueReplace(rows[t], UniqueColumns(t), id, row);
    if t == Categories {
      ReferencesGrow(rows[Products], rows[Categories], after[Categories]);
    } else if t == Products {
      forall pid | pid in after[Products] ensures ReferenceOk(after[Products][pid], after[Categories]) {
        if pid != id {
          assert ReferenceOk(rows[Products][pid], rows[Categories]);
        }
      }
    }
  }

  /** The tables once row `id` of `t` is gone; deleting a category also sets the
      `category_id` of its products to NULL. */
  ghost function Deleted(rows: map<Table, map<int, Row>>, t: Table, id: int): map<Table, map<int, Row>>
    requires t in rows && Products in rows
  {
    var removed := rows[t := rows[t] - {id}];
    if t == Categories
    then removed[Products := map pid | pid in rows[Products] :: Detach(rows[Products][pid], id)]
    else removed
  }

  /** Deleting a row, with `ON DELETE SET NULL` for a category, keeps the tables
      consistent, and no product refers to a deleted category. */
  lemma {:induction false} DeleteConsistent(rows: map<Table, map<int, Row>>, nextId: map<Table, int>, t: Table, id: int)
    requires Consistent(rows, nextId)
    ensures Consistent(Deleted(rows, t, id), nextId)
    ensures t == Categories ==>
      forall pid | pid in Deleted(rows, t, id)[Products] && "category_id" in Deleted(rows, t, id)[Products][pid] ::
        Deleted(rows, t, id)[Products][pid]["category_id"] != SqlInt(id)
  {
    var after := Deleted(rows, t, id);
    forall u, k | u in after && k in after[u] ensures u in nextId && 1 <= k < nextId[u] {
      assert k in rows[u];
    }
    forall u | u in after ensures UniqueHolds(after[u], UniqueColumns(u)) {
      if u == Products && t == Categories {
        assert UniqueColumns(u) == [];
      } else {
        assert after[u].Keys <= rows[u].Keys;
        forall i | i in after[u] ensures after[u][i] == rows[u][i] {
        }
      }
    }
    forall pid | pid in after[Products] ensures ReferenceOk(after[Products][pid], after[Categories]) {
      assert ReferenceOk(rows[Products][pid], rows[Categories]);
    }
  }

  class Database {
    /** Each table's rows by primary key. */
    var rows: map<Table, map<int, Row>>
    /** Each table's AUTO_INCREMENT counter: the id its next inserted row receives. */
    var nextId: map<Table, int>

    ghost predicate Valid()
      reads this
    {
      Consistent(rows, nextId)
    }

    /** Fresh, empty tables whose counters start at 1. */
    constructor ()
      ensures Valid()
      ensures rows == map[Users := map[], Products := map[], Categories := map[]]
      ensures nextId == map[Users := 1, Products := 1, Categories := 1]
    {
      rows := map[Users := map[], Products := map[], Categories := map[]];
      nextId := map[Users := 1, Products := 1, Categories := 1];
      new;
      forall t: Table ensures t in rows && t in nextId && 1 <= nextId[t] {
        match t
        case Users =>
        case Products =>
        case Categories =>
      }
    }

    /** Whether MySQL accepts `row` in `t` beside the rows of `table`: no UNIQUE
        column clashes with one of them, and a product's category exists. */
    predicate CanHold(t: Table, table: map<int, Row>, row: Row)
      reads this
      requires Valid()
    {
      && FreeOf(table, row, UniqueColumns(t))
      && (t == Products ==> ReferenceOk(row, rows[Categories]))
    }

    /** `DatabaseService.insert`: runs an INSERT and returns the new row's id, or
        fails with the fixed message when the values do not match the placeholders
        or a constraint rejects the row. */
    method Insert(stmt: Statement, params: seq<SqlValue>) returns (r: Result<int, string>)
      requires Valid() && stmt.InsertInto?
      modifies this
      ensures Valid()
      ensures r.Success? <==>
        |params| == |stmt.columns|
        && old(CanHold(stmt.table, rows[stmt.table], Assign(map[], stmt.columns, params)))
      ensures r.Success? ==>
        && r.value == old(nextId[stmt.table])
        && rows == old(rows[stmt.table := rows[stmt.table][nextId[stmt.table] := Assign(map[], stmt.columns, params)]])
        && nextId == old(nextId[stmt.table := nextId[stmt.table] + 1])
      ensures r.Failure? ==> r.error == InsertFailed && rows == old(rows) && nextId == old(nextId)
    {
      var t := stmt.table;
      if |params| == |stmt.columns| && CanHold(t, rows[t], Assign(map[], stmt.columns, params)) {
        var row := Assign(map[], stmt.columns, params);
        var id := nextId[t];
        InsertConsistent(rows, nextId, t, row);
        rows := rows[t := rows[t][id := row]];
        nextId := nextId[t := id + 1];
        r := Success(id);
      } else {
        r := Failure(InsertFailed);
      }
    }

    /** The id an UPDATE or DELETE names, when its last bound value is an integer
        key of `t`; no row matches otherwise. */
    ghost function Target(t: Table, key: SqlValue): Option<int>
      reads this
      requires Valid()
    {
      if key.SqlInt? && key.i in rows[t] then Some(key.i) else None
    }

    /** `DatabaseService.update`: runs `UPDATE t SET … WHERE id = ?` and returns the
        number of affected rows, 1 when the id names a row and 0 otherwise; fails with
        the fixed message when the values do not match the placeholders or the new
        row breaks a constraint. */
    method Update(stmt: Statement, params: seq<SqlValue>) returns (r: Result<int, string>)
      requires Valid() && stmt.UpdateById?
      modifies this
      ensures Valid() && nextId == old(nextId)
      ensures |params| != |stmt.columns| + 1 ==> r == Failure(UpdateFailed) && rows == old(rows)
      ensures |params| == |stmt.columns| + 1 ==>
        var t := stmt.table;
        var n := |stmt.columns|;
        match old(Target(t, params[n]))
        case None => r == Success(0) && rows == old(rows)
        case Some(id) =>
          var row := Assign(old(rows[t][id]), stmt.columns, params[..n]);
          if old(CanHold(t, rows[t] - {id}, row))
          then r == Success(1) && rows == old(rows[t := rows[t][id := row]])
          else r == Failure(UpdateFailed) && rows == old(rows)
    {
      var t := stmt.table;
      var n := |stmt.columns|;
      if |params| != n + 1 {
        return Failure(UpdateFailed);
      }
      var key := params[n];
      if !(key.SqlInt? && key.i in rows[t]) {
        return Success(0);
      }
      var id := key.i;
      var row := Assign(rows[t][id], stmt.columns, params[..n]);
      if !CanHold(t, rows[t] - {id}, row) {
        return Failure(UpdateFailed);
      }
      UpdateConsistent(rows, nextId, t, id, row);
      rows := rows[t := rows[t][id := row]];
      r := Success(1);
    }

    /** `DatabaseService.delete`: runs `DELETE FROM t WHERE id = ?` and returns the
        number of affected rows; fails with the fixed message when the values do not
        match the placeholder. Deleting a category leaves no product pointing at it. */
    method Delete(stmt: Statement, params: seq<SqlValue>) returns (r: Result<int, string>)
      requires Valid() && stmt.DeleteById?
      modifies this
      ensures Valid() && nextId == old(nextId)
      ensures |params| != 1 ==> r == Failure(DeleteFailed) && rows == old(rows)
      ensures |params| == 1 ==>
        match old(Target(stmt.table, params[0]))
        case None => r == Success(0) && rows == old(rows)
        case Some(id) => r == Success(1) && rows == Deleted(old(rows), stmt.table, id)
      ensures stmt.table == Categories && r == Success(1) ==>
        forall pid | pid in rows[Products] && "category_id" in rows[Products][pid] ::
          rows[Products][pid]["category_id"] != params[0]
    {
      var t := stmt.table;
      if |params| != 1 {
        return Failure(DeleteFailed);
      }
      var key := params[0];
      if !(key.SqlInt? && key.i in rows[t]) {
        return Success(0);
      }
      var id := key.i;
      DeleteConsistent(rows, nextId, t, id);
      rows := rows[t := rows[t] - {id}];
      if t == Categories {
        rows := rows[Products := map pid | pid in rows[Products] :: Detach(rows[Products][pid], id)];
      }
      r := Success(1);
    }
  }
}
