/**
 * The SQLite database as `init` sees it: named tables, each an ordered column list
 * (name and DEFAULT) and a sequence of rows. Statements are values executed by `Exec`;
 * a statement SQLite would reject yields `None`.
 */
module SqlStore {
  import opened JsValues

  /** A stored SQL value. */
  datatype Sql = SqlNull | SqlInt(i: int) | SqlReal(r: real) | SqlText(t: string)

  /** A column: its name and the value it takes when an INSERT or ADD COLUMN gives none. */
  datatype Column = Column(name: string, default: Sql)

  type Row = map<string, Sql>

  datatype Table = Table(columns: seq<Column>, rows: seq<Row>)

  type Store = map<string, Table>

  /** The statements `init` runs. */
  datatype Stmt =
    | CreateTable(table: string, columns: seq<Column>)        // CREATE TABLE IF NOT EXISTS
    | AddColumn(table: string, column: Column)                 // ALTER TABLE ... ADD COLUMN
    | Insert(table: string, values: map<string, Sql>)          // INSERT INTO ... VALUES
    | SetWhereNull(table: string, nullable: string, value: Sql)  // UPDATE ... SET c = v WHERE c IS NULL
    | Promote(table: string, email: string)                    // UPDATE ... SET admin_level, is_active WHERE email = ?

  function ColumnNames(columns: seq<Column>): (r: seq<string>)
    ensures |r| == |columns|
    ensures forall i | 0 <= i < |columns| :: r[i] == columns[i].name
  {
    if columns == [] then [] else [columns[0].name] + ColumnNames(columns[1..])
  }

  /** `PRAGMA table_info(t)` as the list of column names; empty for a table that does not exist. */
  function TableInfo(s: Store, table: string): seq<string>
  {
    if table in s then ColumnNames(s[table].columns) else []
  }

  /** `SELECT COUNT(1) as cnt FROM t`. */
  function RowCount(s: Store, table: string): nat
  {
    if table in s then |s[table].rows| else 0
  }

  /** The row an INSERT stores: the given value for each named column, the column's default for the rest. */
  function RowOf(columns: seq<Column>, values: map<string, Sql>): (r: Row)
    ensures forall c | c in ColumnNames(columns) :: c in r
    ensures forall c | c in r :: c in ColumnNames(columns)
    ensures forall c | c in r && c in values :: r[c] == values[c]
  {
    if columns == [] then map[]
    else
      var c := columns[0];
      RowOf(columns[1..], values)[c.name := if c.name in values then values[c.name] else c.default]
  }

  /** Every row gains `column` with value `v`, as ADD COLUMN does with the column's default. */
  function FillColumn(rows: seq<Row>, column: string, v: Sql): (r: seq<Row>)
    ensures |r| == |rows|
  {
    seq(|rows|, i requires 0 <= i < |rows| => rows[i][column := v])
  }

  /** `UPDATE t SET c = v WHERE c IS NULL`: a missing value counts as NULL. */
  function SetNulls(rows: seq<Row>, column: string, v: Sql): (r: seq<Row>)
    ensures |r| == |rows|
  {
    seq(|rows|, i requires 0 <= i < |rows| =>
      if column !in rows[i] || rows[i][column] == SqlNull then rows[i][column := v] else rows[i])
  }

  predicate HasEmail(row: Row, email: string)
  {
    "email" in row && row["email"] == SqlText(email)
  }

  /** The columns the promoting UPDATE names. */
  const PromoteColumns: set<string> := {"admin_level", "is_active", "email"}

  /** `UPDATE users SET admin_level = 'super_admin', is_active = 1 WHERE email = ?`. */
  function PromoteRows(rows: seq<Row>, email: string): (r: seq<Row>)
    ensures |r| == |rows|
  {
    seq(|rows|, i requires 0 <= i < |rows| =>
      if HasEmail(rows[i], email) then rows[i]["admin_level" := SqlText("super_admin")]["is_active" := SqlInt(1)] else rows[i])
  }

  /** `SELECT * FROM t WHERE email = ?` through `get`: the first matching row, if any. */
  function FindByEmail(rows: seq<Row>, email: string): (r: Option<Row>)
    ensures r.Some? <==> exists i | 0 <= i < |rows| :: HasEmail(rows[i], email)
    ensures r.Some? ==> r.value in rows && HasEmail(r.value, email)
  {
    if rows == [] then None
    else if HasEmail(rows[0], email) then Some(rows[0])
    else
      var rest := FindByEmail(rows[1..], email);
      assert (exists i | 0 <= i < |rows| :: HasEmail(rows[i], email)) ==> exists i | 0 <= i < |rows[1..]| :: HasEmail(rows[1..][i], email) by {
        if exists i | 0 <= i < |rows| :: HasEmail(rows[i], email) {
          var i :| 0 <= i < |rows| && HasEmail(rows[i], email);
          assert rows[1..][i - 1] == rows[i];
        }
      }
      rest
  }

  /** Every name in `names` is a column of table `t`. */
  predicate HasColumns(s: Store, t: string, names: set<string>)
  {
    t in s && forall c | c in names :: c in ColumnNames(s[t].columns)
  }

  /** The promoting UPDATE leaves the first user with the email first, now promoted. */
  lemma {:induction false} FindPromoted(rows: seq<Row>, email: string)
    requires FindByEmail(rows, email).Some?
    ensures var row := FindByEmail(rows, email).value;
      FindByEmail(PromoteRows(rows, email), email) == Some(row["admin_level" := SqlText("super_admin")]["is_active" := SqlInt(1)])
  {
    if !HasEmail(rows[0], email) {
      FindPromoted(rows[1..], email);
      assert PromoteRows(rows, email)[1..] == PromoteRows(rows[1..], email);
    }
  }

  /** A row appended after rows none of which has the email is the one found. */
  lemma {:induction false} FindAppended(rows: seq<Row>, row: Row, email: string)
    requires FindByEmail(rows, email).None? && HasEmail(row, email)
    ensures FindByEmail(rows + [row], email) == Some(row)
  {
    if rows != [] {
      FindAppended(rows[1..], row, email);
      assert (rows + [row])[1..] == rows[1..] + [row];
    }
  }

  /**
   * One statement. CREATE TABLE IF NOT EXISTS leaves an existing table alone. ADD COLUMN fails on a
   * missing table or a column already present, and fills existing rows with the default. The other
   * statements fail on a missing table or on a column the table does not have.
   */
  function Exec(s: Store, stmt: Stmt): (r: Option<Store>)
    ensures stmt.CreateTable? ==> r.Some? && (stmt.table in s ==> r.value == s)
    ensures stmt.AddColumn? ==> (r.Some? <==> stmt.table in s && stmt.column.name !in TableInfo(s, stmt.table))
    ensures stmt.Insert? ==> (r.Some? <==> HasColumns(s, stmt.table, stmt.values.Keys))
    ensures stmt.SetWhereNull? ==> (r.Some? <==> HasColumns(s, stmt.table, {stmt.nullable}))
    ensures stmt.Promote? ==> (r.Some? <==> HasColumns(s, stmt.table, PromoteColumns))
  {
    match stmt
    case CreateTable(t, cols) =>
      if t in s then Some(s) else Some(s[t := Table(cols, [])])
    case AddColumn(t, c) =>
      if t !in s || c.name in ColumnNames(s[t].columns) then None
      else Some(s[t := Table(s[t].columns + [c], FillColumn(s[t].rows, c.name, c.default))])
    case Insert(t, values) =>
      if !HasColumns(s, t, values.Keys) then None
      else Some(s[t := Table(s[t].columns, s[t].rows + [RowOf(s[t].columns, values)])])
    case SetWhereNull(t, c, v) =>
      if !HasColumns(s, t, {c}) then None
      else Some(s[t := Table(s[t].columns, SetNulls(s[t].rows, c, v))])
    case Promote(t, email) =>
      if !HasColumns(s, t, PromoteColumns) then None
      else Some(s[t := Table(s[t].columns, PromoteRows(s[t].rows, email))])
  }

  /** A statement touches only its own table, and creates no table but its own. */
  lemma ExecFrame(s: Store, stmt: Stmt)
    ensures var r := Apply(s, stmt);
      && r.Keys == (if Exec(s, stmt).Some? then s.Keys + {stmt.table} else s.Keys)
      && forall t | t in s && t != stmt.table :: r[t] == s[t]
  {
  }

  /** A statement whose failure would end `init`: the store after it, or as it was when it fails. */
  function Apply(s: Store, stmt: Stmt): Store
  {
    match Exec(s, stmt)
    case Some(s') => s'
    case None => s
  }

  /** What `get('SELECT * FROM t WHERE email = ?')` yields: an error, no row, or the first matching row. */
  datatype Lookup = Failed | NotFound | Found(row: Row)

  function SelectByEmail(s: Store, t: string, email: string): (r: Lookup)
    ensures r.Failed? <==> !HasColumns(s, t, {"email"})
    ensures r.NotFound? ==> forall i | 0 <= i < |s[t].rows| :: !HasEmail(s[t].rows[i], email)
    ensures r.Found? ==> r.row in s[t].rows && HasEmail(r.row, email)
  {
    if !HasColumns(s, t, {"email"}) then Failed
    else match FindByEmail(s[t].rows, email)
      case None => NotFound
      case Some(row) => Found(row)
  }

  /** `s'` still has every table of `s`, every column in its old place, and at least as many rows. */
  predicate Keeps(s: Store, s': Store)
  {
    forall t | t in s :: t in s' && TableInfo(s, t) <= TableInfo(s', t) && RowCount(s, t) <= RowCount(s', t)
  }

  lemma KeepsColumn(s: Store, s': Store, t: string, c: string)
    requires Keeps(s, s') && c in TableInfo(s, t)
    ensures c in TableInfo(s', t)
  {
    var i :| 0 <= i < |TableInfo(s, t)| && TableInfo(s, t)[i] == c;
    assert TableInfo(s', t)[i] == c;
  }

  lemma KeepsTrans(s: Store, s': Store, s'': Store)
    requires Keeps(s, s') && Keeps(s', s'')
    ensures Keeps(s, s'')
  {
    forall t | t in s
      ensures t in s'' && TableInfo(s, t) <= TableInfo(s'', t) && RowCount(s, t) <= RowCount(s'', t)
    {
      assert TableInfo(s, t) <= TableInfo(s', t) <= TableInfo(s'', t);
    }
  }

  /** No statement drops a table, a column or a row. */
  lemma ExecKeeps(s: Store, stmt: Stmt)
    ensures Keeps(s, Apply(s, stmt))
  {
    var r := Apply(s, stmt);
    forall u | u in s
      ensures u in r && TableInfo(s, u) <= TableInfo(r, u) && RowCount(s, u) <= RowCount(r, u)
    {
      if u == stmt.table && Exec(s, stmt).Some? && stmt.AddColumn? {
        var cols := s[u].columns;
        assert ColumnNames(cols + [stmt.column]) == ColumnNames(cols) + [stmt.column.name];
      }
    }
  }

  /** ADD COLUMN keeps every row and every earlier column, and appends the new column. */
  lemma AddColumnShape(s: Store, t: string, c: Column)
    requires t in s && c.name !in TableInfo(s, t)
    ensures TableInfo(Exec(s, AddColumn(t, c)).value, t) == TableInfo(s, t) + [c.name]
    ensures RowCount(Exec(s, AddColumn(t, c)).value, t) == RowCount(s, t)
    ensures forall i | 0 <= i < RowCount(s, t) :: Exec(s, AddColumn(t, c)).value[t].rows[i][c.name] == c.default
  {
    var cols := s[t].columns + [c];
    assert ColumnNames(cols) == ColumnNames(s[t].columns) + [c.name];
  }

  /**
   * An INSERT naming only existing columns appends exactly one row to its table, the values completed
   * with the column defaults, and leaves the columns and every other table alone.
   */
  lemma InsertAddsOneRow(s: Store, t: string, values: map<string, Sql>)
    requires HasColumns(s, t, values.Keys)
    ensures var r := Apply(s, Insert(t, values));
      && r.Keys == s.Keys
      && r[t].columns == s[t].columns
      && r[t].rows == s[t].rows + [RowOf(s[t].columns, values)]
      && forall u | u in s && u != t :: r[u] == s[u]
  {
  }

  /** The database the application talks to through `run`, `get` and `all`. */
  class Database {
    var tables: Store

    constructor (tables: Store)
      ensures this.tables == tables
    {
      this.tables := tables;
    }

    /** `await run(sql, params)`: reports whether SQLite accepted the statement; a rejected one changes nothing. */
    method Run(stmt: Stmt) returns (ok: bool)
      modifies this
      ensures ok <==> Exec(old(tables), stmt).Some?
      ensures tables == Apply(old(tables), stmt)
    {
      var r := Exec(tables, stmt);
      match r
      case Some(s) =>
        tables := s;
        ok := true;
      case None =>
        ok := false;
    }
  }
}
