/**
 * Tables: the three role lists, their views filtered by visibility
 * (Table.get_columns), and how the rows of one sheet are bucketed into
 * PK, FK and plain columns (the body of the sheet loop of import_from_xlsx).
 */
module Tables {
  import opened Outcomes
  import opened Text
  import opened Columns

  /** The role lists of a table, as get_columns names them. */
  datatype Role = ColumnsPK | ColumnsFK | ColumnsArgs

  datatype Table = Table(
    name: string,
    columnsPK: seq<Column>,
    columnsFK: seq<Column>,
    columnsArgs: seq<Column>,
    tableType: string)

  /** One spreadsheet row; a missing `pk` or `fk` cell is None. */
  datatype Row = Row(name: string, dataType: string, pk: Option<string>, fk: Option<string>)

  /** `getattr(table, role)`. */
  function RoleColumns(t: Table, role: Role): seq<Column> {
    match role
    case ColumnsPK => t.columnsPK
    case ColumnsFK => t.columnsFK
    case ColumnsArgs => t.columnsArgs
  }

  /** `r` is `s` with some elements left out, the rest in their order. */
  predicate IsSubsequence<T(==)>(r: seq<T>, s: seq<T>)
    decreases |s|
  {
    if r == [] then true
    else if s == [] then false
    else if r[0] == s[0] then IsSubsequence(r[1..], s[1..])
    else IsSubsequence(r, s[1..])
  }

  /** The columns of `cols` that are not hidden at `level`, in their order. */
  function Visible(cols: seq<Column>, level: ERType): (r: seq<Column>)
    ensures forall c :: c in r <==> c in cols && !IsHidden(c, level)
    decreases |cols|
  {
    if cols == [] then []
    else
      var rest := Visible(cols[1..], level);
      assert cols == [cols[0]] + cols[1..];
      if IsHidden(cols[0], level) then rest else [cols[0]] + rest
  }

  /** A shown column occurs in the view as often as in the list. */
  lemma {:induction false} VisibleCounts(cols: seq<Column>, level: ERType)
    ensures forall c | !IsHidden(c, level) :: multiset(Visible(cols, level))[c] == multiset(cols)[c]
    decreases |cols|
  {
    if cols != [] {
      VisibleCounts(cols[1..], level);
      assert cols == [cols[0]] + cols[1..];
      assert multiset(cols) == multiset{cols[0]} + multiset(cols[1..]);
      var rest := Visible(cols[1..], level);
      assert multiset([cols[0]] + rest) == multiset{cols[0]} + multiset(rest);
    }
  }

  /** The view keeps the columns in their order. */
  lemma {:induction false} VisibleInOrder(cols: seq<Column>, level: ERType)
    ensures IsSubsequence(Visible(cols, level), cols)
    decreases |cols|
  {
    if cols != [] {
      VisibleInOrder(cols[1..], level);
      var rest := Visible(cols[1..], level);
      if IsHidden(cols[0], level) {
        assert rest != [] ==> rest[0] in cols[1..];
        assert rest != [] ==> rest[0] != cols[0];
      }
    }
  }

  /** Table.get_columns: the columns of one role that are shown at `level`, in their order. */
  function GetColumns(t: Table, role: Role, level: ERType): (r: seq<Column>)
    ensures forall c :: c in r <==> c in RoleColumns(t, role) && !IsHidden(c, level)
    ensures forall c | c in RoleColumns(t, role) && !IsHidden(c, level) :: multiset(r)[c] == multiset(RoleColumns(t, role))[c]
    ensures IsSubsequence(r, RoleColumns(t, role))
  {
    VisibleCounts(RoleColumns(t, role), level);
    VisibleInOrder(RoleColumns(t, role), level);
    Visible(RoleColumns(t, role), level)
  }

  /** The conceptual view keeps every column. */
  lemma {:induction false} ConceptualKeepsAll(cols: seq<Column>)
    ensures Visible(cols, Conceptual) == cols
    decreases |cols|
  {
    if cols != [] {
      ConceptualKeepsAll(cols[1..]);
    }
  }

  /** Filtering the physical view for the logical level gives the logical view. */
  lemma {:induction false} LogicalWithinPhysical(cols: seq<Column>)
    ensures Visible(Visible(cols, Physical), Logical) == Visible(cols, Logical)
    decreases |cols|
  {
    if cols != [] {
      LogicalWithinPhysical(cols[1..]);
      HiddenMonotone(cols[0]);
    }
  }

  // ---------------------------------------------------------------------
  // Row bucketing

  /**
   * Which list a row goes to: a `pk` cell makes a PK column; otherwise an
   * `fk` cell starting with "FK " makes an FK column; a row with neither
   * cell is a plain column; a row with an `fk` cell of any other form is in
   * no list (None).
   */
  function BucketOf(row: Row): Option<Role> {
    if row.pk.Some? then Some(ColumnsPK)
    else if row.fk.None? then Some(ColumnsArgs)
    else if StartsWith(row.fk.value, "FK ") then Some(ColumnsFK)
    else None
  }

  /** The rows of one bucket, in sheet order (one of the three `df.loc` selections). */
  function Select(rows: seq<Row>, bucket: Option<Role>): (r: seq<Row>)
    ensures forall row :: row in r <==> row in rows && BucketOf(row) == bucket
    ensures forall i :: 0 <= i < |r| ==> BucketOf(r[i]) == bucket
    ensures |r| <= |rows|
    decreases |rows|
  {
    if rows == [] then []
    else if BucketOf(rows[0]) == bucket then [rows[0]] + Select(rows[1..], bucket)
    else Select(rows[1..], bucket)
  }

  /** A row of the bucket occurs in the selection as often as in the sheet. */
  lemma {:induction false} SelectCounts(rows: seq<Row>, bucket: Option<Role>)
    ensures forall row | BucketOf(row) == bucket :: multiset(Select(rows, bucket))[row] == multiset(rows)[row]
    decreases |rows|
  {
    if rows != [] {
      SelectCounts(rows[1..], bucket);
      assert rows == [rows[0]] + rows[1..];
      assert multiset(rows) == multiset{rows[0]} + multiset(rows[1..]);
      var rest := Select(rows[1..], bucket);
      assert multiset([rows[0]] + rest) == multiset{rows[0]} + multiset(rest);
    }
  }

  /** The selection keeps the rows in sheet order. */
  lemma {:induction false} SelectInOrder(rows: seq<Row>, bucket: Option<Role>)
    ensures IsSubsequence(Select(rows, bucket), rows)
    decreases |rows|
  {
    if rows != [] {
      SelectInOrder(rows[1..], bucket);
      var rest := Select(rows[1..], bucket);
      if BucketOf(rows[0]) != bucket {
        assert rest != [] ==> rest[0] in rows[1..];
        assert rest != [] ==> rest[0] != rows[0];
      }
    }
  }

  /** Every row lands in exactly one of the three lists or in none. */
  lemma {:induction false} BucketsPartitionRows(rows: seq<Row>)
    ensures |Select(rows, Some(ColumnsPK))| + |Select(rows, Some(ColumnsFK))|
          + |Select(rows, Some(ColumnsArgs))| + |Select(rows, None)| == |rows|
    decreases |rows|
  {
    if rows != [] {
      BucketsPartitionRows(rows[1..]);
    }
  }

  /** The column one row of a bucket becomes; a missing `fk` of a PK row reads as "". */
  function RowColumn(tableName: string, row: Row, role: Role): Result<Column, Failure>
    requires BucketOf(row) == Some(role)
  {
    match role
    case ColumnsPK => NewColumnPK(tableName, row.name, row.dataType, if row.fk.Some? then row.fk.value else "")
    case ColumnsFK => NewColumnFK(tableName, row.name, row.dataType, row.fk.value)
    case ColumnsArgs => NewColumn(tableName, row.name, row.dataType)
  }

  /** The list comprehension over one bucket: the first row that raises decides the error. */
  function BuildColumns(tableName: string, rows: seq<Row>, role: Role): (r: Result<seq<Column>, Failure>)
    requires forall i :: 0 <= i < |rows| ==> BucketOf(rows[i]) == Some(role)
    ensures r.Ok? <==> forall i :: 0 <= i < |rows| ==> RowColumn(tableName, rows[i], role).Ok?
    ensures r.Ok? ==> |r.value| == |rows|
    ensures r.Ok? ==> forall i :: 0 <= i < |rows| ==> r.value[i] == RowColumn(tableName, rows[i], role).value
    ensures r.Err? ==> exists i :: (0 <= i < |rows| && RowColumn(tableName, rows[i], role) == Err(r.error)
      && forall j :: 0 <= j < i ==> RowColumn(tableName, rows[j], role).Ok?)
    decreases |rows|
  {
    if rows == [] then Ok([])
    else
      var column :- RowColumn(tableName, rows[0], role);
      var rest :- BuildColumns(tableName, rows[1..], role);
      Ok([column] + rest)
  }

  /** What every table built from a sheet satisfies. */
  predicate WellFormed(t: Table) {
    && (forall c | c in t.columnsPK :: c.tableName == t.name && c.pk)
    && (forall c | c in t.columnsFK :: c.tableName == t.name && !c.pk && IsFk(c))
    && (forall c | c in t.columnsArgs :: c.tableName == t.name && !c.pk && !IsFk(c))
  }

  /**
   * One table from the rows of one sheet: PK columns are built first, then FK
   * columns, then plain columns, each list in sheet order.
   */
  function BuildTable(tableName: string, tableType: string, rows: seq<Row>): Result<Table, Failure> {
    var pks :- BuildColumns(tableName, Select(rows, Some(ColumnsPK)), ColumnsPK);
    var fks :- BuildColumns(tableName, Select(rows, Some(ColumnsFK)), ColumnsFK);
    var args :- BuildColumns(tableName, Select(rows, Some(ColumnsArgs)), ColumnsArgs);
    Ok(Table(tableName, pks, fks, args, tableType))
  }

  /**
   * A table built from a sheet carries the sheet's table name and type, is well
   * formed, and holds one column per row of each bucket.
   */
  lemma BuiltTableShape(tableName: string, tableType: string, rows: seq<Row>)
    requires BuildTable(tableName, tableType, rows).Ok?
    ensures var t := BuildTable(tableName, tableType, rows).value;
      && t.name == tableName && t.tableType == tableType && WellFormed(t)
      && |t.columnsPK| == |Select(rows, Some(ColumnsPK))|
      && |t.columnsFK| == |Select(rows, Some(ColumnsFK))|
      && |t.columnsArgs| == |Select(rows, Some(ColumnsArgs))|
  {
    BuiltColumnsFit(tableName, Select(rows, Some(ColumnsPK)), ColumnsPK);
    BuiltColumnsFit(tableName, Select(rows, Some(ColumnsFK)), ColumnsFK);
    BuiltColumnsFit(tableName, Select(rows, Some(ColumnsArgs)), ColumnsArgs);
  }

  /**
   * Building a table raises exactly when the row of some bucket raises, and
   * then with that row's error.
   */
  lemma BuildTableFails(tableName: string, tableType: string, rows: seq<Row>)
    ensures BuildTable(tableName, tableType, rows).Err?
        <==> exists row | row in rows && BucketOf(row).Some? :: RowColumn(tableName, row, BucketOf(row).value).Err?
    ensures BuildTable(tableName, tableType, rows).Err? ==>
      exists row | row in rows && BucketOf(row).Some? ::
        RowColumn(tableName, row, BucketOf(row).value) == Err(BuildTable(tableName, tableType, rows).error)
  {
    SelectedColumnsFail(tableName, rows, ColumnsPK);
    SelectedColumnsFail(tableName, rows, ColumnsFK);
    SelectedColumnsFail(tableName, rows, ColumnsArgs);
  }

  /** The list of one bucket raises exactly when one of the bucket's rows raises, and then with its error. */
  lemma SelectedColumnsFail(tableName: string, rows: seq<Row>, role: Role)
    ensures BuildColumns(tableName, Select(rows, Some(role)), role).Err?
        <==> exists row | row in rows && BucketOf(row) == Some(role) :: RowColumn(tableName, row, role).Err?
    ensures BuildColumns(tableName, Select(rows, Some(role)), role).Err? ==>
      exists row | row in rows && BucketOf(row) == Some(role) ::
        RowColumn(tableName, row, role) == Err(BuildColumns(tableName, Select(rows, Some(role)), role).error)
  {
    var selected := Select(rows, Some(role));
    forall row | row in rows && BucketOf(row) == Some(role) && RowColumn(tableName, row, role).Err?
      ensures BuildColumns(tableName, selected, role).Err?
    {
      var i :| 0 <= i < |selected| && selected[i] == row;
    }
    if BuildColumns(tableName, selected, role).Err? {
      var i :| 0 <= i < |selected| && RowColumn(tableName, selected[i], role) == Err(BuildColumns(tableName, selected, role).error);
      assert selected[i] in rows;
    }
  }

  /** What a column of each role list looks like in a table built from a sheet. */
  predicate FitsRole(c: Column, role: Role) {
    match role
    case ColumnsPK => c.pk
    case ColumnsFK => !c.pk && IsFk(c)
    case ColumnsArgs => !c.pk && !IsFk(c)
  }

  /** The column built from a row is tagged with the table name and fits the row's bucket. */
  lemma RowColumnFits(tableName: string, row: Row, role: Role)
    requires BucketOf(row) == Some(role) && RowColumn(tableName, row, role).Ok?
    ensures RowColumn(tableName, row, role).value.tableName == tableName
    ensures FitsRole(RowColumn(tableName, row, role).value, role)
  {
    if role == ColumnsFK {
      assert row.fk.value[..3] == "FK ";
    }
  }

  /** Every column built from one bucket is tagged with the table name and fits the bucket. */
  lemma BuiltColumnsFit(tableName: string, rows: seq<Row>, role: Role)
    requires forall i :: 0 <= i < |rows| ==> BucketOf(rows[i]) == Some(role)
    requires BuildColumns(tableName, rows, role).Ok?
    ensures forall c | c in BuildColumns(tableName, rows, role).value :: c.tableName == tableName && FitsRole(c, role)
  {
    var cols := BuildColumns(tableName, rows, role).value;
    forall c | c in cols
      ensures c.tableName == tableName && FitsRole(c, role)
    {
      var k :| 0 <= k < |cols| && cols[k] == c;
      RowColumnFits(tableName, rows[k], role);
    }
  }

  /** A PK row with an `fk` cell is a PK column with FK fields; without one, a PK column without them. */
  lemma PKRowCarriesFK(tableName: string, row: Row)
    requires row.pk.Some? && RowColumn(tableName, row, ColumnsPK).Ok?
    ensures var c := RowColumn(tableName, row, ColumnsPK).value;
      c.pk && (IsFk(c) <==> row.fk.Some? && row.fk.value != "")
  {
  }
}
