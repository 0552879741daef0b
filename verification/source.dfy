/** The source adapters, reduced to what `discover` asks of them: the table
    names, the column names of a table, and the type of a column. The SQLite
    catalog and the CSV header row are given as data rather than read. */
module Source {
  import opened Common

  /** One row of `PRAGMA table_info(table)`: its `name` and `type` fields. */
  datatype ColumnInfo = ColumnInfo(name: string, dataType: string)

  /** A table of the SQLite catalog with its `table_info` rows, in order. */
  datatype TableInfo = TableInfo(name: string, rows: seq<ColumnInfo>)

  /** `SQLiteDatabase` over its catalog, or `CSVDatabase` over its path and
      header row. */
  datatype Source =
    | SQLite(catalog: seq<TableInfo>)
    | Csv(path: string, headers: seq<string>)

  /** The `table_info` rows of the first catalog table with that name; a
      table the catalog does not have yields no rows. */
  function RowsOf(catalog: seq<TableInfo>, table: string): (rows: seq<ColumnInfo>)
    ensures (forall i | 0 <= i < |catalog| :: catalog[i].name != table) ==> rows == []
    ensures forall i | 0 <= i < |catalog| ::
              catalog[i].name == table && (forall j | 0 <= j < i :: catalog[j].name != table) ==> rows == catalog[i].rows
  {
    if catalog == [] then []
    else if catalog[0].name == table then catalog[0].rows
    else
      assert forall i | 1 <= i < |catalog| :: catalog[i] == catalog[1..][i - 1];
      RowsOf(catalog[1..], table)
  }

  /** `SQLiteDatabase.get_type` over the rows: the type of the first row
      named `column`, or `None` when no row has that name. */
  function LookupType(rows: seq<ColumnInfo>, column: string): (r: Option<string>)
    ensures r.None? <==> forall k | 0 <= k < |rows| :: rows[k].name != column
    ensures r.Some? ==> exists k | 0 <= k < |rows| ::
              && rows[k].name == column && rows[k].dataType == r.value
              && forall j | 0 <= j < k :: rows[j].name != column
  {
    if rows == [] then None
    else if rows[0].name == column then Some(rows[0].dataType)
    else
      var r := LookupType(rows[1..], column);
      assert forall k | 1 <= k < |rows| :: rows[k] == rows[1..][k - 1];
      assert r.Some? ==> exists k | 0 <= k < |rows| ::
               && rows[k].name == column && rows[k].dataType == r.value
               && forall j | 0 <= j < k :: rows[j].name != column by {
        if r.Some? {
          var k :| 0 <= k < |rows[1..]| && rows[1..][k].name == column && rows[1..][k].dataType == r.value
                   && forall j | 0 <= j < k :: rows[1..][j].name != column;
          assert rows[k + 1].name == column && rows[k + 1].dataType == r.value;
          assert forall j | 0 <= j < k + 1 :: rows[j].name != column by {
            forall j | 0 <= j < k + 1
              ensures rows[j].name != column
            {
              if j > 0 {
                assert rows[j] == rows[1..][j - 1];
              }
            }
          }
        }
      }
      r
  }

  /** `get_tables`: the catalog's table names, or the CSV path as the only
      table. */
  function Tables(src: Source): (tables: seq<string>)
    ensures src.Csv? ==> tables == [src.path]
    ensures src.SQLite? ==> |tables| == |src.catalog| && forall i | 0 <= i < |tables| :: tables[i] == src.catalog[i].name
  {
    match src
    case SQLite(catalog) => seq(|catalog|, i requires 0 <= i < |catalog| => catalog[i].name)
    case Csv(path, _) => [path]
  }

  /** `get_columns(table)`: the `name` field of each `table_info` row, or the
      CSV header row whatever the table. */
  function Columns(src: Source, table: string): (columns: seq<string>)
    ensures src.Csv? ==> columns == src.headers
    ensures src.SQLite? ==> |columns| == |RowsOf(src.catalog, table)|
    ensures src.SQLite? ==> forall i | 0 <= i < |columns| :: columns[i] == RowsOf(src.catalog, table)[i].name
  {
    match src
    case SQLite(catalog) =>
      var rows := RowsOf(catalog, table);
      seq(|rows|, i requires 0 <= i < |rows| => rows[i].name)
    case Csv(_, headers) => headers
  }

  /** `get_type(table, column)`: the first matching row's type, or `String`
      for every CSV column. */
  function TypeOf(src: Source, table: string, column: string): (r: Option<string>)
    ensures src.Csv? ==> r == Some("String")
    ensures src.SQLite? ==> (r.Some? <==> column in Columns(src, table))
  {
    match src
    case SQLite(catalog) => LookupType(RowsOf(catalog, table), column)
    case Csv(_, _) => Some("String")
  }
}
