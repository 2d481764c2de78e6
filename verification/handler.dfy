/**
 * The naming done in `lambda_handler` and the loop over the workbook's sheets: which sheets
 * become tables, what each table is called, where its CSV is staged, and the statement that
 * creates it.
 */
module Handler {
  import opened Strings
  import opened Cells
  import opened Naming
  import opened TypeInference
  import opened Worksheet
  import opened Ddl

  /** Python's `s.rfind(c)`: the last index of `c` in `s`, or -1. */
  function RFind(s: string, c: char): (i: int)
    ensures -1 <= i < |s|
    ensures i >= 0 ==> s[i] == c
    ensures forall j :: i < j < |s| ==> s[j] != c
    decreases |s|
  {
    if s == [] then -1
    else if s[|s| - 1] == c then |s| - 1
    else RFind(s[..|s| - 1], c)
  }

  /** `os.path.basename`: what follows the last `/`. */
  function Basename(path: string): (name: string)
    ensures forall i :: 0 <= i < |name| ==> name[i] != '/'
    ensures |name| <= |path| && name == path[|path| - |name|..]
    ensures |name| < |path| ==> path[|path| - |name| - 1] == '/'
  {
    var sep := RFind(path, '/');
    var name := path[sep + 1..];
    assert |path| - |name| == sep + 1;
    name
  }

  /**
   * `os.path.splitext(path)[0]`: drops the last `.ext` of the last path component, unless
   * every character before that dot in the component is a dot (so `.bashrc` keeps its name).
   */
  function SplitExtRoot(path: string): (root: string)
    ensures root <= path
    ensures |root| < |path| ==> path[|root|] == '.' && RFind(path, '/') < |root|
    ensures forall j :: |root| < j < |path| ==> path[j] != '.' && path[j] != '/'
    ensures |root| < |path| ==> exists i :: RFind(path, '/') < i < |root| && path[i] != '.'
  {
    var sep := RFind(path, '/');
    var dot := RFind(path, '.');
    if dot > sep && exists i :: sep + 1 <= i < dot && path[i] != '.' then path[..dot] else path
  }

  /**
   * When the last path component has a `.` after some other character of that component, the
   * extension is dropped: the root ends just before the component's last `.`.
   */
  lemma SplitExtRootDropsExtension(path: string, i: nat, d: nat)
    requires RFind(path, '/') < i < d < |path| && path[i] != '.' && path[d] == '.'
    ensures |SplitExtRoot(path)| < |path|
    ensures forall j :: |SplitExtRoot(path)| < j < |path| ==> path[j] != '.'
  {
    var dot := RFind(path, '.');
    assert d <= dot;
    assert RFind(path, '/') + 1 <= i < dot && path[i] != '.';
  }

  /** The table a sheet of the uploaded file `key` is loaded into. */
  function TableName(key: string, sheetName: string): (name: string)
    ensures IsCleanName(name)
  {
    var baseTableName := CleanColumnName(SplitExtRoot(Basename(key)));
    var name := baseTableName + "_" + CleanColumnName(sheetName);
    JoinedNameIsClean(baseTableName, CleanColumnName(sheetName));
    name
  }

  /** A table name is left unchanged by `clean_column_name`: it needs no further quoting. */
  lemma TableNameIsStable(key: string, sheetName: string)
    ensures CleanColumnName(TableName(key, sheetName)) == TableName(key, sheetName)
  {
    CleanNameIsFixedPoint(TableName(key, sheetName));
  }

  /** Where the sheet's CSV is staged before it is copied into the table. */
  function TempKey(tableName: string): (key: string)
    ensures |key| == |tableName| + 9
    ensures key[..5] == "temp/" && key[|key| - 4..] == ".csv"
    ensures TableOfTempKey(key) == tableName
  {
    "temp/" + tableName + ".csv"
  }

  /** The table a staging key belongs to. */
  function TableOfTempKey(key: string): string
    requires |key| >= 9
  {
    key[5..|key| - 4]
  }

  /** Only the last path component of the uploaded key names the table. */
  lemma TableNameIgnoresDirectory(dir: string, file: string, sheetName: string)
    requires forall i :: 0 <= i < |file| ==> file[i] != '/'
    ensures TableName(dir + "/" + file, sheetName) == TableName(file, sheetName)
  {
    var path := dir + "/" + file;
    var sep := RFind(path, '/');
    assert path[|dir|] == '/';
    assert forall j :: |dir| < j < |path| ==> path[j] == file[j - |dir| - 1];
    assert sep == |dir|;
    assert path[sep + 1..] == file;
    assert Basename(file) == file;
  }

  /**
   * Sheet names that differ only in letter case or in which punctuation they use are loaded
   * into the same table.
   */
  lemma SheetNamesCollide(key: string, a: string, b: string)
    requires |a| == |b| && a != "" && b != ""
    requires forall i :: 0 <= i < |a| ==> CleanChar(ToLower(a[i])) == CleanChar(ToLower(b[i]))
    ensures TableName(key, a) == TableName(key, b)
  {
    var ca := CleanColumnName(a);
    var cb := CleanColumnName(b);
    CleanColumnNameChars(a);
    CleanColumnNameChars(b);
    assert IsDigit(a[0]) <==> IsDigit(b[0]) by {
      assert CleanChar(ToLower(a[0])) == CleanChar(ToLower(b[0]));
    }
    assert ca == cb by {
      forall i | 0 <= i < |ca| ensures ca[i] == cb[i] {
        var off := |ca| - |a|;
        if i >= off {
          assert CleanChar(ToLower(a[i - off])) == CleanChar(ToLower(b[i - off]));
        }
      }
    }
  }

  // ---------------------------------------------------------------------------
  // The loop over the workbook's sheets

  /** What the handler sends on for one sheet. */
  datatype SheetLoad = SheetLoad(
    sheetName: string,
    tableName: string,
    headers: seq<string>,
    rows: seq<map<string, Value>>,
    columnTypes: map<string, SqlType>,
    createSql: string,
    csvKey: string)

  /** The sheets that become tables, in workbook order: those with at least one data row. */
  function LoadedSheets(sheets: seq<Sheet>): (r: seq<Sheet>)
    ensures forall s :: s in r ==> s in sheets && s.maxRow >= 2
    ensures forall s :: s in sheets && s.maxRow >= 2 ==> s in r
    ensures |r| <= |sheets|
    decreases |sheets|
  {
    if sheets == [] then []
    else
      var last := sheets[|sheets| - 1];
      LoadedSheets(sheets[..|sheets| - 1]) + if last.maxRow >= 2 then [last] else []
  }

  /**
   * `load` is what the handler produces for `sheet` of the uploaded file `key`: the headers are
   * those the header loop picks from the first row, the rows hold every data cell's loaded value
   * under its header, and each column has the type inferred from its values.
   */
  ghost predicate PlannedFor(key: string, sheet: Sheet, load: SheetLoad, isDateText: string -> bool)
  {
    && load.sheetName == sheet.title
    && load.tableName == TableName(key, sheet.title)
    && load.csvKey == TempKey(load.tableName)
    && |load.headers| == sheet.maxColumn
    && HeadersChosen(sheet, load.headers)
    && Distinct(load.headers)
    && (forall h :: h in load.headers ==> IsCleanName(h) && h in load.columnTypes)
    && (forall c :: 0 <= c < |load.headers| ==>
          load.columnTypes[load.headers[c]] == InferredType(ColumnValues(sheet, c + 1), isDateText))
    && |load.rows| == RowCount(sheet)
    && RowsRead(sheet, load.headers, load.rows)
    && load.createSql == CreateTableSql(load.tableName, load.headers, load.columnTypes)
  }

  /** The body of the sheet loop for a sheet with data rows. */
  method PlanSheet(key: string, sheet: Sheet, isDateText: string -> bool) returns (load: SheetLoad)
    ensures PlannedFor(key, sheet, load, isDateText)
  {
    var headers, data, columnTypes := ProcessWorksheet(sheet, isDateText);
    var baseTableName := CleanColumnName(SplitExtRoot(Basename(key)));
    var tableName := baseTableName + "_" + CleanColumnName(sheet.title);
    var createSql := CreateTableSql(tableName, headers, columnTypes);
    var csvKey := "temp/" + tableName + ".csv";
    load := SheetLoad(sheet.title, tableName, headers, data, columnTypes, createSql, csvKey);
    assert HeadersChosen(sheet, headers);
    assert RowsRead(sheet, headers, data);
  }

  /** Every load in `loads` is what the handler produces for the sheet at the same position. */
  ghost predicate AllPlanned(key: string, targets: seq<Sheet>, loads: seq<SheetLoad>, isDateText: string -> bool)
  {
    |loads| == |targets| && forall k :: 0 <= k < |loads| ==> PlannedFor(key, targets[k], loads[k], isDateText)
  }

  /** A relation that holds position by position keeps holding when one more related pair is appended. */
  lemma PairwiseAppend<A, B>(rel: (A, B) -> bool, xs: seq<A>, ys: seq<B>, x: A, y: B)
    requires |xs| == |ys| && forall k :: 0 <= k < |xs| ==> rel(xs[k], ys[k])
    requires rel(x, y)
    ensures forall k :: 0 <= k < |xs| + 1 ==> rel((xs + [x])[k], (ys + [y])[k])
  {
    forall k | 0 <= k < |xs| + 1 ensures rel((xs + [x])[k], (ys + [y])[k]) {
      if k < |xs| {
        assert (xs + [x])[k] == xs[k] && (ys + [y])[k] == ys[k];
      }
    }
  }

  lemma PlannedAppend(key: string, targets: seq<Sheet>, loads: seq<SheetLoad>, sheet: Sheet, load: SheetLoad, isDateText: string -> bool)
    requires AllPlanned(key, targets, loads, isDateText)
    requires PlannedFor(key, sheet, load, isDateText)
    ensures AllPlanned(key, targets + [sheet], loads + [load], isDateText)
  {
    PairwiseAppend((s, l) => PlannedFor(key, s, l, isDateText), targets, loads, sheet, load);
  }

  /** Extending the workbook by one sheet extends the loaded sheets by that sheet or by nothing. */
  lemma LoadedSheetsStep(sheets: seq<Sheet>, n: nat)
    requires n < |sheets|
    ensures LoadedSheets(sheets[..n + 1]) == LoadedSheets(sheets[..n]) + if sheets[n].maxRow >= 2 then [sheets[n]] else []
  {
    assert sheets[..n + 1][..n] == sheets[..n];
  }

  /** The sheet loop of `lambda_handler`, without the remote calls: sheets with `max_row < 2` are skipped. */
  method PlanWorkbook(key: string, sheets: seq<Sheet>, isDateText: string -> bool) returns (loads: seq<SheetLoad>)
    ensures AllPlanned(key, LoadedSheets(sheets), loads, isDateText)
  {
    loads := [];
    for n := 0 to |sheets|
      invariant AllPlanned(key, LoadedSheets(sheets[..n]), loads, isDateText)
    {
      var sheet := sheets[n];
      LoadedSheetsStep(sheets, n);
      if sheet.maxRow < 2 {
        continue;
      }
      var load := PlanSheet(key, sheet, isDateText);
      PlannedAppend(key, LoadedSheets(sheets[..n]), loads, sheet, load, isDateText);
      loads := loads + [load];
    }
    assert sheets[..|sheets|] == sheets;
  }

  /** The columns a planned table is created with: each header with its column's inferred type. */
  ghost function PlannedColumns(sheet: Sheet, headers: seq<string>, isDateText: string -> bool): seq<(string, SqlType)>
    requires |headers| == sheet.maxColumn
  {
    seq(|headers|, c requires 0 <= c < |headers| => (headers[c], InferredType(ColumnValues(sheet, c + 1), isDateText)))
  }

  lemma ColumnsArePlanned(sheet: Sheet, headers: seq<string>, columnTypes: map<string, SqlType>, isDateText: string -> bool)
    requires |headers| == sheet.maxColumn
    requires forall h :: h in headers ==> h in columnTypes
    requires forall c :: 0 <= c < |headers| ==>
      columnTypes[headers[c]] == InferredType(ColumnValues(sheet, c + 1), isDateText)
    ensures Columns(headers, columnTypes) == PlannedColumns(sheet, headers, isDateText)
  {
  }

  /**
   * The CREATE statement of every planned table names that table, and its column list reads
   * back as the sheet's headers with their inferred types, in column order.
   */
  lemma PlannedStatementReadsBack(key: string, sheet: Sheet, load: SheetLoad, isDateText: string -> bool)
    requires PlannedFor(key, sheet, load, isDateText)
    ensures |StatementHead(load.tableName)| <= |load.createSql| - |StatementTail|
    ensures load.createSql[..|StatementHead(load.tableName)|] == StatementHead(TableName(key, sheet.title))
    ensures ParseColumnList(load.createSql[|StatementHead(load.tableName)|..|load.createSql| - |StatementTail|])
      == Some(PlannedColumns(sheet, load.headers, isDateText))
  {
    CreateTableSqlReadsBack(load.tableName, load.headers, load.columnTypes);
    ColumnsArePlanned(sheet, load.headers, load.columnTypes, isDateText);
  }
}
