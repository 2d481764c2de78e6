/**
 * `process_worksheet`: headers from the first row, made unique; one dictionary per data row;
 * the values of every column; and the type inferred for every column.
 */
module Worksheet {
  import opened Strings
  import opened Cells
  import opened Naming
  import opened TypeInference

  // ---------------------------------------------------------------------------
  // Header names

  /** The text a header is cleaned from: the cell's value, or `col_<col>` when it is falsy. */
  function HeaderText(v: Value, col: nat): string
  {
    if Truthy(v) then PyStr(v) else "col_" + NatToString(col)
  }

  /** The cleaned header of 1-based column `col`, before duplicates are resolved. */
  function BaseHeader(sheet: Sheet, col: nat): (h: string)
    ensures IsCleanName(h)
  {
    CleanColumnName(HeaderText(CellAt(sheet, 1, col).value, col))
  }

  /** `base_k`, the k-th alternative to a clashing header. */
  function Suffixed(base: string, k: nat): string
  {
    base + "_" + NatToString(k)
  }

  /** The names the duplicate loop tries, in order: `base`, `base_1`, `base_2`, ... */
  function Candidate(base: string, j: nat): string
  {
    if j == 0 then base else Suffixed(base, j)
  }

  /**
   * `name` is what the duplicate loop picks for `base` when `taken` are the headers so far:
   * the first candidate that is not taken.
   */
  ghost predicate FreshName(taken: seq<string>, base: string, name: string)
  {
    && name !in taken
    && exists k: nat :: name == Candidate(base, k) && forall j :: 0 <= j < k ==> Candidate(base, j) in taken
  }

  predicate Distinct(s: seq<string>)
  {
    forall i, j :: 0 <= i < j < |s| ==> s[i] != s[j]
  }

  lemma CandidateInjective(base: string, i: nat, j: nat)
    requires Candidate(base, i) == Candidate(base, j)
    ensures i == j
  {
    if i != 0 && j != 0 {
      assert Suffixed(base, i)[|base| + 1..] == NatToString(i);
      assert Suffixed(base, j)[|base| + 1..] == NatToString(j);
      NatToStringInjective(i, j);
    }
  }

  lemma {:induction false} CandidatesCount(base: string, n: nat)
    ensures |set j | 0 <= j < n :: Candidate(base, j)| == n
  {
    if n > 0 {
      CandidatesCount(base, n - 1);
      var before := set j | 0 <= j < n - 1 :: Candidate(base, j);
      var after := set j | 0 <= j < n :: Candidate(base, j);
      assert after == before + {Candidate(base, n - 1)};
      if Candidate(base, n - 1) in before {
        var j :| 0 <= j < n - 1 && Candidate(base, j) == Candidate(base, n - 1);
        CandidateInjective(base, j, n - 1);
      }
    }
  }

  lemma {:induction false} ElementsCount(s: seq<string>)
    ensures |set x | x in s| <= |s|
  {
    if s != [] {
      var init := s[..|s| - 1];
      ElementsCount(init);
      assert (set x | x in s) == (set x | x in init) + {s[|s| - 1]};
    }
  }

  lemma SubsetCount(a: set<string>, b: set<string>)
    requires a <= b
    ensures |a| <= |b|
  {
    assert b == a + (b - a);
  }

  /** If the first `n` candidates are all taken, there are at least `n` headers. */
  lemma CandidatesFit(taken: seq<string>, base: string, n: nat)
    requires forall j :: 0 <= j < n ==> Candidate(base, j) in taken
    ensures n <= |taken|
  {
    var names := set j | 0 <= j < n :: Candidate(base, j);
    CandidatesCount(base, n);
    ElementsCount(taken);
    SubsetCount(names, set x | x in taken);
  }

  /** The duplicate loop picks one name only: the first free candidate is unique. */
  lemma FreshNameUnique(taken: seq<string>, base: string, a: string, b: string)
    requires FreshName(taken, base, a) && FreshName(taken, base, b)
    ensures a == b
  {
    var ka: nat :| a == Candidate(base, ka) && forall j :: 0 <= j < ka ==> Candidate(base, j) in taken;
    var kb: nat :| b == Candidate(base, kb) && forall j :: 0 <= j < kb ==> Candidate(base, j) in taken;
  }

  /** A name kept as it is or suffixed with `_k` is still a clean name. */
  lemma FreshNameIsClean(taken: seq<string>, base: string, name: string)
    requires IsCleanName(base) && FreshName(taken, base, name)
    ensures IsCleanName(name)
  {
    var k: nat :| name == Candidate(base, k) && forall j :: 0 <= j < k ==> Candidate(base, j) in taken;
    if k != 0 {
      JoinedNameIsClean(base, NatToString(k));
    }
  }

  /** The duplicate loop: try `base`, then `base_1`, `base_2`, ... until one is free. */
  method UniqueHeader(headers: seq<string>, base: string) returns (header: string)
    ensures FreshName(headers, base, header)
  {
    header := base;
    var counter: nat := 1;
    while header in headers
      invariant counter >= 1
      invariant header == Candidate(base, counter - 1)
      invariant forall j :: 0 <= j < counter - 1 ==> Candidate(base, j) in headers
      decreases |headers| + 1 - counter
    {
      CandidatesFit(headers, base, counter);
      header := Suffixed(base, counter);
      counter := counter + 1;
    }
  }

  /** Headers each chosen as a fresh name against the ones before them are pairwise distinct. */
  lemma FreshHeadersDistinct(headers: seq<string>, bases: seq<string>)
    requires |bases| == |headers|
    requires forall c :: 0 <= c < |headers| ==> FreshName(headers[..c], bases[c], headers[c])
    ensures Distinct(headers)
  {
    forall i, j | 0 <= i < j < |headers| ensures headers[i] != headers[j] {
      assert headers[i] in headers[..j];
    }
  }

  // ---------------------------------------------------------------------------
  // Data rows and columns

  /** The value a cell contributes: a truthy date cell is replaced by its `isoformat()` text. */
  function LoadedValue(cell: Cell): (v: Value)
    ensures !(cell.isDate && cell.value.DateTime?) ==> v == cell.value
    ensures cell.isDate && cell.value.DateTime? ==> v == Text(cell.value.iso)
    ensures !v.DateTime? || !cell.isDate
  {
    if cell.isDate && Truthy(cell.value) && cell.value.DateTime? then Text(cell.value.iso) else cell.value
  }

  /** How many data rows a sheet has: rows 2 to `max_row`. */
  function RowCount(sheet: Sheet): nat
  {
    if sheet.maxRow >= 2 then sheet.maxRow - 1 else 0
  }

  /** The first `n` data values of 1-based column `col`. */
  function ColumnPrefix(sheet: Sheet, col: nat, n: nat): (vs: seq<Value>)
    ensures |vs| == n
  {
    seq(n, i requires 0 <= i < n => LoadedValue(CellAt(sheet, i + 2, col)))
  }

  /** All data values of 1-based column `col`, top to bottom. */
  function ColumnValues(sheet: Sheet, col: nat): seq<Value>
  {
    ColumnPrefix(sheet, col, RowCount(sheet))
  }

  /** The values a list of row dictionaries holds under one header, row by row. */
  function DataColumn(data: seq<map<string, Value>>, h: string): (vs: seq<Value>)
    ensures |vs| == |data|
  {
    seq(|data|, i requires 0 <= i < |data| => if h in data[i] then data[i][h] else Null)
  }

  /** The headers at positions `0..|headers|` are the headers. */
  lemma HeadersByPosition(headers: seq<string>)
    ensures (set c | 0 <= c < |headers| :: headers[c]) == set h | h in headers
  {
  }

  lemma ColumnPrefixGrows(sheet: Sheet, col: nat, n: nat)
    ensures ColumnPrefix(sheet, col, n) + [LoadedValue(CellAt(sheet, n + 2, col))] == ColumnPrefix(sheet, col, n + 1)
  {
  }

  /** Reading one header out of every row dictionary gives that column's values. */
  lemma DataColumnIsColumnValues(sheet: Sheet, headers: seq<string>, data: seq<map<string, Value>>, k: nat)
    requires k < |headers| && |data| == RowCount(sheet)
    requires forall i :: 0 <= i < |data| ==> headers[k] in data[i]
    requires forall i :: 0 <= i < |data| ==> data[i][headers[k]] == LoadedValue(CellAt(sheet, i + 2, k + 1))
    ensures DataColumn(data, headers[k]) == ColumnValues(sheet, k + 1)
  {
    var column := DataColumn(data, headers[k]);
    var values := ColumnValues(sheet, k + 1);
    forall i | 0 <= i < |data| ensures column[i] == values[i] {
    }
  }

  // ---------------------------------------------------------------------------
  // process_worksheet

  /** Each of `headers` is the first free candidate for its column's base against the ones before it. */
  ghost predicate HeadersChosen(sheet: Sheet, headers: seq<string>)
  {
    forall c :: 0 <= c < |headers| ==> FreshName(headers[..c], BaseHeader(sheet, c + 1), headers[c])
  }

  lemma HeadersChosenAppend(sheet: Sheet, headers: seq<string>, header: string)
    requires HeadersChosen(sheet, headers)
    requires FreshName(headers, BaseHeader(sheet, |headers| + 1), header)
    ensures HeadersChosen(sheet, headers + [header])
  {
    var next := headers + [header];
    forall c | 0 <= c < |next| ensures FreshName(next[..c], BaseHeader(sheet, c + 1), next[c]) {
      if c < |headers| {
        assert next[..c] == headers[..c] && next[c] == headers[c];
      } else {
        assert next[..c] == headers;
      }
    }
  }

  /** The header loop: one cleaned header per column, each made unique against the ones before. */
  method ReadHeaders(sheet: Sheet) returns (headers: seq<string>)
    ensures |headers| == sheet.maxColumn
    ensures forall c :: 0 <= c < |headers| ==> FreshName(headers[..c], BaseHeader(sheet, c + 1), headers[c])
  {
    headers := [];
    for col := 1 to sheet.maxColumn + 1
      invariant |headers| == col - 1
      invariant HeadersChosen(sheet, headers)
    {
      var cellValue := CellAt(sheet, 1, col).value;
      var header := CleanColumnName(if Truthy(cellValue) then PyStr(cellValue) else "col_" + NatToString(col));
      assert header == BaseHeader(sheet, col);
      header := UniqueHeader(headers, header);
      HeadersChosenAppend(sheet, headers, header);
      headers := headers + [header];
    }
  }

  /** The first `n` cells of data row `row` are in `rowData` under their headers, and nothing else is. */
  ghost predicate RowSoFar(sheet: Sheet, headers: seq<string>, row: int, n: nat, rowData: map<string, Value>)
    requires n <= |headers|
  {
    && rowData.Keys == (set c | 0 <= c < n :: headers[c])
    && forall c :: 0 <= c < n ==> rowData[headers[c]] == LoadedValue(CellAt(sheet, row, c + 1))
  }

  /** The first `n` columns hold their values up to row `row`, the others up to the row before. */
  ghost predicate ColumnsSoFar(sheet: Sheet, headers: seq<string>, row: int, n: nat, columnValues: map<string, seq<Value>>)
    requires row >= 2 && n <= |headers|
  {
    && (forall h :: h in headers ==> h in columnValues)
    && (forall c :: 0 <= c < n ==> columnValues[headers[c]] == ColumnPrefix(sheet, c + 1, row - 1))
    && (forall c :: n <= c < |headers| ==> columnValues[headers[c]] == ColumnPrefix(sheet, c + 1, row - 2))
  }

  lemma RowSoFarStep(sheet: Sheet, headers: seq<string>, row: int, n: nat, rowData: map<string, Value>)
    requires n < |headers| && Distinct(headers)
    requires RowSoFar(sheet, headers, row, n, rowData)
    ensures RowSoFar(sheet, headers, row, n + 1, rowData[headers[n] := LoadedValue(CellAt(sheet, row, n + 1))])
  {
    var next := rowData[headers[n] := LoadedValue(CellAt(sheet, row, n + 1))];
    forall c | 0 <= c < n ensures next[headers[c]] == rowData[headers[c]] {
      assert headers[c] != headers[n];
    }
    assert next.Keys == (set c | 0 <= c < n :: headers[c]) + {headers[n]};
    assert (set c | 0 <= c < n + 1 :: headers[c]) == (set c | 0 <= c < n :: headers[c]) + {headers[n]};
  }

  lemma ColumnsSoFarStep(sheet: Sheet, headers: seq<string>, row: int, n: nat, columnValues: map<string, seq<Value>>)
    requires row >= 2 && n < |headers| && Distinct(headers)
    requires ColumnsSoFar(sheet, headers, row, n, columnValues)
    ensures ColumnsSoFar(sheet, headers, row, n + 1,
      columnValues[headers[n] := columnValues[headers[n]] + [LoadedValue(CellAt(sheet, row, n + 1))]])
  {
    var h := headers[n];
    var next := columnValues[h := columnValues[h] + [LoadedValue(CellAt(sheet, row, n + 1))]];
    ColumnPrefixGrows(sheet, n + 1, row - 2);
    forall c | 0 <= c < |headers| && c != n ensures next[headers[c]] == columnValues[headers[c]] {
      assert headers[c] != h;
    }
  }

  /**
   * The body of the row loop for data row `row`: builds the row's dictionary and appends each
   * cell's value to its column.
   */
  method ReadRow(sheet: Sheet, headers: seq<string>, row: int, columnValues: map<string, seq<Value>>)
    returns (rowData: map<string, Value>, columnValues': map<string, seq<Value>>)
    requires |headers| == sheet.maxColumn && Distinct(headers) && row >= 2
    requires forall h :: h in headers ==> h in columnValues
    requires forall c :: 0 <= c < |headers| ==> columnValues[headers[c]] == ColumnPrefix(sheet, c + 1, row - 2)
    ensures columnValues'.Keys == columnValues.Keys
    ensures forall k :: k in columnValues && k !in headers ==> columnValues'[k] == columnValues[k]
    ensures forall c :: 0 <= c < |headers| ==> columnValues'[headers[c]] == ColumnPrefix(sheet, c + 1, row - 1)
    ensures rowData.Keys == set h | h in headers
    ensures forall c :: 0 <= c < |headers| ==> rowData[headers[c]] == LoadedValue(CellAt(sheet, row, c + 1))
  {
    rowData := map[];
    columnValues' := columnValues;
    for col := 1 to sheet.maxColumn + 1
      invariant RowSoFar(sheet, headers, row, col - 1, rowData)
      invariant ColumnsSoFar(sheet, headers, row, col - 1, columnValues')
      invariant columnValues'.Keys == columnValues.Keys
      invariant forall k :: k in columnValues && k !in headers ==> columnValues'[k] == columnValues[k]
    {
      var cell := CellAt(sheet, row, col);
      var header := headers[col - 1];
      var value := cell.value;
      if cell.isDate && Truthy(value) {
        value := if value.DateTime? then Text(value.iso) else value;
      }
      assert value == LoadedValue(cell);
      RowSoFarStep(sheet, headers, row, col - 1, rowData);
      ColumnsSoFarStep(sheet, headers, row, col - 1, columnValues');
      rowData := rowData[header := value];
      columnValues' := columnValues'[header := columnValues'[header] + [value]];
    }
    HeadersByPosition(headers);
  }

  /** Every dictionary in `data` is keyed by the headers and holds its row's loaded values. */
  ghost predicate RowsRead(sheet: Sheet, headers: seq<string>, data: seq<map<string, Value>>)
  {
    && (forall i :: 0 <= i < |data| ==> data[i].Keys == set h | h in headers)
    && (forall i, c :: 0 <= i < |data| && 0 <= c < |headers| ==>
          data[i][headers[c]] == LoadedValue(CellAt(sheet, i + 2, c + 1)))
  }

  lemma RowsReadAppend(sheet: Sheet, headers: seq<string>, data: seq<map<string, Value>>, rowData: map<string, Value>)
    requires RowsRead(sheet, headers, data)
    requires rowData.Keys == set h | h in headers
    requires forall c :: 0 <= c < |headers| ==> rowData[headers[c]] == LoadedValue(CellAt(sheet, |data| + 2, c + 1))
    ensures RowsRead(sheet, headers, data + [rowData])
  {
    var next := data + [rowData];
    forall i | 0 <= i < |next| ensures next[i] == if i < |data| then data[i] else rowData {
    }
  }

  /** The row loop: rows 2 to `max_row` as dictionaries, and the values of every column. */
  method ReadRows(sheet: Sheet, headers: seq<string>)
    returns (data: seq<map<string, Value>>, columnValues: map<string, seq<Value>>)
    requires |headers| == sheet.maxColumn && Distinct(headers)
    ensures |data| == RowCount(sheet)
    ensures forall i :: 0 <= i < |data| ==> data[i].Keys == set h | h in headers
    ensures forall i, c :: 0 <= i < |data| && 0 <= c < |headers| ==>
      data[i][headers[c]] == LoadedValue(CellAt(sheet, i + 2, c + 1))
    ensures columnValues.Keys == set h | h in headers
    ensures forall c :: 0 <= c < |headers| ==> columnValues[headers[c]] == ColumnValues(sheet, c + 1)
  {
    columnValues := map h | h in headers :: [];
    data := [];
    var row := 2;
    while row <= sheet.maxRow
      invariant 2 <= row && (row <= sheet.maxRow + 1 || row == 2)
      invariant |data| == row - 2
      invariant columnValues.Keys == set h | h in headers
      invariant forall c :: 0 <= c < |headers| ==> columnValues[headers[c]] == ColumnPrefix(sheet, c + 1, row - 2)
      invariant RowsRead(sheet, headers, data)
    {
      var rowData;
      rowData, columnValues := ReadRow(sheet, headers, row, columnValues);
      RowsReadAppend(sheet, headers, data, rowData);
      data := data + [rowData];
      row := row + 1;
    }
  }

  /** The type loop: `detect_data_type` on the values of every column. */
  method DetectColumnTypes(sheet: Sheet, headers: seq<string>, columnValues: map<string, seq<Value>>, isDateText: string -> bool)
    returns (columnTypes: map<string, SqlType>)
    requires |headers| == sheet.maxColumn
    requires forall h :: h in headers ==> h in columnValues
    requires forall c :: 0 <= c < |headers| ==> columnValues[headers[c]] == ColumnValues(sheet, c + 1)
    ensures columnTypes.Keys == set h | h in headers
    ensures forall c :: 0 <= c < |headers| ==>
      columnTypes[headers[c]] == InferredType(ColumnValues(sheet, c + 1), isDateText)
  {
    columnTypes := map[];
    var c := 0;
    while c < |headers|
      invariant 0 <= c <= |headers|
      invariant columnTypes.Keys == set k | 0 <= k < c :: headers[k]
      invariant forall k :: 0 <= k < c ==> columnTypes[headers[k]] == InferredType(ColumnValues(sheet, k + 1), isDateText)
    {
      var t := DetectDataType(columnValues[headers[c]], isDateText);
      columnTypes := columnTypes[headers[c] := t];
      c := c + 1;
    }
    HeadersByPosition(headers);
  }

  method ProcessWorksheet(sheet: Sheet, isDateText: string -> bool)
    returns (headers: seq<string>, data: seq<map<string, Value>>, columnTypes: map<string, SqlType>)
    ensures |headers| == sheet.maxColumn
    ensures forall c :: 0 <= c < |headers| ==> FreshName(headers[..c], BaseHeader(sheet, c + 1), headers[c])
    ensures Distinct(headers)
    ensures forall h :: h in headers ==> IsCleanName(h)
    ensures |data| == RowCount(sheet)
    ensures forall i :: 0 <= i < |data| ==> data[i].Keys == set h | h in headers
    ensures forall i, c :: 0 <= i < |data| && 0 <= c < |headers| ==>
      data[i][headers[c]] == LoadedValue(CellAt(sheet, i + 2, c + 1))
    ensures columnTypes.Keys == set h | h in headers
    ensures forall c :: 0 <= c < |headers| ==>
      columnTypes[headers[c]] == InferredType(ColumnValues(sheet, c + 1), isDateText)
    ensures forall h :: h in headers ==> columnTypes[h] == InferredType(DataColumn(data, h), isDateText)
  {
    headers := ReadHeaders(sheet);
    FreshHeadersDistinct(headers, seq(|headers|, c requires 0 <= c < |headers| => BaseHeader(sheet, c + 1)));
    forall h | h in headers ensures IsCleanName(h) {
      var c :| 0 <= c < |headers| && headers[c] == h;
      FreshNameIsClean(headers[..c], BaseHeader(sheet, c + 1), h);
    }

    var columnValues;
    data, columnValues := ReadRows(sheet, headers);
    columnTypes := DetectColumnTypes(sheet, headers, columnValues, isDateText);
    forall h | h in headers ensures columnTypes[h] == InferredType(DataColumn(data, h), isDateText) {
      var k :| 0 <= k < |headers| && headers[k] == h;
      DataColumnIsColumnValues(sheet, headers, data, k);
    }
  }

  // ---------------------------------------------------------------------------
  // Date cells

  /** Date cells holding datetimes load as the text of their `isoformat()`. */
  lemma DateCellsLoadAsIsoText(sheet: Sheet, col: nat)
    requires forall r :: 2 <= r <= sheet.maxRow ==>
      CellAt(sheet, r, col).isDate && CellAt(sheet, r, col).value.DateTime?
    ensures forall i :: 0 <= i < |ColumnValues(sheet, col)| ==>
      ColumnValues(sheet, col)[i] == Text(CellAt(sheet, i + 2, col).value.iso)
  {
  }

  /**
   * Date cells reach the inference as their `isoformat()` text, so a column of datetime
   * cells is TIMESTAMP exactly when the date-text test accepts one of those texts, and
   * VARCHAR otherwise.
   */
  lemma DateCellColumn(sheet: Sheet, col: nat, isDateText: string -> bool)
    requires forall r :: 2 <= r <= sheet.maxRow ==>
      CellAt(sheet, r, col).isDate && CellAt(sheet, r, col).value.DateTime? && CellAt(sheet, r, col).value.iso != ""
    ensures InferredType(ColumnValues(sheet, col), isDateText) == Timestamp <==>
      exists r :: 2 <= r <= sheet.maxRow && isDateText(CellAt(sheet, r, col).value.iso)
    ensures InferredType(ColumnValues(sheet, col), isDateText) == Timestamp ||
      InferredType(ColumnValues(sheet, col), isDateText).Varchar?
  {
    var vs := ColumnValues(sheet, col);
    DateCellsLoadAsIsoText(sheet, col);
    TextColumnType(vs, isDateText);
    if exists r :: 2 <= r <= sheet.maxRow && isDateText(CellAt(sheet, r, col).value.iso) {
      var r :| 2 <= r <= sheet.maxRow && isDateText(CellAt(sheet, r, col).value.iso);
      assert isDateText(vs[r - 2].s);
    }
    if exists i :: 0 <= i < |vs| && isDateText(vs[i].s) {
      var i :| 0 <= i < |vs| && isDateText(vs[i].s);
      assert isDateText(CellAt(sheet, i + 2, col).value.iso);
    }
  }

  /**
   * The date-text test is `strptime(text, '%Y-%m-%d')`, which accepts at most ten characters;
   * a datetime's `isoformat()` carries the time as well, so a column of datetime cells comes out
   * as VARCHAR rather than TIMESTAMP.
   */
  lemma DatetimeCellsAreNotTimestamp(sheet: Sheet, col: nat, isDateText: string -> bool)
    requires forall s :: isDateText(s) ==> |s| <= 10
    requires forall r :: 2 <= r <= sheet.maxRow ==>
      CellAt(sheet, r, col).isDate && CellAt(sheet, r, col).value.DateTime? && |CellAt(sheet, r, col).value.iso| > 10
    ensures InferredType(ColumnValues(sheet, col), isDateText).Varchar?
  {
    DateCellColumn(sheet, col, isDateText);
  }
}
