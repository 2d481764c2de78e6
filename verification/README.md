# Excel-to-Redshift loader: a Dafny model of its core

The loader is an AWS Lambda function. An `.xlsx` workbook is uploaded to S3, and the function loads every worksheet with data into a Redshift table named after the file and the sheet. Sheet names that differ only in letter case or punctuation (`Sheet 1` and `sheet-1`) get the same table name. The second `CREATE TABLE IF NOT EXISTS` then does nothing, and both sheets' rows are copied into that one table (`Handler.SheetNamesCollide`).

For each worksheet it:

- reads the first row as column headers, cleaned into warehouse-safe names and made unique;
- reads every further row into a dictionary keyed by those headers;
- infers a column type (`TIMESTAMP`, `DECIMAL(18,2)`, `BIGINT` or `VARCHAR(n)`) from each column's values;
- issues `CREATE TABLE IF NOT EXISTS` with those columns;
- stages the rows as a CSV file under `temp/`;
- copies the CSV into the table and deletes the staged file.

This project models the pure and algorithmic part of that pipeline: everything between "a workbook is loaded" and "a statement is sent".

Modules:

- `Strings` (`strings.dfy`) — ASCII character classes, decimal rendering of naturals and its inverse, `join`, and a take-while scanner.
- `Cells` (`cells.dfy`) — cell values by Python runtime type (`None`, `str`, `int`, `bool`, `float`, `datetime`), their truthiness and `str()`, and a worksheet as a sparse map of cells with its used range.
- `Naming` (`naming.dfy`) — `clean_column_name`.
- `TypeInference` (`type_inference.dfy`) — `detect_data_type`.
  - `InferredType` is a reference definition: any date, else any float, else any number, else a VARCHAR sized from the longest text.
  - `DetectDataType` is the one-pass scan with its three flags, proved equal to `InferredType`.
  - Lemmas cover order and repetition independence, skipped values, precedence and the VARCHAR bounds.
- `Worksheet` (`worksheet.dfy`) — `process_worksheet` as imperative code:
  - the header loop, with its duplicate-resolving `while`;
  - the row loop, with date cells replaced by their ISO text;
  - the per-column type detection.
  - Each loop is proved against a specification of the headers (the first free candidate `base`, `base_1`, `base_2`, …), the rows and the column values.
- `Ddl` (`ddl.dfy`) — the text of the `CREATE TABLE IF NOT EXISTS` statement. A reader for its column list shows the list is unambiguous: parsing it gives back every header with its type, in order.
- `Handler` (`handler.dfy`) — the naming done by `lambda_handler`:
  - `os.path.basename`, and `os.path.splitext` for `/`-separated keys;
  - the table name and the staging key;
  - the sheet loop, which skips sheets with `max_row < 2` and plans each remaining sheet's headers, rows, types, statement and staging key.

The date test `datetime.strptime(val, '%Y-%m-%d')` is a parameter `isDateText: string -> bool` of every member that depends on it. The properties hold for any parser.

## Behaviour of the code worth knowing

- The smallest VARCHAR emitted is 100, and the largest 65535.
- A column's type is decided by *any* qualifying value: one date makes it `TIMESTAMP`; failing that, one float makes it `DECIMAL(18,2)`; failing that, one int or bool makes it `BIGINT`.
- Booleans are Python `int`s, so a boolean column is `BIGINT`.
- Date cells reach type detection as their `isoformat()` text (`YYYY-MM-DDTHH:MM:SS`). A `'%Y-%m-%d'` parser rejects that text, so a column of Excel datetimes comes out `VARCHAR` (`Worksheet.DatetimeCellsAreNotTimestamp`).

## Model

| member | source | states |
|---|---|---|
| Naming.CleanColumnName | lambda_function.py:15-23 | the result is non-empty, made of `[a-z0-9_]` and does not start with a digit; empty text gives `unnamed_column` |
| Naming.CleanColumnNameChars | lambda_function.py:19-22 | each alphanumeric character is lower-cased and every other one becomes `_`, in place; `col_` is prefixed exactly when the text starts with a digit |
| Naming.CleanNameIsFixedPoint | lambda_function.py:15-23 | a name that is already clean comes back unchanged |
| Naming.CleanIsIdempotent | lambda_function.py:15-23 | cleaning a cleaned name changes nothing |
| TypeInference.MaxTextLength | lambda_function.py:48-50 | the running maximum bounds every text value's length and is attained by one of them, or is 0 |
| TypeInference.VarcharLength | lambda_function.py:66-70 | the length is between 100 and 65535; it is exactly 100 when twice the longest text is at most 100, exactly twice the longest text when that lies between 100 and 65535, and never less than twice the longest text unless capped at 65535 |
| TypeInference.ScanValue | lambda_function.py:35-57 | for one value, None and '' change nothing; a datetime or parser-accepted text sets the date flag; an int, bool or float sets the number flag, and a float also the decimal flag; a text raises the running maximum to its length |
| TypeInference.DetectDataType | lambda_function.py:25-70 | the one-pass scan with `has_date`, `has_decimal`, `has_number` and `max_length` returns the type of the reference definition: any date gives TIMESTAMP, else any float gives DECIMAL, else any int or bool gives BIGINT, else VARCHAR |
| TypeInference.InferredTypeOfSameCountedValues | lambda_function.py:34-57 | two columns holding the same values, apart from None and '', get the same type |
| TypeInference.InferredTypeOfPermutation | lambda_function.py:34-57 | reordering a column does not change its type |
| TypeInference.InferredTypeIgnoresSkipped | lambda_function.py:35-36 | inserting None or '' anywhere in a column does not change its type |
| TypeInference.DateDominates | lambda_function.py:38-61 | one non-empty date value anywhere makes the column TIMESTAMP |
| TypeInference.FloatDominatesNumbers | lambda_function.py:43-63 | one float makes the column DECIMAL(18,2) unless it holds a date |
| TypeInference.BooleansAreBigInt | lambda_function.py:43-65 | a non-empty column of booleans is BIGINT |
| TypeInference.TextColumnIsVarchar | lambda_function.py:49-70 | a text column the date parser rejects entirely is VARCHAR sized from its longest entry, even when the text looks numeric |
| TypeInference.TextColumnType | lambda_function.py:49-70 | a column of non-empty text is TIMESTAMP if and only if the parser accepts one entry, and VARCHAR otherwise |
| TypeInference.BlankColumnIsVarchar100 | lambda_function.py:34-70 | a column of only None and '' is VARCHAR(100) |
| TypeInference.VarcharBounds | lambda_function.py:66-70 | every VARCHAR emitted is 100 to 65535 long and at least twice the longest text unless capped |
| Worksheet.BaseHeader | lambda_function.py:84-85 | the cleaned header of a column, from its first-row value or `col_<n>`, is a clean name |
| Worksheet.CandidatesFit | lambda_function.py:89-91 | the duplicate loop tries at most one candidate more than there are headers, so it terminates |
| Worksheet.FreshNameUnique | lambda_function.py:86-91 | the first free candidate among `base`, `base_1`, `base_2`, … is determined uniquely |
| Worksheet.FreshNameIsClean | lambda_function.py:86-91 | a suffixed candidate of a clean name is still a clean name |
| Worksheet.UniqueHeader | lambda_function.py:86-91 | the `while` loop returns the first candidate not among the headers so far |
| Worksheet.FreshHeadersDistinct | lambda_function.py:81-93 | headers each chosen fresh against the earlier ones are pairwise distinct |
| Worksheet.ReadHeaders | lambda_function.py:80-93 | there is one header per column, each the first free candidate for its column's cleaned base against the headers before it |
| Worksheet.LoadedValue | lambda_function.py:106-110 | a date cell holding a datetime becomes its ISO text; every other cell, including an empty date-formatted one, keeps its value unchanged |
| Worksheet.ReadRow | lambda_function.py:100-112 | the row dictionary has exactly the headers as keys and maps each to its cell's loaded value; each header's list grows by that value; no list is added or removed, and lists under other keys are unchanged |
| Worksheet.ReadRows | lambda_function.py:95-112 | there is one dictionary per row 2..max_row, keyed by the headers and holding each cell's loaded value; the column lists are keyed by exactly the headers, and each is that column's values top to bottom |
| Worksheet.DetectColumnTypes | lambda_function.py:114-115 | the types map has exactly the headers as keys and gives each column the inferred type of its values |
| Worksheet.ProcessWorksheet | lambda_function.py:72-117 | headers are distinct clean names, one per column, picked by the duplicate rule; rows hold each cell's loaded value under its header; each header's type is the inferred type of the values the rows hold under it |
| Worksheet.DateCellsLoadAsIsoText | lambda_function.py:106-108 | a column of datetime date cells loads as their ISO texts |
| Worksheet.DateCellColumn | lambda_function.py:106-108 | a column of datetime date cells is TIMESTAMP if and only if the date parser accepts one of their ISO texts, and VARCHAR otherwise |
| Worksheet.DatetimeCellsAreNotTimestamp | lambda_function.py:106-108 | with a parser that accepts at most ten characters, datetime cells whose ISO text is longer give a VARCHAR column |
| Ddl.ColumnListReadsBack | lambda_function.py:124-127 | the `,`-joined `header type` list of clean headers parses back into exactly the headers with their types, in order |
| Ddl.CreateTableSqlReadsBack | lambda_function.py:124-128 | the statement starts with `CREATE TABLE IF NOT EXISTS <table> (`, ends with `);`, and the text between parses back into the headers with their types |
| Handler.Basename | lambda_function.py:163 | the result is the suffix of the key after its last `/` and holds no `/` |
| Handler.SplitExtRoot | lambda_function.py:163 | the result is a prefix of the path; when it is shorter, it ends just before a `.` of the last path component, no `.` or `/` follows that dot, and some character of the component before the dot is not a `.` |
| Handler.SplitExtRootDropsExtension | lambda_function.py:163 | when the last path component has a `.` after a character other than `.`, the root is shorter than the path and ends just before the component's last `.` (so `book.xlsx` gives `book`) |
| Handler.TableName | lambda_function.py:162-164 | the table name is a clean name |
| Handler.TableNameIsStable | lambda_function.py:162-164 | cleaning a table name again changes nothing |
| Handler.TempKey | lambda_function.py:176 | the staging key is `temp/<table>.csv`, and the table name can be recovered from it |
| Handler.TableNameIgnoresDirectory | lambda_function.py:163-164 | the folders in the uploaded key do not affect the table name |
| Handler.SheetNamesCollide | lambda_function.py:163-164 | sheet names that differ only in case or punctuation map to the same table |
| Handler.LoadedSheets | lambda_function.py:154-157 | the sheets loaded are exactly those with `max_row >= 2` |
| Handler.PlanSheet | lambda_function.py:159-176 | the plan for a sheet holds its table name and staging key; headers picked from the first row by the duplicate rule, distinct and clean; one row per data row holding each cell's loaded value under its header; each column's inferred type; and the CREATE text |
| Handler.PlanWorkbook | lambda_function.py:154-176 | the loop yields one plan per sheet with `max_row >= 2`, in workbook order, each as `PlanSheet` promises |
| Handler.PlannedStatementReadsBack | lambda_function.py:124-167 | every planned statement names the sheet's table, and its column list parses back into the headers picked from the sheet's first row, each with its column's inferred type |

## Left out

- S3 and Redshift calls: getting the workbook, uploading and deleting the CSV, and executing statements. They are remote I/O; the model stops at the text and keys they would be given.
- Environment variables (`REDSHIFT_DATABASE`, `REDSHIFT_WORKGROUP`, `REDSHIFT_ROLE_ARN`), logging, and the `COPY` statement text. They are configuration and output, not logic.
- The `try`/`except` that turns any exception into a status 500 response, and the status 200 response body. Failures of the remote calls are not modelled.
- Loading the workbook with openpyxl. A worksheet is given as a map of cells with its `max_row` and `max_column`.
- Writing the CSV with `csv.DictWriter`. The rows it would write are modelled.
- `datetime.strptime(val, '%Y-%m-%d')`: a parameter `isDateText`, not a calendar parser.
- Floats are reduced to whether they are zero and their `str()` text. Their arithmetic is never used.
- `date` and `time` cell values, and other openpyxl value types, are not modelled. Of the values with `isoformat()`, only `datetime` is.
- Unicode: character classes are ASCII, so non-ASCII letters and digits are treated as non-alphanumeric, and lower-casing affects `A`–`Z` only.
- Handler.SplitExtRoot: models POSIX `splitext` for `/`-separated keys only. Backslashes are not separators.
- Cells.PyStr: takes the `str()` text of a float or datetime as given. The model does not rule out that text being empty, which Python's `str()` never produces.
- `header_cells` (column number to header) is not a separate map. It equals `headers[col - 1]`, which the model uses directly.
- `excel2CSV.py` is not part of this model.
