/**
 * The text of the `CREATE TABLE IF NOT EXISTS` statement built in `create_table_if_not_exists`,
 * and a reader for its column list that shows the list is unambiguous.
 */
module Ddl {
  import opened Strings
  import opened Naming
  import opened TypeInference

  datatype Option<T> = Nothing | Some(value: T)

  /** One column of the statement: `header type`. */
  function ColumnDefinition(header: string, t: SqlType): string
  {
    header + " " + Render(t)
  }

  /** Every header with its type, in header order. */
  function Columns(headers: seq<string>, columnTypes: map<string, SqlType>): (cols: seq<(string, SqlType)>)
    requires forall h :: h in headers ==> h in columnTypes
    ensures |cols| == |headers|
  {
    seq(|headers|, i requires 0 <= i < |headers| => (headers[i], columnTypes[headers[i]]))
  }

  /** The column definitions joined by `,`. */
  function ColumnList(headers: seq<string>, columnTypes: map<string, SqlType>): string
    requires forall h :: h in headers ==> h in columnTypes
  {
    Join(",", seq(|headers|, i requires 0 <= i < |headers| => ColumnDefinition(headers[i], columnTypes[headers[i]])))
  }

  /** What the statement text holds before its column list. */
  function StatementHead(tableName: string): string
  {
    "\n    CREATE TABLE IF NOT EXISTS " + tableName + " (\n        "
  }

  /** What the statement text holds after its column list. */
  const StatementTail: string := "\n    );\n    "

  /** The whole statement text, with the layout of the source's triple-quoted f-string. */
  function CreateTableSql(tableName: string, headers: seq<string>, columnTypes: map<string, SqlType>): string
    requires forall h :: h in headers ==> h in columnTypes
  {
    "\n    CREATE TABLE IF NOT EXISTS " + tableName + " (\n        "
    + ColumnList(headers, columnTypes)
    + "\n    );\n    "
  }

  // ---------------------------------------------------------------------------
  // Reading a column list back

  /** Reads a type at the start of `s`, returning it and what follows. */
  function ParseType(s: string): (r: Option<(SqlType, string)>)
    ensures r.Some? ==> |r.value.1| < |s|
  {
    if "TIMESTAMP" <= s then Some((Timestamp, s[9..]))
    else if "DECIMAL(18,2)" <= s then Some((Decimal, s[13..]))
    else if "BIGINT" <= s then Some((BigInt, s[6..]))
    else if "VARCHAR(" <= s then ParseLength(s[8..])
    else Nothing
  }

  /** Reads the `n)` that closes `VARCHAR(n)`. */
  function ParseLength(s: string): (r: Option<(SqlType, string)>)
    ensures r.Some? ==> |r.value.1| < |s|
  {
    var digits := TakeWhile(IsDigit, s);
    var rest := s[|digits|..];
    if |digits| > 0 && |rest| > 0 && rest[0] == ')' then Some((Varchar(DigitsValue(digits)), rest[1..]))
    else Nothing
  }

  /** Reads `header type` at the start of `s`, returning the pair and what follows. */
  function ParseColumn(s: string): (r: Option<((string, SqlType), string)>)
    ensures r.Some? ==> |r.value.1| < |s|
  {
    var name := TakeWhile(IsNameChar, s);
    if |name| == 0 || |name| == |s| || s[|name|] != ' ' then Nothing
    else
      match ParseType(s[|name| + 1..])
      case Nothing => Nothing
      case Some((t, rest)) => Some(((name, t), rest))
  }

  /** Reads a `,`-separated list of columns. */
  function ParseColumnList(s: string): Option<seq<(string, SqlType)>>
    decreases |s|
  {
    if s == "" then Some([])
    else
      match ParseColumn(s)
      case Nothing => Nothing
      case Some((col, rest)) =>
        if rest == "" then Some([col])
        else if rest[0] != ',' then Nothing
        else
          match ParseColumnList(rest[1..])
          case Nothing => Nothing
          case Some(cols) => Some([col] + cols)
  }

  lemma ParseLengthOf(n: nat, rest: string)
    ensures ParseLength(NatToString(n) + (")" + rest)) == Some((Varchar(n), rest))
  {
    var text := NatToString(n);
    TakeWhileOf(IsDigit, text, ")" + rest);
    assert (text + (")" + rest))[|text|..] == ")" + rest;
    DigitsValueOfNatToString(n);
  }

  lemma ParseVarchar(n: nat, rest: string)
    ensures ParseType(Render(Varchar(n)) + rest) == Some((Varchar(n), rest))
  {
    var after := NatToString(n) + (")" + rest);
    var s := "VARCHAR(" + after;
    assert Render(Varchar(n)) + rest == s;
    assert s[0] == 'V';
    NotPrefixAtFirst("TIMESTAMP", s);
    NotPrefixAtFirst("DECIMAL(18,2)", s);
    NotPrefixAtFirst("BIGINT", s);
    PrefixOfConcat("VARCHAR(", after);
    ParseLengthOf(n, rest);
  }

  /** A rendered type reads back as itself, whatever follows it. */
  lemma ParseRenderedType(t: SqlType, rest: string)
    ensures ParseType(Render(t) + rest) == Some((t, rest))
  {
    var s := Render(t) + rest;
    match t
    case Timestamp =>
      PrefixOfConcat("TIMESTAMP", rest);
    case Decimal =>
      assert s[0] == 'D';
      NotPrefixAtFirst("TIMESTAMP", s);
      PrefixOfConcat("DECIMAL(18,2)", rest);
    case BigInt =>
      assert s[0] == 'B';
      NotPrefixAtFirst("TIMESTAMP", s);
      NotPrefixAtFirst("DECIMAL(18,2)", s);
      PrefixOfConcat("BIGINT", rest);
    case Varchar(n) =>
      ParseVarchar(n, rest);
  }

  /** What `ParseColumn` does once the name, the space and the type have been found. */
  lemma ParseColumnOf(s: string, header: string, t: SqlType, rest: string)
    requires |header| > 0 && TakeWhile(IsNameChar, s) == header
    requires |header| < |s| && s[|header|] == ' '
    requires ParseType(s[|header| + 1..]) == Some((t, rest))
    ensures ParseColumn(s) == Some(((header, t), rest))
  {
  }

  /** A column definition with a name of name characters reads back as its header and type. */
  lemma ParseColumnDefinition(header: string, t: SqlType, rest: string)
    requires |header| > 0 && AllNameChars(header)
    ensures ParseColumn(ColumnDefinition(header, t) + rest) == Some(((header, t), rest))
  {
    var typed := Render(t) + rest;
    var after := " " + typed;
    var s := header + after;
    assert ColumnDefinition(header, t) + rest == s;
    TakeWhileOf(IsNameChar, header, after);
    PrefixOfConcat(header, after);
    PrefixOfConcat(" ", typed);
    assert s[|header| + 1..] == typed;
    ParseRenderedType(t, rest);
    ParseColumnOf(s, header, t, rest);
  }

  /** One step of the list reader: a column, a `,`, and a list that reads back. */
  lemma ParseColumnListStep(first: string, col: (string, SqlType), restText: string, cols: seq<(string, SqlType)>)
    requires first != ""
    requires ParseColumn(first + ("," + restText)) == Some((col, "," + restText))
    requires ParseColumnList(restText) == Some(cols)
    ensures ParseColumnList(first + ("," + restText)) == Some([col] + cols)
  {
    assert ("," + restText)[1..] == restText;
  }

  /** The first column definition, then `,` and the list of the rest. */
  lemma ColumnListCons(headers: seq<string>, columnTypes: map<string, SqlType>)
    requires |headers| >= 2 && forall h :: h in headers ==> h in columnTypes
    ensures ColumnList(headers, columnTypes)
      == ColumnDefinition(headers[0], columnTypes[headers[0]]) + ("," + ColumnList(headers[1..], columnTypes))
  {
    var tail := headers[1..];
    var defs := seq(|headers|, i requires 0 <= i < |headers| => ColumnDefinition(headers[i], columnTypes[headers[i]]));
    var tailDefs := seq(|tail|, i requires 0 <= i < |tail| => ColumnDefinition(tail[i], columnTypes[tail[i]]));
    assert defs[1..] == tailDefs;
  }

  /** A single column definition is the whole list. */
  lemma ColumnListSingle(headers: seq<string>, columnTypes: map<string, SqlType>)
    requires |headers| == 1 && headers[0] in columnTypes
    ensures ColumnList(headers, columnTypes) == ColumnDefinition(headers[0], columnTypes[headers[0]])
  {
  }

  lemma ColumnsCons(headers: seq<string>, columnTypes: map<string, SqlType>)
    requires |headers| >= 1 && forall h :: h in headers ==> h in columnTypes
    ensures Columns(headers, columnTypes) == [(headers[0], columnTypes[headers[0]])] + Columns(headers[1..], columnTypes)
  {
  }

  /**
   * The column list is unambiguous: read back, it gives every header with its type, in header
   * order. The headers of a worksheet are clean names, so this applies to every table created.
   */
  lemma {:induction false} ColumnListReadsBack(headers: seq<string>, columnTypes: map<string, SqlType>)
    requires forall h :: h in headers ==> h in columnTypes && IsCleanName(h)
    ensures ParseColumnList(ColumnList(headers, columnTypes)) == Some(Columns(headers, columnTypes))
    decreases |headers|
  {
    if |headers| > 0 {
      var h := headers[0];
      assert h in headers;
      var t := columnTypes[h];
      var tail := headers[1..];
      assert forall x :: x in tail ==> x in headers;
      ColumnsCons(headers, columnTypes);
      if |headers| == 1 {
        ColumnListSingle(headers, columnTypes);
        ParseColumnDefinition(h, t, "");
        assert ColumnDefinition(h, t) + "" == ColumnDefinition(h, t);
        var d := ColumnDefinition(h, t);
        assert ParseColumn(d) == Some(((h, t), ""));
        assert ParseColumnList(d) == Some([(h, t)]);
        assert Columns(tail, columnTypes) == [];
        assert Columns(headers, columnTypes) == [(h, t)];
        assert ColumnList(headers, columnTypes) == d;
      } else {
        var restText := ColumnList(tail, columnTypes);
        ColumnListCons(headers, columnTypes);
        ParseColumnDefinition(h, t, "," + restText);
        ColumnListReadsBack(tail, columnTypes);
        ParseColumnListStep(ColumnDefinition(h, t), (h, t), restText, Columns(tail, columnTypes));
      }
    }
  }

  /**
   * The statement names the table, and the text between its head and its tail reads back as
   * every header with its type, in header order.
   */
  lemma CreateTableSqlReadsBack(tableName: string, headers: seq<string>, columnTypes: map<string, SqlType>)
    requires forall h :: h in headers ==> h in columnTypes && IsCleanName(h)
    ensures var sql := CreateTableSql(tableName, headers, columnTypes);
      var start := |StatementHead(tableName)|;
      var end := |sql| - |StatementTail|;
      && start <= end
      && sql[..start] == StatementHead(tableName)
      && sql[end..] == StatementTail
      && ParseColumnList(sql[start..end]) == Some(Columns(headers, columnTypes))
  {
    var sql := CreateTableSql(tableName, headers, columnTypes);
    var list := ColumnList(headers, columnTypes);
    var start := |StatementHead(tableName)|;
    assert sql == StatementHead(tableName) + list + StatementTail;
    assert sql[start..|sql| - |StatementTail|] == list;
    ColumnListReadsBack(headers, columnTypes);
  }
}
