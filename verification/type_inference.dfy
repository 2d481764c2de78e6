/** `detect_data_type`: choosing a warehouse column type from the values of one column. */
module TypeInference {
  import opened Strings
  import opened Cells

  /** The column types the inference can produce. */
  datatype SqlType = Timestamp | Decimal | BigInt | Varchar(length: nat)

  /** The type as it is written into SQL. */
  function Render(t: SqlType): (s: string)
    ensures |s| > 0
  {
    match t
    case Timestamp => "TIMESTAMP"
    case Decimal => "DECIMAL(18,2)"
    case BigInt => "BIGINT"
    case Varchar(n) => "VARCHAR(" + NatToString(n) + ")"
  }

  /** The shortest and longest VARCHAR the inference emits. */
  const VarcharFloor: nat := 100
  const VarcharLimit: nat := 65535

  /** `None` and the empty string are passed over by the scan. */
  predicate Skipped(v: Value)
  {
    v.Null? || v == Text("")
  }

  /** A value that marks its column as a date: a datetime, or text the date parser accepts. */
  predicate IsDateValue(v: Value, isDateText: string -> bool)
  {
    v.DateTime? || (v.Text? && isDateText(v.s))
  }

  /** `bool` is a subclass of `int` in Python, so booleans count as numbers. */
  predicate IsNumber(v: Value)
  {
    v.Int? || v.Bool? || v.Float?
  }

  predicate HasDate(values: seq<Value>, isDateText: string -> bool)
  {
    exists v :: v in values && !Skipped(v) && IsDateValue(v, isDateText)
  }

  predicate HasDecimal(values: seq<Value>)
  {
    exists v :: v in values && v.Float?
  }

  predicate HasNumber(values: seq<Value>)
  {
    exists v :: v in values && IsNumber(v)
  }

  /** The length of the longest text value (0 when there is none). */
  function MaxTextLength(values: seq<Value>): (m: nat)
    ensures forall i :: 0 <= i < |values| && values[i].Text? ==> |values[i].s| <= m
    ensures m == 0 || exists i :: 0 <= i < |values| && values[i].Text? && |values[i].s| == m
    decreases |values|
  {
    if values == [] then 0
    else
      var last := values[|values| - 1];
      var rest := MaxTextLength(values[..|values| - 1]);
      if last.Text? && |last.s| > rest then |last.s| else rest
  }

  /** Twice the longest text, at least VarcharFloor and at most VarcharLimit. */
  function VarcharLength(maxLength: nat): (n: nat)
    ensures VarcharFloor <= n <= VarcharLimit
    ensures 2 * maxLength <= VarcharFloor ==> n == VarcharFloor
    ensures VarcharFloor <= 2 * maxLength <= VarcharLimit ==> n == 2 * maxLength
    ensures n >= 2 * maxLength || n == VarcharLimit
  {
    var length := if 2 * maxLength > VarcharFloor then 2 * maxLength else VarcharFloor;
    if length < VarcharLimit then length else VarcharLimit
  }

  /**
   * The type of a column. Any date decides TIMESTAMP; failing that, any float decides
   * DECIMAL(18,2); failing that, any int or bool decides BIGINT; otherwise VARCHAR.
   */
  function InferredType(values: seq<Value>, isDateText: string -> bool): (t: SqlType)
  {
    if HasDate(values, isDateText) then Timestamp
    else if HasDecimal(values) then Decimal
    else if HasNumber(values) then BigInt
    else Varchar(VarcharLength(MaxTextLength(values)))
  }

  /** What one more value does to the three flags and the running maximum. */
  lemma ScanStep(prefix: seq<Value>, v: Value, isDateText: string -> bool)
    ensures HasDate(prefix + [v], isDateText) == (HasDate(prefix, isDateText) || (!Skipped(v) && IsDateValue(v, isDateText)))
    ensures HasDecimal(prefix + [v]) == (HasDecimal(prefix) || v.Float?)
    ensures HasNumber(prefix + [v]) == (HasNumber(prefix) || IsNumber(v))
    ensures MaxTextLength(prefix + [v]) ==
      if v.Text? && |v.s| > MaxTextLength(prefix) then |v.s| else MaxTextLength(prefix)
  {
    var s := prefix + [v];
    assert s[..|s| - 1] == prefix;
    assert forall x :: x in s <==> x in prefix || x == v;
  }

  /** The body of the scan for one value: skips None and '', then updates the flags and the maximum. */
  method ScanValue(v: Value, isDateText: string -> bool, hasDate: bool, hasDecimal: bool, hasNumber: bool, maxLength: nat)
    returns (hasDate': bool, hasDecimal': bool, hasNumber': bool, maxLength': nat)
    ensures hasDate' == (hasDate || (!Skipped(v) && IsDateValue(v, isDateText)))
    ensures hasDecimal' == (hasDecimal || v.Float?)
    ensures hasNumber' == (hasNumber || IsNumber(v))
    ensures maxLength' == if v.Text? && |v.s| > maxLength then |v.s| else maxLength
  {
    hasDate', hasDecimal', hasNumber', maxLength' := hasDate, hasDecimal, hasNumber, maxLength;
    if Skipped(v) {
      return;
    }
    if v.DateTime? {
      hasDate' := true;
    }
    if v.Int? || v.Bool? || v.Float? {
      hasNumber' := true;
      if v.Float? {
        hasDecimal' := true;
      }
    }
    if v.Text? {
      maxLength' := if |v.s| > maxLength then |v.s| else maxLength;
      if isDateText(v.s) {
        hasDate' := true;
      }
    }
  }

  /** The one-pass scan of `detect_data_type`, with its three flags and running maximum. */
  method DetectDataType(values: seq<Value>, isDateText: string -> bool) returns (t: SqlType)
    ensures t == InferredType(values, isDateText)
  {
    var hasNumber, hasDecimal, hasDate := false, false, false;
    var maxLength: nat := 0;
    for i := 0 to |values|
      invariant hasDate == HasDate(values[..i], isDateText)
      invariant hasDecimal == HasDecimal(values[..i])
      invariant hasNumber == HasNumber(values[..i])
      invariant maxLength == MaxTextLength(values[..i])
    {
      assert values[..i + 1] == values[..i] + [values[i]];
      ScanStep(values[..i], values[i], isDateText);
      hasDate, hasDecimal, hasNumber, maxLength := ScanValue(values[i], isDateText, hasDate, hasDecimal, hasNumber, maxLength);
    }
    assert values[..|values|] == values;
    if hasDate {
      t := Timestamp;
    } else if hasDecimal {
      t := Decimal;
    } else if hasNumber {
      t := BigInt;
    } else {
      var length := if maxLength * 2 > 100 then maxLength * 2 else 100;
      length := if length < 65535 then length else 65535;
      t := Varchar(length);
    }
  }

  // ---------------------------------------------------------------------------
  // Properties of the inference

  /** Two columns agree on their counted values: the same values apart from None and ''. */
  ghost predicate SameCountedValues(a: seq<Value>, b: seq<Value>)
  {
    forall v :: !Skipped(v) ==> (v in a <==> v in b)
  }

  lemma MaxTextLengthAtMost(a: seq<Value>, b: seq<Value>)
    requires SameCountedValues(a, b)
    ensures MaxTextLength(a) <= MaxTextLength(b)
  {
    var m := MaxTextLength(a);
    if m != 0 {
      var i :| 0 <= i < |a| && a[i].Text? && |a[i].s| == m;
      assert !Skipped(a[i]);
      assert a[i] in b;
      var j :| 0 <= j < |b| && b[j] == a[i];
    }
  }

  /** The type depends only on which counted values occur, not on order, repetition, None or ''. */
  lemma InferredTypeOfSameCountedValues(a: seq<Value>, b: seq<Value>, isDateText: string -> bool)
    requires SameCountedValues(a, b)
    ensures InferredType(a, isDateText) == InferredType(b, isDateText)
  {
    MaxTextLengthAtMost(a, b);
    MaxTextLengthAtMost(b, a);
    if HasDecimal(a) {
      var v :| v in a && v.Float?;
      assert !Skipped(v) && v in b;
    }
    if HasDecimal(b) {
      var v :| v in b && v.Float?;
      assert !Skipped(v) && v in a;
    }
    if HasNumber(a) {
      var v :| v in a && IsNumber(v);
      assert !Skipped(v) && v in b;
    }
    if HasNumber(b) {
      var v :| v in b && IsNumber(v);
      assert !Skipped(v) && v in a;
    }
  }

  /** Permuting a column leaves its type unchanged. */
  lemma InferredTypeOfPermutation(a: seq<Value>, b: seq<Value>, isDateText: string -> bool)
    requires multiset(a) == multiset(b)
    ensures InferredType(a, isDateText) == InferredType(b, isDateText)
  {
    forall v ensures v in a <==> v in b {
      assert v in a <==> v in multiset(a);
      assert v in b <==> v in multiset(b);
    }
    InferredTypeOfSameCountedValues(a, b, isDateText);
  }

  /** Inserting a None or '' anywhere in a column leaves its type unchanged. */
  lemma InferredTypeIgnoresSkipped(a: seq<Value>, k: nat, x: Value, isDateText: string -> bool)
    requires k <= |a| && Skipped(x)
    ensures InferredType(a[..k] + [x] + a[k..], isDateText) == InferredType(a, isDateText)
  {
    var b := a[..k] + [x] + a[k..];
    forall v | !Skipped(v) ensures v in a <==> v in b {
      assert a == a[..k] + a[k..];
    }
    InferredTypeOfSameCountedValues(a, b, isDateText);
  }

  /** One date anywhere makes the column TIMESTAMP, whatever else it holds. */
  lemma DateDominates(a: seq<Value>, b: seq<Value>, v: Value, isDateText: string -> bool)
    requires !Skipped(v) && IsDateValue(v, isDateText)
    ensures InferredType(a + [v] + b, isDateText) == Timestamp
  {
    assert v in a + [v] + b;
  }

  /** Without dates, one float anywhere makes the column DECIMAL(18,2). */
  lemma FloatDominatesNumbers(values: seq<Value>, k: nat, isDateText: string -> bool)
    requires k < |values| && values[k].Float?
    ensures InferredType(values, isDateText) == (if HasDate(values, isDateText) then Timestamp else Decimal)
  {
    assert values[k] in values;
  }

  /** A column of booleans is BIGINT. */
  lemma BooleansAreBigInt(values: seq<Value>, isDateText: string -> bool)
    requires values != [] && forall i :: 0 <= i < |values| ==> values[i].Bool?
    ensures InferredType(values, isDateText) == BigInt
  {
    assert values[0] in values;
  }

  /**
   * A column of text none of which the date parser accepts is VARCHAR, sized from its
   * longest entry; numeric-looking text stays text.
   */
  lemma TextColumnIsVarchar(values: seq<Value>, isDateText: string -> bool)
    requires forall i :: 0 <= i < |values| ==> values[i].Text? && !isDateText(values[i].s)
    ensures InferredType(values, isDateText) == Varchar(VarcharLength(MaxTextLength(values)))
  {
  }

  /**
   * A column of non-empty text is TIMESTAMP exactly when the date parser accepts one of its
   * entries, and VARCHAR otherwise.
   */
  lemma TextColumnType(values: seq<Value>, isDateText: string -> bool)
    requires forall i :: 0 <= i < |values| ==> values[i].Text? && values[i].s != ""
    ensures InferredType(values, isDateText) == Timestamp <==>
      exists i :: 0 <= i < |values| && isDateText(values[i].s)
    ensures InferredType(values, isDateText) == Timestamp || InferredType(values, isDateText).Varchar?
  {
    if exists i :: 0 <= i < |values| && isDateText(values[i].s) {
      var i :| 0 <= i < |values| && isDateText(values[i].s);
      assert values[i] in values;
    }
  }

  /** A column with nothing but None and '' is VARCHAR(100). */
  lemma BlankColumnIsVarchar100(values: seq<Value>, isDateText: string -> bool)
    requires forall i :: 0 <= i < |values| ==> Skipped(values[i])
    ensures InferredType(values, isDateText) == Varchar(VarcharFloor)
  {
  }

  /** Every VARCHAR the inference emits is between 100 and 65535 characters long. */
  lemma VarcharBounds(values: seq<Value>, isDateText: string -> bool)
    requires InferredType(values, isDateText).Varchar?
    ensures VarcharFloor <= InferredType(values, isDateText).length <= VarcharLimit
    ensures InferredType(values, isDateText).length >= 2 * MaxTextLength(values)
            || InferredType(values, isDateText).length == VarcharLimit
  {
  }
}
