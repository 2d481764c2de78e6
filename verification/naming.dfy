/** `clean_column_name`: turning arbitrary text into a name the warehouse accepts unquoted. */
module Naming {
  import opened Strings

  /** A cleaned name: non-empty, made of `[a-z0-9_]`, not starting with a digit. */
  predicate IsCleanName(s: string)
  {
    |s| > 0 && !IsDigit(s[0]) && AllNameChars(s)
  }

  /** Two names joined by `_` form a clean name when the first one is clean. */
  lemma JoinedNameIsClean(first: string, second: string)
    requires IsCleanName(first) && AllNameChars(second)
    ensures IsCleanName(first + "_" + second)
  {
    var name := first + "_" + second;
    forall i | 0 <= i < |name| ensures IsNameChar(name[i]) {
      if i < |first| {
        assert name[i] == first[i];
      } else if i > |first| {
        assert name[i] == second[i - |first| - 1];
      }
    }
  }

  /** What one character of the lower-cased input becomes. */
  function CleanChar(c: char): char
  {
    if IsAlnum(c) then c else '_'
  }

  /**
   * Lower-case the text, replace every non-alphanumeric character by `_`, and put `col_`
   * in front when the result starts with a digit; empty text becomes `unnamed_column`.
   */
  function CleanColumnName(column: string): (r: string)
    ensures IsCleanName(r)
    ensures column == "" ==> r == "unnamed_column"
  {
    if column == "" then "unnamed_column"
    else
      var lowered := Lower(column);
      var cleaned := seq(|lowered|, i requires 0 <= i < |lowered| => CleanChar(lowered[i]));
      if IsDigit(cleaned[0]) then "col_" + cleaned else cleaned
  }

  /**
   * Character by character: each alphanumeric character is lower-cased, every other one becomes
   * `_`, and `col_` comes first exactly when the text starts with a digit.
   */
  lemma CleanColumnNameChars(column: string)
    requires column != ""
    ensures var r := CleanColumnName(column);
      && |r| == |column| + (if IsDigit(column[0]) then 4 else 0)
      && (IsDigit(column[0]) ==> r[..4] == "col_")
      && forall i :: 0 <= i < |column| ==>
           var c := r[|r| - |column| + i];
           (IsAlnum(column[i]) ==> c == ToLower(column[i])) && (!IsAlnum(column[i]) ==> c == '_')
  {
  }

  /** A name that is already clean is left as it is. */
  lemma CleanNameIsFixedPoint(s: string)
    requires IsCleanName(s)
    ensures CleanColumnName(s) == s
  {
    var lowered := Lower(s);
    assert lowered == s by {
      forall i | 0 <= i < |s| ensures lowered[i] == s[i] {
        assert IsNameChar(s[i]);
      }
    }
    var cleaned := seq(|lowered|, i requires 0 <= i < |lowered| => CleanChar(lowered[i]));
    assert cleaned == s by {
      forall i | 0 <= i < |s| ensures cleaned[i] == s[i] {
        assert IsNameChar(s[i]);
      }
    }
  }

  /** Cleaning is idempotent. */
  lemma CleanIsIdempotent(column: string)
    ensures CleanColumnName(CleanColumnName(column)) == CleanColumnName(column)
  {
    CleanNameIsFixedPoint(CleanColumnName(column));
  }
}
