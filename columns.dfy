/** The column heuristic of `validate_csv_data` in app.py: which column of
    the uploaded CSV holds the timestamps and which holds the usage. */
module Columns {

  datatype Option<T> = None | Some(value: T)

  /** The outcome of the column check: the chosen columns, or the message
      the page shows when the file cannot hold both. */
  datatype ColumnCheck = Chosen(datetimeCol: string, usageCol: string) | Rejected(message: string)

  const TooFewColumnsMessage: string := "CSV must have at least 2 columns (datetime and kWh)"

  const DatetimeTerms: seq<string> := ["datetime", "date", "time", "timestamp"]

  const UsageTerms: seq<string> := ["kwh", "usage", "consumption", "power"]

  /** Lower-casing of one character (ASCII letters only). */
  function LowerChar(c: char): char
  {
    if 'A' <= c <= 'Z' then (c as int + 32) as char else c
  }

  function Lower(s: string): (r: string)
    ensures |r| == |s|
    ensures forall i :: 0 <= i < |s| ==> r[i] == LowerChar(s[i])
  {
    if s == [] then [] else [LowerChar(s[0])] + Lower(s[1..])
  }

  /** `term in s` for strings: `term` occurs in `s` as a contiguous run. */
  function Contains(s: string, term: string): bool
  {
    term <= s || (s != [] && Contains(s[1..], term))
  }

  /** `Contains` finds exactly the positions where `term` starts. */
  lemma {:induction false} ContainsAt(s: string, term: string)
    ensures Contains(s, term) <==> exists i :: 0 <= i <= |s| && term <= s[i..]
  {
    if s != [] {
      ContainsAt(s[1..], term);
      if Contains(s[1..], term) {
        var i :| 0 <= i <= |s[1..]| && term <= s[1..][i..];
        assert s[1..][i..] == s[i + 1..];
      }
      if exists i :: 0 <= i <= |s| && term <= s[i..] {
        var i :| 0 <= i <= |s| && term <= s[i..];
        if i > 0 {
          assert s[1..][i - 1..] == s[i..];
        }
      }
    } else {
      assert forall i :: 0 <= i <= |s| ==> s[i..] == [];
    }
  }

  /** A name that contains a word also contains every prefix of that word. */
  lemma {:induction false} ContainsPrefix(s: string, term: string, prefix: string)
    requires prefix <= term && Contains(s, term)
    ensures Contains(s, prefix)
  {
    if !(term <= s) {
      ContainsPrefix(s[1..], term, prefix);
    }
  }

  /** `any(term in name for term in terms)`. */
  predicate MentionsAny(name: string, terms: seq<string>)
  {
    exists i :: 0 <= i < |terms| && Contains(name, terms[i])
  }

  predicate IsDatetimeName(col: string)
  {
    MentionsAny(Lower(col), DatetimeTerms)
  }

  /** Checked only when the name does not look like a datetime column. */
  predicate IsUsageName(col: string)
  {
    !IsDatetimeName(col) && MentionsAny(Lower(col), UsageTerms)
  }

  /** Since "datetime" and "timestamp" contain "date" and "time", a column
      looks like a datetime column exactly when its name mentions "date" or
      "time". */
  lemma DatetimeNameIff(col: string)
    ensures IsDatetimeName(col) <==> Contains(Lower(col), "date") || Contains(Lower(col), "time")
  {
    var name := Lower(col);
    if Contains(name, "datetime") {
      ContainsPrefix(name, "datetime", "date");
    }
    if Contains(name, "timestamp") {
      ContainsPrefix(name, "timestamp", "time");
    }
    if Contains(name, "date") {
      assert Contains(name, DatetimeTerms[1]);
    }
    if Contains(name, "time") {
      assert Contains(name, DatetimeTerms[2]);
    }
  }

  /** The datetime column the loop settles on: the last column that looks
      like one. */
  function DatetimeChoice(columns: seq<string>): Option<string>
  {
    if columns == [] then None
    else if IsDatetimeName(columns[|columns| - 1]) then Some(columns[|columns| - 1])
    else DatetimeChoice(columns[..|columns| - 1])
  }

  /** The usage column the loop settles on: the last column that looks like
      one and not like a datetime column. */
  function UsageChoice(columns: seq<string>): Option<string>
  {
    if columns == [] then None
    else if IsUsageName(columns[|columns| - 1]) then Some(columns[|columns| - 1])
    else UsageChoice(columns[..|columns| - 1])
  }

  /** `Some(c)` is the last column satisfying `IsDatetimeName`; `None` means
      no column does. */
  lemma {:induction false} DatetimeChoiceIsLast(columns: seq<string>)
    ensures DatetimeChoice(columns).None? ==>
      forall j :: 0 <= j < |columns| ==> !IsDatetimeName(columns[j])
    ensures DatetimeChoice(columns).Some? ==>
      exists i :: 0 <= i < |columns| && columns[i] == DatetimeChoice(columns).value
        && IsDatetimeName(columns[i])
        && forall j :: i < j < |columns| ==> !IsDatetimeName(columns[j])
  {
    if columns != [] {
      var n := |columns| - 1;
      var front := columns[..n];
      if !IsDatetimeName(columns[n]) {
        DatetimeChoiceIsLast(front);
        if DatetimeChoice(front).Some? {
          var i :| 0 <= i < |front| && front[i] == DatetimeChoice(front).value
            && IsDatetimeName(front[i])
            && forall j :: i < j < |front| ==> !IsDatetimeName(front[j]);
          assert columns[i] == front[i];
          forall j | i < j < |columns|
            ensures !IsDatetimeName(columns[j])
          {
            if j < n {
              assert columns[j] == front[j];
            }
          }
        } else {
          forall j | 0 <= j < |columns|
            ensures !IsDatetimeName(columns[j])
          {
            if j < n {
              assert columns[j] == front[j];
            }
          }
        }
      }
    }
  }

  /** `Some(c)` is the last column satisfying `IsUsageName`; `None` means no
      column does. */
  lemma {:induction false} UsageChoiceIsLast(columns: seq<string>)
    ensures UsageChoice(columns).None? ==>
      forall j :: 0 <= j < |columns| ==> !IsUsageName(columns[j])
    ensures UsageChoice(columns).Some? ==>
      exists i :: 0 <= i < |columns| && columns[i] == UsageChoice(columns).value
        && IsUsageName(columns[i])
        && forall j :: i < j < |columns| ==> !IsUsageName(columns[j])
  {
    if columns != [] {
      var n := |columns| - 1;
      var front := columns[..n];
      if !IsUsageName(columns[n]) {
        UsageChoiceIsLast(front);
        if UsageChoice(front).Some? {
          var i :| 0 <= i < |front| && front[i] == UsageChoice(front).value
            && IsUsageName(front[i])
            && forall j :: i < j < |front| ==> !IsUsageName(front[j]);
          assert columns[i] == front[i];
          forall j | i < j < |columns|
            ensures !IsUsageName(columns[j])
          {
            if j < n {
              assert columns[j] == front[j];
            }
          }
        } else {
          forall j | 0 <= j < |columns|
            ensures !IsUsageName(columns[j])
          {
            if j < n {
              assert columns[j] == front[j];
            }
          }
        }
      }
    }
  }

  /** The value of an optional choice, or the fallback column. */
  function OrElse(choice: Option<string>, fallback: string): (col: string)
    ensures choice.Some? ==> col == choice.value
    ensures choice.None? ==> col == fallback
  {
    if choice.Some? then choice.value else fallback
  }

  /** The column check: files with fewer than two columns are rejected;
      otherwise the last datetime-looking and the last usage-looking columns
      are chosen, falling back to the first and the second column. */
  method IdentifyColumns(columns: seq<string>) returns (r: ColumnCheck)
    ensures |columns| < 2 ==> r == Rejected(TooFewColumnsMessage)
    ensures |columns| >= 2 ==>
      r == Chosen(OrElse(DatetimeChoice(columns), columns[0]), OrElse(UsageChoice(columns), columns[1]))
  {
    if |columns| < 2 {
      return Rejected(TooFewColumnsMessage);
    }
    var datetimeCol: Option<string> := None;
    var usageCol: Option<string> := None;
    for i := 0 to |columns|
      invariant datetimeCol == DatetimeChoice(columns[..i])
      invariant usageCol == UsageChoice(columns[..i])
    {
      assert columns[..i + 1][..i] == columns[..i];
      var lower := Lower(columns[i]);
      if MentionsAny(lower, DatetimeTerms) {
        datetimeCol := Some(columns[i]);
      } else if MentionsAny(lower, UsageTerms) {
        usageCol := Some(columns[i]);
      }
    }
    assert columns[..|columns|] == columns;
    var datetime := if datetimeCol.Some? then datetimeCol.value else columns[0];
    // The early rejection leaves at least two columns, so the second column
    // is always there to fall back on.
    var usage := if usageCol.Some? then usageCol.value else columns[1];
    r := Chosen(datetime, usage);
  }
}
