/** The value editor of one rule: which operators get an editor, how the rule's field
    names a table and a column, when a field counts as numeric, which keystrokes a
    numeric field accepts, when suggestions are fetched, and which suggestions are shown. */
module CustomValueEditor {
  import opened Text
  import opened Wrappers

  // ---------------------------------------------------------------- operators

  /** The operators that take no value. */
  const NoValueOperators: seq<string> := ["is null", "is not null"]

  /** The editor renders nothing for an operator that takes no value. This is the first
      render: the early return sits before the hooks, so a mounted editor whose operator
      changes to one of these breaks React's hook order instead. */
  predicate RendersEditor(operator: string)
    ensures RendersEditor(operator) <==> operator != "is null" && operator != "is not null"
  {
    operator !in NoValueOperators
  }

  // ---------------------------------------------------------------- table and column

  /** What the rule editor knows of a field; an absent property is "" (the editor reads
      each one through `||`, which treats "" and `undefined` alike). */
  datatype FieldData = FieldData(tableName: string, name: string, dataType: string)

  /** The table and the column a field names: a dotted field is split at its dots and its
      first two segments are taken; otherwise the table comes from the field data and the
      column from the field data's name, falling back to the field itself. */
  function SplitField(field: string, fieldData: FieldData): (r: (string, string))
    ensures HasChar(field, '.') ==>
      !HasChar(r.0, '.') && !HasChar(r.1, '.') &&
      |r.0| + 1 + |r.1| <= |field| && field[..|r.0| + 1 + |r.1|] == r.0 + "." + r.1 &&
      (|r.0| + 1 + |r.1| == |field| || field[|r.0| + 1 + |r.1|] == '.')
    ensures !HasChar(field, '.') ==>
      r.0 == fieldData.tableName &&
      (fieldData.name != "" ==> r.1 == fieldData.name) &&
      (fieldData.name == "" ==> r.1 == field)
  {
    if HasChar(field, '.') then
      var r := FirstTwoSegments(field, '.');
      var a := AfterFirst(field, '.');
      assert field == r.0 + ['.'] + a;
      assert a[..|r.1|] == r.1;
      assert field[..|r.0| + 1 + |r.1|] == r.0 + ['.'] + a[..|r.1|];
      assert |r.0| + 1 + |r.1| < |field| ==> field[|r.0| + 1 + |r.1|] == a[|r.1|];
      r
    else
      (fieldData.tableName, if fieldData.name == "" then field else fieldData.name)
  }

  /** A qualified field `table.column` names that table and that column, whatever the
      field data says; further segments are dropped. */
  lemma SplitQualified(table: string, column: string, rest: string, fieldData: FieldData)
    requires !HasChar(table, '.') && !HasChar(column, '.')
    ensures SplitField(table + "." + column, fieldData) == (table, column)
    ensures SplitField(table + "." + column + "." + rest, fieldData) == (table, column)
  {
    var f := table + "." + column;
    assert f[|table|] == '.';
    var g := table + "." + column + "." + rest;
    assert g[|table|] == '.';
    FirstTwoSegmentsOfJoined(table, column, rest, '.');
  }

  // ---------------------------------------------------------------- numeric fields

  /** The words whose occurrence in a data type makes a field numeric. */
  const NumericTypeWords: seq<string> :=
    ["number", "int", "integer", "float", "decimal", "numeric", "bigint", "double"]

  /** A field is numeric when its lower-cased data type contains one of the words. */
  predicate IsNumericType(dataType: string) {
    exists k :: 0 <= k < |NumericTypeWords| && Contains(Lower(dataType), NumericTypeWords[k])
  }

  /** A data type containing a numeric word at any position is numeric. */
  lemma {:induction false} WordAtIsNumeric(dataType: string, k: nat, at: nat)
    requires k < |NumericTypeWords|
    requires at + |NumericTypeWords[k]| <= |dataType|
    requires Lower(dataType)[at..at + |NumericTypeWords[k]|] == NumericTypeWords[k]
    ensures IsNumericType(dataType)
  {
    ContainsAt(Lower(dataType), NumericTypeWords[k], at);
  }

  lemma {:induction false} ContainsAt(s: string, t: string, at: nat)
    requires at + |t| <= |s| && s[at..at + |t|] == t
    ensures Contains(s, t)
    decreases at
  {
    if at > 0 {
      assert s[1..][at - 1..at - 1 + |t|] == s[at..at + |t|];
      ContainsAt(s[1..], t, at - 1);
    } else {
      assert s[..|t|] == s[at..at + |t|];
    }
  }

  /** Upper-case type names are numeric too. */
  lemma UpperCaseIsNumeric()
    ensures IsNumericType("INTEGER")
  {
    assert Lower("INTEGER") == "integer";
    WordAtIsNumeric("INTEGER", 2, 0);
  }

  /** The test is on substrings, so every type whose name contains `int` counts,
      including `interval` and `point`. */
  lemma SubstringTypesAreNumeric()
    ensures IsNumericType("interval") && IsNumericType("point")
  {
    assert Lower("interval") == "interval";
    WordAtIsNumeric("interval", 1, 0);
    assert Lower("point") == "point";
    WordAtIsNumeric("point", 1, 2);
  }

  /** A `text` column is not numeric. */
  lemma TextIsNotNumeric()
    ensures !IsNumericType("text")
  {
    assert Lower("text") == "text";
    forall k | 0 <= k < |NumericTypeWords|
      ensures !Contains("text", NumericTypeWords[k])
    {
      var w := NumericTypeWords[k];
      assert |w| > 0 && w[0] in "nifdb";
      assert !HasChar("text", w[0]);
      FirstCharMissing("text", w);
    }
  }

  /** A text without the first character of `t` does not contain `t`. */
  lemma {:induction false} FirstCharMissing(s: string, t: string)
    requires |t| > 0 && !HasChar(s, t[0])
    ensures !Contains(s, t)
    decreases |s|
  {
    if |t| <= |s| {
      assert s[..|t|][0] == s[0];
      assert !HasChar(s[1..], t[0]) by {
        assert forall i :: 0 <= i < |s[1..]| ==> s[1..][i] == s[i + 1];
      }
      FirstCharMissing(s[1..], t);
    }
  }

  // ---------------------------------------------------------------- numeric drafts

  /** How many digits `s` starts with. */
  function LeadingDigits(s: string): (n: nat)
    ensures n <= |s| && IsDigits(s[..n])
    ensures n < |s| ==> !IsDigit(s[n])
  {
    if s != [] && IsDigit(s[0]) then
      var n := 1 + LeadingDigits(s[1..]);
      assert s[..n] == [s[0]] + s[1..][..n - 1];
      n
    else 0
  }

  /** What is left of a numeric draft after its optional leading minus. */
  function DropMinus(s: string): string {
    if |s| > 0 && s[0] == '-' then s[1..] else s
  }

  /** The input filter of a numeric field, read from left to right: an optional minus,
      the longest run of digits, an optional point, and then digits only. */
  predicate NumericDraft(s: string) {
    DraftBody(DropMinus(s))
  }

  /** `t` reads as digits `t[..i]`, then nothing or a point up to `j`, then digits. */
  predicate DraftSplit(t: string, i: int, j: int) {
    0 <= i <= j <= |t| && IsDigits(t[..i]) && (j == i || (j == i + 1 && t[i] == '.'))
    && IsDigits(t[j..])
  }

  /** The pattern "optional minus, digits, optional point, digits", each part possibly
      empty, as a reference definition. */
  ghost predicate DraftPattern(s: string) {
    (exists i, j :: DraftSplit(s, i, j))
    || (|s| > 0 && s[0] == '-' && exists i, j :: DraftSplit(s[1..], i, j))
  }

  /** The filter's reading of `t` after the minus. */
  predicate DraftBody(t: string) {
    var u := t[LeadingDigits(t)..];
    IsDigits(if |u| > 0 && u[0] == '.' then u[1..] else u)
  }

  lemma DraftBodySplits(t: string)
    requires DraftBody(t)
    ensures exists i, j :: DraftSplit(t, i, j)
  {
    var n := LeadingDigits(t);
    var u := t[n..];
    if |u| > 0 && u[0] == '.' {
      assert t[n + 1..] == u[1..];
      assert DraftSplit(t, n, n + 1);
    } else {
      assert DraftSplit(t, n, n);
    }
  }

  /** The digit run is at least as long as any all-digit prefix. */
  lemma {:induction false} LeadingDigitsCover(t: string, i: nat)
    requires i <= |t| && IsDigits(t[..i])
    ensures LeadingDigits(t) >= i
  {
    if i > 0 {
      assert IsDigit(t[..i][0]);
      assert t[1..][..i - 1] == t[..i][1..];
      LeadingDigitsCover(t[1..], i - 1);
    }
  }

  lemma SplitIsDraftBody(t: string, i: int, j: int)
    requires DraftSplit(t, i, j)
    ensures DraftBody(t)
  {
    var n := LeadingDigits(t);
    LeadingDigitsCover(t, i);
    var u := t[n..];
    if n > i {
      assert IsDigit(t[..n][i]);
      assert j == i;
      assert t == t[..i] + t[i..];
      LeadingDigitsCover(t, |t|);
      assert u == [];
    } else if j == i + 1 {
      assert u[1..] == t[j..];
    } else {
      assert u == t[j..];
    }
  }

  /** The left-to-right filter accepts exactly the strings of the pattern. */
  lemma NumericDraftIff(s: string)
    ensures NumericDraft(s) <==> DraftPattern(s)
  {
    var t := DropMinus(s);
    if DraftBody(t) {
      DraftBodySplits(t);
    }
    if exists i, j :: DraftSplit(t, i, j) {
      var i, j :| DraftSplit(t, i, j);
      SplitIsDraftBody(t, i, j);
    }
    if |s| > 0 && s[0] == '-' {
      forall i, j | DraftSplit(s, i, j)
        ensures false
      {
      }
    }
  }

  /** Some drafts the filter lets through and some it stops. */
  lemma NumericDraftExamples()
    ensures NumericDraft("") && NumericDraft("-") && NumericDraft("-12.5") && NumericDraft(".")
    ensures !NumericDraft("1-") && !NumericDraft("1.2.3") && !NumericDraft("e")
  {
    assert LeadingDigits("12.5") == 2 by {
      assert LeadingDigits("2.5") == 1 by { assert LeadingDigits(".5") == 0; }
    }
    assert DropMinus("-12.5") == "12.5";
    assert LeadingDigits("1-") == 1 by { assert LeadingDigits("-") == 0; }
    assert LeadingDigits("1.2.3") == 1 by { assert LeadingDigits(".2.3") == 0; }
    assert "1.2.3"[1..][1..][1] == '.';
  }

  /** A keystroke the editor lets through: anything for a non-numeric field, and for a
      numeric one the empty string, a lone minus, or a numeric draft. */
  predicate AcceptsInput(numeric: bool, value: string) {
    !numeric || value == "" || value == "-" || NumericDraft(value)
  }

  /** The two exceptions are drafts already: a numeric field accepts exactly the drafts. */
  lemma AcceptsExactlyDrafts(numeric: bool, value: string)
    ensures AcceptsInput(numeric, value) <==> !numeric || NumericDraft(value)
  {
    if value == "-" {
      assert DropMinus(value) == "";
    }
  }

  // ---------------------------------------------------------------- suggestions

  /** The suggestions whose text contains the search term, ignoring case, in their order. */
  function Matching(suggestions: seq<string>, term: string): (r: seq<string>)
    ensures |r| <= |suggestions|
  {
    if suggestions == [] then []
    else (if MatchesSearch(suggestions[0], term) then [suggestions[0]] else [])
         + Matching(suggestions[1..], term)
  }

  /** A suggestion is shown exactly when it is offered and matches the term. */
  lemma {:induction false} MatchingIff(suggestions: seq<string>, term: string, s: string)
    ensures s in Matching(suggestions, term) <==> s in suggestions && MatchesSearch(s, term)
  {
    if suggestions != [] {
      MatchingIff(suggestions[1..], term, s);
      assert suggestions == [suggestions[0]] + suggestions[1..];
    }
  }

  lemma MatchingMembers(suggestions: seq<string>, term: string)
    ensures forall s :: s in Matching(suggestions, term) <==> s in suggestions && MatchesSearch(s, term)
  {
    forall s
      ensures s in Matching(suggestions, term) <==> s in suggestions && MatchesSearch(s, term)
    {
      MatchingIff(suggestions, term, s);
    }
  }

  /** Filtering works element by element, so it keeps the order of the suggestions. */
  lemma {:induction false} MatchingAppend(a: seq<string>, b: seq<string>, term: string)
    ensures Matching(a + b, term) == Matching(a, term) + Matching(b, term)
  {
    if a == [] {
      assert a + b == b;
    } else {
      var h := if MatchesSearch(a[0], term) then [a[0]] else [];
      assert (a + b)[0] == a[0];
      assert (a + b)[1..] == a[1..] + b;
      assert Matching(a + b, term) == h + Matching(a[1..] + b, term);
      MatchingAppend(a[1..], b, term);
      assert h + (Matching(a[1..], term) + Matching(b, term))
          == (h + Matching(a[1..], term)) + Matching(b, term);
    }
  }

  /** An empty search term shows every suggestion. */
  lemma {:induction false} MatchingEmptyTerm(suggestions: seq<string>)
    ensures Matching(suggestions, "") == suggestions
  {
    if suggestions != [] {
      MatchingEmptyTerm(suggestions[1..]);
      assert Lower("") == "";
      assert MatchesSearch(suggestions[0], "");
      assert [suggestions[0]] + suggestions[1..] == suggestions;
    }
  }

  // ---------------------------------------------------------------- the editor

  /** The editor's state; `forwarded` lists the values passed on to the rule, oldest
      first. */
  class Editor {
    var searchTerm: string
    var isOpen: bool
    var suggestions: seq<string>
    var loading: bool
    var forwarded: seq<string>
    const tableName: string
    const columnName: string
    const numeric: bool

    /** The editor of a rule whose value is `value` (the empty string for none). */
    constructor (value: string, field: string, fieldData: FieldData)
      ensures searchTerm == value && !isOpen && suggestions == [] && !loading && forwarded == []
      ensures (tableName, columnName) == SplitField(field, fieldData)
      ensures numeric == IsNumericType(fieldData.dataType)
    {
      searchTerm := value;
      isOpen := false;
      suggestions := [];
      loading := false;
      forwarded := [];
      var split := SplitField(field, fieldData);
      tableName := split.0;
      columnName := split.1;
      numeric := IsNumericType(fieldData.dataType);
    }

    /** A keystroke: a rejected one changes nothing; an accepted one becomes the search
        term, is forwarded to the rule, and opens the list unless it is blank. */
    method HandleInputChange(newValue: string)
      modifies this`searchTerm, this`forwarded, this`isOpen
      ensures !AcceptsInput(numeric, newValue) ==>
        searchTerm == old(searchTerm) && forwarded == old(forwarded) && isOpen == old(isOpen)
      ensures AcceptsInput(numeric, newValue) ==>
        searchTerm == newValue && forwarded == old(forwarded) + [newValue] &&
        isOpen == (old(isOpen) || !IsBlank(newValue))
    {
      if numeric && newValue != "" && newValue != "-" {
        if !NumericDraft(newValue) {
          return;
        }
      }
      searchTerm := newValue;
      forwarded := forwarded + [newValue];
      if Trim(newValue) != "" {
        isOpen := true;
      }
    }

    /** What runs after each change of the search term: a trimmed term of odd length
        starts a fetch for it (unless the table or the column is unknown), an empty one
        clears and closes the list, and an even non-zero length does nothing. The
        returned term is the request sent; its answer arrives through `FinishFetch`. */
    method SearchTermChanged() returns (request: Option<string>)
      modifies this`suggestions, this`isOpen, this`loading
      ensures var t := Trim(searchTerm);
        if |t| % 2 == 1 && tableName != "" && columnName != "" then
          request == Some(t) && loading &&
          suggestions == old(suggestions) && isOpen == old(isOpen)
        else if |t| == 0 then
          request == None && suggestions == [] && !isOpen && loading == old(loading)
        else
          request == None && suggestions == old(suggestions) && isOpen == old(isOpen) &&
          loading == old(loading)
    {
      var trimmed := Trim(searchTerm);
      request := None;
      if |trimmed| > 0 && |trimmed| % 2 != 0 {
        if tableName != "" && columnName != "" {
          loading := true;
          request := Some(trimmed);
        }
      } else if |trimmed| == 0 {
        suggestions := [];
        isOpen := false;
      }
    }

    /** The answer to a fetch: the values of a successful one (an answer without values
        counts as none), nothing after an error; the list opens and loading ends. */
    method FinishFetch(values: Option<seq<string>>)
      modifies this`suggestions, this`isOpen, this`loading
      ensures suggestions == (if values.Some? then values.value else [])
      ensures isOpen && !loading
    {
      suggestions := if values.Some? then values.value else [];
      isOpen := true;
      loading := false;
    }

    /** Focus reopens the list when there are suggestions. */
    method HandleInputFocus()
      modifies this`isOpen
      ensures isOpen == (old(isOpen) || |suggestions| > 0)
    {
      if |suggestions| > 0 {
        isOpen := true;
      }
    }

    /** Focus leaving the editor closes the list (after a short delay, not modelled). */
    method HandleBlur(focusInside: bool)
      modifies this`isOpen
      ensures isOpen == (old(isOpen) && focusInside)
    {
      if !focusInside {
        isOpen := false;
      }
    }

    /** Picking a suggestion makes it the search term, forwards it and closes the list. */
    method HandleOptionSelect(value: string)
      modifies this`searchTerm, this`forwarded, this`isOpen
      ensures searchTerm == value && forwarded == old(forwarded) + [value] && !isOpen
    {
      searchTerm := value;
      forwarded := forwarded + [value];
      isOpen := false;
    }

    /** The suggestions on show: exactly the fetched ones that match the search term. */
    function FilteredSuggestions(): (r: seq<string>)
      reads this
      ensures forall s :: s in r <==> s in suggestions && MatchesSearch(s, searchTerm)
    {
      MatchingMembers(suggestions, searchTerm);
      Matching(suggestions, searchTerm)
    }

    /** The list is shown whenever it is open: the second half of the condition, a
        length compared with zero, always holds. */
    function ShouldShowDropdown(): (r: bool)
      reads this
      ensures r == isOpen
    {
      isOpen && (loading || |suggestions| >= 0)
    }
  }
}
