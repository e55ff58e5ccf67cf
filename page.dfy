/** The state of the query page that the join editor, the pager and the run button
    update: the join list, the join being edited, the modal flag, the page window, the
    selected table, the rule tree, the rows and the error line. */
module Page {
  import opened Wrappers
  import opened QueryTypes
  import QueryBuilder
  import ResultsTable

  /** The join list without the element at position `index`. */
  function RemoveAt(s: seq<JoinConfig>, index: int): (r: seq<JoinConfig>)
    ensures |r| == if 0 <= index < |s| then |s| - 1 else |s|
    decreases |s|
  {
    if s == [] then [] else (if index == 0 then [] else [s[0]]) + RemoveAt(s[1..], index - 1)
  }

  /** Removing position `index` drops exactly that element and keeps the rest in order; an
      index outside the list removes nothing. */
  lemma {:induction false} RemoveAtSpec(s: seq<JoinConfig>, index: int)
    ensures 0 <= index < |s| ==> RemoveAt(s, index) == s[..index] + s[index + 1..]
    ensures !(0 <= index < |s|) ==> RemoveAt(s, index) == s
    decreases |s|
  {
    if s != [] {
      RemoveAtSpec(s[1..], index - 1);
      if index == 0 {
        assert s[1..] == s[..0] + s[1..];
      } else if 0 < index < |s| {
        assert [s[0]] + (s[1..][..index - 1] + s[1..][index..]) == s[..index] + s[index + 1..];
      } else {
        assert [s[0]] + s[1..] == s;
      }
    }
  }

  /** The join the modal starts a fresh edit with. */
  const BlankJoin := JoinConfig("INNER", "", "", "")

  /** What `executeQuery` posts to the query endpoint: no projection list is sent. */
  datatype QueryRequest = QueryRequest(table: string, query: Group, joins: seq<JoinConfig>)

  /** What comes back: the rows, or the message of the error that was thrown. */
  datatype QueryOutcome<V> = Rows(data: seq<ResultsTable.Row<V>>) | Error(message: string)

  class QueryPage<V> {
    var joins: seq<JoinConfig>
    var newJoin: JoinConfig
    var showJoinModal: bool
    var currentPage: int
    var itemsPerPage: int
    var selectedTable: string
    var query: Group
    var data: seq<ResultsTable.Row<V>>
    var loading: bool
    var error: Option<string>

    /** The initial state; the first join edit starts as a RIGHT join. */
    constructor ()
      ensures joins == [] && newJoin == JoinConfig("RIGHT", "", "", "") && !showJoinModal
      ensures currentPage == 1 && itemsPerPage == 10
      ensures selectedTable == "" && query == Group("and", []) && data == []
      ensures !loading && error == None
    {
      joins := [];
      newJoin := JoinConfig("RIGHT", "", "", "");
      showJoinModal := false;
      currentPage := 1;
      itemsPerPage := 10;
      selectedTable := "";
      query := Group("and", []);
      data := [];
      loading := false;
      error := None;
    }

    /** `onTargetTableChange`: a new target table clears both join columns and keeps the
        join type. Loading that table's columns is a request and is not modelled. */
    method OnTargetTableChange(tableName: string)
      modifies this
      ensures newJoin == JoinConfig(old(newJoin).joinType, tableName, "", "")
      ensures joins == old(joins) && showJoinModal == old(showJoinModal)
      ensures unchanged(this`currentPage, this`itemsPerPage, this`selectedTable, this`query,
                        this`data, this`loading, this`error)
    {
      newJoin := newJoin.(targetTable := tableName, sourceColumn := "", targetColumn := "");
    }

    /** `addJoin`: a join with a target table and both columns is appended, the edit is
        reset and the modal closes; an incomplete join changes nothing. */
    method AddJoin()
      modifies this
      ensures var complete := old(newJoin).targetTable != "" && old(newJoin).sourceColumn != ""
                              && old(newJoin).targetColumn != "";
        if complete then
          joins == old(joins) + [old(newJoin)] && newJoin == BlankJoin && !showJoinModal
        else
          joins == old(joins) && newJoin == old(newJoin) && showJoinModal == old(showJoinModal)
      ensures unchanged(this`currentPage, this`itemsPerPage, this`selectedTable, this`query,
                        this`data, this`loading, this`error)
    {
      if newJoin.targetTable != "" && newJoin.sourceColumn != "" && newJoin.targetColumn != "" {
        joins := joins + [newJoin];
        newJoin := BlankJoin;
        showJoinModal := false;
      }
    }

    /** `removeJoin`. */
    method RemoveJoin(index: int)
      modifies this`joins
      ensures joins == RemoveAt(old(joins), index)
    {
      joins := RemoveAt(joins, index);
    }

    /** `handleItemsPerPageChange`: a new page size starts again at page 1. */
    method HandleItemsPerPageChange(items: int)
      modifies this`itemsPerPage, this`currentPage
      ensures itemsPerPage == items && currentPage == 1
    {
      itemsPerPage := items;
      currentPage := 1;
    }

    /** `handlePageChange`. */
    method HandlePageChange(page: int)
      modifies this`currentPage
      ensures currentPage == page
    {
      currentPage := page;
    }

    /** The rows of the current page: the same window the results table shows. */
    function CurrentData(): (r: seq<ResultsTable.Row<V>>)
      reads this
      ensures itemsPerPage > 0 ==> |r| <= itemsPerPage
    {
      var r := ResultsTable.PageSlice(data, currentPage, itemsPerPage);
      if itemsPerPage > 0 then
        ResultsTable.PageSliceBounded(data, currentPage, itemsPerPage);
        r
      else r
    }

    /** The page count: enough pages for every row, and not one more. */
    function TotalPages(): (r: nat)
      reads this
      requires itemsPerPage > 0
      ensures r * itemsPerPage >= |data|
      ensures r > 0 ==> (r - 1) * itemsPerPage < |data|
    {
      ResultsTable.TotalPagesIsCeiling(|data|, itemsPerPage);
      ResultsTable.TotalPages(|data|, itemsPerPage)
    }

    /** The first half of `executeQuery`: without a selected table it sets the error and
        sends nothing; otherwise it starts loading, clears the error and returns the
        request carrying the cleaned rule tree. */
    method ExecuteQuery() returns (request: Option<QueryRequest>)
      modifies this`loading, this`error
      ensures selectedTable == "" ==>
        request == None && error == Some("Please select a table first!") && loading == old(loading)
      ensures selectedTable != "" ==>
        request == Some(QueryRequest(selectedTable, QueryBuilder.ProcessQueryRules(query), joins))
        && loading && error == None
    {
      if selectedTable == "" {
        error := Some("Please select a table first!");
        return None;
      }
      loading := true;
      error := None;
      request := Some(QueryRequest(selectedTable, QueryBuilder.ProcessQueryRules(query), joins));
    }

    /** The second half of `executeQuery`: rows replace the data and reset the pager to
        page 1, an error sets its message; loading ends either way. */
    method FinishQuery(outcome: QueryOutcome<V>)
      modifies this`data, this`currentPage, this`error, this`loading
      ensures outcome.Rows? ==> data == outcome.data && currentPage == 1 && error == old(error)
      ensures outcome.Error? ==>
        error == Some(outcome.message) && data == old(data) && currentPage == old(currentPage)
      ensures !loading
    {
      if outcome.Rows? {
        data := outcome.data;
        currentPage := 1;
      } else {
        error := Some(outcome.message);
      }
      loading := false;
    }
  }

  /** Adding a complete join and then removing it by its position gives back the list. */
  lemma AddThenRemove(joins: seq<JoinConfig>, j: JoinConfig)
    ensures RemoveAt(joins + [j], |joins|) == joins
  {
    RemoveAtSpec(joins + [j], |joins|);
    assert (joins + [j])[..|joins|] == joins;
  }

  /** Removing a join renumbers the later ones: the join that was at `k > index` is now
      at `k - 1`, and the ones before `index` keep their position (and their `jN` alias). */
  lemma RemoveShifts(joins: seq<JoinConfig>, index: int, k: int)
    requires 0 <= index < |joins| && 0 <= k < |joins| && k != index
    ensures k < index ==> RemoveAt(joins, index)[k] == joins[k]
    ensures k > index ==> RemoveAt(joins, index)[k - 1] == joins[k]
  {
    RemoveAtSpec(joins, index);
  }
}
