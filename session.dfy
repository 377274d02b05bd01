/** One browser session of the viewer: the two mutable cells it owns, the
    snapshot of table names taken when it starts, and its event handlers. */
module Sessions {
  import opened Tables
  import opened ViewStates
  import opened Presentation

  class Session {
    /** Table names read once at session start; never refreshed. */
    const tableNames: seq<string>
    var selectedTable: string
    var customQueryResult: Option<Table>

    function View(): ViewState
      reads this
    {
      ViewState(selectedTable, customQueryResult)
    }

    ghost predicate Valid()
      reads this
    {
      Known(View(), tableNames)
    }

    /** A new session, given the table names the database lists at its start. */
    constructor (tableNames: seq<string>)
      ensures this.tableNames == tableNames
      ensures selectedTable == DirectoryTable && customQueryResult == None
      ensures View() == Initial && Valid()
    {
      this.tableNames := tableNames;
      selectedTable := DirectoryTable;
      customQueryResult := None;
    }

    /** The reset button: back to the directory table, any query result cleared. */
    method ResetToMain()
      requires Valid()
      modifies this
      ensures selectedTable == DirectoryTable && customQueryResult == None
      ensures View() == AfterReset(old(View())) && Valid()
    {
      selectedTable := DirectoryTable;
      customQueryResult := None;
    }

    /** A click on an id link: honoured only for a name in the snapshot. */
    method HandlePgsIdClick(selectedPgsId: string)
      requires Valid()
      modifies this
      ensures selectedPgsId in tableNames ==>
                selectedTable == selectedPgsId && customQueryResult == None
      ensures selectedPgsId !in tableNames ==>
                selectedTable == old(selectedTable) && customQueryResult == old(customQueryResult)
      ensures View() == AfterNavigate(old(View()), tableNames, selectedPgsId) && Valid()
    {
      if selectedPgsId in tableNames {
        selectedTable := selectedPgsId;
        customQueryResult := None;
      }
    }

    /** The run-query button: the executor's result, or its error table,
        replaces whatever query result was showing. */
    method RunCustomQuery(exec: string -> Outcome, query: string)
      requires Valid()
      modifies this
      ensures selectedTable == old(selectedTable)
      ensures customQueryResult == Some(ExecuteCustomQuery(exec, query))
      ensures View() == AfterQuery(old(View()), ExecuteCustomQuery(exec, query)) && Valid()
    {
      var result := ExecuteCustomQuery(exec, query);
      customQueryResult := Some(result);
    }

    /** The table region: the active dataset, with the id column rewritten
        into links, one row at a time, when the directory table is showing. */
    method TableOutput(fetch: string --> Table) returns (r: Render)
      requires Valid()
      requires fetch.requires(DirectoryTable) && forall n :: n in tableNames ==> fetch.requires(n)
      ensures r == RenderTable(View(), fetch)
      ensures customQueryResult.Some? ==> r == Shown(customQueryResult.value)
    {
      var data: Table;
      if customQueryResult.Some? {
        data := customQueryResult.value;
      } else {
        data := GetTableData(fetch, selectedTable);
      }
      if selectedTable == DirectoryTable && customQueryResult.None? {
        if IdColumn !in data.columns {
          return KeyError(IdColumn);
        }
        var rows := new seq<Cell>[|data.rows|](i requires 0 <= i < |data.rows| => data.rows[i]);
        LinkColumnInPlace(data.columns, rows);
        assert rows[..] == InjectLinks(data).table.rows;
        r := Shown(Frame(data.columns, rows[..]));
      } else {
        r := Shown(data);
      }
    }
  }

  /** `table_data['pgs_id'] = table_data['pgs_id'].apply(create_button)`,
      done row by row on the rows of a table with headers `cols`. */
  method LinkColumnInPlace(cols: seq<string>, rows: array<seq<Cell>>)
    requires forall k :: 0 <= k < rows.Length ==> |rows[k]| == |cols|
    modifies rows
    ensures forall k :: 0 <= k < rows.Length ==> rows[k] == LinkRow(cols, old(rows[k]))
  {
    var i := 0;
    while i < rows.Length
      invariant 0 <= i <= rows.Length
      invariant forall k :: 0 <= k < i ==> rows[k] == LinkRow(cols, old(rows[k]))
      invariant forall k :: i <= k < rows.Length ==> rows[k] == old(rows[k])
    {
      rows[i] := LinkRow(cols, rows[i]);
      i := i + 1;
    }
  }

  /** Scenario: a successful query is shown as it came back, under the query label. */
  lemma QueryScenario(names: seq<string>, exec: string -> Outcome, fetch: string --> Table, sql: string)
    requires exec(sql).Rows?
    ensures Status(Run(names, exec, [RunQuery(sql)])) == QueryStatus
    ensures RenderTable(Run(names, exec, [RunQuery(sql)]), fetch) == Shown(exec(sql).table)
  {
  }

  /** Scenario: a failing query shows the one-cell `Error` table. */
  lemma FailedQueryScenario(names: seq<string>, exec: string -> Outcome, fetch: string --> Table, sql: string)
    requires exec(sql).Raised?
    ensures RenderTable(Run(names, exec, [RunQuery(sql)]), fetch)
            == Shown(Frame([ErrorColumn], [[Text(exec(sql).message)]]))
  {
  }

  /** Scenario: following a link to a known table shows that table. */
  lemma NavigateScenario(names: seq<string>, exec: string -> Outcome, fetch: string --> Table, id: string)
    requires id in names && id != DirectoryTable && fetch.requires(id)
    ensures Status(Run(names, exec, [NavigateTo(id)])) == SelectedPrefix + id
    ensures RenderTable(Run(names, exec, [NavigateTo(id)]), fetch) == Shown(GetTableData(fetch, id))
  {
  }

  /** Scenario: a link to an unknown name is ignored. */
  lemma UnknownNavigateScenario(names: seq<string>, exec: string -> Outcome, id: string)
    requires id !in names
    ensures Run(names, exec, [NavigateTo(id)]) == Initial
    ensures Status(Run(names, exec, [NavigateTo(id)])) == SelectedPrefix + DirectoryTable
  {
  }

  /** Scenario: reset after a query returns to the directory table. */
  lemma ResetScenario(names: seq<string>, exec: string -> Outcome, sql: string)
    ensures Run(names, exec, [RunQuery(sql), Reset]) == Initial
    ensures Status(Run(names, exec, [RunQuery(sql), Reset])) == SelectedPrefix + DirectoryTable
  {
  }
}
