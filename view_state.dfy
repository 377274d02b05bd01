/** The per-session view state of the viewer and the three triggers that
    change it: reset, navigation to a table by name, and running a query. */
module ViewStates {
  import opened Tables

  /** The table a session opens on, and the one whose ids become links. */
  const DirectoryTable := "pgs_dict"

  /** Which table is selected, and the result of the last ad-hoc query when
      one is showing. */
  datatype ViewState = ViewState(selected: string, query: Option<Table>)

  const Initial := ViewState(DirectoryTable, None)

  datatype Trigger = Reset | NavigateTo(id: string) | RunQuery(sql: string)

  /** The selected table is the directory or a name from the snapshot. */
  predicate Known(v: ViewState, names: seq<string>) {
    v.selected == DirectoryTable || v.selected in names
  }

  /** Reset: back to the directory table with no query result, whatever the state. */
  function AfterReset(v: ViewState): (w: ViewState)
    ensures w.selected == DirectoryTable && w.query.None?
    ensures forall names :: Known(w, names)
  {
    Initial
  }

  /** Navigation is honoured only for names in the snapshot taken at session start. */
  function AfterNavigate(v: ViewState, names: seq<string>, id: string): (w: ViewState)
    ensures w == v || (w.selected == id && w.query.None?)
    ensures w != v ==> id in names
    ensures id in names ==> w.selected == id && w.query.None?
    ensures Known(v, names) ==> Known(w, names)
  {
    if id in names then ViewState(id, None) else v
  }

  /** A query result replaces any earlier one; the selection stays as it was. */
  function AfterQuery(v: ViewState, result: Table): (w: ViewState)
    ensures w.selected == v.selected && w.query == Some(result)
  {
    v.(query := Some(result))
  }

  /** One transition of the session, the executor standing in for the database. */
  function Step(v: ViewState, names: seq<string>, exec: string -> Outcome, t: Trigger): (w: ViewState)
    ensures Known(v, names) ==> Known(w, names)
    ensures t.Reset? ==> w == Initial
    ensures t.NavigateTo? && t.id !in names ==> w == v
    ensures t.RunQuery? ==> w.selected == v.selected && w.query.Some?
  {
    match t
    case Reset => AfterReset(v)
    case NavigateTo(id) => AfterNavigate(v, names, id)
    case RunQuery(sql) => AfterQuery(v, ExecuteCustomQuery(exec, sql))
  }

  /** The state reached from the initial one by the triggers `ts`, in order.
      In every such state the selected table is the directory or a name from
      the snapshot. */
  function Run(names: seq<string>, exec: string -> Outcome, ts: seq<Trigger>): (w: ViewState)
    ensures Known(w, names)
  {
    if ts == [] then Initial
    else Step(Run(names, exec, ts[..|ts| - 1]), names, exec, ts[|ts| - 1])
  }

  /** Reset leads to the initial state from any state, so doing it twice is
      the same as doing it once. */
  lemma ResetAbsorbs(v: ViewState, names: seq<string>, exec: string -> Outcome)
    ensures Step(v, names, exec, Reset) == Initial
    ensures Step(Step(v, names, exec, Reset), names, exec, Reset) == Step(v, names, exec, Reset)
  {
  }

  /** Navigation to a known name selects it and clears the query result;
      any other name leaves the state exactly as it was. */
  lemma NavigationGuard(v: ViewState, names: seq<string>, exec: string -> Outcome, id: string)
    ensures id in names ==> Step(v, names, exec, NavigateTo(id)) == ViewState(id, None)
    ensures id !in names ==> Step(v, names, exec, NavigateTo(id)) == v
    ensures Step(v, names, exec, NavigateTo(id)).selected != v.selected ==> id in names
  {
  }

  /** Running a query keeps the selection and leaves its result showing, a
      failed query included; a later query's result replaces an earlier one,
      whatever database the earlier one ran against. */
  lemma QueryKeepsSelection(v: ViewState, names: seq<string>, exec: string -> Outcome, sql: string)
    ensures Step(v, names, exec, RunQuery(sql)).selected == v.selected
    ensures Step(v, names, exec, RunQuery(sql)).query == Some(ExecuteCustomQuery(exec, sql))
    ensures forall first: string, earlier: string -> Outcome ::
              Step(Step(v, names, earlier, RunQuery(first)), names, exec, RunQuery(sql))
                == Step(v, names, exec, RunQuery(sql))
  {
  }

  /** Whenever the database can read the directory table and every table in
      the snapshot, it can read the selected table of every reachable state:
      only names known to exist are ever fetched. */
  lemma ReachableSelectionFetchable(names: seq<string>, exec: string -> Outcome, fetch: string --> Table, ts: seq<Trigger>)
    requires fetch.requires(DirectoryTable)
    requires forall n :: n in names ==> fetch.requires(n)
    ensures fetch.requires(Run(names, exec, ts).selected)
  {
  }

  /** A query result stays in place until a reset or a successful navigation. */
  lemma {:induction false} QueryPersists(names: seq<string>, exec: string -> Outcome, ts: seq<Trigger>, k: nat)
    requires k < |ts| && ts[k].RunQuery?
    requires forall j :: k < j < |ts| ==> ts[j].RunQuery? || (ts[j].NavigateTo? && ts[j].id !in names)
    ensures Run(names, exec, ts).query.Some?
  {
    if k < |ts| - 1 {
      QueryPersists(names, exec, ts[..|ts| - 1], k);
    }
  }
}
