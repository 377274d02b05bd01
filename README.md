# PGS database viewer: view-state model

This project models the core of a small web viewer for a SQLite database of
polygenic-score tables. Each browser session has two mutable cells:

- the selected table, which starts as `pgs_dict`, the directory table;
- the result of the last ad-hoc query, which starts out absent.

The session also holds a snapshot of the database's table names, taken once
when the session starts.

Three event handlers change the two cells:

- the reset button;
- a click on a `pgs_id` link in the directory table; the handler honours
  it only for a name in the snapshot;
- the run-query button.

From the cells the viewer derives three things: the status line, the dataset
to show (a query result, an error table included, always wins over the
selected table), and the rewrite of the directory's `pgs_id` column into
navigation links.

Modules:

- `Tables` (`tables.dfy`): cells, rectangular tables, and the two table helpers. The helpers drop the `filename` column from a fetched table and turn a failed query into a one-cell `Error` table. The database is an oracle. `fetch: string --> Table` reads a whole table; it is partial, defined on the tables that exist. `exec: string -> Outcome` runs a statement and yields rows or a raised message.
- `ViewStates` (`view_state.dfy`): the view state as a value. It holds the three transitions as pure functions, `Step` and `Run` over a sequence of triggers, and the properties of the transitions.
- `Presentation` (`presentation.dfy`): the status line, the active dataset, link injection and the rendered table, with their properties.
- `Sessions` (`session.dfy`): the session as a class. It has two mutable fields, the snapshot as a `const`, one method per handler, and `TableOutput`. `TableOutput` rewrites the id column row by row in an array. The file also holds the end-to-end scenarios.

## Model

| member | source | states |
|---|---|---|
| Tables.Keep | app.py:11-12 | the surviving headers are exactly the old headers other than the dropped name, and nothing changes when the name is absent |
| Tables.KeepAppend | app.py:12 | dropping a header distributes over concatenation, so the surviving headers keep their relative order |
| Tables.KeepOne | app.py:12 | a single header survives exactly when it is not the dropped one |
| Tables.KeepCells | app.py:12 | each row keeps one cell per surviving header, and the row is unchanged when the name is absent |
| Tables.KeepCellsStayUnderHeader | app.py:12 | read as (header, cell) pairs, a row after the drop is the old row minus the pairs under the dropped header, in the original order |
| Tables.DropColumn | app.py:12 | the headers are the old ones minus the dropped name, in their old order (`Keep`); the row count is the same; every remaining cell stays under its own header, in order |
| Tables.GetTableData | app.py:8-13 | only a name the database can read may be fetched; the fetched table loses its `filename` column if it has one, the other headers keep their order (`Keep`), the row count is kept, cells stay under their headers, and a table without `filename` is returned as fetched |
| Tables.ExecuteCustomQuery | app.py:19-23 | a successful query returns its rows unchanged; a failure yields exactly one column `Error` and one row whose only cell is the failure message |
| ViewStates.AfterReset | app.py:90-92 | reset leaves `pgs_dict` selected and no query result, from any state |
| ViewStates.AfterNavigate | app.py:96-100 | the state is either unchanged or has the id selected and no query result; it changes only for a name in the snapshot, and a known selection stays known |
| ViewStates.AfterQuery | app.py:104-107 | the query result becomes the given table and the selection is unchanged |
| ViewStates.Step | app.py:90-107 | every trigger keeps the selection `pgs_dict` or a snapshot name; reset gives the start state; navigation to an unknown name changes nothing; a query keeps the selection and leaves a result present |
| ViewStates.Run | app.py:45-107 | in every state reachable from session start by any sequence of triggers, the selected table is `pgs_dict` or a name from the snapshot |
| ViewStates.ResetAbsorbs | app.py:90-92 | reset leads to (`pgs_dict`, no query result) from every state, so resetting twice equals resetting once |
| ViewStates.NavigationGuard | app.py:96-100 | navigating to a name in the snapshot selects it and clears the query result; any other name leaves the state exactly as it was; the selection changes only for a known name |
| ViewStates.QueryKeepsSelection | app.py:104-107 | running a query keeps the selected table and stores the executor's result, an error table included; a later query's result replaces an earlier one, whatever database state the earlier one saw |
| ViewStates.ReachableSelectionFetchable | app.py:45-62 | when the database can read `pgs_dict` and every snapshot name, it can read the selected table of every reachable state, so only names known to exist are ever fetched |
| ViewStates.QueryPersists | app.py:96-107 | once a query has run, a result stays present through further queries and ignored navigations |
| Presentation.Status | app.py:51-54 | the status is `Custom query result` exactly when a query result is present; otherwise it is `Selected table: ` followed by the selected table's name |
| Presentation.StatusDetermines | app.py:51-54 | two states with the same status agree on whether a query result is present and, when none is, on the selected table |
| Presentation.ActiveDataset | app.py:59-62 | the query result is shown whenever one is present; only otherwise is the selected table fetched |
| Presentation.LinksApply | app.py:64 | links are added exactly when the status line reads `Selected table: pgs_dict`, i.e. `pgs_dict` is selected and no query result is present |
| Presentation.LinkRow | app.py:65-68 | a row keeps its length; cells under `pgs_id` become links showing the original cell; all other cells are unchanged |
| Presentation.InjectLinks | app.py:64-68 | the headers and row count stay the same, each `pgs_id` cell becomes a link showing the original id, and every other cell is untouched; a table without `pgs_id` raises a KeyError |
| Presentation.RenderTable | app.py:58-68 | with a query result present, that result is shown unchanged; outside the directory view the active dataset passes through; in the directory view the shown table is the active dataset with its `pgs_id` column rewritten into links; a KeyError arises exactly in the directory view when `pgs_id` is missing; a shown table keeps the active dataset's headers and row count |
| Presentation.InjectThenStrip | app.py:65-66 | each link's display text is the original id: replacing every link by its text gives back the table before injection |
| Presentation.LinkScope | app.py:58-68 | over link-free data, the output contains links iff the selected table is `pgs_dict`, no query result is present, and the data has a `pgs_id` cell; in every other state the active dataset passes through unchanged |
| Presentation.QueryShadowsSelection | app.py:52-62 | while a query result is present, the status, the dataset and the rendered table depend on neither the selected table nor the database |
| Sessions.Session.constructor | app.py:45-47 | a session starts with its table-name snapshot, `pgs_dict` selected and no query result |
| Sessions.Session.ResetToMain | app.py:90-92 | selects `pgs_dict` and clears the query result, from any state |
| Sessions.Session.HandlePgsIdClick | app.py:96-100 | selects the clicked name and clears the query result when the name is in the snapshot; otherwise both fields are left unchanged |
| Sessions.Session.RunCustomQuery | app.py:104-107 | stores the executor's result, or its error table, as the query result and leaves the selected table unchanged |
| Sessions.Session.TableOutput | app.py:58-68 | given a database that can read `pgs_dict` and every snapshot name, what the table region shows equals the rendered table for the current state; with a query result present, that result is shown as is |
| Sessions.LinkColumnInPlace | app.py:68 | every row of the array is replaced by its link-injected form |
| Sessions.QueryScenario | app.py:51-62 | after a successful query from session start, the status is `Custom query result` and the table is the query's rows |
| Sessions.FailedQueryScenario | app.py:19-23 | after a failing query from session start, the table is one `Error` column with one row holding the message |
| Sessions.NavigateScenario | app.py:96-100 | after navigating to a known table, the status names it and its fetched data is shown |
| Sessions.UnknownNavigateScenario | app.py:98 | navigating to an unknown name leaves the start state and the status `Selected table: pgs_dict` |
| Sessions.ResetScenario | app.py:90-92 | a query followed by reset returns to the start state and the status `Selected table: pgs_dict` |

## Left out

- The SQLite connection and SQL execution are not modelled. The model takes a fetch function and a query executor as parameters instead. The table-name snapshot is the constructor's argument.
- `get_table_names` (the `sqlite_master` catalog query) is outside the model. Only its result, the snapshot, is modelled.
- A whole-table read is a partial function, defined on the tables that exist. The model proves that every reachable selection is `pgs_dict` or a name from the snapshot. So every fetch reads a snapshot name or `pgs_dict`. Its failures are not modelled: a table dropped after session start and a lost connection. The source handles neither.
- The database is treated as unchanging during a session: one `fetch` and one `exec` serve every trigger of a trigger sequence. User SQL runs verbatim on the shared connection, so a `DELETE` or `DROP` changes what later queries and fetches see. The model does not capture those writes. Only `QueryKeepsSelection`'s replacement clause is stated for two different database states.
- The directory table `pgs_dict` is assumed to exist: `TableOutput` and `ReachableSelectionFetchable` take it as a precondition. The source selects `pgs_dict` at session start and on reset without checking it against the snapshot. With no `pgs_dict` in the database, every render without a query result fails, and the model does not cover that case.
- The table name is interpolated into `SELECT * FROM …`, so SQL injection through it is not modelled. No SQL syntax is modelled at all.
- The UI layout and the reactive scheduling are not modelled. The handlers are atomic method calls made one at a time.
- Triggers are modelled at the handler level: every `NavigateTo` in a trigger sequence reaches `handle_pgs_id_click`. The link sets the `selected_pgs_id` input without marking it as an event. The browser sends an input value only when it differs from the last one sent. So a second click on the same id never reaches the handler: click pgs001, reset, click pgs001 again, and the view stays on `pgs_dict`. The model does not track the last id sent.
- HTML serialisation (`to_html` with `escape=False`), the CSS and the `onclick` markup are left out. A link is an opaque `Link` cell that wraps the value it displays.
- Cell values are text, integers and null. Floating-point columns are not modelled.
- Presentation.InjectLinks: rewrites every column headed `pgs_id`. pandas behaves differently when several columns share that header, but a table fetched from SQLite cannot have duplicate headers.
