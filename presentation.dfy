/** What the viewer shows for a view state: the status line, the dataset
    chosen for display, and the rewrite of the directory's `pgs_id` column
    into navigation links. */
module Presentation {
  import opened Tables
  import opened ViewStates

  const IdColumn := "pgs_id"
  const QueryStatus := "Custom query result"
  const SelectedPrefix := "Selected table: "

  /** The table to display, or the column lookup that failed (a KeyError). */
  datatype Render = Shown(table: Table) | KeyError(column: string)

  /** The status line: the query label when a result is showing, otherwise
      the name of the selected table. */
  function Status(v: ViewState): (s: string)
    ensures s == QueryStatus <==> v.query.Some?
    ensures v.query.None? ==> |s| >= |SelectedPrefix| && s[..|SelectedPrefix|] == SelectedPrefix
                              && s[|SelectedPrefix|..] == v.selected
  {
    if v.query.Some? then QueryStatus
    else
      var s := SelectedPrefix + v.selected;
      assert s[0] != QueryStatus[0];
      s
  }

  /** The status line tells whether a query result is showing and, when none
      is, which table is selected. */
  lemma StatusDetermines(v: ViewState, w: ViewState)
    requires Status(v) == Status(w)
    ensures v.query.Some? <==> w.query.Some?
    ensures v.query.None? ==> v.selected == w.selected
  {
  }

  /** The dataset to display: the query result whenever one is present,
      the selected table only otherwise. */
  function ActiveDataset(v: ViewState, fetch: string --> Table): (r: Table)
    requires v.query.Some? || fetch.requires(v.selected)
    ensures v.query.Some? ==> r == v.query.value
    ensures v.query.None? ==> r == GetTableData(fetch, v.selected)
  {
    if v.query.Some? then v.query.value else GetTableData(fetch, v.selected)
  }

  /** Links are added only for the directory table with no query result
      showing: exactly when the status line reads `Selected table: pgs_dict`. */
  predicate LinksApply(v: ViewState)
    ensures LinksApply(v) <==> Status(v) == SelectedPrefix + DirectoryTable
  {
    assert Status(v) == SelectedPrefix + DirectoryTable ==> v.selected == DirectoryTable
      by { if Status(v) == SelectedPrefix + DirectoryTable && v.query.None? {
             assert (SelectedPrefix + DirectoryTable)[|SelectedPrefix|..] == DirectoryTable; } }
    v.selected == DirectoryTable && v.query.None?
  }

  /** A row with each cell under the id column wrapped in a link. */
  function LinkRow(cols: seq<string>, row: seq<Cell>): (r: seq<Cell>)
    requires |row| == |cols|
    ensures |r| == |row|
    ensures forall j :: 0 <= j < |row| ==> r[j] == if cols[j] == IdColumn then Link(row[j]) else row[j]
  {
    seq(|row|, j requires 0 <= j < |row| => if cols[j] == IdColumn then Link(row[j]) else row[j])
  }

  /** Rewriting the id column into links: the same headers and rows, each id
      cell becoming a link that shows the original id, every other cell
      untouched. A table without the id column raises a KeyError. */
  function InjectLinks(t: Table): (r: Render)
    ensures r.KeyError? <==> IdColumn !in t.columns
    ensures r.KeyError? ==> r.column == IdColumn
    ensures r.Shown? ==> r.table.columns == t.columns && |r.table.rows| == |t.rows|
    ensures r.Shown? ==> forall i, j :: 0 <= i < |t.rows| && 0 <= j < |t.columns| ==>
              r.table.rows[i][j] == if t.columns[j] == IdColumn then Link(t.rows[i][j]) else t.rows[i][j]
  {
    if IdColumn !in t.columns then KeyError(IdColumn)
    else Shown(Frame(t.columns, seq(|t.rows|, i requires 0 <= i < |t.rows| => LinkRow(t.columns, t.rows[i]))))
  }

  /** What the table region shows for a view state: the active dataset,
      with links only in the directory view, and a KeyError only there. */
  function RenderTable(v: ViewState, fetch: string --> Table): (r: Render)
    requires v.query.Some? || fetch.requires(v.selected)
    ensures v.query.Some? ==> r == Shown(v.query.value)
    ensures !LinksApply(v) ==> r == Shown(ActiveDataset(v, fetch))
    ensures LinksApply(v) ==> r == InjectLinks(ActiveDataset(v, fetch))
    ensures r.KeyError? <==> LinksApply(v) && IdColumn !in ActiveDataset(v, fetch).columns
    ensures r.Shown? ==> r.table.columns == ActiveDataset(v, fetch).columns
                         && |r.table.rows| == |ActiveDataset(v, fetch).rows|
  {
    var data := ActiveDataset(v, fetch);
    if LinksApply(v) then InjectLinks(data) else Shown(data)
  }

  function Unlink(c: Cell): Cell {
    if c.Link? then c.shown else c
  }

  /** The displayed values of a table, with every link replaced by its text. */
  function StripLinks(t: Table): (r: Table)
    ensures r.columns == t.columns && |r.rows| == |t.rows|
  {
    Frame(t.columns, seq(|t.rows|, i requires 0 <= i < |t.rows| =>
      seq(|t.rows[i]|, j requires 0 <= j < |t.rows[i]| => Unlink(t.rows[i][j]))))
  }

  predicate NoLinks(t: Table) {
    forall i, j :: 0 <= i < |t.rows| && 0 <= j < |t.rows[i]| ==> !t.rows[i][j].Link?
  }

  predicate HasLinks(t: Table) {
    exists i, j :: 0 <= i < |t.rows| && 0 <= j < |t.rows[i]| && t.rows[i][j].Link?
  }

  /** The text of every link is the original cell: removing the links from
      the rewritten table gives back the table that was rewritten. */
  lemma InjectThenStrip(t: Table)
    requires NoLinks(t) && IdColumn in t.columns
    ensures InjectLinks(t).Shown?
    ensures StripLinks(InjectLinks(t).table) == t
  {
    var r := InjectLinks(t).table;
    var s := StripLinks(r);
    forall i | 0 <= i < |t.rows|
      ensures s.rows[i] == t.rows[i]
    {
      assert |s.rows[i]| == |t.rows[i]|;
      forall j | 0 <= j < |t.rows[i]|
        ensures s.rows[i][j] == t.rows[i][j]
      {
        assert r.rows[i][j] == if t.columns[j] == IdColumn then Link(t.rows[i][j]) else t.rows[i][j];
      }
    }
  }

  /** Over link-free data, the rendered table holds links exactly when the
      directory table is showing with no query result and has an id cell;
      in every other state the active dataset passes through unchanged. */
  lemma LinkScope(v: ViewState, fetch: string --> Table)
    requires v.query.Some? || fetch.requires(v.selected)
    requires NoLinks(ActiveDataset(v, fetch))
    ensures !LinksApply(v) ==> RenderTable(v, fetch) == Shown(ActiveDataset(v, fetch))
    ensures RenderTable(v, fetch).Shown? ==>
              (HasLinks(RenderTable(v, fetch).table) <==>
                 LinksApply(v) && IdColumn in ActiveDataset(v, fetch).columns && |ActiveDataset(v, fetch).rows| > 0)
  {
    var data := ActiveDataset(v, fetch);
    if LinksApply(v) && IdColumn in data.columns && |data.rows| > 0 {
      var j :| 0 <= j < |data.columns| && data.columns[j] == IdColumn;
      var r := InjectLinks(data).table;
      assert r.rows[0][j] == Link(data.rows[0][j]);
      assert HasLinks(r);
    } else if LinksApply(v) && IdColumn in data.columns {
      assert |InjectLinks(data).table.rows| == 0;
    }
  }

  /** While a query result is showing, the selected table and the database
      play no part in what is shown. */
  lemma QueryShadowsSelection(v: ViewState, w: ViewState, f: string --> Table, g: string --> Table)
    requires v.query.Some? && w.query == v.query
    ensures Status(v) == Status(w)
    ensures ActiveDataset(v, f) == ActiveDataset(w, g) == v.query.value
    ensures RenderTable(v, f) == RenderTable(w, g) == Shown(v.query.value)
  {
  }
}
