/** Tabular data as the viewer handles it: the result of reading a database
    table or of running an ad-hoc query, with the two helpers that shape it
    before display (dropping the `filename` column, turning a failed query
    into a one-cell error table). */
module Tables {

  datatype Option<T> = None | Some(value: T)

  /** One cell of a table. Values read from the database are text, integers
      or null; `Link` is a navigation link whose display text is the wrapped
      cell (the markup and its click handler are opaque here). */
  datatype Cell = Text(s: string) | Number(n: int) | Null | Link(shown: Cell)

  /** Column headers in display order and rows of cells, one cell per column. */
  datatype Frame = Frame(columns: seq<string>, rows: seq<seq<Cell>>)

  ghost predicate Rectangular(f: Frame) {
    forall i :: 0 <= i < |f.rows| ==> |f.rows[i]| == |f.columns|
  }

  type Table = f: Frame | Rectangular(f) witness Frame([], [])

  /** What the SQL engine does with a statement: it yields rows, or it raises
      an exception carrying a message. */
  datatype Outcome = Rows(table: Table) | Raised(message: string)

  const FilenameColumn := "filename"
  const ErrorColumn := "Error"

  /** The headers of `cols` without any header equal to `name`. */
  function Keep(cols: seq<string>, name: string): (r: seq<string>)
    ensures |r| <= |cols|
    ensures name !in r
    ensures forall c :: c in r <==> c in cols && c != name
    ensures name !in cols ==> r == cols
  {
    if cols == [] then []
    else (if cols[0] == name then [] else [cols[0]]) + Keep(cols[1..], name)
  }

  /** Filtering headers distributes over concatenation, so (with `KeepOne`)
      the surviving headers keep their relative order. */
  lemma {:induction false} KeepAppend(a: seq<string>, b: seq<string>, name: string)
    ensures Keep(a + b, name) == Keep(a, name) + Keep(b, name)
  {
    if a != [] {
      assert (a + b)[0] == a[0] && (a + b)[1..] == a[1..] + b;
      KeepAppend(a[1..], b, name);
      var head := if a[0] == name then [] else [a[0]];
      assert Keep(a + b, name) == head + (Keep(a[1..], name) + Keep(b, name));
    } else {
      assert a + b == b;
    }
  }

  /** A single header survives unless it is the dropped one. */
  lemma KeepOne(c: string, name: string)
    ensures Keep([c], name) == if c == name then [] else [c]
  {
  }

  /** The cells of `row` that do not sit under a header equal to `name`. */
  function KeepCells(cols: seq<string>, row: seq<Cell>, name: string): (r: seq<Cell>)
    requires |row| == |cols|
    ensures |r| == |Keep(cols, name)|
    ensures name !in cols ==> r == row
  {
    if cols == [] then []
    else (if cols[0] == name then [] else [row[0]]) + KeepCells(cols[1..], row[1..], name)
  }

  /** A row read as (header, cell) pairs. */
  function Zip(cols: seq<string>, row: seq<Cell>): (ps: seq<(string, Cell)>)
    requires |row| == |cols|
  {
    seq(|cols|, k requires 0 <= k < |cols| => (cols[k], row[k]))
  }

  /** The pairs of `ps` whose header is not `name`, in their original order. */
  function Without(ps: seq<(string, Cell)>, name: string): seq<(string, Cell)> {
    if ps == [] then []
    else (if ps[0].0 == name then [] else [ps[0]]) + Without(ps[1..], name)
  }

  lemma ZipCons(h: string, c: Cell, cols: seq<string>, row: seq<Cell>)
    requires |row| == |cols|
    ensures Zip([h] + cols, [c] + row) == [(h, c)] + Zip(cols, row)
  {
  }

  /** Dropping a column keeps every other cell under its own header and in
      its original order. */
  lemma {:induction false} KeepCellsStayUnderHeader(cols: seq<string>, row: seq<Cell>, name: string)
    requires |row| == |cols|
    ensures Zip(Keep(cols, name), KeepCells(cols, row, name)) == Without(Zip(cols, row), name)
  {
    if cols != [] {
      var zs := Zip(cols, row);
      assert zs[1..] == Zip(cols[1..], row[1..]);
      KeepCellsStayUnderHeader(cols[1..], row[1..], name);
      if cols[0] != name {
        ZipCons(cols[0], row[0], Keep(cols[1..], name), KeepCells(cols[1..], row[1..], name));
      }
    }
  }

  /** `df.drop(columns=[name])`: the same rows without the column(s) named `name`. */
  function DropColumn(t: Table, name: string): (r: Table)
    ensures r.columns == Keep(t.columns, name)
    ensures name !in r.columns
    ensures forall c :: c in r.columns <==> c in t.columns && c != name
    ensures |r.rows| == |t.rows|
    ensures forall i :: 0 <= i < |t.rows| ==>
              Zip(r.columns, r.rows[i]) == Without(Zip(t.columns, t.rows[i]), name)
  {
    var r := Frame(Keep(t.columns, name),
                   seq(|t.rows|, i requires 0 <= i < |t.rows| => KeepCells(t.columns, t.rows[i], name)));
    forall i | 0 <= i < |t.rows|
      ensures Zip(r.columns, r.rows[i]) == Without(Zip(t.columns, t.rows[i]), name)
    {
      KeepCellsStayUnderHeader(t.columns, t.rows[i], name);
    }
    r
  }

  /** Reading a whole table for display: the fetched table without its
      `filename` column, when it has one. `fetch` is defined only on the
      names of tables that exist; the caller must pass such a name. */
  function GetTableData(fetch: string --> Table, name: string): (r: Table)
    requires fetch.requires(name)
    ensures r.columns == Keep(fetch(name).columns, FilenameColumn)
    ensures FilenameColumn !in r.columns
    ensures forall c :: c in r.columns <==> c in fetch(name).columns && c != FilenameColumn
    ensures |r.rows| == |fetch(name).rows|
    ensures forall i :: 0 <= i < |r.rows| ==>
              Zip(r.columns, r.rows[i]) == Without(Zip(fetch(name).columns, fetch(name).rows[i]), FilenameColumn)
    ensures FilenameColumn !in fetch(name).columns ==> r == fetch(name)
  {
    var t := fetch(name);
    if FilenameColumn in t.columns then DropColumn(t, FilenameColumn)
    else
      assert forall i :: 0 <= i < |t.rows| ==> Without(Zip(t.columns, t.rows[i]), FilenameColumn) == Zip(t.columns, t.rows[i])
        by { forall i | 0 <= i < |t.rows| { KeepCellsStayUnderHeader(t.columns, t.rows[i], FilenameColumn); } }
      t
  }

  /** Running a user's query never raises: a failure becomes a table with the
      single column `Error` and a single row holding the failure's message. */
  function ExecuteCustomQuery(exec: string -> Outcome, query: string): (r: Table)
    ensures exec(query).Rows? ==> r == exec(query).table
    ensures exec(query).Raised? ==>
              r.columns == [ErrorColumn] && |r.rows| == 1 && r.rows[0] == [Text(exec(query).message)]
  {
    match exec(query)
    case Rows(t) => t
    case Raised(message) => Frame([ErrorColumn], [[Text(message)]])
  }
}
