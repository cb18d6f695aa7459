/** The part of a pandas DataFrame that the cleanup script relies on: an
    ordered list of column labels, the set of columns whose dtype is
    `category`, and the rows, each a map from column label to cell. Every
    operation here is one DataFrame call of the script, with the exception
    pandas raises for it as an `Err`. */
module Frames {
  import opened Wrappers

  /** A cell: NaN, a string, or an integer. */
  datatype Cell = Missing | Text(s: string) | Int(n: int)

  /** The exceptions the script's table operations can raise. */
  datatype Error =
    | KeyError(column: string)              // a column label the table does not have
    | AttributeError(attribute: string)     // `.cat` on a non-categorical column, `.endswith` on a non-string
    | IntValueError(literal: string)        // Python's int() refusing a literal
    | NonUniqueCategories(column: string)   // renamed categories that are no longer distinct
    | ColumnCountMismatch(column: string)   // a table of several columns assigned to one column label

  type Row = map<string, Cell>

  datatype Frame = Frame(columns: seq<string>, categorical: set<string>, rows: seq<Row>)

  function Labels(cols: seq<string>): set<string> {
    set c | c in cols
  }

  predicate Distinct(cols: seq<string>) {
    forall i, j :: 0 <= i < j < |cols| ==> cols[i] != cols[j]
  }

  /** Column labels are unique, only existing columns are categorical, and
      every row has a cell for exactly the table's columns. */
  predicate WellFormed(f: Frame) {
    && Distinct(f.columns)
    && f.categorical <= Labels(f.columns)
    && forall i :: 0 <= i < |f.rows| ==> f.rows[i].Keys == Labels(f.columns)
  }

  lemma LabelsCons(x: string, e: seq<string>)
    ensures Labels([x] + e) == {x} + Labels(e)
  {
    assert forall c :: c in [x] + e <==> c == x || c in e;
  }

  lemma DistinctCons(x: string, e: seq<string>)
    ensures x !in e && Distinct(e) ==> Distinct([x] + e)
  {
    if x !in e && Distinct(e) {
      forall i, j | 0 <= i < j < |[x] + e| ensures ([x] + e)[i] != ([x] + e)[j] {
        assert ([x] + e)[j] == e[j - 1];
        if i > 0 {
          assert ([x] + e)[i] == e[i - 1];
        }
      }
    }
  }

  /** `e` is `b` with some labels left out and the rest in `b`'s order. */
  predicate SubsequenceOf(e: seq<string>, b: seq<string>)
    decreases |b|
  {
    if e == [] then true
    else if b == [] then false
    else if e[0] == b[0] then SubsequenceOf(e[1..], b[1..])
    else SubsequenceOf(e, b[1..])
  }

  /** `row[c]`, reading NaN where the row has no such cell. */
  function Get(r: Row, c: string): Cell {
    if c in r then r[c] else Missing
  }

  /** Row `s` agrees with row `r` on every column other than `c`. */
  ghost predicate SameElsewhere(r: Row, s: Row, c: string) {
    forall d :: d != c ==> (d in r <==> d in s) && (d in r ==> r[d] == s[d])
  }

  /** Two rows with the same columns `cols` and the same cell in each are the same row. */
  lemma SameRow(r: Row, s: Row, cols: seq<string>)
    requires r.Keys == Labels(cols) && s.Keys == Labels(cols)
    requires forall j :: 0 <= j < |cols| ==> r[cols[j]] == s[cols[j]]
    ensures r == s
  {
    forall c | c in r ensures r[c] == s[c] {
      var j :| 0 <= j < |cols| && cols[j] == c;
    }
  }

  // ---------------------------------------------------------------------
  // Outer concatenation of two tables, row-wise, with a fresh index
  // ---------------------------------------------------------------------

  /** The labels of `b` that `a` lacks, in `b`'s order. */
  function Extra(b: seq<string>, a: seq<string>): (e: seq<string>)
    ensures Labels(e) == Labels(b) - Labels(a)
    ensures Distinct(b) ==> Distinct(e)
    ensures SubsequenceOf(e, b)
  {
    if b == [] then []
    else
      var e := Extra(b[1..], a);
      LabelsCons(b[0], b[1..]);
      assert b == [b[0]] + b[1..];
      if b[0] in a then
        assert e != [] ==> e[0] in Labels(e) && e[0] != b[0];
        e
      else
        LabelsCons(b[0], e);
        DistinctCons(b[0], e);
        assert ([b[0]] + e)[1..] == e;
        [b[0]] + e
  }

  /** The row widened (or narrowed) to exactly `cols`, NaN in the new cells. */
  function Pad(r: Row, cols: seq<string>): (p: Row)
    ensures p.Keys == Labels(cols)
    ensures forall c :: c in p ==> p[c] == Get(r, c)
  {
    map c | c in cols :: Get(r, c)
  }

  /** Padding a row to exactly its own columns leaves it as it is. */
  lemma PadOwnColumns(r: Row, cols: seq<string>)
    requires r.Keys == Labels(cols)
    ensures Pad(r, cols) == r
  {
  }

  /** Padding a row with one column it lacks adds a NaN cell for it. */
  lemma PadNewColumn(r: Row, cols: seq<string>, c: string)
    requires r.Keys == Labels(cols) && c !in cols
    ensures Pad(r, cols + [c]) == r[c := Missing]
  {
    assert Labels(cols + [c]) == Labels(cols) + {c};
  }

  /** Outer concatenation: the columns of `a`, then those only `b` has; the
      rows of `a`, then those of `b`, each with NaN in the columns its own
      table lacked. Neither table here has categorical columns, so the
      result has none. */
  function Concat(a: Frame, b: Frame): (t: Frame)
    ensures WellFormed(a) && WellFormed(b) ==> WellFormed(t)
    ensures Labels(t.columns) == Labels(a.columns) + Labels(b.columns)
    ensures |a.columns| <= |t.columns| && t.columns[..|a.columns|] == a.columns
    ensures SubsequenceOf(t.columns[|a.columns|..], b.columns)
    ensures t.categorical == {}
    ensures |t.rows| == |a.rows| + |b.rows|
    ensures forall i :: 0 <= i < |a.rows| ==>
      t.rows[i].Keys == Labels(t.columns) &&
      forall c :: c in t.rows[i] ==> t.rows[i][c] == Get(a.rows[i], c)
    ensures forall i :: 0 <= i < |b.rows| ==>
      t.rows[|a.rows| + i].Keys == Labels(t.columns) &&
      forall c :: c in t.rows[|a.rows| + i] ==> t.rows[|a.rows| + i][c] == Get(b.rows[i], c)
  {
    var e := Extra(b.columns, a.columns);
    var cols := a.columns + e;
    LabelsAppend(a.columns, e);
    DistinctAppend(a.columns, e);
    assert cols[..|a.columns|] == a.columns;
    assert cols[|a.columns|..] == e;
    Frame(cols, {}, PadAll(a.rows, cols) + PadAll(b.rows, cols))
  }

  /** Every row padded to `cols`. */
  function PadAll(rows: seq<Row>, cols: seq<string>): (padded: seq<Row>)
    ensures |padded| == |rows|
    ensures forall i :: 0 <= i < |rows| ==> padded[i] == Pad(rows[i], cols)
  {
    seq(|rows|, i requires 0 <= i < |rows| => Pad(rows[i], cols))
  }

  lemma LabelsAppend(x: seq<string>, y: seq<string>)
    ensures Labels(x + y) == Labels(x) + Labels(y)
  {
    assert forall c :: c in x + y <==> c in x || c in y;
  }

  lemma DistinctAppend(x: seq<string>, y: seq<string>)
    ensures Distinct(x) && Distinct(y) && Labels(x) !! Labels(y) ==> Distinct(x + y)
  {
    if Distinct(x) && Distinct(y) && Labels(x) !! Labels(y) {
      forall i, j | 0 <= i < j < |x + y| ensures (x + y)[i] != (x + y)[j] {
        if j >= |x| {
          assert (x + y)[j] == y[j - |x|] && y[j - |x|] in Labels(y);
          if i < |x| {
            assert (x + y)[i] == x[i] && x[i] in Labels(x);
          } else {
            assert (x + y)[i] == y[i - |x|];
          }
        }
      }
    }
  }

  // ---------------------------------------------------------------------
  // Column assignment (a new column is appended; an old one replaced)
  // ---------------------------------------------------------------------

  function AssignColumn(f: Frame, c: string, vals: seq<Cell>): (t: Frame)
    requires |vals| == |f.rows|
    ensures t.columns == if c in f.columns then f.columns else f.columns + [c]
    ensures t.categorical == f.categorical - {c}
    ensures |t.rows| == |f.rows|
    ensures forall i :: 0 <= i < |f.rows| ==>
      c in t.rows[i] && t.rows[i][c] == vals[i] && SameElsewhere(f.rows[i], t.rows[i], c)
    ensures WellFormed(f) ==> WellFormed(t)
  {
    Frame(if c in f.columns then f.columns else f.columns + [c],
          f.categorical - {c},
          seq(|f.rows|, i requires 0 <= i < |f.rows| => f.rows[i][c := vals[i]]))
  }

  /** A column's cells in row order. */
  function Column(f: Frame, c: string): (cells: seq<Cell>)
    ensures |cells| == |f.rows|
    ensures forall i :: 0 <= i < |f.rows| ==> cells[i] == Get(f.rows[i], c)
  {
    seq(|f.rows|, i requires 0 <= i < |f.rows| => Get(f.rows[i], c))
  }

  /** What `apply` along the rows gives back: a column of results, or a
      copy of the table itself. */
  datatype Applied = Cells(cells: seq<Cell>) | Copy(table: Frame)

  /** `apply` along the rows: `g` on every row, the first exception wins.
      On a table with no rows, pandas first calls `g` on an empty row; when
      that call raises, it gives back a copy of the table instead of a column. */
  function ApplyRows(f: Frame, g: Row -> Result<Cell, Error>): (r: Result<Applied, Error>)
    ensures r.Ok? <==> forall i :: 0 <= i < |f.rows| ==> g(f.rows[i]).Ok?
    ensures r.Ok? && r.value.Cells? ==>
      |r.value.cells| == |f.rows| && forall i :: 0 <= i < |f.rows| ==> r.value.cells[i] == g(f.rows[i]).value
    ensures r.Ok? && r.value.Copy? ==> r.value.table == f
    ensures r.Ok? && r.value.Copy? <==> |f.rows| == 0 && g(map[]).Err?
  {
    if |f.rows| == 0 && g(map[]).Err? then Ok(Copy(f))
    else
      match MapAll(f.rows, g)
      case Err(e) => Err(e)
      case Ok(vs) => Ok(Cells(vs))
  }

  /** Assigning what `apply` gave back to the column `c`: a column is
      assigned as it is; a table only when it has exactly one column, and
      pandas raises ValueError for any other table. */
  function AssignApplied(f: Frame, c: string, a: Applied): (r: Result<Frame, Error>)
    requires a.Cells? ==> |a.cells| == |f.rows|
    requires a.Copy? ==> |a.table.rows| == |f.rows|
    ensures r.Ok? <==> a.Cells? || |a.table.columns| == 1
    ensures r.Err? ==> r.error == ColumnCountMismatch(c)
    ensures r.Ok? && a.Cells? ==> r.value == AssignColumn(f, c, a.cells)
    ensures r.Ok? && a.Copy? ==> r.value == AssignColumn(f, c, Column(a.table, a.table.columns[0]))
  {
    match a
    case Cells(vals) => Ok(AssignColumn(f, c, vals))
    case Copy(t) =>
      if |t.columns| == 1 then Ok(AssignColumn(f, c, Column(t, t.columns[0])))
      else Err(ColumnCountMismatch(c))
  }

  /** `map` over one column: a KeyError for a missing column, else the
      first exception `g` raises, else the column replaced by its image. */
  function MapColumn(f: Frame, c: string, g: Cell -> Result<Cell, Error>): (r: Result<Frame, Error>)
    ensures c !in f.columns ==> r == Err(KeyError(c))
    ensures r.Ok? <==> c in f.columns && forall i :: 0 <= i < |f.rows| ==> g(Get(f.rows[i], c)).Ok?
    ensures r.Err? && c in f.columns ==>
      exists i :: 0 <= i < |f.rows| && g(Get(f.rows[i], c)) == Err(r.error)
    ensures r.Ok? ==>
      && r.value.columns == f.columns
      && r.value.categorical == f.categorical - {c}
      && |r.value.rows| == |f.rows|
      && forall i :: 0 <= i < |f.rows| ==>
           c in r.value.rows[i] && r.value.rows[i][c] == g(Get(f.rows[i], c)).value &&
           SameElsewhere(f.rows[i], r.value.rows[i], c)
    ensures r.Ok? && WellFormed(f) ==> WellFormed(r.value)
  {
    if c !in f.columns then Err(KeyError(c))
    else
      var cells := Column(f, c);
      match MapAll(cells, g)
      case Err(e) => Err(e)
      case Ok(vs) => Ok(AssignColumn(f, c, vs))
  }

  // ---------------------------------------------------------------------
  // In-place replacement of one value in one column
  // ---------------------------------------------------------------------

  function ReplaceValue(f: Frame, c: string, before: Cell, after: Cell): (r: Result<Frame, Error>)
    ensures r.Err? <==> c !in f.columns
    ensures r.Err? ==> r.error == KeyError(c)
    ensures r.Ok? ==>
      && r.value.columns == f.columns
      && r.value.categorical == f.categorical
      && |r.value.rows| == |f.rows|
      && forall i :: 0 <= i < |f.rows| ==>
           (c in f.rows[i] ==> c in r.value.rows[i]) &&
           Get(r.value.rows[i], c) == (if Get(f.rows[i], c) == before then after else Get(f.rows[i], c)) &&
           SameElsewhere(f.rows[i], r.value.rows[i], c)
    ensures r.Ok? && WellFormed(f) ==> WellFormed(r.value)
  {
    if c !in f.columns then Err(KeyError(c))
    else
      Ok(Frame(f.columns, f.categorical,
               seq(|f.rows|, i requires 0 <= i < |f.rows| =>
                 if Get(f.rows[i], c) == before then f.rows[i][c := after] else f.rows[i])))
  }

  // ---------------------------------------------------------------------
  // Dropping the rows that are NaN in one column
  // ---------------------------------------------------------------------

  /** The rows whose cell in `c` is not NaN, in their original order. */
  function KeepRows(rows: seq<Row>, c: string): (kept: seq<Row>)
    ensures |kept| <= |rows|
    ensures forall k :: 0 <= k < |kept| ==> Get(kept[k], c) != Missing
  {
    if rows == [] then []
    else
      var last := rows[|rows| - 1];
      KeepRows(rows[..|rows| - 1], c) + (if Get(last, c) == Missing then [] else [last])
  }

  /** The positions of the rows that KeepRows keeps. */
  function KeptPositions(rows: seq<Row>, c: string): seq<nat> {
    if rows == [] then []
    else
      KeptPositions(rows[..|rows| - 1], c) + (if Get(rows[|rows| - 1], c) == Missing then [] else [|rows| - 1])
  }

  /** Dropping NaN rows keeps exactly the other rows, in their original
      relative order: the kept rows are the rows at strictly increasing
      positions, and a position is among them exactly when its cell is not NaN. */
  lemma KeepRowsInOrder(rows: seq<Row>, c: string)
    ensures |KeptPositions(rows, c)| == |KeepRows(rows, c)|
    ensures forall k :: 0 <= k < |KeptPositions(rows, c)| ==>
      KeptPositions(rows, c)[k] < |rows| && KeepRows(rows, c)[k] == rows[KeptPositions(rows, c)[k]]
    ensures forall k, l :: 0 <= k < l < |KeptPositions(rows, c)| ==>
      KeptPositions(rows, c)[k] < KeptPositions(rows, c)[l]
    ensures forall i :: 0 <= i < |rows| ==> (i in KeptPositions(rows, c) <==> Get(rows[i], c) != Missing)
  {
    KeptRowsAt(rows, c);
    KeptPositionsIncrease(rows, c);
    KeptPositionsExact(rows, c);
  }

  lemma {:induction false} KeptRowsAt(rows: seq<Row>, c: string)
    ensures |KeptPositions(rows, c)| == |KeepRows(rows, c)|
    ensures forall k :: 0 <= k < |KeptPositions(rows, c)| ==>
      KeptPositions(rows, c)[k] < |rows| && KeepRows(rows, c)[k] == rows[KeptPositions(rows, c)[k]]
  {
    if rows != [] {
      var init := rows[..|rows| - 1];
      KeptRowsAt(init, c);
      assert forall i :: 0 <= i < |init| ==> init[i] == rows[i];
    }
  }

  lemma {:induction false} KeptPositionsIncrease(rows: seq<Row>, c: string)
    ensures forall k :: 0 <= k < |KeptPositions(rows, c)| ==> KeptPositions(rows, c)[k] < |rows|
    ensures forall k, l :: 0 <= k < l < |KeptPositions(rows, c)| ==>
      KeptPositions(rows, c)[k] < KeptPositions(rows, c)[l]
  {
    if rows != [] {
      KeptPositionsIncrease(rows[..|rows| - 1], c);
    }
  }

  lemma {:induction false} KeptPositionsExact(rows: seq<Row>, c: string)
    ensures forall i :: 0 <= i < |rows| ==> (i in KeptPositions(rows, c) <==> Get(rows[i], c) != Missing)
  {
    if rows != [] {
      var init := rows[..|rows| - 1];
      KeptPositionsExact(init, c);
      KeptPositionsIncrease(init, c);
      assert forall i :: 0 <= i < |init| ==> init[i] == rows[i];
    }
  }

  function DropMissing(f: Frame, c: string): (r: Result<Frame, Error>)
    ensures r.Err? <==> c !in f.columns
    ensures r.Err? ==> r.error == KeyError(c)
    ensures r.Ok? ==>
      && r.value.columns == f.columns
      && r.value.categorical == f.categorical
      && r.value.rows == KeepRows(f.rows, c)
    ensures r.Ok? && WellFormed(f) ==> WellFormed(r.value)
  {
    if c !in f.columns then Err(KeyError(c))
    else
      var t := Frame(f.columns, f.categorical, KeepRows(f.rows, c));
      assert WellFormed(f) ==> WellFormed(t) by {
        if WellFormed(f) {
          KeepRowsInOrder(f.rows, c);
        }
      }
      Ok(t)
  }

  // ---------------------------------------------------------------------
  // Dropping a column
  // ---------------------------------------------------------------------

  /** `cols` with `c` removed, the other labels kept in their order. */
  function Without(cols: seq<string>, c: string): (w: seq<string>)
    ensures Labels(w) == Labels(cols) - {c}
    ensures Distinct(cols) ==> Distinct(w)
    ensures SubsequenceOf(w, cols)
  {
    if cols == [] then []
    else
      var w := Without(cols[1..], c);
      LabelsCons(cols[0], cols[1..]);
      assert cols == [cols[0]] + cols[1..];
      if cols[0] == c then
        assert w != [] ==> w[0] in Labels(w) && w[0] != cols[0];
        w
      else
        LabelsCons(cols[0], w);
        DistinctCons(cols[0], w);
        assert ([cols[0]] + w)[1..] == w;
        [cols[0]] + w
  }

  function DropColumn(f: Frame, c: string): (r: Result<Frame, Error>)
    ensures r.Err? <==> c !in f.columns
    ensures r.Err? ==> r.error == KeyError(c)
    ensures r.Ok? ==>
      && Labels(r.value.columns) == Labels(f.columns) - {c}
      && SubsequenceOf(r.value.columns, f.columns)
      && r.value.categorical == f.categorical - {c}
      && |r.value.rows| == |f.rows|
      && forall i :: 0 <= i < |f.rows| ==>
           c !in r.value.rows[i] && SameElsewhere(f.rows[i], r.value.rows[i], c)
    ensures r.Ok? && WellFormed(f) ==> WellFormed(r.value)
  {
    if c !in f.columns then Err(KeyError(c))
    else
      Ok(Frame(Without(f.columns, c), f.categorical - {c},
               seq(|f.rows|, i requires 0 <= i < |f.rows| => f.rows[i] - {c})))
  }

  // ---------------------------------------------------------------------
  // Relabelling a column
  // ---------------------------------------------------------------------

  /** pandas leaves the table alone when it has no column `source`. The model
      does not represent two columns with one source, so `target` must be free. */
  function RenameColumn(f: Frame, source: string, target: string): (t: Frame)
    requires target !in f.columns
    ensures source !in f.columns ==> t == f
    ensures source in f.columns ==>
      && |t.columns| == |f.columns|
      && (forall j :: 0 <= j < |f.columns| ==>
            t.columns[j] == if f.columns[j] == source then target else f.columns[j])
      && t.categorical == (f.categorical - {source}) + (if source in f.categorical then {target} else {})
      && |t.rows| == |f.rows|
      && forall i :: 0 <= i < |f.rows| ==>
           && source !in t.rows[i]
           && target in t.rows[i] && t.rows[i][target] == Get(f.rows[i], source)
           && forall d :: d != source && d != target ==>
                (d in t.rows[i] <==> d in f.rows[i]) && (d in t.rows[i] ==> t.rows[i][d] == f.rows[i][d])
    ensures WellFormed(f) ==> WellFormed(t)
  {
    if source !in f.columns then f
    else
      var cols := seq(|f.columns|, j requires 0 <= j < |f.columns| =>
                        if f.columns[j] == source then target else f.columns[j]);
      var t := Frame(cols,
                     (f.categorical - {source}) + (if source in f.categorical then {target} else {}),
                     seq(|f.rows|, i requires 0 <= i < |f.rows| =>
                       (f.rows[i] - {source})[target := Get(f.rows[i], source)]));
      assert WellFormed(f) ==> WellFormed(t) by {
        if WellFormed(f) {
          forall d | d in Labels(cols) ensures d in (Labels(f.columns) - {source}) + {target} {
            var j :| 0 <= j < |cols| && cols[j] == d;
          }
          forall d | d in (Labels(f.columns) - {source}) + {target} ensures d in Labels(cols) {
            if d == target {
              var j :| 0 <= j < |f.columns| && f.columns[j] == source;
              assert cols[j] == d;
            } else {
              var j :| 0 <= j < |f.columns| && f.columns[j] == d;
              assert cols[j] == d;
            }
          }
          forall j, k | 0 <= j < k < |cols| ensures cols[j] != cols[k] {
            assert f.columns[j] != f.columns[k];
            if cols[j] == target { assert f.columns[j] == source; assert f.columns[k] in Labels(f.columns); }
            if cols[k] == target { assert f.columns[k] == source; assert f.columns[j] in Labels(f.columns); }
          }
        }
      }
      t
  }

  // ---------------------------------------------------------------------
  // Renaming the categories of a categorical column, by a table or by
  // mapping a function over them
  // ---------------------------------------------------------------------

  /** The categories of a categorical column: its distinct non-NaN cells. */
  function Categories(f: Frame, c: string): set<Cell> {
    set i | 0 <= i < |f.rows| && Get(f.rows[i], c) != Missing :: Get(f.rows[i], c)
  }

  predicate InjectiveOn(g: Cell -> Cell, s: set<Cell>) {
    forall a, b :: a in s && b in s && g(a) == g(b) ==> a == b
  }

  /** Replaces every category `x` of column `c` by `g(x)`. The `.cat`
      accessor raises AttributeError on a column that is not categorical,
      and pandas raises ValueError when two categories would coincide. */
  function RenameCategories(f: Frame, c: string, g: Cell -> Cell): (r: Result<Frame, Error>)
    ensures r == Err(KeyError(c)) <==> c !in f.columns
    ensures r == Err(AttributeError("cat")) <==> c in f.columns && c !in f.categorical
    ensures r.Ok? <==> c in f.columns && c in f.categorical && InjectiveOn(g, Categories(f, c))
    ensures r == Err(NonUniqueCategories(c)) <==>
      c in f.columns && c in f.categorical && !InjectiveOn(g, Categories(f, c))
    ensures r.Ok? ==>
      && r.value.columns == f.columns
      && r.value.categorical == f.categorical
      && |r.value.rows| == |f.rows|
      && forall i :: 0 <= i < |f.rows| ==>
           (c in r.value.rows[i] <==> c in f.rows[i]) &&
           Get(r.value.rows[i], c) == (if Get(f.rows[i], c) == Missing then Missing else g(Get(f.rows[i], c))) &&
           SameElsewhere(f.rows[i], r.value.rows[i], c)
    ensures r.Ok? && WellFormed(f) ==> WellFormed(r.value)
  {
    if c !in f.columns then Err(KeyError(c))
    else if c !in f.categorical then Err(AttributeError("cat"))
    else if !InjectiveOn(g, Categories(f, c)) then Err(NonUniqueCategories(c))
    else
      Ok(Frame(f.columns, f.categorical,
               seq(|f.rows|, i requires 0 <= i < |f.rows| =>
                 if Get(f.rows[i], c) == Missing then f.rows[i] else f.rows[i][c := g(f.rows[i][c])])))
  }

  /** Renaming with an injective `g` renames the category set as a whole:
      the new categories are exactly the images of the old ones, and none merge. */
  lemma RenamedCategories(f: Frame, c: string, g: Cell -> Cell)
    requires RenameCategories(f, c, g).Ok?
    requires forall a :: a != Missing ==> g(a) != Missing
    ensures Categories(RenameCategories(f, c, g).value, c) == set x | x in Categories(f, c) :: g(x)
    ensures |Categories(RenameCategories(f, c, g).value, c)| == |Categories(f, c)|
  {
    var t := RenameCategories(f, c, g).value;
    var before := Categories(f, c);
    var image := set x | x in before :: g(x);
    assert Categories(t, c) == image by {
      forall y | y in image ensures y in Categories(t, c) {
        var x :| x in before && g(x) == y;
        var i :| 0 <= i < |f.rows| && Get(f.rows[i], c) != Missing && Get(f.rows[i], c) == x;
        assert Get(t.rows[i], c) == y;
      }
    }
    InjectiveImageSize(g, before);
  }

  lemma {:induction false} InjectiveImageSize(g: Cell -> Cell, s: set<Cell>)
    requires InjectiveOn(g, s)
    ensures |set x | x in s :: g(x)| == |s|
    decreases |s|
  {
    if s != {} {
      var x :| x in s;
      var rest := s - {x};
      InjectiveImageSize(g, rest);
      assert (set y | y in s :: g(y)) == (set y | y in rest :: g(y)) + {g(x)};
      assert g(x) !in (set y | y in rest :: g(y));
    }
  }

  // ---------------------------------------------------------------------
  // Projection onto a list of columns
  // ---------------------------------------------------------------------

  /** The first of `want` that `have` lacks. */
  function FirstAbsent(want: seq<string>, have: seq<string>): (r: Option<string>)
    ensures r.None? <==> forall c :: c in want ==> c in have
    ensures r.Some? ==> r.value in want && r.value !in have
  {
    if want == [] then None
    else if want[0] !in have then Some(want[0])
    else FirstAbsent(want[1..], have)
  }

  /** Projection onto `cols`, in that order; a KeyError names an absent label.
      The model does not represent a projection that repeats a label. */
  function Select(f: Frame, cols: seq<string>): (r: Result<Frame, Error>)
    requires Distinct(cols)
    ensures r.Ok? <==> forall c :: c in cols ==> c in f.columns
    ensures r.Err? ==> r.error.KeyError? && r.error.column in cols && r.error.column !in f.columns
    ensures r.Ok? ==>
      && r.value.columns == cols
      && r.value.categorical == f.categorical * Labels(cols)
      && |r.value.rows| == |f.rows|
      && forall i :: 0 <= i < |f.rows| ==>
           r.value.rows[i].Keys == Labels(cols) &&
           forall c :: c in cols ==> r.value.rows[i][c] == Get(f.rows[i], c)
    ensures r.Ok? ==> WellFormed(r.value)
  {
    match FirstAbsent(cols, f.columns)
    case Some(c) => Err(KeyError(c))
    case None =>
      Ok(Frame(cols, f.categorical * Labels(cols),
               seq(|f.rows|, i requires 0 <= i < |f.rows| => Pad(f.rows[i], cols))))
  }
}
