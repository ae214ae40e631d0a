/**
 * A pandas DataFrame as the core uses it: an ordered list of column labels
 * (duplicates allowed, as in pandas) and rows of cells, one per column.
 * A cell is missing (NaN, None, SQL NULL) or holds a string, a date or a
 * boolean. Columns are looked up by label at their first occurrence.
 */
module Frame {
  import opened Wrappers
  import opened Text
  import opened Dates
  import Ordering

  datatype Value = Str(s: string) | Day(date: Date) | Flag(b: bool)

  type Cell = Option<Value>

  type Row = seq<Cell>

  datatype Table = Table(columns: seq<string>, rows: seq<Row>)

  /** The exceptions pandas raises in the steps modelled here. */
  datatype Error =
    | LengthMismatch             // ValueError: `df.columns = ...` with the wrong number of labels
    | MissingColumn(name: string)   // KeyError: `df[name]` for an absent label
    | DuplicateColumn(name: string) // `df[name]` is a DataFrame, not a Series, for a repeated label

  /** Every row has one cell per column. */
  predicate WellFormed(t: Table)
  {
    forall i | 0 <= i < |t.rows| :: |t.rows[i]| == |t.columns|
  }

  /** Python's `str(v)`. */
  function ValueText(v: Value): string
  {
    match v
    case Str(s) => s
    case Day(d) => DateText(d)
    case Flag(b) => if b then "True" else "False"
  }

  /** `.astype(str)` on one cell: a missing cell becomes the text 'nan'. */
  function AsStr(c: Cell): (r: Cell)
    ensures r.Some? && r.value.Str?
    ensures c.Some? && c.value.Str? ==> r == c
  {
    match c
    case None => Some(Str("nan"))
    case Some(v) => Some(Str(ValueText(v)))
  }

  /** `.fillna(fill)` on one cell. */
  function FillNa(c: Cell, fill: Value): (r: Cell)
    ensures r.Some?
    ensures c.Some? ==> r == c
  {
    if c.None? then Some(fill) else c
  }

  /** `pd.to_datetime(errors='coerce')` on one cell, with the parser of date text, which is not modelled, as a parameter. */
  function ToDatetime(parse: string -> Option<Date>, c: Cell): (r: Cell)
    ensures r.None? || r.value.Day?
    ensures c.Some? && c.value.Day? ==> r == c
  {
    match c
    case None => None
    case Some(Str(s)) => (match parse(s) case Some(d) => Some(Day(d)) case None => None)
    case Some(Day(d)) => c
    case Some(Flag(_)) => None
  }

  /** Position of the first column labelled `name`. */
  function IndexOf(cols: seq<string>, name: string): (r: Option<nat>)
    ensures r.None? <==> name !in cols
    ensures r.Some? ==> r.value < |cols| && cols[r.value] == name && name !in cols[..r.value]
    decreases |cols|
  {
    if cols == [] then None
    else if cols[0] == name then Some(0)
    else match IndexOf(cols[1..], name)
      case None => None
      case Some(k) => assert cols[..k + 1] == [cols[0]] + cols[1..][..k]; Some(k + 1)
  }

  /** The label occurs more than once. */
  predicate Repeated(cols: seq<string>, name: string)
  {
    exists i, j | 0 <= i < j < |cols| :: cols[i] == name && cols[j] == name
  }

  /**
   * `df[name]` as a single column: KeyError when the label is absent; a
   * repeated label selects a DataFrame, on which the Series methods the core
   * calls next do not exist.
   */
  function Lookup(cols: seq<string>, name: string): (r: Result<nat, Error>)
    ensures r.Success? <==> name in cols && !Repeated(cols, name)
    ensures r.Success? ==> r.value < |cols| && cols[r.value] == name
    ensures r == Failure(MissingColumn(name)) <==> name !in cols
    ensures r == Failure(DuplicateColumn(name)) <==> Repeated(cols, name)
  {
    match IndexOf(cols, name)
    case None => Failure(MissingColumn(name))
    case Some(j) =>
      if name in cols[j + 1..] then
        var k :| j + 1 <= k < |cols| && cols[k] == name;
        assert cols[j] == name && cols[k] == name;
        Failure(DuplicateColumn(name))
      else
        assert forall k | 0 <= k < |cols| && k != j :: cols[k] != name by {
          forall k | 0 <= k < |cols| && k != j ensures cols[k] != name {
            if k < j { assert cols[k] == cols[..j][k]; }
            else { assert cols[k] == cols[j + 1..][k - j - 1]; }
          }
        }
        Success(j)
  }

  /** The cell at position `j`, missing if the row is too short. */
  function At(row: Row, j: nat): Cell
  {
    if j < |row| then row[j] else None
  }

  /** The column at position `j`, as a sequence of cells. */
  function ColumnCells(rows: seq<Row>, j: nat): (r: seq<Cell>)
    ensures |r| == |rows| && forall i | 0 <= i < |rows| :: r[i] == At(rows[i], j)
  {
    seq(|rows|, i requires 0 <= i < |rows| => At(rows[i], j))
  }

  /** The elements of `s` that satisfy `keep`, in order: the reference for column and row selection. */
  function FilterSeq<T>(s: seq<T>, keep: T -> bool): (r: seq<T>)
    ensures |r| <= |s|
    ensures forall x | x in r :: x in s && keep(x)
    decreases |s|
  {
    if s == [] then []
    else (if keep(s[0]) then [s[0]] else []) + FilterSeq(s[1..], keep)
  }

  lemma {:induction false} FilterSeqComplete<T>(s: seq<T>, keep: T -> bool, x: T)
    requires x in s && keep(x)
    ensures x in FilterSeq(s, keep)
    decreases |s|
  {
    if s[0] != x { FilterSeqComplete(s[1..], keep, x); }
  }

  /** What `keep` rejects is what `FilterSeq` leaves out. */
  lemma {:induction false} FilterSeqSplit<T>(s: seq<T>, keep: T -> bool, drop: T -> bool)
    requires forall x :: drop(x) == !keep(x)
    ensures |FilterSeq(s, keep)| + |FilterSeq(s, drop)| == |s|
    decreases |s|
  {
    if s != [] { FilterSeqSplit(s[1..], keep, drop); }
  }

  /** Filtering twice is filtering once by the conjunction. */
  lemma {:induction false} FilterSeqCompose<T>(s: seq<T>, p: T -> bool, q: T -> bool, pq: T -> bool)
    requires forall x :: pq(x) == (p(x) && q(x))
    ensures FilterSeq(FilterSeq(s, p), q) == FilterSeq(s, pq)
    decreases |s|
  {
    if s != [] {
      FilterSeqCompose(s[1..], p, q, pq);
      var head := if p(s[0]) then [s[0]] else [];
      assert FilterSeq(s, p) == head + FilterSeq(s[1..], p);
      FilterSeqAppend(head, FilterSeq(s[1..], p), q);
    }
  }

  lemma {:induction false} FilterSeqAppend<T>(a: seq<T>, b: seq<T>, keep: T -> bool)
    ensures FilterSeq(a + b, keep) == FilterSeq(a, keep) + FilterSeq(b, keep)
    decreases |a|
  {
    if a != [] {
      FilterSeqAppend(a[1..], b, keep);
      assert (a + b)[1..] == a[1..] + b;
    } else {
      assert a + b == b;
    }
  }

  /** A filter that keeps everything changes nothing. */
  lemma {:induction false} FilterSeqAll<T>(s: seq<T>, keep: T -> bool)
    requires forall x | x in s :: keep(x)
    ensures FilterSeq(s, keep) == s
    decreases |s|
  {
    if s != [] {
      FilterSeqAll(s[1..], keep);
      assert s == [s[0]] + s[1..];
    }
  }

  /** `a` can be obtained from `b` by deleting elements (order is kept). */
  predicate IsSubsequence<T(==)>(a: seq<T>, b: seq<T>)
    decreases |b|
  {
    if a == [] then true
    else if b == [] then false
    else (a[0] == b[0] && IsSubsequence(a[1..], b[1..])) || IsSubsequence(a, b[1..])
  }

  lemma {:induction false} FilterSeqSubsequence<T>(s: seq<T>, keep: T -> bool)
    ensures IsSubsequence(FilterSeq(s, keep), s)
    decreases |s|
  {
    if s != [] {
      FilterSeqSubsequence(s[1..], keep);
      var r := FilterSeq(s[1..], keep);
      if keep(s[0]) {
        assert FilterSeq(s, keep) == [s[0]] + r;
        assert ([s[0]] + r)[1..] == r;
      } else {
        assert FilterSeq(s, keep) == r;
      }
    }
  }

  lemma {:induction false} SubsequenceReflexive<T>(s: seq<T>)
    ensures IsSubsequence(s, s)
    decreases |s|
  {
    if s != [] { SubsequenceReflexive(s[1..]); }
  }

  lemma {:induction false} SubsequenceTransitive<T>(a: seq<T>, b: seq<T>, c: seq<T>)
    requires IsSubsequence(a, b) && IsSubsequence(b, c)
    ensures IsSubsequence(a, c)
    decreases |c|
  {
    if a != [] {
      if IsSubsequence(b, c[1..]) {
        SubsequenceTransitive(a, b, c[1..]);
      } else if a[0] == b[0] && IsSubsequence(a[1..], b[1..]) {
        SubsequenceTransitive(a[1..], b[1..], c[1..]);
      } else {
        SubsequenceTransitive(a, b[1..], c[1..]);
      }
    }
  }

  /**
   * The positions, from `from` on, of the columns whose label satisfies
   * `keep`, in increasing order.
   */
  function Positions(cols: seq<string>, keep: string -> bool, from: nat): (p: seq<nat>)
    requires from <= |cols|
    ensures forall k | 0 <= k < |p| :: from <= p[k] < |cols| && keep(cols[p[k]])
    ensures forall k, l | 0 <= k < l < |p| :: p[k] < p[l]
    ensures forall i | from <= i < |cols| && keep(cols[i]) :: i in p
    decreases |cols| - from
  {
    if from == |cols| then []
    else (if keep(cols[from]) then [from] else []) + Positions(cols, keep, from + 1)
  }

  /** The elements of `s` at positions `p`, in the order of `p`. */
  function Select<T>(s: seq<T>, p: seq<nat>): (r: seq<T>)
    requires forall k | 0 <= k < |p| :: p[k] < |s|
    ensures |r| == |p| && forall k | 0 <= k < |p| :: r[k] == s[p[k]]
    decreases |p|
  {
    if p == [] then [] else [s[p[0]]] + Select(s, p[1..])
  }

  /** Selecting by positions reproduces `FilterSeq` on the labels. */
  lemma {:induction false} PositionsSelect(cols: seq<string>, keep: string -> bool, from: nat)
    requires from <= |cols|
    ensures Select(cols, Positions(cols, keep, from)) == FilterSeq(cols[from..], keep)
    decreases |cols| - from
  {
    if from < |cols| {
      PositionsSelect(cols, keep, from + 1);
      var q := Positions(cols, keep, from + 1);
      assert cols[from..][1..] == cols[from + 1..];
      assert cols[from..][0] == cols[from];
      if keep(cols[from]) {
        assert Positions(cols, keep, from) == [from] + q;
        assert ([from] + q)[1..] == q;
      } else {
        assert Positions(cols, keep, from) == q;
      }
    }
  }

  /** The columns whose label satisfies `keep`, and with them their cells. */
  function KeepColumns(t: Table, keep: string -> bool): (r: Table)
    requires WellFormed(t)
    ensures WellFormed(r) && |r.rows| == |t.rows|
    ensures r.columns == FilterSeq(t.columns, keep)
  {
    var p := Positions(t.columns, keep, 0);
    PositionsSelect(t.columns, keep, 0);
    assert t.columns[0..] == t.columns;
    Table(Select(t.columns, p),
          seq(|t.rows|, i requires 0 <= i < |t.rows| => Select(t.rows[i], p)))
  }

  /** Every kept cell is the cell of the same row under the same column it had before. */
  lemma KeepColumnsCells(t: Table, keep: string -> bool, i: nat, k: nat)
    requires WellFormed(t) && i < |t.rows| && k < |KeepColumns(t, keep).columns|
    ensures var p := Positions(t.columns, keep, 0);
      k < |p| && KeepColumns(t, keep).columns[k] == t.columns[p[k]] &&
      KeepColumns(t, keep).rows[i][k] == t.rows[i][p[k]]
  {
  }

  /** pandas `rename(columns=m)`: every label that is a key of `m`, each occurrence, becomes its value. */
  function RenameColumns(cols: seq<string>, m: map<string, string>): (r: seq<string>)
    ensures |r| == |cols|
    ensures forall i | 0 <= i < |cols| :: r[i] == if cols[i] in m then m[cols[i]] else cols[i]
  {
    seq(|cols|, i requires 0 <= i < |cols| => if cols[i] in m then m[cols[i]] else cols[i])
  }

  /** `df.rename(columns=m)`: labels change, rows do not. */
  function Rename(t: Table, m: map<string, string>): (r: Table)
    ensures r.rows == t.rows && r.columns == RenameColumns(t.columns, m)
    ensures WellFormed(t) ==> WellFormed(r)
  {
    Table(RenameColumns(t.columns, m), t.rows)
  }

  /** Applies `f` to the cell at position `j` of every row: `df[c] = f(df[c])`. */
  function MapColumn(rows: seq<Row>, j: nat, f: Cell -> Cell): (r: seq<Row>)
    ensures |r| == |rows|
    ensures forall i | 0 <= i < |rows| :: |r[i]| == |rows[i]|
    ensures forall i | 0 <= i < |rows| && j < |rows[i]| :: r[i] == rows[i][j := f(rows[i][j])]
  {
    seq(|rows|, i requires 0 <= i < |rows| => if j < |rows[i]| then rows[i][j := f(rows[i][j])] else rows[i])
  }

  /** Rewriting a column row by row keeps a subsequence a subsequence. */
  lemma {:induction false} MapColumnSubsequence(a: seq<Row>, b: seq<Row>, j: nat, f: Cell -> Cell)
    requires IsSubsequence(a, b)
    ensures IsSubsequence(MapColumn(a, j, f), MapColumn(b, j, f))
    decreases |b|
  {
    if a != [] {
      assert MapColumn(b, j, f)[1..] == MapColumn(b[1..], j, f);
      assert MapColumn(a, j, f)[1..] == MapColumn(a[1..], j, f);
      if a[0] == b[0] && IsSubsequence(a[1..], b[1..]) {
        MapColumnSubsequence(a[1..], b[1..], j, f);
      } else {
        MapColumnSubsequence(a, b[1..], j, f);
      }
    }
  }

  /**
   * `if name in df.columns: df[name] = f(df[name])`: the first column so
   * labelled is rewritten cell by cell; nothing else changes.
   */
  function UpdateColumn(t: Table, name: string, f: Cell -> Cell): (r: Table)
    requires WellFormed(t)
    ensures WellFormed(r) && r.columns == t.columns && |r.rows| == |t.rows|
    ensures name !in t.columns ==> r == t
    ensures forall i, k | 0 <= i < |t.rows| && 0 <= k < |t.columns| ::
      r.rows[i][k] == if IndexOf(t.columns, name) == Some(k) then f(t.rows[i][k]) else t.rows[i][k]
  {
    match IndexOf(t.columns, name)
    case None => t
    case Some(j) => Table(t.columns, MapColumn(t.rows, j, f))
  }

  /** Applies `f` to every cell: `df.fillna(...)` and the per-column `astype(str)` loop. */
  function MapCells(rows: seq<Row>, f: Cell -> Cell): (r: seq<Row>)
    ensures |r| == |rows|
    ensures forall i | 0 <= i < |rows| :: |r[i]| == |rows[i]|
    ensures forall i, k | 0 <= i < |rows| && 0 <= k < |rows[i]| :: r[i][k] == f(rows[i][k])
  {
    seq(|rows|, i requires 0 <= i < |rows| => seq(|rows[i]|, k requires 0 <= k < |rows[i]| => f(rows[i][k])))
  }

  /** The distinct non-missing values, pandas' `nunique()` counts them. */
  function PresentValues(cells: seq<Cell>): (r: set<Value>)
    ensures forall v :: v in r <==> Some(v) in cells
    decreases |cells|
  {
    if cells == [] then {}
    else (if cells[0].Some? then {cells[0].value} else {}) + PresentValues(cells[1..])
  }

  /** `nunique()` never exceeds the number of rows. */
  lemma {:induction false} PresentValuesBound(cells: seq<Cell>)
    ensures |PresentValues(cells)| <= |cells|
    decreases |cells|
  {
    if cells != [] { PresentValuesBound(cells[1..]); }
  }

  /** The number of cells equal to `c`: `len(df[df[col] == v])`. */
  function CountEq(cells: seq<Cell>, c: Cell): (n: nat)
    ensures n <= |cells|
    decreases |cells|
  {
    if cells == [] then 0 else (if cells[0] == c then 1 else 0) + CountEq(cells[1..], c)
  }

  /** Counts of three different values never add up to more than the number of cells. */
  lemma {:induction false} CountEqDisjoint(cells: seq<Cell>, a: Cell, b: Cell, c: Cell)
    requires a != b && b != c && a != c
    ensures CountEq(cells, a) + CountEq(cells, b) + CountEq(cells, c) <= |cells|
    decreases |cells|
  {
    if cells != [] { CountEqDisjoint(cells[1..], a, b, c); }
  }

  /** The order Python's `sorted` uses within one kind of value; kinds are ranked text, date, boolean. */
  predicate ValueLess(a: Value, b: Value)
  {
    match (a, b)
    case (Str(x), Str(y)) => LexLess(x, y)
    case (Day(x), Day(y)) => x.day < y.day
    case (Flag(x), Flag(y)) => !x && y
    case (Str(_), _) => true
    case (Day(_), Flag(_)) => true
    case _ => false
  }

  lemma ValueLessIsOrder()
    ensures Ordering.StrictTotalOrder(ValueLess)
  {
    forall a: Value ensures !ValueLess(a, a) {
      if a.Str? { LexLessIrreflexive(a.s); }
    }
    forall a: Value, b: Value, c: Value | ValueLess(a, b) && ValueLess(b, c) ensures ValueLess(a, c) {
      if a.Str? && b.Str? && c.Str? { LexLessTransitive(a.s, b.s, c.s); }
    }
    forall a: Value, b: Value | a != b ensures ValueLess(a, b) || ValueLess(b, a) {
      if a.Str? && b.Str? { LexLessTotal(a.s, b.s); }
    }
  }

  lemma LexLessIsOrder()
    ensures Ordering.StrictTotalOrder(LexLess)
  {
    forall a: string ensures !LexLess(a, a) {
      LexLessIrreflexive(a);
    }
    forall a: string, b: string, c: string | LexLess(a, b) && LexLess(b, c) ensures LexLess(a, c) {
      LexLessTransitive(a, b, c);
    }
    forall a: string, b: string | a != b ensures LexLess(a, b) || LexLess(b, a) {
      LexLessTotal(a, b);
    }
  }

  /**
   * A DataFrame object whose labels and cells are changed in place by
   * `df.columns = ...`, `df[c] = ...` and `rename(..., inplace=True)`.
   */
  class DataFrame {
    var columns: seq<string>
    var rows: seq<Row>

    ghost predicate Valid()
      reads this
    {
      WellFormed(Table(columns, rows))
    }

    function Value(): Table
      reads this
    {
      Table(columns, rows)
    }

    constructor (t: Table)
      requires WellFormed(t)
      ensures Valid() && Value() == t
    {
      columns := t.columns;
      rows := t.rows;
    }

    /** `df.columns = cols`; pandas raises ValueError (here: `ok` is false) when the lengths differ. */
    method SetColumns(cols: seq<string>) returns (ok: bool)
      requires Valid()
      modifies this
      ensures Valid() && rows == old(rows)
      ensures ok <==> |cols| == |old(columns)|
      ensures columns == if ok then cols else old(columns)
    {
      ok := |cols| == |columns|;
      if ok {
        columns := cols;
      }
    }

    /** `df[c] = f(df[c])` for the column at position `j`. */
    method SetColumn(j: nat, f: Cell -> Cell)
      requires Valid() && j < |columns|
      modifies this
      ensures Valid() && columns == old(columns)
      ensures rows == MapColumn(old(rows), j, f)
    {
      rows := MapColumn(rows, j, f);
    }

    /** `if name in df.columns: df[name] = f(df[name])`. */
    method UpdateInPlace(name: string, f: Cell -> Cell)
      requires Valid()
      modifies this
      ensures Valid() && Value() == UpdateColumn(old(Value()), name, f)
    {
      var j := IndexOf(columns, name);
      if j.Some? {
        SetColumn(j.value, f);
      }
    }

    /** `df.rename(columns=m, inplace=True)`. */
    method RenameInPlace(m: map<string, string>)
      requires Valid()
      modifies this
      ensures Valid() && Value() == Rename(old(Value()), m)
    {
      columns := RenameColumns(columns, m);
    }
  }
}
