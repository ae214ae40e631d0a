/**
 * `render_sidebar_filters` (sidebar_filters.py): the working copy of the
 * dashboard frame is narrowed by status, then by age bracket, then by the
 * received date, each filter offering options computed from the table the
 * previous one left; the sidebar then reports the distinct patients left.
 * The widgets are parameters: each is a function from the options it shows
 * to the user's choice.
 */
module Filters {
  import opened Wrappers
  import opened Text
  import opened Dates
  import opened Frame
  import Ordering

  const All := "Todos"
  const StatusColumn := "ESTADO"
  const AgeColumn := "RANGO_DE_EDAD"
  const ReceivedColumn := "FECHA_DE_RECIBIDO"
  const PatientColumn := "CEDULA"
  /** What a missing status is shown as. */
  const MissingStatus := "PENDIENTE"
  /** The textual null that is left out of the age options. */
  const NullText := "None"

  /** The selectbox, the multiselect and the slider. */
  datatype Widgets = Widgets(
    status: seq<string> -> string,
    ages: seq<Value> -> seq<Value>,
    dates: (Date, Date) -> (Date, Date))

  /** `df[mask]`: the rows satisfying `keep`, in order. */
  function KeepRows(t: Table, keep: Row -> bool): (r: Table)
    ensures r.columns == t.columns && r.rows == FilterSeq(t.rows, keep)
    ensures WellFormed(t) ==> WellFormed(r)
  {
    var rows := FilterSeq(t.rows, keep);
    assert forall i | 0 <= i < |rows| :: rows[i] in rows && rows[i] in t.rows;
    Table(t.columns, rows)
  }

  // ---------------------------------------------------------------------------
  // Status (lines 62-78)
  // ---------------------------------------------------------------------------

  /** `.fillna("PENDIENTE").astype(str)` on one cell. */
  function StatusLabel(c: Cell): string
  {
    match c
    case None => MissingStatus
    case Some(v) => ValueText(v)
  }

  function StatusLabels(cells: seq<Cell>): (r: seq<string>)
    ensures |r| == |cells| && forall i | 0 <= i < |cells| :: r[i] == StatusLabel(cells[i])
  {
    seq(|cells|, i requires 0 <= i < |cells| => StatusLabel(cells[i]))
  }

  /** `['Todos'] + sorted(... .unique())`. */
  function StatusOptions(cells: seq<Cell>): seq<string>
  {
    [All] + Ordering.SortBy(Ordering.Unique(StatusLabels(cells)), LexLess)
  }

  /**
   * The options are 'Todos' followed by every label of the column exactly
   * once, in increasing order; a missing status shows as 'PENDIENTE'.
   */
  lemma StatusOptionsShape(cells: seq<Cell>)
    ensures var o := StatusOptions(cells);
      && o[0] == All
      && Ordering.StrictlySorted(o[1..], LexLess)
      && (forall s :: s in o[1..] <==> exists i | 0 <= i < |cells| :: StatusLabel(cells[i]) == s)
    ensures None in cells ==> MissingStatus in StatusOptions(cells)
  {
    LexLessIsOrder();
    var labels := StatusLabels(cells);
    Ordering.SortedUnique(labels, LexLess);
    var o := StatusOptions(cells);
    assert o[1..] == Ordering.SortBy(Ordering.Unique(labels), LexLess);
    forall s ensures s in o[1..] <==> exists i | 0 <= i < |cells| :: StatusLabel(cells[i]) == s {
      if s in labels {
        var i :| 0 <= i < |labels| && labels[i] == s;
        assert StatusLabel(cells[i]) == s;
      }
      if exists i | 0 <= i < |cells| :: StatusLabel(cells[i]) == s {
        var i :| 0 <= i < |cells| && StatusLabel(cells[i]) == s;
        assert labels[i] == s;
      }
    }
    if None in cells {
      var i :| 0 <= i < |cells| && cells[i] == None;
      assert StatusLabel(cells[i]) == MissingStatus;
      assert o == [o[0]] + o[1..];
    }
  }

  /** `df[df["ESTADO"] == sel]` unless 'Todos' is chosen: the raw cell is compared, not its label. */
  function StatusStep(t: Table, j: nat, sel: string): (r: Table)
  {
    if sel == All then t else KeepRows(t, row => At(row, j) == Some(Str(sel)))
  }

  function StatusFilter(t: Table, w: Widgets): (r: Table)
  {
    match IndexOf(t.columns, StatusColumn)
    case None => t
    case Some(j) => StatusStep(t, j, w.status(StatusOptions(ColumnCells(t.rows, j))))
  }

  /**
   * Choosing 'Todos' keeps the table; any other choice keeps exactly the rows
   * whose status is that text, so a missing status is dropped even under
   * 'PENDIENTE', the label it is shown with.
   */
  lemma StatusStepRows(t: Table, j: nat, sel: string, row: Row)
    requires row in t.rows
    ensures sel == All ==> StatusStep(t, j, sel) == t
    ensures sel != All ==> (row in StatusStep(t, j, sel).rows <==> At(row, j) == Some(Str(sel)))
    ensures At(row, j) == None && sel != All ==> row !in StatusStep(t, j, sel).rows
  {
    if sel != All && At(row, j) == Some(Str(sel)) {
      FilterSeqComplete(t.rows, row => At(row, j) == Some(Str(sel)), row);
    }
  }

  // ---------------------------------------------------------------------------
  // Age bracket (lines 85-105)
  // ---------------------------------------------------------------------------

  /** `.dropna().tolist()`: the present values, in order. */
  function PresentList(cells: seq<Cell>): (r: seq<Value>)
    ensures forall v :: v in r <==> Some(v) in cells
    decreases |cells|
  {
    if cells == [] then []
    else
      var rest := PresentList(cells[1..]);
      assert forall v :: Some(v) in cells <==> Some(v) == cells[0] || Some(v) in cells[1..];
      if cells[0].Some? then [cells[0].value] + rest else rest
  }

  function NotNullText(v: Value): bool
  {
    v != Str(NullText)
  }

  /** `['Todos'] + sorted(o for o in unique present values if o != 'None')`. */
  function AgeOptions(cells: seq<Cell>): seq<Value>
  {
    [Str(All)] + Ordering.SortBy(FilterSeq(Ordering.Unique(PresentList(cells)), NotNullText), ValueLess)
  }

  function NotAll(v: Value): bool
  {
    v != Str(All)
  }

  /** The multiselect's default: every option but 'Todos'. */
  function AgeDefault(options: seq<Value>): seq<Value>
  {
    FilterSeq(options, NotAll)
  }

  /** The age options are 'Todos' then the present brackets other than the text 'None', once each, in order. */
  lemma AgeOptionsShape(cells: seq<Cell>)
    ensures var o := AgeOptions(cells);
      && o[0] == Str(All)
      && Ordering.StrictlySorted(o[1..], ValueLess)
      && (forall v :: v in o[1..] <==> Some(v) in cells && v != Str(NullText))
  {
    ValueLessIsOrder();
    var u := Ordering.Unique(PresentList(cells));
    var kept := FilterSeq(u, NotNullText);
    Ordering.UniqueElements(PresentList(cells));
    FilterDistinct(u, NotNullText);
    Ordering.SortStrictlySorted(kept, ValueLess);
    Ordering.SortElements(kept, ValueLess);
    var o := AgeOptions(cells);
    assert o[1..] == Ordering.SortBy(kept, ValueLess);
    forall v ensures v in o[1..] <==> Some(v) in cells && v != Str(NullText) {
      assert v in o[1..] <==> v in multiset(o[1..]);
      if Some(v) in cells && v != Str(NullText) {
        FilterSeqComplete(u, NotNullText, v);
      }
    }
  }

  lemma {:induction false} FilterDistinct<T>(s: seq<T>, keep: T -> bool)
    requires Ordering.Distinct(s)
    ensures Ordering.Distinct(FilterSeq(s, keep))
    decreases |s|
  {
    if s != [] {
      assert Ordering.Distinct(s[1..]) by {
        forall i, k | 0 <= i < k < |s[1..]| ensures s[1..][i] != s[1..][k] {
          assert s[1..][i] == s[i + 1] && s[1..][k] == s[k + 1];
        }
      }
      FilterDistinct(s[1..], keep);
      var r := FilterSeq(s[1..], keep);
      if keep(s[0]) {
        assert s[0] !in s[1..] by {
          forall i | 0 <= i < |s[1..]| ensures s[1..][i] != s[0] {
            assert s[1..][i] == s[i + 1];
          }
        }
        assert FilterSeq(s, keep) == [s[0]] + r;
        forall i, k | 0 <= i < k < |[s[0]] + r| ensures ([s[0]] + r)[i] != ([s[0]] + r)[k] {
          if i == 0 {
            assert ([s[0]] + r)[k] == r[k - 1] && r[k - 1] in r;
          } else {
            assert ([s[0]] + r)[i] == r[i - 1] && ([s[0]] + r)[k] == r[k - 1];
          }
        }
      }
    }
  }

  /** `df[df["RANGO_DE_EDAD"].isin(sel)]` unless 'Todos' is selected. */
  function AgeStep(t: Table, j: nat, sel: seq<Value>): (r: Table)
  {
    if Str(All) in sel then t else KeepRows(t, row => At(row, j).Some? && At(row, j).value in sel)
  }

  function AgeFilter(t: Table, w: Widgets): (r: Table)
  {
    match IndexOf(t.columns, AgeColumn)
    case None => t
    case Some(j) => AgeStep(t, j, w.ages(AgeOptions(ColumnCells(t.rows, j))))
  }

  /**
   * With the default selection a row survives exactly when its bracket is
   * present and is neither the text 'None' nor the text 'Todos'.
   */
  lemma AgeDefaultRows(t: Table, j: nat, row: Row)
    requires row in t.rows
    ensures var sel := AgeDefault(AgeOptions(ColumnCells(t.rows, j)));
      row in AgeStep(t, j, sel).rows <==>
        At(row, j).Some? && At(row, j).value != Str(NullText) && At(row, j).value != Str(All)
  {
    var cells := ColumnCells(t.rows, j);
    var o := AgeOptions(cells);
    var sel := AgeDefault(o);
    AgeOptionsShape(cells);
    assert Str(All) !in sel;
    var c := At(row, j);
    if c.Some? && c.value != Str(NullText) && c.value != Str(All) {
      var i :| 0 <= i < |t.rows| && t.rows[i] == row;
      assert cells[i] == c;
      assert c.value in o[1..];
      assert c.value in o;
      FilterSeqComplete(o, NotAll, c.value);
      FilterSeqComplete(t.rows, row => At(row, j).Some? && At(row, j).value in sel, row);
    }
  }

  /** Any selection without 'Todos' keeps exactly the rows whose bracket is selected. */
  lemma AgeStepRows(t: Table, j: nat, sel: seq<Value>, row: Row)
    requires row in t.rows
    ensures Str(All) in sel ==> AgeStep(t, j, sel) == t
    ensures Str(All) !in sel ==> (row in AgeStep(t, j, sel).rows <==> At(row, j).Some? && At(row, j).value in sel)
  {
    if Str(All) !in sel && At(row, j).Some? && At(row, j).value in sel {
      FilterSeqComplete(t.rows, row => At(row, j).Some? && At(row, j).value in sel, row);
    }
  }

  // ---------------------------------------------------------------------------
  // Received date (lines 112-144)
  // ---------------------------------------------------------------------------

  /** The days of the valid dates of a column, in order (`dropna(subset=[fecha_col])`). */
  function ValidDays(cells: seq<Cell>): (r: seq<int>)
    ensures forall d :: d in r <==> Some(Day(Date(d))) in cells
    decreases |cells|
  {
    if cells == [] then []
    else
      var rest := ValidDays(cells[1..]);
      assert forall c :: c in cells <==> c == cells[0] || c in cells[1..];
      if cells[0].Some? && cells[0].value.Day? then [cells[0].value.date.day] + rest else rest
  }

  function Min(s: seq<int>): (m: int)
    requires s != []
    ensures m in s && forall x | x in s :: m <= x
    decreases |s|
  {
    if |s| == 1 then s[0]
    else
      var m := Min(s[1..]);
      assert forall x | x in s :: x == s[0] || x in s[1..];
      if s[0] <= m then s[0] else m
  }

  function Max(s: seq<int>): (m: int)
    requires s != []
    ensures m in s && forall x | x in s :: x <= m
    decreases |s|
  {
    if |s| == 1 then s[0]
    else
      var m := Max(s[1..]);
      assert forall x | x in s :: x == s[0] || x in s[1..];
      if s[0] >= m then s[0] else m
  }

  /** `lo <= date <= hi`, both ends included; a missing date compares false. */
  predicate InRange(c: Cell, lo: Date, hi: Date)
  {
    c.Some? && c.value.Day? && lo.day <= c.value.date.day <= hi.day
  }

  /** The filter, run only when the parsed column holds at least two different dates. */
  function DateStep(u: Table, j: nat, w: Widgets): (r: Table)
  {
    var days := ValidDays(ColumnCells(u.rows, j));
    if days == [] || Min(days) == Max(days) then u
    else
      var range := w.dates(Date(Min(days)), Date(Max(days)));
      KeepRows(u, row => InRange(At(row, j), range.0, range.1))
  }

  /** The date column is parsed in place (line 116) whether or not the filter then runs. */
  function DateFilter(t: Table, parse: string -> Option<Date>, w: Widgets): (r: Table)
    requires WellFormed(t)
  {
    match IndexOf(t.columns, ReceivedColumn)
    case None => t
    case Some(j) => DateStep(UpdateColumn(t, ReceivedColumn, c => ToDatetime(parse, c)), j, w)
  }

  /**
   * Without two different valid dates nothing is removed; otherwise a row
   * survives exactly when its date lies in the chosen range, ends included.
   */
  lemma DateStepRows(u: Table, j: nat, w: Widgets, row: Row)
    requires row in u.rows
    ensures var days := ValidDays(ColumnCells(u.rows, j));
      (days == [] || Min(days) == Max(days)) ==> DateStep(u, j, w) == u
    ensures var days := ValidDays(ColumnCells(u.rows, j));
      days != [] && Min(days) != Max(days) ==>
        var range := w.dates(Date(Min(days)), Date(Max(days)));
        (row in DateStep(u, j, w).rows <==> InRange(At(row, j), range.0, range.1))
  {
    var days := ValidDays(ColumnCells(u.rows, j));
    if days != [] && Min(days) != Max(days) {
      var range := w.dates(Date(Min(days)), Date(Max(days)));
      if InRange(At(row, j), range.0, range.1) {
        FilterSeqComplete(u.rows, row => InRange(At(row, j), range.0, range.1), row);
      }
    }
  }

  /** The slider's bounds are the earliest and the latest valid date of the column. */
  lemma SliderBounds(u: Table, j: nat)
    requires ValidDays(ColumnCells(u.rows, j)) != []
    ensures var days := ValidDays(ColumnCells(u.rows, j));
      && Some(Day(Date(Min(days)))) in ColumnCells(u.rows, j)
      && Some(Day(Date(Max(days)))) in ColumnCells(u.rows, j)
      && forall i | 0 <= i < |u.rows| && At(u.rows[i], j).Some? && At(u.rows[i], j).value.Day? ::
        Min(days) <= At(u.rows[i], j).value.date.day <= Max(days)
  {
    var cells := ColumnCells(u.rows, j);
    var days := ValidDays(cells);
    forall i | 0 <= i < |u.rows| && At(u.rows[i], j).Some? && At(u.rows[i], j).value.Day?
      ensures Min(days) <= At(u.rows[i], j).value.date.day <= Max(days)
    {
      assert cells[i] == At(u.rows[i], j);
      assert cells[i] in cells;
      assert At(u.rows[i], j).value.date.day in days;
    }
  }

  // ---------------------------------------------------------------------------
  // The whole sidebar (lines 55-152)
  // ---------------------------------------------------------------------------

  /** `df_filtered['CEDULA'].nunique()`: a KeyError when the column is absent. */
  function FilteredPatients(t: Table): (r: Result<nat, Error>)
    ensures r.Success? <==> PatientColumn in t.columns && !Repeated(t.columns, PatientColumn)
    ensures r.Success? ==> r.value <= |t.rows|
  {
    match Lookup(t.columns, PatientColumn)
    case Failure(e) => Failure(e)
    case Success(j) =>
      PresentValuesBound(ColumnCells(t.rows, j));
      Success(|PresentValues(ColumnCells(t.rows, j))|)
  }

  /** The filtered frame and the metric the sidebar shows. */
  function SidebarFilters(t: Table, parse: string -> Option<Date>, w: Widgets): (r: (Table, Result<nat, Error>))
    requires WellFormed(t)
    ensures r.1 == FilteredPatients(r.0)
  {
    var byStatus := StatusFilter(t, w);
    assert WellFormed(byStatus);
    var byAge := AgeFilter(byStatus, w);
    assert WellFormed(byAge);
    var byDate := DateFilter(byAge, parse, w);
    (byDate, FilteredPatients(byDate))
  }

  /**
   * The sidebar only removes rows and keeps their order: the result is a
   * subsequence of the input once its received-date column is parsed, the
   * one change made in place.
   */
  lemma SidebarKeepsOrder(t: Table, parse: string -> Option<Date>, w: Widgets)
    requires WellFormed(t)
    ensures SidebarFilters(t, parse, w).0.columns == t.columns
    ensures IsSubsequence(SidebarFilters(t, parse, w).0.rows, UpdateColumn(t, ReceivedColumn, c => ToDatetime(parse, c)).rows)
  {
    var f := c => ToDatetime(parse, c);
    var byStatus := StatusFilter(t, w);
    var byAge := AgeFilter(byStatus, w);
    var byDate := DateFilter(byAge, parse, w);
    StatusFilterShrinks(t, w);
    AgeFilterShrinks(byStatus, w);
    SubsequenceTransitive(byAge.rows, byStatus.rows, t.rows);
    match IndexOf(t.columns, ReceivedColumn)
    case None =>
      SubsequenceReflexive(t.rows);
    case Some(j) =>
      var u := UpdateColumn(byAge, ReceivedColumn, f);
      assert u.rows == MapColumn(byAge.rows, j, f);
      MapColumnSubsequence(byAge.rows, t.rows, j, f);
      assert UpdateColumn(t, ReceivedColumn, f).rows == MapColumn(t.rows, j, f);
      DateStepShrinks(u, j, w);
      SubsequenceTransitive(byDate.rows, u.rows, MapColumn(t.rows, j, f));
  }

  lemma StatusFilterShrinks(t: Table, w: Widgets)
    ensures StatusFilter(t, w).columns == t.columns && IsSubsequence(StatusFilter(t, w).rows, t.rows)
  {
    SubsequenceReflexive(t.rows);
    match IndexOf(t.columns, StatusColumn)
    case None =>
    case Some(j) =>
      var sel := w.status(StatusOptions(ColumnCells(t.rows, j)));
      FilterSeqSubsequence(t.rows, row => At(row, j) == Some(Str(sel)));
  }

  lemma AgeFilterShrinks(t: Table, w: Widgets)
    ensures AgeFilter(t, w).columns == t.columns && IsSubsequence(AgeFilter(t, w).rows, t.rows)
  {
    SubsequenceReflexive(t.rows);
    match IndexOf(t.columns, AgeColumn)
    case None =>
    case Some(j) =>
      var sel := w.ages(AgeOptions(ColumnCells(t.rows, j)));
      FilterSeqSubsequence(t.rows, row => At(row, j).Some? && At(row, j).value in sel);
  }

  lemma DateStepShrinks(u: Table, j: nat, w: Widgets)
    ensures DateStep(u, j, w).columns == u.columns && IsSubsequence(DateStep(u, j, w).rows, u.rows)
  {
    SubsequenceReflexive(u.rows);
    var days := ValidDays(ColumnCells(u.rows, j));
    if days != [] && Min(days) != Max(days) {
      var range := w.dates(Date(Min(days)), Date(Max(days)));
      FilterSeqSubsequence(u.rows, row => InRange(At(row, j), range.0, range.1));
    }
  }

  /** Lines 62-78 on the working copy: it is kept, or replaced by the rows of the chosen status. */
  method FilterStatus(df: DataFrame, w: Widgets) returns (out: DataFrame)
    requires df.Valid()
    ensures out.Valid() && (out == df || fresh(out))
    ensures out.Value() == StatusFilter(df.Value(), w)
  {
    out := df;
    if StatusColumn in df.columns {
      var j := IndexOf(df.columns, StatusColumn).value;
      var sel := w.status(StatusOptions(ColumnCells(df.rows, j)));
      if sel != All {
        out := new DataFrame(KeepRows(df.Value(), row => At(row, j) == Some(Str(sel))));
      }
    }
  }

  /** Lines 85-105 on the working copy. */
  method FilterAge(df: DataFrame, w: Widgets) returns (out: DataFrame)
    requires df.Valid()
    ensures out.Valid() && (out == df || fresh(out))
    ensures out.Value() == AgeFilter(df.Value(), w)
  {
    out := df;
    if AgeColumn in df.columns {
      var j := IndexOf(df.columns, AgeColumn).value;
      var sel := w.ages(AgeOptions(ColumnCells(df.rows, j)));
      if Str(All) !in sel {
        out := new DataFrame(KeepRows(df.Value(), row => At(row, j).Some? && At(row, j).value in sel));
      }
    }
  }

  /** Lines 112-144: the date column of the working copy is overwritten, then the copy may be replaced. */
  method FilterDate(df: DataFrame, parse: string -> Option<Date>, w: Widgets) returns (out: DataFrame)
    requires df.Valid()
    modifies df
    ensures out.Valid() && (out == df || fresh(out))
    ensures out.Value() == DateFilter(old(df.Value()), parse, w)
    ensures df.Valid() && df.Value() == UpdateColumn(old(df.Value()), ReceivedColumn, c => ToDatetime(parse, c))
  {
    out := df;
    if ReceivedColumn in df.columns {
      var j := IndexOf(df.columns, ReceivedColumn).value;
      df.UpdateInPlace(ReceivedColumn, c => ToDatetime(parse, c));
      var days := ValidDays(ColumnCells(df.rows, j));
      if days != [] {
        var lo, hi := Min(days), Max(days);
        if lo != hi {
          var range := w.dates(Date(lo), Date(hi));
          out := new DataFrame(KeepRows(df.Value(), row => InRange(At(row, j), range.0, range.1)));
        }
      }
    }
  }

  /** `render_sidebar_filters` without its rendering: the narrowed copy and the metric. */
  method RenderSidebarFilters(data: DataFrame, parse: string -> Option<Date>, w: Widgets)
    returns (filtered: DataFrame, metric: Result<nat, Error>)
    requires data.Valid()
    ensures fresh(filtered) && filtered.Valid()
    ensures (filtered.Value(), metric) == SidebarFilters(data.Value(), parse, w)
  {
    filtered := new DataFrame(data.Value());
    filtered := FilterStatus(filtered, w);
    filtered := FilterAge(filtered, w);
    filtered := FilterDate(filtered, parse, w);
    metric := FilteredPatients(filtered.Value());
  }
}
