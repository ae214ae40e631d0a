/**
 * The data side of app.py: the LEFT JOIN query that `load_data` sends, the
 * repairs `load_data` applies to the merged frame, the rename and the guarded
 * SI/NO map that follow it, and the counts of `render_kpis`.
 */
module Dashboard {
  import opened Wrappers
  import opened Text
  import opened Dates
  import opened Frame

  // ---------------------------------------------------------------------------
  // The query (app.py lines 17-37)
  // ---------------------------------------------------------------------------

  /** `P.` is the patient table `Pacientes_tmz`, `F.` the phase table `FasePaciente`. */
  datatype Side = P | F

  datatype Selected = Selected(side: Side, name: string)

  /** The SELECT list, in order. */
  const Query: seq<Selected> := [
    Selected(P, "CEDULA"), Selected(P, "NOMBRE"), Selected(P, "NOMBRE_MEDICO"),
    Selected(F, "GENERO"), Selected(F, "EDAD"), Selected(F, "RANGO_DE_EDAD"),
    Selected(P, "FECHA_DE_RECIBIDO"), Selected(F, "FECHA_TOMA_MUESTRA"), Selected(P, "ESTADO"),
    Selected(F, "MES"), Selected(F, "DEPARTAMENTO"), Selected(F, "CIUDAD"), Selected(F, "EPS"),
    Selected(F, "RESULTADOS_A_CORTE_14_OCTUBRE_JOHN"), Selected(F, "MUESTRA_ENVIADA_A_ESPAÑA")]

  /** The labels of the result frame: the selected column names without their table prefix. */
  function Labels(q: seq<Selected>): (r: seq<string>)
    ensures |r| == |q| && forall i | 0 <= i < |q| :: r[i] == q[i].name
  {
    seq(|q|, i requires 0 <= i < |q| => q[i].name)
  }

  function SideColumns(s: Side, pc: seq<string>, fc: seq<string>): seq<string>
  {
    if s == P then pc else fc
  }

  /** The position of every selected column in its table; the server rejects a column it does not have. */
  function Resolve(pc: seq<string>, fc: seq<string>, q: seq<Selected>): (r: Result<seq<nat>, Error>)
    ensures r.Success? ==> |r.value| == |q| && forall i | 0 <= i < |q| ::
      r.value[i] < |SideColumns(q[i].side, pc, fc)| && SideColumns(q[i].side, pc, fc)[r.value[i]] == q[i].name
    ensures r.Failure? ==> exists i | 0 <= i < |q| ::
      (q[i].name !in SideColumns(q[i].side, pc, fc) || Repeated(SideColumns(q[i].side, pc, fc), q[i].name))
    decreases |q|
  {
    if q == [] then Success([])
    else
      match Lookup(SideColumns(q[0].side, pc, fc), q[0].name)
      case Failure(e) => Failure(e)
      case Success(j) =>
        match Resolve(pc, fc, q[1..])
        case Failure(e) =>
          var i :| 0 <= i < |q[1..]| && (q[1..][i].name !in SideColumns(q[1..][i].side, pc, fc)
            || Repeated(SideColumns(q[1..][i].side, pc, fc), q[1..][i].name));
          assert q[i + 1] == q[1..][i];
          Failure(e)
        case Success(rest) => Success([j] + rest)
  }

  /** `P.CEDULA = F.PACIENTE_CEDULA`: SQL NULL equals nothing. */
  predicate Matches(prow: Row, frow: Row, pk: nat, fk: nat)
  {
    At(prow, pk).Some? && At(prow, pk) == At(frow, fk)
  }

  /** One result row: patient cells from `prow`, phase cells from `frow`, or NULL when there is no phase row. */
  function Project(prow: Row, frow: Option<Row>, q: seq<Selected>, pos: seq<nat>): (r: Row)
    requires |pos| == |q|
    ensures |r| == |q|
    ensures forall i | 0 <= i < |q| && q[i].side == P :: r[i] == At(prow, pos[i])
    ensures forall i | 0 <= i < |q| && q[i].side == F ::
      r[i] == if frow.None? then None else At(frow.value, pos[i])
  {
    seq(|q|, i requires 0 <= i < |q| =>
      if q[i].side == P then At(prow, pos[i])
      else if frow.None? then None else At(frow.value, pos[i]))
  }

  /** The result rows of one patient: one per matching phase row, or a single row padded with NULL. */
  function RowsFor(prow: Row, frows: seq<Row>, q: seq<Selected>, pos: seq<nat>, pk: nat, fk: nat): (r: seq<Row>)
    requires |pos| == |q|
    ensures |r| >= 1
    ensures forall row | row in r :: |row| == |q|
  {
    var m := FilterSeq(frows, frow => Matches(prow, frow, pk, fk));
    if m == [] then [Project(prow, None, q, pos)]
    else seq(|m|, i requires 0 <= i < |m| => Project(prow, Some(m[i]), q, pos))
  }

  /** The LEFT JOIN, patient by patient (the order SQL Server happens to return is not modelled). */
  function JoinRows(prows: seq<Row>, frows: seq<Row>, q: seq<Selected>, pos: seq<nat>, pk: nat, fk: nat): (r: seq<Row>)
    requires |pos| == |q|
    ensures |r| >= |prows|
    ensures forall row | row in r :: |row| == |q|
    decreases |prows|
  {
    if prows == [] then []
    else RowsFor(prows[0], frows, q, pos, pk, fk) + JoinRows(prows[1..], frows, q, pos, pk, fk)
  }

  /** A query with SELECT list `q` on the two tables, or the error the server raises for a column it does not know. */
  function JoinQuery(pac: Table, fas: Table, q: seq<Selected>): (r: Result<Table, Error>)
    ensures r.Success? ==> WellFormed(r.value) && r.value.columns == Labels(q)
    ensures r.Success? ==> |r.value.rows| >= |pac.rows|
  {
    match Resolve(pac.columns, fas.columns, q)
    case Failure(e) => Failure(e)
    case Success(pos) =>
      match Lookup(pac.columns, "CEDULA")
      case Failure(e) => Failure(e)
      case Success(pk) =>
        match Lookup(fas.columns, "PACIENTE_CEDULA")
        case Failure(e) => Failure(e)
        case Success(fk) =>
          var rows := JoinRows(pac.rows, fas.rows, q, pos, pk, fk);
          assert forall i | 0 <= i < |rows| :: rows[i] in rows;
          Success(Table(Labels(q), rows))
  }

  /** The query of `load_data`. */
  function LeftJoin(pac: Table, fas: Table): (r: Result<Table, Error>)
    ensures r.Success? ==> WellFormed(r.value) && r.value.columns == Labels(Query)
    ensures r.Success? ==> |r.value.rows| >= |pac.rows|
  {
    JoinQuery(pac, fas, Query)
  }

  /** `fetch_data`: the query result, or an empty frame when the query fails. */
  function FetchMerged(pac: Table, fas: Table): (r: Table)
    ensures WellFormed(r)
  {
    match LeftJoin(pac, fas)
    case Success(t) => t
    case Failure(_) => Table([], [])
  }

  /**
   * Every patient row is in the join result: its own row padded with NULL when
   * no phase row matches, otherwise one row per match showing that phase row.
   */
  lemma {:induction false} JoinCoversPatients(prows: seq<Row>, frows: seq<Row>, q: seq<Selected>, pos: seq<nat>, pk: nat, fk: nat, n: nat)
    requires |pos| == |q| && n < |prows|
    ensures var m := FilterSeq(frows, frow => Matches(prows[n], frow, pk, fk));
      && (m == [] ==> Project(prows[n], None, q, pos) in JoinRows(prows, frows, q, pos, pk, fk))
      && (forall frow | frow in m :: Project(prows[n], Some(frow), q, pos) in JoinRows(prows, frows, q, pos, pk, fk))
    decreases n
  {
    var here := RowsFor(prows[0], frows, q, pos, pk, fk);
    var rest := JoinRows(prows[1..], frows, q, pos, pk, fk);
    if n == 0 {
      var m := FilterSeq(frows, frow => Matches(prows[0], frow, pk, fk));
      forall frow | frow in m ensures Project(prows[0], Some(frow), q, pos) in here + rest {
        var i :| 0 <= i < |m| && m[i] == frow;
        assert here[i] == Project(prows[0], Some(frow), q, pos);
      }
      if m == [] {
        assert here[0] == Project(prows[0], None, q, pos);
      }
    } else {
      JoinCoversPatients(prows[1..], frows, q, pos, pk, fk, n - 1);
      assert prows[1..][n - 1] == prows[n];
    }
  }

  /** A patient with no phase row appears with every phase column NULL. */
  lemma UnmatchedPatientsPadded(prow: Row, q: seq<Selected>, pos: seq<nat>)
    requires |pos| == |q|
    ensures forall i | 0 <= i < |q| && q[i].side == F :: Project(prow, None, q, pos)[i] == None
    ensures forall i | 0 <= i < |q| && q[i].side == P :: Project(prow, None, q, pos)[i] == At(prow, pos[i])
  {
  }

  // ---------------------------------------------------------------------------
  // The repairs of `load_data` (app.py lines 39-64)
  // ---------------------------------------------------------------------------

  const SampleDate := "FECHA_TOMA_MUESTRA"
  const CurrentPhase := "FASE_ACTUAL"
  const PhaseDate := "FECHA_FASE"
  const NoPhase := "Sin Fase Registrada"

  /**
   * `pd.to_numeric(errors='coerce')` on one cell: integer text is read,
   * anything else is missing; a date gives its nanoseconds and a boolean 1 or 0.
   */
  function ToNumeric(c: Cell): Option<int>
  {
    match c
    case None => None
    case Some(Str(s)) => ParseInt(s)
    case Some(Day(d)) => Some(Nanoseconds(d))
    case Some(Flag(b)) => Some(if b then 1 else 0)
  }

  /** `pd.to_datetime(n, unit='D', origin='1899-12-30', errors='coerce')` on a whole number of days. */
  function FromSerial(n: Option<int>): Cell
  {
    match n
    case None => None
    case Some(k) => if InTimestampRange(SerialToDate(k)) then Some(Day(SerialToDate(k))) else None
  }

  /** Lines 43-55 on one cell. */
  function RepairDateCell(c: Cell): Cell
  {
    FromSerial(ToNumeric(c))
  }

  /** A whole-number serial n is the date 1899-12-30 plus n days, so serial n+1 is the next day. */
  lemma SerialTextToDate(n: int)
    requires InTimestampRange(SerialToDate(n)) && InTimestampRange(SerialToDate(n + 1))
    ensures RepairDateCell(Some(Str(IntText(n)))) == Some(Day(SerialToDate(n)))
    ensures RepairDateCell(Some(Str(IntText(n + 1)))) == Some(Day(Date(SerialToDate(n).day + 1)))
  {
    ParseIntText(n);
    ParseIntText(n + 1);
  }

  /**
   * Text the model does not read as an integer, such as 'None', '' or 'N/A',
   * becomes missing and never raises. This includes fractional and exponent
   * forms such as '45200.5' and whitespace-padded integers such as ' 45200 ',
   * which pandas would convert.
   */
  lemma NonNumericMissing(s: string)
    requires ParseInt(s).None?
    ensures RepairDateCell(Some(Str(s))) == None
    ensures RepairDateCell(None) == None
  {
  }

  /**
   * The repair is not idempotent: run on a date it already produced, every
   * date except 1970-01-01 reads as nanoseconds, far outside the Timestamp
   * range, and becomes missing.
   */
  lemma RepairNotIdempotent(d: Date)
    requires InTimestampRange(d) && d.day != 0
    ensures RepairDateCell(Some(Day(d))) == None
  {
    SerialEpochValue();
    if d.day > 0 {
      assert Nanoseconds(d) >= 86_400_000_000_000;
    } else {
      assert Nanoseconds(d) <= -86_400_000_000_000;
    }
  }

  /** Serial 45200 becomes 2023-10-01; repairing that date again loses it. */
  lemma RepairTwiceExample()
    ensures RepairDateCell(Some(Str("45200"))) == Some(Day(Date(19631)))
    ensures RepairDateCell(RepairDateCell(Some(Str("45200")))) == None
  {
    SerialEpochValue();
    Parse45200();
    RepairNotIdempotent(Date(19631));
  }

  lemma Parse45200()
    ensures ParseInt("45200") == Some(45200)
  {
    var s := "45200";
    assert AllDigits(s);
    assert s[..4] == "4520" && s[..4][..3] == "452" && s[..3][..2] == "45" && s[..2][..1] == "4";
    assert DigitsValue("4") == 4;
    assert DigitsValue("45") == 45;
    assert DigitsValue("452") == 452;
    assert DigitsValue("4520") == 4520;
  }

  /** `fillna('Sin Fase Registrada')` on one cell. */
  function FillPhase(c: Cell): (r: Cell)
    ensures c.None? ==> r == Some(Str(NoPhase))
    ensures c.Some? ==> r == c
  {
    FillNa(c, Str(NoPhase))
  }

  /** The frame `load_data` returns. */
  function LoadData(t: Table, parse: string -> Option<Date>): (r: Table)
    requires WellFormed(t)
    ensures WellFormed(r) && r.columns == t.columns && |r.rows| == |t.rows|
  {
    var repaired := UpdateColumn(t, SampleDate, RepairDateCell);
    var filled := UpdateColumn(repaired, CurrentPhase, FillPhase);
    UpdateColumn(filled, PhaseDate, c => ToDatetime(parse, c))
  }

  /**
   * Cell by cell: the sample-date column is repaired, the phase column's nulls
   * are filled, the phase-date column is parsed, and every other cell is kept.
   */
  lemma LoadDataCells(t: Table, parse: string -> Option<Date>, i: nat, k: nat)
    requires WellFormed(t) && i < |t.rows| && k < |t.columns|
    requires IndexOf(t.columns, SampleDate) != Some(k) && IndexOf(t.columns, PhaseDate) != Some(k)
    ensures IndexOf(t.columns, CurrentPhase) == Some(k) && t.rows[i][k].None? ==>
      LoadData(t, parse).rows[i][k] == Some(Str(NoPhase))
    ensures IndexOf(t.columns, CurrentPhase) != Some(k) || t.rows[i][k].Some? ==>
      LoadData(t, parse).rows[i][k] == t.rows[i][k]
  {
  }

  lemma LoadDataSampleDate(t: Table, parse: string -> Option<Date>, i: nat, k: nat)
    requires WellFormed(t) && i < |t.rows| && IndexOf(t.columns, SampleDate) == Some(k)
    ensures LoadData(t, parse).rows[i][k] == RepairDateCell(t.rows[i][k])
  {
    assert IndexOf(t.columns, CurrentPhase) != Some(k) && IndexOf(t.columns, PhaseDate) != Some(k);
  }

  /**
   * `load_data`: the fetched frame, updated in place column by column, each
   * step only when its column is present.
   */
  method LoadDataFrame(pac: Table, fas: Table, parse: string -> Option<Date>) returns (df: DataFrame)
    ensures fresh(df) && df.Valid()
    ensures df.Value() == LoadData(FetchMerged(pac, fas), parse)
  {
    df := new DataFrame(FetchMerged(pac, fas));
    if SampleDate in df.columns {
      df.UpdateInPlace(SampleDate, RepairDateCell);
    }
    if CurrentPhase in df.columns {
      df.UpdateInPlace(CurrentPhase, FillPhase);
    }
    if PhaseDate in df.columns {
      df.UpdateInPlace(PhaseDate, c => ToDatetime(parse, c));
    }
  }

  /** The merged frame has no `FASE_ACTUAL` or `FECHA_FASE` column, so only the sample date is repaired. */
  lemma MergedOnlySampleDate(pac: Table, fas: Table, parse: string -> Option<Date>)
    ensures var t := FetchMerged(pac, fas);
      LoadData(t, parse) == UpdateColumn(t, SampleDate, RepairDateCell)
  {
    MergedLabels();
  }

  lemma MergedLabels()
    ensures CurrentPhase !in Labels(Query) && PhaseDate !in Labels(Query)
    ensures ResultsGuard !in Labels(Query) && ResultsColumn !in Labels(Query)
  {
    LabelLengths();
  }

  /** No selected label is 10, 11 or 14 characters long. */
  lemma LabelLengths()
    ensures forall i | 0 <= i < |Labels(Query)| ::
      |Labels(Query)[i]| != 10 && |Labels(Query)[i]| != 11 && |Labels(Query)[i]| != 14
  {
    forall i | 0 <= i < |Query|
      ensures |Query[i].name| != 10 && |Query[i].name| != 11 && |Query[i].name| != 14
    {
    }
  }

  // ---------------------------------------------------------------------------
  // The rename and the SI/NO map (app.py lines 68-74)
  // ---------------------------------------------------------------------------

  const ResultsRaw := "RESULTADOS_A_CORTE_14_OCTUBRE_JOHN"
  const ResultsColumn := "RESULTADOS_TMZ"
  /** The label the SI/NO map is guarded by: lower case, unlike the label the rename produces. */
  const ResultsGuard := "resultados_tmz"

  const ResultsRename: map<string, string> := map[ResultsRaw := ResultsColumn]

  /** `.map({True: "SI", False: "NO"})` on one cell: anything but a boolean becomes missing. */
  function SiNo(c: Cell): (r: Cell)
    ensures r == Some(Str("SI")) <==> c == Some(Flag(true))
    ensures r == Some(Str("NO")) <==> c == Some(Flag(false))
    ensures r.None? <==> !(c.Some? && c.value.Flag?)
  {
    match c
    case Some(Flag(b)) => Some(Str(if b then "SI" else "NO"))
    case _ => None
  }

  /** Mapping a column that was already mapped loses every value. */
  lemma SiNoTwice(c: Cell)
    ensures SiNo(SiNo(c)) == None
  {
  }

  /** The frame the dashboard works on: the results column renamed, then the guarded map. */
  function AppData(t: Table): (r: Table)
    requires WellFormed(t)
    ensures WellFormed(r) && |r.rows| == |t.rows|
    ensures ResultsGuard !in t.columns ==> r.rows == t.rows
  {
    UpdateColumn(Rename(t, ResultsRename), ResultsGuard, SiNo)
  }

  /**
   * The guard tests a lower-case label the rename never produces, so unless
   * the frame already had that exact label the map never runs and the data
   * is only renamed.
   */
  lemma GuardNeverFires(t: Table)
    requires WellFormed(t) && ResultsGuard !in t.columns
    ensures AppData(t) == Rename(t, ResultsRename)
    ensures ResultsColumn in t.columns || ResultsRaw in t.columns <==> ResultsColumn in AppData(t).columns
  {
    var r := Rename(t, ResultsRename);
    forall k | 0 <= k < |r.columns| ensures r.columns[k] != ResultsGuard {
      assert ResultsColumn[0] != ResultsGuard[0];
    }
    if ResultsRaw in t.columns {
      var k :| 0 <= k < |t.columns| && t.columns[k] == ResultsRaw;
      assert r.columns[k] == ResultsColumn;
    }
    if ResultsColumn in t.columns {
      var k :| 0 <= k < |t.columns| && t.columns[k] == ResultsColumn;
      assert ResultsColumn != ResultsRaw;
      assert r.columns[k] == ResultsColumn;
    }
  }

  /** On the frame `load_data` returns, the results column keeps its raw cells under its new label. */
  lemma AppDataOfMerged(pac: Table, fas: Table, parse: string -> Option<Date>)
    ensures var t := LoadData(FetchMerged(pac, fas), parse);
      ResultsGuard !in t.columns && AppData(t) == Rename(t, ResultsRename)
  {
    MergedLabels();
    var t := LoadData(FetchMerged(pac, fas), parse);
    GuardNeverFires(t);
  }

  /** app.py lines 69-74, in place. */
  method PrepareAppData(df: DataFrame)
    requires df.Valid()
    modifies df
    ensures df.Valid() && df.Value() == AppData(old(df.Value()))
  {
    df.RenameInPlace(ResultsRename);
    if ResultsGuard in df.columns {
      df.UpdateInPlace(ResultsGuard, SiNo);
    }
  }

  // ---------------------------------------------------------------------------
  // `render_kpis` (app.py lines 91-107)
  // ---------------------------------------------------------------------------

  datatype Kpis = Kpis(total: nat, unique: nat, pending: nat, done: nat, scheduled: nat, sentToLab: nat)

  const LabNames: seq<string> := ["enviado_lab", "estado_lab", "muestra_enviada", "enviado"]

  predicate IsLabName(c: string)
  {
    Lower(c) in LabNames
  }

  /** The first column at or after `from` whose lower-cased label names the laboratory column. */
  function LabColumnFrom(cols: seq<string>, from: nat): (r: Option<nat>)
    requires from <= |cols|
    ensures r.Some? ==> from <= r.value < |cols| && IsLabName(cols[r.value])
    ensures r.Some? ==> forall k | from <= k < r.value :: !IsLabName(cols[k])
    ensures r.None? <==> forall k | from <= k < |cols| :: !IsLabName(cols[k])
    decreases |cols| - from
  {
    if from == |cols| then None
    else if IsLabName(cols[from]) then Some(from)
    else LabColumnFrom(cols, from + 1)
  }

  function LabColumn(cols: seq<string>): Option<nat>
  {
    LabColumnFrom(cols, 0)
  }

  /** The loop over `df.columns` with its `break`: the first laboratory column, if any. */
  method FindLabColumn(cols: seq<string>) returns (col: Option<nat>)
    ensures col == LabColumn(cols)
  {
    col := None;
    var i := 0;
    while i < |cols|
      invariant 0 <= i <= |cols|
      invariant forall k | 0 <= k < i :: !IsLabName(cols[k])
    {
      if IsLabName(cols[i]) {
        col := Some(i);
        break;
      }
      i := i + 1;
    }
  }

  /** The rows of column `name` (its first occurrence) equal to `v`; 0 when the column is absent. */
  function CountIn(t: Table, name: string, v: Cell): nat
  {
    match IndexOf(t.columns, name)
    case None => 0
    case Some(j) => CountEq(ColumnCells(t.rows, j), v)
  }

  const Pending := Some(Str("PENDIENTE"))
  const Done := Some(Str("REALIZADO"))
  const Scheduled := Some(Str("PROGRAMADO"))

  /** The six indicators of `render_kpis`. */
  function KpisOf(t: Table): Kpis
  {
    var unique := match IndexOf(t.columns, "CEDULA")
      case None => 0
      case Some(j) => |PresentValues(ColumnCells(t.rows, j))|;
    var lab := match LabColumn(t.columns)
      case None => 0
      case Some(j) => CountEq(ColumnCells(t.rows, j), Some(Str("SI")));
    Kpis(|t.rows|, unique, CountIn(t, "ESTADO", Pending), CountIn(t, "ESTADO", Done),
      CountIn(t, "ESTADO", Scheduled), lab)
  }

  /**
   * No indicator exceeds the number of records, distinct patients are at most
   * the records, and a record is counted under at most one status.
   */
  lemma KpiBounds(t: Table)
    ensures var k := KpisOf(t);
      && k.total == |t.rows|
      && k.unique <= k.total && k.sentToLab <= k.total
      && k.pending + k.done + k.scheduled <= k.total
  {
    if IndexOf(t.columns, "CEDULA").Some? {
      PresentValuesBound(ColumnCells(t.rows, IndexOf(t.columns, "CEDULA").value));
    }
    if IndexOf(t.columns, "ESTADO").Some? {
      assert Pending != Done && Done != Scheduled && Pending != Scheduled;
      CountEqDisjoint(ColumnCells(t.rows, IndexOf(t.columns, "ESTADO").value), Pending, Done, Scheduled);
    }
  }

  /**
   * Each count is 0 when its column is absent; the laboratory count is 0
   * exactly when no label lower-cases to one of the four names or no row of
   * the first such column holds 'SI'.
   */
  lemma KpiAbsentColumns(t: Table)
    ensures "CEDULA" !in t.columns ==> KpisOf(t).unique == 0
    ensures "ESTADO" !in t.columns ==> KpisOf(t).pending == 0 && KpisOf(t).done == 0 && KpisOf(t).scheduled == 0
    ensures (forall k | 0 <= k < |t.columns| :: !IsLabName(t.columns[k])) ==> KpisOf(t).sentToLab == 0
    ensures (exists k | 0 <= k < |t.columns| :: IsLabName(t.columns[k])) ==>
      KpisOf(t).sentToLab == CountEq(ColumnCells(t.rows, LabColumn(t.columns).value), Some(Str("SI")))
  {
  }

  /** A laboratory column found by the loop is the first occurrence of its label, so `df[col_lab]` reads it. */
  lemma LabColumnIsFirstOccurrence(cols: seq<string>)
    requires LabColumn(cols).Some?
    ensures IndexOf(cols, cols[LabColumn(cols).value]) == LabColumn(cols)
  {
    var j := LabColumn(cols).value;
    var i := IndexOf(cols, cols[j]).value;
    assert IsLabName(cols[i]);
  }

  /** `render_kpis(df)` without the Streamlit output. */
  method RenderKpis(t: Table) returns (k: Kpis)
    ensures k == KpisOf(t)
  {
    var unique := 0;
    match IndexOf(t.columns, "CEDULA") {
      case Some(j) => unique := |PresentValues(ColumnCells(t.rows, j))|;
      case None =>
    }
    var lab := 0;
    var col := FindLabColumn(t.columns);
    if col.Some? {
      lab := CountEq(ColumnCells(t.rows, col.value), Some(Str("SI")));
    }
    k := Kpis(|t.rows|, unique, CountIn(t, "ESTADO", Pending), CountIn(t, "ESTADO", Done),
      CountIn(t, "ESTADO", Scheduled), lab);
  }
}
