/**
 * `load_and_process_excels` of process_excel.py after the two spreadsheet
 * reads: normalize both tables, rename the phase table's key to
 * `PACIENTE_CEDULA`, turn every cell into text (null becomes ''), and keep
 * only the phase rows whose key is one of the patients' `CEDULA` values.
 */
module Reconciler {
  import opened Wrappers
  import opened Frame
  import opened Normalizer

  /** Both tables as returned, and the count printed for the omitted phase rows. */
  datatype Loaded = Loaded(pacientes: Table, fases: Table, omitted: int)

  /** `fillna('')` followed by `astype(str)`, on one cell. */
  function Stringify(c: Cell): (r: Cell)
    ensures r.Some? && r.value.Str?
    ensures c.None? ==> r == Some(Str(""))
    ensures c.Some? && c.value.Str? ==> r == c
  {
    AsStr(FillNa(c, Str("")))
  }

  /** The text is empty exactly for a former null and for an empty string; dates and booleans never print empty. */
  lemma StringifyEmpty(c: Cell)
    ensures Stringify(c) == Some(Str("")) <==> c.None? || c == Some(Str(""))
  {
  }

  function Stringified(t: Table): (r: Table)
    requires WellFormed(t)
    ensures WellFormed(r) && r.columns == t.columns && |r.rows| == |t.rows|
    ensures forall i, k | 0 <= i < |t.rows| && 0 <= k < |t.columns| :: r.rows[i][k] == Stringify(t.rows[i][k])
  {
    Table(t.columns, MapCells(t.rows, Stringify))
  }

  /** Lines 26-32: the patient table, normalized and all text. */
  function PreparePatients(p: Table): (r: Result<Table, Error>)
    requires WellFormed(p)
    ensures r.Success? ==> WellFormed(r.value) && |r.value.rows| == |p.rows|
  {
    match NormalizeColumns(p)
    case Failure(e) => Failure(e)
    case Success(t) => Success(Stringified(t))
  }

  /** Lines 42-56: the phase table, normalized, key renamed, all text, and any remaining `CEDULA` renamed too. */
  function PreparePhases(f: Table): (r: Result<Table, Error>)
    requires WellFormed(f)
    ensures r.Success? ==> WellFormed(r.value) && |r.value.rows| == |f.rows|
  {
    match NormalizeColumns(f)
    case Failure(e) => Failure(e)
    case Success(t) => Success(Rename(Stringified(FkRename(t)), map["CEDULA" := KeyColumn]))
  }

  /** `isin`: the key cell of the row is one of the valid patient keys. */
  predicate Referenced(row: Row, j: nat, valid: set<Value>)
  {
    At(row, j).Some? && At(row, j).value in valid
  }

  /** The phase rows kept by the foreign-key filter, in their original order. */
  function KeepReferenced(rows: seq<Row>, j: nat, valid: set<Value>): (r: seq<Row>)
    ensures |r| <= |rows|
  {
    FilterSeq(rows, row => Referenced(row, j, valid))
  }

  /**
   * Lines 61-70 on the prepared tables: `df_pacientes['CEDULA']` absent
   * (KeyError) or repeated (no `.unique` on a DataFrame), then
   * `PACIENTE_CEDULA` absent or repeated in the phase table; otherwise the
   * referenced phase rows and the number omitted.
   */
  function FkFilter(pac: Table, fas: Table): (r: Result<Loaded, Error>)
  {
    match Lookup(pac.columns, "CEDULA")
    case Failure(e) => Failure(e)
    case Success(jp) =>
      var valid := PresentValues(ColumnCells(pac.rows, jp));
      match Lookup(fas.columns, KeyColumn)
      case Failure(e) => Failure(e)
      case Success(jf) =>
        var kept := KeepReferenced(fas.rows, jf, valid);
        Success(Loaded(pac, Table(fas.columns, kept), |fas.rows| - |kept|))
  }

  /** The whole step; a repeated raw label in either spreadsheet fails first (ValueError). */
  function Reconcile(p: Table, f: Table): (r: Result<Loaded, Error>)
    requires WellFormed(p) && WellFormed(f)
    ensures r.Success? ==> PreparePatients(p).Success? && PreparePhases(f).Success?
    ensures r.Success? ==> r == FkFilter(PreparePatients(p).value, PreparePhases(f).value)
  {
    match PreparePatients(p)
    case Failure(e) => Failure(e)
    case Success(pac) =>
      match PreparePhases(f)
      case Failure(e) => Failure(e)
      case Success(fas) => FkFilter(pac, fas)
  }

  /** The patient table is passed through untouched by the filter, so it is only normalized and stringified. */
  lemma PatientsNotFiltered(p: Table, f: Table)
    requires WellFormed(p) && WellFormed(f) && Reconcile(p, f).Success?
    ensures Reconcile(p, f).value.pacientes == Stringified(NormalizeColumns(p).value)
    ensures |Reconcile(p, f).value.pacientes.rows| == |p.rows|
  {
  }

  /** After the step every cell of both tables is text. */
  lemma AllCellsText(p: Table, f: Table)
    requires WellFormed(p) && WellFormed(f) && Reconcile(p, f).Success?
    ensures var l := Reconcile(p, f).value;
      && (forall i, k | 0 <= i < |l.pacientes.rows| && 0 <= k < |l.pacientes.rows[i]| ::
            l.pacientes.rows[i][k].Some? && l.pacientes.rows[i][k].value.Str?)
      && (forall i, k | 0 <= i < |l.fases.rows| && 0 <= k < |l.fases.rows[i]| ::
            l.fases.rows[i][k].Some? && l.fases.rows[i][k].value.Str?)
  {
    StringifiedText(NormalizeColumns(p).value);
    var nf := NormalizeColumns(f).value;
    StringifiedText(FkRename(nf));
    FilterTextRows(PreparePatients(p).value, PreparePhases(f).value);
  }

  lemma StringifiedText(t: Table)
    requires WellFormed(t)
    ensures forall i, k | 0 <= i < |Stringified(t).rows| && 0 <= k < |Stringified(t).rows[i]| ::
      Stringified(t).rows[i][k].Some? && Stringified(t).rows[i][k].value.Str?
  {
  }

  lemma FilterTextRows(pac: Table, fas: Table)
    requires FkFilter(pac, fas).Success?
    requires forall i, k | 0 <= i < |fas.rows| && 0 <= k < |fas.rows[i]| :: fas.rows[i][k].Some? && fas.rows[i][k].value.Str?
    ensures var l := FkFilter(pac, fas).value;
      l.pacientes == pac &&
      forall i, k | 0 <= i < |l.fases.rows| && 0 <= k < |l.fases.rows[i]| :: l.fases.rows[i][k].Some? && l.fases.rows[i][k].value.Str?
  {
    var l := FkFilter(pac, fas).value;
    forall i, k | 0 <= i < |l.fases.rows| && 0 <= k < |l.fases.rows[i]|
      ensures l.fases.rows[i][k].Some? && l.fases.rows[i][k].value.Str?
    {
      assert l.fases.rows[i] in l.fases.rows;
      var n :| 0 <= n < |fas.rows| && fas.rows[n] == l.fases.rows[i];
    }
  }

  /** No phase column is called `CEDULA` any more: line 56 renames one left behind by the DOCUMENTO branch. */
  lemma NoCedulaInPhases(f: Table)
    requires WellFormed(f) && PreparePhases(f).Success?
    ensures "CEDULA" !in PreparePhases(f).value.columns
  {
  }

  /**
   * The filter keeps exactly the phase rows whose key is a patient's `CEDULA`,
   * in their order; the omitted count is the number of the others, and none
   * of those has a valid key.
   */
  lemma FilterExact(pac: Table, fas: Table)
    requires FkFilter(pac, fas).Success?
    ensures var jp := Lookup(pac.columns, "CEDULA").value; var jf := Lookup(fas.columns, KeyColumn).value;
      var valid := PresentValues(ColumnCells(pac.rows, jp));
      var l := FkFilter(pac, fas).value;
      && l.pacientes == pac
      && l.fases.columns == fas.columns
      && IsSubsequence(l.fases.rows, fas.rows)
      && (forall row | row in l.fases.rows :: Referenced(row, jf, valid))
      && (forall row | row in fas.rows && Referenced(row, jf, valid) :: row in l.fases.rows)
      && l.omitted == |fas.rows| - |l.fases.rows| >= 0
      && l.omitted == |FilterSeq(fas.rows, row => !Referenced(row, jf, valid))|
  {
    var jp := Lookup(pac.columns, "CEDULA").value;
    var jf := Lookup(fas.columns, KeyColumn).value;
    var valid := PresentValues(ColumnCells(pac.rows, jp));
    var keep := row => Referenced(row, jf, valid);
    FilterSeqSubsequence(fas.rows, keep);
    forall row | row in fas.rows && Referenced(row, jf, valid) ensures row in FilterSeq(fas.rows, keep) {
      FilterSeqComplete(fas.rows, keep, row);
    }
    FilterSeqSplit(fas.rows, keep, row => !Referenced(row, jf, valid));
  }

  /**
   * Because nulls are '' by then, a phase row with an empty key is kept
   * exactly when some patient's `CEDULA` cell was null or '' before the fill.
   */
  lemma EmptyKeyKept(t: Table, fas: Table, i: nat)
    requires WellFormed(t) && FkFilter(Stringified(t), fas).Success?
    requires var jf := Lookup(fas.columns, KeyColumn).value;
      i < |fas.rows| && At(fas.rows[i], jf) == Some(Str(""))
    ensures var jp := Lookup(t.columns, "CEDULA").value;
      var l := FkFilter(Stringified(t), fas).value;
      (fas.rows[i] in l.fases.rows <==>
        exists n | 0 <= n < |t.rows| :: t.rows[n][jp] == None || t.rows[n][jp] == Some(Str("")))
  {
    var pac := Stringified(t);
    var jp := Lookup(pac.columns, "CEDULA").value;
    var jf := Lookup(fas.columns, KeyColumn).value;
    var cells := ColumnCells(pac.rows, jp);
    var valid := PresentValues(cells);
    FilterExact(pac, fas);
    assert Referenced(fas.rows[i], jf, valid) <==> Str("") in valid;
    if Str("") in valid {
      var n :| 0 <= n < |cells| && cells[n] == Some(Str(""));
      StringifyEmpty(t.rows[n][jp]);
    }
    forall n | 0 <= n < |t.rows| && (t.rows[n][jp] == None || t.rows[n][jp] == Some(Str("")))
      ensures Str("") in valid
    {
      StringifyEmpty(t.rows[n][jp]);
      assert cells[n] == Some(Str(""));
    }
  }

  /** Patients {A, B} against phases referencing A, B and C: the A and B rows stay and one row is omitted. */
  lemma FilterExample()
    ensures var a, b, c := [Some(Str("A"))], [Some(Str("B"))], [Some(Str("C"))];
      var kept := KeepReferenced([a, b, c], 0, {Str("A"), Str("B")});
      kept == [a, b] && 3 - |kept| == 1
  {
    var a, b, c := [Some(Str("A"))], [Some(Str("B"))], [Some(Str("C"))];
    var keep := (row: Row) => Referenced(row, 0, {Str("A"), Str("B")});
    assert [a, b, c][1..] == [b, c] && [b, c][1..] == [c] && [c][1..] == [];
    assert FilterSeq([c], keep) == [];
    assert FilterSeq([b, c], keep) == [b];
  }

  /** `df = df.fillna('')` builds a new frame; `for col in df.columns: df[col] = df[col].astype(str)` changes it column by column. */
  method FillAndStringify(df: DataFrame) returns (out: DataFrame)
    requires df.Valid()
    ensures fresh(out) && out.Valid()
    ensures out.Value() == Stringified(df.Value())
  {
    var t := df.Value();
    var filled := Table(t.columns, MapCells(t.rows, c => FillNa(c, Str(""))));
    out := new DataFrame(filled);
    for j := 0 to |out.columns|
      invariant out.Valid() && out.columns == t.columns && |out.rows| == |t.rows|
      invariant forall i, k | 0 <= i < |t.rows| && 0 <= k < |t.columns| ::
        out.rows[i][k] == if k < j then Stringify(t.rows[i][k]) else FillNa(t.rows[i][k], Str(""))
    {
      out.SetColumn(j, AsStr);
    }
    forall i | 0 <= i < |t.rows| ensures out.rows[i] == MapCells(t.rows, Stringify)[i] {
      assert |out.rows[i]| == |t.rows[i]|;
    }
  }

  /** Lines 25-32 after the read. */
  method PreparePatientsFrame(p: Table) returns (r: Result<DataFrame, Error>)
    requires WellFormed(p)
    ensures r.Success? ==> fresh(r.value) && r.value.Valid()
    ensures match r
      case Success(df) => PreparePatients(p) == Success(df.Value())
      case Failure(e) => PreparePatients(p) == Failure(e)
  {
    var dfPacientes := new DataFrame(p);
    var np := NormalizeColumnsAndRename(dfPacientes, "Pacientes");
    if np.Failure? {
      return Failure(np.error);
    }
    var pac := FillAndStringify(np.value);
    return Success(pac);
  }

  /** Lines 41-56 after the read. */
  method PreparePhasesFrame(f: Table) returns (r: Result<DataFrame, Error>)
    requires WellFormed(f)
    ensures r.Success? ==> fresh(r.value) && r.value.Valid()
    ensures match r
      case Success(df) => PreparePhases(f) == Success(df.Value())
      case Failure(e) => PreparePhases(f) == Failure(e)
  {
    var dfFases := new DataFrame(f);
    var nf := NormalizeColumnsAndRename(dfFases, "FasePaciente");
    if nf.Failure? {
      return Failure(nf.error);
    }
    var fas := nf.value;
    if "DOCUMENTO" in fas.columns {
      fas := new DataFrame(Rename(fas.Value(), map["DOCUMENTO" := KeyColumn]));
    } else if "CEDULA" in fas.columns {
      fas := new DataFrame(Rename(fas.Value(), map["CEDULA" := KeyColumn]));
    }
    assert fas.Value() == FkRename(nf.value.Value());
    fas := FillAndStringify(fas);
    fas := new DataFrame(Rename(fas.Value(), map["CEDULA" := KeyColumn]));
    return Success(fas);
  }

  /** Lines 61-70: the foreign-key filter on the prepared frames. */
  method FilterPhases(pac: DataFrame, fas: DataFrame) returns (r: Result<Loaded, Error>)
    requires pac.Valid() && fas.Valid()
    ensures r == FkFilter(pac.Value(), fas.Value())
  {
    var jp := Lookup(pac.columns, "CEDULA");
    if jp.Failure? {
      return Failure(jp.error);
    }
    var cedulasPacientesValidas := PresentValues(ColumnCells(pac.rows, jp.value));
    var filasOriginalesFases := |fas.rows|;
    var jf := Lookup(fas.columns, KeyColumn);
    if jf.Failure? {
      return Failure(jf.error);
    }
    var kept := KeepReferenced(fas.rows, jf.value, cedulasPacientesValidas);
    assert WellFormed(Table(fas.columns, kept)) by {
      forall i | 0 <= i < |kept| ensures |kept[i]| == |fas.columns| {
        assert kept[i] in kept;
        var n :| 0 <= n < |fas.rows| && fas.rows[n] == kept[i];
      }
    }
    var filtered := new DataFrame(Table(fas.columns, kept));
    r := Success(Loaded(pac.Value(), filtered.Value(), filasOriginalesFases - |filtered.rows|));
  }

  /** The method form of `load_and_process_excels` after the reads; only frames it creates are changed. */
  method LoadAndProcessExcels(pacientes: Table, fases: Table) returns (r: Result<Loaded, Error>)
    requires WellFormed(pacientes) && WellFormed(fases)
    ensures r == Reconcile(pacientes, fases)
  {
    var pr := PreparePatientsFrame(pacientes);
    if pr.Failure? {
      return Failure(pr.error);
    }
    var fr := PreparePhasesFrame(fases);
    if fr.Failure? {
      return Failure(fr.error);
    }
    r := FilterPhases(pr.value, fr.value);
  }
}
