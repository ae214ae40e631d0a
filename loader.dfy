/**
 * `clean_and_normalize_dataframe` of db_setup_loader.py: clean every label
 * (a list comprehension, so repeated raw labels are allowed), drop the
 * UNNAMED columns and report how many went, then apply the per-table renames.
 */
module Loader {
  import opened Text
  import opened Frame
  import opened Wrappers
  import opened Normalizer
  import Ordering

  /** The renames of the patient table; no other label of it changes. */
  const PatientRenames: map<string, string> := map[
    "FECHA_DE_PROGRAMACION_DE_CITA" := "FECHA_PROG_CITA",
    "IPS_INSTITUTO_QUE_REMITE" := "IPS_QUE_REMITE",
    "OBSERVACIONES1" := "OBSERVACIONES_2"]

  /** The cleaned table and the count of UNNAMED columns removed (the `st.info` message). */
  datatype Cleaned = Cleaned(table: Table, dropped: int)

  /** The frame before the per-table renames: cleaned labels without UNNAMED columns. */
  function Trimmed(t: Table): (r: Table)
    requires WellFormed(t)
    ensures WellFormed(r) && |r.rows| == |t.rows|
  {
    DropUnnamed(CleanColumns(t))
  }

  function RenameFor(t: Table, tableName: string): (r: Table)
    ensures r.rows == t.rows && |r.columns| == |t.columns|
  {
    if tableName == "Pacientes_tmz" then Rename(t, PatientRenames)
    else if tableName == "FasePaciente" then FkRename(t)
    else t
  }

  function CleanAndNormalize(t: Table, tableName: string): (r: Cleaned)
    requires WellFormed(t)
    ensures WellFormed(r.table) && |r.table.rows| == |t.rows|
    ensures 0 <= r.dropped <= |t.columns|
    ensures r.dropped == |t.columns| - |r.table.columns|
  {
    var trimmed := Trimmed(t);
    var cleaned := CleanColumns(t);
    DropUnnamedExact(cleaned);
    Cleaned(RenameFor(trimmed, tableName), |t.columns| - |trimmed.columns|)
  }

  /** The reported count is the number of cleaned labels that contain `UNNAMED`. */
  lemma DroppedCount(t: Table, tableName: string)
    requires WellFormed(t)
    ensures CleanAndNormalize(t, tableName).dropped == |FilterSeq(CleanColumns(t).columns, IsUnnamed)|
  {
    DropUnnamedExact(CleanColumns(t));
  }

  /** None of the rename targets contains `UNNAMED`. */
  lemma TargetsNotUnnamed(c: string)
    requires c in PatientRenames.Values || c == KeyColumn
    ensures !IsUnnamed(c)
  {
    assert PatientRenames.Values == {"FECHA_PROG_CITA", "IPS_QUE_REMITE", "OBSERVACIONES_2"} by {
      assert PatientRenames["FECHA_DE_PROGRAMACION_DE_CITA"] == "FECHA_PROG_CITA";
      assert PatientRenames["IPS_INSTITUTO_QUE_REMITE"] == "IPS_QUE_REMITE";
      assert PatientRenames["OBSERVACIONES1"] == "OBSERVACIONES_2";
    }
    if c == "IPS_QUE_REMITE" {
      AbsentCharNotContained(c, "UNNAMED", 'N');
    } else {
      AbsentCharNotContained(c, "UNNAMED", 'M');
    }
  }

  /** Before the renames the survivors are the cleaned labels without UNNAMED, in their order. */
  lemma TrimmedKeepsOrder(t: Table)
    requires WellFormed(t)
    ensures forall c | c in Trimmed(t).columns :: !IsUnnamed(c)
    ensures IsSubsequence(Trimmed(t).columns, CleanColumns(t).columns)
    ensures forall c | c in CleanColumns(t).columns && !IsUnnamed(c) :: c in Trimmed(t).columns
  {
    DropUnnamedExact(CleanColumns(t));
  }

  /** Renaming with `m` keeps labels free of `UNNAMED` when no target of `m` contains it. */
  lemma RenameKeepsNoUnnamed(cols: seq<string>, m: map<string, string>)
    requires forall c | c in cols :: !IsUnnamed(c)
    requires forall c | c in m.Values :: !IsUnnamed(c)
    ensures forall c | c in RenameColumns(cols, m) :: !IsUnnamed(c)
  {
    var r := RenameColumns(cols, m);
    forall k | 0 <= k < |r| ensures !IsUnnamed(r[k]) {
      assert cols[k] in cols;
      if cols[k] in m {
        assert m[cols[k]] in m.Values;
      }
    }
  }

  /** No label left by the function contains `UNNAMED`: none of the rename targets does. */
  lemma NoUnnamedSurvives(t: Table, tableName: string)
    requires WellFormed(t)
    ensures forall c | c in CleanAndNormalize(t, tableName).table.columns :: !IsUnnamed(c)
  {
    TrimmedKeepsOrder(t);
    if tableName == "Pacientes_tmz" {
      PatientTargetsNotUnnamed(Trimmed(t).columns);
    } else if tableName == "FasePaciente" {
      PhaseTargetNotUnnamed(Trimmed(t));
    }
  }

  lemma PatientTargetsNotUnnamed(cols: seq<string>)
    requires forall c | c in cols :: !IsUnnamed(c)
    ensures forall c | c in RenameColumns(cols, PatientRenames) :: !IsUnnamed(c)
  {
    forall c | c in PatientRenames.Values ensures !IsUnnamed(c) {
      TargetsNotUnnamed(c);
    }
    RenameKeepsNoUnnamed(cols, PatientRenames);
  }

  lemma PhaseTargetNotUnnamed(t: Table)
    requires forall c | c in t.columns :: !IsUnnamed(c)
    ensures forall c | c in FkRename(t).columns :: !IsUnnamed(c)
  {
    TargetsNotUnnamed(KeyColumn);
    FkRenameLabels(t);
    var out := FkRename(t).columns;
    forall k | 0 <= k < |out| ensures !IsUnnamed(out[k]) {
      assert t.columns[k] in t.columns;
    }
  }

  /**
   * For `Pacientes_tmz` exactly the three listed labels are renamed; every
   * other label, and the number of columns, stay as after the drop.
   */
  lemma PatientRenamesExact(t: Table)
    requires WellFormed(t)
    ensures var before := Trimmed(t).columns; var after := CleanAndNormalize(t, "Pacientes_tmz").table.columns;
      && |after| == |before|
      && forall k | 0 <= k < |before| ::
        after[k] == (if before[k] in PatientRenames then PatientRenames[before[k]] else before[k])
  {
  }

  /** Any table other than the two named ones is not renamed at all. */
  lemma OtherTablesNotRenamed(t: Table, tableName: string)
    requires WellFormed(t) && tableName != "Pacientes_tmz" && tableName != "FasePaciente"
    ensures CleanAndNormalize(t, tableName).table == Trimmed(t)
  {
  }

  /**
   * Cells are never changed: the cell in row `i` under output column `k` is
   * the cell the same row had under the `k`-th non-UNNAMED column.
   */
  lemma CellsUnchanged(t: Table, tableName: string, i: nat, k: nat)
    requires WellFormed(t) && i < |t.rows| && k < |CleanAndNormalize(t, tableName).table.columns|
    ensures var p := Positions(CleanColumns(t).columns, c => !IsUnnamed(c), 0);
      k < |p| && CleanAndNormalize(t, tableName).table.rows[i][k] == t.rows[i][p[k]]
  {
    KeepColumnsCells(CleanColumns(t), c => !IsUnnamed(c), i, k);
  }

  /**
   * With distinct raw labels the loader's list-based cleaning and drop give
   * the same frame as `normalize_columns_and_rename` with its dict.
   */
  lemma AgreesWithNormalizer(t: Table)
    requires WellFormed(t) && Ordering.Distinct(t.columns)
    ensures NormalizeColumns(t) == Success(Trimmed(t))
  {
    DictValuesAgree(t.columns);
  }

  /**
   * The method form: `df.columns = [...]` relabels the caller's frame in
   * place; the drop and the renames build new frames.
   */
  method CleanAndNormalizeDataframe(df: DataFrame, tableName: string) returns (out: DataFrame, dropped: int)
    requires df.Valid()
    modifies df
    ensures df.Valid() && df.Value() == CleanColumns(old(df.Value()))
    ensures fresh(out) && out.Valid()
    ensures Cleaned(out.Value(), dropped) == CleanAndNormalize(old(df.Value()), tableName)
  {
    var raw := df.columns;
    var cleaned := seq(|raw|, i requires 0 <= i < |raw| => CleanName(raw[i]));
    var ok := df.SetColumns(cleaned);
    assert ok;
    var initialCols := |df.columns|;
    out := new DataFrame(DropUnnamed(df.Value()));
    dropped := initialCols - |out.columns|;
    if tableName == "Pacientes_tmz" {
      out := new DataFrame(Rename(out.Value(), PatientRenames));
    } else if tableName == "FasePaciente" {
      if "DOCUMENTO" in out.columns {
        out := new DataFrame(Rename(out.Value(), map["DOCUMENTO" := KeyColumn]));
      } else if "CEDULA" in out.columns {
        out := new DataFrame(Rename(out.Value(), map["CEDULA" := KeyColumn]));
      }
    }
  }
}
