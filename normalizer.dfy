/**
 * The schema normalizer shared by the ETL scripts: `clean_name`, the drop of
 * spreadsheet placeholder columns (`UNNAMED`), and the foreign-key rename of
 * the phase table. `clean_name` is written out identically in
 * scripts/generate_sql_script.py, db_setup_loader.py and process_excel.py;
 * it is defined once here.
 */
module Normalizer {
  import opened Wrappers
  import opened Text
  import opened Frame
  import Ordering

  /**
   * `clean_name`: upper-case; space and `/` become `_`; `.` is deleted; `É`
   * becomes `E`; one left-to-right pass turns `__` into `_`; leading and
   * trailing `_` are stripped.
   */
  function CleanName(col: string): string
  {
    var collapsed := Replace(Substituted(Upper(col)), "__", "_");
    Strip(collapsed, '_')
  }

  /** The four single-character replacements, in source order. */
  function Substituted(upper: string): string
  {
    Replace(Replace(Replace(Replace(upper, " ", "_"), "/", "_"), ".", ""), "É", "E")
  }

  /** What the four replacements make of one character. */
  function SubstChar(c: char): string
  {
    if c == ' ' || c == '/' then "_"
    else if c == '.' then ""
    else if c == 'É' then "E"
    else [c]
  }

  /** The four replacements as one character-by-character map. */
  function SubstEach(s: string): string
    decreases |s|
  {
    if s == [] then [] else SubstChar(s[0]) + SubstEach(s[1..])
  }

  lemma SubstEachCons(x: char, s: string)
    ensures SubstEach([x] + s) == SubstChar(x) + SubstEach(s)
  {
    assert ([x] + s)[1..] == s;
  }

  /**
   * None of the four passes can create or break up a match of a later one,
   * so together they act on each character independently.
   */
  lemma {:induction false} SubstitutedPerChar(u: string)
    ensures Substituted(u) == SubstEach(u)
    decreases |u|
  {
    if u != [] {
      assert u == [u[0]] + u[1..];
      SubstitutedAppend([u[0]], u[1..]);
      SubstitutedChar(u[0]);
      SubstitutedPerChar(u[1..]);
    }
  }

  lemma SubstitutedAppend(a: string, b: string)
    ensures Substituted(a + b) == Substituted(a) + Substituted(b)
  {
    ReplaceCharAppend(a, b, ' ', "_");
    var a1, b1 := Replace(a, " ", "_"), Replace(b, " ", "_");
    ReplaceCharAppend(a1, b1, '/', "_");
    var a2, b2 := Replace(a1, "/", "_"), Replace(b1, "/", "_");
    ReplaceCharAppend(a2, b2, '.', "");
    var a3, b3 := Replace(a2, ".", ""), Replace(b2, ".", "");
    ReplaceCharAppend(a3, b3, 'É', "E");
  }

  lemma SubstitutedChar(x: char)
    ensures Substituted([x]) == SubstChar(x)
  {
    ReplaceOne(x, ' ', "_");
    var a := ReplacedChar(x, ' ', "_");
    assert a == [a[0]];
    ReplaceOne(a[0], '/', "_");
    var b := ReplacedChar(a[0], '/', "_");
    assert b == [b[0]];
    ReplaceOne(b[0], '.', "");
    var c := ReplacedChar(b[0], '.', "");
    if c != [] {
      assert c == [c[0]];
      ReplaceOne(c[0], 'É', "E");
    }
  }

  /**
   * Each `.` is deleted, so the substituted text is shorter by their number;
   * the `_` it holds are the spaces, `/` and `_` of the input.
   */
  lemma {:induction false} SubstitutedCounts(u: string)
    ensures |Substituted(u)| == |u| - Occurrences(u, '.')
    ensures Occurrences(Substituted(u), '_') == Occurrences(u, ' ') + Occurrences(u, '/') + Occurrences(u, '_')
  {
    SubstitutedPerChar(u);
    SubstEachCounts(u);
  }

  lemma {:induction false} SubstEachCounts(u: string)
    ensures |SubstEach(u)| == |u| - Occurrences(u, '.')
    ensures Occurrences(SubstEach(u), '_') == Occurrences(u, ' ') + Occurrences(u, '/') + Occurrences(u, '_')
    decreases |u|
  {
    if u != [] {
      OccurrencesAppend(SubstChar(u[0]), SubstEach(u[1..]), '_');
      SubstEachCounts(u[1..]);
    }
  }

  /** The same counts for the name as read, before upper-casing. */
  lemma CleanNameSubstitutedCounts(col: string)
    ensures var v := Substituted(Upper(col));
      |v| == |col| - Occurrences(col, '.') &&
      Occurrences(v, '_') == Occurrences(col, ' ') + Occurrences(col, '/') + Occurrences(col, '_')
  {
    SubstitutedCounts(Upper(col));
    UpperOccurrences(col, '.');
    UpperOccurrences(col, ' ');
    UpperOccurrences(col, '/');
    UpperOccurrences(col, '_');
  }

  /** A cleaned name never starts or ends with `_`. */
  lemma CleanNameEdges(col: string)
    ensures var r := CleanName(col); r == [] || (r[0] != '_' && r[|r| - 1] != '_')
  {
    StripEnds(Replace(Substituted(Upper(col)), "__", "_"), '_');
  }

  /** A cleaned name holds no space, `/`, `.` or `É`. */
  lemma CleanNameNoSeparators(col: string)
    ensures var r := CleanName(col); ' ' !in r && '/' !in r && '.' !in r && 'É' !in r
  {
    var u := Upper(col);
    var a := Replace(u, " ", "_");
    ReplaceRemovesChar(u, ' ', "_");
    var b := Replace(a, "/", "_");
    ReplaceRemovesChar(a, '/', "_");
    ReplaceKeepsAbsent(a, "/", "_", ' ');
    var c := Replace(b, ".", "");
    ReplaceRemovesChar(b, '.', "");
    ReplaceKeepsAbsent(b, ".", "", ' ');
    ReplaceKeepsAbsent(b, ".", "", '/');
    var d := Replace(c, "É", "E");
    ReplaceRemovesChar(c, 'É', "E");
    ReplaceKeepsAbsent(c, "É", "E", ' ');
    ReplaceKeepsAbsent(c, "É", "E", '/');
    ReplaceKeepsAbsent(c, "É", "E", '.');
    var e := Replace(d, "__", "_");
    ReplaceKeepsAbsent(d, "__", "_", ' ');
    ReplaceKeepsAbsent(d, "__", "_", '/');
    ReplaceKeepsAbsent(d, "__", "_", '.');
    ReplaceKeepsAbsent(d, "__", "_", 'É');
    StripKeepsAbsent(e, '_', ' ');
    StripKeepsAbsent(e, '_', '/');
    StripKeepsAbsent(e, '_', '.');
    StripKeepsAbsent(e, '_', 'É');
  }

  predicate IsCapital(c: char)
  {
    'A' <= c <= 'Z'
  }

  /** `.` is deleted, not turned into `_`: `X.Y` becomes `XY`. */
  lemma CleanNameDeletesDot(x: char, y: char)
    requires IsCapital(x) && IsCapital(y)
    ensures CleanName([x, '.', y]) == [x, y]
  {
    DotStages(x, y);
    CleanNameStages([x, '.', y], [x, '.', y], [x, y]);
    CollapseAbsent([x, y]);
    StripStep([x, y]);
  }

  lemma DotStages(x: char, y: char)
    requires IsCapital(x) && IsCapital(y)
    ensures Upper([x, '.', y]) == [x, '.', y]
    ensures Substituted([x, '.', y]) == [x, y]
  {
    var s := [x, '.', y];
    UpperStep(s);
    ReplaceNoMatch(s, ' ', "_");
    ReplaceNoMatch(s, '/', "_");
    ReplaceCharCons(x, ['.', y], '.', "");
    ReplaceCharCons('.', [y], '.', "");
    ReplaceCharCons(y, [], '.', "");
    assert Replace(s, ".", "") == [x, y];
    ReplaceNoMatch([x, y], 'É', "E");
  }

  /** `é` is upper-cased to `É` and then folded to `E`: `xéy` becomes `XEY`. */
  lemma CleanNameFoldsAccent(x: char, y: char)
    requires 'a' <= x <= 'z' && 'a' <= y <= 'z'
    ensures CleanName([x, 'é', y]) == [UpperChar(x), 'E', UpperChar(y)]
  {
    var v := [UpperChar(x), 'E', UpperChar(y)];
    AccentStages(x, y);
    CleanNameStages([x, 'é', y], [UpperChar(x), 'É', UpperChar(y)], v);
    CollapseAbsent(v);
    StripStep(v);
  }

  lemma AccentStages(x: char, y: char)
    requires 'a' <= x <= 'z' && 'a' <= y <= 'z'
    ensures Upper([x, 'é', y]) == [UpperChar(x), 'É', UpperChar(y)]
    ensures Substituted([UpperChar(x), 'É', UpperChar(y)]) == [UpperChar(x), 'E', UpperChar(y)]
  {
    var s := [x, 'é', y];
    var u := [UpperChar(x), 'É', UpperChar(y)];
    assert Upper(s) == u;
    ReplaceNoMatch(u, ' ', "_");
    ReplaceNoMatch(u, '/', "_");
    ReplaceNoMatch(u, '.', "");
    ReplaceCharCons(UpperChar(x), ['É', UpperChar(y)], 'É', "E");
    ReplaceCharCons('É', [UpperChar(y)], 'É', "E");
    ReplaceCharCons(UpperChar(y), [], 'É', "E");
  }

  /** `clean_name` is the strip of the collapse of the substituted capitals. */
  lemma CleanNameStages(col: string, u: string, v: string)
    requires Upper(col) == u && Substituted(u) == v
    ensures CleanName(col) == Strip(Replace(v, "__", "_"), '_')
  {
  }

  /** Upper-casing a string of capitals, digits and punctuation changes nothing. */
  lemma UpperStep(s: string)
    requires forall i | 0 <= i < |s| :: !('a' <= s[i] <= 'z') && s[i] != 'é'
    ensures Upper(s) == s
  {
  }

  /** A string that neither starts nor ends with `_` is unchanged by the strip. */
  lemma StripStep(s: string)
    requires s != [] && s[0] != '_' && s[|s| - 1] != '_'
    ensures Strip(s, '_') == s
  {
  }

  /** `__` cannot occur in a string without `_`, so the collapsing pass leaves it alone. */
  lemma {:induction false} CollapseAbsent(s: string)
    requires '_' !in s
    ensures Replace(s, "__", "_") == s
    decreases |s|
  {
    if |s| >= 2 {
      assert s[0] in s;
      assert s[..2][0] == s[0];
      CollapseAbsent(s[1..]);
      assert s == [s[0]] + s[1..];
    }
  }

  /** ` / ` becomes three underscores, and the single collapsing pass leaves two. */
  lemma CleanNameKeepsDoubleUnderscore(x: char, y: char)
    requires IsCapital(x) && IsCapital(y)
    ensures CleanName([x, ' ', '/', ' ', y]) == [x, '_', '_', y]
  {
    var s := [x, ' ', '/', ' ', y];
    UpperStep(s);
    SpacedSlashStage(x, y);
    CleanNameStages(s, s, [x, '_', '_', '_', y]);
    CollapseThreeStep(x, y);
    StripStep([x, '_', '_', y]);
  }

  lemma SpacedSlashStage(x: char, y: char)
    requires IsCapital(x) && IsCapital(y)
    ensures Substituted([x, ' ', '/', ' ', y]) == [x, '_', '_', '_', y]
  {
    SubstitutedPerChar([x, ' ', '/', ' ', y]);
    SpacedSlashEach(x, y);
  }

  lemma SpacedSlashEach(x: char, y: char)
    requires IsCapital(x) && IsCapital(y)
    ensures SubstEach([x, ' ', '/', ' ', y]) == [x, '_', '_', '_', y]
  {
    SubstEachCons(y, []);
    assert SubstEach([y]) == [y];
    SubstEachCons(' ', [y]);
    assert SubstEach([' ', y]) == ['_', y];
    SubstEachCons('/', [' ', y]);
    assert SubstEach(['/', ' ', y]) == ['_', '_', y];
    SubstEachCons(' ', ['/', ' ', y]);
    assert SubstEach([' ', '/', ' ', y]) == ['_', '_', '_', y];
    SubstEachCons(x, [' ', '/', ' ', y]);
  }

  lemma CollapseThreeStep(x: char, y: char)
    requires IsCapital(x) && IsCapital(y)
    ensures Replace([x, '_', '_', '_', y], "__", "_") == [x, '_', '_', y]
  {
    var s := [x, '_', '_', '_', y];
    var t := ['_', y];
    assert Replace([y], "__", "_") == [y];
    assert t[..2][1] != '_' && t[1..] == [y];
    assert Replace(t, "__", "_") == t;
    assert s[1..][..2] == "__" && s[1..][2..] == t;
    assert Replace(s[1..], "__", "_") == ['_'] + t;
    assert s[..2][0] != '_' && s[1..] == ['_', '_', '_', y];
  }

  /** `clean_name` is not idempotent: a second pass collapses what the first left behind. */
  lemma CleanNameNotIdempotent(x: char, y: char)
    requires IsCapital(x) && IsCapital(y)
    ensures var s := [x, ' ', '/', ' ', y]; CleanName(CleanName(s)) != CleanName(s)
  {
    CleanNameKeepsDoubleUnderscore(x, y);
    CleanNameCollapsesAgain(x, y);
  }

  /** A second pass turns `X__Y` into `X_Y`. */
  lemma CleanNameCollapsesAgain(x: char, y: char)
    requires IsCapital(x) && IsCapital(y)
    ensures CleanName([x, '_', '_', y]) == [x, '_', y]
  {
    var s := [x, '_', '_', y];
    UpperStep(s);
    CleanNamePlain(s);
    CollapseTwoStep(x, y);
    StripStep([x, '_', y]);
  }

  lemma CollapseTwoStep(x: char, y: char)
    requires IsCapital(x) && IsCapital(y)
    ensures Replace([x, '_', '_', y], "__", "_") == [x, '_', y]
  {
    var s := [x, '_', '_', y];
    assert Replace([y], "__", "_") == [y];
    assert s[1..][..2] == "__" && s[1..][2..] == [y];
    assert Replace(s[1..], "__", "_") == ['_', y];
    assert s[..2][0] != '_' && s[1..] == ['_', '_', y];
  }

  /** On a name already in capitals and free of separators only the collapse and the strip act. */
  lemma CleanNamePlain(s: string)
    requires Upper(s) == s && ' ' !in s && '/' !in s && '.' !in s && 'É' !in s
    ensures CleanName(s) == Strip(Replace(s, "__", "_"), '_')
  {
    ReplaceNoMatch(s, ' ', "_");
    ReplaceNoMatch(s, '/', "_");
    ReplaceNoMatch(s, '.', "");
    ReplaceNoMatch(s, 'É', "E");
  }

  /** `df.filter(like='UNNAMED')` selects a label when `UNNAMED` occurs anywhere in it. */
  predicate IsUnnamed(name: string)
  {
    Contains(name, "UNNAMED")
  }

  lemma UnnamedAnywhere()
    ensures IsUnnamed("UNNAMED:_3") && IsUnnamed("COL_UNNAMED") && !IsUnnamed("UNNAME")
  {
    assert IsPrefix("UNNAMED", "UNNAMED:_3");
    assert IsPrefix("UNNAMED", "COL_UNNAMED"[4..]);
    assert !IsPrefix("UNNAMED", "UNNAME");
  }

  /** The labels of a table after `clean_name`, position by position; cells are untouched. */
  function CleanColumns(t: Table): (r: Table)
    ensures |r.columns| == |t.columns| && r.rows == t.rows
    ensures forall i | 0 <= i < |t.columns| :: r.columns[i] == CleanName(t.columns[i])
  {
    Table(seq(|t.columns|, i requires 0 <= i < |t.columns| => CleanName(t.columns[i])), t.rows)
  }

  /** `df.drop(df.filter(like='UNNAMED').columns, axis=1)`. */
  function DropUnnamed(t: Table): (r: Table)
    requires WellFormed(t)
    ensures WellFormed(r) && |r.rows| == |t.rows|
  {
    KeepColumns(t, c => !IsUnnamed(c))
  }

  /**
   * The drop removes exactly the columns whose label contains `UNNAMED`:
   * no survivor contains it, every other column survives, survivors keep their
   * order, and the number removed is the number of UNNAMED labels.
   */
  lemma DropUnnamedExact(t: Table)
    requires WellFormed(t)
    ensures var r := DropUnnamed(t);
      && (forall c | c in r.columns :: !IsUnnamed(c))
      && (forall c | c in t.columns && !IsUnnamed(c) :: c in r.columns)
      && IsSubsequence(r.columns, t.columns)
      && |t.columns| - |r.columns| == |FilterSeq(t.columns, IsUnnamed)|
  {
    var keep := (c: string) => !IsUnnamed(c);
    forall c | c in t.columns && !IsUnnamed(c) ensures c in DropUnnamed(t).columns {
      FilterSeqComplete(t.columns, keep, c);
    }
    FilterSeqSubsequence(t.columns, keep);
    FilterSeqSplit(t.columns, keep, IsUnnamed);
  }

  /**
   * `normalize_columns_and_rename` of scripts/generate_sql_script.py and
   * process_excel.py. The dict comprehension `{col: clean_name(col)}` has one
   * entry per distinct raw label, so assigning its values to `df.columns`
   * raises ValueError when a raw label repeats.
   */
  function NormalizeColumns(t: Table): (r: Result<Table, Error>)
    requires WellFormed(t)
    ensures r.Success? <==> Ordering.Distinct(t.columns)
    ensures r.Success? ==> WellFormed(r.value) && |r.value.rows| == |t.rows|
  {
    var values := DictValues(t.columns);
    Ordering.UniqueLength(t.columns);
    if |values| != |t.columns| then Failure(LengthMismatch)
    else Success(DropUnnamed(Table(values, t.rows)))
  }

  /** The values of `{col: clean_name(col) for col in cols}`, in insertion order. */
  function DictValues(cols: seq<string>): (r: seq<string>)
    ensures |r| == |Ordering.Unique(cols)|
  {
    var keys := Ordering.Unique(cols);
    seq(|keys|, i requires 0 <= i < |keys| => CleanName(keys[i]))
  }

  /** With distinct raw labels, the dict-based copy and the list-based copy of the cleaning agree. */
  lemma DictValuesAgree(cols: seq<string>)
    requires Ordering.Distinct(cols)
    ensures DictValues(cols) == CleanColumns(Table(cols, [])).columns
  {
    UniqueIsIdentity(cols);
  }

  lemma {:induction false} UniqueIsIdentity<T>(s: seq<T>)
    requires Ordering.Distinct(s)
    ensures Ordering.Unique(s) == s
    decreases |s|
  {
    if s != [] {
      var init := s[..|s| - 1];
      UniqueIsIdentity(init);
      assert s == init + [s[|s| - 1]];
    }
  }

  /** The method form of `normalize_columns_and_rename`: relabels `df` in place, then returns a new frame without UNNAMED columns. */
  method NormalizeColumnsAndRename(df: DataFrame, tableName: string) returns (r: Result<DataFrame, Error>)
    requires df.Valid()
    modifies df
    ensures df.Valid() && df.rows == old(df.rows)
    ensures !Ordering.Distinct(old(df.columns)) ==> r == Failure(LengthMismatch) && df.columns == old(df.columns)
    ensures Ordering.Distinct(old(df.columns)) ==>
      && df.columns == CleanColumns(old(df.Value())).columns
      && r.Success? && fresh(r.value) && r.value.Valid()
      && Success(r.value.Value()) == NormalizeColumns(old(df.Value()))
  {
    var originalToClean := DictValues(df.columns);
    Ordering.UniqueLength(df.columns);
    var ok := df.SetColumns(originalToClean);
    if !ok {
      return Failure(LengthMismatch);
    }
    DictValuesAgree(old(df.columns));
    var out := new DataFrame(DropUnnamed(df.Value()));
    return Success(out);
  }

  const KeyColumn := "PACIENTE_CEDULA"

  /**
   * The foreign-key rename of the phase table: `DOCUMENTO` becomes
   * `PACIENTE_CEDULA` if present, otherwise `CEDULA` does.
   */
  function FkRename(t: Table): (r: Table)
    ensures r.rows == t.rows && |r.columns| == |t.columns|
  {
    if "DOCUMENTO" in t.columns then Rename(t, map["DOCUMENTO" := KeyColumn])
    else if "CEDULA" in t.columns then Rename(t, map["CEDULA" := KeyColumn])
    else t
  }

  /** The rename changes a label only into `PACIENTE_CEDULA`. */
  lemma FkRenameLabels(t: Table)
    ensures forall k | 0 <= k < |t.columns| ::
      FkRename(t).columns[k] == t.columns[k] || FkRename(t).columns[k] == KeyColumn
  {
  }

  /**
   * `DOCUMENTO` takes precedence: when it is present a `CEDULA` column keeps
   * its label, and the only labels that change are the `DOCUMENTO` ones.
   */
  lemma FkRenamePrecedence(t: Table)
    ensures "DOCUMENTO" in t.columns ==>
      forall i | 0 <= i < |t.columns| ::
        FkRename(t).columns[i] == (if t.columns[i] == "DOCUMENTO" then KeyColumn else t.columns[i])
    ensures "DOCUMENTO" !in t.columns && "CEDULA" in t.columns ==>
      forall i | 0 <= i < |t.columns| ::
        FkRename(t).columns[i] == (if t.columns[i] == "CEDULA" then KeyColumn else t.columns[i])
    ensures "DOCUMENTO" !in t.columns && "CEDULA" !in t.columns ==> FkRename(t) == t
    ensures "DOCUMENTO" in t.columns || "CEDULA" in t.columns ==> KeyColumn in FkRename(t).columns
  {
    if "DOCUMENTO" in t.columns {
      var i :| 0 <= i < |t.columns| && t.columns[i] == "DOCUMENTO";
      assert FkRename(t).columns[i] == KeyColumn;
    } else if "CEDULA" in t.columns {
      var i :| 0 <= i < |t.columns| && t.columns[i] == "CEDULA";
      assert FkRename(t).columns[i] == KeyColumn;
    }
  }
}
