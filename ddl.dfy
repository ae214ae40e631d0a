/**
 * The SQL Server DDL generator of scripts/generate_sql_script.py:
 * `map_pandas_to_sql` turns a pandas dtype name into a column type, and
 * `generate_create_table_sql` builds a DROP / CREATE TABLE script whose column
 * definitions follow an ordered chain of name-based rules.
 */
module Ddl {
  import opened Text

  /** One entry of `df.dtypes.items()`: a column label and `str(dtype)`. */
  datatype ColumnSpec = ColumnSpec(name: string, dtype: string)

  /**
   * `map_pandas_to_sql`: the lower-cased dtype name is tested for `int`, then
   * `float`, then `datetime`; the first match wins and the fallback is
   * `NVARCHAR(255)`.
   */
  function MapPandasToSql(dtype: string): string
  {
    var d := Lower(dtype);
    if Contains(d, "int") then "INT"
    else if Contains(d, "float") then "FLOAT"
    else if Contains(d, "datetime") then "DATETIME2"
    else "NVARCHAR(255)"
  }

  /** The result is one of four types, chosen by the first test that matches. */
  lemma MapPandasToSqlRules(dtype: string)
    ensures var r := MapPandasToSql(dtype);
      && r in {"INT", "FLOAT", "DATETIME2", "NVARCHAR(255)"}
      && (r == "INT" <==> Contains(Lower(dtype), "int"))
      && (r == "FLOAT" <==> !Contains(Lower(dtype), "int") && Contains(Lower(dtype), "float"))
      && (r == "DATETIME2" <==>
          !Contains(Lower(dtype), "int") && !Contains(Lower(dtype), "float") && Contains(Lower(dtype), "datetime"))
  {
  }

  /** The nullable `Int64` dtype matches `int` through the lower-casing. */
  lemma MapPandasToSqlInt()
    ensures MapPandasToSql("int64") == "INT" && MapPandasToSql("Int64") == "INT"
  {
    LowerStep("int64");
    assert IsPrefix("int", "int64");
    assert Lower("Int64") == "int64";
  }

  lemma MapPandasToSqlFloat()
    ensures MapPandasToSql("float64") == "FLOAT"
  {
    LowerStep("float64");
    AbsentCharNotContained("float64", "int", 'i');
    assert IsPrefix("float", "float64");
  }

  /** `datetime64[ns]` contains no `int`, so it reaches the third test. */
  lemma MapPandasToSqlDatetime()
    ensures MapPandasToSql("datetime64[ns]") == "DATETIME2"
  {
    DatetimeDtype("datetime64[ns]");
  }

  lemma DatetimeDtype(dtype: string)
    requires dtype == "datetime64[ns]"
    ensures MapPandasToSql(dtype) == "DATETIME2"
  {
    LowerStep(dtype);
    NoIntInDatetime(dtype);
    AbsentCharNotContained(dtype, "float", 'f');
    assert IsPrefix("datetime", dtype);
  }

  /** It has an `i`, an `n` and a `t`, but never `int` in a row. */
  lemma NoIntInDatetime(s: string)
    requires s == "datetime64[ns]"
    ensures !Contains(s, "int")
  {
    forall i | 0 <= i <= |s| - 3 ensures !OccursAt(s, "int", i) {
      assert s[i..i + 3][0] == s[i] && s[i..i + 3][1] == s[i + 1];
    }
    ContainsAt(s, "int");
  }

  /** Text columns (`object`) fall through to the default. */
  lemma MapPandasToSqlObject()
    ensures MapPandasToSql("object") == "NVARCHAR(255)"
  {
    LowerStep("object");
    AbsentCharNotContained("object", "int", 'n');
    AbsentCharNotContained("object", "float", 'f');
    AbsentCharNotContained("object", "datetime", 'd');
  }

  /** The type names the default rule can produce are all nullable. */
  lemma DefaultTypeNullable(dtype: string)
    ensures !IsNotNull(MapPandasToSql(dtype) + " NULL")
  {
    var t := MapPandasToSql(dtype);
    MapPandasToSqlRules(dtype);
    if t == "INT" {
      assert t + " NULL" == "INT NULL";
    } else if t == "FLOAT" {
      assert t + " NULL" == "FLOAT NULL";
    } else if t == "DATETIME2" {
      assert t + " NULL" == "DATETIME2 NULL";
    } else {
      assert t + " NULL" == "NVARCHAR(255) NULL";
    }
  }

  /**
   * The type text after `[name] ` in a column definition: the first rule that
   * applies, in source order.
   */
  function ColumnType(name: string, dtype: string, table: string): string
  {
    if name == "CEDULA" then "NVARCHAR(50) NOT NULL UNIQUE"
    else if Contains(name, "FECHA") || Contains(name, "MES") then "NVARCHAR(50) NULL"
    else if Contains(name, "OBSERVACIONES") then "NVARCHAR(MAX) NULL"
    else if name == "ESTADO" then "NVARCHAR(100) NOT NULL"
    else if name == "FASE_ORDEN" && table == "FasePaciente" then "INT NOT NULL"
    else MapPandasToSql(dtype) + " NULL"
  }

  /** The column types that carry `NOT NULL`. */
  predicate IsNotNull(ty: string)
  {
    ty in {"NVARCHAR(50) NOT NULL UNIQUE", "NVARCHAR(100) NOT NULL", "INT NOT NULL"}
  }

  /** Exactly three columns are declared NOT NULL: `CEDULA`, `ESTADO`, and `FASE_ORDEN` of `FasePaciente`. */
  lemma NotNullColumns(name: string, dtype: string, table: string)
    ensures IsNotNull(ColumnType(name, dtype, table)) <==>
      name == "CEDULA" || name == "ESTADO" || (name == "FASE_ORDEN" && table == "FasePaciente")
  {
    DefaultTypeNullable(dtype);
    NamedRulesReached(name, dtype, table);
  }

  /** Only `CEDULA` is declared UNIQUE. */
  lemma UniqueOnlyCedula(name: string, dtype: string, table: string)
    ensures ColumnType(name, dtype, table) == "NVARCHAR(50) NOT NULL UNIQUE" <==> name == "CEDULA"
  {
    DefaultTypeNullable(dtype);
  }

  /** `ESTADO` and `FASE_ORDEN` contain neither `FECHA`, `MES` nor `OBSERVACIONES`, so their own rules apply. */
  lemma NamedRulesReached(name: string, dtype: string, table: string)
    ensures name == "ESTADO" ==> ColumnType(name, dtype, table) == "NVARCHAR(100) NOT NULL"
    ensures name == "FASE_ORDEN" && table == "FasePaciente" ==> ColumnType(name, dtype, table) == "INT NOT NULL"
  {
    if name == "ESTADO" {
      AbsentCharNotContained(name, "FECHA", 'F');
      AbsentCharNotContained(name, "MES", 'M');
      AbsentCharNotContained(name, "OBSERVACIONES", 'B');
    } else if name == "FASE_ORDEN" {
      AbsentCharNotContained(name, "FECHA", 'C');
      AbsentCharNotContained(name, "MES", 'M');
      AbsentCharNotContained(name, "OBSERVACIONES", 'B');
    }
  }

  /** The dtype is consulted only when no name rule applies. */
  lemma NameRulesIgnoreDtype(name: string, d1: string, d2: string, table: string)
    requires name == "CEDULA" || Contains(name, "FECHA") || Contains(name, "MES")
      || Contains(name, "OBSERVACIONES") || name == "ESTADO" || (name == "FASE_ORDEN" && table == "FasePaciente")
    ensures ColumnType(name, d1, table) == ColumnType(name, d2, table)
    ensures !IsNotNull(ColumnType(name, d1, table)) ==> ColumnType(name, d1, table) in {"NVARCHAR(50) NULL", "NVARCHAR(MAX) NULL"}
  {
  }

  /** Without a name rule the column is nullable and typed by its dtype. */
  lemma DefaultRule(name: string, dtype: string, table: string)
    requires !(name == "CEDULA" || Contains(name, "FECHA") || Contains(name, "MES")
      || Contains(name, "OBSERVACIONES") || name == "ESTADO" || (name == "FASE_ORDEN" && table == "FasePaciente"))
    ensures ColumnType(name, dtype, table) == MapPandasToSql(dtype) + " NULL"
    ensures !IsNotNull(ColumnType(name, dtype, table))
  {
  }

  /**
   * A column is declared `NVARCHAR(50) NULL` exactly when it is not `CEDULA`
   * and its name holds `FECHA` or `MES`, whatever its dtype, its table, or
   * any other rule its name would also meet.
   */
  lemma DateRule(name: string, dtype: string, table: string)
    ensures ColumnType(name, dtype, table) == "NVARCHAR(50) NULL" <==>
      name != "CEDULA" && (Contains(name, "FECHA") || Contains(name, "MES"))
  {
    DefaultTypeLength(dtype);
    assert |"NVARCHAR(50) NULL"| == 17;
  }

  /** The fallback types are 3, 5, 9 or 13 characters long. */
  lemma DefaultTypeLength(dtype: string)
    ensures |MapPandasToSql(dtype)| in {3, 5, 9, 13}
  {
    MapPandasToSqlRules(dtype);
  }

  /** The `FECHA`/`MES` rule comes before the `OBSERVACIONES` rule. */
  lemma DateRuleFirst()
    ensures ColumnType("FECHA_OBSERVACIONES", "object", "Pacientes") == "NVARCHAR(50) NULL"
  {
    assert IsPrefix("FECHA", "FECHA_OBSERVACIONES");
  }

  /** `FASE_ORDEN` outside `FasePaciente` falls through to the dtype's type. */
  lemma PhaseOrderOnlyInPhaseTable(name: string, dtype: string, table: string)
    requires name == "FASE_ORDEN" && table != "FasePaciente"
    ensures ColumnType(name, dtype, table) == MapPandasToSql(dtype) + " NULL"
  {
    AbsentCharNotContained(name, "FECHA", 'C');
    AbsentCharNotContained(name, "MES", 'M');
    AbsentCharNotContained(name, "OBSERVACIONES", 'B');
  }

  function ColumnDefinition(c: ColumnSpec, table: string): string
  {
    "    [" + c.name + "] " + ColumnType(c.name, c.dtype, table)
  }

  const IdentityDefinition := "    [ID_PACIENTE] INT IDENTITY(1,1) PRIMARY KEY"

  /** `ColumnDefinition` for one table, as a function of the column alone. */
  function Definer(table: string): ColumnSpec -> string
  {
    c => ColumnDefinition(c, table)
  }

  /** The lines before the column definitions: the identity key, for `Pacientes` only. */
  function Header(table: string): (r: seq<string>)
    ensures table == "Pacientes" ==> r == [IdentityDefinition]
    ensures table != "Pacientes" ==> r == []
  {
    if table == "Pacientes" then [IdentityDefinition] else []
  }

  /** `head` followed by `def` of each column, in column order. */
  function DefinitionList(head: seq<string>, cols: seq<ColumnSpec>, def: ColumnSpec -> string): (r: seq<string>)
    ensures |r| == |head| + |cols| && r[..|head|] == head
    ensures forall k | 0 <= k < |cols| :: r[|head| + k] == def(cols[k])
  {
    head + seq(|cols|, k requires 0 <= k < |cols| => def(cols[k]))
  }

  /** Appending a column appends its definition. */
  lemma DefinitionListSnoc(head: seq<string>, cols: seq<ColumnSpec>, c: ColumnSpec, def: ColumnSpec -> string)
    ensures DefinitionList(head, cols + [c], def) == DefinitionList(head, cols, def) + [def(c)]
  {
    var l := DefinitionList(head, cols + [c], def);
    var r := DefinitionList(head, cols, def) + [def(c)];
    assert |l| == |r|;
    forall k | 0 <= k < |l| ensures l[k] == r[k] {
      if k < |head| {
        assert l[..|head|][k] == r[..|head|][k];
      } else if k - |head| < |cols| {
        assert (cols + [c])[k - |head|] == cols[k - |head|];
      }
    }
  }

  /**
   * The list `col_definitions`: the identity key first for `Pacientes` only,
   * then one definition per column in column order.
   */
  function Definitions(table: string, cols: seq<ColumnSpec>): seq<string>
  {
    DefinitionList(Header(table), cols, Definer(table))
  }

  /** The identity key heads the list for `Pacientes` only; then one line per column, in order. */
  lemma DefinitionsShape(table: string, cols: seq<ColumnSpec>)
    ensures var r := Definitions(table, cols);
      && r[..|Header(table)|] == Header(table)
      && |r| == |Header(table)| + |cols|
      && forall k | 0 <= k < |cols| :: r[|Header(table)| + k] == ColumnDefinition(cols[k], table)
  {
    ColumnsAfterHeader(table, cols);
  }

  lemma ColumnsAfterHeader(table: string, cols: seq<ColumnSpec>)
    ensures forall k | 0 <= k < |cols| :: Definitions(table, cols)[|Header(table)| + k] == ColumnDefinition(cols[k], table)
  {
    forall k | 0 <= k < |cols|
      ensures Definitions(table, cols)[|Header(table)| + k] == ColumnDefinition(cols[k], table)
    {
      DefinitionAt(table, cols, k);
      DefinerApplies(cols[k], table);
    }
  }

  lemma DefinitionAt(table: string, cols: seq<ColumnSpec>, k: nat)
    requires k < |cols|
    ensures Definitions(table, cols)[|Header(table)| + k] == Definer(table)(cols[k])
  {
  }

  lemma DefinerApplies(c: ColumnSpec, table: string)
    ensures Definer(table)(c) == ColumnDefinition(c, table)
  {
  }

  function Preamble(table: string): string
  {
    "-- Tabla generada a partir del archivo " + table + ".xlsx\n"
      + "DROP TABLE IF EXISTS " + table + ";\n"
      + "GO\n\n"
      + "CREATE TABLE " + table + " (\n"
  }

  const AlterLine := "\nALTER TABLE FasePaciente ADD CONSTRAINT FK_PacienteFase \n"

  const ReferenceLine := "FOREIGN KEY (PACIENTE_CEDULA) REFERENCES Pacientes(CEDULA);\n"

  /** The foreign key from `FasePaciente.PACIENTE_CEDULA` to `Pacientes.CEDULA`. */
  const ForeignKeyClause := AlterLine + ReferenceLine

  /** The script around a list of column definitions. */
  function Script(table: string, defs: seq<string>): string
  {
    Preamble(table) + Join(",\n", defs) + "\n);\n"
      + (if table == "FasePaciente" then ForeignKeyClause else "")
      + "GO\n"
  }

  /** The script `generate_create_table_sql` returns. */
  function CreateTableScript(table: string, cols: seq<ColumnSpec>): string
  {
    Script(table, Definitions(table, cols))
  }

  /**
   * Whatever the definitions, the script opens with the comment, DROP, GO and
   * CREATE TABLE lines, ends with `GO\n`, and holds the foreign-key clause
   * right before the final `GO` exactly when the table is `FasePaciente`.
   */
  lemma ScriptShape(table: string, defs: seq<string>)
    ensures var sql := Script(table, defs);
      && IsPrefix(Preamble(table), sql)
      && |sql| >= 3 && sql[|sql| - 3..] == "GO\n"
      && (table == "FasePaciente" <==>
          |sql| >= |ForeignKeyClause| + 3 && sql[|sql| - 3 - |ForeignKeyClause|..|sql| - 3] == ForeignKeyClause)
  {
    var sql := Script(table, defs);
    var head := Preamble(table) + Join(",\n", defs) + "\n);\n";
    assert sql[..|Preamble(table)|] == Preamble(table);
    if table == "FasePaciente" {
      assert sql == head + ForeignKeyClause + "GO\n";
      assert sql[|sql| - 3 - |ForeignKeyClause|..|sql| - 3] == ForeignKeyClause;
    } else {
      assert sql == head + "GO\n";
      if |sql| >= |ForeignKeyClause| + 3 {
        var w := sql[|sql| - 3 - |ForeignKeyClause|..|sql| - 3];
        assert w[|w| - 4..] == head[|head| - 4..];
        assert head[|head| - 4..] == "\n);\n";
        assert ForeignKeyClause[|ForeignKeyClause| - 4] == ReferenceLine[|ReferenceLine| - 4] == 'A';
      }
    }
  }

  lemma AppendAssociative(a: string, b: string, c: string)
    ensures a + b + c == a + (b + c)
  {
  }

  /** The body of the loop of `generate_create_table_sql` for one column. */
  method DefineColumn(c: ColumnSpec, table: string) returns (sqlDef: string)
    ensures sqlDef == Definer(table)(c)
  {
    var sqlType := MapPandasToSql(c.dtype);
    var name := c.name;
    var found := false;
    sqlDef := "";
    if name == "CEDULA" {
      sqlDef, found := "    [" + name + "] " + "NVARCHAR(50) NOT NULL UNIQUE", true;
    } else if Contains(name, "FECHA") || Contains(name, "MES") {
      sqlDef, found := "    [" + name + "] " + "NVARCHAR(50) NULL", true;
    } else if Contains(name, "OBSERVACIONES") {
      sqlDef, found := "    [" + name + "] " + "NVARCHAR(MAX) NULL", true;
    } else if name == "ESTADO" {
      sqlDef, found := "    [" + name + "] " + "NVARCHAR(100) NOT NULL", true;
    } else if name == "FASE_ORDEN" && table == "FasePaciente" {
      sqlDef, found := "    [" + name + "] " + "INT NOT NULL", true;
    }
    if !found {
      sqlDef := "    [" + name + "] " + sqlType + " NULL";
      assert sqlType + " NULL" == ColumnType(name, c.dtype, table);
    }
  }

  /**
   * The loop of `generate_create_table_sql`: `col_definitions` starts with the
   * identity key for `Pacientes` and gains one definition per column.
   */
  method CollectDefinitions(table: string, cols: seq<ColumnSpec>) returns (colDefinitions: seq<string>)
    ensures colDefinitions == Definitions(table, cols)
  {
    colDefinitions := [];
    if table == "Pacientes" {
      colDefinitions := colDefinitions + [IdentityDefinition];
    }
    ghost var def := Definer(table);
    for i := 0 to |cols|
      invariant colDefinitions == DefinitionList(Header(table), cols[..i], def)
    {
      var sqlDef := DefineColumn(cols[i], table);
      DefinitionStep(Header(table), cols, i, def, colDefinitions, sqlDef);
      colDefinitions := colDefinitions + [sqlDef];
    }
    assert cols[..|cols|] == cols;
  }

  /** One turn of the loop: appending the next column's definition extends the list by that column. */
  lemma DefinitionStep(head: seq<string>, cols: seq<ColumnSpec>, i: nat, def: ColumnSpec -> string,
                       acc: seq<string>, x: string)
    requires i < |cols| && acc == DefinitionList(head, cols[..i], def) && x == def(cols[i])
    ensures acc + [x] == DefinitionList(head, cols[..i + 1], def)
  {
    DefinitionListSnoc(head, cols[..i], cols[i], def);
    assert cols[..i + 1] == cols[..i] + [cols[i]];
  }

  /**
   * `generate_create_table_sql`: builds `sql` by successive `+=` around the
   * list of column definitions.
   */
  method GenerateCreateTableSql(table: string, cols: seq<ColumnSpec>) returns (sql: string)
    ensures sql == CreateTableScript(table, cols)
  {
    sql := "-- Tabla generada a partir del archivo " + table + ".xlsx\n";
    sql := sql + "DROP TABLE IF EXISTS " + table + ";\n";
    sql := sql + "GO\n\n";
    sql := sql + "CREATE TABLE " + table + " (\n";
    assert sql == Preamble(table);
    var colDefinitions := CollectDefinitions(table, cols);
    sql := sql + Join(",\n", colDefinitions);
    sql := sql + "\n);\n";
    var body := sql;
    if table == "FasePaciente" {
      sql := sql + "\nALTER TABLE FasePaciente ADD CONSTRAINT FK_PacienteFase \n";
      sql := sql + "FOREIGN KEY (PACIENTE_CEDULA) REFERENCES Pacientes(CEDULA);\n";
      AppendAssociative(body, AlterLine, ReferenceLine);
    }
    sql := sql + "GO\n";
  }
}
