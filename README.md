# TMZ patient-tracking dashboard: a Dafny model of its table logic

The dashboard follows patients of a screening programme ("tamizaje"). Two
spreadsheets feed it: patients (`Pacientes_tmz`) and their test phases
(`FasePaciente`). Scripts load them into SQL Server, and a Streamlit app shows
them. This project models the Python logic between the spreadsheets and the
screen, and proves properties of that model:

- **Header normalizer** (`Normalizer`, `Loader`). `clean_name` is defined once,
  although three source files carry identical copies. The model covers the
  drop of spreadsheet `UNNAMED` columns, the per-table renames and the
  foreign-key rename `DOCUMENTO`/`CEDULA` → `PACIENTE_CEDULA`.
- **DDL generator** (`Ddl`). `map_pandas_to_sql` and the loop of
  `generate_create_table_sql`.
- **Referential-integrity guard** (`Reconciler`). `load_and_process_excels`
  after its file reads: every cell is made text, then phase rows whose patient
  is unknown are dropped and counted.
- **Dashboard data** (`Dashboard`). The LEFT JOIN query of `load_data`, its
  date repair and null fill, the rename and guarded SI/NO map, and the counts
  of `render_kpis`.
- **Sidebar filters** (`Filters`). Status, then age bracket, then received
  date, then the distinct-patient metric.
- **Insert** (`Insert`). The INSERT statement and its execute-per-row then
  commit sequence.

A pandas frame is a `Frame.Table`: a sequence of column labels and rows of
optional cells. Cells hold text, a date or a boolean. The model is positional
because pandas allows repeated labels and column order matters. `df[name]`
reads the first column with that label. Where the source changes a frame in
place (`df.columns = ...`, `df[c] = ...`, `rename(inplace=True)`), the model
uses the `Frame.DataFrame` class. Where the source rebinds the name to a new
frame, the model allocates a new `DataFrame`. A date is its number of whole
days since 1970-01-01. The nanosecond count pandas stores is
`Dates.Nanoseconds` of that number.

The widgets (selectbox, multiselect, slider) are parameters
(`Filters.Widgets`): each is a function from the options it is shown to the
user's choice. The database server and `pd.read_sql` are replaced by the join
they compute (`Dashboard.JoinQuery`). `pd.to_datetime` on date text is a
parameter `parse`.

### Where the code and the description of the system differ

The model follows the code.

- The date repair is described as idempotent. The code is not: run again on a
  date it produced, `pd.to_numeric` yields nanoseconds, which are far outside
  the Timestamp range, so the cell becomes missing (`Dashboard.RepairNotIdempotent`).
- Patients without phases are described as getting a "no data" sentinel in
  every phase column. The code fills only `FASE_ACTUAL`, and the query does
  not select that column, so those cells stay null
  (`Dashboard.UnmatchedPatientsPadded`, `Dashboard.MergedOnlySampleDate`).
- A month-number decode is described. No such code exists in app.py, so it is
  not modelled.
- A YES/NO flag rule is described. The code maps True→`SI`, False→`NO` and
  everything else to missing, and it does so only under a lower-case guard
  that never matches (`Dashboard.GuardNeverFires`).
- Placeholder columns are described as matched by a prefix. The code uses
  `df.filter(like='UNNAMED')`, which matches the text anywhere in the label
  (`Normalizer.UnnamedAnywhere`).
- Consecutive underscores are described as collapsing to one. The code makes a
  single `replace('__', '_')` pass, so `"A / B"` becomes `"A__B"`, and likewise for any two capitals around ` / `
  (`Normalizer.CleanNameKeepsDoubleUnderscore`).

## Model

| member | source | states |
|---|---|---|
| Normalizer.CleanNameEdges | scripts/generate_sql_script.py:19 | a cleaned name is empty or neither starts nor ends with `_` |
| Normalizer.CleanNameNoSeparators | scripts/generate_sql_script.py:13-15 | a cleaned name contains no space, `/`, `.` or `É` |
| Normalizer.SubstitutedPerChar | scripts/generate_sql_script.py:15 | for every text, the four chained replacements act on each character on its own: space and `/` become `_`, `.` becomes nothing, `É` becomes `E`, any other character is kept |
| Normalizer.SubstitutedCounts | scripts/generate_sql_script.py:15 | for every text, the replacements shorten it by exactly its number of `.`, and the `_` in their output are exactly its spaces, `/` and `_` |
| Normalizer.CleanNameSubstitutedCounts | scripts/generate_sql_script.py:13-15 | the same two counts for any column name, counted before upper-casing |
| Normalizer.CleanNameDeletesDot | scripts/generate_sql_script.py:15 | example: `.` is deleted rather than turned into `_`, so for capitals X, Y, `X.Y` → `XY` |
| Normalizer.CleanNameFoldsAccent | scripts/generate_sql_script.py:13-15 | upper-casing and the `É`→`E` fold: for lower-case letters x, y, `xéy` → `XEY` (as in `Cédula` → `CEDULA`) |
| Normalizer.CleanNameKeepsDoubleUnderscore | scripts/generate_sql_script.py:15-17 | the single `__`→`_` pass leaves `X / Y` as `X__Y`, for any capitals X, Y |
| Normalizer.CleanNameNotIdempotent | scripts/generate_sql_script.py:11-19 | cleaning a cleaned name can change it again: `X / Y` for any capitals X, Y |
| Normalizer.CleanNameCollapsesAgain | scripts/generate_sql_script.py:17 | a second pass turns `X__Y` into `X_Y` |
| Text.CollapseRun | scripts/generate_sql_script.py:17 | one pass turns a run of n underscores into ceil(n/2) |
| Normalizer.UnnamedAnywhere | scripts/generate_sql_script.py:32 | `UNNAMED` matches anywhere in a label, not only as a prefix |
| Normalizer.CleanColumns | db_setup_loader.py:37 | each label is replaced by its cleaned form, in place and in order; rows unchanged |
| Normalizer.DropUnnamed | scripts/generate_sql_script.py:32 | the frame without the UNNAMED columns, with every row kept |
| Normalizer.DropUnnamedExact | scripts/generate_sql_script.py:32 | exactly the UNNAMED labels are removed; the others keep their order |
| Normalizer.NormalizeColumns | scripts/generate_sql_script.py:22-23 | the dict comprehension fails (length mismatch) exactly when two raw labels coincide |
| Normalizer.DictValuesAgree | process_excel.py:12-13 | with distinct raw labels the dict's values are the cleaned labels in order |
| Normalizer.NormalizeColumnsAndRename | scripts/generate_sql_script.py:7-33 | labels cleaned in place, then a new frame without UNNAMED columns, or the error |
| Normalizer.FkRename | db_setup_loader.py:57-61 | only the label renamed to the foreign key changes; rows are kept |
| Normalizer.FkRenameLabels | process_excel.py:44-47 | each label is kept or becomes `PACIENTE_CEDULA` |
| Normalizer.FkRenamePrecedence | db_setup_loader.py:57-61 | `DOCUMENTO` wins over `CEDULA`, which then survives; with neither, nothing changes |
| Loader.CleanAndNormalize | db_setup_loader.py:26-67 | rows kept; the dropped count is columns before minus after, between 0 and the original count |
| Loader.DroppedCount | db_setup_loader.py:40-42 | the dropped count equals the number of cleaned labels containing UNNAMED |
| Loader.TrimmedKeepsOrder | db_setup_loader.py:37-41 | survivors have no UNNAMED, keep their cleaned names in order, and none is lost |
| Loader.NoUnnamedSurvives | db_setup_loader.py:37-61 | no label of the result contains UNNAMED, renames included |
| Loader.PatientRenamesExact | db_setup_loader.py:45-50 | for `Pacientes_tmz` only the three mapped labels change; the column count is kept |
| Loader.OtherTablesNotRenamed | db_setup_loader.py:44-67 | any other table name gets no rename |
| Loader.CellsUnchanged | db_setup_loader.py:26-67 | every cell of the result is the input cell of its surviving column |
| Loader.AgreesWithNormalizer | db_setup_loader.py:30-41 | with distinct headers the list-based and dict-based normalizations agree |
| Loader.CleanAndNormalizeDataframe | db_setup_loader.py:26-67 | labels overwritten in place, then a new frame and the dropped count as specified |
| Ddl.MapPandasToSqlRules | scripts/generate_sql_script.py:37-48 | one of the four types; `int`, then `float`, then `datetime` tested on the lower-cased name, first match wins |
| Ddl.MapPandasToSqlInt | scripts/generate_sql_script.py:41-42 | `int64` and `Int64` map to `INT` |
| Ddl.MapPandasToSqlFloat | scripts/generate_sql_script.py:43-44 | `float64` maps to `FLOAT` |
| Ddl.MapPandasToSqlDatetime | scripts/generate_sql_script.py:45-46 | `datetime64[ns]` maps to `DATETIME2`, since it contains no `int` |
| Ddl.MapPandasToSqlObject | scripts/generate_sql_script.py:47-48 | `object` falls back to `NVARCHAR(255)` |
| Ddl.NotNullColumns | scripts/generate_sql_script.py:71-92 | a column is NOT NULL exactly for `CEDULA`, `ESTADO`, or `FASE_ORDEN` in `FasePaciente` |
| Ddl.UniqueOnlyCedula | scripts/generate_sql_script.py:71-92 | only `CEDULA` is declared UNIQUE |
| Ddl.NamedRulesReached | scripts/generate_sql_script.py:83-88 | `ESTADO` and `FASE_ORDEN` of `FasePaciente` get their own NOT NULL types, since no earlier rule matches them |
| Ddl.NameRulesIgnoreDtype | scripts/generate_sql_script.py:71-88 | when a name rule applies, the dtype does not matter |
| Ddl.DefaultRule | scripts/generate_sql_script.py:90-92 | with no name rule, the mapped type followed by `NULL` |
| Ddl.DateRule | scripts/generate_sql_script.py:71-92 | for every name, dtype and table, the type is `NVARCHAR(50) NULL` exactly when the name is not `CEDULA` and contains `FECHA` or `MES`, whatever later rule the name would also meet |
| Ddl.DateRuleFirst | scripts/generate_sql_script.py:75-80 | example: `FECHA_OBSERVACIONES` gets the date type, not the `OBSERVACIONES` one |
| Ddl.PhaseOrderOnlyInPhaseTable | scripts/generate_sql_script.py:87-92 | `FASE_ORDEN` outside `FasePaciente` gets the default rule |
| Ddl.DefinitionsShape | scripts/generate_sql_script.py:57-94 | one definition per column in column order, after the identity key only for `Pacientes` |
| Ddl.ScriptShape | scripts/generate_sql_script.py:52-104 | for any definition list, the script starts with the DROP/GO/CREATE preamble, ends with `GO\n`, FK clause before it exactly for `FasePaciente` |
| Ddl.DefineColumn | scripts/generate_sql_script.py:65-92 | the rule chain as written gives the specified definition `ColumnDefinition` of that column |
| Ddl.CollectDefinitions | scripts/generate_sql_script.py:57-94 | the loop appending to `col_definitions` yields the specified list |
| Ddl.GenerateCreateTableSql | scripts/generate_sql_script.py:50-106 | the script built by `+=` and the loop equals the specified script |
| Reconciler.Stringify | process_excel.py:30-32 | a cell becomes text; null becomes `''`; text is unchanged |
| Reconciler.StringifyEmpty | process_excel.py:30-32 | a cell becomes `''` exactly when it was null or `''` |
| Reconciler.FillAndStringify | process_excel.py:30-32 | the per-column `astype(str)` loop gives the stringified frame |
| Reconciler.NoCedulaInPhases | process_excel.py:44-56 | no `CEDULA` column remains in the phase table |
| Reconciler.FilterExact | process_excel.py:61-70 | kept rows are exactly the referenced ones, in order; omitted = before - after = unreferenced rows |
| Reconciler.FilterExample | process_excel.py:61-68 | patients {A,B} against phases A,B,C keep A and B and omit 1 |
| Reconciler.EmptyKeyKept | process_excel.py:30-68 | an empty-key phase row is kept exactly when some patient's `CEDULA` was null or empty |
| Reconciler.PatientsNotFiltered | process_excel.py:25-32 | the patient table is normalized and stringified, never filtered |
| Reconciler.AllCellsText | process_excel.py:30-53 | every cell of both returned tables is text |
| Reconciler.Reconcile | process_excel.py:19-74 | success means both preparations succeeded and the FK filter ran on them |
| Reconciler.FilterPhases | process_excel.py:61-70 | the filter as written equals the specified filter |
| Reconciler.LoadAndProcessExcels | process_excel.py:19-74 | the step-by-step reassignments equal the specified result |
| Dashboard.Resolve | app.py:17-37 | every selected column is located in its table, or one is missing or repeated |
| Dashboard.JoinQuery | app.py:17-37 | the result has the selected labels and at least one row per patient |
| Dashboard.JoinCoversPatients | app.py:33-36 | each patient appears for every matching phase row, or padded with NULL when none matches (membership, not a count) |
| Dashboard.UnmatchedPatientsPadded | app.py:17-37 | a padded row has every phase column NULL and the patient's own cells |
| Dashboard.FetchMerged | app.py:38 | a well-formed frame, empty when the query fails |
| Dashboard.SerialTextToDate | app.py:41-55 | integer serial n becomes 1899-12-30 plus n days; n+1 is the next day |
| Dashboard.NonNumericMissing | app.py:41-55 | text `ParseInt` rejects and missing cells become missing, with no error; this includes fractional and exponent text and whitespace-padded integers, see "Left out" |
| Dashboard.RepairNotIdempotent | app.py:41-55 | repairing a repaired date, other than 1970-01-01, gives missing |
| Dashboard.RepairTwiceExample | app.py:41-55 | serial 45200 becomes 2023-10-01, and a second repair loses it |
| Dates.Serial45200 | app.py:50-55 | serial 45200 is 2023-10-01 |
| Dashboard.FillPhase | app.py:59-60 | null becomes `Sin Fase Registrada`; other cells are unchanged |
| Dashboard.LoadDataCells | app.py:41-64 | a null `FASE_ACTUAL` is filled; cells of other columns are kept |
| Dashboard.LoadDataSampleDate | app.py:41-55 | the sample-date column is the repair of the fetched one |
| Dashboard.LoadDataFrame | app.py:14-66 | the in-place updates of the fetched frame give the specified frame |
| Dashboard.MergedOnlySampleDate | app.py:17-64 | on the merged frame only the sample date changes, since neither phase column is selected |
| Dashboard.SiNo | app.py:72-73 | True→`SI`, False→`NO`, anything else missing |
| Dashboard.SiNoTwice | app.py:72-73 | mapping an already mapped column loses every value |
| Dashboard.GuardNeverFires | app.py:69-73 | without a literal `resultados_tmz` label, only the rename happens |
| Dashboard.AppDataOfMerged | app.py:66-73 | on `load_data`'s frame the results column passes through unchanged under its new label |
| Dashboard.PrepareAppData | app.py:69-73 | the in-place rename and guarded map give the specified frame |
| Dashboard.LabColumnFrom | app.py:100-105 | the first column whose lower-cased label is one of the four names, or none |
| Dashboard.FindLabColumn | app.py:100-105 | the loop with `break` finds that column |
| Dashboard.LabColumnIsFirstOccurrence | app.py:107 | `df[col_lab]` reads the column the loop found |
| Dashboard.KpiBounds | app.py:93-98 | distinct patients ≤ records; the three status counts sum to at most records |
| Dashboard.KpiAbsentColumns | app.py:93-107 | a count is 0 when its column is absent; the lab count counts `SI` in the found column |
| Dashboard.RenderKpis | app.py:91-107 | the computed indicators equal the specified ones |
| Filters.StatusOptionsShape | sidebar_filters.py:64-69 | `Todos`, then every status label once, sorted; null shows as `PENDIENTE` |
| Filters.StatusStepRows | sidebar_filters.py:77-78 | `Todos` keeps the table; otherwise exactly the rows with that raw status; null is dropped |
| Filters.AgeOptionsShape | sidebar_filters.py:85-95 | `Todos`, then the present brackets except `None`, once each, sorted |
| Filters.AgeStepRows | sidebar_filters.py:104-105 | with `Todos` selected nothing changes; otherwise exactly the selected brackets |
| Filters.AgeDefaultRows | sidebar_filters.py:100-105 | the default selection keeps exactly present brackets other than `None` and `Todos` |
| Filters.SliderBounds | sidebar_filters.py:117-122 | the slider bounds are the earliest and latest valid dates |
| Filters.DateStepRows | sidebar_filters.py:119-144 | without two distinct valid dates all rows stay; otherwise exactly those in the range, ends included |
| Filters.FilteredPatients | sidebar_filters.py:150 | the metric exists exactly when `CEDULA` is present once, and it is at most the row count |
| Filters.SidebarKeepsOrder | sidebar_filters.py:55-152 | the result is a subsequence of the input with its date column parsed; columns are kept |
| Filters.FilterStatus | sidebar_filters.py:62-78 | the working copy is kept or replaced, as specified |
| Filters.FilterAge | sidebar_filters.py:85-105 | the working copy is kept or replaced, as specified |
| Filters.FilterDate | sidebar_filters.py:112-144 | the working copy's received-date column is parsed in place and nothing else of it changes; the returned frame is that copy or a fresh one, filtered as specified |
| Filters.RenderSidebarFilters | sidebar_filters.py:55-152 | the narrowed copy and the metric equal the specified ones |
| Insert.Bracketed | insert_data.py:8 | each label is wrapped in `[`…`]`, in column order |
| Insert.PlaceholderCount | insert_data.py:9-11 | one `?` per column in the placeholder list, and in the whole statement when neither the table name nor any label contains `?` |
| Insert.BracketCount | insert_data.py:8 | one bracketed name per column, when no label contains `[` or `]` |
| Insert.FirstRejectedFrom | insert_data.py:13-14 | the first row whose execute raises, the verdict seeing the connection's earlier log and this batch's earlier executes: every earlier row is accepted and that row is rejected, or the row count when none raises |
| Insert.InsertEventsShape | insert_data.py:13-16 | executes of the one statement in row order, each with as many values as placeholders, up to and including the first rejected row; the commit comes last, and exactly when no row is rejected |
| Insert.ExecuteRows | insert_data.py:13-14 | the loop logs the executes up to and including the first rejected row, and reports whether every row was accepted |
| Insert.DuplicateRowAborts | insert_data.py:13-16 | example: a row repeated under a UNIQUE key is executed twice, the second execute raises, and nothing is committed |
| Insert.InsertDataframeToSql | insert_data.py:8-16 | the calls made are the `InsertEvents` log: all executes then the commit, or the executes up to the failing one and no commit; `ok` says which |

## Left out

- Insert.InsertDataframeToSql: whether the server rejects an execute (a NOT NULL, UNIQUE or foreign-key violation, a type error) is the parameter `Connection.rejects`, a function of the connection's log so far and the execute, not derived from the DDL. A rejected execute raises, so the loop stops and the commit is never made; what the server then does with the uncommitted rows is not modelled.
- Reading the spreadsheets, `to_sql`, cursors and rollback (`setup_and_load_data`, the `main` of scripts/generate_sql_script.py and its module-level insert block): these are I/O. Tables enter the model as values.
- azure_connector.py is not part of this model. It holds the connection and `st.secrets`. `fetch_data` enters only as its documented fallback: a failed query gives an empty frame (`Dashboard.FetchMerged`).
- All Streamlit output: CSS, titles, `st.info`, `st.metric`, the detail table and the CSV export, and the `print` calls. The widget choices are parameters.
- `pd.to_datetime` on date text (`FECHA_FASE`, `FECHA_DE_RECIBIDO`) is a parameter, because pandas' date parser is not modelled. The parameter is applied per cell (`Filters.DateFilter`, `Filters.SidebarKeepsOrder`). pandas infers one format for a whole text Series from its first non-null value, so a cell's parse can depend on which rows the status and age steps left; the model does not capture that.
- Dashboard.ToNumeric reads only integer tokens: an optional sign and decimal digits. Fractional and exponent forms such as `45200.5` or `4.52e4`, and integer text with surrounding whitespace such as ` 45200 `, become missing in the model, while pandas converts them to a number and app.py:50-55 then to a date.
- Dashboard.NonNumericMissing: for the same reason, it states that fractional and exponent text, and integer text padded with whitespace, becomes missing, where pandas would give a date.
- Timestamp range: a serial whose date falls outside 1677-09-22 … 2262-04-11 becomes missing, as with `errors='coerce'`.
- Text.Upper covers ASCII letters and `é` only, not full Unicode upper-casing.
- Dashboard.JoinQuery lists the rows patient by patient. SQL Server's actual row order, its case-insensitive collation, its `=` on NVARCHAR ignoring trailing spaces (`'A '` matches `'A'`; `Dashboard.Matches` compares exactly) and its handling of type mismatches in the join are not modelled. SQL NULL matches nothing.
- Reconciler.FkFilter and Filters.FilteredPatients treat a repeated `CEDULA` or `PACIENTE_CEDULA` label as an error (`Failure(DuplicateColumn)`). A phase sheet with both `DOCUMENTO` and `CEDULA` gets two `PACIENTE_CEDULA` columns (process_excel.py:45 and :56). `isin` at line 67 then yields a boolean DataFrame, and indexing `df_fases` with it goes through `where`, masking cells instead of dropping rows. The error stands in for that path.
- Dashboard.KpisOf, Filters.StatusFilter, Filters.AgeFilter and Filters.DateFilter read the first column with a repeated label. pandas would select all of them.
- Filters.AgeOptions sorts by kind (text < date < boolean) when the age column mixes kinds. Python's `sorted` raises TypeError there.
- Dashboard.SiNo maps only booleans. Integer cells 1 and 0, which Python's dict lookup would also map, do not occur in the model's cell type.
- `render_kpis` is never called in app.py. It is modelled anyway.
- The CSV export and the charts of app.py after line 107 are rendering and are not modelled.
