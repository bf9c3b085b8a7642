# er_diagram: schema metadata model

This project models the core of `er_diagram.py`, which turns a spreadsheet description of a relational schema into an entity-relationship diagram. It covers five parts:

- **Column-name parsing.** The `name:flag` convention sets a column's visibility.
- **FK directives.** A directive has the form `FK <table>[.<column>] <card>:<cardFK>`, and two cardinality codes become graphviz arrow styles.
- **Table views.** Each role list of a table can be filtered by visibility at the physical, logical or conceptual level.
- **Import.** Sheets whose names begin with a configured table type become tables. Each sheet's rows are split into PK, FK and plain columns.
- **Edge derivation.** `draw_pdf` makes one edge per FK column and one per PK column that carries FK fields.

Spreadsheets, templates and graphviz are left out. Sheets arrive as `(name, rows)` values, and drawing returns the graph that graphviz would receive.

Modules:

- `Outcomes` (outcomes.dfy): `Option` and `Result`.
- `Text` (text.dfy): Python's `in`, `split`, `startswith`, `lower` and `upper` with their own semantics. `split` scans from left to right and does not overlap matches. `lower` and `upper` are limited to ASCII.
- `Columns` (columns.dfy): `Column`, `Column.is_hidden`, `ColumnFK.__init__`, the cardinality table, `getarrowhead`/`getarrowtail` and `ColumnPK.is_fk`.
- `Tables` (tables.dfy): `Table`, `get_columns`, and how one sheet's rows are bucketed and built into a table.
- `Render` (render.dfy): `get_shape`, plus the nodes and edges of `draw_pdf` as specification functions.
- `Diagram` (diagram.dfy): `get_table_type`, the sheet loop, and class `ERDiagram`. The class holds the table list, which `add_table` and `import_from_xlsx` extend in place. Its `DrawPdf` runs the node and edge loops.

Exceptions are modelled as the `Failure` values `FKErr`, `ValueError` and `AttributeError`:

- `FKErr` is the only exception that import and drawing catch. They turn it into `('ERROR', e)`, modelled as `Failed(FKErr)` or `Err(FKErr)`.
- A column name with two `:` raises `ValueError` (er_diagram.py:27), and nothing catches it. It shows up as `Failed(ValueError)`.
- `AttributeError` happens only when an entry of `columnsFK` has no FK fields. Tables built by import never have such an entry (`Render.BuiltTablesFailOnlyOnCardinality`).

Where the code does something other than what one might expect, the model does what the code does:

- An import appends to the existing table list instead of replacing it. If a sheet raises, the tables from earlier sheets stay appended (er_diagram.py:147-162).
- The table name is cut from the sheet name in its original case, but the separator searched for is the lower-case key. So "TABLE Orders" and "Table Orders" keep their whole name, and only "table Orders" becomes "Orders" (er_diagram.py:142).
- In a directive without a `.`, the referenced column is the raw `name` argument, including any `:flag` suffix (er_diagram.py:66).
- An unknown cardinality code raises the same `FKErr` as a malformed directive. It is raised only when drawing reaches that edge.
- The code does not check that referenced tables exist.

## Model

| member | source | states |
|---|---|---|
| `Columns.NewColumn` | er_diagram.py:23-35 | a built column keeps its table name and type, has no PK mark and no FK fields, and its stored name never contains ':' |
| `Columns.NameWithoutColon` | er_diagram.py:24-26 | a name without ':' is kept unchanged and the column is VISIBLE |
| `Columns.NameWithOneColon` | er_diagram.py:26-31 | for `base:flag` the stored name is `base`; flag `h`/`H` gives HIDDEN, any other flag (the empty one included) HIDDEN_IN_LOGICAL |
| `Columns.NameWithManyColons` | er_diagram.py:27 | a name with two or more ':' raises ValueError |
| `Columns.IsHidden` | er_diagram.py:40-46 | `is_hidden`: which hidden states count as hidden at each level; what it answers per state is stated by `HiddenByState` and `HiddenMonotone` |
| `Columns.HiddenMonotone` | er_diagram.py:40-46 | hidden at PHYSICAL implies hidden at LOGICAL; nothing is hidden at CONCEPTUAL |
| `Columns.HiddenByState` | er_diagram.py:40-46 | VISIBLE is never hidden; HIDDEN is hidden exactly at PHYSICAL and LOGICAL; HIDDEN_IN_LOGICAL exactly at LOGICAL |
| `Columns.ParseFK` | er_diagram.py:64-86 | the only exception the directive parse raises is FKErr |
| `Columns.EmptyDirective` | er_diagram.py:64-65 | an empty directive sets no FK fields |
| `Columns.ParseFormatRoundTrip` | er_diagram.py:73-78 | parsing `FK t.c a:b` written from fields gives back `table_pk = t`, `columnpk = c` and the two codes, for fields without separators and with lower-case codes; it follows from `QualifiedTarget` |
| `Columns.QualifiedTarget` | er_diagram.py:73-78 | `FK t.c a:b` gives `table_pk = t`, `columnpk = c`, `cardinality = lower(a)` and `cardinalityFK = lower(b)`, for any case of the codes |
| `Columns.UnqualifiedTarget` | er_diagram.py:66-75 | without '.', `columnpk` is the raw name argument and the codes are lower-cased |
| `Columns.ParseTokens` | er_diagram.py:74-83 | once split into three tokens, the only exception raised is FKErr |
| `Columns.ExtraCardinalityPartsIgnored` | er_diagram.py:76-78 | `:` parts after the second in the cardinality token change nothing |
| `Columns.Codes` | er_diagram.py:76-80 | the cardinality token yields codes exactly when it contains ':' |
| `Columns.CodesOfPair` | er_diagram.py:76-78 | `card:cardFK` gives the codes `lower(card)` and `lower(cardFK)` |
| `Columns.CodesOfTriple` | er_diagram.py:76-78 | `card:cardFK:extra` gives the same two codes |
| `Columns.CodesIgnoreExtraParts` | er_diagram.py:77-78 | parts after the second ':' of the cardinality token do not change the two codes |
| `Columns.WrongTokenCount` | er_diagram.py:73-86 | a non-empty directive without exactly two single spaces raises FKErr |
| `Columns.ThreeTokens` | er_diagram.py:73-86 | with three tokens, the parse fails exactly when the keyword is not `FK`, the target has two or more '.', or the cardinality token has no ':' |
| `Columns.NewColumnFK` | er_diagram.py:62-86 | an FK column keeps its table name, is not a PK, and has FK fields exactly when the directive is non-empty |
| `Columns.InitColumnFK` | er_diagram.py:62-86 | the step-by-step field assignments inside the try give the same column or error as `NewColumnFK` |
| `Columns.NewColumnPK` | er_diagram.py:100-105 | a PK column keeps its table name, is marked PK, and has FK fields exactly when the directive is non-empty |
| `Columns.IsFk` | er_diagram.py:107-108 | `is_fk()`: the column carries FK fields; the contracts of `NewColumnFK` and `NewColumnPK` state that this holds exactly when the directive was non-empty |
| `Columns.ArrowStyle` | er_diagram.py:52-59 | the lookup in `mapping_cardinality` (the constant `MappingCardinality`) succeeds exactly for the six codes 1, n, 11, 01, 0n, 1n and yields one of the six styles; otherwise FKErr |
| `Columns.ArrowHead` | er_diagram.py:87-92 | fails exactly when `cardinalityFK` is not in the table; the style it gives maps back to `cardinalityFK` |
| `Columns.ArrowTail` | er_diagram.py:93-98 | fails exactly when `cardinality` is not in the table; the style it gives maps back to `cardinality` |
| `Columns.ZeroIsUnmapped` | er_diagram.py:52-70 | the default code '0' is not in the table |
| `Columns.ArrowStyleInvertible` | er_diagram.py:52-59 | no two codes share a style: the code can be read back from its style |
| `Tables.Visible` | er_diagram.py:124 | the comprehension keeps exactly the columns not hidden at the level |
| `Tables.VisibleCounts` | er_diagram.py:124 | every shown column occurs in the view as often as in the list |
| `Tables.VisibleInOrder` | er_diagram.py:124 | the view keeps the columns in their original order |
| `Tables.GetColumns` | er_diagram.py:123-124 | `get_columns(role, level)` holds exactly the columns of that role list not hidden at the level, with their multiplicity, in order |
| `Tables.ConceptualKeepsAll` | er_diagram.py:123-124 | the conceptual view of a list is the whole list |
| `Tables.LogicalWithinPhysical` | er_diagram.py:40-46 | filtering the physical view for LOGICAL gives the logical view |
| `Tables.BucketOf` | er_diagram.py:152-156 | the three `df.loc` conditions: a `pk` cell gives the PK list, else no `fk` cell the plain list, else an `fk` cell starting with "FK " the FK list, else no list; `BucketsPartitionRows` shows every row lands in one selection |
| `Tables.Select` | er_diagram.py:152-156 | a row is selected for a bucket exactly when the bucketing rule puts it there, and the selection is no longer than the sheet |
| `Tables.SelectCounts` | er_diagram.py:152-156 | a row of the bucket occurs in the selection as often as in the sheet |
| `Tables.SelectInOrder` | er_diagram.py:152-156 | the selection keeps the rows in sheet order |
| `Tables.BucketsPartitionRows` | er_diagram.py:152-156 | the PK, FK, plain and unused selections together hold exactly as many rows as the sheet, so each row lands in one bucket |
| `Tables.RowColumn` | er_diagram.py:152-157 | the constructor call of each comprehension: `ColumnPK` with a missing `fk` read as '', `ColumnFK`, or `ColumnArg`; `RowColumnFits` states what it builds |
| `Tables.BuildColumns` | er_diagram.py:152-157 | a bucket builds one column per row, in order, when every row builds; otherwise the error of the first row that raises |
| `Tables.BuildTable` | er_diagram.py:152-159 | the PK, FK and plain lists built in that order, the first raising row deciding the error, then the table; `BuildTableFails` states when it raises and `BuiltTableShape` what a built table satisfies |
| `Tables.BuildTableFails` | er_diagram.py:152-159 | building the table raises exactly when the column of some row in a bucket raises, and then with that row's error |
| `Tables.SelectedColumnsFail` | er_diagram.py:152-157 | the comprehension over one bucket raises exactly when one of that bucket's rows raises, and then with its error |
| `Tables.BuiltTableShape` | er_diagram.py:152-159 | a built table has the sheet's name and type, one column per row of each bucket, every column tagged with the table name, PK columns marked, every FK column carrying FK fields and no plain column carrying any |
| `Tables.RowColumnFits` | er_diagram.py:152-157 | the column built from a row is tagged with the table name; a PK row gives a PK column, an FK row a non-PK column with FK fields, a plain row a non-PK column without them |
| `Tables.BuiltColumnsFit` | er_diagram.py:152-157 | the same for every column of a built list |
| `Tables.PKRowCarriesFK` | er_diagram.py:152-153 | a PK row becomes a PK column with FK fields exactly when its `fk` cell is present and non-empty, since a missing cell reads as '' |
| `Render.GetShape` | er_diagram.py:211-218 | the shape is `box` exactly at CONCEPTUAL and `none` at PHYSICAL and LOGICAL |
| `Render.PKsWithFK` | er_diagram.py:177 | keeps exactly the PK columns with `is_fk()`, each as often as in the list, in order |
| `Render.FKColumns` | er_diagram.py:177 | `fk_columns`: the FK columns, then the PK columns with FK fields; `AllEdgesSpec` counts one edge per entry |
| `Render.EdgeOf` | er_diagram.py:179-180 | an edge runs from `table.name:fk.name` to `table_pk:columnpk`, its head style encodes `cardinalityFK` and its tail style `cardinality`; it fails exactly when a code is unmapped or the column lacks FK fields |
| `Render.ColumnEdges` | er_diagram.py:178-180 | one edge per column in column order, or the error of the first column whose edge fails |
| `Render.AllEdges` | er_diagram.py:176-180 | the edge loop, table by table, stopping at the first edge that raises; `AllEdgesSpec` and `AllEdgesAppend` state its properties |
| `Render.AllEdgesSpec` | er_diagram.py:176-180 | drawing succeeds exactly when every FK column of every table has mapped codes; then there is one edge per FK column and PK-with-FK column; otherwise the error of one such column |
| `Render.Nodes` | er_diagram.py:169-174 | one node per table, named after it, with the level's shape |
| `Render.Draw` | er_diagram.py:166-188 | drawing succeeds exactly when the edges do; the graph is then the nodes of `Nodes` (one per table, named after it, with the level's shape) and the edges of the edge loop in table order, one per FK column; otherwise it fails with the edge loop's error |
| `Render.AllEdgesAppend` | er_diagram.py:176-180 | edges are listed table by table: those of a concatenation are the concatenated edges, and the first failing table's error wins |
| `Render.BuiltTablesFailOnlyOnCardinality` | er_diagram.py:176-188 | for tables built from sheets, any drawing failure is FKErr, which draw_pdf returns as ERROR |
| `Render.UnmappedCodeFailsDrawing` | er_diagram.py:87-98 | one FK column with a code outside the table, such as '0', makes the drawing fail |
| `Diagram.GetTableType` | er_diagram.py:139-143 | returns the first key, in configuration order, for which the lower-cased sheet name starts with the lower-cased key and a space, or nothing when no key matches; the name is what follows the last split on the lower-case key |
| `Diagram.ReadSheet` | er_diagram.py:148-159 | one pass of the sheet loop: skip when no key matches, else build the table typed `upper(key)`; `ReadSheetFacts` states its properties |
| `Diagram.ReadSheetFacts` | er_diagram.py:148-159 | an unmatched sheet is skipped and a sheet matched by a non-empty key is read; a sheet that raises does so with the error of building its table; a built table is the table built from the sheet's rows, well formed, named as `get_table_type` cuts it, and typed by the upper-cased key |
| `Diagram.OneTablePerReadSheet` | er_diagram.py:147-160 | an import that completes appends exactly one table per sheet that a non-empty key matches |
| `Diagram.ImportSteps` | er_diagram.py:147-162 | tables are appended sheet by sheet and the first raising sheet ends the run; `ImportStepsConcat` and `ImportStepsBroken` state its properties |
| `Diagram.ImportSheets` | er_diagram.py:147-162 | the sheet loop as a whole; `ImportedTablesWellFormed`, `ImportConcat` and `ImportKeepsEarlierTables` state its properties |
| `Diagram.ImportedTablesWellFormed` | er_diagram.py:147-162 | an import appends at most one table per sheet, all well formed, and a failure is the error of one of the sheets |
| `Diagram.ImportStepsConcat` | er_diagram.py:147-160 | steps that complete leave their tables in front of what later steps append |
| `Diagram.ImportConcat` | er_diagram.py:147-160 | sheets that import cleanly leave their tables in front of those of later sheets |
| `Diagram.ImportStepsBroken` | er_diagram.py:147-162 | a step that raises ends the run with its error, keeping what the steps before it appended |
| `Diagram.ImportKeepsEarlierTables` | er_diagram.py:147-162 | a sheet that raises ends the import with its error and the tables of earlier sheets stay appended |
| `Diagram.TableNameAfterLowerKey` | er_diagram.py:139-159 | the sheet `<lower key> <name>` becomes table `<name>` of type `upper(key)`, when `<name>` does not contain the lower-case key followed by a space and no earlier key matches ("table a table b" is cut to "b") |
| `Diagram.TableNameKeepsSheetName` | er_diagram.py:141-142 | a type word that matches the key but is not written in lower case leaves the whole sheet name as the table name, when the rest of the name does not contain the lower-case key followed by a space (as in "Table Order Lines"; "Table a table b" is cut to "b") |
| `Diagram.TableOrdersKeepsItsName` | er_diagram.py:139-159 | with the key "TABLE", sheet "Table Orders" gives table "Table Orders" of type "TABLE" |
| `Diagram.LowerTableOrdersIsOrders` | er_diagram.py:139-159 | with the key "TABLE", sheet "table Orders" gives table "Orders" of type "TABLE" |
| `Diagram.ERDiagram.constructor` | er_diagram.py:127-129 | a new diagram has no tables and keeps the configured table types |
| `Diagram.ERDiagram.AddTable` | er_diagram.py:131-132 | the table is appended to the list |
| `Diagram.ERDiagram.ImportFromXlsx` | er_diagram.py:138-163 | the table list becomes the old list followed by the tables of matching sheets up to the first sheet that raises; the outcome is that sheet's error or success |
| `Diagram.ERDiagram.DrawPdf` | er_diagram.py:166-188 | the node and edge loops produce exactly `Draw(tables, level)` |
| `Diagram.DrawNodes` | er_diagram.py:169-174 | the node loop yields one node per table with the level's shape |
| `Diagram.DrawColumnEdges` | er_diagram.py:178-180 | the inner edge loop yields exactly the edges of the table's FK columns, or the first error |

## Left out

- Reading workbooks (`pd.ExcelFile`, `read_excel`) and `read_csv` are left out. Sheets arrive as names and rows. Each cell is a string or absent, so pandas' typed cells, `NaN` in `name`/`type` outside PK rows, and `astype(str)` of non-string `fk` cells are not modelled.
- A sheet without a `pk` or `fk` column raises `KeyError` in pandas. This is not modelled.
- `get_html_table` is left out: it uses Jinja templating, the label HTML, and the debug files it writes.
- The graphviz `Digraph`, node colours and labels, the arrow colour, the legend, `render` and the returned output path are left out. `DrawPdf` returns the nodes (name and shape) and edges instead of `('OK', path)`.
- At the conceptual level, node colours are looked up in the configuration under the upper-cased type. That lookup raises `KeyError` when a configured key is not upper case. This is not modelled.
- YAML colour loading, the `__main__` blocks, `generate_pdm.py`, `print` output and the `__str__` methods are left out. `Table.__str__` refers to a missing attribute.
- `lower()` and `upper()` map only ASCII letters. Other Unicode case mappings are not modelled.
- The invalid-level branch of `get_shape` cannot be reached, because `ERType` is a closed datatype. For the same reason, a role name that `getattr` cannot resolve cannot occur.
- `FKErr` carries no message, as in the source. The printed error text is left out.
- The `columnfk` attribute is set but never read, so it is not modelled. The `Column.fk = None` attribute is also not modelled. `ColumnArg`, `ColumnFK` and `ColumnPK` are one `Column` shape with a PK mark and optional FK fields.
- The code does not do the following, so the model does not either: check for dangling references, raise `PKErr`, use the three-entry legacy cardinality table, or roll back a failed import.
