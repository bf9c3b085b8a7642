/**
 * The diagram aggregate (class ERDiagram): matching sheet names against the
 * configured table types, the sheet loop of import_from_xlsx that appends one
 * table per matching sheet, and the node and edge loops of draw_pdf.
 */
module Diagram {
  import opened Outcomes
  import opened Text
  import opened Columns
  import opened Tables
  import opened Render

  /** One spreadsheet sheet: its name and its rows. */
  datatype Sheet = Sheet(name: string, rows: seq<Row>)

  /** The sheet name, lower-cased, starts with the type key, lower-cased, and a space. */
  predicate TypeMatches(sheetName: string, key: string) {
    StartsWith(Lower(sheetName), Lower(key) + " ")
  }

  /**
   * get_table_type: the first configured key that matches, with the table
   * name cut from the original-case sheet name after the lower-case key.
   */
  function GetTableType(keys: seq<string>, sheetName: string): (r: Option<(string, string)>)
    ensures r.None? <==> forall i :: 0 <= i < |keys| ==> !TypeMatches(sheetName, keys[i])
    ensures r.Some? ==> exists i :: (0 <= i < |keys| && keys[i] == r.value.0 && TypeMatches(sheetName, keys[i])
      && forall j :: 0 <= j < i ==> !TypeMatches(sheetName, keys[j]))
    ensures r.Some? ==> r.value.1 == LastPart(sheetName, Lower(r.value.0) + " ")
    decreases |keys|
  {
    if keys == [] then None
    else if TypeMatches(sheetName, keys[0]) then
      Some((keys[0], LastPart(sheetName, Lower(keys[0]) + " ")))
    else
      var r := GetTableType(keys[1..], sheetName);
      assert forall i :: 1 <= i < |keys| ==> keys[i] == keys[1..][i - 1];
      r
  }

  /** What one sheet contributes to an import. */
  datatype SheetStep = Skipped | Built(table: Table) | Broken(error: Failure)

  /**
   * One iteration of the sheet loop: a sheet without a matching key, or whose
   * matching key is the empty string, is skipped; otherwise its rows build a
   * table whose type is the key in upper case.
   */
  function ReadSheet(keys: seq<string>, sheet: Sheet): SheetStep {
    match GetTableType(keys, sheet.name)
    case None => Skipped
    case Some((tableType, tableName)) =>
      if tableType == "" then Skipped
      else
        match BuildTable(tableName, Upper(tableType), sheet.rows)
        case Ok(t) => Built(t)
        case Err(e) => Broken(e)
  }

  /**
   * A sheet that no key matches is skipped and one that a non-empty key
   * matches is read; a sheet raises with the error of building its table; a
   * table read from a sheet is the table built from its rows, well formed,
   * named as get_table_type cuts the name and typed by the matching key in
   * upper case.
   */
  lemma ReadSheetFacts(keys: seq<string>, sheet: Sheet)
    ensures (forall i :: 0 <= i < |keys| ==> !TypeMatches(sheet.name, keys[i])) ==> ReadSheet(keys, sheet) == Skipped
    ensures var found := GetTableType(keys, sheet.name);
      found.Some? && found.value.0 != "" ==> !ReadSheet(keys, sheet).Skipped?
    ensures var step := ReadSheet(keys, sheet);
      step.Broken? ==> (GetTableType(keys, sheet.name).Some?
        && BuildTable(GetTableType(keys, sheet.name).value.1, Upper(GetTableType(keys, sheet.name).value.0), sheet.rows)
           == Err(step.error))
    ensures var step := ReadSheet(keys, sheet);
      step.Built? ==> (WellFormed(step.table) && GetTableType(keys, sheet.name).Some?
        && step.table.tableType == Upper(GetTableType(keys, sheet.name).value.0)
        && step.table.name == GetTableType(keys, sheet.name).value.1
        && BuildTable(GetTableType(keys, sheet.name).value.1, Upper(GetTableType(keys, sheet.name).value.0), sheet.rows)
           == Ok(step.table))
  {
    var found := GetTableType(keys, sheet.name);
    if found.Some? && found.value.0 != "" {
      var built := BuildTable(found.value.1, Upper(found.value.0), sheet.rows);
      if built.Ok? {
        BuiltTableShape(found.value.1, Upper(found.value.0), sheet.rows);
      }
    }
  }

  /**
   * How an import ends: Failed(FKErr) is the `('ERROR', e)` it returns;
   * Failed(ValueError) is the exception it lets through.
   */
  datatype ImportOutcome = Imported | Failed(error: Failure)

  /** The tables an import appends, and how it ends. */
  datatype ImportRun = ImportRun(appended: seq<Table>, outcome: ImportOutcome)

  /** What each sheet contributes, in sheet order. */
  function Steps(keys: seq<string>, sheets: seq<Sheet>): (steps: seq<SheetStep>)
    ensures |steps| == |sheets|
    decreases |sheets|
  {
    if sheets == [] then [] else [ReadSheet(keys, sheets[0])] + Steps(keys, sheets[1..])
  }

  /** Tables are appended step by step until a step raises. */
  function ImportSteps(steps: seq<SheetStep>): ImportRun
    decreases |steps|
  {
    if steps == [] then ImportRun([], Imported)
    else
      var rest := ImportSteps(steps[1..]);
      match steps[0]
      case Skipped => rest
      case Broken(e) => ImportRun([], Failed(e))
      case Built(t) => ImportRun([t] + rest.appended, rest.outcome)
  }

  /** The sheet loop of import_from_xlsx. */
  function ImportSheets(keys: seq<string>, sheets: seq<Sheet>): ImportRun {
    ImportSteps(Steps(keys, sheets))
  }

  /** `done` already appended, followed by what the remaining sheets append. */
  function After(done: seq<Table>, run: ImportRun): ImportRun {
    ImportRun(done + run.appended, run.outcome)
  }

  /**
   * An import appends at most one table per sheet, every table it appends is
   * well formed, and a failure is the error of one of the sheets.
   */
  lemma {:induction false} ImportedTablesWellFormed(keys: seq<string>, sheets: seq<Sheet>)
    ensures var run := ImportSheets(keys, sheets);
      && |run.appended| <= |sheets|
      && (forall t | t in run.appended :: WellFormed(t))
      && (run.outcome.Failed? ==> exists i :: 0 <= i < |sheets| && ReadSheet(keys, sheets[i]) == Broken(run.outcome.error))
    decreases |sheets|
  {
    if sheets != [] {
      ReadSheetFacts(keys, sheets[0]);
      ImportedTablesWellFormed(keys, sheets[1..]);
      assert Steps(keys, sheets)[1..] == Steps(keys, sheets[1..]);
      assert forall i :: 1 <= i < |sheets| ==> sheets[i] == sheets[1..][i - 1];
    }
  }

  /** A key that is not the empty string matches the sheet name, so the loop reads the sheet. */
  predicate IsRead(keys: seq<string>, sheet: Sheet) {
    GetTableType(keys, sheet.name).Some? && GetTableType(keys, sheet.name).value.0 != ""
  }

  /** How many of the sheets the loop reads. */
  function ReadCount(keys: seq<string>, sheets: seq<Sheet>): nat
    decreases |sheets|
  {
    if sheets == [] then 0 else (if IsRead(keys, sheets[0]) then 1 else 0) + ReadCount(keys, sheets[1..])
  }

  /** An import that completes appends exactly one table per sheet it reads. */
  lemma {:induction false} OneTablePerReadSheet(keys: seq<string>, sheets: seq<Sheet>)
    ensures ImportSheets(keys, sheets).outcome == Imported ==> |ImportSheets(keys, sheets).appended| == ReadCount(keys, sheets)
    decreases |sheets|
  {
    if sheets != [] {
      ReadSheetFacts(keys, sheets[0]);
      OneTablePerReadSheet(keys, sheets[1..]);
      assert Steps(keys, sheets)[1..] == Steps(keys, sheets[1..]);
    }
  }

  /** Step `i` of the import is what sheet `i` contributes. */
  lemma {:induction false} StepsAt(keys: seq<string>, sheets: seq<Sheet>, i: nat)
    requires i < |sheets|
    ensures Steps(keys, sheets)[i] == ReadSheet(keys, sheets[i])
    decreases i
  {
    if i > 0 {
      StepsAt(keys, sheets[1..], i - 1);
    }
  }

  /** One step of the sheet loop, on top of the tables `done` already appended. */
  function Advance(done: seq<Table>, step: SheetStep, rest: ImportRun): ImportRun {
    match step
    case Skipped => After(done, rest)
    case Broken(e) => ImportRun(done, Failed(e))
    case Built(t) => After(done + [t], rest)
  }

  /** The steps from `i` on: step `i`, then the steps after it. */
  lemma ImportStepsFrom(steps: seq<SheetStep>, i: nat, done: seq<Table>)
    requires i < |steps|
    ensures After(done, ImportSteps(steps[i..])) == Advance(done, steps[i], ImportSteps(steps[i + 1..]))
  {
    assert steps[i..][0] == steps[i] && steps[i..][1..] == steps[i + 1..];
    if steps[i].Built? {
      var rest := ImportSteps(steps[i + 1..]);
      assert done + ([steps[i].table] + rest.appended) == (done + [steps[i].table]) + rest.appended;
    }
  }

  /** Steps that complete leave their tables in front of what later steps append. */
  lemma {:induction false} ImportStepsConcat(first: seq<SheetStep>, second: seq<SheetStep>)
    requires ImportSteps(first).outcome == Imported
    ensures ImportSteps(first + second) == After(ImportSteps(first).appended, ImportSteps(second))
    decreases |first|
  {
    if first == [] {
      assert first + second == second;
    } else {
      assert (first + second)[0] == first[0];
      assert (first + second)[1..] == first[1..] + second;
      ImportStepsConcat(first[1..], second);
      var rest := ImportSteps(first[1..]);
      if first[0].Built? {
        assert [first[0].table] + (rest.appended + ImportSteps(second).appended)
            == ([first[0].table] + rest.appended) + ImportSteps(second).appended;
      }
    }
  }

  lemma {:induction false} StepsAppend(keys: seq<string>, first: seq<Sheet>, second: seq<Sheet>)
    ensures Steps(keys, first + second) == Steps(keys, first) + Steps(keys, second)
    decreases |first|
  {
    if first != [] {
      assert (first + second)[1..] == first[1..] + second;
      StepsAppend(keys, first[1..], second);
    } else {
      assert first + second == second;
    }
  }

  /** Sheets that import cleanly leave their tables in front of what later sheets append. */
  lemma ImportConcat(keys: seq<string>, first: seq<Sheet>, second: seq<Sheet>)
    requires ImportSheets(keys, first).outcome == Imported
    ensures ImportSheets(keys, first + second) == After(ImportSheets(keys, first).appended, ImportSheets(keys, second))
  {
    StepsAppend(keys, first, second);
    ImportStepsConcat(Steps(keys, first), Steps(keys, second));
  }

  /**
   * A step that raises ends the import with its error, and the tables of the
   * steps before it stay appended; later steps are not looked at.
   */
  lemma ImportStepsBroken(first: seq<SheetStep>, e: Failure, second: seq<SheetStep>)
    requires ImportSteps(first).outcome == Imported
    ensures ImportSteps(first + [Broken(e)] + second) == ImportRun(ImportSteps(first).appended, Failed(e))
  {
    assert first + [Broken(e)] + second == first + ([Broken(e)] + second);
    ImportStepsConcat(first, [Broken(e)] + second);
    assert ImportSteps(first).appended + [] == ImportSteps(first).appended;
  }

  /**
   * A sheet that raises ends the import with its error, and the tables of
   * the sheets before it stay appended; later sheets are not read.
   */
  lemma ImportKeepsEarlierTables(keys: seq<string>, before: seq<Sheet>, broken: Sheet, after: seq<Sheet>)
    requires ImportSheets(keys, before).outcome == Imported
    requires ReadSheet(keys, broken).Broken?
    ensures ImportSheets(keys, before + [broken] + after)
         == ImportRun(ImportSheets(keys, before).appended, Failed(ReadSheet(keys, broken).error))
  {
    StepsAround(keys, before, broken, after);
    ImportStepsBroken(Steps(keys, before), ReadSheet(keys, broken).error, Steps(keys, after));
  }

  lemma StepsAround(keys: seq<string>, before: seq<Sheet>, sheet: Sheet, after: seq<Sheet>)
    ensures Steps(keys, before + [sheet] + after) == Steps(keys, before) + [ReadSheet(keys, sheet)] + Steps(keys, after)
  {
    StepsAppend(keys, before, [sheet] + after);
    assert before + [sheet] + after == before + ([sheet] + after);
    assert ([sheet] + after)[1..] == after;
  }

  /** A sheet named with the lower-case key, a space and a name matches that key. */
  lemma LowerPrefixMatches(key: string, rest: string)
    ensures TypeMatches(Lower(key) + " " + rest, key)
  {
    LowerAppend(Lower(key) + " ", rest);
    LowerAppend(Lower(key), " ");
    LowerIdempotent(key);
  }

  /**
   * With the key written in lower case in the sheet name, the table is named
   * by what follows it (when the key does not recur) and typed by the key in
   * upper case.
   */
  lemma {:induction false} TableNameAfterLowerKey(keys: seq<string>, i: nat, rest: string, rows: seq<Row>)
    requires i < |keys| && keys[i] != ""
    requires forall j :: 0 <= j < i ==> !TypeMatches(Lower(keys[i]) + " " + rest, keys[j])
    requires !Contains(rest, Lower(keys[i]) + " ")
    requires BuildTable(rest, Upper(keys[i]), rows).Ok?
    ensures ReadSheet(keys, Sheet(Lower(keys[i]) + " " + rest, rows)) == Built(BuildTable(rest, Upper(keys[i]), rows).value)
  {
    var sheetName := Lower(keys[i]) + " " + rest;
    LowerPrefixMatches(keys[i], rest);
    LastPartAfterPrefix(Lower(keys[i]) + " ", rest);
    var r := GetTableType(keys, sheetName);
    var k :| 0 <= k < |keys| && keys[k] == r.value.0 && TypeMatches(sheetName, keys[k])
      && forall j :: 0 <= j < k ==> !TypeMatches(sheetName, keys[j]);
    assert k == i;
  }

  /**
   * The lower-case key followed by a space does not occur in a sheet name
   * whose one-word type is not written in lower case, when it does not occur
   * in the rest of the name.
   */
  lemma NoLowerKeyIn(key: string, prefix: string, rest: string)
    requires ' ' !in prefix && !Contains(rest, Lower(key) + " ")
    requires Lower(prefix) == Lower(key) && prefix != Lower(key)
    ensures !Contains(prefix + " " + rest, Lower(key) + " ")
  {
    var s := prefix + " " + rest;
    var sep := Lower(key) + " ";
    if Contains(s, sep) {
      OccurrenceOnlyAtStart(key, prefix, rest, FindFirst(s, sep).value);
    }
  }

  lemma OccurrenceOnlyAtStart(key: string, prefix: string, rest: string, j: nat)
    requires ' ' !in prefix && !Contains(rest, Lower(key) + " ") && Lower(prefix) == Lower(key)
    requires OccursAt(prefix + " " + rest, Lower(key) + " ", j)
    ensures j == 0 && prefix == Lower(key)
  {
    var s := prefix + " " + rest;
    var sep := Lower(key) + " ";
    assert s[j..j + |sep|] == sep;
    if j > |prefix| {
      assert rest[j - |prefix| - 1..j - |prefix| - 1 + |sep|] == s[j..j + |sep|];
      assert OccursAt(rest, sep, j - |prefix| - 1);
      assert false;
    } else if j > 0 {
      SpaceInLowerAt(key, prefix, rest, j);
      assert false;
    }
    assert s[..|prefix|] == prefix;
    assert sep[..|prefix|] == Lower(key);
  }

  /** An occurrence that starts inside the type word would put its space inside the lower-case key. */
  lemma SpaceInLowerAt(key: string, prefix: string, rest: string, j: nat)
    requires Lower(prefix) == Lower(key) && 0 < j <= |prefix|
    requires OccursAt(prefix + " " + rest, Lower(key) + " ", j)
    ensures ' ' in prefix
  {
    var s := prefix + " " + rest;
    var k := |prefix| - j;
    assert (Lower(key) + " ")[k] == s[j..j + |key| + 1][k] == s[|prefix|] == ' ';
    assert LowerChar(prefix[k]) == ' ';
    assert prefix[k] in prefix;
  }

  /**
   * When the type word of the sheet name is not written in lower case and
   * the rest of the name does not hold the lower-case key and a space, the
   * split finds no separator and the table keeps the whole sheet name.
   */
  lemma {:induction false} TableNameKeepsSheetName(keys: seq<string>, i: nat, prefix: string, rest: string, rows: seq<Row>)
    requires i < |keys| && keys[i] != ""
    requires forall j :: 0 <= j < i ==> !TypeMatches(prefix + " " + rest, keys[j])
    requires ' ' !in prefix && !Contains(rest, Lower(keys[i]) + " ")
    requires Lower(prefix) == Lower(keys[i]) && prefix != Lower(keys[i])
    requires BuildTable(prefix + " " + rest, Upper(keys[i]), rows).Ok?
    ensures ReadSheet(keys, Sheet(prefix + " " + rest, rows))
         == Built(BuildTable(prefix + " " + rest, Upper(keys[i]), rows).value)
  {
    var sheetName := prefix + " " + rest;
    LowerAppend(prefix + " ", rest);
    LowerAppend(prefix, " ");
    LowerIdempotent(keys[i]);
    assert Lower(sheetName) == Lower(keys[i]) + " " + Lower(rest);
    assert TypeMatches(sheetName, keys[i]);
    NoLowerKeyIn(keys[i], prefix, rest);
    SplitAbsent(sheetName, Lower(keys[i]) + " ");
    var r := GetTableType(keys, sheetName);
    var k :| 0 <= k < |keys| && keys[k] == r.value.0 && TypeMatches(sheetName, keys[k])
      && forall j :: 0 <= j < k ==> !TypeMatches(sheetName, keys[j]);
    assert k == i;
  }

  /** With the key "TABLE", the sheet "Table Orders" becomes a table named "Table Orders" of type "TABLE". */
  lemma TableOrdersKeepsItsName()
    ensures ReadSheet(["TABLE"], Sheet("Table Orders", [])) == Built(Table("Table Orders", [], [], [], "TABLE"))
  {
    assert Lower("Table") == "table" == Lower("TABLE");
    assert Upper("TABLE") == "TABLE";
    assert "Table Orders" == "Table" + " " + "Orders";
    AbsentCharNoOccurrence("Orders", "table ", ' ');
    TableNameKeepsSheetName(["TABLE"], 0, "Table", "Orders", []);
  }

  /** With the key "TABLE", the sheet "table Orders" becomes a table named "Orders" of type "TABLE". */
  lemma LowerTableOrdersIsOrders()
    ensures ReadSheet(["TABLE"], Sheet("table Orders", [])) == Built(Table("Orders", [], [], [], "TABLE"))
  {
    assert Lower("TABLE") == "table";
    assert Upper("TABLE") == "TABLE";
    assert "table Orders" == Lower("TABLE") + " " + "Orders";
    AbsentCharNoOccurrence("Orders", "table ", ' ');
    TableNameAfterLowerKey(["TABLE"], 0, "Orders", []);
  }

  class ERDiagram {
    /** The keys of the configured table types (colors['TABLE_COLOR']), in dictionary order. */
    const tableTypes: seq<string>
    var tables: seq<Table>

    constructor (tableTypes: seq<string>)
      ensures this.tableTypes == tableTypes && tables == []
    {
      this.tableTypes := tableTypes;
      tables := [];
    }

    /** ERDiagram.add_table. */
    method AddTable(t: Table)
      modifies this
      ensures tables == old(tables) + [t]
    {
      tables := tables + [t];
    }

    /**
     * ERDiagram.import_from_xlsx over sheets already read: each matching sheet
     * appends one table; a sheet that raises stops the loop and the tables of
     * earlier sheets stay appended.
     */
    method ImportFromXlsx(sheets: seq<Sheet>) returns (outcome: ImportOutcome)
      modifies this
      ensures tables == old(tables) + ImportSheets(tableTypes, sheets).appended
      ensures outcome == ImportSheets(tableTypes, sheets).outcome
    {
      ghost var steps := Steps(tableTypes, sheets);
      ghost var done: seq<Table> := [];
      var i := 0;
      assert steps[0..] == steps;
      while i < |sheets|
        invariant 0 <= i <= |sheets|
        invariant tables == old(tables) + done
        invariant ImportSteps(steps) == After(done, ImportSteps(steps[i..]))
      {
        var step := ReadSheet(tableTypes, sheets[i]);
        StepsAt(tableTypes, sheets, i);
        ImportStepsFrom(steps, i, done);
        match step {
          case Skipped =>
          case Broken(e) =>
            return Failed(e);
          case Built(t) =>
            AddTable(t);
            done := done + [t];
        }
        i := i + 1;
      }
      assert steps[i..] == [];
      assert done + [] == done;
      return Imported;
    }

    /**
     * ERDiagram.draw_pdf without the renderer: one node per table, then the
     * edges table by table; the first cardinality lookup that raises ends it.
     */
    method DrawPdf(level: ERType) returns (r: Result<Graph, Failure>)
      ensures r == Draw(tables, level)
    {
      var nodes := DrawNodes(tables, level);
      var edges: seq<Edge> := [];
      ThenOkEmpty(AllEdges(tables));
      assert tables[0..] == tables;
      var i := 0;
      while i < |tables|
        invariant 0 <= i <= |tables|
        invariant Then(Ok(edges), AllEdges(tables[i..])) == AllEdges(tables)
      {
        var t := tables[i];
        EdgesFrom(tables, i);
        var more := DrawColumnEdges(t, t.columnsFK + PKsWithFK(t.columnsPK));
        if more.Err? {
          return Err(more.error);
        }
        ThenAssociative(Ok(edges), more, AllEdges(tables[i + 1..]));
        edges := edges + more.value;
        i := i + 1;
      }
      assert tables[i..] == [];
      assert edges + [] == edges;
      return Ok(Graph(nodes, edges));
    }
  }

  /** The inner edge loop of draw_pdf over the FK columns of one table. */
  method DrawColumnEdges(t: Table, fkColumns: seq<Column>) returns (r: Result<seq<Edge>, Failure>)
    ensures r == ColumnEdges(t, fkColumns)
  {
    var edges: seq<Edge> := [];
    assert fkColumns[0..] == fkColumns;
    ThenOkEmpty(ColumnEdges(t, fkColumns));
    var j := 0;
    while j < |fkColumns|
      invariant 0 <= j <= |fkColumns|
      invariant Then(Ok(edges), ColumnEdges(t, fkColumns[j..])) == ColumnEdges(t, fkColumns)
    {
      var c := fkColumns[j];
      assert fkColumns[j..][0] == c && fkColumns[j..][1..] == fkColumns[j + 1..];
      if c.fk.None? {
        return Err(AttributeError);
      }
      var head := ArrowHead(c.fk.value);
      if head.Err? {
        return Err(head.error);
      }
      var tail := ArrowTail(c.fk.value);
      if tail.Err? {
        return Err(tail.error);
      }
      var e := Edge(t.name, c.name, c.fk.value.tablePk, c.fk.value.columnPk, head.value, tail.value);
      ThenAssociative(Ok(edges), Ok([e]), ColumnEdges(t, fkColumns[j + 1..]));
      edges := edges + [e];
      j := j + 1;
    }
    assert fkColumns[j..] == [];
    assert edges + [] == edges;
    return Ok(edges);
  }

  /** The node loop of draw_pdf: one node per table, named after it, shaped by the level. */
  method DrawNodes(tables: seq<Table>, level: ERType) returns (nodes: seq<Node>)
    ensures nodes == Nodes(tables, level)
  {
    nodes := [];
    for k := 0 to |tables|
      invariant |nodes| == k
      invariant forall m :: 0 <= m < k ==> nodes[m] == Node(tables[m].name, GetShape(level))
    {
      nodes := nodes + [Node(tables[k].name, GetShape(level))];
    }
  }
}
