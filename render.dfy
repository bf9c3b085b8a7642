/**
 * What draw_pdf hands to graphviz, without the renderer: one node per table
 * with the shape of the level (get_shape), and one edge per FK column and per
 * PK column that carries FK fields, styled from the cardinality table.
 */
module Render {
  import opened Outcomes
  import opened Columns
  import opened Tables

  /**
   * An edge from port `fromColumn` of node `fromTable` to port `toColumn` of
   * node `toTable` (graphviz receives them as "table:column").
   */
  datatype Edge = Edge(
    fromTable: string,
    fromColumn: string,
    toTable: string,
    toColumn: string,
    arrowhead: string,
    arrowtail: string)

  datatype Node = Node(name: string, shape: string)

  datatype Graph = Graph(nodes: seq<Node>, edges: seq<Edge>)

  /** get_shape: a borderless record for the physical and logical levels, a box for the conceptual one. */
  function GetShape(level: ERType): (shape: string)
    ensures shape == "box" <==> level == Conceptual
    ensures shape == "none" <==> level != Conceptual
  {
    match level
    case Physical => "none"
    case Logical => "none"
    case Conceptual => "box"
  }

  /** `[column for column in table.columnsPK if column.is_fk()]`. */
  function PKsWithFK(cols: seq<Column>): (r: seq<Column>)
    ensures forall c :: c in r <==> c in cols && IsFk(c)
    ensures forall c | IsFk(c) :: multiset(r)[c] == multiset(cols)[c]
    ensures IsSubsequence(r, cols)
    decreases |cols|
  {
    if cols == [] then []
    else
      var rest := PKsWithFK(cols[1..]);
      assert cols == [cols[0]] + cols[1..];
      assert multiset(cols) == multiset{cols[0]} + multiset(cols[1..]);
      if IsFk(cols[0]) then
        assert multiset([cols[0]] + rest) == multiset{cols[0]} + multiset(rest);
        [cols[0]] + rest
      else
        assert rest != [] ==> rest[0] != cols[0];
        rest
  }

  /** The columns a table draws edges from: its FK columns, then its PK columns with FK fields. */
  function FKColumns(t: Table): seq<Column> {
    t.columnsFK + PKsWithFK(t.columnsPK)
  }

  /** How many edges a list of tables draws. */
  function FKColumnCount(tables: seq<Table>): nat
    decreases |tables|
  {
    if tables == [] then 0 else |FKColumns(tables[0])| + FKColumnCount(tables[1..])
  }

  /**
   * The edge of one column: reading the target fields of a column without
   * them raises AttributeError, then the head style is looked up, then the tail.
   */
  function EdgeOf(t: Table, c: Column): (r: Result<Edge, Failure>)
    ensures r.Ok? <==> IsFk(c) && ArrowHead(c.fk.value).Ok? && ArrowTail(c.fk.value).Ok?
    ensures r == Err(AttributeError) <==> !IsFk(c)
    ensures r.Ok? ==> r.value.fromTable == t.name && r.value.fromColumn == c.name
    ensures r.Ok? ==> r.value.toTable == c.fk.value.tablePk && r.value.toColumn == c.fk.value.columnPk
    ensures r.Ok? ==> CodeOfStyle(r.value.arrowhead) == Some(c.fk.value.cardinalityFK)
    ensures r.Ok? ==> CodeOfStyle(r.value.arrowtail) == Some(c.fk.value.cardinality)
  {
    if c.fk.None? then Err(AttributeError)
    else
      var ref := c.fk.value;
      var head :- ArrowHead(ref);
      var tail :- ArrowTail(ref);
      Ok(Edge(t.name, c.name, ref.tablePk, ref.columnPk, head, tail))
  }

  /** The edges of `first` followed by those of `second`; the first failure is the one reported. */
  function Then(first: Result<seq<Edge>, Failure>, second: Result<seq<Edge>, Failure>): Result<seq<Edge>, Failure> {
    if first.Err? then first
    else if second.Err? then second
    else Ok(first.value + second.value)
  }

  /** The edges of some columns of table `t`, one per column and in column order. */
  function ColumnEdges(t: Table, cols: seq<Column>): (r: Result<seq<Edge>, Failure>)
    ensures r.Ok? <==> forall i :: 0 <= i < |cols| ==> EdgeOf(t, cols[i]).Ok?
    ensures r.Ok? ==> |r.value| == |cols|
    ensures r.Ok? ==> forall i :: 0 <= i < |cols| ==> r.value[i] == EdgeOf(t, cols[i]).value
    ensures r.Err? ==> exists i :: (0 <= i < |cols| && EdgeOf(t, cols[i]) == Err(r.error)
      && forall j :: 0 <= j < i ==> EdgeOf(t, cols[j]).Ok?)
    decreases |cols|
  {
    if cols == [] then Ok([])
    else
      var e := EdgeOf(t, cols[0]);
      var rest := ColumnEdges(t, cols[1..]);
      Then(if e.Ok? then Ok([e.value]) else Err(e.error), rest)
  }

  function TableEdges(t: Table): Result<seq<Edge>, Failure> {
    ColumnEdges(t, FKColumns(t))
  }

  /** The edge loop of draw_pdf: table by table, each table's FK columns then its PK columns with FK fields. */
  function AllEdges(tables: seq<Table>): Result<seq<Edge>, Failure>
    decreases |tables|
  {
    if tables == [] then Ok([]) else Then(TableEdges(tables[0]), AllEdges(tables[1..]))
  }

  /**
   * Drawing the edges succeeds exactly when every FK column of every table has
   * mapped codes; it then yields one edge per such column, and otherwise the
   * error of one of them.
   */
  lemma {:induction false} AllEdgesSpec(tables: seq<Table>)
    ensures var r := AllEdges(tables);
      && (r.Ok? <==> forall i, c :: 0 <= i < |tables| && c in FKColumns(tables[i]) ==> EdgeOf(tables[i], c).Ok?)
      && (r.Ok? ==> |r.value| == FKColumnCount(tables))
      && (r.Err? ==> exists i, c :: 0 <= i < |tables| && c in FKColumns(tables[i]) && EdgeOf(tables[i], c) == Err(r.error))
    decreases |tables|
  {
    if tables != [] {
      var first := TableEdges(tables[0]);
      AllEdgesSpec(tables[1..]);
      assert forall i :: 1 <= i < |tables| ==> tables[i] == tables[1..][i - 1];
      assert first.Err? ==> exists k :: 0 <= k < |FKColumns(tables[0])| && EdgeOf(tables[0], FKColumns(tables[0])[k]) == Err(first.error);
    }
  }

  /** One node per table, in table order. */
  function Nodes(tables: seq<Table>, level: ERType): (r: seq<Node>)
    ensures |r| == |tables|
    ensures forall i :: 0 <= i < |tables| ==> r[i] == Node(tables[i].name, GetShape(level))
  {
    seq(|tables|, i requires 0 <= i < |tables| => Node(tables[i].name, GetShape(level)))
  }

  /** draw_pdf without the renderer: the graph, or the error of the first edge that fails. */
  function Draw(tables: seq<Table>, level: ERType): (r: Result<Graph, Failure>)
    ensures r.Ok? <==> AllEdges(tables).Ok?
    ensures r.Err? ==> r.error == AllEdges(tables).error
    ensures r.Ok? ==> r.value == Graph(Nodes(tables, level), AllEdges(tables).value)
    ensures r.Ok? ==> |r.value.nodes| == |tables| && |r.value.edges| == FKColumnCount(tables)
  {
    AllEdgesSpec(tables);
    var edges :- AllEdges(tables);
    Ok(Graph(Nodes(tables, level), edges))
  }

  /** Edges are listed table by table: the edges of a concatenation are the concatenated edges. */
  lemma {:induction false} AllEdgesAppend(left: seq<Table>, right: seq<Table>)
    ensures AllEdges(left + right) == Then(AllEdges(left), AllEdges(right))
    decreases |left|
  {
    if left == [] {
      assert left + right == right;
      var r := AllEdges(right);
      assert r.Ok? ==> [] + r.value == r.value;
    } else {
      assert (left + right)[0] == left[0];
      assert (left + right)[1..] == left[1..] + right;
      AllEdgesAppend(left[1..], right);
      ThenAssociative(TableEdges(left[0]), AllEdges(left[1..]), AllEdges(right));
    }
  }

  /** The edges from table `i` on are that table's edges followed by those of the tables after it. */
  lemma EdgesFrom(tables: seq<Table>, i: nat)
    requires i < |tables|
    ensures AllEdges(tables[i..]) == Then(TableEdges(tables[i]), AllEdges(tables[i + 1..]))
  {
    assert tables[i..][0] == tables[i] && tables[i..][1..] == tables[i + 1..];
  }

  lemma ThenOkEmpty(r: Result<seq<Edge>, Failure>)
    ensures Then(Ok([]), r) == r
  {
    assert r.Ok? ==> [] + r.value == r.value;
  }

  lemma ThenAssociative(a: Result<seq<Edge>, Failure>, b: Result<seq<Edge>, Failure>, c: Result<seq<Edge>, Failure>)
    ensures Then(a, Then(b, c)) == Then(Then(a, b), c)
  {
    if a.Ok? && b.Ok? && c.Ok? {
      assert a.value + (b.value + c.value) == (a.value + b.value) + c.value;
    }
  }

  /** Tables built from sheets never make drawing raise AttributeError: any failure is FKErr. */
  lemma BuiltTablesFailOnlyOnCardinality(tables: seq<Table>)
    requires forall t | t in tables :: WellFormed(t)
    ensures AllEdges(tables).Err? ==> AllEdges(tables).error == FKErr
  {
    var r := AllEdges(tables);
    AllEdgesSpec(tables);
    if r.Err? {
      var i, c :| 0 <= i < |tables| && c in FKColumns(tables[i]) && EdgeOf(tables[i], c) == Err(r.error);
      assert tables[i] in tables;
      assert IsFk(c);
    }
  }

  /** A column whose code is outside the table (such as "0") makes the whole drawing fail. */
  lemma UnmappedCodeFailsDrawing(tables: seq<Table>, i: nat, c: Column, level: ERType)
    requires i < |tables| && c in FKColumns(tables[i]) && IsFk(c)
    requires c.fk.value.cardinality !in MappingCardinality || c.fk.value.cardinalityFK !in MappingCardinality
    ensures Draw(tables, level).Err?
  {
    assert EdgeOf(tables[i], c).Err?;
    AllEdgesSpec(tables);
  }
}
