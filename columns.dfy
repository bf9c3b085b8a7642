/**
 * Column metadata: the `name:flag` visibility convention, visibility per
 * diagram level, the `FK <table>[.<column>] <card>:<cardFK>` directive and
 * the cardinality-code to arrow-style table (er_diagram.py, classes Column,
 * ColumnArg, ColumnFK and ColumnPK).
 */
module Columns {
  import opened Outcomes
  import opened Text

  /** The three diagram levels. */
  datatype ERType = Physical | Logical | Conceptual

  datatype HiddenState = Hidden | HiddenInLogical | Visible

  /** The exceptions the core raises. */
  datatype Failure =
    | FKErr          // malformed FK directive or unmapped cardinality code; caught by import and by drawing
    | ValueError     // a column name with more than one ':'; caught nowhere
    | AttributeError // an entry of columnsFK without FK fields; caught nowhere

  /** The fields a parsed FK directive sets on a column. */
  datatype FKRef = FKRef(tablePk: string, columnPk: string, cardinality: string, cardinalityFK: string)

  /**
   * One column. ColumnArg, ColumnFK and ColumnPK are the same shape: `pk`
   * marks a ColumnPK and `fk` holds the directive's fields when one was given.
   */
  datatype Column = Column(
    tableName: string,
    name: string,
    dataType: string,
    hidden: HiddenState,
    pk: bool,
    fk: Option<FKRef>)

  /** Column.__init__: strips a `:flag` suffix from the name and derives visibility from it. */
  function NewColumn(tableName: string, name: string, dataType: string): (r: Result<Column, Failure>)
    ensures r.Ok? ==> r.value.tableName == tableName && r.value.dataType == dataType
    ensures r.Ok? ==> !r.value.pk && r.value.fk.None? && ':' !in r.value.name
  {
    if ':' !in name then
      Ok(Column(tableName, name, dataType, Visible, false, None))
    else
      var parts := Split(name, ":");
      if |parts| != 2 then
        Err(ValueError)
      else
        SplitHeadFree(name, ':');
        var hidden := if Upper(parts[1]) == "H" then Hidden else HiddenInLogical;
        Ok(Column(tableName, parts[0], dataType, hidden, false, None))
  }

  /** Column.is_hidden. */
  predicate IsHidden(c: Column, level: ERType) {
    match level
    case Physical => c.hidden == Hidden
    case Logical => c.hidden == HiddenInLogical || c.hidden == Hidden
    case Conceptual => false
  }

  /**
   * The try block of ColumnFK.__init__: `None` when the directive is empty
   * (no FK fields are set), the fields it sets, or FKErr.
   */
  function ParseFK(name: string, fk: string): (r: Result<Option<FKRef>, Failure>)
    ensures r.Err? ==> r.error == FKErr
  {
    if fk == "" then Ok(None)
    else
      var tokens := Split(fk, " ");
      if |tokens| != 3 then Err(FKErr)
      else
        var ref :- ParseTokens(name, tokens[0], tokens[1], tokens[2]);
        Ok(Some(ref))
  }

  /**
   * The cardinality token: without ':' there are no codes; otherwise the first
   * two ':'-separated parts, lower-cased, are `cardinality` and `cardinalityFK`.
   */
  function Codes(cardinality: string): (r: Option<(string, string)>)
    ensures r.Some? <==> ':' in cardinality
  {
    if ':' !in cardinality then None
    else
      SplitCharCount(cardinality, ':');
      var parts := Split(cardinality, ":");
      Some((Lower(parts[0]), Lower(parts[1])))
  }

  /** The checks and assignments that follow the split of a directive into three tokens. */
  function ParseTokens(name: string, fkKey: string, target: string, cardinality: string): (r: Result<FKRef, Failure>)
    ensures r.Err? ==> r.error == FKErr
  {
    var targetParts := Split(target, ".");
    var codes := Codes(cardinality);
    if '.' in target && |targetParts| != 2 then Err(FKErr)
    else if codes.None? then Err(FKErr)
    else if fkKey != "FK" then Err(FKErr)
    else
      var tablePk := if '.' in target then targetParts[0] else target;
      var columnPk := if '.' in target then targetParts[1] else name;
      Ok(FKRef(tablePk, columnPk, codes.value.0, codes.value.1))
  }

  /** ColumnFK(table_name, name, type, fk). */
  function NewColumnFK(tableName: string, name: string, dataType: string, fk: string): (r: Result<Column, Failure>)
    ensures r.Ok? ==> r.value.tableName == tableName && !r.value.pk
    ensures r.Ok? ==> (IsFk(r.value) <==> fk != "")
  {
    var column :- NewColumn(tableName, name, dataType);
    var ref :- ParseFK(name, fk);
    Ok(column.(fk := ref))
  }

  /** ColumnPK(table_name, name, type, fk). */
  function NewColumnPK(tableName: string, name: string, dataType: string, fk: string): (r: Result<Column, Failure>)
    ensures r.Ok? ==> r.value.tableName == tableName && r.value.pk
    ensures r.Ok? ==> (IsFk(r.value) <==> fk != "")
  {
    var column :- NewColumnFK(tableName, name, dataType, fk);
    Ok(column.(pk := true))
  }

  /** ColumnPK.is_fk: whether the directive set the FK fields. */
  predicate IsFk(c: Column) {
    c.fk.Some?
  }

  /**
   * ColumnFK.__init__ as the source runs it: the fields start at their
   * defaults and are overwritten step by step; any failing step raises.
   */
  method InitColumnFK(tableName: string, name: string, dataType: string, fk: string)
    returns (r: Result<Column, Failure>)
    ensures r == NewColumnFK(tableName, name, dataType, fk)
  {
    var column := NewColumn(tableName, name, dataType);
    if column.Err? {
      return column;
    }
    if fk == "" {
      return column;
    }
    var columnPk := name;
    var tablePk := "";
    var cardinality, cardinalityFK := "0", "0";
    var tokens := Split(fk, " ");
    if |tokens| != 3 {
      return Err(FKErr);
    }
    var fkKey, codes := tokens[0], tokens[2];
    tablePk := tokens[1];
    if '.' in tablePk {
      var parts := Split(tablePk, ".");
      if |parts| != 2 {
        return Err(FKErr);
      }
      tablePk, columnPk := parts[0], parts[1];
    }
    if ':' in codes {
      SplitCharCount(codes, ':');
      cardinality := Lower(Split(codes, ":")[0]);
      cardinalityFK := Lower(Split(codes, ":")[1]);
    } else {
      return Err(FKErr);
    }
    if fkKey != "FK" {
      return Err(FKErr);
    }
    r := Ok(column.value.(fk := Some(FKRef(tablePk, columnPk, cardinality, cardinalityFK))));
  }

  /** ColumnFK.mapping_cardinality. */
  const MappingCardinality: map<string, string> := map[
    "1" := "tee",
    "n" := "crow",
    "11" := "teetee",
    "01" := "teeodot",
    "0n" := "crowodot",
    "1n" := "crowtee"
  ]

  /** The lookup shared by getarrowhead and getarrowtail; a missing code raises FKErr. */
  function ArrowStyle(code: string): (r: Result<string, Failure>)
    ensures r.Ok? <==> code in {"1", "n", "11", "01", "0n", "1n"}
    ensures r.Ok? ==> r.value in {"tee", "crow", "teetee", "teeodot", "crowodot", "crowtee"}
    ensures r.Err? ==> r.error == FKErr
  {
    if code in MappingCardinality then Ok(MappingCardinality[code]) else Err(FKErr)
  }

  /** ColumnFK.getarrowhead: the arrowhead style, looked up from cardinalityFK. */
  function ArrowHead(ref: FKRef): (r: Result<string, Failure>)
    ensures r.Err? <==> ref.cardinalityFK !in MappingCardinality
    ensures r.Ok? ==> CodeOfStyle(r.value) == Some(ref.cardinalityFK)
  {
    ArrowStyleInvertible(ref.cardinalityFK);
    ArrowStyle(ref.cardinalityFK)
  }

  /** ColumnFK.getarrowtail: the arrowtail style, looked up from cardinality. */
  function ArrowTail(ref: FKRef): (r: Result<string, Failure>)
    ensures r.Err? <==> ref.cardinality !in MappingCardinality
    ensures r.Ok? ==> CodeOfStyle(r.value) == Some(ref.cardinality)
  {
    ArrowStyleInvertible(ref.cardinality);
    ArrowStyle(ref.cardinality)
  }

  /** Reads a cardinality code back from the arrow style it maps to. */
  function CodeOfStyle(style: string): Option<string> {
    match style
    case "tee" => Some("1")
    case "crow" => Some("n")
    case "teetee" => Some("11")
    case "teeodot" => Some("01")
    case "crowodot" => Some("0n")
    case "crowtee" => Some("1n")
    case _ => None
  }

  /** The directive that sets exactly the fields of `ref`. */
  function FormatFK(ref: FKRef): string {
    "FK " + ref.tablePk + "." + ref.columnPk + " " + ref.cardinality + ":" + ref.cardinalityFK
  }

  /** The fields a directive written by FormatFK can carry back unchanged. */
  predicate Writable(ref: FKRef) {
    && ' ' !in ref.tablePk && '.' !in ref.tablePk
    && ' ' !in ref.columnPk && '.' !in ref.columnPk
    && ' ' !in ref.cardinality && ':' !in ref.cardinality && Lower(ref.cardinality) == ref.cardinality
    && ' ' !in ref.cardinalityFK && ':' !in ref.cardinalityFK && Lower(ref.cardinalityFK) == ref.cardinalityFK
  }

  // ---------------------------------------------------------------------
  // Name and visibility

  /** A name without ':' is kept as it is and the column is visible. */
  lemma NameWithoutColon(tableName: string, name: string, dataType: string)
    requires ':' !in name
    ensures NewColumn(tableName, name, dataType) == Ok(Column(tableName, name, dataType, Visible, false, None))
  {
  }

  /** A name with one ':' keeps the part before it; the flag h or H hides, any other flag hides in the logical view. */
  lemma {:induction false} NameWithOneColon(tableName: string, base: string, flag: string, dataType: string)
    requires ':' !in base && ':' !in flag
    ensures var hidden := if flag == "h" || flag == "H" then Hidden else HiddenInLogical;
      NewColumn(tableName, base + ":" + flag, dataType) == Ok(Column(tableName, base, dataType, hidden, false, None))
  {
    SplitOnce(base, ':', flag);
    UpperIsH(flag);
  }

  /** A name with two or more ':' makes the tuple unpacking raise ValueError. */
  lemma {:induction false} NameWithManyColons(tableName: string, name: string, dataType: string)
    requires Count(':', name) >= 2
    ensures NewColumn(tableName, name, dataType) == Err(ValueError)
  {
    SplitCharCount(name, ':');
  }

  /** Hidden at the physical level implies hidden at the logical level; the conceptual level hides nothing. */
  lemma HiddenMonotone(c: Column)
    ensures IsHidden(c, Physical) ==> IsHidden(c, Logical)
    ensures !IsHidden(c, Conceptual)
  {
  }

  /** Visibility per level, for each hidden state. */
  lemma HiddenByState(c: Column, level: ERType)
    ensures c.hidden == Visible ==> !IsHidden(c, level)
    ensures c.hidden == Hidden ==> (IsHidden(c, level) <==> level != Conceptual)
    ensures c.hidden == HiddenInLogical ==> (IsHidden(c, level) <==> level == Logical)
  {
  }

  // ---------------------------------------------------------------------
  // FK directive

  /** An empty directive sets no FK fields. */
  lemma EmptyDirective(name: string)
    ensures ParseFK(name, "") == Ok(None)
  {
  }

  /** Parsing what FormatFK writes gives the fields back. */
  lemma {:induction false} ParseFormatRoundTrip(name: string, ref: FKRef)
    requires Writable(ref)
    ensures ParseFK(name, FormatFK(ref)) == Ok(Some(ref))
  {
    QualifiedTarget(name, ref.tablePk, ref.columnPk, ref.cardinality, ref.cardinalityFK);
  }

  /** With a '.', the target gives the referenced table and column, and the two codes are lower-cased. */
  lemma {:induction false} QualifiedTarget(name: string, table: string, col: string, card: string, cardFK: string)
    requires ' ' !in table && '.' !in table && ' ' !in col && '.' !in col
    requires ' ' !in card && ':' !in card && ' ' !in cardFK && ':' !in cardFK
    ensures ParseFK(name, "FK " + table + "." + col + " " + card + ":" + cardFK)
         == Ok(Some(FKRef(table, col, Lower(card), Lower(cardFK))))
  {
    var target := table + "." + col;
    var codes := card + ":" + cardFK;
    assert "FK " + table + "." + col + " " + card + ":" + cardFK == "FK" + " " + target + " " + codes;
    SplitThree("FK", ' ', target, codes);
    SplitOnce(table, '.', col);
    CodesOfPair(card, cardFK);
  }

  /** Without a '.', the referenced column is the raw name argument, ':flag' suffix included. */
  lemma {:induction false} UnqualifiedTarget(name: string, table: string, card: string, cardFK: string)
    requires ' ' !in table && '.' !in table
    requires ' ' !in card && ':' !in card && ' ' !in cardFK && ':' !in cardFK
    ensures ParseFK(name, "FK " + table + " " + card + ":" + cardFK)
         == Ok(Some(FKRef(table, name, Lower(card), Lower(cardFK))))
  {
    var codes := card + ":" + cardFK;
    assert "FK " + table + " " + card + ":" + cardFK == "FK" + " " + table + " " + codes;
    SplitThree("FK", ' ', table, codes);
    CodesOfPair(card, cardFK);
  }

  /** Parts after the second ':' of the cardinality token are ignored. */
  lemma {:induction false} ExtraCardinalityPartsIgnored(name: string, kw: string, target: string, card: string, cardFK: string, extra: string)
    requires ' ' !in kw && ' ' !in target
    requires ' ' !in card && ':' !in card && ' ' !in cardFK && ':' !in cardFK && ' ' !in extra
    ensures ParseFK(name, kw + " " + target + " " + card + ":" + cardFK + ":" + extra)
         == ParseFK(name, kw + " " + target + " " + card + ":" + cardFK)
  {
    var short := card + ":" + cardFK;
    var long := short + ":" + extra;
    assert kw + " " + target + " " + card + ":" + cardFK + ":" + extra == kw + " " + target + " " + long;
    assert kw + " " + target + " " + card + ":" + cardFK == kw + " " + target + " " + short;
    assert ' ' !in short && ' ' !in long;
    SplitThree(kw, ' ', target, long);
    SplitThree(kw, ' ', target, short);
    CodesIgnoreExtraParts(card, cardFK, extra);
    TokensByCodes(name, kw, target, long, short);
  }

  /** The cardinality token matters to the parse only through its codes. */
  lemma TokensByCodes(name: string, kw: string, target: string, cardinality: string, other: string)
    requires Codes(cardinality) == Codes(other)
    ensures ParseTokens(name, kw, target, cardinality) == ParseTokens(name, kw, target, other)
  {
  }

  /** `card:cardFK` gives the two codes, lower-cased. */
  lemma CodesOfPair(card: string, cardFK: string)
    requires ':' !in card && ':' !in cardFK
    ensures Codes(card + ":" + cardFK) == Some((Lower(card), Lower(cardFK)))
  {
    var s := card + ":" + cardFK;
    assert s[|card|] == ':';
    SplitOnce(card, ':', cardFK);
  }

  /** `card:cardFK:extra` gives the same two codes: later parts are dropped. */
  lemma CodesOfTriple(card: string, cardFK: string, extra: string)
    requires ':' !in card && ':' !in cardFK
    ensures Codes(card + ":" + cardFK + ":" + extra) == Some((Lower(card), Lower(cardFK)))
  {
    var s := card + ":" + cardFK + ":" + extra;
    assert s[|card|] == ':';
    SplitThreeHead(card, ':', cardFK, extra);
  }

  /** Parts after the second ':' of a cardinality token do not change the codes. */
  lemma CodesIgnoreExtraParts(card: string, cardFK: string, extra: string)
    requires ':' !in card && ':' !in cardFK
    ensures Codes(card + ":" + cardFK + ":" + extra) == Codes(card + ":" + cardFK)
  {
    CodesOfPair(card, cardFK);
    CodesOfTriple(card, cardFK, extra);
  }

  /** A non-empty directive that does not split into three space-separated tokens raises FKErr. */
  lemma {:induction false} WrongTokenCount(name: string, fk: string)
    requires fk != "" && Count(' ', fk) != 2
    ensures ParseFK(name, fk) == Err(FKErr)
  {
    SplitCharCount(fk, ' ');
  }

  /**
   * Of three tokens, the directive is refused exactly when the keyword is not
   * `FK`, the target has more than one '.', or the cardinality token has no ':'.
   */
  lemma {:induction false} ThreeTokens(name: string, kw: string, target: string, card: string)
    requires ' ' !in kw && ' ' !in target && ' ' !in card
    ensures ParseFK(name, kw + " " + target + " " + card).Err?
        <==> kw != "FK" || Count('.', target) >= 2 || ':' !in card
  {
    SplitThree(kw, ' ', target, card);
    SplitCharCount(target, '.');
  }

  // ---------------------------------------------------------------------
  // Cardinality table

  /** The code "0", the default before parsing, is not in the table. */
  lemma ZeroIsUnmapped()
    ensures ArrowStyle("0") == Err(FKErr)
  {
  }

  /** Every mapped code can be read back from its style: no two codes share a style. */
  lemma ArrowStyleInvertible(code: string)
    ensures ArrowStyle(code).Ok? ==> CodeOfStyle(ArrowStyle(code).value) == Some(code)
  {
  }
}
