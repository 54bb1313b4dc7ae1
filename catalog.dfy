/** What the PostgreSQL catalog answers to the queries the services send:
    information_schema.columns, pg_tables and pg_matviews, and the SQL text
    the catalog queries assemble from them (duplicate_db_service.py and
    show_view_definition in postgres_db_service.py). */
module Catalog {
  import opened Results
  import opened SqlText
  import opened Postgres

  /** One row of information_schema.columns. `position` is its
      ordinal_position, which keeps its gaps after a column is dropped. */
  datatype ColumnInfo = ColumnInfo(
    position: nat,
    name: string,
    dataType: string,
    charMaxLength: Option<nat>,
    numericPrecision: Option<nat>,
    numericScale: Option<nat>,
    isNullable: string,
    columnDefault: Option<string>)

  /** One row of pg_matviews (its definition) with the columns that the
      definition produces. */
  datatype MatView = MatView(definition: string, columns: seq<ColumnInfo>)

  /** The part of a database's catalog the services read. `columns` lists
      each relation's columns in ordinal_position order, the order of the
      catalog queries' ORDER BY. */
  datatype CatalogState = CatalogState(
    columns: map<(string, string), seq<ColumnInfo>>,
    tables: set<(string, string)>,
    matviews: map<(string, string), MatView>)

  function ColumnsOf(cat: CatalogState, schema: string, name: string): seq<ColumnInfo> {
    if (schema, name) in cat.columns then cat.columns[(schema, name)] else []
  }

  // ---------------------------------------------------------------------
  // CREATE statements assembled by the catalog queries
  // ---------------------------------------------------------------------

  function EndsWith(s: string, suffix: string): bool {
    |suffix| <= |s| && s[|s| - |suffix|..] == suffix
  }

  /** One column of the string_agg: name, type, "(n)" for a character
      length, " NOT NULL" for a column that is not nullable. */
  function ColumnClause(c: ColumnInfo): (r: string)
    ensures |r| >= |c.name| + 1 + |c.dataType|
    ensures r[..|c.name| + 1 + |c.dataType|] == c.name + " " + c.dataType
    ensures c.isNullable == "NO" ==> EndsWith(r, " NOT NULL")
    ensures c.isNullable != "NO" && c.charMaxLength.None? ==> r == c.name + " " + c.dataType
  {
    var typed := c.name + " " + c.dataType
      + (if c.charMaxLength.Some? then "(" + NatToString(c.charMaxLength.value) + ")" else "");
    var r := typed + (if c.isNullable == "NO" then " NOT NULL" else "");
    assert r[..|typed|] == typed;
    assert typed[..|c.name| + 1 + |c.dataType|] == c.name + " " + c.dataType;
    r
  }

  /** The clause of a column reads back: it ends in " NOT NULL" exactly
      when the column is not nullable, and what follows the name and type is
      the character length in parentheses, or nothing. This needs the name
      and type not to end in " NOT NULL" themselves; otherwise the
      suffix is ambiguous. */
  lemma {:induction false} ColumnClauseReadBack(c: ColumnInfo)
    requires !EndsWith(c.name + " " + c.dataType, " NOT NULL")
    ensures EndsWith(ColumnClause(c), " NOT NULL") <==> c.isNullable == "NO"
    ensures var r := ColumnClause(c);
      var typed := if EndsWith(r, " NOT NULL") then r[..|r| - 9] else r;
      |c.name| + 1 + |c.dataType| <= |typed| &&
      ModifierOf(typed[|c.name| + 1 + |c.dataType|..]) == Some(if c.charMaxLength.Some? then [c.charMaxLength.value] else [])
  {
    var head := c.name + " " + c.dataType;
    var m := if c.charMaxLength.Some? then "(" + NatToString(c.charMaxLength.value) + ")" else "";
    var typed := head + m;
    var r := ColumnClause(c);
    assert r == typed + (if c.isNullable == "NO" then " NOT NULL" else "");
    if c.isNullable == "NO" {
      assert r[..|r| - 9] == typed;
      assert r[|r| - 9..] == " NOT NULL";
    } else if m != "" {
      assert r[|r| - 1] == ')';
    }
    assert (if EndsWith(r, " NOT NULL") then r[..|r| - 9] else r) == typed;
    assert typed[|head|..] == m;
    if c.charMaxLength.Some? {
      OneNumber(c.charMaxLength.value);
    }
  }

  function Clauses(cols: seq<ColumnInfo>): (r: seq<string>)
    ensures |r| == |cols|
    ensures forall i :: 0 <= i < |cols| ==> r[i] == ColumnClause(cols[i])
  {
    seq(|cols|, i requires 0 <= i < |cols| => ColumnClause(cols[i]))
  }

  /** The create_statement the CREATE TABLE catalog query yields. */
  function CreateTableText(schema: string, name: string, cols: seq<ColumnInfo>): string {
    "CREATE TABLE " + schema + "." + name + " (" + Join(Clauses(cols), ", ") + ");"
  }

  /** The create_statement the pg_matviews query yields. */
  function MatViewCreateText(schema: string, view: string, definition: string): string {
    "CREATE MATERIALIZED VIEW " + schema + "." + view + " AS " + definition + ";"
  }

  // ---------------------------------------------------------------------
  // full_data_type of show_view_definition
  // ---------------------------------------------------------------------

  /** The CASE of show_view_definition: a character length first, then
      precision with scale, then precision alone, else the bare type. */
  function FullDataType(c: ColumnInfo): (r: string)
    ensures |r| >= |c.dataType| && r[..|c.dataType|] == c.dataType
    ensures |r| > |c.dataType| <==> c.charMaxLength.Some? || c.numericPrecision.Some?
  {
    var dt := c.dataType;
    var r :=
      if c.charMaxLength.Some? then dt + "(" + NatToString(c.charMaxLength.value) + ")"
      else if c.numericPrecision.Some? && c.numericScale.Some? then
        dt + "(" + NatToString(c.numericPrecision.value) + "," + NatToString(c.numericScale.value) + ")"
      else if c.numericPrecision.Some? then dt + "(" + NatToString(c.numericPrecision.value) + ")"
      else dt;
    assert r[..|dt|] == dt;
    r
  }

  /** The numbers a column's full type shows: the length when there is one,
      otherwise precision and scale, or precision alone; a scale without a
      precision is never shown. */
  function Modifier(c: ColumnInfo): seq<nat> {
    match (c.charMaxLength, c.numericPrecision, c.numericScale)
    case (Some(n), _, _) => [n]
    case (None, Some(p), Some(s)) => [p, s]
    case (None, Some(p), None) => [p]
    case (None, None, _) => []
  }

  /** The first position of `ch` in `s`. */
  function IndexOf(s: string, ch: char): (r: Option<nat>)
    ensures r.Some? ==> r.value < |s| && s[r.value] == ch
    ensures r.Some? ==> forall k :: 0 <= k < r.value ==> s[k] != ch
    ensures r.None? ==> forall k :: 0 <= k < |s| ==> s[k] != ch
  {
    if s == [] then None
    else if s[0] == ch then Some(0)
    else
      match IndexOf(s[1..], ch)
      case None => None
      case Some(k) => Some(k + 1)
  }

  /** Reads back the parenthesised numbers after a type name: "", "(n)" or
      "(p,s)"; None for any other text. */
  function ModifierOf(t: string): Option<seq<nat>> {
    if t == [] then Some([])
    else if |t| < 3 || t[0] != '(' || t[|t| - 1] != ')' then None
    else
      var inner := t[1..|t| - 1];
      match IndexOf(inner, ',')
      case None => if AllDigits(inner) then Some([ParseNat(inner)]) else None
      case Some(k) =>
        var a := inner[..k];
        var b := inner[k + 1..];
        if a != [] && b != [] && AllDigits(a) && AllDigits(b) then Some([ParseNat(a), ParseNat(b)]) else None
  }

  lemma IndexOfAfterDigits(a: string, b: string)
    requires AllDigits(a)
    ensures IndexOf(a + [','] + b, ',') == Some(|a|)
    ensures IndexOf(a, ',') == None
  {
    var s := a + [','] + b;
    assert s[|a|] == ',';
    assert forall k :: 0 <= k < |a| ==> s[k] == a[k] && IsDigit(a[k]);
  }

  lemma OneNumber(n: nat)
    ensures ModifierOf("(" + NatToString(n) + ")") == Some([n])
  {
    var d := NatToString(n);
    var t := "(" + d + ")";
    assert t[1..|t| - 1] == d;
    IndexOfAfterDigits(d, "");
    ParseNatToString(n);
  }

  lemma TwoDigitRuns(a: string, b: string)
    requires a != [] && b != [] && AllDigits(a) && AllDigits(b)
    ensures ModifierOf("(" + a + "," + b + ")") == Some([ParseNat(a), ParseNat(b)])
  {
    var t := "(" + a + "," + b + ")";
    var inner := a + [','] + b;
    assert t[1..|t| - 1] == inner;
    IndexOfAfterDigits(a, b);
    assert inner[..|a|] == a;
    assert inner[|a| + 1..] == b;
  }

  lemma TwoNumbers(p: nat, s: nat)
    ensures ModifierOf("(" + NatToString(p) + "," + NatToString(s) + ")") == Some([p, s])
  {
    TwoDigitRuns(NatToString(p), NatToString(s));
    ParseNatToString(p);
    ParseNatToString(s);
  }

  /** full_data_type is unambiguous: after the type name, the text holds
      exactly the numbers Modifier picks, and they can be read back. */
  lemma FullDataTypeRoundTrip(c: ColumnInfo)
    ensures ModifierOf(FullDataType(c)[|c.dataType|..]) == Some(Modifier(c))
  {
    var dt := c.dataType;
    var r := FullDataType(c);
    if c.charMaxLength.Some? {
      assert r[|dt|..] == "(" + NatToString(c.charMaxLength.value) + ")";
      OneNumber(c.charMaxLength.value);
    } else if c.numericPrecision.Some? && c.numericScale.Some? {
      assert r[|dt|..] == "(" + NatToString(c.numericPrecision.value) + "," + NatToString(c.numericScale.value) + ")";
      TwoNumbers(c.numericPrecision.value, c.numericScale.value);
    } else if c.numericPrecision.Some? {
      assert r[|dt|..] == "(" + NatToString(c.numericPrecision.value) + ")";
      OneNumber(c.numericPrecision.value);
    } else {
      assert r[|dt|..] == [];
    }
  }

  // ---------------------------------------------------------------------
  // The catalog's answers
  // ---------------------------------------------------------------------

  /** One row of the show_view_definition query. */
  function DescriptionRow(c: ColumnInfo): Row {
    [("column_name", Text(c.name)),
     ("data_type", Text(c.dataType)),
     ("full_data_type", Text(FullDataType(c))),
     ("is_nullable", Text(c.isNullable)),
     ("column_default", if c.columnDefault.Some? then Text(c.columnDefault.value) else Null),
     ("ordinal_position", Int(c.position))]
  }

  function SingleValue(key: string, value: string): Fetched {
    Rows([[(key, Text(value))]])
  }

  /** What the catalog answers to each catalog request. A GROUP BY over no
      columns yields no row, so a relation without columns is "not found".
      The probe view over a materialized view has the view's columns. */
  function Answer(cat: CatalogState, request: Request): Fetched
    requires !request.Sql?
  {
    match request
    case TableDefinition(schema, table) =>
      var cols := if (schema, table) in cat.tables then ColumnsOf(cat, schema, table) else [];
      if cols == [] then Rows([]) else SingleValue("create_statement", CreateTableText(schema, table, cols))
    case MatViewCreateStatement(schema, view) =>
      if (schema, view) in cat.matviews
      then SingleValue("create_statement", MatViewCreateText(schema, view, cat.matviews[(schema, view)].definition))
      else Rows([])
    case MatViewDefinition(schema, view) =>
      if (schema, view) in cat.matviews
      then SingleValue("definition", cat.matviews[(schema, view)].definition)
      else Rows([])
    case ProbeTableDefinition(schema, view) =>
      if (schema, view) in cat.matviews && cat.matviews[(schema, view)].columns != []
      then SingleValue("create_statement", CreateTableText(schema, view, cat.matviews[(schema, view)].columns))
      else Rows([])
    case ColumnDescriptions(schema, name) =>
      var cols := ColumnsOf(cat, schema, name);
      Rows(seq(|cols|, i requires 0 <= i < |cols| => DescriptionRow(cols[i])))
  }

  /** The driver answers every catalog request from `cat`. */
  ghost predicate Serves(fetch: Request -> Fetched, cat: CatalogState) {
    forall request: Request :: !request.Sql? ==> fetch(request) == Answer(cat, request)
  }

  /** show_view_definition over a catalog: one row per column in ordinal
      order, holding the column's name, its full type, its default ("None"
      when it has none) and its ordinal_position, all as text. */
  lemma ShowViewDefinitionFromCatalog(cat: CatalogState, fetch: Request -> Fetched, schema: string, name: string, i: nat)
    requires Serves(fetch, cat)
    requires i < |ColumnsOf(cat, schema, name)|
    ensures var answer := QueryResult(fetch(ColumnDescriptions(schema, name)));
      var c := ColumnsOf(cat, schema, name)[i];
      answer.Some? && |answer.value| == |ColumnsOf(cat, schema, name)| &&
      |answer.value[i]| == 6 &&
      answer.value[i][0] == ("column_name", Text(c.name)) &&
      answer.value[i][1] == ("data_type", Text(c.dataType)) &&
      answer.value[i][2] == ("full_data_type", Text(FullDataType(c))) &&
      answer.value[i][3] == ("is_nullable", Text(c.isNullable)) &&
      answer.value[i][4] == ("column_default", Text(if c.columnDefault.Some? then c.columnDefault.value else "None")) &&
      answer.value[i][5] == ("ordinal_position", Text(IntToString(c.position)))
  {
    var request := ColumnDescriptions(schema, name);
    assert fetch(request) == Answer(cat, request);
    var cols := ColumnsOf(cat, schema, name);
    assert QueryResult(fetch(request)).value[i] == StringifyRow(DescriptionRow(cols[i]));
  }
}
