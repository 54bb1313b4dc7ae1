/** The duplication service (fabric_sql/services/duplicate_db_service.py):
    copies tables, and materialized views as plain tables, from a source
    database to a target one, entry by entry of a configuration list.

    Each operation is specified by a function that gives the calls it makes
    on each database and the exception it ends with (a Step for the
    statement generators, an Effect for the copies); the methods below
    perform the operation against Database objects and are proved to make
    exactly those calls. */
module Duplicate {
  import opened Results
  import opened SqlText
  import opened Postgres
  import opened Catalog

  /** One entry of the configuration (DuplicateDBServiceConfig). */
  datatype DuplicateConfig = DuplicateConfig(dbSchema: string, tblView: string, isView: bool)

  /** An entry with the default is_view=False. */
  function TableEntry(dbSchema: string, tblView: string): (cfg: DuplicateConfig)
    ensures !cfg.isView && cfg.dbSchema == dbSchema && cfg.tblView == tblView
  {
    DuplicateConfig(dbSchema, tblView, false)
  }

  // ---------------------------------------------------------------------
  // Statements and messages
  // ---------------------------------------------------------------------

  /** The name of the temporary view used to read a materialized view's
      columns. */
  function ProbeName(view: string): string {
    "temp_analysis_" + view
  }

  /** The indentation the probe-view statement carries inside its triple-quoted text. */
  const Indent: string := "                "

  function ProbeCreate(schema: string, view: string, definition: string): string {
    "\n" + Indent + "CREATE OR REPLACE VIEW " + schema + "." + ProbeName(view) + " AS " + definition + ";\n" + Indent
  }

  function ProbeDrop(schema: string, view: string): string {
    "DROP VIEW IF EXISTS " + schema + "." + ProbeName(view) + ";"
  }

  function DropTable(schema: string, table: string): string {
    "DROP TABLE IF EXISTS " + schema + "." + table + ";"
  }

  function DropMatView(schema: string, view: string): string {
    "DROP MATERIALIZED VIEW IF EXISTS " + schema + "." + view + ";"
  }

  function RefreshMatView(schema: string, view: string): string {
    "REFRESH MATERIALIZED VIEW " + schema + "." + view + ";"
  }

  function SelectAll(schema: string, table: string): string {
    "SELECT * FROM " + schema + "." + table + ";"
  }

  function TableNotFound(schema: string, table: string): string {
    "Table " + schema + "." + table + " not found in source database"
  }

  function MatViewNotFound(schema: string, view: string): string {
    "Materialized view " + schema + "." + view + " not found in source database"
  }

  function AnalysisFailed(schema: string, view: string): string {
    "Could not analyze structure of materialized view " + schema + "." + view
  }

  /** `result[0][key]` after `if not result: raise ValueError(notFound)`:
      no answer or no row raises the ValueError, a first row without the key
      raises KeyError, otherwise the value (as text). */
  function FirstValue(answer: Option<seq<Row>>, key: string, notFound: string): (r: Result<string, Error>)
    ensures (answer.None? || answer.value == []) <==> r == Err(ValueError(notFound))
    ensures answer.Some? && answer.value != [] ==> (r.Ok? <==> key in Keys(answer.value[0]))
    ensures r.Err? && r.error.KeyError? ==> r.error.key == key
    ensures r.Ok? ==> Lookup(answer.value[0], key).Some? && r.value == ToText(Lookup(answer.value[0], key).value)
  {
    if answer.None? || answer.value == [] then Err(ValueError(notFound))
    else
      match Lookup(answer.value[0], key)
      case None => Err(KeyError(key))
      case Some(v) => Ok(ToText(v))
  }

  /** A single-row, single-column answer yields its one value. */
  lemma FirstValueSingle(key: string, value: string, notFound: string)
    ensures FirstValue(QueryResult(SingleValue(key, value)), key, notFound) == Ok(value)
  {
    assert QueryResult(SingleValue(key, value)).value[0] == [(key, Text(value))];
  }

  // ---------------------------------------------------------------------
  // The statement generators, as Steps on the source database
  // ---------------------------------------------------------------------

  /** The calls one generator makes on the source, and what it returns or raises. */
  datatype Step = Step(calls: seq<Call>, result: Result<string, Error>)

  /** generate_create_table_statement */
  function TableStatementStep(fetch: Request -> Fetched, schema: string, table: string): Step {
    var request := TableDefinition(schema, table);
    Step([Ask(request)], FirstValue(QueryResult(fetch(request)), "create_statement", TableNotFound(schema, table)))
  }

  /** generate_create_materialized_view_statement */
  function MatViewStatementStep(fetch: Request -> Fetched, schema: string, view: string): Step {
    var request := MatViewCreateStatement(schema, view);
    Step([Ask(request)], FirstValue(QueryResult(fetch(request)), "create_statement", MatViewNotFound(schema, view)))
  }

  /** generate_create_table_from_materialized_view_statement: read the view's
      definition; then create the probe view over it, read the probe's
      columns as a CREATE TABLE, and drop the probe whatever that read gave. */
  function ProbeStep(fetch: Request -> Fetched, schema: string, view: string): Step {
    var definitionRequest := MatViewDefinition(schema, view);
    match FirstValue(QueryResult(fetch(definitionRequest)), "definition", MatViewNotFound(schema, view))
    case Err(e) => Step([Ask(definitionRequest)], Err(e))
    case Ok(definition) =>
      Step([Ask(definitionRequest)] + ProbeCalls(schema, view, definition), ProbeResult(fetch, schema, view))
  }

  /** What the generator issues once the definition is known: create the
      probe, read its columns, drop it. */
  function ProbeCalls(schema: string, view: string, definition: string): seq<Call> {
    [Run(ProbeCreate(schema, view, definition)), Ask(ProbeTableDefinition(schema, view)), Run(ProbeDrop(schema, view))]
  }

  /** The CREATE TABLE read from the probe's columns. */
  function ProbeResult(fetch: Request -> Fetched, schema: string, view: string): Result<string, Error> {
    FirstValue(QueryResult(fetch(ProbeTableDefinition(schema, view))), "create_statement", AnalysisFailed(schema, view))
  }

  /** Over a catalog, the CREATE TABLE statement is the one assembled from the
      table's columns; a relation that is not a table in pg_tables, or has no
      columns, is "not found". */
  lemma TableStatementFromCatalog(cat: CatalogState, fetch: Request -> Fetched, schema: string, table: string)
    requires Serves(fetch, cat)
    ensures var cols := if (schema, table) in cat.tables then ColumnsOf(cat, schema, table) else [];
      TableStatementStep(fetch, schema, table).result ==
        if cols == [] then Err(ValueError(TableNotFound(schema, table))) else Ok(CreateTableText(schema, table, cols))
  {
    var request := TableDefinition(schema, table);
    assert fetch(request) == Answer(cat, request);
    var cols := if (schema, table) in cat.tables then ColumnsOf(cat, schema, table) else [];
    if cols != [] {
      FirstValueSingle("create_statement", CreateTableText(schema, table, cols), TableNotFound(schema, table));
    }
  }

  /** Over a catalog, the materialized view's statement is its pg_matviews
      definition wrapped in CREATE MATERIALIZED VIEW, or "not found". */
  lemma MatViewStatementFromCatalog(cat: CatalogState, fetch: Request -> Fetched, schema: string, view: string)
    requires Serves(fetch, cat)
    ensures MatViewStatementStep(fetch, schema, view).result ==
      if (schema, view) in cat.matviews
      then Ok(MatViewCreateText(schema, view, cat.matviews[(schema, view)].definition))
      else Err(ValueError(MatViewNotFound(schema, view)))
  {
    var request := MatViewCreateStatement(schema, view);
    assert fetch(request) == Answer(cat, request);
    if (schema, view) in cat.matviews {
      FirstValueSingle("create_statement", MatViewCreateText(schema, view, cat.matviews[(schema, view)].definition), MatViewNotFound(schema, view));
    }
  }

  /** Over a catalog, the probe yields a CREATE TABLE named after the
      materialized view itself, with the view's columns. */
  lemma ProbeFromCatalog(cat: CatalogState, fetch: Request -> Fetched, schema: string, view: string)
    requires Serves(fetch, cat)
    ensures ProbeStep(fetch, schema, view).result ==
      if (schema, view) !in cat.matviews then Err(ValueError(MatViewNotFound(schema, view)))
      else if cat.matviews[(schema, view)].columns == [] then Err(ValueError(AnalysisFailed(schema, view)))
      else Ok(CreateTableText(schema, view, cat.matviews[(schema, view)].columns))
  {
    var definitionRequest := MatViewDefinition(schema, view);
    var probeRequest := ProbeTableDefinition(schema, view);
    assert fetch(definitionRequest) == Answer(cat, definitionRequest);
    if (schema, view) in cat.matviews {
      var mv := cat.matviews[(schema, view)];
      FirstValueSingle("definition", mv.definition, MatViewNotFound(schema, view));
      ProbeAnalysis(fetch, schema, view, mv.definition);
      assert fetch(probeRequest) == Answer(cat, probeRequest);
      if mv.columns != [] {
        FirstValueSingle("create_statement", CreateTableText(schema, view, mv.columns), AnalysisFailed(schema, view));
      }
    }
  }

  /** Once the definition is read, the probe's result is what the analysis
      query gives. */
  lemma ProbeAnalysis(fetch: Request -> Fetched, schema: string, view: string, definition: string)
    requires FirstValue(QueryResult(fetch(MatViewDefinition(schema, view))), "definition", MatViewNotFound(schema, view)) == Ok(definition)
    ensures ProbeStep(fetch, schema, view).result ==
      FirstValue(QueryResult(fetch(ProbeTableDefinition(schema, view))), "create_statement", AnalysisFailed(schema, view))
  {
  }

  /** Over a catalog, the probe view is created from the materialized view's
      own definition. */
  lemma ProbeCreatedFromDefinition(cat: CatalogState, fetch: Request -> Fetched, schema: string, view: string)
    requires Serves(fetch, cat)
    requires (schema, view) in cat.matviews
    ensures |ProbeStep(fetch, schema, view).calls| == 4
    ensures ProbeStep(fetch, schema, view).calls[1] == Run(ProbeCreate(schema, view, cat.matviews[(schema, view)].definition))
  {
    var definitionRequest := MatViewDefinition(schema, view);
    assert fetch(definitionRequest) == Answer(cat, definitionRequest);
    FirstValueSingle("definition", cat.matviews[(schema, view)].definition, MatViewNotFound(schema, view));
  }

  /** The probe is cleaned up: either nothing is executed on the source (the
      definition could not be read), or exactly the probe's creation and,
      last of all, its drop, whatever the analysis then returns or raises. */
  lemma ProbeCleanup(fetch: Request -> Fetched, schema: string, view: string)
    ensures var step := ProbeStep(fetch, schema, view);
      var definition := FirstValue(QueryResult(fetch(MatViewDefinition(schema, view))), "definition", MatViewNotFound(schema, view));
      (definition.Err? <==> forall i :: 0 <= i < |step.calls| ==> step.calls[i].Ask?) &&
      (definition.Err? ==> step.result == definition) &&
      (definition.Ok? ==> (|step.calls| == 4 && step.calls[1] == Run(ProbeCreate(schema, view, definition.value)) &&
        step.calls[3] == Run(ProbeDrop(schema, view)) && step.calls[0].Ask? && step.calls[2].Ask?))
  {
    var step := ProbeStep(fetch, schema, view);
    if step.calls != [Ask(MatViewDefinition(schema, view))] {
      assert !step.calls[1].Ask?;
    }
  }

  /** The source's own test: a definition and a column analysis that are both
      found give the analysed statement, after two queries and two executes. */
  lemma ProbeFound(fetch: Request -> Fetched, schema: string, view: string, definition: string, statement: string)
    requires fetch(MatViewDefinition(schema, view)) == SingleValue("definition", definition)
    requires fetch(ProbeTableDefinition(schema, view)) == SingleValue("create_statement", statement)
    ensures ProbeStep(fetch, schema, view) == Step(
      [Ask(MatViewDefinition(schema, view)), Run(ProbeCreate(schema, view, definition)),
       Ask(ProbeTableDefinition(schema, view)), Run(ProbeDrop(schema, view))],
      Ok(statement))
  {
    FirstValueSingle("definition", definition, MatViewNotFound(schema, view));
    FirstValueSingle("create_statement", statement, AnalysisFailed(schema, view));
  }

  // ---------------------------------------------------------------------
  // Copying rows (copy_table_data)
  // ---------------------------------------------------------------------


  /** The INSERTs executed for `rows`, in row order, and how the copy ends:
      the first row that cannot be rendered raises, and no later row is
      inserted. */
  datatype Plan = Plan(statements: seq<string>, status: Result<(), Error>)

  function InsertPlan(schema: string, table: string, columns: seq<string>, rows: seq<Row>): Plan
    decreases |rows|
  {
    if rows == [] then Plan([], Ok(()))
    else
      var done := InsertPlan(schema, table, columns, rows[..|rows| - 1]);
      if done.status.Err? then done
      else
        match InsertStatement(schema, table, columns, rows[|rows| - 1])
        case Err(e) => Plan(done.statements, Err(e))
        case Ok(insert) => Plan(done.statements + [insert], Ok(()))
  }

  /** The plan inserts a prefix of the rows, each with its own INSERT; it
      ends in an error exactly when some row cannot be rendered, and then the
      error is that of the first such row, the one right after the prefix. */
  lemma {:induction false} InsertPlanPrefix(schema: string, table: string, columns: seq<string>, rows: seq<Row>)
    ensures var plan := InsertPlan(schema, table, columns, rows);
      |plan.statements| <= |rows| &&
      (forall i :: 0 <= i < |plan.statements| ==> InsertStatement(schema, table, columns, rows[i]) == Ok(plan.statements[i])) &&
      (plan.status.Ok? ==> |plan.statements| == |rows|) &&
      (plan.status.Err? ==> (|plan.statements| < |rows| &&
        InsertStatement(schema, table, columns, rows[|plan.statements|]) == Err(plan.status.error)))
    decreases |rows|
  {
    if rows != [] {
      var init := rows[..|rows| - 1];
      InsertPlanPrefix(schema, table, columns, init);
      assert forall i :: 0 <= i < |init| ==> init[i] == rows[i];
    }
  }

  /** All rows are inserted, in order, iff every row has every column. */
  lemma InsertPlanComplete(schema: string, table: string, columns: seq<string>, rows: seq<Row>)
    ensures var plan := InsertPlan(schema, table, columns, rows);
      (plan.status.Ok? <==> forall i :: 0 <= i < |rows| ==> InsertStatement(schema, table, columns, rows[i]).Ok?) &&
      (plan.status.Ok? ==> (|plan.statements| == |rows| &&
        forall i :: 0 <= i < |rows| ==> plan.statements[i] == InsertStatement(schema, table, columns, rows[i]).value))
  {
    InsertPlanPrefix(schema, table, columns, rows);
  }

  /** Once a prefix of the rows fails, the plan for all rows is that prefix's. */
  lemma {:induction false} InsertPlanStops(schema: string, table: string, columns: seq<string>, rows: seq<Row>, k: nat)
    requires k <= |rows| && InsertPlan(schema, table, columns, rows[..k]).status.Err?
    ensures InsertPlan(schema, table, columns, rows) == InsertPlan(schema, table, columns, rows[..k])
    decreases |rows|
  {
    if k < |rows| {
      var init := rows[..|rows| - 1];
      assert init[..k] == rows[..k];
      InsertPlanStops(schema, table, columns, init, k);
    } else {
      assert rows[..k] == rows;
    }
  }

  /** The calls an operation makes on each database, whether it touches the
      target at all (and so leaves the target's pool closed), and how it ends. */
  datatype Effect = Effect(onSource: seq<Call>, onTarget: seq<Call>, targetUsed: bool, status: Result<(), Error>)

  const Nothing: Effect := Effect([], [], false, Ok(()))

  /** `first`, then `next` unless `first` raised. */
  function Then(first: Effect, next: Effect): Effect {
    if first.status.Err? then first
    else Effect(first.onSource + next.onSource, first.onTarget + next.onTarget,
                first.targetUsed || next.targetUsed, next.status)
  }

  /** copy_table_data: select every row of the source relation; with rows,
      insert each into the target under the first row's columns. The target
      is entered even when there is nothing to insert. */
  function CopyEffect(fetch: Request -> Fetched, schema: string, table: string): Effect {
    var request := Sql(SelectAll(schema, table));
    var data := QueryResult(fetch(request));
    if data.None? || data.value == [] then Effect([Ask(request)], [], true, Ok(()))
    else
      var plan := InsertPlan(schema, table, Keys(data.value[0]), data.value);
      Effect([Ask(request)], Runs(plan.statements), true, plan.status)
  }

  /** An empty or failed select inserts nothing and raises nothing. */
  lemma CopyNothing(fetch: Request -> Fetched, schema: string, table: string)
    requires fetch(Sql(SelectAll(schema, table))) in {Raises, Rows([])}
    ensures CopyEffect(fetch, schema, table) == Effect([Ask(Sql(SelectAll(schema, table)))], [], true, Ok(()))
  {
  }

  /** A select whose rows all share the first row's columns copies every row:
      one INSERT per row, in order, over the stringified values. */
  lemma {:induction false} CopyEveryRow(fetch: Request -> Fetched, schema: string, table: string, rows: seq<Row>)
    requires fetch(Sql(SelectAll(schema, table))) == Rows(rows) && rows != []
    requires forall i :: 0 <= i < |rows| ==> Keys(rows[i]) == Keys(rows[0])
    ensures var e := CopyEffect(fetch, schema, table);
      e.status == Ok(()) && |e.onTarget| == |rows| &&
      forall i :: 0 <= i < |rows| ==> exists insert ::
        InsertStatement(schema, table, Keys(rows[0]), StringifyRow(rows[i])) == Ok(insert) && e.onTarget[i] == Run(insert)
  {
    var data := QueryResult(Rows(rows)).value;
    UniformRowsInsert(schema, table, Keys(rows[0]), data);
  }

  /** Rows that all have exactly the given columns are all inserted. */
  lemma {:induction false} UniformRowsInsert(schema: string, table: string, columns: seq<string>, data: seq<Row>)
    requires forall i :: 0 <= i < |data| ==> Keys(data[i]) == columns
    ensures var plan := InsertPlan(schema, table, columns, data);
      plan.status == Ok(()) && |plan.statements| == |data| &&
      forall i :: 0 <= i < |data| ==> InsertStatement(schema, table, columns, data[i]) == Ok(plan.statements[i])
  {
    UniformRowsRender(schema, table, columns, data);
    EveryRowInserted(schema, table, columns, data);
  }

  lemma EveryRowInserted(schema: string, table: string, columns: seq<string>, data: seq<Row>)
    requires forall i :: 0 <= i < |data| ==> InsertStatement(schema, table, columns, data[i]).Ok?
    ensures var plan := InsertPlan(schema, table, columns, data);
      plan.status == Ok(()) && |plan.statements| == |data| &&
      forall i :: 0 <= i < |data| ==> InsertStatement(schema, table, columns, data[i]) == Ok(plan.statements[i])
  {
    InsertPlanComplete(schema, table, columns, data);
  }

  lemma UniformRowsRender(schema: string, table: string, columns: seq<string>, data: seq<Row>)
    requires forall i :: 0 <= i < |data| ==> Keys(data[i]) == columns
    ensures forall i :: 0 <= i < |data| ==> InsertStatement(schema, table, columns, data[i]).Ok?
  {
    forall i | 0 <= i < |data|
      ensures InsertStatement(schema, table, columns, data[i]).Ok?
    {
      RowHasColumns(data[i], columns);
    }
  }

  /** A row renders under its own column list. */
  lemma RowHasColumns(row: Row, columns: seq<string>)
    requires Keys(row) == columns
    ensures RenderRow(row, columns).Ok?
  {
    RenderRowOk(row, columns);
    assert forall j :: 0 <= j < |columns| ==> columns[j] in Keys(row);
  }

  /** How the copied values read back, given that the select hands every
      value over as text: the absent value and the strings "None" and "NULL"
      all become SQL NULL, and every other value, numbers included, becomes a
      quoted string literal that reads back as the value's text. */
  lemma CopiedLiteral(v: RowValue)
    ensures var copied := Render(Text(ToText(v)));
      (copied == "NULL" <==> v.Null? || ToText(v) == "None" || ToText(v) == "NULL") &&
      (copied != "NULL" ==> (copied[0] == Quote && ReadQuoted(copied[1..]) == Some((ToText(v), []))))
  {
    var copied := Render(Text(ToText(v)));
    if copied != "NULL" {
      ReadRenderedText(ToText(v), []);
      assert copied[1..] + [] == copied[1..];
    }
  }

  // ---------------------------------------------------------------------
  // Whole copies
  // ---------------------------------------------------------------------

  function CreateTableCalls(schema: string, table: string, statement: string): seq<Call> {
    [Run(DropTable(schema, table)), Run(statement)]
  }

  function CreateMatViewCalls(schema: string, view: string, statement: string): seq<Call> {
    [Run(DropMatView(schema, view)), Run(statement)]
  }

  /** A generator's Step as an Effect that has not reached the target. */
  function Generated(step: Step): (e: Effect)
    requires step.result.Err?
    ensures e.status.Err? && !e.targetUsed && e.onTarget == []
  {
    Effect(step.calls, [], false, Err(step.result.error))
  }

  /** copy_materialized_view: recreate the view on the target from its
      statement, then refresh it. */
  function CopyMatViewEffect(fetch: Request -> Fetched, schema: string, view: string): Effect {
    var step := MatViewStatementStep(fetch, schema, view);
    if step.result.Err? then Generated(step)
    else Effect(step.calls, CreateMatViewCalls(schema, view, step.result.value) + [Run(RefreshMatView(schema, view))], true, Ok(()))
  }

  /** Generate a CREATE TABLE statement; unless that raised, recreate the
      table on the target from it and copy the rows. */
  function CreateThenCopy(step: Step, schema: string, table: string, copy: Effect): Effect {
    if step.result.Err? then Generated(step)
    else Then(Effect(step.calls, CreateTableCalls(schema, table, step.result.value), true, Ok(())), copy)
  }

  /** The table branch of duplicate: generate, create, copy the rows. */
  function TableCopyEffect(fetch: Request -> Fetched, schema: string, table: string): Effect {
    CreateThenCopy(TableStatementStep(fetch, schema, table), schema, table, CopyEffect(fetch, schema, table))
  }

  /** copy_materialized_view_as_table: probe, create, copy the rows. */
  function ViewAsTableEffect(fetch: Request -> Fetched, schema: string, view: string): Effect {
    CreateThenCopy(ProbeStep(fetch, schema, view), schema, view, CopyEffect(fetch, schema, view))
  }

  function EntryEffect(fetch: Request -> Fetched, cfg: DuplicateConfig): Effect {
    if cfg.isView then ViewAsTableEffect(fetch, cfg.dbSchema, cfg.tblView)
    else TableCopyEffect(fetch, cfg.dbSchema, cfg.tblView)
  }

  lemma AppendAssociative<T>(a: seq<T>, b: seq<T>, c: seq<T>)
    ensures (a + b) + c == a + (b + c)
  {
  }

  /** Effects one after another, stopping at the first that raises. */
  function Sequenced(effects: seq<Effect>): Effect
    decreases |effects|
  {
    if effects == [] then Nothing
    else Then(Sequenced(effects[..|effects| - 1]), effects[|effects| - 1])
  }

  lemma ThenAssociative(a: Effect, b: Effect, c: Effect)
    ensures Then(Then(a, b), c) == Then(a, Then(b, c))
  {
  }

  lemma {:induction false} SequencedAppend(a: seq<Effect>, b: seq<Effect>)
    ensures Sequenced(a + b) == Then(Sequenced(a), Sequenced(b))
    decreases |b|
  {
    if b == [] {
      assert a + b == a;
      var x := Sequenced(a);
      assert x.onSource + [] == x.onSource && x.onTarget + [] == x.onTarget;
      assert Sequenced(b) == Nothing;
      if x.status.Ok? {
        assert x.status.value == ();
        assert Then(x, Nothing) == Effect(x.onSource, x.onTarget, x.targetUsed, Ok(()));
      }
    } else {
      var b' := b[..|b| - 1];
      var last := b[|b| - 1];
      assert (a + b)[..|a + b| - 1] == a + b';
      assert (a + b)[|a + b| - 1] == last;
      SequencedAppend(a, b');
      ThenAssociative(Sequenced(a), Sequenced(b'), last);
    }
  }

  /** f applied to each element, in order. */
  function MapSeq<A, B>(f: A -> B, xs: seq<A>): (ys: seq<B>)
    ensures |ys| == |xs|
    ensures forall i :: 0 <= i < |xs| ==> ys[i] == f(xs[i])
  {
    seq(|xs|, i requires 0 <= i < |xs| => f(xs[i]))
  }

  lemma MapSeqAppend<A, B>(f: A -> B, a: seq<A>, b: seq<A>)
    ensures MapSeq(f, a + b) == MapSeq(f, a) + MapSeq(f, b)
  {
    var ys := MapSeq(f, a + b);
    forall i | 0 <= i < |a + b|
      ensures ys[i] == (MapSeq(f, a) + MapSeq(f, b))[i]
    {
      if i < |a| {
        assert (a + b)[i] == a[i];
      } else {
        assert (a + b)[i] == b[i - |a|];
      }
    }
  }

  lemma MapSeqPrefix<A, B>(f: A -> B, xs: seq<A>, i: nat)
    requires i <= |xs|
    ensures MapSeq(f, xs[..i]) == MapSeq(f, xs)[..i]
  {
  }

  function EntryEffectOf(fetch: Request -> Fetched): DuplicateConfig -> Effect {
    cfg => EntryEffect(fetch, cfg)
  }

  /** The effect of each configuration entry, in list order. */
  function Entries(fetch: Request -> Fetched, config: seq<DuplicateConfig>): (effects: seq<Effect>)
    ensures |effects| == |config|
    ensures forall i :: 0 <= i < |config| ==> effects[i] == EntryEffect(fetch, config[i])
  {
    MapSeq(EntryEffectOf(fetch), config)
  }

  /** duplicate: the entries in list order, stopping at the first that raises. */
  function DuplicateEffect(fetch: Request -> Fetched, config: seq<DuplicateConfig>): Effect {
    Sequenced(Entries(fetch, config))
  }

  /** Duplicating a list is duplicating its first part, then (unless that
      raised) its second part. */
  lemma DuplicateAppend(fetch: Request -> Fetched, a: seq<DuplicateConfig>, b: seq<DuplicateConfig>)
    ensures DuplicateEffect(fetch, a + b) == Then(DuplicateEffect(fetch, a), DuplicateEffect(fetch, b))
  {
    MapSeqAppend(EntryEffectOf(fetch), a, b);
    SequencedAppend(Entries(fetch, a), Entries(fetch, b));
  }

  /** One more entry: its effect follows the effect of those before it. */
  lemma DuplicateStep(fetch: Request -> Fetched, config: seq<DuplicateConfig>, i: nat)
    requires i < |config|
    ensures DuplicateEffect(fetch, config[..i + 1]) == Then(DuplicateEffect(fetch, config[..i]), EntryEffect(fetch, config[i]))
  {
    MapSeqPrefix(EntryEffectOf(fetch), config[..i + 1], i);
    assert config[..i + 1][..i] == config[..i];
  }

  /** Fail-fast: once an entry raises, no later entry does anything. */
  lemma DuplicateFailFast(fetch: Request -> Fetched, config: seq<DuplicateConfig>, k: nat)
    requires k <= |config| && DuplicateEffect(fetch, config[..k]).status.Err?
    ensures DuplicateEffect(fetch, config) == DuplicateEffect(fetch, config[..k])
  {
    assert config == config[..k] + config[k..];
    DuplicateAppend(fetch, config[..k], config[k..]);
  }

  /** Nothing in the configuration, nothing done. */
  lemma DuplicateEmpty(fetch: Request -> Fetched)
    ensures DuplicateEffect(fetch, []) == Effect([], [], false, Ok(()))
  {
  }

  /** Every call a sequence of effects makes is a call of one of them. */
  lemma {:induction false} SequencedCalls(effects: seq<Effect>)
    ensures forall c :: c in Sequenced(effects).onSource ==> exists k :: 0 <= k < |effects| && c in effects[k].onSource
    ensures forall c :: c in Sequenced(effects).onTarget ==> exists k :: 0 <= k < |effects| && c in effects[k].onTarget
    decreases |effects|
  {
    if effects != [] {
      var n := |effects| - 1;
      SequencedCalls(effects[..n]);
      assert forall k :: 0 <= k < n ==> effects[..n][k] == effects[k];
    }
  }

  /** The calls of a create-then-copy are the generator's, the creation's
      and the copy's. */
  lemma CreateThenCopyCalls(step: Step, schema: string, table: string, copy: Effect)
    ensures var e := CreateThenCopy(step, schema, table, copy);
      (forall c :: c in e.onSource ==> c in step.calls || c in copy.onSource) &&
      (forall c :: c in e.onTarget ==> c.Run? || c in copy.onTarget)
  {
  }

  lemma CopyCalls(fetch: Request -> Fetched, schema: string, table: string)
    ensures forall c :: c in CopyEffect(fetch, schema, table).onSource ==> c.Ask?
    ensures forall c :: c in CopyEffect(fetch, schema, table).onTarget ==> c.Run?
  {
  }

  lemma EntryTargetExecutes(fetch: Request -> Fetched, cfg: DuplicateConfig)
    ensures forall c :: c in EntryEffect(fetch, cfg).onTarget ==> c.Run?
  {
    var step := if cfg.isView then ProbeStep(fetch, cfg.dbSchema, cfg.tblView) else TableStatementStep(fetch, cfg.dbSchema, cfg.tblView);
    assert EntryEffect(fetch, cfg) == CreateThenCopy(step, cfg.dbSchema, cfg.tblView, CopyEffect(fetch, cfg.dbSchema, cfg.tblView));
    CreateThenCopyCalls(step, cfg.dbSchema, cfg.tblView, CopyEffect(fetch, cfg.dbSchema, cfg.tblView));
    CopyCalls(fetch, cfg.dbSchema, cfg.tblView);
  }

  /** The target is only ever written to, never queried. */
  lemma TargetOnlyExecutes(fetch: Request -> Fetched, config: seq<DuplicateConfig>)
    ensures forall c :: c in DuplicateEffect(fetch, config).onTarget ==> c.Run?
  {
    var effects := Entries(fetch, config);
    SequencedCalls(effects);
    forall k | 0 <= k < |config|
      ensures forall c :: c in effects[k].onTarget ==> c.Run?
    {
      EntryTargetExecutes(fetch, config[k]);
    }
  }

  /** A statement that creates or drops the probe view of schema.view. */
  ghost predicate IsProbeStatement(sql: string, schema: string, view: string) {
    sql == ProbeDrop(schema, view) || exists definition :: sql == ProbeCreate(schema, view, definition)
  }

  lemma EntrySourceWrites(fetch: Request -> Fetched, cfg: DuplicateConfig)
    ensures forall c :: c in EntryEffect(fetch, cfg).onSource && c.Run? ==>
      cfg.isView && IsProbeStatement(c.sql, cfg.dbSchema, cfg.tblView)
  {
    var copy := CopyEffect(fetch, cfg.dbSchema, cfg.tblView);
    CopyCalls(fetch, cfg.dbSchema, cfg.tblView);
    if cfg.isView {
      var step := ProbeStep(fetch, cfg.dbSchema, cfg.tblView);
      assert EntryEffect(fetch, cfg) == CreateThenCopy(step, cfg.dbSchema, cfg.tblView, copy);
      CreateThenCopyCalls(step, cfg.dbSchema, cfg.tblView, copy);
      ProbeSourceWrites(fetch, cfg.dbSchema, cfg.tblView);
    } else {
      var step := TableStatementStep(fetch, cfg.dbSchema, cfg.tblView);
      assert EntryEffect(fetch, cfg) == CreateThenCopy(step, cfg.dbSchema, cfg.tblView, copy);
      CreateThenCopyCalls(step, cfg.dbSchema, cfg.tblView, copy);
    }
  }

  lemma ProbeSourceWrites(fetch: Request -> Fetched, schema: string, view: string)
    ensures forall c :: c in ProbeStep(fetch, schema, view).calls && c.Run? ==> IsProbeStatement(c.sql, schema, view)
  {
    ProbeCleanup(fetch, schema, view);
  }

  /** The source is only read, except for the temporary probe views of the
      materialized views listed in the configuration. */
  lemma SourceWritesOnlyProbes(fetch: Request -> Fetched, config: seq<DuplicateConfig>)
    ensures forall c :: c in DuplicateEffect(fetch, config).onSource && c.Run? ==>
      exists k :: 0 <= k < |config| && config[k].isView && IsProbeStatement(c.sql, config[k].dbSchema, config[k].tblView)
  {
    var effects := Entries(fetch, config);
    SequencedCalls(effects);
    forall k | 0 <= k < |config|
      ensures forall c :: c in effects[k].onSource && c.Run? ==>
        config[k].isView && IsProbeStatement(c.sql, config[k].dbSchema, config[k].tblView)
    {
      EntrySourceWrites(fetch, config[k]);
    }
  }

  // ---------------------------------------------------------------------
  // The service's operations, performed on two databases
  // ---------------------------------------------------------------------

  method GenerateCreateTableStatement(source: Database, schema: string, table: string) returns (r: Result<string, Error>)
    modifies source
    ensures source.pool == None
    ensures source.trace == old(source.trace) + TableStatementStep(source.fetch, schema, table).calls
    ensures r == TableStatementStep(source.fetch, schema, table).result
  {
    source.Enter();
    var answer := source.Query(TableDefinition(schema, table));
    r := FirstValue(answer, "create_statement", TableNotFound(schema, table));
    source.Exit();
  }

  method GenerateCreateMaterializedViewStatement(source: Database, schema: string, view: string) returns (r: Result<string, Error>)
    modifies source
    ensures source.pool == None
    ensures source.trace == old(source.trace) + MatViewStatementStep(source.fetch, schema, view).calls
    ensures r == MatViewStatementStep(source.fetch, schema, view).result
  {
    source.Enter();
    var answer := source.Query(MatViewCreateStatement(schema, view));
    r := FirstValue(answer, "create_statement", MatViewNotFound(schema, view));
    source.Exit();
  }

  method GenerateCreateTableFromMaterializedViewStatement(source: Database, schema: string, view: string) returns (r: Result<string, Error>)
    modifies source
    ensures source.pool == None
    ensures source.trace == old(source.trace) + ProbeStep(source.fetch, schema, view).calls
    ensures r == ProbeStep(source.fetch, schema, view).result
  {
    source.Enter();
    var definitionRequest := MatViewDefinition(schema, view);
    var found := source.Query(definitionRequest);
    var definition := FirstValue(found, "definition", MatViewNotFound(schema, view));
    if definition.Err? {
      r := definition;
    } else {
      r := AnalyseProbe(source, schema, view, definition.value);
    }
    source.Exit();
  }

  /** The part of the generator that runs once the definition is known:
      create the probe view, read its CREATE TABLE, drop the probe. */
  method AnalyseProbe(source: Database, schema: string, view: string, definition: string) returns (r: Result<string, Error>)
    requires source.pool.Some?
    modifies source
    ensures source.pool == old(source.pool)
    ensures source.trace == old(source.trace) + ProbeCalls(schema, view, definition)
    ensures r == ProbeResult(source.fetch, schema, view)
  {
    var probeCreate := ProbeCreate(schema, view, definition);
    var probeRequest := ProbeTableDefinition(schema, view);
    var probeDrop := ProbeDrop(schema, view);
    source.Execute(probeCreate);
    var analysed := source.Query(probeRequest);
    r := FirstValue(analysed, "create_statement", AnalysisFailed(schema, view));
    source.Execute(probeDrop);
  }

  method CreateMaterializedView(target: Database, schema: string, view: string, statement: string)
    modifies target
    ensures target.pool == None
    ensures target.trace == old(target.trace) + CreateMatViewCalls(schema, view, statement)
  {
    target.Enter();
    target.Execute(DropMatView(schema, view));
    target.Execute(statement);
    target.Exit();
  }

  method RefreshMaterializedView(target: Database, schema: string, view: string)
    modifies target
    ensures target.pool == None
    ensures target.trace == old(target.trace) + [Run(RefreshMatView(schema, view))]
  {
    target.Enter();
    target.Execute(RefreshMatView(schema, view));
    target.Exit();
  }

  method CreateTable(target: Database, schema: string, table: string, statement: string)
    modifies target
    ensures target.pool == None
    ensures target.trace == old(target.trace) + CreateTableCalls(schema, table, statement)
  {
    target.Enter();
    target.Execute(DropTable(schema, table));
    target.Execute(statement);
    target.Exit();
  }

  method CopyMaterializedView(source: Database, target: Database, schema: string, view: string) returns (status: Result<(), Error>)
    requires source != target
    modifies source, target
    ensures var e := CopyMatViewEffect(source.fetch, schema, view);
      source.trace == old(source.trace) + e.onSource && target.trace == old(target.trace) + e.onTarget && status == e.status
    ensures source.pool == None
    ensures target.pool == if CopyMatViewEffect(source.fetch, schema, view).targetUsed then None else old(target.pool)
  {
    var statement := GenerateCreateMaterializedViewStatement(source, schema, view);
    if statement.Err? {
      status := Err(statement.error);
    } else {
      CreateMaterializedView(target, schema, view, statement.value);
      RefreshMaterializedView(target, schema, view);
      status := Ok(());
    }
  }

  /** The literals of one row, column by column (the inner loop of
      copy_table_data); the first missing column raises. */
  method RenderValues(row: Row, columns: seq<string>) returns (rendered: Result<seq<string>, Error>)
    ensures rendered == RenderRow(row, columns)
  {
    rendered := Ok([]);
    var j := 0;
    while j < |columns| && rendered.Ok?
      invariant 0 <= j <= |columns|
      invariant rendered == RenderRow(row, columns[..j])
    {
      assert columns[..j + 1][..j] == columns[..j];
      match Lookup(row, columns[j]) {
        case None =>
          rendered := Err(KeyError(columns[j]));
        case Some(v) =>
          rendered := Ok(rendered.value + [Render(v)]);
      }
      j := j + 1;
    }
    if j < |columns| {
      RenderRowStops(row, columns, j);
    } else {
      assert columns[..j] == columns;
    }
  }

  method CopyTableData(source: Database, target: Database, schema: string, table: string) returns (status: Result<(), Error>)
    requires source != target
    modifies source, target
    ensures var e := CopyEffect(source.fetch, schema, table);
      source.trace == old(source.trace) + e.onSource && target.trace == old(target.trace) + e.onTarget && status == e.status
    ensures source.pool == None && target.pool == None
    ensures source.Committed() == old(source.Committed())
    ensures target.Committed() == old(target.Committed()) + Accepted(target.rejects, CopyEffect(source.fetch, schema, table).onTarget)
  {
    target.Enter();
    source.Enter();
    var data := source.Query(Sql(SelectAll(schema, table)));
    status := Ok(());
    if data.Some? && data.value != [] {
      var rows := data.value;
      var columns := Keys(rows[0]);
      status := InsertRows(target, schema, table, columns, rows);
    } else {
      assert target.trace == old(target.trace) + [];
    }
    source.Exit();
    target.Exit();
    AcceptedAppend(source.rejects, old(source.trace), [Ask(Sql(SelectAll(schema, table)))]);
    AcceptedAppend(target.rejects, old(target.trace), CopyEffect(source.fetch, schema, table).onTarget);
  }

  /** The row loop of copy_table_data: one INSERT per row, in order, until
      the first row that lacks a column. */
  method InsertRows(target: Database, schema: string, table: string, columns: seq<string>, rows: seq<Row>)
    returns (status: Result<(), Error>)
    requires target.pool.Some?
    modifies target
    ensures target.pool == old(target.pool)
    ensures target.trace == old(target.trace) + Runs(InsertPlan(schema, table, columns, rows).statements)
    ensures status == InsertPlan(schema, table, columns, rows).status
    ensures target.Committed() == old(target.Committed()) + Accepted(target.rejects, Runs(InsertPlan(schema, table, columns, rows).statements))
  {
    var columnNames := Join(columns, ", ");
    status := Ok(());
    var i := 0;
    while i < |rows| && status.Ok?
      invariant 0 <= i <= |rows|
      invariant target.pool == old(target.pool)
      invariant target.trace == old(target.trace) + Runs(InsertPlan(schema, table, columns, rows[..i]).statements)
      invariant status == InsertPlan(schema, table, columns, rows[..i]).status
    {
      assert rows[..i + 1][..i] == rows[..i];
      var rendered := RenderValues(rows[i], columns);
      if rendered.Err? {
        status := Err(rendered.error);
      } else {
        var insert := InsertText(schema, table, columnNames, Join(rendered.value, ", "));
        ghost var done := InsertPlan(schema, table, columns, rows[..i]).statements;
        assert Runs(done + [insert]) == Runs(done) + [Run(insert)];
        target.Execute(insert);
      }
      i := i + 1;
    }
    if i < |rows| {
      InsertPlanStops(schema, table, columns, rows, i);
    } else {
      assert rows[..i] == rows;
    }
    AcceptedAppend(target.rejects, old(target.trace), Runs(InsertPlan(schema, table, columns, rows).statements));
  }

  method CopyMaterializedViewAsTable(source: Database, target: Database, schema: string, view: string) returns (status: Result<(), Error>)
    requires source != target
    modifies source, target
    ensures var e := ViewAsTableEffect(source.fetch, schema, view);
      source.trace == old(source.trace) + e.onSource && target.trace == old(target.trace) + e.onTarget && status == e.status
    ensures source.pool == None
    ensures target.pool == if ViewAsTableEffect(source.fetch, schema, view).targetUsed then None else old(target.pool)
  {
    ghost var step := ProbeStep(source.fetch, schema, view);
    ghost var copy := CopyEffect(source.fetch, schema, view);
    assert ViewAsTableEffect(source.fetch, schema, view) == CreateThenCopy(step, schema, view, copy);
    var statement := GenerateCreateTableFromMaterializedViewStatement(source, schema, view);
    assert statement == step.result;
    if statement.Err? {
      status := Err(statement.error);
      assert CreateThenCopy(step, schema, view, copy) == Effect(step.calls, [], false, status);
    } else {
      ghost var created := Effect(step.calls, CreateTableCalls(schema, view, statement.value), true, Ok(()));
      assert CreateThenCopy(step, schema, view, copy) == Then(created, copy);
      CreateTable(target, schema, view, statement.value);
      status := CopyTableData(source, target, schema, view);
      AppendAssociative(old(source.trace), step.calls, copy.onSource);
      AppendAssociative(old(target.trace), created.onTarget, copy.onTarget);
    }
  }

  /** The body of duplicate's loop: one configuration entry. */
  method CopyEntry(source: Database, target: Database, cfg: DuplicateConfig) returns (status: Result<(), Error>)
    requires source != target
    modifies source, target
    ensures var e := EntryEffect(source.fetch, cfg);
      source.trace == old(source.trace) + e.onSource && target.trace == old(target.trace) + e.onTarget && status == e.status
    ensures source.pool == None
    ensures target.pool == if EntryEffect(source.fetch, cfg).targetUsed then None else old(target.pool)
  {
    if cfg.isView {
      status := CopyMaterializedViewAsTable(source, target, cfg.dbSchema, cfg.tblView);
    } else {
      ghost var step := TableStatementStep(source.fetch, cfg.dbSchema, cfg.tblView);
      ghost var copy := CopyEffect(source.fetch, cfg.dbSchema, cfg.tblView);
      assert EntryEffect(source.fetch, cfg) == CreateThenCopy(step, cfg.dbSchema, cfg.tblView, copy);
      var statement := GenerateCreateTableStatement(source, cfg.dbSchema, cfg.tblView);
      assert statement == step.result;
      if statement.Err? {
        status := Err(statement.error);
        assert CreateThenCopy(step, cfg.dbSchema, cfg.tblView, copy) == Effect(step.calls, [], false, status);
      } else {
        ghost var created := Effect(step.calls, CreateTableCalls(cfg.dbSchema, cfg.tblView, statement.value), true, Ok(()));
        assert CreateThenCopy(step, cfg.dbSchema, cfg.tblView, copy) == Then(created, copy);
        CreateTable(target, cfg.dbSchema, cfg.tblView, statement.value);
        status := CopyTableData(source, target, cfg.dbSchema, cfg.tblView);
        AppendAssociative(old(source.trace), step.calls, copy.onSource);
        AppendAssociative(old(target.trace), created.onTarget, copy.onTarget);
      }
    }
  }

  method Duplicate(source: Database, target: Database, config: seq<DuplicateConfig>) returns (status: Result<(), Error>)
    requires source != target
    modifies source, target
    ensures var e := DuplicateEffect(source.fetch, config);
      source.trace == old(source.trace) + e.onSource && target.trace == old(target.trace) + e.onTarget && status == e.status
    ensures source.pool == if config == [] then old(source.pool) else None
    ensures target.pool == if DuplicateEffect(source.fetch, config).targetUsed then None else old(target.pool)
    ensures source.Committed() == old(source.Committed()) + Accepted(source.rejects, DuplicateEffect(source.fetch, config).onSource)
    ensures target.Committed() == old(target.Committed()) + Accepted(target.rejects, DuplicateEffect(source.fetch, config).onTarget)
  {
    status := Ok(());
    var i := 0;
    while i < |config| && status.Ok?
      invariant 0 <= i <= |config|
      invariant var e := DuplicateEffect(source.fetch, config[..i]);
        source.trace == old(source.trace) + e.onSource && target.trace == old(target.trace) + e.onTarget && status == e.status
      invariant source.pool == if i == 0 then old(source.pool) else None
      invariant target.pool == if DuplicateEffect(source.fetch, config[..i]).targetUsed then None else old(target.pool)
    {
      ghost var before := DuplicateEffect(source.fetch, config[..i]);
      ghost var entry := EntryEffect(source.fetch, config[i]);
      DuplicateStep(source.fetch, config, i);
      assert DuplicateEffect(source.fetch, config[..i + 1]) == Then(before, entry);
      status := CopyEntry(source, target, config[i]);
      AppendAssociative(old(source.trace), before.onSource, entry.onSource);
      AppendAssociative(old(target.trace), before.onTarget, entry.onTarget);
      i := i + 1;
    }
    if i < |config| {
      DuplicateFailFast(source.fetch, config, i);
    } else {
      assert config[..i] == config;
    }
    AcceptedAppend(source.rejects, old(source.trace), DuplicateEffect(source.fetch, config).onSource);
    AcceptedAppend(target.rejects, old(target.trace), DuplicateEffect(source.fetch, config).onTarget);
  }
}
