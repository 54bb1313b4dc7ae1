# fabric-sql duplication engine, modelled in Dafny

This project models the core of fabric-sql. The core has three parts.

- **Duplication service** (`DuplicateDBService`). It copies tables and materialized views from a source PostgreSQL database to a target database:
  - it generates CREATE TABLE / CREATE MATERIALIZED VIEW statements from the source catalog;
  - it reads a materialized view's shape through a temporary "probe" view;
  - it recreates each relation on the target;
  - it copies the rows as one INSERT per row, with NULL handling and quote escaping;
  - it works through a configuration list in order and stops at the first error.
- **Connection service** (`PostgresDBService`). This is the lazily created, closable connection pool behind `async with`, plus `query`, `execute` and `show_view_definition`.
- **Content-safety evaluator** (`OpenAIContentEvaluator`). It applies a severity threshold rule and a scan of content-filter categories to chat completions.

Modules:

- `Results`: `Option` and `Result`.
- `SqlText`: row values as the service sees them, and decimal text of integers. Also SQL string-literal escaping, with proofs that the escaping round-trips and that a SQL lexer reads it back. Also the rendering of one value as a literal, and the INSERT statement for a row.
- `Postgres`: the `Database` class.
  - Fields: a `pool` field (`None` until `_ensure_pool`, `None` again after `close`) and a `trace` of every request that reached the driver.
  - The driver (`conn.fetch`), the credential (`get_token`) and the environment (`get_env`) are parameters of the object.
  - Catalog queries are named by a `Request` value (which query, with its schema and relation) instead of their SQL text.
- `Catalog`: what the PostgreSQL catalog answers to those requests, for a given catalog state. This covers the CREATE TABLE text assembled by the catalog query, the `full_data_type` CASE and the column listing.
- `Duplicate`: the service methods as methods over two `Database` objects.
  - Each method is proved against a specification function that gives the calls it makes on each database and how it ends (an `Effect`).
  - Lemmas about those functions state the promises: fail-fast, probe clean-up, the target is only written, the source is written only with probe views, and every row is copied.
- `ContentSafety`: the evaluator as pure functions.

A Python exception becomes an `Err` value: `ValueError(message)` or `KeyError(key)` in the services, and `ContentSafe(message)` or `AttributeError` in the evaluator.

## Model

| member | source | states |
|---|---|---|
| SqlText.DigitChar | fabric_sql/services/duplicate_db_service.py:224 | the character of a decimal digit is a digit whose code is '0' plus the digit |
| SqlText.NatToString | fabric_sql/services/duplicate_db_service.py:224 | str() of a natural number is a non-empty run of digits without a leading zero |
| SqlText.ParseNatToString | fabric_sql/services/duplicate_db_service.py:224 | the decimal text of n reads back as n |
| SqlText.IntToStringRoundTrip | fabric_sql/services/duplicate_db_service.py:224 | str() of an integer is an optional minus sign then digits, and it reads back as the integer |
| SqlText.ToText | fabric_sql/services/postgres_db_service.py:75 | str() of a fetched value: the absent value and the string "None" both give "None"; an integer gives an optional minus sign and digits that read back as the integer |
| SqlText.Escape | fabric_sql/services/duplicate_db_service.py:221 | doubling single quotes never shortens a string |
| SqlText.UnescapeEscape | fabric_sql/services/duplicate_db_service.py:221 | replacing '' by ' undoes the escaping, for every string |
| SqlText.EscapePaired | fabric_sql/services/duplicate_db_service.py:221 | escaped text has every run of quotes of even length |
| SqlText.EscapeUnescape | fabric_sql/services/duplicate_db_service.py:221 | text whose quotes are paired is exactly the escaping of its unescaped form |
| SqlText.ReadQuotedEscape | fabric_sql/services/duplicate_db_service.py:219-222 | a SQL lexer reading an escaped string plus its closing quote gets back the original string and the rest of the text |
| SqlText.Render | fabric_sql/services/duplicate_db_service.py:216-224 | the absent value and "None" give NULL; other strings except "NULL" give a quoted literal of the escaped text; everything else gives str(value); a non-integer renders as NULL iff it is a NULL marker or its text is "NULL" |
| SqlText.RenderIntNotNull | fabric_sql/services/duplicate_db_service.py:223-224 | an integer renders as its decimal text and never as NULL |
| SqlText.ReadRenderedText | fabric_sql/services/duplicate_db_service.py:219-222 | a quoted literal reads back, through the lexer, as the original string |
| SqlText.Keys | fabric_sql/services/duplicate_db_service.py:210 | list(row.keys()) has one name per entry, in row order |
| SqlText.Lookup | fabric_sql/services/duplicate_db_service.py:216 | row[col] succeeds iff col is a key of the row, and gives a value stored under that key |
| SqlText.RenderRow | fabric_sql/services/duplicate_db_service.py:214-224 | a rendered row has one literal per column |
| SqlText.RenderRowOk | fabric_sql/services/duplicate_db_service.py:215-216 | a row renders iff it has every column (both directions) |
| SqlText.RenderRowValues | fabric_sql/services/duplicate_db_service.py:215-224 | the i-th literal of a rendered row is the rendering of the row's value for the i-th column |
| SqlText.RenderRowFirstMissing | fabric_sql/services/duplicate_db_service.py:215-216 | a failed row raises KeyError for the first missing column in column order, and every earlier column is present |
| SqlText.RenderRowStops | fabric_sql/services/duplicate_db_service.py:215-216 | once a prefix of the columns fails, the whole row fails with the same error |
| SqlText.Join | fabric_sql/services/duplicate_db_service.py:211-226 | ", ".join of a list: the parts in order with the separator between them (no contract of its own; the one-part case is used by OneColumnInsert) |
| SqlText.InsertText | fabric_sql/services/duplicate_db_service.py:227-230 | the INSERT text "INSERT INTO schema.table (columns) VALUES (values);" (no contract of its own; PublicTestInsertText gives it for the test table) |
| SqlText.InsertStatement | fabric_sql/services/duplicate_db_service.py:213-230 | the INSERT for one row under the column list, or the KeyError of rendering it (its contract is InsertStatementOk) |
| SqlText.InsertStatementOk | fabric_sql/services/duplicate_db_service.py:213-230 | the INSERT is built iff the row has every column (both directions); otherwise the KeyError names the first column, in column order, that the row lacks |
| SqlText.OneColumnInsert | fabric_sql/services/duplicate_db_service.py:226-230 | a one-column row gives the INSERT holding that column's literal |
| SqlText.PublicTestInsertText | tests/fabric_sql/services/test_duplicate_db_service.py:77-84 | the INSERT text for public.test (id) |
| SqlText.ExampleRenders | tests/fabric_sql/services/test_duplicate_db_service.py:77-84 | 1, 'a', 'a''' and NULL are the literals of 1, "a", "a'" and None |
| SqlText.ExampleInsert | tests/fabric_sql/services/test_duplicate_db_service.py:77-84 | a one-column row's INSERT embeds its literal |
| SqlText.InsertExampleInt | tests/fabric_sql/services/test_duplicate_db_service.py:77 | the integer row gives VALUES (1) |
| SqlText.InsertExampleText | tests/fabric_sql/services/test_duplicate_db_service.py:78-81 | the row "a" gives VALUES ('a'), and the row "a'" gives VALUES ('a''') |
| SqlText.InsertExampleNull | tests/fabric_sql/services/test_duplicate_db_service.py:82-84 | the row None gives VALUES (NULL) |
| Postgres.PoolFor | fabric_sql/services/postgres_db_service.py:38-56 | the pool has min size 2, max size 10 and ssl "require"; host, port, database and user are the configured ones; its password is the configured one when non-empty, else the token for the database audience |
| Postgres.EmptyPasswordIsAbsent | fabric_sql/services/postgres_db_service.py:41-45 | an empty configured password behaves exactly like none: the token is used |
| Postgres.ConfiguredPasswordWins | fabric_sql/services/postgres_db_service.py:39-41 | with a non-empty password the credential is never consulted |
| Postgres.StringifyRow | fabric_sql/services/postgres_db_service.py:75 | a returned row keeps the fetched row's columns in order and holds str() of every value |
| Postgres.QueryResult | fabric_sql/services/postgres_db_service.py:70-79 | query returns None iff the driver raised; otherwise one stringified row per fetched row, in order |
| Postgres.QueryValuesAreText | fabric_sql/services/postgres_db_service.py:75 | every returned value is a string, and a NULL comes back as the string "None" |
| Postgres.AcceptedAppend | fabric_sql/services/postgres_db_service.py:87-91 | the statements carried out by two runs of calls are those of the first, then those of the second |
| Postgres.Runs | fabric_sql/services/duplicate_db_service.py:213-232 | one execute per statement, in order |
| Postgres.AcceptedRuns | fabric_sql/services/postgres_db_service.py:87-91 | executing a list of statements carries out exactly those the driver does not reject (both directions), and all of them when it rejects none |
| Postgres.Accepted | fabric_sql/services/postgres_db_service.py:81-91 | the statements a run of calls carries out: a query carries out nothing; an executed statement takes effect unless the driver rejects it, and that error is swallowed, so later calls still run (no contract of its own; AcceptedAppend and AcceptedRuns state its properties) |
| Postgres.Database.constructor | fabric_sql/services/postgres_db_service.py:23-24 | a new service has no pool and has sent nothing |
| Postgres.Database.Committed | fabric_sql/services/postgres_db_service.py:81-91 | the statements this database has carried out so far: Accepted of its trace (no contract of its own) |
| Postgres.Database.Ensured | fabric_sql/services/postgres_db_service.py:35-56 | after _ensure_pool there is a pool; an existing pool is kept; a missing one is created as PoolFor gives, with the chosen password |
| Postgres.Database.EnsurePool | fabric_sql/services/postgres_db_service.py:35-56 | the pool becomes Ensured(old pool); nothing is sent to the driver |
| Postgres.Database.Close | fabric_sql/services/postgres_db_service.py:58-62 | after close there is no pool |
| Postgres.Database.Enter | fabric_sql/services/postgres_db_service.py:26-29 | entering the context ensures the pool |
| Postgres.Database.Exit | fabric_sql/services/postgres_db_service.py:31-33 | leaving the context closes the pool |
| Postgres.Database.Query | fabric_sql/services/postgres_db_service.py:64-79 | ensures the pool, records the query, returns QueryResult of the driver's answer |
| Postgres.Database.Execute | fabric_sql/services/postgres_db_service.py:81-91 | ensures the pool and records the statement; it never raises; the carried-out statements grow by this one unless the driver rejects it |
| Postgres.Database.ShowViewDefinition | fabric_sql/services/postgres_db_service.py:93-117 | sends the column-listing query; returns its rows, or [] when it failed or found nothing; carries out no statement |
| Postgres.EnsuredIdempotent | fabric_sql/services/postgres_db_service.py:37 | ensuring the pool twice is ensuring it once |
| Catalog.ColumnClause | fabric_sql/services/duplicate_db_service.py:17-27 | a column clause starts with the name and type; it ends in NOT NULL when is_nullable is NO; without a length and NOT NULL it is just the name and type |
| Catalog.ColumnClauseReadBack | fabric_sql/services/duplicate_db_service.py:17-27 | when the name and type do not themselves end in " NOT NULL", the clause ends in " NOT NULL" iff is_nullable is NO (both directions), and the text between the type and that suffix reads back as the character length in parentheses, or as nothing when there is none |
| Catalog.Clauses | fabric_sql/services/duplicate_db_service.py:16-28 | one clause per column, in column order |
| Catalog.CreateTableText | fabric_sql/services/duplicate_db_service.py:15-29 | the create_statement: "CREATE TABLE schema.name (" then the clauses joined by ", " then ");" (no contract of its own; TableStatementFromCatalog and ProbeFromCatalog use it) |
| Catalog.MatViewCreateText | fabric_sql/services/duplicate_db_service.py:52-53 | "CREATE MATERIALIZED VIEW schema.view AS definition;" (no contract of its own; MatViewStatementFromCatalog uses it) |
| Catalog.FullDataType | fabric_sql/services/postgres_db_service.py:99-107 | full_data_type starts with data_type and is longer iff there is a length or a precision |
| Catalog.IndexOf | fabric_sql/services/postgres_db_service.py:103 | part of the reader that proves the CASE output unambiguous: it finds the first comma, or reports that there is none |
| Catalog.IndexOfAfterDigits | fabric_sql/services/postgres_db_service.py:103 | part of the reader that proves the CASE output unambiguous: the comma after a run of digits is the first comma, since digits hold no comma |
| Catalog.OneNumber | fabric_sql/services/postgres_db_service.py:105 | "(n)" reads back as [n] |
| Catalog.TwoDigitRuns | fabric_sql/services/postgres_db_service.py:103 | part of the reader that proves the CASE output unambiguous: "(a,b)" over two runs of digits reads back as those two numbers |
| Catalog.TwoNumbers | fabric_sql/services/postgres_db_service.py:103 | "(p,s)" reads back as [p, s] |
| Catalog.FullDataTypeRoundTrip | fabric_sql/services/postgres_db_service.py:99-107 | the modifier after the type name reads back as exactly the length, or the precision and scale, or the precision, or nothing, in the CASE's order |
| Catalog.DescriptionRow | fabric_sql/services/postgres_db_service.py:96-110 | one row of the column listing: name, data type, full_data_type, nullability, default (NULL when absent) and the column's own ordinal_position (no contract of its own) |
| Catalog.Answer | fabric_sql/services/duplicate_db_service.py:13-131 | what PostgreSQL returns for each catalog query over a catalog state: the assembled CREATE TABLE of a table in pg_tables, or no row when it has no columns (GROUP BY over nothing); the pg_matviews statement or definition, or no row; the probe view's CREATE TABLE from the view's columns; the column listing in ordinal order (no contract of its own; the FromCatalog lemmas state what follows) |
| Catalog.ShowViewDefinitionFromCatalog | fabric_sql/services/postgres_db_service.py:96-116 | over a catalog, the i-th row names the i-th column, gives its data_type, full_data_type, is_nullable, its default ("None" when absent) and its own ordinal_position, which keeps the gaps left by dropped columns |
| Duplicate.TableEntry | fabric_sql/protocols/i_duplicate_db_service.py:8-11 | is_view defaults to False |
| Duplicate.ProbeName | fabric_sql/services/duplicate_db_service.py:89 | the probe view is temp_analysis_ followed by the view name (no contract of its own) |
| Duplicate.ProbeCreate | fabric_sql/services/duplicate_db_service.py:94-96 | the CREATE OR REPLACE VIEW of the probe over the definition, with the triple-quoted text's newlines and indentation (no contract of its own; ProbeCreatedFromDefinition states it) |
| Duplicate.ProbeDrop | fabric_sql/services/duplicate_db_service.py:135 | DROP VIEW IF EXISTS of the probe (no contract of its own; ProbeCleanup states when it runs) |
| Duplicate.DropTable | fabric_sql/services/duplicate_db_service.py:193 | DROP TABLE IF EXISTS schema.table (no contract of its own; CreateTable states when it runs) |
| Duplicate.DropMatView | fabric_sql/services/duplicate_db_service.py:147 | DROP MATERIALIZED VIEW IF EXISTS schema.view (no contract of its own) |
| Duplicate.RefreshMatView | fabric_sql/services/duplicate_db_service.py:159 | REFRESH MATERIALIZED VIEW schema.view (no contract of its own) |
| Duplicate.SelectAll | fabric_sql/services/duplicate_db_service.py:206 | SELECT * FROM schema.table (no contract of its own; CopyNothing and CopyEveryRow state what its answer leads to) |
| Duplicate.TableNotFound | fabric_sql/services/duplicate_db_service.py:38-40 | the ValueError message for a missing table (no contract of its own) |
| Duplicate.MatViewNotFound | fabric_sql/services/duplicate_db_service.py:61-64 | the ValueError message for a missing materialized view, shared by both generators that read pg_matviews (no contract of its own) |
| Duplicate.AnalysisFailed | fabric_sql/services/duplicate_db_service.py:126-129 | the ValueError message when the probe has no columns (no contract of its own) |
| Duplicate.FirstValue | fabric_sql/services/duplicate_db_service.py:37-42 | a None or empty answer raises ValueError with the not-found message; otherwise it succeeds iff the first row has the key, and the value is the first row's value under the key as text; else KeyError names the key |
| Duplicate.FirstValueSingle | fabric_sql/services/duplicate_db_service.py:42 | a one-row, one-column answer yields its value |
| Duplicate.TableStatementStep | fabric_sql/services/duplicate_db_service.py:9-42 | generate_create_table_statement as a function: one catalog query, then its create_statement or the not-found error (no contract of its own; TableStatementFromCatalog states its result) |
| Duplicate.MatViewStatementStep | fabric_sql/services/duplicate_db_service.py:44-66 | generate_create_materialized_view_statement as a function: one pg_matviews query, then its create_statement or the not-found error (no contract of its own; MatViewStatementFromCatalog states its result) |
| Duplicate.ProbeStep | fabric_sql/services/duplicate_db_service.py:68-136 | generate_create_table_from_materialized_view_statement as a function: the definition query, then the probe's creation, column query and drop (no contract of its own; ProbeCleanup, ProbeAnalysis and ProbeFromCatalog state it) |
| Duplicate.ProbeCalls | fabric_sql/services/duplicate_db_service.py:92-136 | create the probe, read its columns, drop it, in that order (no contract of its own) |
| Duplicate.ProbeResult | fabric_sql/services/duplicate_db_service.py:123-131 | the probe's create_statement, or the analysis-failed error (no contract of its own) |
| Duplicate.TableStatementFromCatalog | fabric_sql/services/duplicate_db_service.py:9-42 | over a catalog, a table gives the CREATE TABLE assembled from its columns; a non-table or column-less relation is "not found" |
| Duplicate.MatViewStatementFromCatalog | fabric_sql/services/duplicate_db_service.py:44-66 | over a catalog, a materialized view gives CREATE MATERIALIZED VIEW with its definition; otherwise "not found" |
| Duplicate.ProbeFromCatalog | fabric_sql/services/duplicate_db_service.py:68-136 | over a catalog, a materialized view gives a CREATE TABLE named after the view with its columns; a missing view or one without columns fails with the right message |
| Duplicate.ProbeAnalysis | fabric_sql/services/duplicate_db_service.py:123-131 | once the definition is read, the result is that of the probe's column query |
| Duplicate.ProbeCreatedFromDefinition | fabric_sql/services/duplicate_db_service.py:90-97 | the probe view is created from the materialized view's own definition |
| Duplicate.ProbeCleanup | fabric_sql/services/duplicate_db_service.py:80-136 | either nothing is executed (the definition was missing, and that error is raised), or exactly the probe's creation and, last, its drop, whatever the analysis gives |
| Duplicate.ProbeFound | tests/fabric_sql/services/test_duplicate_db_service.py:318-357 | a found definition and analysis give the statement after two queries and two executes |
| Duplicate.InsertPlan | fabric_sql/services/duplicate_db_service.py:213-232 | the INSERTs of copy_table_data's row loop and how it ends (no contract of its own; InsertPlanPrefix, InsertPlanComplete and InsertPlanStops state it) |
| Duplicate.InsertPlanPrefix | fabric_sql/services/duplicate_db_service.py:213-232 | the INSERTs executed are those of a prefix of the rows, in row order; the copy stops exactly at the first row that cannot be rendered, with its KeyError |
| Duplicate.InsertPlanComplete | fabric_sql/services/duplicate_db_service.py:213-232 | every row is inserted iff every row has every column |
| Duplicate.InsertPlanStops | fabric_sql/services/duplicate_db_service.py:213-232 | once a prefix of the rows fails, later rows change nothing |
| Duplicate.CopyEffect | fabric_sql/services/duplicate_db_service.py:196-232 | copy_table_data as a function: the select on the source, the INSERT plan's executes on the target, and the plan's ending (no contract of its own; CopyNothing, CopyEveryRow and CopyCalls state it) |
| Duplicate.CopyNothing | fabric_sql/services/duplicate_db_service.py:203-209 | a failed or empty select inserts nothing and raises nothing |
| Duplicate.CopyEveryRow | fabric_sql/services/duplicate_db_service.py:203-232 | when all rows share the first row's columns, the target gets exactly one INSERT per row, in order, and the copy succeeds |
| Duplicate.UniformRowsInsert | fabric_sql/services/duplicate_db_service.py:213-232 | rows that all have the column list are all inserted |
| Duplicate.EveryRowInserted | fabric_sql/services/duplicate_db_service.py:213-232 | when every row renders, the plan holds every row's INSERT and succeeds |
| Duplicate.UniformRowsRender | fabric_sql/services/duplicate_db_service.py:215-216 | rows whose keys are the column list all render |
| Duplicate.RowHasColumns | fabric_sql/services/duplicate_db_service.py:210-216 | a row renders under its own keys |
| Duplicate.CopiedLiteral | fabric_sql/services/duplicate_db_service.py:205-224 | after query's str(), the absent value and the strings "None" and "NULL" become SQL NULL, and every other value, numbers included, becomes a quoted literal that reads back as its text |
| Duplicate.Generated | fabric_sql/services/duplicate_db_service.py:171-173 | a generator that raised has not touched the target |
| Duplicate.CopyMatViewEffect | fabric_sql/services/duplicate_db_service.py:162-183 | copy_materialized_view as a function: generate, then drop, create and refresh on the target (no contract of its own; CopyMaterializedView is proved against it) |
| Duplicate.CreateThenCopy | fabric_sql/services/duplicate_db_service.py:243-253 | generate a CREATE TABLE; unless that raised, drop and create the table on the target, then copy the rows (no contract of its own; CreateThenCopyCalls states its calls) |
| Duplicate.EntryEffect | fabric_sql/services/duplicate_db_service.py:265-281 | one configuration entry: a view is copied as a table through the probe, a table through its catalog statement (no contract of its own; EntryTargetExecutes and EntrySourceWrites state it) |
| Duplicate.DuplicateEffect | fabric_sql/services/duplicate_db_service.py:259-282 | duplicate as a function: the entries' effects in order, stopping at the first that raises (no contract of its own; DuplicateAppend, DuplicateFailFast, TargetOnlyExecutes and SourceWritesOnlyProbes state it) |
| Duplicate.ThenAssociative | fabric_sql/services/duplicate_db_service.py:265-282 | running three effects in sequence does not depend on grouping |
| Duplicate.SequencedAppend | fabric_sql/services/duplicate_db_service.py:265 | sequencing two lists of effects is sequencing the first, then the second |
| Duplicate.Entries | fabric_sql/services/duplicate_db_service.py:265-282 | one effect per configuration entry, in order |
| Duplicate.DuplicateAppend | fabric_sql/services/duplicate_db_service.py:265 | duplicating a + b is duplicating a, then b unless a raised |
| Duplicate.DuplicateStep | fabric_sql/services/duplicate_db_service.py:265-282 | one more entry follows the entries before it |
| Duplicate.DuplicateFailFast | fabric_sql/services/duplicate_db_service.py:265-282 | once an entry raises, no later entry makes any call |
| Duplicate.DuplicateEmpty | fabric_sql/services/duplicate_db_service.py:265 | an empty configuration makes no call |
| Duplicate.SequencedCalls | fabric_sql/services/duplicate_db_service.py:265 | every call of a sequence is a call of one of its effects |
| Duplicate.CreateThenCopyCalls | fabric_sql/services/duplicate_db_service.py:243-253 | a create-then-copy's source calls are the generator's and the copy's; every target call is a Run or one of the copy's |
| Duplicate.CopyCalls | fabric_sql/services/duplicate_db_service.py:203-232 | the copy only queries the source and only executes on the target |
| Duplicate.EntryTargetExecutes | fabric_sql/services/duplicate_db_service.py:266-281 | an entry only executes on the target |
| Duplicate.TargetOnlyExecutes | fabric_sql/services/duplicate_db_service.py:259-282 | duplicate never queries the target |
| Duplicate.EntrySourceWrites | fabric_sql/services/duplicate_db_service.py:266-281 | an entry executes nothing on the source but its own probe view's creation and drop |
| Duplicate.ProbeSourceWrites | fabric_sql/services/duplicate_db_service.py:92-136 | the probe executes only the creation and drop of its probe view |
| Duplicate.SourceWritesOnlyProbes | fabric_sql/services/duplicate_db_service.py:259-282 | the source is only written by creating or dropping the probe view of a configured entry |
| Duplicate.GenerateCreateTableStatement | fabric_sql/services/duplicate_db_service.py:9-42 | sends the CREATE TABLE query; returns or raises what the specification gives; closes the pool |
| Duplicate.GenerateCreateMaterializedViewStatement | fabric_sql/services/duplicate_db_service.py:44-66 | sends the pg_matviews query; returns or raises what the specification gives; closes the pool |
| Duplicate.GenerateCreateTableFromMaterializedViewStatement | fabric_sql/services/duplicate_db_service.py:68-136 | reads the definition, then creates, analyses and drops the probe view, as the specification gives; closes the pool |
| Duplicate.AnalyseProbe | fabric_sql/services/duplicate_db_service.py:92-136 | creates the probe, reads its columns and always drops it, keeping the open pool |
| Duplicate.CreateMaterializedView | fabric_sql/services/duplicate_db_service.py:138-149 | drops then creates the view on the target, and closes the pool |
| Duplicate.RefreshMaterializedView | fabric_sql/services/duplicate_db_service.py:151-160 | refreshes the view on the target, and closes the pool |
| Duplicate.CreateTable | fabric_sql/services/duplicate_db_service.py:185-194 | drops then creates the table on the target, and closes the pool |
| Duplicate.CopyMaterializedView | fabric_sql/services/duplicate_db_service.py:162-183 | generate, create, refresh, as the specification gives, stopping at the first error |
| Duplicate.RenderValues | fabric_sql/services/duplicate_db_service.py:214-224 | the literals the inner loop collects are RenderRow's |
| Duplicate.CopyTableData | fabric_sql/services/duplicate_db_service.py:196-232 | selects the rows and executes one INSERT per row, as CopyEffect gives; closes both pools; the source carries out nothing, and the target carries out exactly the accepted statements of CopyEffect's target calls |
| Duplicate.InsertRows | fabric_sql/services/duplicate_db_service.py:213-232 | executes exactly the INSERT plan's statements, in order, and ends as the plan does; the target carries out those of them the driver accepts |
| Duplicate.CopyMaterializedViewAsTable | fabric_sql/services/duplicate_db_service.py:234-257 | probe, create the table, copy the rows, as the specification gives |
| Duplicate.CopyEntry | fabric_sql/services/duplicate_db_service.py:266-282 | a materialized view is copied as a table, a table is generated, created and copied |
| Duplicate.Duplicate | fabric_sql/services/duplicate_db_service.py:259-282 | works through the configuration in order, stopping at the first error, with the calls DuplicateEffect gives; each database carries out exactly the accepted statements of its calls |
| ContentSafety.LowerChar | fabric_sql/services/openai_content_evaluator.py:18 | upper-case ASCII letters move to lower case, everything else is kept |
| ContentSafety.Lower | fabric_sql/services/openai_content_evaluator.py:18 | lower() keeps the length and lower-cases each character |
| ContentSafety.LowerIdempotent | fabric_sql/services/openai_content_evaluator.py:18 | lower-casing twice is lower-casing once |
| ContentSafety.EvaluateSeverity | fabric_sql/services/openai_content_evaluator.py:14-27 | only a present severity can fail; a non-string severity raises AttributeError; a failure for a string severity carries the Severity message of the lower-cased level |
| ContentSafety.SeverityByRank | fabric_sql/services/openai_content_evaluator.py:17-27 | no severity passes; a non-string severity raises AttributeError; a severity fails iff its rank (low 0, medium 1, high 2) is at least the threshold's, and "safe" or any other level never fails |
| ContentSafety.SeverityMonotone | fabric_sql/services/openai_content_evaluator.py:20-24 | a severity failing under a threshold fails, with the same message, under every stricter threshold |
| ContentSafety.SeverityCaseInsensitive | fabric_sql/services/openai_content_evaluator.py:18 | severities that lower-case alike are judged alike |
| ContentSafety.DefaultThresholdOnlyHigh | fabric_sql/services/openai_content_evaluator.py:17-27 | under the default threshold high, a string severity fails iff it lower-cases to "high" |
| ContentSafety.CategoryCheck | fabric_sql/services/openai_content_evaluator.py:33-40 | a failing category raises either the Category message of that category or the failure of its severity |
| ContentSafety.Validate | fabric_sql/services/openai_content_evaluator.py:29-40 | the categories in order, the first that fails raising (no contract of its own; ValidateOk and ValidateFirstFailure state it) |
| ContentSafety.CategoryCheckFails | fabric_sql/services/openai_content_evaluator.py:33-40 | a category fails iff filtered or detected is literally True or its severity fails; filtered gives the Category message first, then the severity's own message |
| ContentSafety.ValidateOk | fabric_sql/services/openai_content_evaluator.py:32-40 | validate returns normally iff every category passes |
| ContentSafety.ValidateFirstFailure | fabric_sql/services/openai_content_evaluator.py:32-40 | validate raises the failure of the first failing category, in dictionary order |
| ContentSafety.ValidateAppend | fabric_sql/services/openai_content_evaluator.py:32-40 | validating joined lists is validating the first, then the second unless the first raised |
| ContentSafety.CategoryMonotone | fabric_sql/services/openai_content_evaluator.py:33-37 | a category passing under a threshold passes under every laxer one |
| ContentSafety.ValidateMonotone | fabric_sql/services/openai_content_evaluator.py:32-40 | validation passing under a threshold passes under every laxer one |
| ContentSafety.Inspected | fabric_sql/services/openai_content_evaluator.py:47-60 | without prompt filter results no category is inspected |
| ContentSafety.ContentSafetyCheck | fabric_sql/services/openai_content_evaluator.py:42-60 | content_safety_check as a function: AttributeError when the response lacks prompt_filter_results, nothing checked when they are null or empty, else the prompt's then the first choice's categories (no contract of its own; ContentSafetyCheckValidates, ContentSafetyCheckOk and NoPromptResultsPasses state it) |
| ContentSafety.ContentSafetyCheckValidates | fabric_sql/services/openai_content_evaluator.py:42-60 | a response without the prompt_filter_results attribute raises AttributeError; otherwise the check is validation of the prompt's categories followed by the first choice's |
| ContentSafety.ContentSafetyCheckOk | fabric_sql/services/openai_content_evaluator.py:42-60 | the check passes iff the response has prompt_filter_results and every inspected category passes |
| ContentSafety.NoPromptResultsPasses | fabric_sql/services/openai_content_evaluator.py:47 | with null or empty prompt filter results nothing is checked, not even the choices |
| ContentSafety.ContentSafetyCheckMonotone | fabric_sql/services/openai_content_evaluator.py:42-60 | a response passing under a threshold passes under every laxer one |
| ContentSafety.FlagsCheck | fabric_sql/services/openai_content_evaluator.py:33-37 | a category with only filtered and severity: filtered decides, then the severity |
| ContentSafety.ExampleLevels | fabric_sql/services/openai_content_evaluator.py:18 | "high", "safe" and "HIGH" lower-case to "high", "safe", "high" |
| ContentSafety.InputSeverityFails | tests/fabric_sql/services/test_openai_content_evaluator.py:12-28 | a prompt rated high fails with the Severity: high message |
| ContentSafety.InputFilteredFails | tests/fabric_sql/services/test_openai_content_evaluator.py:32-48 | a filtered prompt category fails with the Category message, even at low severity |
| ContentSafety.OutputSeverityFails | tests/fabric_sql/services/test_openai_content_evaluator.py:52-76 | a safe prompt passes and the choice rated high then fails |
| ContentSafety.UpperCaseSeverityFails | fabric_sql/services/openai_content_evaluator.py:18-27 | "HIGH" fails as "high" does |

## Left out

- Concurrency and `async`: every await is modelled as a sequential call, so interleavings are not modelled.
- `print` calls: the success messages and the "Query failed" / "Execute failed" logs are left out. They are output only.
- Pool creation failing: `asyncpg.create_pool` always yields a pool here. So the `if not self._pool` guards in `query` and `execute` (which only a stubbed driver can reach) are not modelled.
- Connection acquire/release and what `pool.close()` does inside the driver are not modelled.
- `get_env`, `DefaultAzureCredential` and the driver are parameters of a `Database`.
  - `get_env` is a fixed `DatabaseEnv`.
  - The credential is a function from audience to token.
  - The driver's answers come from a fixed function from request to rows-or-raise, and the statements it rejects come from a predicate.
  - The answers do not change with earlier executes.
- The catalog queries' SQL text is not modelled. Each is named by a `Request` value, and `Catalog.Answer` says what PostgreSQL returns for it. Whether that SQL is valid PostgreSQL is out of scope.
- The probe's column query is answered from the materialized view's own columns. This assumes `CREATE OR REPLACE VIEW` over the definition succeeds, and that the view's columns are those of the materialized view.
- `string_agg` is taken to join the columns in ordinal order. PostgreSQL does not promise an order without `ORDER BY`.
- The column listing's `ORDER BY ordinal_position` is modelled by keeping each relation's columns in that order in `CatalogState`. That the positions increase along the list is assumed, not checked.
- Source and target must be different objects (`requires source != target`). The service is always given two distinct databases, and aliasing them is not modelled.
- The configuration entries and the rows are Dafny values. Pydantic validation is not modelled.
- `model_extra` is taken to be a dictionary. If it is `None`, the `in` test raises TypeError, and that is not modelled. A `content_filter_results` that is null in `model_extra` is also not modelled.
- A category value that is not a dictionary is not modelled.
- ContentSafety.Lower: lower-cases ASCII letters only, not full Unicode `str.lower()`. Which levels fail is the same, because no other character lower-cases to a letter of "low", "medium" or "high". A non-ASCII severity would, however, appear in the message un-lowered.
- Rows with a repeated column name cannot come from a Python dict. `SqlText.Lookup` takes the first entry.
- The duplication tests hand `copy_table_data` raw integers and `None`. The real `query` stringifies every value, so such rows come back as strings: `None` becomes "None" and is rendered as NULL, and every other value becomes a quoted literal. `Duplicate.CopiedLiteral` states this. `SqlText.Render` covers both kinds of value.
