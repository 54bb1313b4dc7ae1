/** The connection service (fabric_sql/services/postgres_db_service.py): one
    database reached through a lazily created connection pool, with query and
    execute primitives that never let a driver error escape.

    What the driver and the catalog would answer is a parameter of each
    Database object: `fetch` gives the rows conn.fetch returns for a request
    (or that it raises), `rejects` the statements conn.execute raises on.
    Every request that reaches the driver is appended to `trace`, so callers
    can state exactly which statements an operation issues, and in what order. */
module Postgres {
  import opened Results
  import opened SqlText

  /** The connection settings one database role reads from its environment. */
  datatype DatabaseEnv = DatabaseEnv(
    host: string,
    port: int,
    database: string,
    password: Option<string>,
    username: string)

  /** The arguments the pool is created with (asyncpg.create_pool). */
  datatype Pool = Pool(
    host: string,
    database: string,
    user: string,
    password: string,
    port: int,
    ssl: string,
    minSize: nat,
    maxSize: nat)

  /** The audience the ambient credential's token is requested for. */
  const TokenScope: string := "https://ossrdbms-aad.database.windows.net/.default"

  /** A configured password counts only when it is present and non-empty. */
  predicate HasPassword(env: DatabaseEnv) {
    env.password.Some? && env.password.value != ""
  }

  /** The pool _ensure_pool creates: the configured password when there is
      one, otherwise a token from the ambient credential (`token` maps an
      audience to the token it is issued); TLS required; 2 to 10 connections. */
  function PoolFor(env: DatabaseEnv, token: string -> string): (p: Pool)
    ensures p.minSize == 2 && p.maxSize == 10 && p.minSize <= p.maxSize
    ensures p.ssl == "require"
    ensures p.host == env.host && p.port == env.port && p.database == env.database && p.user == env.username
  {
    Pool(env.host, env.database, env.username,
         if HasPassword(env) then env.password.value else token(TokenScope),
         env.port, "require", 2, 10)
  }

  /** An empty password is treated as no password at all. */
  lemma EmptyPasswordIsAbsent(env: DatabaseEnv, token: string -> string)
    requires env.password == Some("")
    ensures PoolFor(env, token) == PoolFor(env.(password := None), token)
    ensures PoolFor(env, token).password == token(TokenScope)
  {
  }

  /** With a configured password the credential is never consulted: the pool
      is the same whatever the token provider would answer. */
  lemma ConfiguredPasswordWins(env: DatabaseEnv, token1: string -> string, token2: string -> string)
    requires HasPassword(env)
    ensures PoolFor(env, token1) == PoolFor(env, token2)
    ensures PoolFor(env, token1).password == env.password.value
  {
  }

  /** What the connection service can be asked. Catalog queries are named by
      what they ask rather than by their SQL text; everything else is sent as
      the literal text. */
  datatype Request =
    | TableDefinition(schema: string, table: string)        // CREATE TABLE text aggregated over a table's columns
    | MatViewCreateStatement(schema: string, view: string)  // CREATE MATERIALIZED VIEW text from pg_matviews
    | MatViewDefinition(schema: string, view: string)       // the defining query from pg_matviews
    | ProbeTableDefinition(schema: string, view: string)    // CREATE TABLE text over the probe view's columns, named after `view`
    | ColumnDescriptions(schema: string, view: string)      // one row per column, in ordinal order
    | Sql(text: string)                                     // any other query, verbatim

  /** One request that reached the driver: a query, or a statement to execute. */
  datatype Call = Ask(request: Request) | Run(sql: string)

  /** What conn.fetch does with a query: return rows, or raise. */
  datatype Fetched = Rows(rows: seq<Row>) | Raises

  /** One fetched row as query hands it back: same columns in the same order,
      every value replaced by its text form (str(value)). */
  function StringifyRow(row: Row): (r: Row)
    ensures |r| == |row| && Keys(r) == Keys(row)
    ensures forall j :: 0 <= j < |row| ==> r[j].1 == Text(ToText(row[j].1))
  {
    seq(|row|, j requires 0 <= j < |row| => (row[j].0, Text(ToText(row[j].1))))
  }

  /** What query returns for a driver answer: None when the driver raised,
      otherwise one stringified row per fetched row, in fetch order. */
  function QueryResult(f: Fetched): (r: Option<seq<Row>>)
    ensures r.None? <==> f.Raises?
    ensures r.Some? ==> (|r.value| == |f.rows| &&
      forall i :: 0 <= i < |f.rows| ==> r.value[i] == StringifyRow(f.rows[i]))
  {
    match f
    case Raises => None
    case Rows(rows) => Some(seq(|rows|, i requires 0 <= i < |rows| => StringifyRow(rows[i])))
  }

  /** Every value a query returns is a string, so the string "None" that a
      SQL NULL turns into is indistinguishable from a stored string "None". */
  lemma QueryValuesAreText(f: Fetched, i: nat, j: nat)
    requires f.Rows? && i < |f.rows| && j < |f.rows[i]|
    ensures QueryResult(f).value[i][j].1.Text?
    ensures f.rows[i][j].1 == Null ==> QueryResult(f).value[i][j].1 == Text("None")
  {
  }

  /** The statements among `calls` that the driver carried out: every executed
      statement it did not reject (a rejected one is swallowed). */
  function Accepted(rejects: string -> bool, calls: seq<Call>): seq<string> {
    if calls == [] then []
    else
      var init := Accepted(rejects, calls[..|calls| - 1]);
      match calls[|calls| - 1]
      case Ask(_) => init
      case Run(sql) => if rejects(sql) then init else init + [sql]
  }

  lemma {:induction false} AcceptedAppend(rejects: string -> bool, a: seq<Call>, b: seq<Call>)
    ensures Accepted(rejects, a + b) == Accepted(rejects, a) + Accepted(rejects, b)
    decreases |b|
  {
    if b != [] {
      var b' := b[..|b| - 1];
      assert (a + b)[..|a + b| - 1] == a + b';
      assert (a + b)[|a + b| - 1] == b[|b| - 1];
      AcceptedAppend(rejects, a, b');
    } else {
      assert a + b == a;
    }
  }

  /** One execute per statement, in order. */
  function Runs(statements: seq<string>): (calls: seq<Call>)
    ensures |calls| == |statements|
    ensures forall i :: 0 <= i < |statements| ==> calls[i] == Run(statements[i])
  {
    seq(|statements|, i requires 0 <= i < |statements| => Run(statements[i]))
  }

  /** Executing a list of statements carries out exactly those the driver
      does not reject: a rejected one has no effect and does not keep the
      later ones from taking effect. */
  lemma {:induction false} AcceptedRuns(rejects: string -> bool, statements: seq<string>)
    ensures forall sql :: sql in Accepted(rejects, Runs(statements)) <==> sql in statements && !rejects(sql)
    ensures (forall i :: 0 <= i < |statements| ==> !rejects(statements[i])) ==> Accepted(rejects, Runs(statements)) == statements
    decreases |statements|
  {
    if statements != [] {
      var init := statements[..|statements| - 1];
      var calls := Runs(statements);
      assert calls[..|calls| - 1] == Runs(init);
      assert calls[|calls| - 1] == Run(statements[|statements| - 1]);
      AcceptedRuns(rejects, init);
      assert statements == init + [statements[|statements| - 1]];
    }
  }

  /** One database role (source or target) and the connection pool it owns. */
  class Database {
    const env: DatabaseEnv
    const token: string -> string
    const fetch: Request -> Fetched
    const rejects: string -> bool
    /** The pool, or None when there is none (__post_init__, close). */
    var pool: Option<Pool>
    /** Every request that reached the driver, in order. */
    var trace: seq<Call>

    constructor (env: DatabaseEnv, token: string -> string, fetch: Request -> Fetched, rejects: string -> bool)
      ensures this.env == env && this.token == token && this.fetch == fetch && this.rejects == rejects
      ensures pool == None && trace == []
    {
      this.env := env;
      this.token := token;
      this.fetch := fetch;
      this.rejects := rejects;
      pool := None;
      trace := [];
    }

    /** The pool after _ensure_pool: an existing pool is kept as it is, a
        missing one is created. */
    function Ensured(p: Option<Pool>): (q: Option<Pool>)
      ensures q.Some?
      ensures p.Some? ==> q == p
      ensures p.None? ==> q == Some(PoolFor(env, token))
      ensures p.None? ==> q.value.password == (if HasPassword(env) then env.password.value else token(TokenScope))
    {
      if p.Some? then p else Some(PoolFor(env, token))
    }

    /** The statements this database has carried out so far. */
    function Committed(): seq<string>
      reads this
    {
      Accepted(rejects, trace)
    }

    method EnsurePool()
      modifies this`pool
      ensures pool == Ensured(old(pool))
    {
      if pool.None? {
        pool := Some(PoolFor(env, token));
      }
    }

    method Close()
      modifies this`pool
      ensures pool == None
    {
      if pool.Some? {
        pool := None;
      }
    }

    /** Entering `async with db`. */
    method Enter()
      modifies this`pool
      ensures pool == Ensured(old(pool))
    {
      EnsurePool();
    }

    /** Leaving `async with db`, normally or by an exception. */
    method Exit()
      modifies this`pool
      ensures pool == None
    {
      Close();
    }

    /** Runs a query; a driver error is swallowed and reported as None. */
    method Query(request: Request) returns (result: Option<seq<Row>>)
      modifies this`pool, this`trace
      ensures pool == Ensured(old(pool))
      ensures trace == old(trace) + [Ask(request)]
      ensures result == QueryResult(fetch(request))
    {
      EnsurePool();
      trace := trace + [Ask(request)];
      match fetch(request)
      case Raises =>
        result := None;
      case Rows(rows) =>
        var results: seq<Row> := [];
        for i := 0 to |rows|
          invariant |results| == i
          invariant forall k :: 0 <= k < i ==> results[k] == StringifyRow(rows[k])
        {
          results := results + [StringifyRow(rows[i])];
        }
        assert results == QueryResult(fetch(request)).value;
        result := Some(results);
    }

    /** Executes a statement; a driver error is swallowed, so the statement
        then simply has no effect. */
    method Execute(sql: string)
      modifies this`pool, this`trace
      ensures pool == Ensured(old(pool))
      ensures trace == old(trace) + [Run(sql)]
      ensures Committed() == old(Committed()) + (if rejects(sql) then [] else [sql])
    {
      EnsurePool();
      trace := trace + [Run(sql)];
      assert trace[..|trace| - 1] == old(trace);
    }

    /** The column listing of one relation, or [] when the query failed or
        found nothing. Unlike the duplication service's operations, this does
        not close the pool afterwards. */
    method ShowViewDefinition(schema: string, view: string) returns (rows: seq<Row>)
      modifies this`pool, this`trace
      ensures pool == Ensured(old(pool))
      ensures trace == old(trace) + [Ask(ColumnDescriptions(schema, view))]
      ensures var answer := QueryResult(fetch(ColumnDescriptions(schema, view)));
        rows == if answer.Some? then answer.value else []
      ensures Committed() == old(Committed())
    {
      var results := Query(ColumnDescriptions(schema, view));
      rows := if results.Some? && results.value != [] then results.value else [];
    }
  }

  /** Creating the pool twice is creating it once. */
  lemma EnsuredIdempotent(db: Database, p: Option<Pool>)
    ensures db.Ensured(db.Ensured(p)) == db.Ensured(p)
  {
  }
}
