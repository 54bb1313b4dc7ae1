/** The text side of copying rows: how a row value is rendered as a SQL
    literal, how single quotes are escaped, and how one INSERT statement is
    put together from a row (fabric_sql/services/duplicate_db_service.py,
    copy_table_data). Everything here is pure. */
module SqlText {
  import opened Results

  /** A value as the duplication service sees it in a row. Rows are untyped
      dictionaries in the source, so a value is one of: the absent value,
      a string, an integer, or anything else, carried with its default text
      form (what `str()` gives for it: "True", "1.5", a timestamp, ...). */
  datatype RowValue = Null | Text(s: string) | Int(n: int) | Other(shown: string)

  /** A row as an ordered dictionary: column name and value, in column order. */
  type Row = seq<(string, RowValue)>

  /** The errors the duplication service can raise. */
  datatype Error =
    | ValueError(message: string)  // a named object is missing from the source catalog
    | KeyError(key: string)        // a row or catalog answer lacks an expected column

  const Quote: char := '\''

  // ---------------------------------------------------------------------
  // Decimal text of integers (Python's str() of an int, and PostgreSQL's
  // integer-to-text cast inside the catalog queries)
  // ---------------------------------------------------------------------

  predicate IsDigit(c: char) { '0' <= c <= '9' }

  predicate AllDigits(s: string) { forall i :: 0 <= i < |s| ==> IsDigit(s[i]) }

  function DigitChar(d: nat): (c: char)
    requires d < 10
    ensures IsDigit(c) && c as int - '0' as int == d
  {
    (d + '0' as int) as char
  }

  /** Decimal digits of `n`, most significant first, without leading zeros. */
  function NatToString(n: nat): (r: string)
    ensures r != [] && AllDigits(r)
    ensures |r| > 1 ==> r[0] != '0'
    decreases n
  {
    if n < 10 then [DigitChar(n)] else NatToString(n / 10) + [DigitChar(n % 10)]
  }

  function IntToString(n: int): string {
    if n < 0 then "-" + NatToString(-n) else NatToString(n)
  }

  /** Reads a run of decimal digits back as a number. */
  function ParseNat(s: string): nat
    requires AllDigits(s)
  {
    if s == [] then 0
    else ParseNat(s[..|s| - 1]) * 10 + (s[|s| - 1] as int - '0' as int)
  }

  function ParseInt(s: string): int
    requires s != [] && (if s[0] == '-' then AllDigits(s[1..]) else AllDigits(s))
  {
    if s[0] == '-' then -(ParseNat(s[1..]) as int) else ParseNat(s)
  }

  lemma {:induction false} ParseNatToString(n: nat)
    ensures ParseNat(NatToString(n)) == n
    decreases n
  {
    var r := NatToString(n);
    if n < 10 {
      assert r[..|r| - 1] == [];
    } else {
      var prefix := NatToString(n / 10);
      assert r == prefix + [DigitChar(n % 10)];
      assert r[..|r| - 1] == prefix;
      ParseNatToString(n / 10);
    }
  }

  /** The decimal text of an integer reads back as that integer, and it is
      made of an optional minus sign and digits only. */
  lemma IntToStringRoundTrip(n: int)
    ensures var r := IntToString(n);
      r != [] && (r[0] == '-' || IsDigit(r[0])) &&
      (if r[0] == '-' then AllDigits(r[1..]) else AllDigits(r)) &&
      ParseInt(r) == n
  {
    var r := IntToString(n);
    if n < 0 {
      assert r[1..] == NatToString(-n);
      ParseNatToString(-n);
    } else {
      ParseNatToString(n);
    }
  }

  // ---------------------------------------------------------------------
  // Quote escaping: value.replace("'", "''") and its inverse
  // ---------------------------------------------------------------------

  /** Every single quote doubled. */
  function Escape(s: string): (r: string)
    ensures |r| >= |s|
  {
    if s == [] then []
    else (if s[0] == Quote then [Quote, Quote] else [s[0]]) + Escape(s[1..])
  }

  /** Every pair `''` replaced by one quote, scanning from the left without
      overlap, as Python's str.replace("''", "'") does. */
  function Unescape(t: string): string
    decreases |t|
  {
    if t == [] then []
    else if |t| >= 2 && t[0] == Quote && t[1] == Quote then [Quote] + Unescape(t[2..])
    else [t[0]] + Unescape(t[1..])
  }

  /** Every maximal run of single quotes in `t` has even length: read from the
      left, quotes come in pairs. Such text can stand between the quotes of a
      SQL string literal without ending it early. */
  predicate Paired(t: string)
    decreases |t|
  {
    if t == [] then true
    else if t[0] != Quote then Paired(t[1..])
    else |t| >= 2 && t[1] == Quote && Paired(t[2..])
  }

  lemma {:induction false} UnescapeEscape(s: string)
    ensures Unescape(Escape(s)) == s
    decreases |s|
  {
    if s != [] {
      var rest := Escape(s[1..]);
      UnescapeEscape(s[1..]);
      if s[0] == Quote {
        var e := [Quote, Quote] + rest;
        assert Escape(s) == e;
        assert e[2..] == rest;
        assert Unescape(e) == [Quote] + Unescape(rest);
      } else {
        var e := [s[0]] + rest;
        assert Escape(s) == e;
        assert e[1..] == rest;
        assert Unescape(e) == [s[0]] + Unescape(rest);
      }
      assert s == [s[0]] + s[1..];
    }
  }

  lemma {:induction false} EscapePaired(s: string)
    ensures Paired(Escape(s))
    decreases |s|
  {
    if s != [] {
      var rest := Escape(s[1..]);
      EscapePaired(s[1..]);
      if s[0] == Quote {
        var e := [Quote, Quote] + rest;
        assert Escape(s) == e;
        assert e[2..] == rest;
      } else {
        var e := [s[0]] + rest;
        assert Escape(s) == e;
        assert e[1..] == rest;
      }
    }
  }

  /** The other direction: text whose quotes are paired is the escaped form of
      its unescaped form. Together with UnescapeEscape and EscapePaired this
      makes Escape a bijection from all strings onto the paired ones. */
  lemma {:induction false} EscapeUnescape(t: string)
    requires Paired(t)
    ensures Escape(Unescape(t)) == t
    decreases |t|
  {
    if t != [] {
      if t[0] == Quote {
        var u := Unescape(t[2..]);
        EscapeUnescape(t[2..]);
        assert Unescape(t) == [Quote] + u;
        assert ([Quote] + u)[1..] == u;
        assert t == [Quote, Quote] + t[2..];
      } else {
        var u := Unescape(t[1..]);
        EscapeUnescape(t[1..]);
        assert !(|t| >= 2 && t[0] == Quote);
        assert Unescape(t) == [t[0]] + u;
        assert ([t[0]] + u)[1..] == u;
        assert t == [t[0]] + t[1..];
      }
    }
  }

  /** How a SQL lexer reads the inside of a string literal, from just after
      its opening quote: `''` stands for one quote and a lone quote closes the
      literal. The result is the literal's value and the text after it, or
      None when the literal is never closed. */
  function ReadQuoted(t: string): Option<(string, string)>
    decreases |t|
  {
    if t == [] then None
    else if t[0] == Quote then
      if |t| >= 2 && t[1] == Quote then
        match ReadQuoted(t[2..])
        case None => None
        case Some(p) => Some(([Quote] + p.0, p.1))
      else Some(([], t[1..]))
    else
      match ReadQuoted(t[1..])
      case None => None
      case Some(p) => Some(([t[0]] + p.0, p.1))
  }

  /** An escaped string followed by a closing quote is read back as exactly
      the original string, and the literal ends at that closing quote. */
  lemma {:induction false} ReadQuotedEscape(s: string, rest: string)
    requires rest == [] || rest[0] != Quote
    ensures ReadQuoted(Escape(s) + [Quote] + rest) == Some((s, rest))
    decreases |s|
  {
    var t := Escape(s) + [Quote] + rest;
    if s == [] {
      assert t == [Quote] + rest;
      assert t[1..] == rest;
    } else {
      ReadQuotedEscape(s[1..], rest);
      var tail := Escape(s[1..]) + [Quote] + rest;
      if s[0] == Quote {
        assert t == [Quote, Quote] + tail;
        assert t[2..] == tail;
      } else {
        assert t == [s[0]] + tail;
        assert t[1..] == tail;
      }
      assert s == [s[0]] + s[1..];
    }
  }

  // ---------------------------------------------------------------------
  // Rendering one value as a SQL literal (duplicate_db_service.py:216-224)
  // ---------------------------------------------------------------------

  /** Python's str() of a value: the absent value prints as "None". */
  function ToText(v: RowValue): (r: string)
    ensures IsNullMarker(v) ==> r == "None"
    ensures v.Int? ==> r != [] && (if r[0] == '-' then AllDigits(r[1..]) else AllDigits(r)) && ParseInt(r) == v.n
  {
    match v
    case Null => "None"
    case Text(s) => s
    case Int(n) => IntToStringRoundTrip(n); IntToString(n)
    case Other(shown) => shown
  }

  /** Is `v` rendered by the NULL branch: the absent value, or the string "None"? */
  predicate IsNullMarker(v: RowValue) {
    v.Null? || v == Text("None")
  }

  /** Is `v` rendered as a quoted string: a string other than "None" and "NULL"? */
  predicate IsQuotedText(v: RowValue) {
    v.Text? && v.s != "None" && v.s != "NULL"
  }

  /** The literal for one value: NULL for the absent value and for the string
      "None"; any other string except "NULL" in single quotes with every quote
      doubled; everything else, the string "NULL" included, as its default
      text form, unquoted. */
  function Render(v: RowValue): (r: string)
    ensures IsNullMarker(v) ==> r == "NULL"
    ensures IsQuotedText(v) ==>
      && |r| >= 2 && r[0] == Quote && r[|r| - 1] == Quote
      && Paired(r[1..|r| - 1]) && Unescape(r[1..|r| - 1]) == v.s
    ensures !IsNullMarker(v) && !IsQuotedText(v) ==> r == ToText(v)
    ensures !v.Int? ==> (r == "NULL" <==> IsNullMarker(v) || ToText(v) == "NULL")
  {
    if v.Null? || v == Text("None") then "NULL"
    else if v.Text? && v.s != "NULL" then
      var body := Escape(v.s);
      var r := [Quote] + body + [Quote];
      assert r[1..|r| - 1] == body;
      EscapePaired(v.s);
      UnescapeEscape(v.s);
      r
    else ToText(v)
  }

  /** An integer is never rendered as NULL: its text is a sign and digits. */
  lemma RenderIntNotNull(n: int)
    ensures Render(Int(n)) == IntToString(n) && Render(Int(n)) != "NULL"
  {
    IntToStringRoundTrip(n);
    var r := IntToString(n);
    assert r[0] != 'N';
  }

  /** A quoted literal, put in front of any text that does not start with a
      quote (", " or ");" in an INSERT), is read by a SQL lexer as exactly the
      original string. */
  lemma ReadRenderedText(s: string, rest: string)
    requires IsQuotedText(Text(s))
    requires rest == [] || rest[0] != Quote
    ensures var r := Render(Text(s)); r[0] == Quote && ReadQuoted(r[1..] + rest) == Some((s, rest))
  {
    var r := Render(Text(s));
    assert r == [Quote] + Escape(s) + [Quote];
    assert r[1..] + rest == Escape(s) + [Quote] + rest;
    ReadQuotedEscape(s, rest);
  }

  // ---------------------------------------------------------------------
  // Rows, column lists and the INSERT statement (duplicate_db_service.py:209-232)
  // ---------------------------------------------------------------------

  /** The column names of a row, in order (list(row.keys())). */
  function Keys(row: Row): (ks: seq<string>)
    ensures |ks| == |row|
    ensures forall i :: 0 <= i < |row| ==> ks[i] == row[i].0
  {
    seq(|row|, i requires 0 <= i < |row| => row[i].0)
  }

  /** row[key]: the value of the first entry named `key`, if any. */
  function Lookup(row: Row, key: string): (r: Option<RowValue>)
    ensures r.Some? <==> key in Keys(row)
    ensures r.Some? ==> exists i :: 0 <= i < |row| && row[i] == (key, r.value)
  {
    if row == [] then None
    else if row[0].0 == key then Some(row[0].1)
    else
      var r := Lookup(row[1..], key);
      assert Keys(row) == [row[0].0] + Keys(row[1..]);
      assert r.Some? ==> exists i :: 0 <= i < |row[1..]| && row[1..][i] == (key, r.value);
      r
  }

  /** ", ".join(parts) and the like. */
  function Join(parts: seq<string>, sep: string): string
  {
    if parts == [] then ""
    else if |parts| == 1 then parts[0]
    else Join(parts[..|parts| - 1], sep) + sep + parts[|parts| - 1]
  }

  /** The literals of `row` for `columns`, in column order; the first column
      the row lacks raises KeyError, as row[col] does. */
  function RenderRow(row: Row, columns: seq<string>): (r: Result<seq<string>, Error>)
    ensures r.Ok? ==> |r.value| == |columns|
    decreases |columns|
  {
    if columns == [] then Ok([])
    else
      match RenderRow(row, columns[..|columns| - 1])
      case Err(e) => Err(e)
      case Ok(values) =>
        match Lookup(row, columns[|columns| - 1])
        case None => Err(KeyError(columns[|columns| - 1]))
        case Some(v) => Ok(values + [Render(v)])
  }

  /** A row renders iff it has every column. */
  lemma {:induction false} RenderRowOk(row: Row, columns: seq<string>)
    ensures RenderRow(row, columns).Ok? <==> forall i :: 0 <= i < |columns| ==> Lookup(row, columns[i]).Some?
    decreases |columns|
  {
    if columns != [] {
      var n := |columns| - 1;
      var init := columns[..n];
      RenderRowOk(row, init);
      assert forall i :: 0 <= i < n ==> init[i] == columns[i];
      assert RenderRow(row, columns).Ok? <==> RenderRow(row, init).Ok? && Lookup(row, columns[n]).Some?;
    }
  }

  /** A rendered row holds, at position i, the rendering of the row's value
      for the i-th column. */
  lemma {:induction false} RenderRowValues(row: Row, columns: seq<string>)
    requires RenderRow(row, columns).Ok?
    ensures forall i :: 0 <= i < |columns| ==>
      Lookup(row, columns[i]).Some? && RenderRow(row, columns).value[i] == Render(Lookup(row, columns[i]).value)
    decreases |columns|
  {
    if columns != [] {
      var n := |columns| - 1;
      var init := columns[..n];
      var values := RenderRow(row, init).value;
      var v := Lookup(row, columns[n]).value;
      var all := values + [Render(v)];
      assert RenderRow(row, columns).value == all;
      RenderRowValues(row, init);
      forall i | 0 <= i < |columns|
        ensures Lookup(row, columns[i]).Some? && all[i] == Render(Lookup(row, columns[i]).value)
      {
        if i < n {
          assert init[i] == columns[i] && all[i] == values[i];
        }
      }
    }
  }

  /** When a row cannot be rendered, the KeyError names the first column, in
      column order, that the row lacks. */
  lemma {:induction false} RenderRowFirstMissing(row: Row, columns: seq<string>)
    requires RenderRow(row, columns).Err?
    ensures exists i :: (0 <= i < |columns| && RenderRow(row, columns).error == KeyError(columns[i]) &&
      Lookup(row, columns[i]).None? && forall j :: 0 <= j < i ==> Lookup(row, columns[j]).Some?)
    decreases |columns|
  {
    var init := columns[..|columns| - 1];
    var last := |columns| - 1;
    assert forall i :: 0 <= i < |init| ==> init[i] == columns[i];
    if RenderRow(row, init).Err? {
      RenderRowFirstMissing(row, init);
    } else {
      RenderRowOk(row, init);
      assert RenderRow(row, columns).error == KeyError(columns[last]);
    }
  }

  /** Once a prefix of the columns fails, the whole row fails the same way:
      rendering stops at the first missing column. */
  lemma {:induction false} RenderRowStops(row: Row, columns: seq<string>, k: nat)
    requires k <= |columns| && RenderRow(row, columns[..k]).Err?
    ensures RenderRow(row, columns) == RenderRow(row, columns[..k])
    decreases |columns|
  {
    if k < |columns| {
      var init := columns[..|columns| - 1];
      assert init[..k] == columns[..k];
      RenderRowStops(row, init, k);
    } else {
      assert columns[..k] == columns;
    }
  }

  /** The text of one INSERT, from the comma-joined column names and literals. */
  function InsertText(schema: string, table: string, columnNames: string, valuesText: string): string {
    "INSERT INTO " + schema + "." + table + " (" + columnNames + ") VALUES (" + valuesText + ");"
  }

  /** The INSERT for one row, or the KeyError its first missing column raises. */
  function InsertStatement(schema: string, table: string, columns: seq<string>, row: Row): (r: Result<string, Error>)
  {
    match RenderRow(row, columns)
    case Err(e) => Err(e)
    case Ok(values) => Ok(InsertText(schema, table, Join(columns, ", "), Join(values, ", ")))
  }

  /** The INSERT is built iff the row has every column; otherwise the
      KeyError names the first column, in column order, that it lacks. */
  lemma InsertStatementOk(schema: string, table: string, columns: seq<string>, row: Row)
    ensures InsertStatement(schema, table, columns, row).Ok? <==> forall i :: 0 <= i < |columns| ==> Lookup(row, columns[i]).Some?
    ensures InsertStatement(schema, table, columns, row).Err? ==> exists i :: (0 <= i < |columns| &&
      InsertStatement(schema, table, columns, row).error == KeyError(columns[i]) &&
      Lookup(row, columns[i]).None? && forall j :: 0 <= j < i ==> Lookup(row, columns[j]).Some?)
  {
    RenderRowOk(row, columns);
    if RenderRow(row, columns).Err? {
      RenderRowFirstMissing(row, columns);
    }
  }

  /** A one-column row renders to the INSERT holding that column's literal. */
  lemma OneColumnInsert(schema: string, table: string, column: string, v: RowValue)
    ensures InsertStatement(schema, table, [column], [(column, v)]) == Ok(InsertText(schema, table, column, Render(v)))
  {
    var columns := [column];
    assert columns[..|columns| - 1] == [];
    assert RenderRow([(column, v)], []) == Ok([]);
    assert Lookup([(column, v)], column) == Some(v);
    assert [] + [Render(v)] == [Render(v)];
    assert Join([Render(v)], ", ") == Render(v);
  }

  lemma PublicTestInsertText(valuesText: string)
    ensures InsertText("public", "test", "id", valuesText) == "INSERT INTO public.test (id) VALUES (" + valuesText + ");"
  {
  }

  lemma ExampleRenders()
    ensures Render(Int(1)) == "1"
    ensures Render(Text("a")) == "'a'"
    ensures Render(Text("a'")) == "'a'''"
    ensures Render(Null) == "NULL"
  {
    assert Render(Int(1)) == [DigitChar(1)];
    assert Escape("a") == "a";
    assert Escape("a'") == "a''" by {
      assert "a'"[1..] == "'";
      assert Escape("'") == "''";
    }
  }

  lemma ExampleInsert(v: RowValue, literal: string)
    requires Render(v) == literal
    ensures InsertStatement("public", "test", ["id"], [("id", v)]) == Ok("INSERT INTO public.test (id) VALUES (" + literal + ");")
  {
    OneColumnInsert("public", "test", "id", v);
    PublicTestInsertText(literal);
  }

  // The four renderings the source's own test expects of one-column rows:
  // an integer, a plain string, a string with a quote, and the absent value.

  lemma InsertExampleInt()
    ensures InsertStatement("public", "test", ["id"], [("id", Int(1))]) == Ok("INSERT INTO public.test (id) VALUES (1);")
  {
    ExampleRenders();
    ExampleInsert(Int(1), "1");
    assert "INSERT INTO public.test (id) VALUES (" + "1" + ");" == "INSERT INTO public.test (id) VALUES (1);";
  }

  lemma InsertExampleText()
    ensures InsertStatement("public", "test", ["id"], [("id", Text("a"))]) == Ok("INSERT INTO public.test (id) VALUES ('a');")
    ensures InsertStatement("public", "test", ["id"], [("id", Text("a'"))]) == Ok("INSERT INTO public.test (id) VALUES ('a''');")
  {
    ExampleRenders();
    ExampleInsert(Text("a"), "'a'");
    assert "INSERT INTO public.test (id) VALUES (" + "'a'" + ");" == "INSERT INTO public.test (id) VALUES ('a');";
    ExampleInsert(Text("a'"), "'a'''");
    assert "INSERT INTO public.test (id) VALUES (" + "'a'''" + ");" == "INSERT INTO public.test (id) VALUES ('a''');";
  }

  lemma InsertExampleNull()
    ensures InsertStatement("public", "test", ["id"], [("id", Null)]) == Ok("INSERT INTO public.test (id) VALUES (NULL);")
  {
    ExampleRenders();
    ExampleInsert(Null, "NULL");
    assert "INSERT INTO public.test (id) VALUES (" + "NULL" + ");" == "INSERT INTO public.test (id) VALUES (NULL);";
  }
}
