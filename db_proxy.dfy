/** The SQL side of the database proxy: value escaping for MySQL string
    literals, the WHERE / SELECT / INSERT / UPDATE / DELETE statement
    texts executeExternalQuery sends, the db_config completeness and
    default rules, and the routing of a request between the external
    MySQL database and the default Supabase back end. Driver and client
    calls are left out; a request's outcome is the list of statements it
    would send, or the error it replies with. */
module DbProxy {
  import opened Wrappers
  import opened Text

  /** The largest integer a JSON number (an IEEE double) holds exactly,
      2^53 - 1 (Number.MAX_SAFE_INTEGER); up to it, String(n) is the exact
      decimal text. */
  const MaxSafeInteger: int := 0x1F_FFFF_FFFF_FFFF

  /** The integers a JSON number carries exactly. */
  type SafeInt = n: int | -MaxSafeInteger <= n <= MaxSafeInteger

  /** The request values escapeValue handles: null/undefined, safe
      integers, booleans, strings, and any other JSON value (an object or
      an array), which escapeValue turns into text with String(value);
      `text` is that text. */
  datatype SqlValue = Null | Num(n: SafeInt) | Bool(b: bool) | Str(s: string) | Other(text: string)

  /** A JSON object as its Object.entries list. */
  type Record = seq<(string, SqlValue)>

  // ============================================================ escaping

  function Occurrences(s: string, c: char): nat
  {
    if |s| == 0 then 0 else (if s[0] == c then 1 else 0) + Occurrences(s[1..], c)
  }

  /** s.replace(/c/g, c + c) */
  function DoubleEvery(s: string, c: char): (r: string)
    ensures |r| == |s| + Occurrences(s, c)
  {
    if |s| == 0 then ""
    else (if s[0] == c then [c, c] else [s[0]]) + DoubleEvery(s[1..], c)
  }

  lemma {:induction false} DoubleEveryAppend(a: string, b: string, c: char)
    ensures DoubleEvery(a + b, c) == DoubleEvery(a, c) + DoubleEvery(b, c)
  {
    if |a| == 0 {
      assert a + b == b;
    } else {
      var head := if a[0] == c then [c, c] else [a[0]];
      assert (a + b)[0] == a[0];
      assert (a + b)[1..] == a[1..] + b;
      DoubleEveryAppend(a[1..], b, c);
      calc {
        DoubleEvery(a + b, c);
        head + DoubleEvery(a[1..] + b, c);
        head + (DoubleEvery(a[1..], c) + DoubleEvery(b, c));
        (head + DoubleEvery(a[1..], c)) + DoubleEvery(b, c);
      }
    }
  }

  /** The escape of one character: quote and backslash doubled. */
  function EscapeChar(c: char): string
  {
    if c == '\'' then "''" else if c == '\\' then "\\\\" else [c]
  }

  /** The string escape as a single pass over the characters. */
  function EscapeChars(s: string): (r: string)
    ensures |r| == |s| + Occurrences(s, '\'') + Occurrences(s, '\\')
  {
    if |s| == 0 then "" else EscapeChar(s[0]) + EscapeChars(s[1..])
  }

  /** Doubling the quotes and then the backslashes is the single pass:
      the second replace never sees a backslash the first one made. */
  lemma {:induction false} TwoReplacesAreOnePass(s: string)
    ensures DoubleEvery(DoubleEvery(s, '\''), '\\') == EscapeChars(s)
  {
    if |s| > 0 {
      var head := if s[0] == '\'' then ['\'', '\''] else [s[0]];
      assert DoubleEvery(s, '\'') == head + DoubleEvery(s[1..], '\'');
      DoubleEveryAppend(head, DoubleEvery(s[1..], '\''), '\\');
      if s[0] == '\'' {
        assert head[1..][1..] == [];
      } else {
        assert head[1..] == [];
      }
      assert DoubleEvery(head, '\\') == EscapeChar(s[0]);
      TwoReplacesAreOnePass(s[1..]);
    }
  }

  /** escapeValue for the value kinds a request carries. */
  function EscapeValue(v: SqlValue): (r: string)
    ensures v.Null? ==> r == "NULL"
    ensures v.Bool? ==> r == (if v.b then "1" else "0")
    ensures v.Num? ==> r == IntToString(v.n)
    ensures v.Str? ==> r == "'" + EscapeChars(v.s) + "'"
    ensures v.Other? ==> r == "'" + EscapeChars(v.text) + "'"
  {
    match v
    case Null => "NULL"
    case Num(n) => IntToString(n)
    case Bool(b) => if b then "1" else "0"
    case Str(s) =>
      TwoReplacesAreOnePass(s);
      "'" + DoubleEvery(DoubleEvery(s, '\''), '\\') + "'"
    case Other(text) =>
      TwoReplacesAreOnePass(text);
      "'" + DoubleEvery(DoubleEvery(text, '\''), '\\') + "'"
  }

  /** An object or an array is quoted and escaped exactly like the string
      String(value) gives for it. */
  lemma OtherEscapesAsItsText(text: string)
    ensures EscapeValue(Other(text)) == EscapeValue(Str(text))
  {
  }

  /** An escaped string is its characters plus one per quote and per
      backslash, plus the two enclosing quotes. */
  lemma EscapedLength(s: string)
    ensures |EscapeValue(Str(s))| == |s| + Occurrences(s, '\'') + Occurrences(s, '\\') + 2
  {
  }

  /** Booleans are the numbers 1 and 0, and no null, number or boolean
      holds a quote. */
  lemma NonStringsAreBare(v: SqlValue)
    requires v.Null? || v.Num? || v.Bool?
    ensures forall i :: 0 <= i < |EscapeValue(v)| ==> EscapeValue(v)[i] != '\''
    ensures v.Bool? ==> EscapeValue(v) == EscapeValue(Num(if v.b then 1 else 0))
  {
    if v.Num? {
      var t := EscapeValue(v);
      if v.n < 0 {
        assert forall i :: 1 <= i < |t| ==> t[i] == t[1..][i - 1];
      }
    }
  }

  // ------------------------------------------- reading a literal back

  function Prepend(p: string, o: Option<(string, string)>): Option<(string, string)>
  {
    if o.None? then None else Some((p + o.value.0, o.value.1))
  }

  /** A backslash escape in a MySQL string literal (the "String Literals"
      section of the MySQL Reference Manual): \0 \' \" \b \n \r \t \Z \\
      denote one character; \% and \_ keep their backslash; before any
      other character the backslash is dropped. */
  function Unescape(c: char): string
  {
    if c == '0' then [0 as char]
    else if c == 'b' then [8 as char]
    else if c == 'n' then [10 as char]
    else if c == 'r' then [13 as char]
    else if c == 't' then [9 as char]
    else if c == 'Z' then [26 as char]
    else if c == '%' || c == '_' then ['\\', c]
    else [c]
  }

  /** How MySQL reads the body of a single-quoted literal: '' is a quote,
      a backslash escapes the next character, a lone quote ends the
      literal. The value and the text after the closing quote, or None
      for an unterminated literal. */
  function ReadBody(t: string): Option<(string, string)>
    decreases |t|
  {
    if |t| == 0 then None
    else if t[0] == '\'' then
      if |t| >= 2 && t[1] == '\'' then Prepend("'", ReadBody(t[2..])) else Some(("", t[1..]))
    else if t[0] == '\\' then
      if |t| < 2 then None else Prepend(Unescape(t[1]), ReadBody(t[2..]))
    else Prepend([t[0]], ReadBody(t[1..]))
  }

  function ReadStringLiteral(t: string): Option<(string, string)>
  {
    if |t| > 0 && t[0] == '\'' then ReadBody(t[1..]) else None
  }

  lemma {:induction false} ReadBodyOfEscaped(s: string, rest: string)
    requires |rest| == 0 || rest[0] != '\''
    ensures ReadBody(EscapeChars(s) + "'" + rest) == Some((s, rest))
  {
    var t := EscapeChars(s) + "'" + rest;
    if |s| == 0 {
      assert t == "'" + rest;
    } else {
      ReadBodyOfEscaped(s[1..], rest);
      var tail := EscapeChars(s[1..]) + "'" + rest;
      assert t == EscapeChar(s[0]) + tail;
      if s[0] == '\'' || s[0] == '\\' {
        assert t[2..] == tail;
      } else {
        assert t[1..] == tail;
      }
      assert [s[0]] + s[1..] == s;
    }
  }

  /** Read by MySQL, an escaped string is exactly the original string,
      and the text after it is untouched, whenever that text does not
      start with a quote (in every statement here it starts with a space,
      a comma, a parenthesis or nothing). */
  lemma EscapedStringReadsBack(s: string, rest: string)
    requires |rest| == 0 || rest[0] != '\''
    ensures ReadStringLiteral(EscapeValue(Str(s)) + rest) == Some((s, rest))
  {
    var t := EscapeValue(Str(s)) + rest;
    assert t[1..] == EscapeChars(s) + "'" + rest;
    ReadBodyOfEscaped(s, rest);
  }

  /** Different strings escape differently. */
  lemma EscapeInjective(a: string, b: string)
    requires EscapeValue(Str(a)) == EscapeValue(Str(b))
    ensures a == b
  {
    EscapedStringReadsBack(a, "");
    EscapedStringReadsBack(b, "");
    assert EscapeValue(Str(a)) + "" == EscapeValue(Str(a));
    assert EscapeValue(Str(b)) + "" == EscapeValue(Str(b));
  }

  // ============================================================ clauses

  /** `key` = value */
  function Condition(key: string, v: SqlValue): string
  {
    "`" + key + "` = " + EscapeValue(v)
  }

  function Conditions(filters: Record): (cs: seq<string>)
    ensures |cs| == |filters|
    ensures forall i :: 0 <= i < |cs| ==> cs[i] == Condition(filters[i].0, filters[i].1)
  {
    seq(|filters|, i requires 0 <= i < |filters| => Condition(filters[i].0, filters[i].1))
  }

  /** params.filters && Object.keys(params.filters).length > 0 */
  predicate HasFilters(filters: Option<Record>)
  {
    filters.Some? && |filters.value| > 0
  }

  /** The WHERE clause: the conditions joined by AND, or nothing. */
  function WhereClause(filters: Option<Record>): (w: string)
    ensures w == "" <==> !HasFilters(filters)
    ensures HasFilters(filters) ==> w == " WHERE " + Join(Conditions(filters.value), " AND ")
  {
    if HasFilters(filters) then " WHERE " + Join(Conditions(filters.value), " AND ") else ""
  }

  /** A WHERE clause over n filters holds n conditions and n - 1 ANDs,
      and starts with the first filter's condition. */
  lemma WhereClauseShape(filters: Record)
    requires |filters| > 0
    ensures |WhereClause(Some(filters))| == 7 + TotalLength(Conditions(filters)) + (|filters| - 1) * 5
    ensures WhereClause(Some(filters))[..7 + |Condition(filters[0].0, filters[0].1)|]
         == " WHERE " + Condition(filters[0].0, filters[0].1)
  {
    var cs := Conditions(filters);
    JoinLength(cs, " AND ");
    JoinEnds(cs, " AND ");
  }

  /** A string filter's value is read back by MySQL from the condition. */
  lemma ConditionReadsBack(key: string, s: string, rest: string)
    requires |rest| == 0 || rest[0] != '\''
    ensures Condition(key, Str(s))[..|key| + 5] == "`" + key + "` = "
    ensures ReadStringLiteral(Condition(key, Str(s))[|key| + 5..] + rest) == Some((s, rest))
  {
    var c := Condition(key, Str(s));
    assert c[|key| + 5..] == EscapeValue(Str(s));
    EscapedStringReadsBack(s, rest);
  }

  // ============================================================= SELECT

  datatype Order = Order(column: string, ascending: bool)

  /** columns || '*' */
  function SelectedColumns(columns: Option<string>): (c: string)
    ensures c == "*" <==> columns.None? || columns.value == "" || columns.value == "*"
    ensures c != ""
  {
    if columns.None? || columns.value == "" then "*" else columns.value
  }

  /** limit || 100: absent and 0 both mean 100. */
  function EffectiveLimit(limit: Option<int>): (n: int)
    ensures n != 0
    ensures limit.Some? && limit.value != 0 ==> n == limit.value
    ensures limit.None? || limit.value == 0 ==> n == 100
  {
    if limit.None? || limit.value == 0 then 100 else limit.value
  }

  function OrderClause(order: Option<Order>): (o: string)
    ensures order.None? <==> o == ""
    ensures order.Some? ==> o == " ORDER BY `" + order.value.column + "` " + (if order.value.ascending then "ASC" else "DESC")
  {
    if order.None? then "" else " ORDER BY `" + order.value.column + "` " + (if order.value.ascending then "ASC" else "DESC")
  }

  /** The select statement: it starts with its column list and table and
      ends with a LIMIT whose number is never 0; in between are only the
      WHERE clause of the filters and the ORDER BY of `order`. */
  function SelectQuery(table: string, columns: Option<string>, filters: Option<Record>, order: Option<Order>, limit: Option<int>): (q: string)
    ensures var head := "SELECT " + SelectedColumns(columns) + " FROM `" + table + "`";
      var tail := " LIMIT " + IntToString(EffectiveLimit(limit));
      && |q| >= |head| + |tail|
      && q[..|head|] == head
      && q[|q| - |tail|..] == tail
      && q[|head|..|q| - |tail|] == WhereClause(filters) + OrderClause(order)
  {
    var head := "SELECT " + SelectedColumns(columns) + " FROM `" + table + "`";
    var tail := " LIMIT " + IntToString(EffectiveLimit(limit));
    Framed(head, WhereClause(filters), OrderClause(order), tail);
    head + WhereClause(filters) + OrderClause(order) + tail
  }

  /** The parts of a four-part concatenation can be cut back out. */
  lemma Framed(head: string, a: string, b: string, tail: string)
    ensures var q := head + a + b + tail;
      && |q| == |head| + |a| + |b| + |tail|
      && q[..|head|] == head
      && q[|q| - |tail|..] == tail
      && q[|head|..|q| - |tail|] == a + b
  {
    var q := head + a + b + tail;
    assert q == head + (a + b) + tail;
  }

  /** The select statement, appended to step by step. */
  method BuildSelect(table: string, columns: Option<string>, filters: Option<Record>, order: Option<Order>, limit: Option<int>)
    returns (query: string)
    ensures query == SelectQuery(table, columns, filters, order, limit)
  {
    var head := "SELECT " + SelectedColumns(columns) + " FROM `" + table + "`";
    query := head;
    if HasFilters(filters) {
      query := query + WhereClause(filters);
    }
    assert query == head + WhereClause(filters);
    if order.Some? {
      query := query + OrderClause(order);
    }
    assert query == head + WhereClause(filters) + OrderClause(order);
    var tail := " LIMIT " + IntToString(EffectiveLimit(limit));
    query := query + tail;
    assert query == head + WhereClause(filters) + OrderClause(order) + tail;
  }

  // ============================================================= INSERT

  function InsertColumns(data: Record): (cols: seq<string>)
    ensures |cols| == |data|
    ensures forall i :: 0 <= i < |data| ==> cols[i] == "`" + data[i].0 + "`"
  {
    seq(|data|, i requires 0 <= i < |data| => "`" + data[i].0 + "`")
  }

  function InsertValues(data: Record): (vals: seq<string>)
    ensures |vals| == |data|
    ensures forall i :: 0 <= i < |data| ==> vals[i] == EscapeValue(data[i].1)
  {
    seq(|data|, i requires 0 <= i < |data| => EscapeValue(data[i].1))
  }

  /** The insert statement: the table, then the column list and the value
      list in parentheses; an empty data object gives empty lists. */
  function InsertQuery(table: string, data: Record): (q: string)
    ensures var head := "INSERT INTO `" + table + "` (";
      |q| > |head| && q[..|head|] == head && q[|q| - 1] == ')'
    ensures |data| == 0 ==> q == "INSERT INTO `" + table + "` () VALUES ()"
  {
    "INSERT INTO `" + table + "` (" + Join(InsertColumns(data), ", ") + ") VALUES (" + Join(InsertValues(data), ", ") + ")"
  }

  /** The column list and the value list have one entry per data field,
      in the same order, and each string value reads back as written. */
  lemma InsertListsAligned(data: Record, i: nat)
    requires i < |data|
    ensures |InsertColumns(data)| == |InsertValues(data)| == |data|
    ensures InsertColumns(data)[i] == "`" + data[i].0 + "`"
    ensures data[i].1.Str? ==> ReadStringLiteral(InsertValues(data)[i]) == Some((data[i].1.s, ""))
  {
    if data[i].1.Str? {
      EscapedStringReadsBack(data[i].1.s, "");
      assert EscapeValue(data[i].1) + "" == EscapeValue(data[i].1);
    }
  }

  /** The follow-up select for the inserted row: the id as decimal text
      after the table's `id =` test. */
  function InsertedRowQuery(table: string, lastInsertId: int): (q: string)
    ensures var head := "SELECT * FROM `" + table + "` WHERE id = ";
      |q| > |head| && q[..|head|] == head && q[|head|..] == IntToString(lastInsertId)
  {
    "SELECT * FROM `" + table + "` WHERE id = " + IntToString(lastInsertId)
  }

  /** Different ids fetch different rows: the follow-up names one id. */
  lemma InsertedRowQueryInjective(table: string, a: int, b: int)
    requires InsertedRowQuery(table, a) == InsertedRowQuery(table, b)
    ensures a == b
  {
    var head := "SELECT * FROM `" + table + "` WHERE id = ";
    assert InsertedRowQuery(table, a)[|head|..] == InsertedRowQuery(table, b)[|head|..];
    IntToStringInjective(a, b);
  }

  /** The text String gives a plain object. */
  function PlainObjectText(): (s: string)
    ensures forall i :: 0 <= i < |s| ==> s[i] != '\'' && s[i] != '\\'
  {
    "[object Object]"
  }

  /** A text without quotes and backslashes is its own escape. */
  lemma {:induction false} EscapeCharsPlain(s: string)
    requires forall i :: 0 <= i < |s| ==> s[i] != '\'' && s[i] != '\\'
    ensures EscapeChars(s) == s
  {
    if |s| > 0 {
      EscapeCharsPlain(s[1..]);
      assert [s[0]] + s[1..] == s;
    }
  }

  /** An array `data` of n row objects as Object.keys, Object.values and
      Object.entries see it: the indices as keys, each row an object. */
  function ArrayData(n: nat): (d: Record)
    ensures |d| == n
    ensures forall i :: 0 <= i < n ==> d[i] == (NatToString(i), Other(PlainObjectText()))
  {
    seq(n, i requires 0 <= i < n => (NatToString(i), Other(PlainObjectText())))
  }

  /** A value whose text holds no quote and no backslash is that text
      between quotes. */
  lemma PlainTextEscape(s: string)
    requires forall i :: 0 <= i < |s| ==> s[i] != '\'' && s[i] != '\\'
    ensures EscapeValue(Other(s)) == "'" + s + "'"
  {
    EscapeCharsPlain(s);
  }

  /** An array of rows is not inserted row by row: the statement has one
      column per index, named by the index, and every value is the quoted
      text of a plain object. */
  lemma ArrayInsertLists(n: nat, i: nat)
    requires i < n
    ensures InsertColumns(ArrayData(n))[i] == "`" + NatToString(i) + "`"
    ensures InsertValues(ArrayData(n))[i] == "'" + PlainObjectText() + "'"
  {
    var d := ArrayData(n);
    assert d[i].1 == Other(PlainObjectText());
    assert InsertValues(d)[i] == EscapeValue(Other(PlainObjectText()));
    PlainTextEscape(PlainObjectText());
  }

  // ============================================================= UPDATE

  /** The update statement: the table and the assignments, then the WHERE
      clause of the filters, so an unfiltered update sets every row. */
  function UpdateQuery(table: string, data: Record, filters: Option<Record>): (q: string)
    ensures var head := "UPDATE `" + table + "` SET ";
      var w := WhereClause(filters);
      && |q| >= |head| + |w|
      && q[..|head|] == head
      && q[|q| - |w|..] == w
    ensures !HasFilters(filters) ==> q == "UPDATE `" + table + "` SET " + Join(Conditions(data), ", ")
  {
    "UPDATE `" + table + "` SET " + Join(Conditions(data), ", ") + WhereClause(filters)
  }

  /** The update statement, appended to step by step. */
  method BuildUpdate(table: string, data: Record, filters: Option<Record>) returns (query: string)
    ensures query == UpdateQuery(table, data, filters)
  {
    var sets := Join(Conditions(data), ", ");
    query := "UPDATE `" + table + "` SET " + sets;
    if filters.Some? && |filters.value| > 0 {
      query := query + " WHERE " + Join(Conditions(filters.value), " AND ");
    }
  }

  /** The follow-up select for the updated rows, under the same filter:
      with filters it is the delete's select of the same rows, without
      them the whole table. */
  function UpdatedRowsQuery(table: string, filters: Option<Record>): (q: string)
    ensures HasFilters(filters) ==> DeleteQueries(table, filters).Ok? && q == DeleteQueries(table, filters).value.0
    ensures !HasFilters(filters) ==> q == "SELECT * FROM `" + table + "`"
  {
    "SELECT * FROM `" + table + "`" + WhereClause(filters)
  }

  /** The update and its follow-up select restrict to the same rows. */
  lemma UpdateAndSelectShareFilter(table: string, data: Record, filters: Option<Record>)
    ensures var u := UpdateQuery(table, data, filters);
      var w := WhereClause(filters);
      |u| >= |w| && u[|u| - |w|..] == w
    ensures var s := UpdatedRowsQuery(table, filters);
      var w := WhereClause(filters);
      |s| >= |w| && s[|s| - |w|..] == w
  {
  }

  // ============================================================= DELETE

  const DeleteRefused := "Delete requires filters for safety"

  /** The select of the rows to delete and the delete itself, or the
      refusal when no filter is given. */
  function DeleteQueries(table: string, filters: Option<Record>): (r: Result<(string, string)>)
    ensures r.Err? <==> !HasFilters(filters)
    ensures r.Err? ==> r.error == DeleteRefused
    ensures r.Ok? ==> r.value.0 == "SELECT * FROM `" + table + "`" + WhereClause(filters)
    ensures r.Ok? ==> r.value.1 == "DELETE FROM `" + table + "`" + WhereClause(filters)
  {
    if !HasFilters(filters) then Err(DeleteRefused)
    else
      var conditions := Join(Conditions(filters.value), " AND ");
      Ok(("SELECT * FROM `" + table + "` WHERE " + conditions, "DELETE FROM `" + table + "` WHERE " + conditions))
  }

  /** A delete statement always carries a WHERE with at least one condition. */
  lemma DeleteAlwaysFiltered(table: string, filters: Option<Record>)
    requires DeleteQueries(table, filters).Ok?
    ensures var d := DeleteQueries(table, filters).value.1;
      var prefix := "DELETE FROM `" + table + "` WHERE " + Condition(filters.value[0].0, filters.value[0].1);
      |d| >= |prefix| && d[..|prefix|] == prefix
  {
    var cs := Conditions(filters.value);
    JoinEnds(cs, " AND ");
    var j := Join(cs, " AND ");
    var d := DeleteQueries(table, filters).value.1;
    assert d == "DELETE FROM `" + table + "` WHERE " + j;
  }

  // ======================================================= the requests

  datatype Request = Request(
    operation: string,
    table: string,
    columns: Option<string>,
    filters: Option<Record>,
    data: Option<Record>,
    order: Option<Order>,
    limit: Option<int>)

  /** The message of the TypeError Object.keys / Object.entries raise on a
      missing data object; the handler replies with it. */
  const MissingData := "Cannot convert undefined or null to object"

  /** executeExternalQuery: the statements sent to MySQL in order, or the
      error reply. lastInsertId is what the driver reports for an insert. */
  function ExternalStatements(req: Request, lastInsertId: int): (r: Result<seq<string>>)
    ensures req.operation == "test-connection" ==> r == Ok(["SELECT 1 as connected"])
    ensures req.operation == "select" ==> r == Ok([SelectQuery(req.table, req.columns, req.filters, req.order, req.limit)])
    ensures req.operation in {"insert", "update"} && req.data.None? ==> r == Err(MissingData)
    ensures req.operation == "update" && req.data.Some? ==>
      r == Ok([UpdateQuery(req.table, req.data.value, req.filters), UpdatedRowsQuery(req.table, req.filters)])
    ensures req.operation == "delete" ==> (r.Err? <==> !HasFilters(req.filters))
    ensures req.operation !in {"test-connection", "select", "insert", "update", "delete"} ==> r == Err("Unknown operation")
  {
    match req.operation
    case "test-connection" => Ok(["SELECT 1 as connected"])
    case "select" => Ok([SelectQuery(req.table, req.columns, req.filters, req.order, req.limit)])
    case "insert" =>
      if req.data.None? then Err(MissingData)
      else Ok([InsertQuery(req.table, req.data.value)]
              + (if lastInsertId != 0 then [InsertedRowQuery(req.table, lastInsertId)] else []))
    case "update" =>
      if req.data.None? then Err(MissingData)
      else Ok([UpdateQuery(req.table, req.data.value, req.filters), UpdatedRowsQuery(req.table, req.filters)])
    case "delete" =>
      var d := DeleteQueries(req.table, req.filters);
      if d.Err? then Err(d.error) else Ok([d.value.0, d.value.1])
    case _ => Err("Unknown operation")
  }

  /** The external database configuration. */
  datatype DbConfig = DbConfig(host: string, port: string, database: string, username: string, password: string, ssl: bool)

  /** The proxy's reply to a request. */
  datatype Reply =
    | ConfigReply(isExternalConfigured: bool, host: Option<string>)
    | External(result: Result<seq<string>>)
    | SupabaseTestOk
    | SupabaseCall(operation: string)
    | ErrorReply(message: string)

  /** The request handler: get-config answers from the stored config; with
      a complete config every other operation goes to MySQL, otherwise to
      Supabase, which also refuses an unfiltered delete. */
  function Handle(req: Request, config: Option<DbConfig>, lastInsertId: int): (r: Reply)
    ensures req.operation == "get-config" ==> r.ConfigReply? && (r.isExternalConfigured <==> config.Some?)
    ensures req.operation != "get-config" && config.Some? ==> r == External(ExternalStatements(req, lastInsertId))
    ensures config.None? && req.operation == "test-connection" ==> r == SupabaseTestOk
    ensures config.None? && req.operation in {"select", "insert", "update"} ==> r == SupabaseCall(req.operation)
    ensures config.None? && req.operation == "delete" ==>
              r == (if HasFilters(req.filters) then SupabaseCall("delete") else ErrorReply(DeleteRefused))
    ensures config.None? && req.operation !in {"get-config", "test-connection", "select", "insert", "update", "delete"} ==>
              r == ErrorReply("Unknown operation")
  {
    if req.operation == "get-config" then
      ConfigReply(config.Some?, if config.Some? && config.value.host != "" then Some(config.value.host) else None)
    else if config.Some? then External(ExternalStatements(req, lastInsertId))
    else if req.operation == "test-connection" then SupabaseTestOk
    else if req.operation in {"select", "insert", "update"} then SupabaseCall(req.operation)
    else if req.operation == "delete" then
      if !HasFilters(req.filters) then ErrorReply(DeleteRefused) else SupabaseCall("delete")
    else ErrorReply("Unknown operation")
  }

  /** Neither back end deletes without a filter: an unfiltered delete is
      refused with the same message, and no statement is sent. */
  lemma UnfilteredDeleteRefused(req: Request, config: Option<DbConfig>, lastInsertId: int)
    requires req.operation == "delete" && !HasFilters(req.filters)
    ensures Handle(req, config, lastInsertId) == ErrorReply(DeleteRefused)
         || Handle(req, config, lastInsertId) == External(Err(DeleteRefused))
  {
  }

  /** A filtered delete on MySQL sends the select of the doomed rows, then
      a delete restricted by the same WHERE clause. */
  lemma FilteredDeleteStatements(req: Request, lastInsertId: int)
    requires req.operation == "delete" && HasFilters(req.filters)
    ensures ExternalStatements(req, lastInsertId) == Ok([
      "SELECT * FROM `" + req.table + "`" + WhereClause(req.filters),
      "DELETE FROM `" + req.table + "`" + WhereClause(req.filters)])
  {
  }

  /** An insert fetches the new row only when the driver reports a non-zero id. */
  lemma InsertFollowUp(req: Request, lastInsertId: int)
    requires req.operation == "insert" && req.data.Some?
    ensures ExternalStatements(req, lastInsertId).Ok?
    ensures |ExternalStatements(req, lastInsertId).value| == (if lastInsertId != 0 then 2 else 1)
    ensures ExternalStatements(req, lastInsertId).value[0] == InsertQuery(req.table, req.data.value)
  {
  }

  // ============================================================ config

  /** new Map(rows): a later row for the same key replaces an earlier one. */
  function ConfigMap(rows: seq<(string, string)>): map<string, string>
  {
    if |rows| == 0 then map[]
    else ConfigMap(rows[..|rows| - 1])[rows[|rows| - 1].0 := rows[|rows| - 1].1]
  }

  /** The map has exactly the rows' keys, each with its last row's value. */
  lemma {:induction false} ConfigMapLastWins(rows: seq<(string, string)>, k: string)
    ensures k in ConfigMap(rows) <==> exists i :: 0 <= i < |rows| && rows[i].0 == k
    ensures forall i :: 0 <= i < |rows| && rows[i].0 == k && (forall j :: i < j < |rows| ==> rows[j].0 != k) ==>
      ConfigMap(rows)[k] == rows[i].1
  {
    if |rows| > 0 {
      var init := rows[..|rows| - 1];
      ConfigMapLastWins(init, k);
      assert forall i :: 0 <= i < |init| ==> init[i] == rows[i];
      if rows[|rows| - 1].0 != k && k in ConfigMap(init) {
        var i :| 0 <= i < |init| && init[i].0 == k;
        assert rows[i].0 == k;
      }
    }
  }

  /** The Map constructor: insert the rows in order. */
  method BuildConfigMap(rows: seq<(string, string)>) returns (m: map<string, string>)
    ensures m == ConfigMap(rows)
  {
    m := map[];
    for i := 0 to |rows|
      invariant m == ConfigMap(rows[..i])
    {
      assert rows[..i + 1][..i] == rows[..i];
      m := m[rows[i].0 := rows[i].1];
    }
    assert rows[..|rows|] == rows;
  }

  /** A map entry that is present and non-empty (JavaScript truthiness of a string). */
  predicate Present(m: map<string, string>, k: string)
  {
    k in m && m[k] != ""
  }

  /** getDbConfig over the query's rows (None for a query error or no data). */
  function GetDbConfig(rows: Option<seq<(string, string)>>): (c: Option<DbConfig>)
    ensures c.Some? <==> (rows.Some? && |rows.value| > 0 &&
      Present(ConfigMap(rows.value), "db_host") && Present(ConfigMap(rows.value), "db_name") &&
      Present(ConfigMap(rows.value), "db_user") && Present(ConfigMap(rows.value), "db_password"))
    ensures c.Some? ==> c.value.host != "" && c.value.database != "" && c.value.username != "" && c.value.password != ""
    ensures c.Some? ==> c.value.port == (if Present(ConfigMap(rows.value), "db_port") then ConfigMap(rows.value)["db_port"] else "3306")
    ensures c.Some? ==> (c.value.ssl <==> "db_ssl" in ConfigMap(rows.value) && ConfigMap(rows.value)["db_ssl"] == "true")
    ensures c.Some? ==> (c.value.host == ConfigMap(rows.value)["db_host"] && c.value.database == ConfigMap(rows.value)["db_name"]
      && c.value.username == ConfigMap(rows.value)["db_user"] && c.value.password == ConfigMap(rows.value)["db_password"])
  {
    if rows.None? || |rows.value| == 0 then None
    else
      var m := ConfigMap(rows.value);
      if !Present(m, "db_host") || !Present(m, "db_name") || !Present(m, "db_user") || !Present(m, "db_password") then None
      else Some(DbConfig(m["db_host"], if Present(m, "db_port") then m["db_port"] else "3306",
                         m["db_name"], m["db_user"], m["db_password"], "db_ssl" in m && m["db_ssl"] == "true"))
  }

  /** get-config reports the host of a complete configuration. */
  lemma ConfigReplyNamesHost(req: Request, rows: Option<seq<(string, string)>>, lastInsertId: int)
    requires req.operation == "get-config" && GetDbConfig(rows).Some?
    ensures Handle(req, GetDbConfig(rows), lastInsertId) == ConfigReply(true, Some(GetDbConfig(rows).value.host))
  {
  }
}
