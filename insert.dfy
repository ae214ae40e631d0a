/**
 * `insert_dataframe_to_sql` (insert_data.py): one parameterised INSERT
 * statement for the frame's columns, executed once per row, then one commit.
 * The cursor and the connection are one `Connection` whose log records the
 * calls in the order they are made.
 */
module Insert {
  import opened Text
  import opened Frame

  /** `[col]` for every column, in column order. */
  function Bracketed(cols: seq<string>): (r: seq<string>)
    ensures |r| == |cols| && forall i | 0 <= i < |cols| :: r[i] == "[" + cols[i] + "]"
  {
    seq(|cols|, i requires 0 <= i < |cols| => "[" + cols[i] + "]")
  }

  function Placeholders(n: nat): (r: seq<string>)
    ensures |r| == n && forall i | 0 <= i < n :: r[i] == "?"
  {
    seq(n, i => "?")
  }

  /** Line 11: `INSERT INTO <table> (<columns>) VALUES (<placeholders>)`. */
  function InsertStatement(table: string, cols: seq<string>): string
  {
    "INSERT INTO " + table + " (" + Join(", ", Bracketed(cols)) + ") VALUES ("
      + Join(", ", Placeholders(|cols|)) + ")"
  }

  lemma {:induction false} AbsentOccurrences(s: string, c: char)
    requires c !in s
    ensures Occurrences(s, c) == 0
    decreases |s|
  {
    if s != [] {
      assert s[0] in s;
      assert forall x | x in s[1..] :: x in s;
      AbsentOccurrences(s[1..], c);
    }
  }

  /** Joining parts that each hold `c` once, with a separator without it, gives one `c` per part. */
  lemma {:induction false} JoinOccurrences(sep: string, parts: seq<string>, c: char)
    requires c !in sep
    requires forall i | 0 <= i < |parts| :: Occurrences(parts[i], c) == 1
    ensures Occurrences(Join(sep, parts), c) == |parts|
    decreases |parts|
  {
    if |parts| >= 2 {
      JoinOccurrences(sep, parts[1..], c);
      AbsentOccurrences(sep, c);
      OccurrencesAppend(parts[0] + sep, Join(sep, parts[1..]), c);
      OccurrencesAppend(parts[0], sep, c);
    }
  }

  lemma BracketOnce(col: string, c: char)
    requires c !in col && c != ']'
    ensures Occurrences("[" + col + "]", c) == (if c == '[' then 1 else 0)
  {
    AbsentOccurrences(col, c);
    OccurrencesAppend("[" + col, "]", c);
    OccurrencesAppend("[", col, c);
  }

  /**
   * One `?` per column: the placeholder list holds exactly as many as there
   * are columns, and so does the whole statement when neither the table nor
   * a column name contains `?` itself.
   */
  lemma PlaceholderCount(table: string, cols: seq<string>)
    ensures Occurrences(Join(", ", Placeholders(|cols|)), '?') == |cols|
    ensures '?' !in table && (forall i | 0 <= i < |cols| :: '?' !in cols[i]) ==>
      Occurrences(InsertStatement(table, cols), '?') == |cols|
  {
    MarksInPlaceholders(|cols|);
    if '?' !in table && (forall i | 0 <= i < |cols| :: '?' !in cols[i]) {
      var b := Bracketed(cols);
      forall i | 0 <= i < |b| ensures Occurrences(b[i], '?') == 0 {
        BracketOnce(cols[i], '?');
      }
      BracketedNone(b, '?');
      AbsentOccurrences(table, '?');
      StatementMarks(table, cols);
    }
  }

  /** The joined placeholders hold one `?` each. */
  lemma MarksInPlaceholders(n: nat)
    ensures Occurrences(Join(", ", Placeholders(n)), '?') == n
  {
    var p := Placeholders(n);
    forall i | 0 <= i < |p| ensures Occurrences(p[i], '?') == 1 {
      assert p[i] == "?";
    }
    JoinOccurrences(", ", p, '?');
  }

  /** The `?` of the statement are those of the table name, the column list and the placeholders. */
  lemma StatementMarks(table: string, cols: seq<string>)
    ensures Occurrences(InsertStatement(table, cols), '?') == Occurrences(table, '?')
      + Occurrences(Join(", ", Bracketed(cols)), '?') + Occurrences(Join(", ", Placeholders(|cols|)), '?')
  {
    LiteralsWithoutMark();
    SevenParts("INSERT INTO ", table, " (", Join(", ", Bracketed(cols)), ") VALUES (",
      Join(", ", Placeholders(|cols|)), ")", '?');
  }

  /** The fixed text of the statement holds no `?`. */
  lemma LiteralsWithoutMark()
    ensures Occurrences("INSERT INTO ", '?') == 0 && Occurrences(" (", '?') == 0
    ensures Occurrences(") VALUES (", '?') == 0 && Occurrences(")", '?') == 0
  {
    NoMarkInInsertInto();
    NoMarkInValues();
    AbsentOccurrences(" (", '?');
    AbsentOccurrences(")", '?');
  }

  lemma NoMarkInInsertInto()
    ensures Occurrences("INSERT INTO ", '?') == 0
  {
    AbsentOccurrences("INSERT INTO ", '?');
  }

  lemma NoMarkInValues()
    ensures Occurrences(") VALUES (", '?') == 0
  {
    AbsentOccurrences(") VALUES (", '?');
  }

  lemma SevenParts(a: string, b: string, c: string, d: string, e: string, f: string, g: string, ch: char)
    ensures Occurrences(a + b + c + d + e + f + g, ch) == Occurrences(a, ch) + Occurrences(b, ch)
      + Occurrences(c, ch) + Occurrences(d, ch) + Occurrences(e, ch) + Occurrences(f, ch) + Occurrences(g, ch)
  {
    OccurrencesAppend(a, b, ch);
    OccurrencesAppend(a + b, c, ch);
    OccurrencesAppend(a + b + c, d, ch);
    OccurrencesAppend(a + b + c + d, e, ch);
    OccurrencesAppend(a + b + c + d + e, f, ch);
    OccurrencesAppend(a + b + c + d + e + f, g, ch);
  }

  lemma {:induction false} BracketedNone(parts: seq<string>, c: char)
    requires c != ',' && c != ' '
    requires forall i | 0 <= i < |parts| :: Occurrences(parts[i], c) == 0
    ensures Occurrences(Join(", ", parts), c) == 0
    decreases |parts|
  {
    if |parts| >= 2 {
      BracketedNone(parts[1..], c);
      AbsentOccurrences(", ", c);
      OccurrencesAppend(parts[0] + ", ", Join(", ", parts[1..]), c);
      OccurrencesAppend(parts[0], ", ", c);
    }
  }

  /** One bracket pair per column, when no column name contains a square bracket. */
  lemma BracketCount(cols: seq<string>)
    requires forall i | 0 <= i < |cols| :: '[' !in cols[i] && ']' !in cols[i]
    ensures Occurrences(Join(", ", Bracketed(cols)), '[') == |cols|
  {
    var b := Bracketed(cols);
    forall i | 0 <= i < |b| ensures Occurrences(b[i], '[') == 1 {
      BracketOnce(cols[i], '[');
    }
    JoinOccurrences(", ", b, '[');
  }

  /** What the cursor and the connection are asked to do. */
  datatype Event = Execute(sql: string, params: Row) | Commit

  /** The executes for `rows`, in row order. */
  function Executes(sql: string, rows: seq<Row>): (r: seq<Event>)
    ensures |r| == |rows| && forall i | 0 <= i < |rows| :: r[i] == Execute(sql, rows[i])
  {
    seq(|rows|, i requires 0 <= i < |rows| => Execute(sql, rows[i]))
  }

  /**
   * The server's verdict on the execute of row `j`, given what the
   * connection had already been asked to do: the earlier log `prior` and the
   * executes of rows `0` to `j - 1` of this batch. A UNIQUE key repeated
   * within the batch is rejected on its second execute, say.
   */
  predicate Rejected(sql: string, rows: seq<Row>, rejects: (seq<Event>, string, Row) -> bool, prior: seq<Event>, j: nat)
    requires j < |rows|
  {
    rejects(prior + Executes(sql, rows[..j]), sql, rows[j])
  }

  /**
   * The position of the first row, at or after `i`, whose execute the server
   * rejects (a violated NOT NULL, UNIQUE or foreign-key constraint, say), or
   * `|rows|` when it accepts them all.
   */
  function FirstRejectedFrom(sql: string, rows: seq<Row>, rejects: (seq<Event>, string, Row) -> bool, prior: seq<Event>, i: nat): (k: nat)
    requires i <= |rows|
    ensures i <= k <= |rows|
    ensures forall j | i <= j < k :: !Rejected(sql, rows, rejects, prior, j)
    ensures k < |rows| ==> Rejected(sql, rows, rejects, prior, k)
    decreases |rows| - i
  {
    if i == |rows| then i
    else if Rejected(sql, rows, rejects, prior, i) then i
    else FirstRejectedFrom(sql, rows, rejects, prior, i + 1)
  }

  /** The first rejected row of the batch, or `|rows|`. */
  function FirstRejected(sql: string, rows: seq<Row>, rejects: (seq<Event>, string, Row) -> bool, prior: seq<Event>): nat
  {
    FirstRejectedFrom(sql, rows, rejects, prior, 0)
  }

  /**
   * The calls `insert_dataframe_to_sql` makes on a connection whose log is
   * `prior`: one execute per row, then a single commit. An execute that
   * raises ends the loop and the function, so the commit is never reached.
   */
  function InsertEvents(table: string, t: Table, rejects: (seq<Event>, string, Row) -> bool, prior: seq<Event>): seq<Event>
  {
    var sql := InsertStatement(table, t.columns);
    var k := FirstRejected(sql, t.rows, rejects, prior);
    if k < |t.rows| then Executes(sql, t.rows[..k + 1]) else Executes(sql, t.rows) + [Commit]
  }

  /**
   * The log of one insert: the executes of the same statement in row order,
   * each with a tuple as long as the placeholder list, up to and including
   * the first rejected row; the commit comes after all rows, and only when
   * none was rejected.
   */
  lemma InsertEventsShape(table: string, t: Table, rejects: (seq<Event>, string, Row) -> bool, prior: seq<Event>)
    requires WellFormed(t)
    ensures var sql := InsertStatement(table, t.columns);
      var k := FirstRejected(sql, t.rows, rejects, prior);
      var e := InsertEvents(table, t, rejects, prior);
      && k <= |t.rows|
      && (forall j | 0 <= j < k :: !Rejected(sql, t.rows, rejects, prior, j))
      && (k < |t.rows| ==> Rejected(sql, t.rows, rejects, prior, k))
      && |e| == (if k < |t.rows| then k + 1 else |t.rows| + 1)
      && (forall i | 0 <= i < |e| && i < |t.rows| :: e[i] == Execute(sql, t.rows[i]))
      && (forall i | 0 <= i < |e| && i < |t.rows| :: |e[i].params| == Occurrences(Join(", ", Placeholders(|t.columns|)), '?'))
      && (forall i | 0 <= i < |e| :: e[i] == Commit <==> i == |t.rows|)
      && (Commit in e <==> forall i | 0 <= i < |t.rows| :: !Rejected(sql, t.rows, rejects, prior, i))
  {
    PlaceholderCount(table, t.columns);
    var sql := InsertStatement(table, t.columns);
    var k := FirstRejected(sql, t.rows, rejects, prior);
    var e := InsertEvents(table, t, rejects, prior);
    if k < |t.rows| {
      assert e == Executes(sql, t.rows[..k + 1]);
      assert Commit !in e by {
        forall i | 0 <= i < |e| ensures e[i] != Commit {
          assert e[i] == Execute(sql, t.rows[i]);
        }
      }
    } else {
      assert e[|t.rows|] == Commit;
    }
  }

  /**
   * A row repeated under a UNIQUE key: the first execute is accepted, the
   * second raises, and nothing is committed.
   */
  lemma DuplicateRowAborts(table: string, cols: seq<string>, r: Row)
    ensures var sql := InsertStatement(table, cols);
      InsertEvents(table, Table(cols, [r, r]), (h: seq<Event>, q: string, x: Row) => Execute(q, x) in h, [])
        == [Execute(sql, r), Execute(sql, r)]
  {
    var sql := InsertStatement(table, cols);
    var rows := [r, r];
    var rejects := (h: seq<Event>, q: string, x: Row) => Execute(q, x) in h;
    assert rows[..0] == [] && rows[..1] == [r];
    assert Executes(sql, [r]) == [Execute(sql, r)];
    assert !Rejected(sql, rows, rejects, [], 0);
    assert Rejected(sql, rows, rejects, [], 1);
    FirstRejectedAt(sql, rows, rejects, [], 1);
    assert rows[..2] == rows;
  }

  lemma ExecutesSnoc(sql: string, rows: seq<Row>, i: nat)
    requires i < |rows|
    ensures Executes(sql, rows[..i]) + [Execute(sql, rows[i])] == Executes(sql, rows[..i + 1])
  {
  }

  /** The first rejection is the one the insert loop runs into. */
  lemma FirstRejectedAt(sql: string, rows: seq<Row>, rejects: (seq<Event>, string, Row) -> bool, prior: seq<Event>, i: nat)
    requires i < |rows| && Rejected(sql, rows, rejects, prior, i)
    requires forall j | 0 <= j < i :: !Rejected(sql, rows, rejects, prior, j)
    ensures FirstRejected(sql, rows, rejects, prior) == i
  {
  }

  /**
   * The connection and its cursor; `rejects` is the server's verdict on an
   * execute, given everything the connection was asked before.
   */
  class Connection {
    var log: seq<Event>
    const rejects: (seq<Event>, string, Row) -> bool

    constructor(rejects: (seq<Event>, string, Row) -> bool)
      ensures log == [] && this.rejects == rejects
    {
      log := [];
      this.rejects := rejects;
    }

    /** `cursor.execute(sql, params)`; `ok` is false when it raises. */
    method Execute(sql: string, params: Row) returns (ok: bool)
      modifies this
      ensures ok == !rejects(old(log), sql, params)
      ensures log == old(log) + [Event.Execute(sql, params)]
    {
      ok := !rejects(log, sql, params);
      log := log + [Event.Execute(sql, params)];
    }

    /** `conn.commit()`. */
    method Commit()
      modifies this
      ensures log == old(log) + [Event.Commit]
    {
      log := log + [Event.Commit];
    }
  }

  /**
   * Lines 13-14: `cursor.execute` for each row in order, up to and including
   * the first one that raises; `ok` is false when one did.
   */
  method ExecuteRows(sql: string, rows: seq<Row>, conn: Connection) returns (ok: bool)
    modifies conn
    ensures var k := FirstRejected(sql, rows, conn.rejects, old(conn.log));
      && ok == (k == |rows|)
      && conn.log == old(conn.log) + (if k < |rows| then Executes(sql, rows[..k + 1]) else Executes(sql, rows))
  {
    for i := 0 to |rows|
      invariant conn.log == old(conn.log) + Executes(sql, rows[..i])
      invariant forall j | 0 <= j < i :: !Rejected(sql, rows, conn.rejects, old(conn.log), j)
    {
      var accepted := conn.Execute(sql, rows[i]);
      ExecutesSnoc(sql, rows, i);
      if !accepted {
        FirstRejectedAt(sql, rows, conn.rejects, old(conn.log), i);
        return false;
      }
    }
    assert rows[..|rows|] == rows;
    ok := true;
  }

  /**
   * Lines 8-16; the confirmation message is not modelled. `ok` is false
   * when an execute raised, which leaves the function before the commit.
   */
  method InsertDataframeToSql(df: DataFrame, tableName: string, conn: Connection) returns (ok: bool)
    requires df.Valid()
    modifies conn
    ensures conn.log == old(conn.log) + InsertEvents(tableName, df.Value(), conn.rejects, old(conn.log))
    ensures ok <==> forall i | 0 <= i < |df.rows| ::
      !Rejected(InsertStatement(tableName, df.columns), df.rows, conn.rejects, old(conn.log), i)
  {
    var columns := Join(", ", Bracketed(df.columns));
    var placeholders := Join(", ", Placeholders(|df.columns|));
    var sql := "INSERT INTO " + tableName + " (" + columns + ") VALUES (" + placeholders + ")";
    assert sql == InsertStatement(tableName, df.columns);
    ok := ExecuteRows(sql, df.rows, conn);
    if ok {
      conn.Commit();
    }
  }
}
