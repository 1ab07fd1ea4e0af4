/** The connection handling of PostgresPersistence: `_connect` and
    `_execute_query`. The outcome of a connection attempt and how the
    statement ends are not visible in the program, so each call takes them
    as an `Env`. */
module Database {
  import opened Values
  import opened Tables

  /** The `conn` attribute: no connection object, an open one, or one the
      driver has marked closed. */
  datatype Conn = Absent | Open | Closed

  /** The persistence object's connection together with the table it reaches. */
  datatype Store = Store(conn: Conn, table: Table)

  /** How a statement ends once a connection is available: it completes;
      the server rejects it (a database error on a live connection, after
      which the rollback succeeds); or the connection is lost under it (the
      driver marks the connection closed, and the rollback itself raises). */
  datatype Outcome = Completes | Rejected | Dropped

  /** What the outside world does during one `_execute_query` call: whether a
      (re)connection attempt succeeds, and how the statement ends. */
  datatype Env = Env(reconnects: bool, outcome: Outcome)

  /** The SQL statements the program issues, by their parameters. */
  datatype Statement =
    | SelectConversations
    | SelectUserData
    | SelectChatId(userId: int)
    | UpsertConversation(userId: int, chatId: int, state: Option<string>)
    | UpsertUserData(userId: int, chatId: int, data: Data)
    | InsertUser(userId: int, chatId: int)

  /** The `fetch` argument: none (commit), 'one' or 'all'. */
  datatype Fetch = FetchNone | FetchOne | FetchAll

  /** The fetch mode each statement is executed with. */
  function FetchOf(q: Statement): Fetch
  {
    match q
    case SelectConversations => FetchAll
    case SelectUserData => FetchAll
    case SelectChatId(_) => FetchOne
    case _ => FetchNone
  }

  predicate IsWrite(q: Statement)
  {
    FetchOf(q) == FetchNone
  }

  /** One result row (a dictionary row); a SELECT's consumer reads only the
      columns the SELECT lists. */
  datatype ResultRow = ResultRow(userId: int, row: Row)

  /** What `_execute_query` returns (None, one row, or a list of rows), or
      `Raised` when an exception leaves it. */
  datatype Fetched = NoResult | OneRow(one: ResultRow) | AllRows(rows: seq<ResultRow>) | Raised

  /** `rows` lists every row of `t` exactly once, in some order. */
  predicate Enumerates(rows: seq<ResultRow>, t: Table)
  {
    && (forall i :: 0 <= i < |rows| ==> rows[i].userId in t && rows[i].row == t[rows[i].userId])
    && (forall u :: u in t ==> exists i :: 0 <= i < |rows| && rows[i].userId == u)
    && (forall i, j :: 0 <= i < j < |rows| ==> rows[i].userId != rows[j].userId)
  }

  /** Every row of the table, each exactly once, in ascending user_id order. */
  function Scan(t: Table): (rows: seq<ResultRow>)
    ensures Enumerates(rows, t)
  {
    var ks := SortedKeys(t.Keys);
    var rows := KeyedRows(t, ks);
    KeyedRowsEnumerate(t, ks, rows);
    rows
  }

  /** The rows of `t` for the keys `ks`, in the order of `ks`. */
  function KeyedRows(t: Table, ks: seq<int>): (rows: seq<ResultRow>)
    requires forall i :: 0 <= i < |ks| ==> ks[i] in t
    ensures |rows| == |ks|
    ensures forall i :: 0 <= i < |ks| ==> rows[i] == ResultRow(ks[i], t[ks[i]])
  {
    seq(|ks|, i requires 0 <= i < |ks| => ResultRow(ks[i], t[ks[i]]))
  }

  /** Rows built from a duplicate-free listing `ks` of the table's keys
      enumerate the table. */
  lemma KeyedRowsEnumerate(t: Table, ks: seq<int>, rows: seq<ResultRow>)
    requires |rows| == |ks|
    requires forall i :: 0 <= i < |ks| ==> ks[i] in t && rows[i] == ResultRow(ks[i], t[ks[i]])
    requires forall k :: k in t ==> k in ks
    requires forall i, j :: 0 <= i < j < |ks| ==> ks[i] < ks[j]
    ensures Enumerates(rows, t)
  {
    forall u | u in t
      ensures exists i :: 0 <= i < |rows| && rows[i].userId == u
    {
      var i :| 0 <= i < |ks| && ks[i] == u;
      assert rows[i].userId == u;
    }
  }

  /** The rows a statement selects; a write selects none. */
  function ResultSet(t: Table, q: Statement): seq<ResultRow>
  {
    match q
    case SelectConversations => Scan(t)
    case SelectUserData => Scan(t)
    case SelectChatId(u) => if u in t then [ResultRow(u, t[u])] else []
    case _ => []
  }

  /** The table once a statement has run and been committed. */
  function Effect(t: Table, q: Statement): Table
  {
    match q
    case UpsertConversation(u, c, s) => UpsertState(t, u, c, s)
    case UpsertUserData(u, c, d) => UpsertData(t, u, c, d)
    case InsertUser(u, c) => InsertIfAbsent(t, u, c)
    case _ => t
  }

  /** `_connect` when the handle is missing or closed: a failed attempt leaves
      no connection object. An open handle is kept. */
  function EnsureConnected(c: Conn, reconnects: bool): (r: Conn)
    ensures r == Open <==> c == Open || reconnects
    ensures r != Open ==> r == Absent
  {
    if c == Open then Open
    else if reconnects then Open
    else Absent
  }

  /** A connection is available for the statement after the reconnect step. */
  predicate Available(s: Store, env: Env)
  {
    s.conn == Open || env.reconnects
  }

  /** The statement runs to completion and its result (or commit) stands. */
  predicate Succeeds(s: Store, env: Env)
  {
    Available(s, env) && env.outcome == Completes
  }

  /** The statement is sent and the connection is lost under it. */
  predicate Drops(s: Store, env: Env)
  {
    Available(s, env) && env.outcome == Dropped
  }

  /** The connection once `_execute_query` has returned or raised. */
  function ConnAfter(s: Store, env: Env): Conn
  {
    if !Available(s, env) then Absent
    else if env.outcome == Dropped then Closed
    else Open
  }

  datatype Exec = Exec(store: Store, result: Fetched)

  /** `_execute_query`: reconnect if needed; with no connection return None;
      run the statement; on a database error roll back and return None, unless
      the connection was lost, in which case the rollback raises and the
      exception leaves the call; otherwise return the first row, all rows, or
      commit and return None. */
  function ExecuteQuery(s: Store, q: Statement, env: Env): (r: Exec)
    ensures r.store.conn == ConnAfter(s, env)
    ensures r.result == Raised <==> Drops(s, env)
    ensures !Succeeds(s, env) ==> r.store.table == s.table
    ensures !Succeeds(s, env) && !Drops(s, env) ==> r.result == NoResult
    ensures !IsWrite(q) ==> r.store.table == s.table
    ensures IsWrite(q) && !Drops(s, env) ==> r.result == NoResult
    ensures Succeeds(s, env) ==> r.store.table == Effect(s.table, q)
    ensures Succeeds(s, env) && FetchOf(q) == FetchAll ==> r.result == AllRows(ResultSet(s.table, q))
    ensures Succeeds(s, env) && FetchOf(q) == FetchOne ==>
              r.result == (if ResultSet(s.table, q) == [] then NoResult else OneRow(ResultSet(s.table, q)[0]))
  {
    var conn := EnsureConnected(s.conn, env.reconnects);
    if conn != Open then Exec(Store(conn, s.table), NoResult)
    else
      match env.outcome
      case Rejected => Exec(Store(Open, s.table), NoResult)
      case Dropped => Exec(Store(Closed, s.table), Raised)
      case Completes =>
        match FetchOf(q)
        case FetchOne =>
          var rows := ResultSet(s.table, q);
          Exec(Store(Open, s.table), if rows == [] then NoResult else OneRow(rows[0]))
        case FetchAll => Exec(Store(Open, s.table), AllRows(ResultSet(s.table, q)))
        case FetchNone => Exec(Store(Open, Effect(s.table, q)), NoResult)
  }

  /** A statement the server rejects is rolled back: the table is as before,
      no result comes back, and the connection stays open. */
  lemma FailedStatementRolledBack(s: Store, q: Statement, env: Env)
    requires Available(s, env) && env.outcome == Rejected
    ensures ExecuteQuery(s, q, env) == Exec(Store(Open, s.table), NoResult)
  {
  }

  /** A connection lost under a statement makes the call raise, leaves the
      table as before (nothing was committed) and the connection closed; the
      next call notices the closed connection and reconnects if it can. */
  lemma LostConnectionReopened(s: Store, q: Statement, env: Env, q2: Statement, env2: Env)
    requires Drops(s, env)
    ensures ExecuteQuery(s, q, env) == Exec(Store(Closed, s.table), Raised)
    ensures ExecuteQuery(ExecuteQuery(s, q, env).store, q2, env2).store.conn ==
              (if !env2.reconnects then Absent else if env2.outcome == Dropped then Closed else Open)
  {
  }

  /** Without a connection and with a failed reconnect nothing is executed. */
  lemma DisconnectedIsNoOp(s: Store, q: Statement, env: Env)
    requires s.conn != Open && !env.reconnects
    ensures ExecuteQuery(s, q, env) == Exec(Store(Absent, s.table), NoResult)
  {
  }
}
