/** The persistence callbacks of PostgresPersistence that the conversation
    library calls: bulk loads at start-up (`get_conversations`,
    `get_user_data`) and per-user writes (`update_conversation`,
    `update_user_data`), each built on `_execute_query`. */
module Persistence {
  import opened Values
  import opened Tables
  import opened Database

  /** A conversation handler's map from conversation key to stored step tag. */
  type Conversations = map<(int, int), Option<string>>

  /** A load: the persistence object afterwards, and either the value
      returned or the exception a lost connection raises out of the callback. */
  datatype Read<T> = Read(store: Store, value: T) | Raise(store: Store)

  /** No row after row `i` has the same dictionary key. */
  predicate LastWithKey<K(==)>(rows: seq<ResultRow>, key: ResultRow -> K, i: int)
    requires 0 <= i < |rows|
  {
    forall j :: i < j < |rows| ==> key(rows[j]) != key(rows[i])
  }

  /** The `for row in results: d[key(row)] = value(row)` loop: a key is present
      exactly when some row produces it, and it holds the value of the last
      such row. */
  function Collect<K(==), V>(rows: seq<ResultRow>, key: ResultRow -> K, value: ResultRow -> V): (m: map<K, V>)
    ensures forall i :: 0 <= i < |rows| ==> key(rows[i]) in m
    ensures forall k :: k in m ==> exists i :: 0 <= i < |rows| && key(rows[i]) == k
    ensures forall i :: 0 <= i < |rows| && LastWithKey(rows, key, i) ==> m[key(rows[i])] == value(rows[i])
    decreases |rows|
  {
    if rows == [] then map[]
    else
      var prefix := rows[..|rows| - 1];
      var last := rows[|rows| - 1];
      var m := Collect(prefix, key, value)[key(last) := value(last)];
      assert rows == prefix + [last];
      CollectExtends(prefix, last, key, value, Collect(prefix, key, value), m);
      m
  }

  /** One more iteration of the loop: if `sub` has the three properties for
      `prefix`, then adding `last` gives a map with them for `prefix + [last]`. */
  lemma CollectExtends<K, V>(prefix: seq<ResultRow>, last: ResultRow, key: ResultRow -> K, value: ResultRow -> V,
                             sub: map<K, V>, m: map<K, V>)
    requires forall i :: 0 <= i < |prefix| ==> key(prefix[i]) in sub
    requires forall k :: k in sub ==> exists i :: 0 <= i < |prefix| && key(prefix[i]) == k
    requires forall i :: 0 <= i < |prefix| && LastWithKey(prefix, key, i) ==> sub[key(prefix[i])] == value(prefix[i])
    requires m == sub[key(last) := value(last)]
    ensures var rows := prefix + [last];
            (forall i :: 0 <= i < |rows| ==> key(rows[i]) in m) &&
            (forall k :: k in m ==> exists i :: 0 <= i < |rows| && key(rows[i]) == k) &&
            (forall i :: 0 <= i < |rows| && LastWithKey(rows, key, i) ==> m[key(rows[i])] == value(rows[i]))
  {
    var rows := prefix + [last];
    var n := |prefix|;
    assert forall i :: 0 <= i < n ==> rows[i] == prefix[i];
    forall k | k in m ensures exists i :: 0 <= i < |rows| && key(rows[i]) == k {
      if k != key(last) {
        var i :| 0 <= i < n && key(prefix[i]) == k;
        assert key(rows[i]) == k;
      } else {
        assert key(rows[n]) == k;
      }
    }
    forall i | 0 <= i < |rows| && LastWithKey(rows, key, i) ensures m[key(rows[i])] == value(rows[i]) {
      if i < n {
        assert key(rows[i]) != key(rows[n]);
        assert LastWithKey(prefix, key, i);
      }
    }
  }

  /** `x if x else {}` on a conversation_data value: NULL becomes the empty
      dictionary (an empty dictionary stays empty). */
  function OrEmpty(cd: Option<Data>): Data
  {
    match cd
    case None => map[]
    case Some(d) => d
  }

  /** get_conversations keys each row by (user_id, user_id). */
  function StateKey(row: ResultRow): (int, int)
  {
    (row.userId, row.userId)
  }

  function StateOf(row: ResultRow): Option<string>
  {
    row.row.currentState
  }

  function DataKey(row: ResultRow): int
  {
    row.userId
  }

  function DataOf(row: ResultRow): Data
  {
    OrEmpty(row.row.conversationData)
  }

  /** get_conversations: every stored row becomes the entry (u, u) ↦ its
      current_state (NULL included); the chat_id column is not read; the map
      is nested under `name`; without a usable connection it is empty; a
      connection lost under the SELECT raises out of the callback. */
  function GetConversations(s: Store, name: string, env: Env): (r: Read<map<string, Conversations>>)
    ensures r.store.table == s.table
    ensures r.store.conn == ConnAfter(s, env)
    ensures r.Raise? <==> Drops(s, env)
    ensures r.Read? ==> r.value.Keys == {name}
    ensures r.Read? && !Succeeds(s, env) ==> r.value[name] == map[]
    ensures Succeeds(s, env) ==> (r.Read? &&
              (forall u :: u in s.table ==> (u, u) in r.value[name] && r.value[name][(u, u)] == s.table[u].currentState))
    ensures Succeeds(s, env) ==> (r.Read? &&
              (forall key :: key in r.value[name] ==> key.0 == key.1 && key.0 in s.table))
  {
    var e := ExecuteQuery(s, SelectConversations, env);
    if e.result == Raised then
      Raise(e.store)
    else if e.result.AllRows? then
      assert Succeeds(s, env) && e.result.rows == Scan(s.table);
      LoadedConversations(e.result.rows, s.table);
      var conversations := Collect(e.result.rows, StateKey, StateOf);
      Read(e.store, map[name := conversations])
    else
      assert !Succeeds(s, env);
      Read(e.store, map[name := map[]])
  }

  /** The collected full scan of get_conversations: one diagonal key per row. */
  lemma LoadedConversations(rows: seq<ResultRow>, t: Table)
    requires Enumerates(rows, t)
    ensures forall u :: u in t ==>
              (u, u) in Collect(rows, StateKey, StateOf) &&
              Collect(rows, StateKey, StateOf)[(u, u)] == t[u].currentState
    ensures forall key :: key in Collect(rows, StateKey, StateOf) ==> key.0 == key.1 && key.0 in t
  {
    var m := Collect(rows, StateKey, StateOf);
    forall u | u in t ensures (u, u) in m && m[(u, u)] == t[u].currentState {
      var i :| 0 <= i < |rows| && rows[i].userId == u;
      assert StateKey(rows[i]) == (u, u);
      assert LastWithKey(rows, StateKey, i);
    }
    forall key | key in m ensures key.0 == key.1 && key.0 in t {
      var i :| 0 <= i < |rows| && StateKey(rows[i]) == key;
    }
  }

  /** update_conversation: the key is unpacked as (user_id, chat_id) and the
      handler name is not stored. A committed write leaves the row of
      `key.0` with the new state and chat id and its data untouched. The
      connection is left closed exactly when it was lost under the INSERT and
      the call raised. */
  function UpdateConversation(s: Store, name: string, key: (int, int), newState: Option<string>, env: Env): (r: Store)
    ensures r.conn == ConnAfter(s, env)
    ensures Succeeds(s, env) ==> r.table == UpsertState(s.table, key.0, key.1, newState)
    ensures Succeeds(s, env) ==>
              key.0 in r.table && r.table[key.0].currentState == newState && r.table[key.0].chatId == key.1
    ensures !Succeeds(s, env) ==> r.table == s.table
  {
    ExecuteQuery(s, UpsertConversation(key.0, key.1, newState), env).store
  }

  /** get_user_data: one entry per stored row, NULL data read as {}; empty
      without a usable connection; a connection lost under the SELECT raises
      out of the callback. */
  function GetUserData(s: Store, env: Env): (r: Read<map<int, Data>>)
    ensures r.store.table == s.table
    ensures r.store.conn == ConnAfter(s, env)
    ensures r.Raise? <==> Drops(s, env)
    ensures r.Read? && !Succeeds(s, env) ==> r.value == map[]
    ensures Succeeds(s, env) ==> r.Read? && r.value.Keys == s.table.Keys
    ensures Succeeds(s, env) ==> (r.Read? &&
              (forall u :: u in s.table ==> r.value[u] == OrEmpty(s.table[u].conversationData)))
  {
    var e := ExecuteQuery(s, SelectUserData, env);
    if e.result == Raised then
      Raise(e.store)
    else if e.result.AllRows? then
      assert Succeeds(s, env) && e.result.rows == Scan(s.table);
      LoadedUserDataKeys(e.result.rows, s.table);
      LoadedUserDataValues(e.result.rows, s.table);
      Read(e.store, Collect(e.result.rows, DataKey, DataOf))
    else
      Read(e.store, map[])
  }

  /** The loaded user data has exactly the table's users as keys. */
  lemma LoadedUserDataKeys(rows: seq<ResultRow>, t: Table)
    requires Enumerates(rows, t)
    ensures Collect(rows, DataKey, DataOf).Keys == t.Keys
  {
    var m := Collect(rows, DataKey, DataOf);
    forall k | k in m ensures k in t {
      var i :| 0 <= i < |rows| && DataKey(rows[i]) == k;
    }
    forall u | u in t ensures u in m {
      var i :| 0 <= i < |rows| && rows[i].userId == u;
      assert DataKey(rows[i]) == u;
    }
  }

  /** Each user's loaded data is the stored conversation_data, NULL read as {}. */
  lemma LoadedUserDataValues(rows: seq<ResultRow>, t: Table)
    requires Enumerates(rows, t)
    ensures forall u :: u in t ==>
              u in Collect(rows, DataKey, DataOf) &&
              Collect(rows, DataKey, DataOf)[u] == OrEmpty(t[u].conversationData)
  {
    var m := Collect(rows, DataKey, DataOf);
    forall u | u in t ensures u in m && m[u] == OrEmpty(t[u].conversationData) {
      var i :| 0 <= i < |rows| && rows[i].userId == u;
      assert DataKey(rows[i]) == u;
      assert LastWithKey(rows, DataKey, i);
    }
  }

  /** Whether update_user_data's INSERT runs and commits: the chat-id lookup
      did not raise, the INSERT finds a connection after the lookup's
      reconnect attempt and its own, and it completes. */
  predicate DataWriteCommits(s: Store, lookup: Env, write: Env)
  {
    && !Drops(s, lookup)
    && (s.conn == Open || lookup.reconnects || write.reconnects)
    && write.outcome == Completes
  }

  /** update_user_data: look the chat id up (falling back to the user id when
      the lookup returns nothing), then upsert conversation_data. A lookup
      that loses the connection raises before the INSERT is issued. When the
      INSERT commits, the table is SaveData's, whatever the lookup returned;
      otherwise it is unchanged. */
  function UpdateUserData(s: Store, u: int, d: Data, lookup: Env, write: Env): (r: Store)
    ensures Drops(s, lookup) ==> r == Store(Closed, s.table)
    ensures !Drops(s, lookup) ==>
              r.conn == (if !(s.conn == Open || lookup.reconnects || write.reconnects) then Absent
                         else if write.outcome == Dropped then Closed
                         else Open)
    ensures DataWriteCommits(s, lookup, write) ==> r.table == SaveData(s.table, u, d)
    ensures !DataWriteCommits(s, lookup, write) ==> r.table == s.table
  {
    var e := ExecuteQuery(s, SelectChatId(u), lookup);
    if e.result == Raised then e.store
    else
      var chat := if e.result.OneRow? then e.result.one.row.chatId else u;
      if u in s.table then
        ChatIdIgnoredOnConflict(s.table, u, chat, d);
        ExecuteQuery(e.store, UpsertUserData(u, chat, d), write).store
      else
        ExecuteQuery(e.store, UpsertUserData(u, chat, d), write).store
  }

  /** Writing the same conversation state twice leaves the table as one
      committed write does, whatever happens to the second call. */
  lemma UpdateConversationIdempotent(s: Store, name: string, key: (int, int), st: Option<string>, e1: Env, e2: Env)
    requires Succeeds(s, e1)
    ensures UpdateConversation(UpdateConversation(s, name, key, st, e1), name, key, st, e2).table
         == UpdateConversation(s, name, key, st, e1).table
  {
    InsertIdempotent(s.table, Insert(key.0, Row(key.1, st, None), DoUpdate({CurrentState, ChatId})));
  }

  /** A chat-id lookup that does not raise has no influence on the table once
      the INSERT has a connection of its own. */
  lemma UserDataLookupIrrelevant(s: Store, u: int, d: Data, l1: Env, l2: Env, write: Env)
    requires s.conn == Open || write.reconnects
    requires !Drops(s, l1) && !Drops(s, l2)
    ensures UpdateUserData(s, u, d, l1, write).table == UpdateUserData(s, u, d, l2, write).table
  {
  }

  /** On a healthy connection the state write and the data write commute, and
      the row for `u` ends with both, whether or not it existed before. */
  lemma StateAndDataUpdatesCommute(s: Store, name: string, u: int, c: int, st: Option<string>, d: Data, env: Env)
    requires s.conn == Open && env.outcome == Completes
    ensures UpdateUserData(UpdateConversation(s, name, (u, c), st, env), u, d, env, env).table
         == UpdateConversation(UpdateUserData(s, u, d, env, env), name, (u, c), st, env).table
    ensures UpdateConversation(UpdateUserData(s, u, d, env, env), name, (u, c), st, env).table[u]
         == Row(c, st, Some(d))
  {
    StateAndDataWritesCommute(s.table, u, c, st, d);
  }

  /** A state written for (u, c) reads back under (u, u), and ending the
      conversation reads back as a present NULL, not as a missing entry. */
  lemma StepRoundTrip(s: Store, name: string, u: int, c: int, st: Option<string>, env: Env)
    requires s.conn == Open && env.outcome == Completes
    ensures var loaded := GetConversations(UpdateConversation(s, name, (u, c), st, env), name, env).value[name];
            (u, u) in loaded && loaded[(u, u)] == st
  {
  }

  /** User data is replaced, not merged: after two writes only the second is loaded. */
  lemma UserDataReplaced(s: Store, u: int, d1: Data, d2: Data, env: Env)
    requires s.conn == Open && env.outcome == Completes
    ensures GetUserData(UpdateUserData(UpdateUserData(s, u, d1, env, env), u, d2, env, env), env).value[u] == d2
  {
    var s1 := UpdateUserData(s, u, d1, env, env);
    assert s1.conn == Open;
    var s2 := UpdateUserData(s1, u, d2, env, env);
    assert s2.conn == Open && u in s2.table && s2.table[u].conversationData == Some(d2);
  }

  /** A data write keeps the chat id set by an earlier state write. */
  lemma ChatIdPreserved(s: Store, name: string, u: int, c1: int, st: Option<string>, d: Data, env: Env)
    requires s.conn == Open && env.outcome == Completes
    ensures UpdateUserData(UpdateConversation(s, name, (u, c1), st, env), u, d, env, env).table[u].chatId == c1
  {
  }

  /** As written, a conversation stored under a key whose two halves differ
      is not found under that key after a reload. */
  lemma ConversationKeyLost()
    ensures var s := UpdateConversation(Store(Open, map[]), "oracle_conversation", (1, 2), Some("step"), Env(false, Completes));
            (1, 2) !in GetConversations(s, "oracle_conversation", Env(false, Completes)).value["oracle_conversation"]
  {
  }

  /** The conversation key a row was written under: (user_id, chat_id). */
  function StoredKey(row: ResultRow): (int, int)
  {
    (row.userId, row.row.chatId)
  }

  /** get_conversations keyed as update_conversation writes: each row becomes
      (user_id, chat_id) ↦ current_state. */
  function GetConversationsByKey(s: Store, name: string, env: Env): (r: Read<map<string, Conversations>>)
    ensures r.store.table == s.table
    ensures r.store.conn == ConnAfter(s, env)
    ensures r.Raise? <==> Drops(s, env)
    ensures r.Read? ==> r.value.Keys == {name}
    ensures r.Read? && !Succeeds(s, env) ==> r.value[name] == map[]
    ensures Succeeds(s, env) ==> (r.Read? &&
              (forall u :: u in s.table ==>
                (u, s.table[u].chatId) in r.value[name] && r.value[name][(u, s.table[u].chatId)] == s.table[u].currentState))
    ensures Succeeds(s, env) ==> (r.Read? &&
              (forall key :: key in r.value[name] ==> key.0 in s.table && key.1 == s.table[key.0].chatId))
  {
    var e := ExecuteQuery(s, SelectConversations, env);
    if e.result == Raised then
      Raise(e.store)
    else if e.result.AllRows? then
      assert Succeeds(s, env) && e.result.rows == Scan(s.table);
      LoadedConversationsByKey(e.result.rows, s.table);
      var conversations := Collect(e.result.rows, StoredKey, StateOf);
      Read(e.store, map[name := conversations])
    else
      assert !Succeeds(s, env);
      Read(e.store, map[name := map[]])
  }

  /** The collected full scan keyed by (user_id, chat_id): one key per row. */
  lemma LoadedConversationsByKey(rows: seq<ResultRow>, t: Table)
    requires Enumerates(rows, t)
    ensures forall u :: u in t ==>
              (u, t[u].chatId) in Collect(rows, StoredKey, StateOf) &&
              Collect(rows, StoredKey, StateOf)[(u, t[u].chatId)] == t[u].currentState
    ensures forall key :: key in Collect(rows, StoredKey, StateOf) ==> key.0 in t && key.1 == t[key.0].chatId
  {
    var m := Collect(rows, StoredKey, StateOf);
    forall u | u in t ensures (u, t[u].chatId) in m && m[(u, t[u].chatId)] == t[u].currentState {
      var i :| 0 <= i < |rows| && rows[i].userId == u;
      assert StoredKey(rows[i]) == (u, t[u].chatId);
      assert LastWithKey(rows, StoredKey, i);
    }
    forall key | key in m ensures key.0 in t && key.1 == t[key.0].chatId {
      var i :| 0 <= i < |rows| && StoredKey(rows[i]) == key;
    }
  }

  /** With the key read back as written, every conversation key survives a
      write and a reload. */
  lemma ConversationKeyRoundTrip(s: Store, name: string, key: (int, int), st: Option<string>, env: Env)
    requires s.conn == Open && env.outcome == Completes
    ensures var s1 := UpdateConversation(s, name, key, st, env);
            var loaded := GetConversationsByKey(s1, name, env).value[name];
            key in loaded && loaded[key] == st
  {
    var s1 := UpdateConversation(s, name, key, st, env);
    assert s1.conn == Open && s1.table[key.0].chatId == key.1 && s1.table[key.0].currentState == st;
  }

  /** A data write after the state write does not disturb the stored key or
      its state. */
  lemma ConversationKeySurvivesDataWrite(s: Store, name: string, key: (int, int), st: Option<string>, d: Data, env: Env)
    requires s.conn == Open && env.outcome == Completes
    ensures var s2 := UpdateUserData(UpdateConversation(s, name, key, st, env), key.0, d, env, env);
            var loaded := GetConversationsByKey(s2, name, env).value[name];
            key in loaded && loaded[key] == st
  {
    var s1 := UpdateConversation(s, name, key, st, env);
    assert s1.conn == Open && s1.table[key.0].chatId == key.1 && s1.table[key.0].currentState == st;
    var s2 := UpdateUserData(s1, key.0, d, env, env);
    assert s2.conn == Open && s2.table[key.0].chatId == key.1 && s2.table[key.0].currentState == st;
  }

  /** The corrected loader still keeps one conversation per user, because the
      table holds one row per user_id: a later write for the same user under
      another chat displaces the earlier key. */
  lemma ConversationKeyDisplaced(s: Store, name: string, u: int, c1: int, c2: int,
                                 st1: Option<string>, st2: Option<string>, env: Env)
    requires s.conn == Open && env.outcome == Completes
    requires c1 != c2
    ensures var s2 := UpdateConversation(UpdateConversation(s, name, (u, c1), st1, env), name, (u, c2), st2, env);
            var loaded := GetConversationsByKey(s2, name, env).value[name];
            (u, c1) !in loaded && (u, c2) in loaded && loaded[(u, c2)] == st2
  {
    var s1 := UpdateConversation(s, name, (u, c1), st1, env);
    var s2 := UpdateConversation(s1, name, (u, c2), st2, env);
    assert s2.conn == Open && s2.table[u].chatId == c2 && s2.table[u].currentState == st2;
  }
}
