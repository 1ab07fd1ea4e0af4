/** The telegram_conversations relation: one row per user_id, and the three
    INSERT … ON CONFLICT (user_id) statements that write it, evaluated by the
    rules of PostgreSQL's INSERT command. */
module Tables {
  import opened Values

  /** The non-key columns of one row. */
  datatype Row = Row(chatId: int, currentState: Option<string>, conversationData: Option<Data>)

  /** The relation, keyed by its primary key user_id. */
  type Table = map<int, Row>

  /** The columns an INSERT can list besides the user_id key. */
  datatype Column = ChatId | CurrentState | ConversationData

  /** What ON CONFLICT (user_id) does when a row for the key already exists. */
  datatype OnConflict = DoNothing | DoUpdate(columns: set<Column>)

  /** One single-row INSERT keyed by user_id. A column the statement does not
      list is NULL in `values` (the column's default). */
  datatype Insert = Insert(userId: int, values: Row, onConflict: OnConflict)

  /** The existing row with the columns of `cols` set from EXCLUDED. */
  function Overlay(existing: Row, excluded: Row, cols: set<Column>): Row
  {
    Row(if ChatId in cols then excluded.chatId else existing.chatId,
        if CurrentState in cols then excluded.currentState else existing.currentState,
        if ConversationData in cols then excluded.conversationData else existing.conversationData)
  }

  /** The table after one INSERT … ON CONFLICT (user_id) statement commits. */
  function ApplyInsert(t: Table, ins: Insert): (r: Table)
    ensures r.Keys == t.Keys + {ins.userId}
    ensures forall k :: k in t && k != ins.userId ==> r[k] == t[k]
    ensures ins.userId !in t ==> r[ins.userId] == ins.values
    ensures ins.userId in t && ins.onConflict == DoNothing ==> r == t
  {
    if ins.userId !in t then t[ins.userId := ins.values]
    else match ins.onConflict
      case DoNothing => t
      case DoUpdate(cols) => t[ins.userId := Overlay(t[ins.userId], ins.values, cols)]
  }

  /** Running the same INSERT … ON CONFLICT statement twice has the effect of
      running it once, whatever its conflict clause. */
  lemma InsertIdempotent(t: Table, ins: Insert)
    ensures ApplyInsert(ApplyInsert(t, ins), ins) == ApplyInsert(t, ins)
  {
  }

  /** Statements for different users commute: a write touches only its own row. */
  lemma InsertsOnDifferentUsersCommute(t: Table, a: Insert, b: Insert)
    requires a.userId != b.userId
    ensures ApplyInsert(ApplyInsert(t, a), b) == ApplyInsert(ApplyInsert(t, b), a)
  {
  }

  /** update_conversation's statement: INSERT (user_id, chat_id, current_state)
      ON CONFLICT DO UPDATE SET current_state, chat_id. */
  function UpsertState(t: Table, u: int, c: int, s: Option<string>): (r: Table)
    ensures r.Keys == t.Keys + {u}
    ensures r[u].chatId == c && r[u].currentState == s
    ensures r[u].conversationData == (if u in t then t[u].conversationData else None)
    ensures forall k :: k in t && k != u ==> r[k] == t[k]
  {
    ApplyInsert(t, Insert(u, Row(c, s, None), DoUpdate({CurrentState, ChatId})))
  }

  /** update_user_data's statement: INSERT (user_id, chat_id, conversation_data)
      ON CONFLICT DO UPDATE SET conversation_data. */
  function UpsertData(t: Table, u: int, c: int, d: Data): (r: Table)
    ensures r.Keys == t.Keys + {u}
    ensures r[u].conversationData == Some(d)
    ensures u in t ==> r[u].chatId == t[u].chatId && r[u].currentState == t[u].currentState
    ensures u !in t ==> r[u].chatId == c && r[u].currentState == None
    ensures forall k :: k in t && k != u ==> r[k] == t[k]
  {
    ApplyInsert(t, Insert(u, Row(c, None, Some(d)), DoUpdate({ConversationData})))
  }

  /** start_command's statement: INSERT (user_id, chat_id) ON CONFLICT DO NOTHING. */
  function InsertIfAbsent(t: Table, u: int, c: int): (r: Table)
    ensures u in t ==> r == t
    ensures u !in t ==> r.Keys == t.Keys + {u} && r[u] == Row(c, None, None)
    ensures forall k :: k in t && k != u ==> r[k] == t[k]
  {
    ApplyInsert(t, Insert(u, Row(c, None, None), DoNothing))
  }

  /** The chat id update_user_data inserts with: the stored one, else the user id. */
  function ChatIdOr(t: Table, u: int): int
  {
    if u in t then t[u].chatId else u
  }

  /** The net effect of update_user_data on the table: conversation_data is
      replaced by `d`, the rest of an existing row is kept, and a new row gets
      chat_id = user_id and no state. */
  function SaveData(t: Table, u: int, d: Data): (r: Table)
    ensures r.Keys == t.Keys + {u}
    ensures r[u].conversationData == Some(d)
    ensures u in t ==> r[u].chatId == t[u].chatId && r[u].currentState == t[u].currentState
    ensures u !in t ==> r[u] == Row(u, None, Some(d))
    ensures forall k :: k in t && k != u ==> r[k] == t[k]
  {
    UpsertData(t, u, ChatIdOr(t, u), d)
  }

  /** For an existing row the chat id named in the INSERT is never used, so
      the chat-id lookup before update_user_data's write cannot matter. */
  lemma ChatIdIgnoredOnConflict(t: Table, u: int, c: int, d: Data)
    requires u in t
    ensures UpsertData(t, u, c, d) == SaveData(t, u, d)
  {
  }

  /** The state write and the data write commute, whether or not a row for
      `u` exists beforehand: neither depends on the other having run first. */
  lemma StateAndDataWritesCommute(t: Table, u: int, c: int, s: Option<string>, d: Data)
    ensures SaveData(UpsertState(t, u, c, s), u, d) == UpsertState(SaveData(t, u, d), u, c, s)
  {
  }

  /** Data writes replace and never merge: the last write wins. */
  lemma LastDataWriteWins(t: Table, u: int, d1: Data, d2: Data)
    ensures SaveData(SaveData(t, u, d1), u, d2) == SaveData(t, u, d2)
  {
  }

  /** A state write makes any earlier insert-or-ignore for the same user
      invisible. */
  lemma StateWriteAbsorbsInsert(t: Table, u: int, c0: int, c: int, s: Option<string>)
    ensures UpsertState(InsertIfAbsent(t, u, c0), u, c, s) == UpsertState(t, u, c, s)
  {
  }

  /** A non-empty set has an element. */
  lemma NonEmptyHasElement(s: set<int>)
    requires s != {}
    ensures exists y :: y in s
  {
    if forall y :: y !in s {
      assert false;
    }
  }

  /** The smallest element of a non-empty finite set of integers exists. */
  lemma {:induction false} MinExists(s: set<int>)
    requires s != {}
    ensures exists m :: m in s && forall k :: k in s ==> m <= k
    decreases s
  {
    NonEmptyHasElement(s);
    var x :| x in s;
    var rest := s - {x};
    if rest == {} {
      assert s == {x};
    } else {
      MinExists(rest);
      var m :| m in rest && forall k :: k in rest ==> m <= k;
      var lo := if x <= m then x else m;
      forall k | k in s ensures lo <= k {
        if k != x { assert k in rest; }
      }
      assert lo in s;
    }
  }

  /** The smallest element of a non-empty set of integers. */
  function MinOf(s: set<int>): (m: int)
    requires s != {}
    ensures m in s && forall k :: k in s ==> m <= k
  {
    MinExists(s);
    var m :| m in s && forall k :: k in s ==> m <= k;
    m
  }

  /** The keys of a set in ascending order: the order in which this model lets
      the store emit the rows of a SELECT without ORDER BY. */
  function SortedKeys(s: set<int>): (r: seq<int>)
    ensures |r| == |s|
    ensures forall i :: 0 <= i < |r| ==> r[i] in s
    ensures forall k :: k in s ==> k in r
    ensures forall i, j :: 0 <= i < j < |r| ==> r[i] < r[j]
    decreases s
  {
    if s == {} then []
    else
      var m := MinOf(s);
      var rest := SortedKeys(s - {m});
      SortedCons(s, m, rest);
      [m] + rest
  }

  /** Putting the minimum in front of the sorted remaining keys sorts them all. */
  lemma SortedCons(s: set<int>, m: int, rest: seq<int>)
    requires m in s && forall k :: k in s ==> m <= k
    requires |rest| == |s - {m}|
    requires forall i :: 0 <= i < |rest| ==> rest[i] in s - {m}
    requires forall k :: k in s - {m} ==> k in rest
    requires forall i, j :: 0 <= i < j < |rest| ==> rest[i] < rest[j]
    ensures var r := [m] + rest;
            |r| == |s| &&
            (forall i :: 0 <= i < |r| ==> r[i] in s) &&
            (forall k :: k in s ==> k in r) &&
            (forall i, j :: 0 <= i < j < |r| ==> r[i] < r[j])
  {
    assert |s - {m}| == |s| - 1;
    ConsCovers(s, m, rest);
    ConsOrdered(s, m, rest);
  }

  /** Every key of `s` is either the minimum or among the remaining keys. */
  lemma ConsCovers(s: set<int>, m: int, rest: seq<int>)
    requires m in s
    requires forall k :: k in s - {m} ==> k in rest
    ensures forall k :: k in s ==> k in [m] + rest
  {
    var r := [m] + rest;
    forall k | k in s ensures k in r {
      if k != m {
        assert k in s - {m};
        var i :| 0 <= i < |rest| && rest[i] == k;
        assert r[i + 1] == k;
      } else {
        assert r[0] == k;
      }
    }
  }

  /** The minimum in front keeps the remaining keys strictly ascending. */
  lemma ConsOrdered(s: set<int>, m: int, rest: seq<int>)
    requires forall k :: k in s ==> m <= k
    requires forall i :: 0 <= i < |rest| ==> rest[i] in s - {m}
    requires forall i, j :: 0 <= i < j < |rest| ==> rest[i] < rest[j]
    ensures forall i, j :: 0 <= i < j < |[m] + rest| ==> ([m] + rest)[i] < ([m] + rest)[j]
  {
    var r := [m] + rest;
    forall i, j | 0 <= i < j < |r| ensures r[i] < r[j] {
      if i == 0 {
        assert r[j] == rest[j - 1] && rest[j - 1] in s - {m};
      } else {
        assert r[i] == rest[i - 1] && r[j] == rest[j - 1];
      }
    }
  }
}
