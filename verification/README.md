# Oracle bot conversation store

A Dafny model of the part of the Telegram "oracle" bot that keeps its
conversations alive across restarts:

- **`PostgresPersistence`**: the persistence class the conversation library
  calls. It has:
  - `_connect` and `_execute_query`, which reconnect when needed, run one
    statement, fetch one row or all rows or commit, and roll back on a
    database error;
  - the bulk loaders `get_conversations` and `get_user_data`;
  - the per-user writers `update_conversation` and `update_user_data`.

  All of them work on the `telegram_conversations` relation, which has one
  row per `user_id`.
- **The conversation**:
  - `conv_handler` routes updates to `oracle_command`,
    `receive_oracle_query` and `cancel_command`;
  - `start_command`, with its insert-or-ignore of the user's row, is
    registered ahead of it;
  - a conversation step is persisted and read back across a restart.

Modules, one per layer:

| module | file | what it holds |
|---|---|---|
| `Values` | values.dfy | `Option` (SQL NULL / Python `None`), JSON documents, the user-data dictionary |
| `Tables` | tables.dfy | the relation as a map keyed by `user_id`; `INSERT … ON CONFLICT (user_id)` evaluated by PostgreSQL's rules (a new row takes the inserted values; on conflict DO NOTHING keeps the row, DO UPDATE SET overwrites the listed columns from `EXCLUDED`); the three statements of the program |
| `Database` | database.dfy | the connection (`Absent`/`Open`/`Closed`), `_connect`, `_execute_query`, the rows a `SELECT` returns |
| `Persistence` | persistence.dfy | the four persistence callbacks; `Collect`, the `for row in results: d[k] = v` loop they share |
| `Conversation` | conversation.dfy | the step machine (`Idle` = `END`, `AskQuery` = `ASK_FOR_ORACLE_QUERY`), routing, `start_command`, restart scenarios |

Things the program cannot see are passed in as an `Env(reconnects, outcome)`:
- whether a connection attempt succeeds;
- how the statement ends: it completes; the server rejects it, and the
  rollback succeeds; or the connection is lost under it.

A lost connection is the case the `conn.closed` test of `_execute_query`
exists for. psycopg2 marks the connection closed, the rollback in the
error handler raises in turn, and the exception leaves `_execute_query` and
the persistence callback. The next call sees the closed connection and
reconnects. Every operation is proved for every outcome.

A `SELECT` without `ORDER BY` returns rows in an unspecified order. The model
lets the store emit them in ascending `user_id` order (`Scan`). The loader
lemmas are proved for *any* enumeration of the table (`Enumerates`), so
nothing depends on that choice.

`/cancel` is registered only as a fallback, and re-entry is off. So an idle
`/cancel` reaches no callback and changes nothing (`Conversation.Route`).

## Model

| member | source | states |
|---|---|---|
| `Tables.ApplyInsert` | main.py:90 | an `INSERT … ON CONFLICT (user_id)` adds the key if missing, leaves every other user's row untouched, stores the inserted values in a new row, and leaves the table exactly as it was under DO NOTHING on a conflict |
| `Tables.InsertIdempotent` | main.py:90 | running the same upsert statement twice has the effect of running it once, whatever its conflict clause |
| `Tables.InsertsOnDifferentUsersCommute` | main.py:90 | statements keyed on different users commute: each touches only its own row |
| `Tables.UpsertState` | main.py:90 | update_conversation's statement sets current_state and chat_id, keeps conversation_data of an existing row (NULL in a new one), and changes no other row |
| `Tables.UpsertData` | main.py:106 | update_user_data's statement replaces conversation_data; an existing row keeps its chat_id and current_state, a new row takes the given chat_id with no state |
| `Tables.InsertIfAbsent` | main.py:122 | start_command's statement leaves an existing row exactly as it was and adds (chat_id, NULL, NULL) for a new user |
| `Tables.SaveData` | main.py:102-107 | the net effect of update_user_data: data replaced, the rest of an existing row kept, a new row gets chat_id = user_id and no state |
| `Tables.ChatIdIgnoredOnConflict` | main.py:103-106 | for an existing row the chat id named in the INSERT is never used, so the value the lookup returned cannot matter |
| `Tables.StateAndDataWritesCommute` | main.py:90 | the state write and the data write for one user commute, whether or not the row existed before |
| `Tables.LastDataWriteWins` | main.py:106 | two data writes for one user leave the table as the second alone would: data is replaced, never merged |
| `Tables.StateWriteAbsorbsInsert` | main.py:122 | an earlier insert-or-ignore by /start is invisible once a state write for the same user commits |
| `Tables.SortedKeys` | main.py:78 | the order this model gives an unordered full-table SELECT: each key of the table exactly once, strictly ascending |
| `Database.Scan` | main.py:78 | the full-table SELECT lists every stored row once, with its current contents |
| `Database.EnsureConnected` | main.py:49-60 | the connection is open afterwards exactly when it was open or the reconnect succeeds; a failed attempt leaves no connection object |
| `Database.ExecuteQuery` | main.py:57-74 | the call raises exactly when the connection is lost under the statement, and then leaves the connection closed; whenever the statement does not complete the table is unchanged, and without a connection or on a rejected statement nothing is returned; otherwise a fetch-all returns every selected row, a fetch-one returns nothing when no row matches and else exactly the first, and a write commits its effect and returns nothing |
| `Database.FailedStatementRolledBack` | main.py:71-74 | a statement the server rejects on a live connection returns nothing, leaves the table as before and keeps the connection open |
| `Database.LostConnectionReopened` | main.py:57-74 | a connection lost under a statement makes the call raise with the table unchanged and the connection closed; the next call notices the closed connection and reopens it exactly when the reconnect succeeds |
| `Database.DisconnectedIsNoOp` | main.py:58-63 | with no usable connection and a failed reconnect, no statement runs and nothing is returned |
| `Persistence.Collect` | main.py:82-84 | the loop that fills a dictionary from result rows: a key is present exactly when some row produces it, and it holds the value of the last such row |
| `Persistence.GetConversations` | main.py:77-85 | the table is untouched; the result is nested under the handler name; it is empty without a usable connection; it raises exactly when the connection is lost under the SELECT, leaving it closed; otherwise every stored user u appears as (u, u) mapped to its current_state (NULL included), and no other key appears |
| `Persistence.LoadedConversations` | main.py:82-84 | collecting any enumeration of the table by (user_id, user_id) gives one diagonal key per stored row, holding that row's state |
| `Persistence.UpdateConversation` | main.py:87-91 | the key is unpacked as (user_id, chat_id); a committed write leaves the user's row with the new state and chat id and changes nothing else; a failed write changes nothing, and the connection is left closed exactly when it was lost under the INSERT |
| `Persistence.GetUserData` | main.py:93-100 | the table is untouched; the result is empty without a usable connection; it raises exactly when the connection is lost under the SELECT; otherwise it has exactly the stored users as keys, each with its conversation_data and NULL read as {} |
| `Persistence.LoadedUserDataKeys` | main.py:98-99 | collecting any enumeration of the table by user_id gives exactly the stored users |
| `Persistence.LoadedUserDataValues` | main.py:99 | each collected user's data is the stored conversation_data, NULL read as {} |
| `Persistence.UpdateUserData` | main.py:102-107 | a lookup that loses the connection raises before the INSERT is issued, leaving the table as it was and the connection closed; when the INSERT commits, the table is SaveData's whatever the chat-id lookup returned or whether it failed; otherwise the table is unchanged |
| `Persistence.UpdateConversationIdempotent` | main.py:87-91 | writing the same conversation state twice leaves the table as one committed write does, whatever happens to the second call |
| `Persistence.UserDataLookupIrrelevant` | main.py:103-107 | a chat-id lookup that does not raise never influences the table once the INSERT itself has a connection |
| `Persistence.StateAndDataUpdatesCommute` | main.py:87-107 | on a healthy connection the two writers commute, and the user's row ends with the new chat id, the new state and the new data |
| `Persistence.StepRoundTrip` | main.py:83-91 | a state written for (u, c) reads back under (u, u), and an ended conversation reads back as a present NULL |
| `Persistence.UserDataReplaced` | main.py:99-106 | after two data writes only the second is loaded |
| `Persistence.ChatIdPreserved` | main.py:90-106 | a data write keeps the chat id an earlier state write stored |
| `Persistence.ConversationKeyLost` | main.py:83-91 | as written, a conversation stored under (1, 2) is missing under (1, 2) after a reload |
| `Persistence.GetConversationsByKey` | main.py:77-85 | the corrected loader: every stored row u appears under (u, chat_id of u) with its current_state, and every key is such a pair |
| `Persistence.LoadedConversationsByKey` | main.py:82-84 | collecting any enumeration of the table by (user_id, chat_id) gives one key per stored row, holding that row's state |
| `Persistence.ConversationKeyRoundTrip` | main.py:87-91 | with the corrected loader, every key written by update_conversation reads back under itself with the written state |
| `Persistence.ConversationKeySurvivesDataWrite` | main.py:102-107 | a later update_user_data disturbs neither the stored key nor its state |
| `Persistence.ConversationKeyDisplaced` | main.py:87-91 | even with the corrected loader, the table keeps one conversation per user: a later write for the same user under another chat makes the earlier key disappear, and only the last key reads back |
| `Conversation.Route` | main.py:183-186 | the callback picked for an update: /oracle exactly when idle; the query handler exactly for a text message while waiting; /cancel exactly for the /cancel command while waiting |
| `Conversation.Run` | main.py:127-176 | /oracle moves to the waiting step and keeps user_data; the query handler and /cancel end the conversation and clear user_data |
| `Conversation.Handle` | main.py:183-189 | one update through the conversation handler: the three transitions of the table, and any other update leaves the session unchanged |
| `Conversation.StepChangesOnlyAlongTable` | main.py:183-186 | the step changes exactly along Idle -/oracle-> AskQuery, AskQuery -text-> Idle and AskQuery -/cancel-> Idle |
| `Conversation.CancelNeverStuck` | main.py:173-176 | /cancel brings every session to the idle step |
| `Conversation.UserDataKeptOrCleared` | main.py:170-176 | user_data is only ever kept or cleared, and it is cleared whenever a waiting conversation ends |
| `Conversation.StartCommand` | main.py:119-125 | /start keeps an existing row exactly as it was whatever happens to its statement, and on success adds (chat_id, NULL, NULL) for a new user |
| `Conversation.Dispatch` | main.py:190-191 | /start is taken by its own handler and never reaches the conversation; every other update goes to the conversation handler, and no callback other than start_command writes the store (the library's write-through of the new step and user_data after a transition is not part of Dispatch) |
| `Conversation.StartLeavesConversation` | main.py:190-191 | /start never changes the conversation step, even in the middle of a conversation |
| `Conversation.StepTag` | main.py:89 | the value a step is persisted as is NULL exactly for the ended conversation |
| `Conversation.TagRoundTrip` | main.py:116 | persisting a step and decoding the stored value gives the same step back |
| `Conversation.RestartResumes` | main.py:87-91 | with the corrected loader, a step written under any conversation key (the last one written for that user) survives a restart |
| `Conversation.PrivateChatRestartResumes` | main.py:83-91 | in a private chat (chat id = user id) the loader as written also brings the step back |
| `Conversation.CompletedConversationRestartsFresh` | main.py:127-191 | /oracle in any chat, a symbol, a restart (read back with the corrected loader), and /oracle again: the finished conversation reloads as a present NULL and the user starts afresh in the waiting step |

## Left out

- The webhook server (FastAPI, uvicorn, `startup_event`, `webhook`, main.py:193-210): HTTP and process plumbing with no state of its own.
- The connection string and other environment variables, the psycopg2 driver, and logging. A connection attempt and how a statement ends are inputs (`Env`).
- The exception a lost connection raises out of `update_conversation`, `update_user_data` or `start_command` reaches the library, which is not modelled. The writers return only the store, whose connection is closed exactly when the call raised.
- A commit whose acknowledgement is lost with the connection is taken as not committed.
- The body of `receive_oracle_query` (main.py:132-167): the SMA query against `asset_prices` and the reply text. It reads no conversation state. It also calls `persistence._get_conn()`, which the class does not define, so that handler would raise before clearing user_data. The model keeps the handler's declared effect, clearing user_data and ending the conversation.
- Replies to the user (`reply_text`, `reply_html`): output only.
- `get_chat_data` and `update_chat_data` (main.py:109-110): they return a constant or do nothing.
- `flush` (main.py:111-113) and open transactions. A read returns at main.py:68-69, before the commit at line 70, so its transaction stays open until the next write commits or `flush` runs. The model does not track transactions. Every write commits at once, so an open transaction only ever holds reads, and committing or rolling it back leaves the table unchanged.
- The library's asynchronous dispatch, timing of persistence calls, and handler exceptions. Persistence calls are modelled one at a time, with no interleaving of concurrent updates.
- Serialisation of JSON values by psycopg2's `Json` wrapper: documents are stored as values. JSON numbers are integers only; floating point is not modelled.
- Lower-casing of command names and the `/command@botname` form: a command is identified by its bare name.
- The table's DDL is not in the source. Columns an INSERT omits are taken to default to NULL, and `user_id` to be the conflict target's unique key.
- `Conversation.Resume`: how the library matches a reloaded value back to a state is not visible in the source. `Resume` is this model's own decoder of the stored tag `"range(0, 1)"` (what `str(range(1))` yields). `Conversation.TagRoundTrip` is stated against it, not against the library.
- `Conversation.PrivateChatRestartResumes`, `Conversation.RestartResumes` and `Conversation.CompletedConversationRestartsFresh`: these lemmas look up the handler name in the map the loader returns (main.py:85 returns `{name: conversations}`) themselves. How the conversation library consumes that map is not modelled. If the library expects the key-to-state map directly, no conversation is restored after a restart, not even in a private chat.
- The library's write-through after a transition (`persistent=True`, main.py:187): it calls `update_conversation` and `update_user_data` with the new step and user_data. The restart lemmas issue those writes explicitly, and `Conversation.Dispatch` covers only the callbacks.
- `Tables.SortedKeys`: ascending `user_id` is this model's choice of row order for an unordered SELECT, not a promise of the database. The loaders are proved for every order.

## Findings

| source | as written | input that shows it | evidently intended | confidence | as-written member | corrected member |
|---|---|---|---|---|---|---|
| main.py:83 | get_conversations rebuilds each key as (user_id, user_id), while update_conversation (main.py:88-90) stores the key's second half as chat_id | update_conversation with key (1, 2), as in a group chat whose id differs from the user's, then get_conversations: (1, 2) is absent and (1, 1) appears instead | rebuild the key as (user_id, chat_id), so the last key written for each user reads back under itself | medium, not executed | `Persistence.GetConversations` with `Persistence.ConversationKeyLost` | `Persistence.GetConversationsByKey` with `Persistence.ConversationKeyRoundTrip` |
