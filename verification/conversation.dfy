/** The conversation the bot runs with each user: the `conv_handler`
    routing table over the `oracle_command`, `receive_oracle_query` and
    `cancel_command` callbacks, the stand-alone `start_command`, and how a
    step survives a restart through the persistence callbacks. */
module Conversation {
  import opened Values
  import opened Tables
  import opened Database
  import opened Persistence

  /** Idle: no conversation (the library's END, stored as NULL).
      AskQuery: ASK_FOR_ORACLE_QUERY, waiting for an asset symbol. */
  datatype Step = Idle | AskQuery

  /** An incoming message: a bot command (name without the slash), a plain
      text message, or anything else (a photo, a sticker, …). */
  datatype Update = Command(name: string) | Text(body: string) | NonText

  /** The callbacks of the conversation handler. */
  datatype Callback = OracleCommand | ReceiveOracleQuery | CancelCommand

  /** One user's conversation step and `context.user_data`. */
  datatype Session = Session(step: Step, userData: Data)

  /** The `name` the conversation handler is registered under. */
  const ConversationName: string := "oracle_conversation"

  /** What `str` makes of the step constant `range(1)` when it is persisted. */
  const AskQueryTag: string := "range(0, 1)"

  /** The callback the conversation handler picks: while idle only the entry
      point /oracle (re-entry is not allowed); while waiting, the state's
      text handler first and then the /cancel fallback. */
  function Route(step: Step, upd: Update): (h: Option<Callback>)
    ensures h == Some(OracleCommand) <==> step == Idle && upd == Command("oracle")
    ensures h == Some(ReceiveOracleQuery) <==> step == AskQuery && upd.Text?
    ensures h == Some(CancelCommand) <==> step == AskQuery && upd == Command("cancel")
  {
    match step
    case Idle =>
      if upd == Command("oracle") then Some(OracleCommand) else None
    case AskQuery =>
      if upd.Text? then Some(ReceiveOracleQuery)
      else if upd == Command("cancel") then Some(CancelCommand)
      else None
  }

  /** What each callback returns and does to user_data: /oracle returns the
      waiting step; the query handler and /cancel clear user_data and end. */
  function Run(h: Callback, s: Session): (r: Session)
    ensures h == OracleCommand ==> r.step == AskQuery && r.userData == s.userData
    ensures h != OracleCommand ==> r.step == Idle && r.userData == map[]
  {
    match h
    case OracleCommand => Session(AskQuery, s.userData)
    case ReceiveOracleQuery => Session(Idle, map[])
    case CancelCommand => Session(Idle, map[])
  }

  /** One update through the conversation handler; an update no callback
      takes leaves the session as it was. */
  function Handle(s: Session, upd: Update): (r: Session)
    ensures s.step == Idle && upd == Command("oracle") ==> r == Session(AskQuery, s.userData)
    ensures s.step == AskQuery && upd.Text? ==> r == Session(Idle, map[])
    ensures s.step == AskQuery && upd == Command("cancel") ==> r == Session(Idle, map[])
    ensures (!(s.step == Idle && upd == Command("oracle")) &&
             !(s.step == AskQuery && (upd.Text? || upd == Command("cancel")))) ==> r == s
  {
    match Route(s.step, upd)
    case None => s
    case Some(h) => Run(h, s)
  }

  /** Handle agrees with the transition table: the step moves exactly along
      Idle -/oracle-> AskQuery, AskQuery -text-> Idle, AskQuery -/cancel-> Idle. */
  lemma StepChangesOnlyAlongTable(s: Session, upd: Update)
    ensures Handle(s, upd).step != s.step <==>
              (s.step == Idle && upd == Command("oracle")) ||
              (s.step == AskQuery && (upd.Text? || upd == Command("cancel")))
  {
  }

  /** A conversation can always be left: /cancel brings every session to Idle. */
  lemma CancelNeverStuck(s: Session)
    ensures Handle(s, Command("cancel")).step == Idle
  {
  }

  /** user_data is only ever kept or cleared, and it is cleared whenever a
      waiting conversation ends. */
  lemma UserDataKeptOrCleared(s: Session, upd: Update)
    ensures Handle(s, upd).userData == s.userData || Handle(s, upd).userData == map[]
    ensures s.step == AskQuery && Handle(s, upd).step == Idle ==> Handle(s, upd).userData == map[]
  {
  }

  /** start_command's row: insert-or-ignore of (user_id, chat_id). An existing
      row is left exactly as it was, whatever happens to the statement. */
  function StartCommand(s: Store, u: int, chat: int, env: Env): (r: Store)
    ensures r.conn == ConnAfter(s, env)
    ensures u in s.table ==> r.table == s.table
    ensures Succeeds(s, env) && u !in s.table ==> r.table == s.table[u := Row(chat, None, None)]
    ensures !Succeeds(s, env) ==> r.table == s.table
  {
    ExecuteQuery(s, InsertUser(u, chat), env).store
  }

  /** The application's handlers in registration order: /start is taken by
      its own handler and never reaches the conversation; everything else
      goes to the conversation handler. No callback other than start_command
      writes the store; the library's write-through of the new step and
      user_data after a transition is not part of Dispatch. */
  function Dispatch(s: Store, session: Session, u: int, chat: int, upd: Update, env: Env): (r: (Store, Session))
    ensures upd == Command("start") ==> r.1 == session && r.0 == StartCommand(s, u, chat, env)
    ensures upd != Command("start") ==> r.0 == s && r.1 == Handle(session, upd)
  {
    if upd == Command("start") then (StartCommand(s, u, chat, env), session)
    else (s, Handle(session, upd))
  }

  /** /start never changes a conversation step, even in the middle of one. */
  lemma StartLeavesConversation(s: Store, session: Session, u: int, chat: int, env: Env)
    ensures Dispatch(s, session, u, chat, Command("start"), env).1.step == session.step
  {
  }

  /** The value a step is persisted as: END as NULL, the waiting step as its tag. */
  function StepTag(step: Step): (tag: Option<string>)
    ensures tag == None <==> step == Idle
  {
    match step
    case Idle => None
    case AskQuery => Some(AskQueryTag)
  }

  /** The step a reloaded value stands for in this model; NULL and unknown
      tags both mean no conversation. */
  function Resume(tag: Option<string>): Step
  {
    if tag == Some(AskQueryTag) then AskQuery else Idle
  }

  /** Persisting a step and reading it back gives the same step. */
  lemma TagRoundTrip(step: Step)
    ensures Resume(StepTag(step)) == step
  {
  }

  /** A step written for a conversation key survives a restart when the key is
      read back as it was written. */
  lemma RestartResumes(s: Store, key: (int, int), step: Step, env: Env)
    requires s.conn == Open && env.outcome == Completes
    ensures var s1 := UpdateConversation(s, ConversationName, key, StepTag(step), env);
            var loaded := GetConversationsByKey(s1, ConversationName, env).value[ConversationName];
            key in loaded && Resume(loaded[key]) == step
  {
    ConversationKeyRoundTrip(s, ConversationName, key, StepTag(step), env);
  }

  /** In a private chat (chat id = user id) the reader as written also brings
      the step back. */
  lemma PrivateChatRestartResumes(s: Store, u: int, step: Step, env: Env)
    requires s.conn == Open && env.outcome == Completes
    ensures var s1 := UpdateConversation(s, ConversationName, (u, u), StepTag(step), env);
            var loaded := GetConversations(s1, ConversationName, env).value[ConversationName];
            (u, u) in loaded && Resume(loaded[(u, u)]) == step
  {
    StepRoundTrip(s, ConversationName, u, u, StepTag(step), env);
  }

  /** A user enters with /oracle in some chat, answers with a symbol, the
      process restarts and the same user sends /oracle again: the completed
      conversation was stored as a present NULL, so the user starts afresh in
      the waiting step. */
  lemma CompletedConversationRestartsFresh(s: Store, key: (int, int), userData: Data, env: Env)
    requires s.conn == Open && env.outcome == Completes
    ensures
      var first := Handle(Session(Idle, userData), Command("oracle"));
      var s1 := UpdateConversation(s, ConversationName, key, StepTag(first.step), env);
      var second := Handle(first, Text("BTCUSDT"));
      var s2 := UpdateConversation(s1, ConversationName, key, StepTag(second.step), env);
      var loaded := GetConversationsByKey(s2, ConversationName, env).value[ConversationName];
      var reloaded := Session(Resume(loaded[key]), map[]);
      first.step == AskQuery && second == Session(Idle, map[]) &&
      key in loaded && loaded[key] == None &&
      Handle(reloaded, Command("oracle")).step == AskQuery
  {
    var first := Handle(Session(Idle, userData), Command("oracle"));
    var s1 := UpdateConversation(s, ConversationName, key, StepTag(first.step), env);
    var second := Handle(first, Text("BTCUSDT"));
    ConversationKeyRoundTrip(s1, ConversationName, key, StepTag(second.step), env);
  }
}
