/** Value types shared by the conversation store: optional column values and
    the JSON documents kept in the conversation_data column. */
module Values {

  /** A nullable column value: None is SQL NULL (Python None). */
  datatype Option<+T> = None | Some(value: T)

  /** A JSON document as stored in a json column. Numbers are integers only. */
  datatype Json =
    | JNull
    | JBool(b: bool)
    | JNum(n: int)
    | JStr(s: string)
    | JArr(items: seq<Json>)
    | JObj(fields: map<string, Json>)

  /** The per-user dictionary the conversation library keeps for each user
      (`context.user_data`), stored whole in conversation_data. */
  type Data = map<string, Json>
}
