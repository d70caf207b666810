/** The WebSocket message envelope and message types
    (internal/models/message.go). An inbound frame is a JSON object with a
    `type` and a `payload`; the payload is kept as the decoded JSON value,
    `JNull` when it is absent. */
module Messages {
  import opened Results
  import opened RoomConfigs

  // Client to server.
  const MsgTypeJoin: string := "join"
  const MsgTypeVote: string := "vote"
  const MsgTypeReveal: string := "reveal"
  const MsgTypeReset: string := "reset"
  const MsgTypeNextRound: string := "next_round"
  const MsgTypeUpdateName: string := "update_name"
  const MsgTypeUpdateRoomName: string := "update_room_name"
  const MsgTypeUpdateConfig: string := "update_config"

  datatype WSMessage = WSMessage(msgType: string, payload: Json)

  /** The value Go's decoding into `map[string]interface{}` keeps for `key`:
      keys match exactly and a later duplicate overwrites an earlier one, so
      it is the value of the last member named `key`. */
  function Member(members: seq<(string, Json)>, key: string): (r: Option<Json>)
    ensures r.None? <==> forall i :: 0 <= i < |members| ==> members[i].0 != key
    ensures r.Some? ==>
      exists i :: 0 <= i < |members| && members[i] == (key, r.value) && forall j :: i < j < |members| ==> members[j].0 != key
    decreases |members|
  {
    if members == [] then None
    else if members[|members| - 1].0 == key then Some(members[|members| - 1].1)
    else
      var r := Member(members[..|members| - 1], key);
      assert forall i :: 0 <= i < |members| - 1 ==> members[..|members| - 1][i] == members[i];
      r
  }

  /** `payload.(map[string]interface{})[key].(string)`: the string under
      `key` when the payload is an object and that member is a string. */
  function StringField(payload: Json, key: string): (r: Option<string>)
    ensures r.Some? <==> payload.JObject? && Member(payload.members, key).Some? && Member(payload.members, key).value.JString?
    ensures r.Some? ==> Member(payload.members, key) == Some(JString(r.value))
  {
    match payload
    case JObject(m) =>
      (match Member(m, key)
       case Some(JString(s)) => Some(s)
       case _ => None)
    case _ => None
  }
}
