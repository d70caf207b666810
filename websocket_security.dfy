/** Checks on inbound WebSocket traffic (internal/security/websocket.go):
    the message-type whitelist, the payload shape each type needs, and a
    fixed-window rate limiter counting messages per connection. */
module WebSocketSecurity {
  import opened Results
  import opened RoomConfigs
  import opened Messages

  /** The message types a client may send; `join` is not among them. */
  const ValidMessageTypes: set<string> :=
    {MsgTypeVote, MsgTypeReveal, MsgTypeReset, MsgTypeNextRound, MsgTypeUpdateName, MsgTypeUpdateRoomName, MsgTypeUpdateConfig}

  /** `IsValidMessageType`. */
  function IsValidMessageType(msgType: string): (b: bool)
    ensures b <==> msgType == "vote" || msgType == "reveal" || msgType == "reset" || msgType == "next_round"
                   || msgType == "update_name" || msgType == "update_room_name" || msgType == "update_config"
    ensures msgType == MsgTypeJoin || msgType == "" ==> !b
  {
    msgType in ValidMessageTypes
  }

  datatype PayloadError = NotAnObject | MissingValue | MissingName | MissingConfig

  /** `ValidateMessagePayload`: the payload must be an object; a vote needs
      a string `value`, a name update a string `name`, a configuration
      update a `config` member of any kind; other types need nothing more. */
  function ValidateMessagePayload(msgType: string, payload: Json): (r: Outcome<PayloadError>)
    ensures !payload.JObject? ==> r == Fail(NotAnObject)
    ensures payload.JObject? && msgType == MsgTypeVote ==>
      (r.Pass? <==> StringField(payload, "value").Some?) && (r.Fail? ==> r.error == MissingValue)
    ensures payload.JObject? && (msgType == MsgTypeUpdateName || msgType == MsgTypeUpdateRoomName) ==>
      (r.Pass? <==> StringField(payload, "name").Some?) && (r.Fail? ==> r.error == MissingName)
    ensures payload.JObject? && msgType == MsgTypeUpdateConfig ==>
      (r.Pass? <==> exists i :: 0 <= i < |payload.members| && payload.members[i].0 == "config")
    ensures payload.JObject? && msgType !in {MsgTypeVote, MsgTypeUpdateName, MsgTypeUpdateRoomName, MsgTypeUpdateConfig} ==> r == Pass
  {
    if !payload.JObject? then Fail(NotAnObject)
    else if msgType == MsgTypeVote then
      (if StringField(payload, "value").Some? then Pass else Fail(MissingValue))
    else if msgType == MsgTypeUpdateName || msgType == MsgTypeUpdateRoomName then
      (if StringField(payload, "name").Some? then Pass else Fail(MissingName))
    else if msgType == MsgTypeUpdateConfig then
      (if Member(payload.members, "config").Some? then Pass else Fail(MissingConfig))
    else Pass
  }

  /** Reveal, reset and next round accept any object, the empty one included,
      and nothing else. */
  lemma ControlMessagesNeedOnlyAnObject(msgType: string, payload: Json)
    requires msgType in {MsgTypeReveal, MsgTypeReset, MsgTypeNextRound}
    ensures ValidateMessagePayload(msgType, payload).Pass? <==> payload.JObject?
    ensures ValidateMessagePayload(msgType, JObject([])).Pass?
  {
  }

  /** A vote whose `value` is not a string (here a number) is refused, and so
      is a vote value given only under another key. */
  lemma VoteValueMustBeAString()
    ensures ValidateMessagePayload(MsgTypeVote, JObject([("value", JOther)])) == Fail(MissingValue)
    ensures ValidateMessagePayload(MsgTypeVote, JObject([("Value", JString("5"))])) == Fail(MissingValue)
    ensures ValidateMessagePayload(MsgTypeVote, JObject([("value", JString("5"))])) == Pass
  {
    assert Member([("value", JOther)], "value") == Some(JOther);
    assert Member([("Value", JString("5"))], "value") == None;
    assert Member([("value", JString("5"))], "value") == Some(JString("5"));
  }

  /** `RateLimiter`: message counts per connection within the current
      window. Times are integer clock readings; `C` stands for the
      connection handle. */
  class RateLimiter<C(==)> {
    var tokens: map<C, int>
    var lastReset: int
    const maxTokens: int
    const window: int

    /** `NewRateLimiter`. */
    constructor (maxTokens: int, window: int, now: int)
      ensures this.maxTokens == maxTokens && this.window == window
      ensures tokens == map[] && lastReset == now
    {
      this.maxTokens := maxTokens;
      this.window := window;
      tokens := map[];
      lastReset := now;
    }

    /** The number of messages counted for `conn` in the current window. */
    function Count(conn: C): (n: int)
      reads this
      ensures conn !in tokens ==> n == 0
    {
      if conn in tokens then tokens[conn] else 0
    }

    /** `Allow`: once more than `window` has passed since the last reset,
        every connection's count is cleared; then this connection's count
        goes up by one, and the message is allowed while it stays within
        `maxTokens`. */
    method Allow(conn: C, now: int) returns (allowed: bool)
      modifies this
      ensures now - old(lastReset) > window ==> tokens == map[conn := 1] && lastReset == now
      ensures now - old(lastReset) <= window ==>
        tokens == old(tokens)[conn := old(Count(conn)) + 1] && lastReset == old(lastReset)
      ensures allowed <==> Count(conn) <= maxTokens
    {
      if now - lastReset > window {
        tokens := map[];
        lastReset := now;
      }
      tokens := tokens[conn := Count(conn) + 1];
      allowed := tokens[conn] <= maxTokens;
    }

    /** `Remove`: forgets this connection's count only. */
    method Remove(conn: C)
      modifies this
      ensures tokens == old(tokens) - {conn}
      ensures lastReset == old(lastReset)
    {
      tokens := tokens - {conn};
    }
  }
}
