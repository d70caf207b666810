# Planning poker server, modelled in Dafny

This project models the core of a real-time planning-poker server written in
Go. A room has participants (voters and spectators) and a sequence of
rounds. In each round the voters pick a card from the room's scale, the
votes are revealed, and the round is either reset or completed so that a
new one can start. The model covers:

- **Input validation.** The vote scales (the preset templates and a room's
  custom list), single vote values, names, record ids, and the scrubbing of
  error messages before they reach a client.
- **The in-memory room model.** Rooms, rounds and participants.
- **The persistent store.** The room manager keeps rooms, rounds,
  participants and votes, and preserves the unique indexes the database
  enforces: one round per number in a room, one vote per participant per
  round.
- **The permission service.** It decides who may reveal, reset or start
  the next round, and it stores a room's configuration as a JSON document.
- **The WebSocket message handler.** It filters inbound frames, runs each
  action's checks against the store and the permissions, and records what
  is broadcast to the room. The model proves that no vote value is
  broadcast while a round is still being voted on.
- **Connection bookkeeping.** The hub's room-to-connection map, a client's
  bounded send queue and message rate counter, the per-connection rate
  limiter, and the server metrics with their health status.
- **Vote statistics.** The value breakdown, the most common value and
  unanimity.
- **Two helpers of the bundled example app.** The task list in
  `app/tasks.go` and the template helpers in `utils/render.go`.

Stateful components are Dafny classes whose methods change their fields:

- the store (`RoomManagers.RoomManager`);
- the in-memory room;
- the handler with its broadcast log;
- the hub, the client, the rate limiter and the metrics.

The store's methods keep an invariant `Valid()`. It holds the database's
unique indexes, the references between records, and the rule that a room's
current round, once set, exists and belongs to the room. Every store method
except `CreateRoundForRoom` also keeps `Sequenced`: every room has a current
round, and no round of the room has a higher number. In a sequenced store
`CreateNextRound` always succeeds. The handler's methods keep `Sequenced`
too. Pure code is written as functions with lemmas.

The store's record ids and the clock are parameters (`newId`, `now`).
Unicode letter and digit classes are a parameter (`UnicodeClasses`). Go's
map iteration order is left open: a loop over a map picks an arbitrary
unvisited key.

Strings are sequences of Unicode scalar values. Go's `len` of a string, a
byte count, is `GoStrings.Utf8Len`.

## Model

| member | source | states |
|---|---|---|
| VoteValidator.ValidateValue | internal/services/vote_validator.go:88-112 | A value is accepted iff it is non-empty, at most 10 UTF-8 bytes, and drawn from letters, digits, `.`, `-`, `_` and space. Each error names the first failing check, and the control-character error can never be reached. |
| VoteValidator.ScanSpec | internal/services/vote_validator.go:50-71 | The per-piece loop succeeds iff every trimmed, non-blank piece is a valid value and none repeats an earlier one. It then yields those pieces in order. |
| VoteValidator.CandidatesTrimmed | internal/services/vote_validator.go:52-57 | Every value the loop keeps is non-blank and has no surrounding white space. |
| VoteValidator.CandidatesNoBlank | internal/services/vote_validator.go:52-57 | When no piece is blank, each piece is kept, trimmed, in order. |
| VoteValidator.ParseSpec | internal/services/vote_validator.go:38-85 | `ParseCustomValues` succeeds iff the input is non-empty, every value is valid, no value repeats, and there are 2 to 20 values. On success it returns exactly those values. |
| VoteValidator.ParsedValuesValid | internal/services/vote_validator.go:38-85 | A parsed scale has 2 to 20 distinct, trimmed, valid values. |
| VoteValidator.DuplicateRejected | internal/services/vote_validator.go:64-67 | Two equal values anywhere in the list make the parse fail. |
| VoteValidator.ParseCustomValues | internal/services/vote_validator.go:38-85 | The loop over the comma-separated pieces returns the same result as `Parse`. |
| VoteValidator.ParseFormat | internal/services/vote_validator.go:22-24 | Writing a valid scale out in the templates' "a, b, c" form and parsing it back gives the scale (round trip). |
| VoteValidator.FibonacciParses | internal/services/vote_validator.go:23 | The Fibonacci template string parses to 1, 2, 3, 5, 8, 13, 21. |
| VoteValidator.ModifiedFibonacciParses | internal/services/vote_validator.go:22 | The modified Fibonacci template string parses to 0.5 through 100. |
| VoteValidator.TShirtParses | internal/services/vote_validator.go:24 | The T-shirt template string parses to XXS through XXL. |
| VoteValidator.GetFibonacciValues | internal/services/vote_validator.go:134-137 | Returns the parsed Fibonacci scale. |
| VoteValidator.GetModifiedFibonacciValues | internal/services/vote_validator.go:140-143 | Returns the parsed modified Fibonacci scale. |
| VoteValidator.GetTShirtValues | internal/services/vote_validator.go:146-149 | Returns the parsed T-shirt scale. |
| VoteValidator.GetTemplateValuesString | internal/services/vote_validator.go:152-163 | The form string is empty iff the name is not one of the three templates. Each template name gives that template's own form string. |
| VoteValidator.GetPresetTemplate | internal/services/vote_validator.go:166-177 | An unknown name is an error naming it. A known one yields the parse of its form string. |
| VoteValidator.GetAvailableTemplates | internal/services/vote_validator.go:188-209 | Three templates with distinct known ids. Each carries its form string and a "Name (values)" description. |
| VoteValidator.SpecialCardsAreNotScaleValues | internal/services/vote_validator.go:222-229 | "?" and the coffee cup would fail value validation, so the special-card shortcut is what admits them. |
| VoteValidator.Find | internal/services/vote_validator.go:233-247 | The membership loop finds the value iff it is in the list. |
| VoteValidator.ValidateVoteValue | internal/services/vote_validator.go:221-255 | An empty vote is rejected, and "?" and the coffee cup always pass. Otherwise: the fibonacci method accepts exactly its scale; the custom method rejects an empty list and then accepts exactly its members; any other method is an error naming it. |
| Validators.ValidateName | internal/security/validators.go:58-95 | The name is trimmed, then accepted iff it is 1 to maxLen bytes, made of letters, digits, white space, `'`, `-`, `_` and `.`, and free of dangerous and control characters. An all-space name is "empty", an over-long one "too long", and "too short" is never returned. |
| Validators.ValidateNameIdempotent | internal/security/validators.go:58-95 | Validating an accepted, sanitized name again returns it unchanged. |
| Validators.ValidateNameIgnoresPadding | internal/security/validators.go:60 | Surrounding white space never changes the verdict or the result. |
| Validators.InnerLineBreakRejected | internal/security/validators.go:87-92 | A line break inside a name passes the character-class check, since `\s` matches it, but the control-character loop rejects it. |
| Validators.ValidateRoomName | internal/security/validators.go:98-100 | A room name is a validated name of at most 100 bytes. |
| Validators.ValidateParticipantName | internal/security/validators.go:103-105 | A participant name is a validated name of at most 50 bytes. |
| Validators.ParticipantNameIsRoomName | internal/security/validators.go:98-105 | Every valid participant name is a valid room name with the same sanitized value. |
| Validators.UuidCaseInsensitive | internal/security/validators.go:46 | Lower-casing and then matching the lower-case UUID pattern is the same as matching the pattern in either case. |
| Validators.ValidateUUID | internal/security/validators.go:35-54 | An id passes iff it is 15 ASCII letters or digits, or a UUID in canonical 8-4-4-4-12 hex form in any case. Empty ids are reported as such, and the malformed-UUID branch is unreachable. |
| Validators.MatchesFrom | internal/security/validators.go:130-134 | The pattern loop finds a match iff some remaining sensitive pattern occurs in the message. |
| Validators.SanitizeErrorMessage | internal/security/validators.go:109-137 | No error gives "". An error mentioning a sensitive pattern, case-insensitively, gives the generic message. Any other error is passed through unchanged. |
| Validators.SanitizeCaseInsensitive | internal/security/validators.go:114 | Whether a message is sensitive does not depend on its letter case. |
| Participants.NewParticipant | internal/models/participant.go:20-28 | A new participant has the given id, name and role, is not connected, and joined now. |
| Participants.NewParticipantsDiffer | internal/models/participant.go:7-28 | Participants created with different ids differ, and the two roles are distinct. |
| Rounds.NewRound | internal/models/round.go:26-34 | A new round belongs to the room, has the given number, is voting and has no votes. |
| Rounds.StatePredicates | internal/models/round.go:36-58 | The three state predicates are mutually exclusive and cover exactly the defined states. Votes are accepted and reveal is allowed only while voting. Completion is allowed only once revealed. |
| Rooms.StateName | internal/models/room.go:10-13 | The two room states have the names "voting" and "revealed". |
| Rooms.Room.constructor | internal/models/room.go:29-41 | A new room is voting, has no participants or votes, and was created and last active now. |
| Rooms.Room.AddParticipant | internal/models/room.go:43-48 | The participant is stored under its id and the activity time is updated. Everything else is unchanged. |
| Rooms.Room.GetParticipant | internal/models/room.go:50-54 | Returns the participant with the id iff there is one. |
| Rooms.Room.RemoveParticipant | internal/models/room.go:56-62 | The participant and their vote are removed together. |
| Rooms.Room.CastVote | internal/models/room.go:64-69 | The participant's vote is set or replaced. Participants and state are unchanged. |
| Rooms.Room.RevealVotes | internal/models/room.go:71-76 | The room becomes revealed and the votes are kept. |
| Rooms.Room.ResetVoting | internal/models/room.go:78-84 | The room is voting again with no votes. Participants are kept. |
| Rooms.Room.GetVoteStats | internal/models/room.go:86-93 | The vote total is the number of voters, and it is zero iff there are no votes. |
| Rooms.VoteCountAfterCast | internal/models/room.go:64-69 | A first vote raises the total by one, and a changed vote keeps it. |
| Rooms.VoteCountAfterRemove | internal/models/room.go:56-62 | Removing a voter lowers the total by one. Removing a non-voter keeps it. |
| RoomConfigs.DefaultRoomConfig | internal/models/room_config.go:32-42 | By default everybody may start a new round, reset and reveal. Changing a vote after reveal and auto-reveal are off. |
| RoomConfigs.EffectiveConfig | internal/handlers/room.go:391-401 | A room without a config, or with a document that does not decode, works with the defaults. Otherwise it uses the decoded document. |
| RoomConfigs.ApplyOwnMember | internal/models/room_config.go:9-15 | Each JSON member written for a flag decodes into that flag. |
| RoomConfigs.DecodePermissionsCons | internal/models/room_config.go:9-15 | The members of a permissions object are decoded one after another, in order. |
| RoomConfigs.DecodePermissionMembers | internal/models/room_config.go:9-15 | Decoding the written permission members yields exactly those permissions. |
| RoomConfigs.DecodeEncode | internal/services/acl_service.go:100-122 | A configuration written as JSON reads back unchanged, so a stored configuration is the one that takes effect. |
| RoomConfigs.EmptyDocumentIsNotDefault | internal/services/acl_service.go:22-42 | A stored `{}` or `null` decodes to all-false permissions, which are not the defaults. |
| RoomManagers.OneVotePerParticipant | internal/services/room_manager.go:259-321 | The unique indexes leave at most one vote per participant per round. |
| RoomManagers.SameKeySameRound | internal/services/room_manager.go:270-301 | A vote found by (participant, room, round number) belongs to the round with that number. |
| RoomManagers.CurrentRoundOf | internal/services/room_manager.go:239-257 | The current round is found iff the room exists and its current-round reference names an existing round. A missing room is reported as such. |
| RoomManagers.SequencedHasCurrentRound | internal/services/room_manager.go:26-77 | In a consistent, sequenced store, a room has a current round iff it exists. |
| RoomManagers.NextNumberFree | internal/services/room_manager.go:476-531 | In a sequenced store, every room's current round exists and no round of the room is numbered one past it, so the next round can always be created. |
| RoomManagers.Touch | internal/services/room_manager.go:88-99 | Only the room's last-activity time changes, and no room is added or removed. |
| RoomManagers.RoomManager.constructor | internal/services/room_manager.go:19-24 | An empty store is consistent. |
| RoomManagers.RoomManager.GetRoom | internal/services/room_manager.go:79-86 | The room is found iff it exists. |
| RoomManagers.RoomManager.IsRoomCreator | internal/services/room_manager.go:381-387 | As written, true iff the room exists and its recorded creator id equals the given id, including the empty id while no creator is recorded. |
| RoomManagers.RoomManager.IsRoomCreatorChecked | internal/services/room_manager.go:381-387 | True iff the room exists, the id is not empty, and it is the recorded creator. It implies the as-written check. |
| RoomManagers.RoomManager.UnclaimedRoomAcceptsAnonymous | internal/services/room_manager.go:381-387 | In a room with no recorded creator the as-written check accepts the empty id, and the corrected check refuses it. |
| RoomManagers.RoomManager.GetCurrentRound | internal/services/room_manager.go:219-237 | The current round's number, or 1 when the room or its round is missing. |
| RoomManagers.RoomManager.GetRoomState | internal/services/room_manager.go:124-131 | The current round's state. When the lookup fails: "voting" plus the error. |
| RoomManagers.RoomManager.GetRoomVotes | internal/services/room_manager.go:324-346 | Exactly the votes of the current round, or the lookup's error. |
| RoomManagers.RoomManager.UpdateRoomActivity | internal/services/room_manager.go:88-99 | Succeeds iff the room exists. Only its activity time changes. A sequenced store stays sequenced. |
| RoomManagers.RoomManager.CreateRoundForRoom | internal/services/room_manager.go:437-454 | Fails iff the room is missing or the round number is taken, which is the unique index. Otherwise it adds a voting round with no votes. The store stays consistent. A number above the current round's would break `Sequenced`, so this method does not promise to keep it. |
| RoomManagers.RoomManager.CreateRoom | internal/services/room_manager.go:26-77 | Adds the room with its 24-hour expiry and no creator (an empty pointing method becomes "custom"), plus a voting round 1 as its current round. A sequenced store stays sequenced. |
| RoomManagers.RoomManager.AddParticipant | internal/services/room_manager.go:149-181 | Fails iff the room is missing or the session already joined it. Otherwise it adds the connected participant, makes them creator when none is recorded, and touches the room. A sequenced store stays sequenced. |
| RoomManagers.RoomManager.CastVote | internal/services/room_manager.go:259-321 | Succeeds iff the room has a current round and the participant either has a vote in it or exists. Afterwards the participant has exactly one vote in the round: the old one updated, or a new one. Nothing else changes. A sequenced store stays sequenced. |
| RoomManagers.RoomManager.RevealVotes | internal/services/room_manager.go:108-122 | Succeeds iff there is a current round. It becomes revealed, keeps its number and its votes, and the room is touched. A sequenced store stays sequenced. |
| RoomManagers.RoomManager.DeleteVotes | internal/services/room_manager.go:364-368 | Removes exactly the given votes and keeps the store consistent and sequenced. |
| RoomManagers.RoomManager.ResetRound | internal/services/room_manager.go:348-378 | Succeeds iff there is a current round. Its votes are deleted and it is voting again. A sequenced store stays sequenced. |
| RoomManagers.RoomManager.CompleteRound | internal/services/room_manager.go:457-473 | Succeeds iff the round exists. It becomes completed with the vote total. A sequenced store stays sequenced. |
| RoomManagers.RoomManager.CreateNextRound | internal/services/room_manager.go:476-531 | The current round is completed with its vote count. A new voting round numbered one higher becomes current iff that number is free. Votes are untouched. In a sequenced store, a room with a current round always gets the new round, and the store stays sequenced. |
| RoomManagers.RoomManager.OpenRound | internal/services/room_manager.go:510-530 | The round with the given number is created and made current, with no votes, iff the number is free in the room. Otherwise rooms and rounds are unchanged. When the number is one past the current round's, a sequenced store stays sequenced. |
| RoomManagers.RoomManager.UpdateParticipantName | internal/services/room_manager.go:390-410 | Succeeds iff the name validates and the participant exists, and stores the sanitized name. A failed validation is reported with its reason. A sequenced store stays sequenced. |
| RoomManagers.RoomManager.UpdateRoomName | internal/services/room_manager.go:413-434 | Succeeds iff the name validates and the room exists, and stores the sanitized name and touches the room. A sequenced store stays sequenced. |
| Acl.AclService.constructor | internal/services/acl_service.go:15-20 | The service reads the given store. |
| Acl.AclService.GetRoomConfig | internal/services/acl_service.go:22-42 | An error iff the room is missing. A room without a config, or with one that does not decode, gets the defaults. Otherwise the decoded config. |
| Acl.AclService.CreatorOrFlag | internal/services/acl_service.go:45-87 | Whoever passes the as-written creator check is always allowed, including the empty id in a room nobody has joined. Anybody else is allowed by the chosen permission flag. A missing room is an error. |
| Acl.AclService.CreatorOrFlagChecked | internal/services/acl_service.go:45-87 | The corrected check: allowed iff the caller is a recorded, non-empty creator or the flag is set. It agrees with the as-written check for every non-empty id. |
| Acl.AclService.UnclaimedRoomAdmitsAnonymous | internal/services/acl_service.go:45-87 | In a room nobody has joined, the empty id may reveal, reset and start the next round whatever the flags say. The corrected check gives it only the flag. |
| Acl.AclService.CanTriggerNewRound | internal/services/acl_service.go:45-57 | Whoever passes `IsRoomCreator` as written may always start the next round, others only if allow_all_new_round is set. A missing room is an error. |
| Acl.AclService.CanReset | internal/services/acl_service.go:60-72 | Whoever passes `IsRoomCreator` as written may always reset, others only if allow_all_reset is set. A missing room is an error. |
| Acl.AclService.CanReveal | internal/services/acl_service.go:75-87 | Whoever passes `IsRoomCreator` as written may always reveal, others only if allow_all_reveal is set. A missing room is an error. |
| Acl.AclService.CanChangeVoteAfterReveal | internal/services/acl_service.go:90-97 | The room's allow_change_vote_after_reveal flag. A missing room is an error. |
| Acl.AclService.DefaultsAllowEverybody | internal/services/acl_service.go:45-97 | In a room without a config, anybody may reveal, reset and start a new round, and nobody may change a vote after reveal. |
| Acl.AclService.UpdateRoomConfig | internal/services/acl_service.go:100-122 | Succeeds iff the caller passes `IsRoomCreator` as written. Then the room stores the config as JSON and reading it back gives that config. A sequenced store stays sequenced. |
| Messages.Member | internal/security/websocket.go:96-116 | A JSON object member is found iff the key occurs, and the last occurrence wins, as when decoding into a Go map. |
| Messages.StringField | internal/security/websocket.go:104-111 | A field is read as a string iff the payload is an object whose member under the key is a JSON string. |
| WebSocketSecurity.IsValidMessageType | internal/security/websocket.go:13-26 | Exactly the seven client action types are valid. "join" and the empty type are not. |
| WebSocketSecurity.ValidateMessagePayload | internal/security/websocket.go:95-126 | A non-object payload is refused. A vote needs a string "value", a rename a string "name", and a config update a "config" member. Other types pass. |
| WebSocketSecurity.ControlMessagesNeedOnlyAnObject | internal/security/websocket.go:120-123 | reveal, reset and next_round pass with any object, including an empty one. |
| WebSocketSecurity.VoteValueMustBeAString | internal/security/websocket.go:102-106 | A vote whose value is not a string, or whose key differs in case, is refused. |
| WebSocketSecurity.RateLimiter.constructor | internal/security/websocket.go:40-47 | A new limiter has no counts and starts its window now. |
| WebSocketSecurity.RateLimiter.Count | internal/security/websocket.go:51-66 | A connection not yet seen has count zero. |
| WebSocketSecurity.RateLimiter.Allow | internal/security/websocket.go:51-66 | After the window, all counts restart with this connection at one. Within the window, its count goes up by one. The message is allowed iff the count is within the limit. |
| WebSocketSecurity.RateLimiter.Remove | internal/security/websocket.go:69-73 | The connection's count is dropped. |
| ServerMetrics.HealthStatus | internal/services/metrics.go:141-158 | Critical iff over 9000 connections or 900 rooms. Otherwise warning iff over 8000 connections, 800 rooms or 100 errors. Otherwise healthy. |
| ServerMetrics.ErrorsNeverCritical | internal/services/metrics.go:141-158 | Errors alone never make the status critical, and more errors never lift a warning. |
| ServerMetrics.Metrics.constructor | internal/services/metrics.go:31-36 | All counters start at zero. |
| ServerMetrics.Metrics.IncrementConnections | internal/services/metrics.go:38-41 | Active and total connections go up by one. |
| ServerMetrics.Metrics.DecrementConnections | internal/services/metrics.go:43-45 | Active connections go down by one. |
| ServerMetrics.Metrics.IncrementRooms | internal/services/metrics.go:47-49 | Active rooms go up by one. |
| ServerMetrics.Metrics.DecrementRooms | internal/services/metrics.go:51-53 | Active rooms go down by one. |
| ServerMetrics.Metrics.IncrementMessagesReceived | internal/services/metrics.go:56-59 | Received messages go up by one and the last message time is now. |
| ServerMetrics.Metrics.IncrementMessagesSent | internal/services/metrics.go:61-64 | Sent messages go up by one. |
| ServerMetrics.Metrics.IncrementConnectionErrors | internal/services/metrics.go:66-68 | Connection errors go up by one. |
| ServerMetrics.Metrics.IncrementBroadcastErrors | internal/services/metrics.go:70-72 | Broadcast errors go up by one. |
| ServerMetrics.Metrics.IncrementRateLimitViolations | internal/services/metrics.go:74-76 | Rate-limit violations go up by one. |
| ServerMetrics.Metrics.CalculateHealthStatus | internal/services/metrics.go:141-158 | The status of the current counts, with connection and broadcast errors added together. |
| Hubs.Connections | internal/services/hub.go:104-112 | A room's connections, none for an unknown room. |
| Hubs.Registered | internal/services/hub.go:68-84 | Registering adds the connection to its room, creating the room's set if needed. Other rooms are kept. |
| Hubs.Unregistered | internal/services/hub.go:86-102 | Unregistering removes the connection from its room only. An unknown connection changes nothing. |
| Hubs.RegistrationKeepsRoomsNonEmpty | internal/services/hub.go:68-102 | Registering and unregistering never leave a room with an empty connection set. |
| Hubs.RegisterIdempotent | internal/services/hub.go:68-84 | Registering the same connection twice is the same as registering it once. |
| Hubs.UnregisterUndoesRegister | internal/services/hub.go:68-102 | Unregistering a newly registered connection restores the hub. |
| Hubs.Hub.constructor | internal/services/hub.go:43-51 | A new hub has no rooms and no connection owners. |
| Hubs.Hub.RegisterConnection | internal/services/hub.go:68-84 | The connection joins its room and is mapped to its participant when one is given. |
| Hubs.Hub.UnregisterConnection | internal/services/hub.go:86-102 | The connection leaves its room and loses its participant when it was registered there. |
| Hubs.Hub.BroadcastToRoom | internal/services/hub.go:104-132 | The recipients are exactly the room's connections, and there are none iff the room is unknown. |
| Clients.Client.constructor | internal/services/client.go:35-48 | A new client has an empty queue, is open, and starts its rate window now. |
| Clients.Client.CheckRateLimit | internal/services/client.go:150-162 | After the window the count restarts at one. Otherwise it goes up by one. The message is allowed iff the count is at most 10. |
| Clients.Client.Send | internal/services/client.go:165-183 | A closed client drops the message. An open client queues it when the 256-slot buffer has room. Otherwise it drops it, counts a broadcast error and closes. |
| Clients.Client.Close | internal/services/client.go:186-198 | The client is closed and the queue is kept. |
| Clients.Client.NextToWrite | internal/services/client.go:57-100 | The write pump takes the oldest queued message. With nothing queued it sees the closed channel, or waits. |
| VoteStats.TallyStep | internal/handlers/room.go:231-232 | Counting one more voter keeps the breakdown equal to the number of voters per value. |
| VoteStats.TallyEmpty | internal/handlers/room.go:220 | The empty breakdown tallies no votes. |
| VoteStats.SumCounts | internal/handlers/ws.go:507-516 | The counts of a breakdown add up to the number of votes. |
| VoteStats.UnanimousIff | internal/handlers/room.go:250-257 | All votes share a value iff the voters of one chosen value are all voters. |
| VoteStats.CountingStep | internal/handlers/room.go:231-238 | One step of the counting loop keeps the breakdown and the running most common value correct. |
| VoteStats.CountingDone | internal/handlers/room.go:231-248 | At the end the breakdown tallies all votes and the most common value carries the top count. |
| VoteStats.CountVotes | internal/handlers/room.go:219-238 | The breakdown counts each value's voters. The most common value has the highest count. |
| VoteStats.CalculateStats | internal/handlers/room.go:214-265 | No statistics for no votes. Otherwise the total, the breakdown, a most common value with the top count, and consensus iff the vote is unanimous. |
| VoteStats.UnanimityIsTheTopCount | internal/handlers/room.go:250-257 | The top count equals the number of votes iff all votes agree. |
| WsHandlers.Admit | internal/handlers/ws.go:163-186 | A frame is handled iff it decoded, has a non-empty valid type and passes payload validation. "join" is never handled. |
| WsHandlers.ValuesOfRound | internal/handlers/ws.go:465-470 | The votes of a round, by vote id, with their values. |
| WsHandlers.CollectingStep | internal/handlers/ws.go:483-504 | One step of the reveal's collecting loop lists one more vote once and counts it. |
| WsHandlers.CollectVotes | internal/handlers/ws.go:480-504 | The reveal lists each vote of the round exactly once, with its voter's name and value, and tallies the values. |
| WsHandlers.CollectingDone | internal/handlers/ws.go:483-504 | When the loop ends, every vote of the round is listed and counted. |
| WsHandlers.DistinctLength | internal/handlers/ws.go:483-504 | A duplicate-free listing of a set has the set's size. |
| WsHandlers.WSHandler.constructor | internal/handlers/ws.go:25-36 | A new handler has an empty broadcast log. |
| WsHandlers.WSHandler.IsRoomExpired | internal/handlers/ws.go:270-279 | A room is expired iff it is missing or its expiry time has passed. |
| WsHandlers.WSHandler.VoteCheck | internal/handlers/ws.go:320-390 | A vote is taken iff: there is a participant id and a string value; the room has a round that is voting, or revealed with vote changes allowed; and the sender is a voter of the store. |
| WsHandlers.WSHandler.HandleVote | internal/handlers/ws.go:320-425 | A refused vote changes nothing. An accepted one leaves the voter exactly one vote with the value, and broadcasts "vote updated" after reveal, "vote cast" before. No vote value is broadcast before reveal. |
| WsHandlers.WSHandler.RecordVote | internal/handlers/ws.go:391-424 | Stores the vote and broadcasts the update or the cast. |
| WsHandlers.WSHandler.RevealCheck | internal/handlers/ws.go:427-457 | Reveal is allowed iff the sender passes `IsRoomCreator` as written or everybody may reveal, and the round is voting. |
| WsHandlers.WSHandler.HandleReveal | internal/handlers/ws.go:427-536 | A refused reveal changes nothing. Otherwise the round is revealed and the room touched. One message lists every vote of the round exactly once, with its voter's name and value, plus the total and the value tallies. |
| WsHandlers.WSHandler.ResetCheck | internal/handlers/ws.go:538-556 | Reset is allowed iff the sender passes `IsRoomCreator` as written or everybody may reset. |
| WsHandlers.WSHandler.HandleReset | internal/handlers/ws.go:538-569 | A refused reset changes nothing. Otherwise the round's votes are deleted, it is voting again, and "room reset" is broadcast. |
| WsHandlers.WSHandler.NextRoundCheck | internal/handlers/ws.go:571-601 | A new round is allowed iff the sender passes `IsRoomCreator` as written or everybody may start one, and the round is revealed. |
| WsHandlers.WSHandler.HandleNextRound | internal/handlers/ws.go:571-617 | A refused request changes nothing. Otherwise the round is completed with its vote count. A voting round numbered one higher becomes current and is announced, provided that number is free. In a sequenced store it always is, and the store stays sequenced. |
| WsHandlers.WSHandler.HandleUpdateName | internal/handlers/ws.go:624-667 | A known participant's valid new name is stored sanitized and broadcast. Otherwise nothing changes. |
| WsHandlers.WSHandler.HandleUpdateRoomName | internal/handlers/ws.go:669-712 | Only a sender that passes `IsRoomCreator` as written may rename the room; in a room nobody has joined that includes the empty id. A valid name is stored sanitized, touches the room and is broadcast. Otherwise nothing changes. |
| WsHandlers.WSHandler.HandleUpdateConfig | internal/handlers/ws.go:714-763 | Only a sender that passes `IsRoomCreator` as written may change the config. A config that decodes is stored, reads back unchanged and is broadcast. Otherwise nothing changes. |
| WsHandlers.WSHandler.HandleMessage | internal/handlers/ws.go:281-318 | A rename has its handler's effect even in an expired room. Any other message to an expired room only broadcasts "room expired". Otherwise the message has the effect `Dispatch` gives its type. At most one message is broadcast, and none that carries a vote value while the round is voting. |
| WsHandlers.WSHandler.Dispatch | internal/handlers/ws.go:295-317 | A vote, reveal, reset, next_round or update_config message has exactly its handler's effect, as each handler states it. Any other type changes nothing. |
| WsHandlers.WSHandler.HandleFrame | internal/handlers/ws.go:163-188 | A frame the filter drops changes nothing. Otherwise the message has the effect `HandleMessage` states, with the same one-broadcast and confidentiality guarantees. |
| RoomHandlers.RoleFor | internal/handlers/room.go:301-305 | A join request for "spectator" makes a spectator. Anything else makes a voter. |
| Tasks.MaxId | app/tasks.go:75-80 | The largest id, at least 0, bounds every id and is either 0 or some task's id. |
| Tasks.CreateTask | app/tasks.go:64-105 | The new task gets the next id above every existing one, is not done, and goes in front of the list. |
| Tasks.CreateKeepsIdsUnique | app/tasks.go:83-91 | Creating a task keeps the ids unique. |
| Tasks.LastMatch | app/tasks.go:125-130 | No task is found iff none has the id. Otherwise it is the last one that has it. |
| Tasks.EditTask | app/tasks.go:107-134 | Returns the last task with the id, or the zero task when none has it. |
| Tasks.Saved | app/tasks.go:155-165 | A saved task keeps its id and done flag and gets the new text iff its id matches. |
| Tasks.SaveTask | app/tasks.go:136-181 | Every task with the id gets the new text and the others are unchanged. The reported task is the last one saved, or the zero task. |
| Tasks.Without | app/tasks.go:183-220 | Removing the tasks with the id leaves none with it and never lengthens the list. |
| Tasks.WithoutNoMatch | app/tasks.go:200-205 | With no task carrying the id, nothing is removed. |
| Tasks.WithoutOneMatch | app/tasks.go:200-205 | With exactly one task carrying the id, only that one is removed and the order is kept. |
| Tasks.DeleteTask | app/tasks.go:183-220 | With unique ids, the in-place delete leaves exactly the list without the task, in order. Where the loop would slice past the shortened list, which only duplicate ids reach, Go panics and the model returns an error. |
| Render.DictOf | utils/render.go:138-151 | The map of the argument pairs has at most one entry per pair. |
| Render.Dict | utils/render.go:138-151 | An odd argument count is an error. A non-string key is an error iff one occurs. Otherwise it returns the map of the pairs. |
| Render.DictKeys | utils/render.go:143-149 | The map's keys are exactly the keys among the pairs. |
| Render.DictLastWins | utils/render.go:143-149 | Each key maps to the value of its last occurrence. |
| Render.DictSizeWithDistinctKeys | utils/render.go:143-149 | With distinct keys the map has one entry per pair. |
| Render.Slug | utils/render.go:76-78 | A heading's anchor has the heading's length, is lower-cased, and has hyphens for spaces. |
| Render.SlugIdempotent | utils/render.go:76-78 | A slug is its own slug. |
| GoStrings.TrimSpace | internal/security/validators.go:60 | The trimmed string neither starts nor ends with white space. |
| GoStrings.TrimSpaceInfix | internal/services/vote_validator.go:44 | The trimmed string occurs in the original, and it is empty iff the original is all white space. |
| GoStrings.TrimSpaceIdempotent | internal/services/vote_validator.go:52 | Trimming twice is trimming once. |
| GoStrings.JoinSplit | internal/services/vote_validator.go:45 | Joining the pieces of a split with the separator gives back the string. |
| GoStrings.SplitJoin | internal/services/vote_validator.go:45 | Splitting a join of separator-free pieces gives back the pieces. |
| GoStrings.Contains | internal/security/validators.go:131 | True iff the pattern occurs at some position. |
| GoStrings.ToLower | internal/security/validators.go:114 | Lower-cases each character and keeps the length. |
| GoStrings.Utf8Len | internal/security/validators.go:68-73 | A string's byte length is between its character count and four times that count. |
| GoStrings.Utf8LenAscii | internal/services/vote_validator.go:93 | The byte length equals the character count iff the string is ASCII. |

## Left out

- Floating point. The averages, the numeric parse of a vote (`ParseNumericValue`, `IsNumericValue`) and the agreement percentage are not modelled. The statistics stop at the breakdown, the most common value and its count, and consensus.
- Time is an integer clock reading passed in (`now`). Durations are written out as numbers.
- Goroutines, channels, mutexes and the network are not modelled. The hub's loop handles one request at a time, which is what its single goroutine does. A client's close is immediate.
- The hub's closing of a connection's socket on unregister is not modelled. Neither are the origin validator, the read pump, or the write pump other than taking the next queued message.
- Decoding a WebSocket frame from JSON is left out. A frame arrives already decoded, or as `None` when it does not decode.
- WsHandlers.WSHandler.HandleUpdateConfig decodes the payload's `config` member directly. Go marshals the member and unmarshals it again, which sorts keys and collapses duplicates first. That round trip is not modelled.
- WsHandlers.WSHandler.HandleReveal passes the store's vote map and the current round id to the collecting loop. Go first fetches the round's vote records with `GetRoomVotes`, and `GetRoomVotes` states what that fetch returns.
- Validation of record fields by the database (required fields, maximum lengths) is left out, except for the two unique indexes. The page limits on record lookups are left out too.
- `UpdateParticipantConnection`, `GetParticipantBySession`, `GetRoomParticipants`, `GetParticipant`, `GetCurrentRoundRecord` and `UpdateRoomState` are plain store reads or single-field writes that the modelled operations do not depend on. They are not part of this model.
- The initial room state sent to a joining client (`sendInitialRoomStateToClient`) and the HTTP page handlers in internal/handlers/room.go are not part of this model, apart from the role choice (`RoleFor`), the statistics and the config fallback.
- The Unicode letter and digit classes are a parameter (`UnicodeClasses`).
- GoStrings.ToLower folds only the characters that lower-case to ASCII. Other non-ASCII letters keep their case, which matters only for the slug of a non-ASCII heading.
- ServerMetrics.Metrics: counters are unbounded integers, so int64 overflow is not modelled. `Snapshot`'s uptime and derived rates are left out.
- Tasks: the JSON encoding of the task list, the user record and the parsing of the id from the URL (`strconv.Atoi`) are left out.
- Tasks.DeleteTask states its result only for lists with unique ids, which is all that `createTask` produces. With duplicate ids the model follows Go's in-place shifting step by step but does not state the final contents.
- The corrected creator checks (`RoomManagers.RoomManager.IsRoomCreatorChecked`, `Acl.AclService.CreatorOrFlagChecked`) are stated and proved but not used by the permission service or the handler, which follow the code as written.
- Render: only `Dict` and the slug computation are modelled. Template rendering, Markdown conversion and HTML parsing are not part of this model.

## Findings

| source | as written | input that shows it | evidently intended | confidence | as-written member | corrected member |
|---|---|---|---|---|---|---|
| internal/services/room_manager.go:381-387 | `IsRoomCreator` compares the stored creator id with the caller's id. A room has no creator until somebody joins, and the stored id is then "". | A room that nobody has joined yet, and a WebSocket caller without a participant cookie, whose id is "". The creator check passes, so that caller may rename the room, change its config, and reveal, reset or start the next round whatever the room's flags say. | Only a real, recorded participant is the creator. An empty id is never the creator. | not executed | Acl.AclService.UnclaimedRoomAdmitsAnonymous | Acl.AclService.CreatorOrFlagChecked |
