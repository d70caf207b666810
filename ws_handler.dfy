/** The WebSocket message handler (internal/handlers/ws.go): which inbound
    messages are acted on, the checks each action makes against the store
    and the room's permissions, what it changes, and what it broadcasts to
    the room. Broadcasts are appended to `broadcasts`, the log of what the
    hub is asked to send. The clock reading `now` and the id the store would
    give a new record (`newId`) are parameters. */
module WsHandlers {
  import opened Results
  import opened RoomConfigs
  import opened Messages
  import opened WebSocketSecurity
  import opened Validators
  import opened Rounds
  import opened Participants
  import opened RoomManagers
  import opened Acl
  import opened VoteStats

  datatype VoteResult = VoteResult(participantId: string, participantName: string, value: string)

  /** Server-to-client messages the handler broadcasts. */
  datatype OutMessage =
    | RoomExpired
    | VoteCast(participantId: string)
    | VoteUpdated(participantId: string, participantName: string, value: string)
    | VotesRevealed(votes: seq<VoteResult>, total: int, valueBreakdown: map<string, int>)
    | RoomReset
    | RoundCompleted(newRoundNumber: int)
    | NameUpdated(participantId: string, name: string)
    | RoomNameUpdated(name: string)
    | ConfigUpdated(config: RoomConfig)

  datatype Broadcast = Broadcast(roomId: string, message: OutMessage)

  /** The message types `handleMessage` has a handler for. */
  const HandledTypes: set<string> :=
    {MsgTypeVote, MsgTypeReveal, MsgTypeReset, MsgTypeNextRound, MsgTypeUpdateName, MsgTypeUpdateRoomName, MsgTypeUpdateConfig}

  /** The messages that tell the room what somebody voted. */
  predicate CarriesVoteValue(m: OutMessage) {
    m.VoteUpdated? || m.VotesRevealed?
  }

  /** Why an action is not taken (the handler only logs it). */
  datatype Rejection =
    | NoParticipantId
    | BadPayload
    | RoomMissing
    | NoRoundState
    | VotesLocked
    | NotAcceptingVotes
    | UnknownParticipant
    | NotAVoter
    | NotPermitted
    | WrongState
    | NotCreator
    | BadName(reason: NameError)
    | BadConfig

  /** The message loop's filter: a frame that does not decode, has no type,
      has a type off the whitelist or a payload of the wrong shape is
      skipped. */
  function Admit(frame: Option<WSMessage>): (r: Option<WSMessage>)
    ensures r.Some? <==> frame.Some? && frame.value.msgType != "" && frame.value.msgType in ValidMessageTypes
                          && ValidateMessagePayload(frame.value.msgType, frame.value.payload).Pass?
    ensures r.Some? ==> r == frame && r.value.msgType != MsgTypeJoin
  {
    match frame
    case None => None
    case Some(msg) =>
      if msg.msgType == "" then None
      else if !IsValidMessageType(msg.msgType) then None
      else if ValidateMessagePayload(msg.msgType, msg.payload).Fail? then None
      else Some(msg)
  }

  /** The votes of round `roundId`, by record id, as their values. */
  function ValuesOfRound(votes: map<string, VoteRecord>, roundId: string): (values: map<string, string>)
    ensures values.Keys == VotesOfRound(votes, roundId)
    ensures forall k :: k in values ==> values[k] == votes[k].value
  {
    map k | k in votes && votes[k].roundId == roundId :: votes[k].value
  }

  /** The name shown for a voter at reveal: that of the room's participant
      with the id, or "" when the room has none. */
  function ParticipantName(participants: map<string, ParticipantRecord>, roomId: string, participantId: string): string {
    if participantId in participants && participants[participantId].roomId == roomId then participants[participantId].name else ""
  }

  /** The entry of the reveal's `votes` list for one vote. */
  function ResultOf(participants: map<string, ParticipantRecord>, roomId: string, vote: VoteRecord): VoteResult {
    VoteResult(vote.participantId, ParticipantName(participants, roomId, vote.participantId), vote.value)
  }

  /** `results` has one entry per vote of round `roundId`: `order` names
      each vote of the round exactly once, and entry `i` is the vote
      `order[i]` with its voter's name in the room. */
  ghost predicate ListedAs(order: seq<string>, results: seq<VoteResult>, votes: map<string, VoteRecord>, roundId: string,
                           participants: map<string, ParticipantRecord>, roomId: string) {
    |order| == |results|
    && (forall i, j :: 0 <= i < j < |order| ==> order[i] != order[j])
    && (forall k :: k in VotesOfRound(votes, roundId) ==> k in order)
    && forall i :: 0 <= i < |order| ==>
         order[i] in VotesOfRound(votes, roundId) && results[i] == ResultOf(participants, roomId, votes[order[i]])
  }

  /** `results` lists every vote of round `roundId` once, in some order. */
  ghost predicate ListsRound(results: seq<VoteResult>, votes: map<string, VoteRecord>, roundId: string,
                             participants: map<string, ParticipantRecord>, roomId: string) {
    exists order :: ListedAs(order, results, votes, roundId, participants, roomId)
  }

  /** Part way through the collecting loop: the votes of the round not
      `pending` are listed once each, in `order`, and counted. */
  ghost predicate Collecting(votes: map<string, VoteRecord>, roundId: string, participants: map<string, ParticipantRecord>, roomId: string,
                             pending: set<string>, seen: map<string, string>, order: seq<string>,
                             results: seq<VoteResult>, breakdown: map<string, int>) {
    var all := ValuesOfRound(votes, roundId);
    pending <= all.Keys && seen.Keys == all.Keys - pending
    && (forall k :: k in seen ==> seen[k] == all[k])
    && Tallies(seen, breakdown)
    && |order| == |results|
    && (forall i :: 0 <= i < |order| ==> order[i] in seen && results[i] == ResultOf(participants, roomId, votes[order[i]]))
    && (forall i, j :: 0 <= i < j < |order| ==> order[i] != order[j])
    && (forall k :: k in seen ==> k in order)
  }

  /** One iteration of the collecting loop keeps `Collecting`. */
  lemma {:induction false} CollectingStep(votes: map<string, VoteRecord>, roundId: string, participants: map<string, ParticipantRecord>, roomId: string,
                                          pending: set<string>, seen: map<string, string>, order: seq<string>,
                                          results: seq<VoteResult>, breakdown: map<string, int>, k: string)
    requires Collecting(votes, roundId, participants, roomId, pending, seen, order, results, breakdown) && k in pending
    ensures Collecting(votes, roundId, participants, roomId, pending - {k}, seen[k := votes[k].value], order + [k],
                       results + [ResultOf(participants, roomId, votes[k])],
                       breakdown[votes[k].value := CountOf(breakdown, votes[k].value) + 1])
  {
    TallyStep(seen, breakdown, k, votes[k].value);
  }

  /** The collecting loop of the reveal: one result per vote of the round,
      each vote once, in the store's (unspecified) order, and the count of
      each value. `order` names the vote behind each result. */
  method CollectVotes(votes: map<string, VoteRecord>, roundId: string, participants: map<string, ParticipantRecord>, roomId: string)
    returns (results: seq<VoteResult>, breakdown: map<string, int>, ghost order: seq<string>)
    ensures Tallies(ValuesOfRound(votes, roundId), breakdown)
    ensures ListedAs(order, results, votes, roundId, participants, roomId)
    ensures |results| == |VotesOfRound(votes, roundId)|
  {
    var all := ValuesOfRound(votes, roundId);
    results := [];
    breakdown := map[];
    order := [];
    var pending := all.Keys;
    ghost var seen: map<string, string> := map[];
    TallyEmpty();
    while pending != {}
      invariant Collecting(votes, roundId, participants, roomId, pending, seen, order, results, breakdown)
      decreases pending
    {
      var k :| k in pending;
      CollectingStep(votes, roundId, participants, roomId, pending, seen, order, results, breakdown, k);
      var vote := votes[k];
      seen := seen[k := vote.value];
      order := order + [k];
      results := results + [ResultOf(participants, roomId, vote)];
      breakdown := breakdown[vote.value := CountOf(breakdown, vote.value) + 1];
      pending := pending - {k};
    }
    CollectingDone(votes, roundId, participants, roomId, seen, order, results, breakdown);
  }

  /** With nothing pending, every vote of the round is listed and counted. */
  lemma CollectingDone(votes: map<string, VoteRecord>, roundId: string, participants: map<string, ParticipantRecord>, roomId: string,
                       seen: map<string, string>, order: seq<string>, results: seq<VoteResult>, breakdown: map<string, int>)
    requires Collecting(votes, roundId, participants, roomId, {}, seen, order, results, breakdown)
    ensures Tallies(ValuesOfRound(votes, roundId), breakdown)
    ensures ListedAs(order, results, votes, roundId, participants, roomId)
    ensures |order| == |VotesOfRound(votes, roundId)|
  {
    assert seen == ValuesOfRound(votes, roundId);
    DistinctLength(order, seen.Keys);
  }

  /** A list of distinct elements covering a set is as long as the set. */
  lemma {:induction false} DistinctLength(order: seq<string>, s: set<string>)
    requires forall i, j :: 0 <= i < j < |order| ==> order[i] != order[j]
    requires forall i :: 0 <= i < |order| ==> order[i] in s
    requires forall k :: k in s ==> k in order
    ensures |order| == |s|
    decreases |order|
  {
    if order != [] {
      var last := order[|order| - 1];
      var rest := order[..|order| - 1];
      forall k | k in s - {last}
        ensures k in rest
      {
        var i :| 0 <= i < |order| && order[i] == k;
      }
      DistinctLength(rest, s - {last});
    } else {
      assert s == {};
    }
  }

  class WSHandler {
    const roomManager: RoomManager
    const aclService: AclService
    /** The letter and number classes the name patterns use. */
    const u: UnicodeClasses
    var broadcasts: seq<Broadcast>

    ghost predicate Valid()
      reads roomManager
    {
      aclService.roomManager == roomManager && roomManager.Valid()
    }

    /** Some broadcast from position `from` on carries vote values. */
    ghost predicate Discloses(from: nat)
      reads this
    {
      exists i :: from <= i < |broadcasts| && CarriesVoteValue(broadcasts[i].message)
    }

    /** What every message does to the broadcasts: at most one is appended,
        addressed to the message's room, and when it carries vote values the
        room's round is revealed. */
    ghost predicate AppendsOne(before: seq<Broadcast>, roomId: string)
      reads this, roomManager
    {
      |before| <= |broadcasts| <= |before| + 1 && broadcasts[..|before|] == before
      && (forall i :: |before| <= i < |broadcasts| ==> broadcasts[i].roomId == roomId)
      && (Discloses(|before|) ==> roomManager.GetRoomState(roomId) == (StateRevealed, None))
    }

    /** `NewWSHandler`. */
    constructor (rm: RoomManager, acl: AclService, u: UnicodeClasses)
      requires acl.roomManager == rm && rm.Valid()
      ensures Valid() && roomManager == rm && aclService == acl && this.u == u && broadcasts == []
    {
      roomManager := rm;
      aclService := acl;
      this.u := u;
      broadcasts := [];
    }

    /** `isRoomExpired`: a room that cannot be found counts as expired. */
    function IsRoomExpired(roomId: string, now: int): (b: bool)
      reads roomManager
      ensures b <==> roomId !in roomManager.rooms || now > roomManager.rooms[roomId].expiresAt
    {
      match roomManager.GetRoom(roomId)
      case None => true
      case Some(room) => now > room.expiresAt
    }

    /** The checks of `handleVote`, in order: a participant id, a string
        value, the room, its round state; voting is open, or the round is
        revealed and the room lets votes change after reveal; the
        participant exists and is a voter. */
    function VoteCheck(roomId: string, payload: Json, participantId: string): (r: Outcome<Rejection>)
      requires aclService.roomManager == roomManager
      reads roomManager
      ensures r.Pass? <==>
        participantId != "" && StringField(payload, "value").Some?
        && CurrentRoundOf(roomManager.rooms, roomManager.rounds, roomId).Ok?
        && (roomManager.GetRoomState(roomId).0 == StateVoting
            || (roomManager.GetRoomState(roomId).0 == StateRevealed
                && EffectiveConfig(roomManager.rooms[roomId].config).permissions.allowChangeVoteAfterReveal))
        && participantId in roomManager.participants && roomManager.participants[participantId].role == RoleVoter
    {
      if participantId == "" then Fail(NoParticipantId)
      else if StringField(payload, "value").None? then Fail(BadPayload)
      else if roomManager.GetRoom(roomId).None? then Fail(RoomMissing)
      else
        var (state, err) := roomManager.GetRoomState(roomId);
        if err.Some? then Fail(NoRoundState)
        else if state != StateVoting && state != StateRevealed then Fail(NotAcceptingVotes)
        else if state == StateRevealed && !aclService.CanChangeVoteAfterReveal(roomId).value then Fail(VotesLocked)
        else if participantId !in roomManager.participants then Fail(UnknownParticipant)
        else if roomManager.participants[participantId].role != RoleVoter then Fail(NotAVoter)
        else Pass
    }

    /** What `handleVote` does: when the checks fail nothing; otherwise the
        participant's one vote in the current round holds the value, and
        the room is told that the participant voted, with the value only
        when the round is already revealed. */
    twostate predicate VoteEffect(roomId: string, payload: Json, participantId: string)
      requires aclService.roomManager == roomManager
      reads this, roomManager
    {
      (old(VoteCheck(roomId, payload, participantId)).Fail? ==> unchanged(roomManager) && broadcasts == old(broadcasts))
      && (old(VoteCheck(roomId, payload, participantId)).Pass? ==> (
        var cur := old(roomManager.rooms[roomId].currentRoundId);
        var value := StringField(payload, "value").value;
        (exists k :: VotesOf(roomManager.votes, participantId, cur) == {k} && roomManager.votes[k].value == value)
        && roomManager.rounds == old(roomManager.rounds) && roomManager.participants == old(roomManager.participants)
        && broadcasts == old(broadcasts) + [Broadcast(roomId,
             if old(roomManager.GetRoomState(roomId)).0 == StateRevealed
             then VoteUpdated(participantId, old(roomManager.participants[participantId].name), value)
             else VoteCast(participantId))]))
    }

    /** `handleVote`. */
    method HandleVote(roomId: string, payload: Json, participantId: string, newId: string, now: int)
      requires Valid() && newId !in roomManager.votes
      modifies this, roomManager
      ensures Valid()
      ensures AppendsOne(old(broadcasts), roomId)
      ensures VoteEffect(roomId, payload, participantId)
      ensures old(Sequenced(roomManager.rooms, roomManager.rounds)) ==> Sequenced(roomManager.rooms, roomManager.rounds)
      ensures old(roomManager.GetRoomState(roomId)).0 != StateRevealed ==>
        forall i :: |old(broadcasts)| <= i < |broadcasts| ==> !CarriesVoteValue(broadcasts[i].message)
    {
      if VoteCheck(roomId, payload, participantId).Fail? {
        return;
      }
      RecordVote(roomId, StringField(payload, "value").value, participantId, newId, now);
    }

    /** The part of `handleVote` after its checks: the vote is saved and one
        message goes to the room, with the value only when the round is
        revealed. */
    method RecordVote(roomId: string, value: string, participantId: string, newId: string, now: int)
      requires Valid() && newId !in roomManager.votes
      requires CurrentRoundOf(roomManager.rooms, roomManager.rounds, roomId).Ok? && participantId in roomManager.participants
      modifies this, roomManager
      ensures Valid()
      ensures AppendsOne(old(broadcasts), roomId)
      ensures var cur := old(roomManager.rooms[roomId].currentRoundId);
        (exists k :: VotesOf(roomManager.votes, participantId, cur) == {k} && roomManager.votes[k].value == value)
        && roomManager.rounds == old(roomManager.rounds) && roomManager.participants == old(roomManager.participants)
        && broadcasts == old(broadcasts) + [Broadcast(roomId,
             if old(roomManager.GetRoomState(roomId)).0 == StateRevealed
             then VoteUpdated(participantId, old(roomManager.participants[participantId].name), value)
             else VoteCast(participantId))]
      ensures old(Sequenced(roomManager.rooms, roomManager.rounds)) ==> Sequenced(roomManager.rooms, roomManager.rounds)
    {
      var state := roomManager.GetRoomState(roomId).0;
      var name := roomManager.participants[participantId].name;
      ghost var voteId;
      var saved;
      saved, voteId := roomManager.CastVote(roomId, participantId, value, newId, now);
      var message := if state == StateRevealed then VoteUpdated(participantId, name, value) else VoteCast(participantId);
      broadcasts := broadcasts + [Broadcast(roomId, message)];
    }

    /** The checks of `handleReveal`: the participant may reveal (the room
        creator, or anybody when the room allows it) and the round is in
        voting. */
    function RevealCheck(roomId: string, participantId: string): (r: Outcome<Rejection>)
      requires aclService.roomManager == roomManager
      reads roomManager
      ensures r.Pass? <==>
        (roomManager.IsRoomCreator(roomId, participantId)
         || (roomId in roomManager.rooms && EffectiveConfig(roomManager.rooms[roomId].config).permissions.allowAllReveal))
        && roomManager.GetRoomState(roomId) == (StateVoting, None)
    {
      var allowed := aclService.CanReveal(roomId, participantId);
      if allowed.Err? then Fail(RoomMissing)
      else if !allowed.value then Fail(NotPermitted)
      else
        // The room lookup that follows cannot fail: the permission check
        // has already found the room.
        var (state, err) := roomManager.GetRoomState(roomId);
        if err.Some? then Fail(NoRoundState)
        else if state != StateVoting then Fail(WrongState)
        else Pass
    }

    /** What `handleReveal` does: when the checks fail nothing; otherwise
        the round becomes revealed and one message goes to the room with
        every vote of the round, each once, with its voter's name and value,
        the number of votes and the count of each value. */
    twostate predicate RevealEffect(roomId: string, participantId: string, now: int)
      requires aclService.roomManager == roomManager
      reads this, roomManager
    {
      (old(RevealCheck(roomId, participantId)).Fail? ==> unchanged(roomManager) && broadcasts == old(broadcasts))
      && (old(RevealCheck(roomId, participantId)).Pass? ==> (
        var cur := old(roomManager.rooms[roomId].currentRoundId);
        roomManager.rounds == old(roomManager.rounds)[cur := old(roomManager.rounds[cur]).(state := StateRevealed)]
        && roomManager.rooms == Touch(old(roomManager.rooms), roomId, now)
        && roomManager.votes == old(roomManager.votes) && roomManager.participants == old(roomManager.participants)
        && |broadcasts| == |old(broadcasts)| + 1 && broadcasts[..|old(broadcasts)|] == old(broadcasts)
        && broadcasts[|old(broadcasts)|].roomId == roomId
        && broadcasts[|old(broadcasts)|].message.VotesRevealed?
        && ListsRound(broadcasts[|old(broadcasts)|].message.votes, roomManager.votes, cur, roomManager.participants, roomId)
        && broadcasts[|old(broadcasts)|].message.total == |VotesOfRound(roomManager.votes, cur)|
        && |broadcasts[|old(broadcasts)|].message.votes| == |VotesOfRound(roomManager.votes, cur)|
        && Tallies(ValuesOfRound(roomManager.votes, cur), broadcasts[|old(broadcasts)|].message.valueBreakdown)))
    }

    /** `handleReveal`. */
    method HandleReveal(roomId: string, participantId: string, now: int)
      requires Valid()
      modifies this, roomManager
      ensures Valid()
      ensures AppendsOne(old(broadcasts), roomId)
      ensures RevealEffect(roomId, participantId, now)
      ensures old(Sequenced(roomManager.rooms, roomManager.rounds)) ==> Sequenced(roomManager.rooms, roomManager.rounds)
    {
      if RevealCheck(roomId, participantId).Fail? {
        return;
      }
      var roundId := roomManager.rooms[roomId].currentRoundId;
      var revealed := roomManager.RevealVotes(roomId, now);
      // The votes `GetRoomVotes` returns are those of `roundId`.
      var results, breakdown, order := CollectVotes(roomManager.votes, roundId, roomManager.participants, roomId);
      assert ListedAs(order, results, roomManager.votes, roundId, roomManager.participants, roomId);
      var total := SumCounts(ValuesOfRound(roomManager.votes, roundId), breakdown);
      broadcasts := broadcasts + [Broadcast(roomId, VotesRevealed(results, total, breakdown))];
    }

    /** The check of `handleReset`: the room creator, or anybody when the
        room allows it. */
    function ResetCheck(roomId: string, participantId: string): (r: Outcome<Rejection>)
      requires aclService.roomManager == roomManager
      reads roomManager
      ensures r.Pass? <==>
        roomManager.IsRoomCreator(roomId, participantId)
        || (roomId in roomManager.rooms && EffectiveConfig(roomManager.rooms[roomId].config).permissions.allowAllReset)
    {
      var allowed := aclService.CanReset(roomId, participantId);
      if allowed.Err? then Fail(RoomMissing)
      else if !allowed.value then Fail(NotPermitted)
      // The room lookup that follows cannot fail: the permission check has
      // already found the room.
      else Pass
    }

    /** What `handleReset` does: when the check fails or the room has no
        current round nothing; otherwise, in whatever state the round is,
        its votes are deleted, it goes back to voting, and the room is
        told. */
    twostate predicate ResetEffect(roomId: string, participantId: string, now: int)
      requires aclService.roomManager == roomManager
      reads this, roomManager
    {
      (old(ResetCheck(roomId, participantId)).Fail? || old(CurrentRoundOf(roomManager.rooms, roomManager.rounds, roomId)).Err? ==>
        roomManager.rooms == old(roomManager.rooms) && roomManager.rounds == old(roomManager.rounds)
        && roomManager.votes == old(roomManager.votes) && broadcasts == old(broadcasts))
      && (old(ResetCheck(roomId, participantId)).Pass? && old(CurrentRoundOf(roomManager.rooms, roomManager.rounds, roomId)).Ok? ==> (
        var cur := old(roomManager.rooms[roomId].currentRoundId);
        roomManager.votes == old(roomManager.votes) - VotesOfRound(old(roomManager.votes), cur)
        && roomManager.rounds == old(roomManager.rounds)[cur := old(roomManager.rounds[cur]).(state := StateVoting)]
        && roomManager.rooms == Touch(old(roomManager.rooms), roomId, now)
        && broadcasts == old(broadcasts) + [Broadcast(roomId, RoomReset)]))
      && roomManager.participants == old(roomManager.participants)
    }

    /** `handleReset`. */
    method HandleReset(roomId: string, participantId: string, now: int)
      requires Valid()
      modifies this, roomManager
      ensures Valid()
      ensures AppendsOne(old(broadcasts), roomId)
      ensures ResetEffect(roomId, participantId, now)
      ensures old(Sequenced(roomManager.rooms, roomManager.rounds)) ==> Sequenced(roomManager.rooms, roomManager.rounds)
    {
      if ResetCheck(roomId, participantId).Fail? {
        return;
      }
      var reset := roomManager.ResetRound(roomId, now);
      if reset.Fail? {
        return;
      }
      broadcasts := broadcasts + [Broadcast(roomId, RoomReset)];
    }

    /** The checks of `handleNextRound`: the participant may start a round
        (the room creator, or anybody when the room allows it) and the
        current round is revealed. */
    function NextRoundCheck(roomId: string, participantId: string): (r: Outcome<Rejection>)
      requires aclService.roomManager == roomManager
      reads roomManager
      ensures r.Pass? <==>
        (roomManager.IsRoomCreator(roomId, participantId)
         || (roomId in roomManager.rooms && EffectiveConfig(roomManager.rooms[roomId].config).permissions.allowAllNewRound))
        && roomManager.GetRoomState(roomId) == (StateRevealed, None)
    {
      var allowed := aclService.CanTriggerNewRound(roomId, participantId);
      if allowed.Err? then Fail(RoomMissing)
      else if !allowed.value then Fail(NotPermitted)
      else
        // The room lookup that follows cannot fail: the permission check
        // has already found the room.
        var (state, err) := roomManager.GetRoomState(roomId);
        if err.Some? then Fail(NoRoundState)
        else if state != StateRevealed then Fail(WrongState)
        else Pass
    }

    /** What `handleNextRound` does: when the checks fail nothing; otherwise
        the revealed round is completed and the next one, numbered one
        higher, becomes current in voting, and the room is told the new
        number. In a sequenced store that number is always free. */
    twostate predicate NextRoundEffect(roomId: string, participantId: string, newId: string)
      requires aclService.roomManager == roomManager
      reads this, roomManager
    {
      (old(NextRoundCheck(roomId, participantId)).Fail? ==> unchanged(roomManager) && broadcasts == old(broadcasts))
      && (old(NextRoundCheck(roomId, participantId)).Pass? ==> (
        var cur := old(roomManager.rooms[roomId].currentRoundId);
        var next := old(roomManager.rounds[cur]).roundNumber + 1;
        cur in roomManager.rounds
        && roomManager.rounds[cur] == old(roomManager.rounds[cur]).(state := StateCompleted, totalVotes := |VotesOfRound(old(roomManager.votes), cur)|)
        && (NumberFree(old(roomManager.rounds), roomId, next) ==>
              roomManager.rooms == old(roomManager.rooms)[roomId := old(roomManager.rooms[roomId]).(currentRoundId := newId)]
              && newId in roomManager.rounds
              && roomManager.rounds[newId] == RoundRecord(roomId, next, StateVoting, 0)
              && broadcasts == old(broadcasts) + [Broadcast(roomId, RoundCompleted(next))])
        && (!NumberFree(old(roomManager.rounds), roomId, next) ==> broadcasts == old(broadcasts))
        && (old(Sequenced(roomManager.rooms, roomManager.rounds)) ==> NumberFree(old(roomManager.rounds), roomId, next))))
      && roomManager.votes == old(roomManager.votes) && roomManager.participants == old(roomManager.participants)
    }

    /** `handleNextRound`. */
    method HandleNextRound(roomId: string, participantId: string, newId: string)
      requires Valid() && newId != "" && newId !in roomManager.rounds
      modifies this, roomManager
      ensures Valid()
      ensures AppendsOne(old(broadcasts), roomId)
      ensures NextRoundEffect(roomId, participantId, newId)
      ensures old(Sequenced(roomManager.rooms, roomManager.rounds)) ==> Sequenced(roomManager.rooms, roomManager.rounds)
    {
      if NextRoundCheck(roomId, participantId).Fail? {
        return;
      }
      if Sequenced(roomManager.rooms, roomManager.rounds) {
        NextNumberFree(roomManager.rooms, roomManager.rounds, roomId);
      }
      var created := roomManager.CreateNextRound(roomId, newId);
      if created.Err? {
        return;
      }
      broadcasts := broadcasts + [Broadcast(roomId, RoundCompleted(roomManager.rounds[created.value].roundNumber))];
    }

    /** What `handleUpdateName` does: a participant renames themself; the
        validated, trimmed name is stored and broadcast, and nothing else
        changes. */
    twostate predicate UpdateNameEffect(roomId: string, payload: Json, participantId: string)
      reads this, roomManager
    {
      (var name := StringField(payload, "name");
        if participantId != "" && name.Some? && ValidateParticipantName(u, name.value).Ok? && participantId in old(roomManager.participants)
        then var sanitized := ValidateParticipantName(u, name.value).value;
          roomManager.participants == old(roomManager.participants)[participantId := old(roomManager.participants[participantId]).(name := sanitized)]
          && broadcasts == old(broadcasts) + [Broadcast(roomId, NameUpdated(participantId, sanitized))]
        else roomManager.participants == old(roomManager.participants) && broadcasts == old(broadcasts))
      && roomManager.rooms == old(roomManager.rooms) && roomManager.rounds == old(roomManager.rounds)
      && roomManager.votes == old(roomManager.votes)
    }

    /** `handleUpdateName`. */
    method HandleUpdateName(roomId: string, payload: Json, participantId: string)
      requires Valid()
      modifies this, roomManager
      ensures Valid()
      ensures AppendsOne(old(broadcasts), roomId)
      ensures UpdateNameEffect(roomId, payload, participantId)
      ensures old(Sequenced(roomManager.rooms, roomManager.rounds)) ==> Sequenced(roomManager.rooms, roomManager.rounds)
    {
      if participantId == "" {
        return;
      }
      var name := StringField(payload, "name");
      if name.None? {
        return;
      }
      var validated := ValidateParticipantName(u, name.value);
      if validated.Err? {
        return;
      }
      ValidateNameIdempotent(u, name.value, MaxParticipantNameLength);
      var updated := roomManager.UpdateParticipantName(u, participantId, validated.value);
      if updated.Fail? {
        return;
      }
      broadcasts := broadcasts + [Broadcast(roomId, NameUpdated(participantId, validated.value))];
    }

    /** What `handleUpdateRoomName` does: only a participant that passes
        `IsRoomCreator` (as written, so also the empty id in a room nobody
        has joined) may rename the room; the validated, trimmed name is
        stored and broadcast. */
    twostate predicate RoomNameEffect(roomId: string, payload: Json, participantId: string, now: int)
      reads this, roomManager
    {
      (!old(roomManager.IsRoomCreator(roomId, participantId)) ==> unchanged(roomManager) && broadcasts == old(broadcasts))
      && (var name := StringField(payload, "name");
        if old(roomManager.IsRoomCreator(roomId, participantId)) && name.Some? && ValidateRoomName(u, name.value).Ok?
        then var sanitized := ValidateRoomName(u, name.value).value;
          roomManager.rooms == old(roomManager.rooms)[roomId := old(roomManager.rooms[roomId]).(name := sanitized, lastActivity := now)]
          && broadcasts == old(broadcasts) + [Broadcast(roomId, RoomNameUpdated(sanitized))]
        else roomManager.rooms == old(roomManager.rooms) && broadcasts == old(broadcasts))
      && roomManager.rounds == old(roomManager.rounds) && roomManager.votes == old(roomManager.votes)
      && roomManager.participants == old(roomManager.participants)
    }

    /** `handleUpdateRoomName`. */
    method HandleUpdateRoomName(roomId: string, payload: Json, participantId: string, now: int)
      requires Valid()
      modifies this, roomManager
      ensures Valid()
      ensures AppendsOne(old(broadcasts), roomId)
      ensures RoomNameEffect(roomId, payload, participantId, now)
      ensures old(Sequenced(roomManager.rooms, roomManager.rounds)) ==> Sequenced(roomManager.rooms, roomManager.rounds)
    {
      if !roomManager.IsRoomCreator(roomId, participantId) {
        return;
      }
      var name := StringField(payload, "name");
      if name.None? {
        return;
      }
      var validated := ValidateRoomName(u, name.value);
      if validated.Err? {
        return;
      }
      ValidateNameIdempotent(u, name.value, MaxRoomNameLength);
      var updated := roomManager.UpdateRoomName(u, roomId, validated.value, now);
      broadcasts := broadcasts + [Broadcast(roomId, RoomNameUpdated(validated.value))];
    }

    /** What `handleUpdateConfig` does: only a participant that passes
        `IsRoomCreator` (as written) may change the configuration; a
        `config` member that decodes as a configuration is stored, reads
        back as sent, and is broadcast. */
    twostate predicate ConfigEffect(roomId: string, payload: Json, participantId: string)
      requires aclService.roomManager == roomManager
      reads this, roomManager
    {
      (!old(roomManager.IsRoomCreator(roomId, participantId)) ==> unchanged(roomManager) && broadcasts == old(broadcasts))
      && (var config := if payload.JObject? && Member(payload.members, "config").Some? then Decode(Member(payload.members, "config").value) else None;
        if old(roomManager.IsRoomCreator(roomId, participantId)) && config.Some?
        then aclService.GetRoomConfig(roomId) == Ok(config.value)
          && broadcasts == old(broadcasts) + [Broadcast(roomId, ConfigUpdated(config.value))]
        else roomManager.rooms == old(roomManager.rooms) && broadcasts == old(broadcasts))
      && roomManager.rounds == old(roomManager.rounds) && roomManager.votes == old(roomManager.votes)
      && roomManager.participants == old(roomManager.participants)
    }

    /** `handleUpdateConfig`. */
    method HandleUpdateConfig(roomId: string, payload: Json, participantId: string)
      requires Valid()
      modifies this, roomManager
      ensures Valid()
      ensures AppendsOne(old(broadcasts), roomId)
      ensures ConfigEffect(roomId, payload, participantId)
      ensures old(Sequenced(roomManager.rooms, roomManager.rounds)) ==> Sequenced(roomManager.rooms, roomManager.rounds)
    {
      if !roomManager.IsRoomCreator(roomId, participantId) {
        return;
      }
      if !payload.JObject? {
        return;
      }
      var configData := Member(payload.members, "config");
      if configData.None? {
        return;
      }
      var config := Decode(configData.value);
      if config.None? {
        return;
      }
      var updated := aclService.UpdateRoomConfig(roomId, participantId, config.value);
      broadcasts := broadcasts + [Broadcast(roomId, ConfigUpdated(config.value))];
    }

    /** What `handleMessage` does: renames have their effect whatever the
        room's expiry; any other message to an expired or missing room only
        tells the room it has expired; the rest has the effect `Dispatch`
        gives its type. */
    twostate predicate MessageEffect(roomId: string, msg: WSMessage, participantId: string, now: int, newId: string)
      requires aclService.roomManager == roomManager
      reads this, roomManager
    {
      if msg.msgType == MsgTypeUpdateName then UpdateNameEffect(roomId, msg.payload, participantId)
      else if msg.msgType == MsgTypeUpdateRoomName then RoomNameEffect(roomId, msg.payload, participantId, now)
      else if old(IsRoomExpired(roomId, now)) then
        unchanged(roomManager) && broadcasts == old(broadcasts) + [Broadcast(roomId, RoomExpired)]
      else DispatchEffect(roomId, msg, participantId, now, newId)
    }

    /** `handleMessage`. */
    method HandleMessage(roomId: string, msg: WSMessage, participantId: string, now: int, newId: string)
      requires Valid() && newId != "" && newId !in roomManager.votes && newId !in roomManager.rounds
      modifies this, roomManager
      ensures Valid()
      ensures AppendsOne(old(broadcasts), roomId)
      ensures MessageEffect(roomId, msg, participantId, now, newId)
      ensures old(Sequenced(roomManager.rooms, roomManager.rounds)) ==> Sequenced(roomManager.rooms, roomManager.rounds)
    {
      if msg.msgType == MsgTypeUpdateName {
        HandleUpdateName(roomId, msg.payload, participantId);
      } else if msg.msgType == MsgTypeUpdateRoomName {
        HandleUpdateRoomName(roomId, msg.payload, participantId, now);
      } else if IsRoomExpired(roomId, now) {
        broadcasts := broadcasts + [Broadcast(roomId, RoomExpired)];
        assert !Discloses(|old(broadcasts)|);
      } else {
        Dispatch(roomId, msg, participantId, now, newId);
      }
    }

    /** The effect of the type switch of `handleMessage`: each type the
        room's expiry stops has its handler's effect; any other type changes
        nothing. */
    twostate predicate DispatchEffect(roomId: string, msg: WSMessage, participantId: string, now: int, newId: string)
      requires aclService.roomManager == roomManager
      reads this, roomManager
    {
      if msg.msgType == MsgTypeVote then VoteEffect(roomId, msg.payload, participantId)
      else if msg.msgType == MsgTypeReveal then RevealEffect(roomId, participantId, now)
      else if msg.msgType == MsgTypeReset then ResetEffect(roomId, participantId, now)
      else if msg.msgType == MsgTypeNextRound then NextRoundEffect(roomId, participantId, newId)
      else if msg.msgType == MsgTypeUpdateConfig then ConfigEffect(roomId, msg.payload, participantId)
      else unchanged(roomManager) && broadcasts == old(broadcasts)
    }

    /** The type switch of `handleMessage` for the message types that the
        room's expiry stops. */
    method Dispatch(roomId: string, msg: WSMessage, participantId: string, now: int, newId: string)
      requires Valid() && newId != "" && newId !in roomManager.votes && newId !in roomManager.rounds
      modifies this, roomManager
      ensures Valid()
      ensures AppendsOne(old(broadcasts), roomId)
      ensures DispatchEffect(roomId, msg, participantId, now, newId)
      ensures old(Sequenced(roomManager.rooms, roomManager.rounds)) ==> Sequenced(roomManager.rooms, roomManager.rounds)
    {
      if msg.msgType == MsgTypeVote {
        HandleVote(roomId, msg.payload, participantId, newId, now);
      } else if msg.msgType == MsgTypeReveal {
        HandleReveal(roomId, participantId, now);
      } else if msg.msgType == MsgTypeReset {
        HandleReset(roomId, participantId, now);
      } else if msg.msgType == MsgTypeNextRound {
        HandleNextRound(roomId, participantId, newId);
      } else if msg.msgType == MsgTypeUpdateConfig {
        HandleUpdateConfig(roomId, msg.payload, participantId);
      } else {
        assert !Discloses(|old(broadcasts)|);
      }
    }

    /** One turn of the connection's read loop: a frame that did not decode
        (`None`), has no type, an unknown type or a malformed payload is
        skipped; any other goes to `HandleMessage`. */
    method HandleFrame(roomId: string, frame: Option<WSMessage>, participantId: string, now: int, newId: string)
      requires Valid() && newId != "" && newId !in roomManager.votes && newId !in roomManager.rounds
      modifies this, roomManager
      ensures Valid()
      ensures Admit(frame).None? ==> unchanged(roomManager) && broadcasts == old(broadcasts)
      ensures Admit(frame).Some? ==> MessageEffect(roomId, Admit(frame).value, participantId, now, newId)
      ensures AppendsOne(old(broadcasts), roomId)
      ensures old(Sequenced(roomManager.rooms, roomManager.rounds)) ==> Sequenced(roomManager.rooms, roomManager.rounds)
    {
      var msg := Admit(frame);
      if msg.None? {
        return;
      }
      HandleMessage(roomId, msg.value, participantId, now, newId);
    }
  }
}
