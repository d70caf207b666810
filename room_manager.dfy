/** The persistent side of a room (internal/services/room_manager.go): the
    rooms, rounds, votes and participants collections of the store, each a
    map from record id to record, and the operations that create and update
    them. The store's unique indexes and relation fields are the invariant
    `Valid`; record ids the store generates are parameters that are not yet
    in use. */
module RoomManagers {
  import opened Results
  import opened Rounds
  import opened Participants
  import opened RoomConfigs
  import opened Validators

  /** A room record. `currentRoundId` and `creatorParticipantId` are "" until
      set; the room's voting state lives in its current round. */
  datatype RoomRecord = RoomRecord(
    name: string,
    pointingMethod: string,
    customValues: seq<string>,
    config: StoredConfig,
    creatorParticipantId: string,
    currentRoundId: string,
    expiresAt: int,
    lastActivity: int)

  datatype RoundRecord = RoundRecord(roomId: string, roundNumber: int, state: string, totalVotes: int)

  datatype VoteRecord = VoteRecord(participantId: string, roomId: string, roundId: string, roundNumber: int, value: string, votedAt: int)

  datatype ParticipantRecord = ParticipantRecord(
    roomId: string,
    name: string,
    role: string,
    connected: bool,
    sessionCookie: string,
    joinedAt: int,
    lastSeen: int)

  datatype StoreError =
    | RoomNotFound
    | NoCurrentRound
    | CurrentRoundNotFound
    | RoundNotFound
    | ParticipantNotFound
    | MissingRelation
    | DuplicateRound
    | DuplicateParticipant
    | InvalidName(reason: NameError)

  /** A room lives for a day from its creation (seconds). */
  const RoomLifetime: int := 24 * 60 * 60


  // ----- the store's invariants -----

  /** Unique index `rounds(room_id, round_number)`. */
  ghost predicate RoundsUnique(rounds: map<string, RoundRecord>) {
    forall a, b :: (a in rounds && b in rounds && rounds[a].roomId == rounds[b].roomId
      && rounds[a].roundNumber == rounds[b].roundNumber) ==> a == b
  }

  /** Unique index `votes(participant_id, room_id, round_number)`. */
  ghost predicate VotesUnique(votes: map<string, VoteRecord>) {
    forall a, b :: (a in votes && b in votes && votes[a].participantId == votes[b].participantId
      && votes[a].roomId == votes[b].roomId && votes[a].roundNumber == votes[b].roundNumber) ==> a == b
  }

  /** Every vote names an existing round of its own room and carries that
      round's number. */
  ghost predicate VotesReferToRounds(votes: map<string, VoteRecord>, rounds: map<string, RoundRecord>) {
    forall v :: v in votes ==>
      votes[v].roundId in rounds
      && rounds[votes[v].roundId].roomId == votes[v].roomId
      && rounds[votes[v].roundId].roundNumber == votes[v].roundNumber
  }

  /** Every round belongs to an existing room. */
  ghost predicate RoundsReferToRooms(rounds: map<string, RoundRecord>, rooms: map<string, RoomRecord>) {
    forall k {:trigger rounds[k]} :: k in rounds ==> rounds[k].roomId in rooms
  }

  /** A room's current round, once set, exists and belongs to the room. */
  ghost predicate CurrentRoundsOwned(rooms: map<string, RoomRecord>, rounds: map<string, RoundRecord>) {
    forall r {:trigger rooms[r]} :: r in rooms && rooms[r].currentRoundId != "" ==>
      rooms[r].currentRoundId in rounds && rounds[rooms[r].currentRoundId].roomId == r
  }

  /** What the store's unique indexes and relation fields guarantee, and
      that "" is never a round id, so an empty reference means "not set". */
  ghost predicate Consistent(rooms: map<string, RoomRecord>, rounds: map<string, RoundRecord>, votes: map<string, VoteRecord>) {
    "" !in rounds && RoundsUnique(rounds) && VotesUnique(votes)
    && VotesReferToRounds(votes, rounds) && RoundsReferToRooms(rounds, rooms) && CurrentRoundsOwned(rooms, rounds)
  }

  /** Room `r` has a current round of its own, and no round of the room
      has a higher number. */
  ghost predicate SequencedAt(rooms: map<string, RoomRecord>, rounds: map<string, RoundRecord>, r: string) {
    r in rooms && rooms[r].currentRoundId in rounds && rounds[rooms[r].currentRoundId].roomId == r
    && forall k :: k in rounds && rounds[k].roomId == r ==> rounds[k].roundNumber <= rounds[rooms[r].currentRoundId].roundNumber
  }

  /** Every room has a current round of its own, and no round of the room
      has a higher number: rounds are only ever added after the current one. */
  ghost predicate Sequenced(rooms: map<string, RoomRecord>, rounds: map<string, RoundRecord>) {
    forall r {:trigger SequencedAt(rooms, rounds, r)} :: r in rooms ==> SequencedAt(rooms, rounds, r)
  }

  /** The ids of the votes cast in round `roundId`. */
  function VotesOfRound(votes: map<string, VoteRecord>, roundId: string): set<string> {
    set v | v in votes && votes[v].roundId == roundId
  }

  /** The ids of the votes of one participant in round `roundId`. */
  function VotesOf(votes: map<string, VoteRecord>, participantId: string, roundId: string): set<string> {
    set v | v in votes && votes[v].participantId == participantId && votes[v].roundId == roundId
  }

  /** The unique indexes leave at most one vote per participant per round. */
  lemma OneVotePerParticipant(votes: map<string, VoteRecord>, rounds: map<string, RoundRecord>, participantId: string, roundId: string)
    requires RoundsUnique(rounds) && VotesUnique(votes) && VotesReferToRounds(votes, rounds)
    ensures forall a, b :: a in VotesOf(votes, participantId, roundId) && b in VotesOf(votes, participantId, roundId) ==> a == b
  {
    forall a, b | a in VotesOf(votes, participantId, roundId) && b in VotesOf(votes, participantId, roundId)
      ensures a == b
    {
      assert votes[a].roomId == rounds[roundId].roomId == votes[b].roomId;
      assert votes[a].roundNumber == rounds[roundId].roundNumber == votes[b].roundNumber;
    }
  }

  /** A vote with the same participant, room and round number as one in
      round `roundId` is in that round. */
  lemma SameKeySameRound(votes: map<string, VoteRecord>, rounds: map<string, RoundRecord>, k: string, roundId: string,
                         participantId: string, roomId: string, roundNumber: int)
    requires RoundsUnique(rounds) && VotesReferToRounds(votes, rounds)
    requires roundId in rounds && rounds[roundId].roomId == roomId && rounds[roundId].roundNumber == roundNumber
    requires k in votes && votes[k].participantId == participantId && votes[k].roomId == roomId && votes[k].roundNumber == roundNumber
    ensures k in VotesOf(votes, participantId, roundId)
  {
    assert rounds[votes[k].roundId].roomId == roomId && rounds[votes[k].roundId].roundNumber == roundNumber;
  }

  // ----- how single-record updates keep each invariant -----

  lemma RoundsUniquePut(rounds: map<string, RoundRecord>, roundId: string, round: RoundRecord)
    requires RoundsUnique(rounds)
    requires roundId in rounds ==> round.roomId == rounds[roundId].roomId && round.roundNumber == rounds[roundId].roundNumber
    requires roundId !in rounds ==> forall k :: k in rounds && rounds[k].roomId == round.roomId ==> rounds[k].roundNumber != round.roundNumber
    ensures RoundsUnique(rounds[roundId := round])
  {
    var after := rounds[roundId := round];
    forall a, b | a in after && b in after && after[a].roomId == after[b].roomId && after[a].roundNumber == after[b].roundNumber
      ensures a == b
    {
      if a != roundId && b != roundId {
        assert rounds[a] == after[a] && rounds[b] == after[b];
      }
    }
  }

  lemma VotesUniquePut(votes: map<string, VoteRecord>, voteId: string, v: VoteRecord)
    requires VotesUnique(votes)
    requires voteId in votes ==> v.participantId == votes[voteId].participantId && v.roomId == votes[voteId].roomId && v.roundNumber == votes[voteId].roundNumber
    requires voteId !in votes ==> forall k :: k in votes ==> !(votes[k].participantId == v.participantId && votes[k].roomId == v.roomId && votes[k].roundNumber == v.roundNumber)
    ensures VotesUnique(votes[voteId := v])
  {
    var after := votes[voteId := v];
    forall a, b | a in after && b in after && after[a].participantId == after[b].participantId
      && after[a].roomId == after[b].roomId && after[a].roundNumber == after[b].roundNumber
      ensures a == b
    {
      if a != voteId && b != voteId {
        assert votes[a] == after[a] && votes[b] == after[b];
      }
    }
  }

  /** A new room, or a room record replaced in place, keeps the store
      consistent. */
  lemma PutRoom(rooms: map<string, RoomRecord>, rounds: map<string, RoundRecord>, votes: map<string, VoteRecord>,
                roomId: string, room: RoomRecord)
    requires Consistent(rooms, rounds, votes)
    requires room.currentRoundId != "" ==> room.currentRoundId in rounds && rounds[room.currentRoundId].roomId == roomId
    ensures Consistent(rooms[roomId := room], rounds, votes)
  {
    assert RoundsReferToRooms(rounds, rooms[roomId := room]);
    assert CurrentRoundsOwned(rooms[roomId := room], rounds);
  }

  /** Replacing a round record with one of the same room and number, or
      adding a round of an existing room with a number the room does not
      use yet, keeps the store consistent. */
  lemma PutRound(rooms: map<string, RoomRecord>, rounds: map<string, RoundRecord>, votes: map<string, VoteRecord>,
                 roundId: string, round: RoundRecord)
    requires Consistent(rooms, rounds, votes)
    requires roundId != "" && round.roomId in rooms
    requires roundId in rounds ==> round.roomId == rounds[roundId].roomId && round.roundNumber == rounds[roundId].roundNumber
    requires roundId !in rounds ==> forall k :: k in rounds && rounds[k].roomId == round.roomId ==> rounds[k].roundNumber != round.roundNumber
    ensures Consistent(rooms, rounds[roundId := round], votes)
  {
    assert RoundsUnique(rounds[roundId := round]) by {
      RoundsUniquePut(rounds, roundId, round);
    }
    assert VotesReferToRounds(votes, rounds[roundId := round]);
    assert RoundsReferToRooms(rounds[roundId := round], rooms);
    assert CurrentRoundsOwned(rooms, rounds[roundId := round]);
  }

  /** A vote in an existing round keeps the store consistent when it either
      replaces a vote of the same participant, room and number, or is new
      and the participant has no vote for that round number in that room
      yet. */
  lemma PutVote(rooms: map<string, RoomRecord>, rounds: map<string, RoundRecord>, votes: map<string, VoteRecord>,
                voteId: string, v: VoteRecord)
    requires Consistent(rooms, rounds, votes)
    requires v.roundId in rounds && rounds[v.roundId].roomId == v.roomId && rounds[v.roundId].roundNumber == v.roundNumber
    requires voteId in votes ==> v.participantId == votes[voteId].participantId && v.roomId == votes[voteId].roomId && v.roundNumber == votes[voteId].roundNumber
    requires voteId !in votes ==> forall k :: k in votes ==> !(votes[k].participantId == v.participantId && votes[k].roomId == v.roomId && votes[k].roundNumber == v.roundNumber)
    ensures Consistent(rooms, rounds, votes[voteId := v])
  {
    assert VotesUnique(votes[voteId := v]) by {
      VotesUniquePut(votes, voteId, v);
    }
    assert VotesReferToRounds(votes[voteId := v], rounds);
  }

  /** Deleting votes keeps the store consistent. */
  lemma RemoveVotes(rooms: map<string, RoomRecord>, rounds: map<string, RoundRecord>, votes: map<string, VoteRecord>, gone: set<string>)
    requires Consistent(rooms, rounds, votes)
    ensures Consistent(rooms, rounds, votes - gone)
  {
    assert VotesUnique(votes - gone);
    assert VotesReferToRounds(votes - gone, rounds);
  }

  // ----- how updates keep the store sequenced -----

  /** Replacing a room record keeps the store sequenced when its current
      round stays the same. */
  lemma PutRoomSequenced(rooms: map<string, RoomRecord>, rounds: map<string, RoundRecord>, roomId: string, room: RoomRecord)
    requires Sequenced(rooms, rounds) && roomId in rooms && room.currentRoundId == rooms[roomId].currentRoundId
    ensures Sequenced(rooms[roomId := room], rounds)
  {
    var rooms' := rooms[roomId := room];
    forall r | r in rooms'
      ensures SequencedAt(rooms', rounds, r)
    {
      assert SequencedAt(rooms, rounds, r);
    }
  }

  /** Replacing a round with one of the same room and number keeps the
      store sequenced. */
  lemma PutRoundSequenced(rooms: map<string, RoomRecord>, rounds: map<string, RoundRecord>, roundId: string, round: RoundRecord)
    requires Sequenced(rooms, rounds)
    requires roundId in rounds && round.roomId == rounds[roundId].roomId && round.roundNumber == rounds[roundId].roundNumber
    ensures Sequenced(rooms, rounds[roundId := round])
  {
    var rounds' := rounds[roundId := round];
    forall r | r in rooms
      ensures SequencedAt(rooms, rounds', r)
    {
      assert SequencedAt(rooms, rounds, r);
      forall k | k in rounds' && rounds'[k].roomId == r
        ensures rounds'[k].roundNumber <= rounds'[rooms[r].currentRoundId].roundNumber
      {
        assert rounds[k].roomId == r;
      }
    }
  }

  /** A new room whose only round is its current one keeps the store
      sequenced. */
  lemma FirstRoundSequenced(rooms: map<string, RoomRecord>, rounds: map<string, RoundRecord>,
                            roomId: string, room: RoomRecord, roundId: string, round: RoundRecord)
    requires Sequenced(rooms, rounds) && RoundsReferToRooms(rounds, rooms)
    requires roomId !in rooms && roundId !in rounds
    requires room.currentRoundId == roundId && round.roomId == roomId
    ensures Sequenced(rooms[roomId := room], rounds[roundId := round])
  {
    var rooms', rounds' := rooms[roomId := room], rounds[roundId := round];
    forall r | r in rooms'
      ensures SequencedAt(rooms', rounds', r)
    {
      if r != roomId {
        assert SequencedAt(rooms, rounds, r);
        assert rooms'[r] == rooms[r] && rounds'[rooms[r].currentRoundId] == rounds[rooms[r].currentRoundId];
        forall k | k in rounds' && rounds'[k].roomId == r
          ensures rounds'[k].roundNumber <= rounds'[rooms'[r].currentRoundId].roundNumber
        {
          assert k != roundId && rounds[k].roomId == r;
        }
      } else {
        forall k | k in rounds' && rounds'[k].roomId == r
          ensures k == roundId
        {
        }
      }
    }
  }

  /** A round numbered one past the current one, made current, keeps the
      store sequenced. */
  lemma NextRoundSequenced(rooms: map<string, RoomRecord>, rounds: map<string, RoundRecord>,
                           roomId: string, roundId: string, round: RoundRecord)
    requires Sequenced(rooms, rounds) && roomId in rooms && roundId !in rounds && rooms[roomId].currentRoundId in rounds
    requires round.roomId == roomId && round.roundNumber == rounds[rooms[roomId].currentRoundId].roundNumber + 1
    ensures Sequenced(rooms[roomId := rooms[roomId].(currentRoundId := roundId)], rounds[roundId := round])
  {
    var rooms', rounds' := rooms[roomId := rooms[roomId].(currentRoundId := roundId)], rounds[roundId := round];
    forall r | r in rooms'
      ensures SequencedAt(rooms', rounds', r)
    {
      assert SequencedAt(rooms, rounds, r);
      if r != roomId {
        assert rooms'[r] == rooms[r] && rounds'[rooms[r].currentRoundId] == rounds[rooms[r].currentRoundId];
        forall k | k in rounds' && rounds'[k].roomId == r
          ensures rounds'[k].roundNumber <= rounds'[rooms'[r].currentRoundId].roundNumber
        {
          assert k != roundId && rounds[k].roomId == r;
        }
      } else {
        forall k | k in rounds' && rounds'[k].roomId == r
          ensures rounds'[k].roundNumber <= rounds'[roundId].roundNumber
        {
          if k != roundId {
            assert rounds[k].roomId == r;
          }
        }
      }
    }
  }

  // ----- reading the store -----

  /** The record id of the current round of `roomId` (`GetCurrentRoundRecord`). */
  function CurrentRoundOf(rooms: map<string, RoomRecord>, rounds: map<string, RoundRecord>, roomId: string): (r: Result<string, StoreError>)
    ensures r.Ok? <==> roomId in rooms && rooms[roomId].currentRoundId != "" && rooms[roomId].currentRoundId in rounds
    ensures r.Ok? ==> r.value == rooms[roomId].currentRoundId
    ensures r == Err(RoomNotFound) <==> roomId !in rooms
  {
    if roomId !in rooms then Err(RoomNotFound)
    else if rooms[roomId].currentRoundId == "" then Err(NoCurrentRound)
    else if rooms[roomId].currentRoundId !in rounds then Err(CurrentRoundNotFound)
    else Ok(rooms[roomId].currentRoundId)
  }

  /** In a sequenced store every existing room has a current round. */
  lemma SequencedHasCurrentRound(rooms: map<string, RoomRecord>, rounds: map<string, RoundRecord>, votes: map<string, VoteRecord>, roomId: string)
    requires Consistent(rooms, rounds, votes) && Sequenced(rooms, rounds)
    ensures CurrentRoundOf(rooms, rounds, roomId).Ok? <==> roomId in rooms
  {
    if roomId in rooms {
      assert SequencedAt(rooms, rounds, roomId);
    }
  }

  /** No round of the room has number `n` yet. */
  ghost predicate NumberFree(rounds: map<string, RoundRecord>, roomId: string, n: int) {
    forall k :: k in rounds && rounds[k].roomId == roomId ==> rounds[k].roundNumber != n
  }

  /** In a sequenced store the number after the current one is still free
      in the room, so creating the next round cannot hit the unique index. */
  lemma NextNumberFree(rooms: map<string, RoomRecord>, rounds: map<string, RoundRecord>, roomId: string)
    requires Sequenced(rooms, rounds) && roomId in rooms
    ensures rooms[roomId].currentRoundId in rounds
    ensures NumberFree(rounds, roomId, rounds[rooms[roomId].currentRoundId].roundNumber + 1)
  {
    assert SequencedAt(rooms, rounds, roomId);
  }

  /** `UpdateRoomActivity` on the rooms collection: the room's activity time
      becomes `now`; an unknown room changes nothing. */
  function Touch(rooms: map<string, RoomRecord>, roomId: string, now: int): (after: map<string, RoomRecord>)
    ensures after.Keys == rooms.Keys
    ensures roomId in rooms ==> after[roomId] == rooms[roomId].(lastActivity := now)
    ensures forall k :: k in rooms && k != roomId ==> after[k] == rooms[k]
  {
    if roomId in rooms then rooms[roomId := rooms[roomId].(lastActivity := now)] else rooms
  }

  class RoomManager {
    var rooms: map<string, RoomRecord>
    var rounds: map<string, RoundRecord>
    var votes: map<string, VoteRecord>
    var participants: map<string, ParticipantRecord>

    ghost predicate Valid()
      reads this
    {
      Consistent(rooms, rounds, votes)
    }

    /** An empty store. */
    constructor ()
      ensures Valid()
      ensures rooms == map[] && rounds == map[] && votes == map[] && participants == map[]
    {
      rooms, rounds, votes, participants := map[], map[], map[], map[];
    }

    /** `GetRoom`. */
    function GetRoom(roomId: string): (r: Option<RoomRecord>)
      reads this
      ensures r.Some? <==> roomId in rooms
      ensures r.Some? ==> r.value == rooms[roomId]
    {
      if roomId in rooms then Some(rooms[roomId]) else None
    }

    /** `IsRoomCreator`, as written: the stored creator id equals the given
        one. Before anybody joined the stored id is "", so the empty
        participant id (a connection without a session) counts as creator. */
    function IsRoomCreator(roomId: string, participantId: string): (b: bool)
      reads this
      ensures b <==> roomId in rooms && rooms[roomId].creatorParticipantId == participantId
    {
      match GetRoom(roomId)
      case None => false
      case Some(room) => room.creatorParticipantId == participantId
    }

    /** `IsRoomCreator` as evidently intended: only a creator that has been
        set matches. */
    function IsRoomCreatorChecked(roomId: string, participantId: string): (b: bool)
      reads this
      ensures b <==> roomId in rooms && participantId != "" && rooms[roomId].creatorParticipantId == participantId
      ensures b ==> IsRoomCreator(roomId, participantId)
    {
      participantId != "" && IsRoomCreator(roomId, participantId)
    }

    /** The discrepancy between the two: in a room nobody has joined yet
        (as `CreateRoom` leaves it), a connection without a session passes
        `IsRoomCreator` but not the corrected check. */
    lemma UnclaimedRoomAcceptsAnonymous(roomId: string)
      requires roomId in rooms && rooms[roomId].creatorParticipantId == ""
      ensures IsRoomCreator(roomId, "") && !IsRoomCreatorChecked(roomId, "")
    {
    }

    /** `GetCurrentRound`: the current round's number, or 1 whenever it
        cannot be found. */
    function GetCurrentRound(roomId: string): (n: int)
      reads this
      ensures CurrentRoundOf(rooms, rounds, roomId).Ok? ==> n == rounds[rooms[roomId].currentRoundId].roundNumber
      ensures CurrentRoundOf(rooms, rounds, roomId).Err? ==> n == 1
    {
      match CurrentRoundOf(rooms, rounds, roomId)
      case Ok(id) => rounds[id].roundNumber
      case Err(_) => 1
    }

    /** `GetRoomState`: the current round's state; on error the Go code
        returns "voting" together with the error. */
    function GetRoomState(roomId: string): (r: (string, Option<StoreError>))
      reads this
      ensures r.1.None? <==> CurrentRoundOf(rooms, rounds, roomId).Ok?
      ensures r.1.None? ==> r.0 == rounds[rooms[roomId].currentRoundId].state
      ensures r.1.Some? ==> r.0 == StateVoting && r.1.value == CurrentRoundOf(rooms, rounds, roomId).error
    {
      match CurrentRoundOf(rooms, rounds, roomId)
      case Ok(id) => (rounds[id].state, None)
      case Err(e) => (StateVoting, Some(e))
    }

    /** `GetRoomVotes`: the votes of the current round, by record id. */
    function GetRoomVotes(roomId: string): (r: Result<map<string, VoteRecord>, StoreError>)
      reads this
      ensures r.Err? <==> CurrentRoundOf(rooms, rounds, roomId).Err?
      ensures r.Ok? ==> r.value.Keys == VotesOfRound(votes, rooms[roomId].currentRoundId)
      ensures r.Ok? ==> forall v :: v in r.value ==> r.value[v] == votes[v]
    {
      match CurrentRoundOf(rooms, rounds, roomId)
      case Err(e) => Err(e)
      case Ok(id) => Ok(map v | v in votes && votes[v].roundId == id :: votes[v])
    }

    /** `UpdateRoomActivity`. */
    method UpdateRoomActivity(roomId: string, now: int) returns (r: Outcome<StoreError>)
      requires Valid()
      modifies this
      ensures Valid()
      ensures r.Pass? <==> roomId in old(rooms)
      ensures rooms == Touch(old(rooms), roomId, now)
      ensures rounds == old(rounds) && votes == old(votes) && participants == old(participants)
      ensures old(Sequenced(rooms, rounds)) ==> Sequenced(rooms, rounds)
    {
      if roomId !in rooms {
        return Fail(RoomNotFound);
      }
      PutRoom(rooms, rounds, votes, roomId, rooms[roomId].(lastActivity := now));
      if Sequenced(rooms, rounds) {
        PutRoomSequenced(rooms, rounds, roomId, rooms[roomId].(lastActivity := now));
      }
      rooms := Touch(rooms, roomId, now);
      return Pass;
    }

    /** `CreateRoundForRoom`: a new voting round with that number and no
        votes counted. Saving it fails when the room does not exist or
        already has a round with that number. */
    method CreateRoundForRoom(roomId: string, roundNumber: int, newId: string) returns (r: Result<string, StoreError>)
      requires Valid()
      requires newId != "" && newId !in rounds
      modifies this
      ensures Valid()
      ensures r.Err? <==> roomId !in old(rooms) || !NumberFree(old(rounds), roomId, roundNumber)
      ensures r.Ok? ==> r.value == newId && rounds == old(rounds)[newId := RoundRecord(roomId, roundNumber, StateVoting, 0)]
      ensures r.Err? ==> rounds == old(rounds)
      ensures rooms == old(rooms) && votes == old(votes) && participants == old(participants)
    {
      if roomId !in rooms {
        return Err(MissingRelation);
      }
      if !(forall k | k in rounds && rounds[k].roomId == roomId :: rounds[k].roundNumber != roundNumber) {
        return Err(DuplicateRound);
      }
      var round := RoundRecord(roomId, roundNumber, StateVoting, 0);
      PutRound(rooms, rounds, votes, newId, round);
      rounds := rounds[newId := round];
      return Ok(newId);
    }

    /** `CreateRoom`: stores the room ("custom" when no pointing method is
        given), creates its round 1 and makes it the current round; the
        creator is set when the first participant joins. */
    method CreateRoom(name: string, pointingMethod: string, customValues: seq<string>,
                      roomId: string, roundId: string, now: int) returns (r: Result<string, StoreError>)
      requires Valid()
      requires roomId !in rooms && roundId != "" && roundId !in rounds
      modifies this
      ensures Valid()
      ensures r == Ok(roomId)
      ensures rooms == old(rooms)[roomId := RoomRecord(name, if pointingMethod == "" then "custom" else pointingMethod,
                                                       customValues, NoConfig, "", roundId, now + RoomLifetime, now)]
      ensures rounds == old(rounds)[roundId := RoundRecord(roomId, 1, StateVoting, 0)]
      ensures GetCurrentRound(roomId) == 1 && GetRoomState(roomId) == (StateVoting, None)
      ensures votes == old(votes) && participants == old(participants)
      ensures old(Sequenced(rooms, rounds)) ==> Sequenced(rooms, rounds)
    {
      ghost var rooms0, rounds0 := rooms, rounds;
      var method' := if pointingMethod == "" then "custom" else pointingMethod;
      var room := RoomRecord(name, method', customValues, NoConfig, "", "", now + RoomLifetime, now);
      PutRoom(rooms, rounds, votes, roomId, room);
      rooms := rooms[roomId := room];
      var created := CreateRoundForRoom(roomId, 1, roundId);
      if created.Err? {
        assert false;
      }
      room := room.(currentRoundId := roundId);
      assert Consistent(rooms[roomId := room], rounds, votes) by {
        PutRoom(rooms, rounds, votes, roomId, room);
      }
      rooms := rooms[roomId := room];
      if Sequenced(rooms0, rounds0) {
        FirstRoundSequenced(rooms0, rounds0, roomId, room, roundId, RoundRecord(roomId, 1, StateVoting, 0));
      }
      return Ok(roomId);
    }

    /** `AddParticipant`: a connected participant of the room; the first one
        becomes the room's creator and later ones never change it. Saving
        fails when the room does not exist or the session already has a
        participant in this room. */
    method AddParticipant(roomId: string, name: string, role: string, sessionCookie: string,
                          newId: string, now: int) returns (r: Result<string, StoreError>)
      requires Valid()
      requires newId != "" && newId !in participants
      modifies this
      ensures Valid()
      ensures r.Err? <==> (roomId !in old(rooms)
        || exists k :: k in old(participants) && old(participants)[k].sessionCookie == sessionCookie && old(participants)[k].roomId == roomId)
      ensures r.Err? ==> rooms == old(rooms) && participants == old(participants)
      ensures r.Ok? ==> (r.value == newId
        && participants == old(participants)[newId := ParticipantRecord(roomId, name, role, true, sessionCookie, now, now)]
        && rooms == old(rooms)[roomId := old(rooms)[roomId].(
             creatorParticipantId := if old(rooms)[roomId].creatorParticipantId == "" then newId else old(rooms)[roomId].creatorParticipantId,
             lastActivity := now)])
      ensures rounds == old(rounds) && votes == old(votes)
      ensures old(Sequenced(rooms, rounds)) ==> Sequenced(rooms, rounds)
    {
      if roomId !in rooms {
        return Err(MissingRelation);
      }
      if exists k :: k in participants && participants[k].sessionCookie == sessionCookie && participants[k].roomId == roomId {
        return Err(DuplicateParticipant);
      }
      var room := rooms[roomId];
      if room.creatorParticipantId == "" {
        room := room.(creatorParticipantId := newId);
      }
      room := room.(lastActivity := now);
      PutRoom(rooms, rounds, votes, roomId, room);
      if Sequenced(rooms, rounds) {
        PutRoomSequenced(rooms, rounds, roomId, room);
      }
      participants := participants[newId := ParticipantRecord(roomId, name, role, true, sessionCookie, now, now)];
      rooms := rooms[roomId := room];
      return Ok(newId);
    }
    /** `CastVote`: records the participant's vote in the room's current
        round, replacing the value of an existing vote there, otherwise
        creating one. Neither the participant's role nor the round's state
        is checked; saving a new vote fails when the participant does not
        exist. `voteId` is the record that now holds the vote. */
    method CastVote(roomId: string, participantId: string, value: string, newId: string, now: int)
      returns (r: Outcome<StoreError>, ghost voteId: string)
      requires Valid() && newId !in votes
      modifies this
      ensures Valid()
      ensures r.Pass? <==> (CurrentRoundOf(old(rooms), old(rounds), roomId).Ok?
        && (VotesOf(old(votes), participantId, old(rooms)[roomId].currentRoundId) != {} || participantId in old(participants)))
      ensures r.Pass? ==> (var cur := old(rooms)[roomId].currentRoundId;
        VotesOf(votes, participantId, cur) == {voteId}
        && votes == old(votes)[voteId := votes[voteId]]
        && (voteId in old(votes) ==> votes[voteId] == old(votes)[voteId].(value := value, votedAt := now))
        && (voteId !in old(votes) ==>
              voteId == newId && votes[voteId] == VoteRecord(participantId, roomId, cur, old(rounds)[cur].roundNumber, value, now))
        && rooms == Touch(old(rooms), roomId, now))
      ensures r.Fail? ==> votes == old(votes) && rooms == old(rooms)
      ensures rounds == old(rounds) && participants == old(participants)
      ensures old(Sequenced(rooms, rounds)) ==> Sequenced(rooms, rounds)
    {
      voteId := newId;
      var id := newId;
      var current := CurrentRoundOf(rooms, rounds, roomId);
      if current.Err? {
        return Fail(current.error), voteId;
      }
      var roundId := current.value;
      var existing := VotesOf(votes, participantId, roundId);
      OneVotePerParticipant(votes, rounds, participantId, roundId);
      var vote: VoteRecord;
      if existing != {} {
        id :| id in existing;
        assert existing == {id};
        vote := votes[id].(value := value, votedAt := now);
      } else {
        if participantId !in participants {
          return Fail(MissingRelation), voteId;
        }
        vote := VoteRecord(participantId, roomId, roundId, rounds[roundId].roundNumber, value, now);
        forall k | k in votes
          ensures !(votes[k].participantId == participantId && votes[k].roomId == roomId && votes[k].roundNumber == rounds[roundId].roundNumber)
        {
          if votes[k].participantId == participantId && votes[k].roomId == roomId && votes[k].roundNumber == rounds[roundId].roundNumber {
            SameKeySameRound(votes, rounds, k, roundId, participantId, roomId, rounds[roundId].roundNumber);
          }
        }
      }
      PutVote(rooms, rounds, votes, id, vote);
      PutRoom(rooms, rounds, votes[id := vote], roomId, rooms[roomId].(lastActivity := now));
      if Sequenced(rooms, rounds) {
        PutRoomSequenced(rooms, rounds, roomId, rooms[roomId].(lastActivity := now));
      }
      assert VotesOf(votes[id := vote], participantId, roundId) == {id};
      votes := votes[id := vote];
      rooms := Touch(rooms, roomId, now);
      return Pass, id;
    }

    /** `RevealVotes`: the current round becomes revealed; votes are kept. */
    method RevealVotes(roomId: string, now: int) returns (r: Outcome<StoreError>)
      requires Valid()
      modifies this
      ensures Valid()
      ensures r.Pass? <==> CurrentRoundOf(old(rooms), old(rounds), roomId).Ok?
      ensures r.Pass? ==> (var cur := old(rooms)[roomId].currentRoundId;
        rounds == old(rounds)[cur := old(rounds)[cur].(state := StateRevealed)]
        && rooms == Touch(old(rooms), roomId, now)
        && GetRoomState(roomId) == (StateRevealed, None)
        && GetCurrentRound(roomId) == old(GetCurrentRound(roomId)))
      ensures r.Fail? ==> rounds == old(rounds) && rooms == old(rooms)
      ensures votes == old(votes) && participants == old(participants)
      ensures old(Sequenced(rooms, rounds)) ==> Sequenced(rooms, rounds)
    {
      var current := CurrentRoundOf(rooms, rounds, roomId);
      if current.Err? {
        return Fail(current.error);
      }
      var roundId := current.value;
      var round := rounds[roundId].(state := StateRevealed);
      PutRound(rooms, rounds, votes, roundId, round);
      PutRoom(rooms, rounds[roundId := round], votes, roomId, rooms[roomId].(lastActivity := now));
      if Sequenced(rooms, rounds) {
        PutRoundSequenced(rooms, rounds, roundId, round);
        PutRoomSequenced(rooms, rounds[roundId := round], roomId, rooms[roomId].(lastActivity := now));
      }
      rounds := rounds[roundId := round];
      rooms := Touch(rooms, roomId, now);
      return Pass;
    }

    /** The deletion loop of `ResetRound`: every listed vote is deleted,
        one at a time. */
    method DeleteVotes(found: set<string>)
      requires Valid()
      modifies this
      ensures Valid()
      ensures votes == old(votes) - found
      ensures rooms == old(rooms) && rounds == old(rounds) && participants == old(participants)
      ensures old(Sequenced(rooms, rounds)) ==> Sequenced(rooms, rounds)
    {
      var pending := found;
      while pending != {}
        invariant votes == old(votes) - (found - pending)
        invariant rooms == old(rooms) && rounds == old(rounds) && participants == old(participants)
        decreases pending
      {
        var v :| v in pending;
        votes := votes - {v};
        pending := pending - {v};
      }
      assert found - pending == found;
      RemoveVotes(rooms, rounds, old(votes), found);
    }

    /** `ResetRound`: deletes every vote of the current round and puts the
        round back to voting under the same number. */
    method ResetRound(roomId: string, now: int) returns (r: Outcome<StoreError>)
      requires Valid()
      modifies this
      ensures Valid()
      ensures r.Pass? <==> CurrentRoundOf(old(rooms), old(rounds), roomId).Ok?
      ensures r.Pass? ==> (var cur := old(rooms)[roomId].currentRoundId;
        votes == old(votes) - VotesOfRound(old(votes), cur)
        && rounds == old(rounds)[cur := old(rounds)[cur].(state := StateVoting)]
        && rooms == Touch(old(rooms), roomId, now)
        && GetRoomVotes(roomId) == Ok(map[]))
      ensures r.Fail? ==> votes == old(votes) && rounds == old(rounds) && rooms == old(rooms)
      ensures participants == old(participants)
      ensures old(Sequenced(rooms, rounds)) ==> Sequenced(rooms, rounds)
    {
      var current := CurrentRoundOf(rooms, rounds, roomId);
      if current.Err? {
        return Fail(current.error);
      }
      var roundId := current.value;
      DeleteVotes(VotesOfRound(votes, roundId));
      var round := rounds[roundId].(state := StateVoting);
      PutRound(rooms, rounds, votes, roundId, round);
      PutRoom(rooms, rounds[roundId := round], votes, roomId, rooms[roomId].(lastActivity := now));
      if Sequenced(rooms, rounds) {
        PutRoundSequenced(rooms, rounds, roundId, round);
        PutRoomSequenced(rooms, rounds[roundId := round], roomId, rooms[roomId].(lastActivity := now));
      }
      rounds := rounds[roundId := round];
      rooms := Touch(rooms, roomId, now);
      assert VotesOfRound(votes, roundId) == {};
      return Pass;
    }

    /** `CompleteRound`: the round becomes completed with its vote count
        (the average score is not modelled). */
    method CompleteRound(roundId: string, totalVotes: int) returns (r: Outcome<StoreError>)
      requires Valid()
      modifies this
      ensures Valid()
      ensures r.Pass? <==> roundId in old(rounds)
      ensures r.Pass? ==> rounds == old(rounds)[roundId := old(rounds)[roundId].(state := StateCompleted, totalVotes := totalVotes)]
      ensures r.Fail? ==> rounds == old(rounds)
      ensures rooms == old(rooms) && votes == old(votes) && participants == old(participants)
      ensures old(Sequenced(rooms, rounds)) ==> Sequenced(rooms, rounds)
    {
      if roundId !in rounds {
        return Fail(RoundNotFound);
      }
      var round := rounds[roundId].(state := StateCompleted, totalVotes := totalVotes);
      assert rounds[roundId].roomId in rooms;
      PutRound(rooms, rounds, votes, roundId, round);
      if Sequenced(rooms, rounds) {
        PutRoundSequenced(rooms, rounds, roundId, round);
      }
      rounds := rounds[roundId := round];
      return Pass;
    }

    /** `CreateNextRound`: completes the current round with the number of its
        votes, creates the round numbered one higher and makes it current.
        The old round stays completed even when creating the new one fails;
        the new round starts with no votes and the old votes are kept. */
    method CreateNextRound(roomId: string, newId: string) returns (r: Result<string, StoreError>)
      requires Valid()
      requires newId != "" && newId !in rounds
      modifies this
      ensures Valid()
      ensures CurrentRoundOf(old(rooms), old(rounds), roomId).Err? ==> r.Err? && rounds == old(rounds) && rooms == old(rooms)
      ensures CurrentRoundOf(old(rooms), old(rounds), roomId).Ok? ==> (var cur := old(rooms)[roomId].currentRoundId;
        cur in rounds && rounds[cur] == old(rounds)[cur].(state := StateCompleted, totalVotes := |VotesOfRound(old(votes), cur)|)
        && (r.Ok? <==> NumberFree(old(rounds), roomId, old(rounds)[cur].roundNumber + 1)))
      ensures r.Ok? ==> (var cur := old(rooms)[roomId].currentRoundId;
        r.value == newId
        && rounds == old(rounds)[cur := rounds[cur]][newId := RoundRecord(roomId, old(rounds)[cur].roundNumber + 1, StateVoting, 0)]
        && rooms == old(rooms)[roomId := old(rooms)[roomId].(currentRoundId := newId)]
        && VotesOfRound(votes, newId) == {})
      ensures votes == old(votes) && participants == old(participants)
      ensures old(Sequenced(rooms, rounds)) ==> Sequenced(rooms, rounds)
      ensures old(Sequenced(rooms, rounds)) && CurrentRoundOf(old(rooms), old(rounds), roomId).Ok? ==> r.Ok?
    {
      var current := CurrentRoundOf(rooms, rounds, roomId);
      if current.Err? {
        return Err(current.error);
      }
      var roundId := current.value;
      if Sequenced(rooms, rounds) {
        NextNumberFree(rooms, rounds, roomId);
      }
      var roomVotes := GetRoomVotes(roomId);
      var counted := |roomVotes.value.Keys|;
      var _ := CompleteRound(roundId, counted);
      assert forall k :: k in rounds ==> k in old(rounds) && rounds[k].roomId == old(rounds)[k].roomId && rounds[k].roundNumber == old(rounds)[k].roundNumber;
      r := OpenRound(roomId, rounds[roundId].roundNumber + 1, newId);
    }

    /** The part of `CreateNextRound` after the current round is completed:
        the round numbered `roundNumber` is created and made the room's
        current round, with no votes. When the number is one past the
        current round's, a sequenced store stays sequenced. */
    method OpenRound(roomId: string, roundNumber: int, newId: string) returns (r: Result<string, StoreError>)
      requires Valid() && roomId in rooms
      requires newId != "" && newId !in rounds
      modifies this
      ensures Valid()
      ensures r.Ok? <==> NumberFree(old(rounds), roomId, roundNumber)
      ensures r.Ok? ==> (r.value == newId
        && rounds == old(rounds)[newId := RoundRecord(roomId, roundNumber, StateVoting, 0)]
        && rooms == old(rooms)[roomId := old(rooms)[roomId].(currentRoundId := newId)]
        && VotesOfRound(votes, newId) == {})
      ensures r.Err? ==> rounds == old(rounds) && rooms == old(rooms)
      ensures votes == old(votes) && participants == old(participants)
      ensures old(Sequenced(rooms, rounds)) && old(rooms)[roomId].currentRoundId in old(rounds)
              && roundNumber == old(rounds)[old(rooms)[roomId].currentRoundId].roundNumber + 1 ==>
        Sequenced(rooms, rounds)
    {
      ghost var rounds0 := rounds;
      var created := CreateRoundForRoom(roomId, roundNumber, newId);
      if created.Err? {
        return Err(created.error);
      }
      if Sequenced(rooms, rounds0) && rooms[roomId].currentRoundId in rounds0
         && roundNumber == rounds0[rooms[roomId].currentRoundId].roundNumber + 1 {
        NextRoundSequenced(rooms, rounds0, roomId, newId, rounds[newId]);
      }
      PutRoom(rooms, rounds, votes, roomId, rooms[roomId].(currentRoundId := newId));
      rooms := rooms[roomId := rooms[roomId].(currentRoundId := newId)];
      assert VotesOfRound(votes, newId) == {};
      return Ok(newId);
    }

    /** `UpdateParticipantName`: the validated, trimmed name is stored on
        the participant record; the room's activity time is not touched. */
    method UpdateParticipantName(u: UnicodeClasses, participantId: string, newName: string) returns (r: Outcome<StoreError>)
      requires Valid()
      modifies this
      ensures Valid()
      ensures r.Pass? <==> ValidateParticipantName(u, newName).Ok? && participantId in old(participants)
      ensures ValidateParticipantName(u, newName).Err? ==> r == Fail(InvalidName(ValidateParticipantName(u, newName).error))
      ensures r.Pass? ==> participants == old(participants)[participantId := old(participants)[participantId].(name := ValidateParticipantName(u, newName).value)]
      ensures r.Fail? ==> participants == old(participants)
      ensures rooms == old(rooms) && rounds == old(rounds) && votes == old(votes)
      ensures old(Sequenced(rooms, rounds)) ==> Sequenced(rooms, rounds)
    {
      var validated := ValidateParticipantName(u, newName);
      if validated.Err? {
        return Fail(InvalidName(validated.error));
      }
      if participantId !in participants {
        return Fail(ParticipantNotFound);
      }
      participants := participants[participantId := participants[participantId].(name := validated.value)];
      return Pass;
    }

    /** `UpdateRoomName`: the validated, trimmed name is stored and the
        activity time updated. */
    method UpdateRoomName(u: UnicodeClasses, roomId: string, newName: string, now: int) returns (r: Outcome<StoreError>)
      requires Valid()
      modifies this
      ensures Valid()
      ensures r.Pass? <==> ValidateRoomName(u, newName).Ok? && roomId in old(rooms)
      ensures ValidateRoomName(u, newName).Err? ==> r == Fail(InvalidName(ValidateRoomName(u, newName).error))
      ensures r.Pass? ==> rooms == old(rooms)[roomId := old(rooms)[roomId].(name := ValidateRoomName(u, newName).value, lastActivity := now)]
      ensures r.Fail? ==> rooms == old(rooms)
      ensures rounds == old(rounds) && votes == old(votes) && participants == old(participants)
      ensures old(Sequenced(rooms, rounds)) ==> Sequenced(rooms, rounds)
    {
      var validated := ValidateRoomName(u, newName);
      if validated.Err? {
        return Fail(InvalidName(validated.error));
      }
      if roomId !in rooms {
        return Fail(RoomNotFound);
      }
      var room := rooms[roomId].(name := validated.value, lastActivity := now);
      PutRoom(rooms, rounds, votes, roomId, room);
      if Sequenced(rooms, rounds) {
        PutRoomSequenced(rooms, rounds, roomId, room);
      }
      rooms := rooms[roomId := room];
      return Pass;
    }
  }
}
