/** The in-memory room (internal/models/room.go): its participants keyed by
    id, the votes cast keyed by participant id, and whether the votes are
    hidden or revealed. */
module Rooms {
  import opened Participants
  import opened Results

  datatype RoomState = Voting | Revealed

  /** The `state` strings of the two room states. */
  function StateName(s: RoomState): (name: string)
    ensures name == "voting" <==> s == Voting
    ensures name == "revealed" <==> s == Revealed
  {
    match s
    case Voting => "voting"
    case Revealed => "revealed"
  }

  class Room {
    const id: string
    var name: string
    var pointingMethod: string
    var customValues: seq<string>
    var state: RoomState
    var participants: map<string, Participant>
    var votes: map<string, string>
    const createdAt: int
    var lastActivity: int

    /** `NewRoom`: voting, no participants, no votes; both timestamps are
        the clock reading `now`. */
    constructor (id: string, name: string, pointingMethod: string, customValues: seq<string>, now: int)
      ensures this.id == id && this.name == name && this.pointingMethod == pointingMethod
      ensures this.customValues == customValues
      ensures state == Voting && participants == map[] && votes == map[]
      ensures createdAt == now && lastActivity == now
    {
      this.id := id;
      this.name := name;
      this.pointingMethod := pointingMethod;
      this.customValues := customValues;
      state := Voting;
      participants := map[];
      votes := map[];
      createdAt := now;
      lastActivity := now;
    }

    /** `AddParticipant`: the participant is filed under its id, replacing
        any earlier one with that id; votes and state are untouched. */
    method AddParticipant(p: Participant, now: int)
      modifies this
      ensures participants == old(participants)[p.id := p]
      ensures votes == old(votes) && state == old(state) && lastActivity == now
      ensures name == old(name) && pointingMethod == old(pointingMethod) && customValues == old(customValues)
    {
      participants := participants[p.id := p];
      lastActivity := now;
    }

    /** `GetParticipant`: the participant with that id, if any. */
    function GetParticipant(participantId: string): (p: Option<Participant>)
      reads this
      ensures p.Some? <==> participantId in participants
      ensures p.Some? ==> p.value == participants[participantId]
    {
      if participantId in participants then Some(participants[participantId]) else None
    }

    /** `RemoveParticipant`: the participant and their vote are gone; an
        unknown id changes nothing but the activity time. */
    method RemoveParticipant(participantId: string, now: int)
      modifies this
      ensures participants == old(participants) - {participantId}
      ensures votes == old(votes) - {participantId}
      ensures state == old(state) && lastActivity == now
      ensures name == old(name) && pointingMethod == old(pointingMethod) && customValues == old(customValues)
    {
      participants := participants - {participantId};
      votes := votes - {participantId};
      lastActivity := now;
    }

    /** `CastVote`: records or replaces exactly this participant's vote.
        Neither the state nor membership is checked. */
    method CastVote(participantId: string, value: string, now: int)
      modifies this
      ensures votes == old(votes)[participantId := value]
      ensures participants == old(participants) && state == old(state) && lastActivity == now
      ensures name == old(name) && pointingMethod == old(pointingMethod) && customValues == old(customValues)
    {
      votes := votes[participantId := value];
      lastActivity := now;
    }

    /** `RevealVotes`: revealed, votes untouched. */
    method RevealVotes(now: int)
      modifies this
      ensures state == Revealed
      ensures votes == old(votes) && participants == old(participants) && lastActivity == now
      ensures name == old(name) && pointingMethod == old(pointingMethod) && customValues == old(customValues)
    {
      state := Revealed;
      lastActivity := now;
    }

    /** `ResetVoting`: back to voting with no votes; participants stay. */
    method ResetVoting(now: int)
      modifies this
      ensures state == Voting && votes == map[]
      ensures participants == old(participants) && lastActivity == now
      ensures name == old(name) && pointingMethod == old(pointingMethod) && customValues == old(customValues)
    {
      state := Voting;
      votes := map[];
      lastActivity := now;
    }

    /** `GetVoteStats`: the number of votes cast. */
    function GetVoteStats(): (total: nat)
      reads this
      ensures total == |votes.Keys|
      ensures total == 0 <==> votes == map[]
    {
      |votes.Keys|
    }
  }

  /** The vote count of a room follows its operations: a vote adds one
      unless the participant had already voted, removing a participant
      takes their vote away, and a reset empties the room. */
  lemma VoteCountAfterCast(votes: map<string, string>, participantId: string, value: string)
    ensures |votes[participantId := value].Keys| == if participantId in votes then |votes.Keys| else |votes.Keys| + 1
  {
    if participantId in votes {
      assert votes[participantId := value].Keys == votes.Keys;
    } else {
      assert votes[participantId := value].Keys == votes.Keys + {participantId};
    }
  }

  lemma VoteCountAfterRemove(votes: map<string, string>, participantId: string)
    ensures |(votes - {participantId}).Keys| == if participantId in votes then |votes.Keys| - 1 else |votes.Keys|
  {
    if participantId in votes {
      assert (votes - {participantId}).Keys == votes.Keys - {participantId};
    } else {
      assert votes - {participantId} == votes;
    }
  }
}
