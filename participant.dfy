/** Participants of a room (internal/models/participant.go). */
module Participants {

  /** The two roles a participant can hold. */
  const RoleVoter: string := "voter"
  const RoleSpectator: string := "spectator"

  predicate IsRole(role: string) {
    role == RoleVoter || role == RoleSpectator
  }

  /** A participant; `joinedAt` is the clock reading at creation. */
  datatype Participant = Participant(id: string, name: string, role: string, connected: bool, joinedAt: int)

  /** `NewParticipant`: the given id, name and role, not yet connected. */
  function NewParticipant(id: string, name: string, role: string, now: int): (p: Participant)
    ensures p.id == id && p.name == name && p.role == role
    ensures !p.connected && p.joinedAt == now
  {
    Participant(id, name, role, false, now)
  }

  /** Participants built with different ids are different participants, and
      the two roles are different strings. */
  lemma NewParticipantsDiffer(id1: string, id2: string, name: string, role: string, now: int)
    requires id1 != id2
    ensures NewParticipant(id1, name, role, now) != NewParticipant(id2, name, role, now)
    ensures RoleVoter != RoleSpectator
  {
    assert NewParticipant(id1, name, role, now).id != NewParticipant(id2, name, role, now).id;
  }
}
