/** The room HTTP handlers (internal/handlers/room.go) apart from vote
    statistics: the role a joining participant gets. The statistics are in
    module `VoteStats`; the configuration a room record yields is
    `RoomConfigs.EffectiveConfig`. */
module RoomHandlers {
  import opened Participants

  /** `JoinRoom`'s role selection: the spectator role only for exactly
      "spectator"; any other request, empty or misspelt, joins as a voter. */
  function RoleFor(requested: string): (role: string)
    ensures IsRole(role)
    ensures role == RoleSpectator <==> requested == "spectator"
    ensures role == RoleVoter <==> requested != "spectator"
  {
    if requested == "spectator" then RoleSpectator else RoleVoter
  }
}
