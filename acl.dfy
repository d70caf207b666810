/** Permission checks of internal/services/acl_service.go over the room
    records of a `RoomManager`: the room creator may always reveal, reset
    and start the next round; anybody else gets the matching flag of the
    room's configuration. Creator checks use `RoomManager.IsRoomCreator` as
    written, so in a room nobody has joined yet the empty participant id
    passes them; `CreatorOrFlagChecked` is the corrected form (see README,
    Findings). */
module Acl {
  import opened Results
  import opened RoomConfigs
  import opened RoomManagers

  datatype AclError = Unauthorized

  class AclService {
    const roomManager: RoomManager

    constructor (rm: RoomManager)
      ensures roomManager == rm
    {
      roomManager := rm;
    }

    /** `GetRoomConfig`: the room's stored configuration, or the defaults
        when none is stored or it does not decode. */
    function GetRoomConfig(roomId: string): (r: Result<RoomConfig, StoreError>)
      reads roomManager
      ensures r.Err? <==> roomId !in roomManager.rooms
      ensures r.Err? ==> r.error == RoomNotFound
      ensures r.Ok? && !roomManager.rooms[roomId].config.Document? ==> r.value == DefaultRoomConfig()
      ensures r.Ok? && roomManager.rooms[roomId].config.Document? ==>
        r.value == match Decode(roomManager.rooms[roomId].config.doc)
                   case Some(c) => c
                   case None => DefaultRoomConfig()
    {
      match roomManager.GetRoom(roomId)
      case None => Err(RoomNotFound)
      case Some(room) => Ok(EffectiveConfig(room.config))
    }

    /** The shared shape of the three permission checks: the creator is
        always allowed; anybody else gets the flag `pick` selects. */
    function CreatorOrFlag(roomId: string, participantId: string, pick: RoomPermissions -> bool): (r: Result<bool, StoreError>)
      reads roomManager
      ensures roomManager.IsRoomCreator(roomId, participantId) ==> r == Ok(true)
      ensures r.Err? <==> roomId !in roomManager.rooms
      ensures r.Ok? && !roomManager.IsRoomCreator(roomId, participantId) ==>
        r.value == pick(GetRoomConfig(roomId).value.permissions)
      ensures r.Ok? ==> (r.value <==> roomManager.IsRoomCreator(roomId, participantId) || pick(GetRoomConfig(roomId).value.permissions))
    {
      if roomManager.IsRoomCreator(roomId, participantId) then Ok(true)
      else match GetRoomConfig(roomId)
        case Err(e) => Err(e)
        case Ok(config) => Ok(pick(config.permissions))
    }

    /** The permission check as evidently intended: the creator test is
        `IsRoomCreatorChecked`, so the empty participant id only ever gets
        the room's flag. */
    function CreatorOrFlagChecked(roomId: string, participantId: string, pick: RoomPermissions -> bool): (r: Result<bool, StoreError>)
      reads roomManager
      ensures r.Err? <==> roomId !in roomManager.rooms
      ensures r.Ok? ==> (r.value <==> roomManager.IsRoomCreatorChecked(roomId, participantId) || pick(GetRoomConfig(roomId).value.permissions))
      ensures participantId != "" ==> r == CreatorOrFlag(roomId, participantId, pick)
    {
      if participantId == "" then
        match GetRoomConfig(roomId)
        case Err(e) => Err(e)
        case Ok(config) => Ok(pick(config.permissions))
      else CreatorOrFlag(roomId, participantId, pick)
    }

    /** The discrepancy at the permission layer: in a room nobody has joined
        yet, a connection without a session may reveal, reset and start the
        next round whatever the room's flags say, while the corrected check
        gives it only the flag. */
    lemma UnclaimedRoomAdmitsAnonymous(roomId: string)
      requires roomId in roomManager.rooms && roomManager.rooms[roomId].creatorParticipantId == ""
      ensures CanReveal(roomId, "") == Ok(true) && CanReset(roomId, "") == Ok(true) && CanTriggerNewRound(roomId, "") == Ok(true)
      ensures CreatorOrFlagChecked(roomId, "", (p: RoomPermissions) => p.allowAllReveal)
              == Ok(GetRoomConfig(roomId).value.permissions.allowAllReveal)
    {
    }

    /** `CanTriggerNewRound`. */
    function CanTriggerNewRound(roomId: string, participantId: string): (r: Result<bool, StoreError>)
      reads roomManager
      ensures roomManager.IsRoomCreator(roomId, participantId) ==> r == Ok(true)
      ensures r.Err? <==> roomId !in roomManager.rooms
      ensures r.Ok? && !roomManager.IsRoomCreator(roomId, participantId) ==>
        r.value == GetRoomConfig(roomId).value.permissions.allowAllNewRound
    {
      CreatorOrFlag(roomId, participantId, (p: RoomPermissions) => p.allowAllNewRound)
    }

    /** `CanReset`. */
    function CanReset(roomId: string, participantId: string): (r: Result<bool, StoreError>)
      reads roomManager
      ensures roomManager.IsRoomCreator(roomId, participantId) ==> r == Ok(true)
      ensures r.Err? <==> roomId !in roomManager.rooms
      ensures r.Ok? && !roomManager.IsRoomCreator(roomId, participantId) ==>
        r.value == GetRoomConfig(roomId).value.permissions.allowAllReset
    {
      CreatorOrFlag(roomId, participantId, (p: RoomPermissions) => p.allowAllReset)
    }

    /** `CanReveal`. */
    function CanReveal(roomId: string, participantId: string): (r: Result<bool, StoreError>)
      reads roomManager
      ensures roomManager.IsRoomCreator(roomId, participantId) ==> r == Ok(true)
      ensures r.Err? <==> roomId !in roomManager.rooms
      ensures r.Ok? && !roomManager.IsRoomCreator(roomId, participantId) ==>
        r.value == GetRoomConfig(roomId).value.permissions.allowAllReveal
    {
      CreatorOrFlag(roomId, participantId, (p: RoomPermissions) => p.allowAllReveal)
    }

    /** `CanChangeVoteAfterReveal`: the room's flag, whoever asks. */
    function CanChangeVoteAfterReveal(roomId: string): (r: Result<bool, StoreError>)
      reads roomManager
      ensures r.Err? <==> roomId !in roomManager.rooms
      ensures r.Ok? ==> r.value == GetRoomConfig(roomId).value.permissions.allowChangeVoteAfterReveal
    {
      match GetRoomConfig(roomId)
      case Err(e) => Err(e)
      case Ok(config) => Ok(config.permissions.allowChangeVoteAfterReveal)
    }

    /** Without a stored configuration everybody may reveal, reset and
        start the next round, and votes are locked after reveal. */
    lemma DefaultsAllowEverybody(roomId: string, participantId: string)
      requires roomId in roomManager.rooms && roomManager.rooms[roomId].config == NoConfig
      ensures CanReveal(roomId, participantId) == Ok(true)
      ensures CanReset(roomId, participantId) == Ok(true)
      ensures CanTriggerNewRound(roomId, participantId) == Ok(true)
      ensures CanChangeVoteAfterReveal(roomId) == Ok(false)
    {
    }

    /** `UpdateRoomConfig`: only the creator may store a new configuration;
        it is stored as its JSON encoding, and reading it back gives the
        same configuration. */
    method UpdateRoomConfig(roomId: string, participantId: string, config: RoomConfig) returns (r: Outcome<AclError>)
      requires roomManager.Valid()
      modifies roomManager
      ensures roomManager.Valid()
      ensures r.Pass? <==> old(roomManager.IsRoomCreator(roomId, participantId))
      ensures r.Fail? ==> roomManager.rooms == old(roomManager.rooms)
      ensures r.Pass? ==> roomManager.rooms == old(roomManager.rooms)[roomId := old(roomManager.rooms)[roomId].(config := Document(Encode(config)))]
      ensures r.Pass? ==> GetRoomConfig(roomId) == Ok(config)
      ensures roomManager.rounds == old(roomManager.rounds) && roomManager.votes == old(roomManager.votes)
      ensures roomManager.participants == old(roomManager.participants)
      ensures old(Sequenced(roomManager.rooms, roomManager.rounds)) ==> Sequenced(roomManager.rooms, roomManager.rounds)
    {
      if !roomManager.IsRoomCreator(roomId, participantId) {
        return Fail(Unauthorized);
      }
      var room := roomManager.rooms[roomId].(config := Document(Encode(config)));
      PutRoom(roomManager.rooms, roomManager.rounds, roomManager.votes, roomId, room);
      if Sequenced(roomManager.rooms, roomManager.rounds) {
        PutRoomSequenced(roomManager.rooms, roomManager.rounds, roomId, room);
      }
      roomManager.rooms := roomManager.rooms[roomId := room];
      DecodeEncode(config);
      return Pass;
    }
  }
}
