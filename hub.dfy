/** The hub's bookkeeping of live connections (internal/services/hub.go):
    which connections are in which room, and which participant each
    connection speaks for. `C` stands for the connection handle. The
    register, unregister and broadcast requests the hub's loop takes from
    its channels are handled one at a time, as that loop does. */
module Hubs {

  /** A room's connections; an absent room has none. */
  function Connections<C>(rooms: map<string, set<C>>, roomId: string): (conns: set<C>)
    ensures roomId !in rooms ==> conns == {}
    ensures roomId in rooms ==> conns == rooms[roomId]
  {
    if roomId in rooms then rooms[roomId] else {}
  }

  /** The room map after `registerConnection`. */
  function Registered<C>(rooms: map<string, set<C>>, roomId: string, conn: C): (after: map<string, set<C>>)
    ensures after.Keys == rooms.Keys + {roomId}
    ensures after[roomId] == Connections(rooms, roomId) + {conn}
    ensures forall r :: r in rooms && r != roomId ==> after[r] == rooms[r]
  {
    rooms[roomId := Connections(rooms, roomId) + {conn}]
  }

  /** The room map after `unregisterConnection`: the connection leaves the
      room, and a room left without connections is dropped. Nothing changes
      when the connection is not in that room. */
  function Unregistered<C>(rooms: map<string, set<C>>, roomId: string, conn: C): (after: map<string, set<C>>)
    ensures conn !in Connections(rooms, roomId) ==> after == rooms
    ensures conn !in Connections(after, roomId)
    ensures Connections(after, roomId) == Connections(rooms, roomId) - {conn}
    ensures forall r :: r != roomId ==> (r in after <==> r in rooms)
    ensures forall r :: r in after && r != roomId ==> after[r] == rooms[r]
  {
    if roomId in rooms && conn in rooms[roomId] then
      var rest := rooms[roomId] - {conn};
      if |rest| == 0 then rooms - {roomId} else rooms[roomId := rest]
    else rooms
  }

  /** No room is kept without connections. */
  ghost predicate NoEmptyRoom<C>(rooms: map<string, set<C>>) {
    forall r :: r in rooms ==> rooms[r] != {}
  }

  /** Registering and unregistering keep rooms non-empty. */
  lemma RegistrationKeepsRoomsNonEmpty<C>(rooms: map<string, set<C>>, roomId: string, conn: C)
    requires NoEmptyRoom(rooms)
    ensures NoEmptyRoom(Registered(rooms, roomId, conn))
    ensures NoEmptyRoom(Unregistered(rooms, roomId, conn))
  {
    var after := Unregistered(rooms, roomId, conn);
    forall r | r in after
      ensures after[r] != {}
    {
      if r == roomId {
        assert after[r] == rooms[r] - {conn} && |rooms[r] - {conn}| != 0;
      }
    }
  }

  /** Registering the same connection twice has the effect of once. */
  lemma RegisterIdempotent<C>(rooms: map<string, set<C>>, roomId: string, conn: C)
    ensures Registered(Registered(rooms, roomId, conn), roomId, conn) == Registered(rooms, roomId, conn)
  {
  }

  /** Unregistering a connection just registered to a room it was not in
      restores the room map. */
  lemma UnregisterUndoesRegister<C>(rooms: map<string, set<C>>, roomId: string, conn: C)
    requires NoEmptyRoom(rooms)
    requires conn !in Connections(rooms, roomId)
    ensures Unregistered(Registered(rooms, roomId, conn), roomId, conn) == rooms
  {
    var mid := Registered(rooms, roomId, conn);
    var after := Unregistered(mid, roomId, conn);
    assert mid[roomId] - {conn} == Connections(rooms, roomId);
    if roomId in rooms {
      assert after == mid[roomId := rooms[roomId]];
    } else {
      assert after == mid - {roomId};
    }
  }

  class Hub<C(==)> {
    var rooms: map<string, set<C>>
    var connToParticipant: map<C, string>

    ghost predicate Valid()
      reads this
    {
      NoEmptyRoom(rooms)
    }

    /** `NewHub`. */
    constructor ()
      ensures Valid() && rooms == map[] && connToParticipant == map[]
    {
      rooms := map[];
      connToParticipant := map[];
    }

    /** `registerConnection`: the connection joins the room; the participant
        it speaks for is recorded when there is one. */
    method RegisterConnection(roomId: string, conn: C, participantId: string)
      requires Valid()
      modifies this
      ensures Valid()
      ensures rooms == Registered(old(rooms), roomId, conn)
      ensures conn in rooms[roomId]
      ensures connToParticipant == if participantId != "" then old(connToParticipant)[conn := participantId] else old(connToParticipant)
    {
      RegistrationKeepsRoomsNonEmpty(rooms, roomId, conn);
      rooms := Registered(rooms, roomId, conn);
      if participantId != "" {
        connToParticipant := connToParticipant[conn := participantId];
      }
    }

    /** `unregisterConnection`: a connection of the room leaves it and its
        participant entry is dropped; otherwise nothing changes. */
    method UnregisterConnection(roomId: string, conn: C)
      requires Valid()
      modifies this
      ensures Valid()
      ensures rooms == Unregistered(old(rooms), roomId, conn)
      ensures connToParticipant == if conn in Connections(old(rooms), roomId) then old(connToParticipant) - {conn} else old(connToParticipant)
    {
      RegistrationKeepsRoomsNonEmpty(rooms, roomId, conn);
      if roomId in rooms && conn in rooms[roomId] {
        connToParticipant := connToParticipant - {conn};
      }
      rooms := Unregistered(rooms, roomId, conn);
    }

    /** `broadcastToRoom`: the connections a room message is written to;
        there are none exactly when the room has no entry. */
    method BroadcastToRoom(roomId: string) returns (recipients: set<C>)
      requires Valid()
      ensures recipients == Connections(rooms, roomId)
      ensures recipients == {} <==> roomId !in rooms
    {
      if roomId !in rooms {
        return {};
      }
      recipients := rooms[roomId];
    }
  }
}
