// src/server/room_manager.cpp: the shared room table, updated in place under its mutex.

module RoomManagement {
  import opened Broadcast
  import opened ByteStrings
  import opened Ciphers
  import opened Messages
  import opened RoomTables
  import opened Sessions

  function RoomTag(room: Bytes, text: Bytes): Bytes {
    "[" + room + "] " + text
  }

  class RoomManager {
    var rooms: map<Bytes, set<Session>>
    const broadcast: BroadcastManager

    constructor (broadcast: BroadcastManager)
      ensures rooms == map[] && this.broadcast == broadcast
    {
      rooms := map[];
      this.broadcast := broadcast;
    }

    method JoinRoom(room: Bytes, s: Session)
      modifies this
      ensures rooms == Join(old(rooms), room, s)
    {
      var members := if room in rooms then rooms[room] else {};
      rooms := rooms[room := members + {s}];
    }

    method LeaveRoom(room: Bytes, s: Session)
      modifies this
      ensures rooms == Leave(old(rooms), room, s)
    {
      if room !in rooms {
        return;
      }
      rooms := rooms[room := rooms[room] - {s}];
      if rooms[room] == {} {
        rooms := rooms - {room};
      }
    }

    /** Erases while iterating, in whatever order the table gives the rooms. */
    method LeaveAllRooms(s: Session)
      modifies this
      ensures rooms == LeaveAll(old(rooms), s)
    {
      ghost var before := rooms;
      var todo := rooms.Keys;
      while todo != {}
        invariant todo <= before.Keys && rooms == Partly(before, todo, s)
        decreases |todo|
      {
        var room :| room in todo;
        PartlyStep(before, todo, room, s);
        todo := todo - {room};
        var members := rooms[room] - {s};
        rooms := if members == {} then rooms - {room} else rooms[room := members];
      }
    }

    /** The locked part of broadcast_to_room: the members, in the order the set gives them. */
    method Members(room: Bytes) returns (members: seq<Session>)
      requires room in rooms
      ensures NoDup(members)
      ensures forall s :: s in members <==> s in rooms[room]
    {
      members := [];
      var rest := rooms[room];
      while rest != {}
        invariant rest <= rooms[room] && NoDup(members)
        invariant forall s :: s in members <==> s in rooms[room] - rest
        decreases |rest|
      {
        var s :| s in rest;
        rest := rest - {s};
        assert s !in members;
        members := members + [s];
      }
    }

    /** Everyone in the room except sessions of the sender's name; nobody if there is no such room. */
    method BroadcastToRoom(room: Bytes, sender: Bytes, message: Bytes)
      requires forall s :: s in InRoom(room) ==> s.Valid()
      modifies InRoom(room)`active, InRoom(room)`sent
      ensures forall s :: s in InRoom(room) ==> s.Valid()
      ensures forall s :: s in InRoom(room) ==>
                if s.username == sender then Untouched(s)
                else Took(s, Xor(Frame(Bcast(sender, RoomTag(room, message))), broadcast.cipher.key))
    {
      if room !in rooms {
        return;
      }
      var members := Members(room);
      broadcast.BroadcastToRecipients(sender, RoomTag(room, message), members);
      assert forall s :: s in InRoom(room) ==> s in members;
    }

    ghost function InRoom(room: Bytes): set<Session>
      reads this
    {
      if room in rooms then rooms[room] else {}
    }
  }
}
