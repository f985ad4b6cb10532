// The room table of src/server/room_manager.cpp as a value: a map of non-empty sets.

module RoomTables {
  import opened ByteStrings

  type Rooms<!S> = map<Bytes, set<S>>

  predicate Member<S(==)>(t: Rooms<S>, room: Bytes, s: S) {
    room in t && s in t[room]
  }

  function Join<S(==)>(t: Rooms<S>, room: Bytes, s: S): Rooms<S> {
    t[room := (if room in t then t[room] else {}) + {s}]
  }

  /** An emptied room disappears. */
  function Leave<S(==)>(t: Rooms<S>, room: Bytes, s: S): Rooms<S> {
    if room !in t then t
    else if t[room] - {s} == {} then t - {room}
    else t[room := t[room] - {s}]
  }

  function LeaveAll<S(==)>(t: Rooms<S>, s: S): Rooms<S> {
    map room | room in t && t[room] - {s} != {} :: t[room] - {s}
  }

  ghost predicate NoEmptyRoom<S>(t: Rooms<S>) {
    forall room :: room in t ==> t[room] != {}
  }

  /** Who is where, and nothing else, determines a table without empty rooms. */
  lemma TableIsItsMembers<S(!new)>(t: Rooms<S>, t': Rooms<S>)
    requires NoEmptyRoom(t) && NoEmptyRoom(t')
    requires forall room, x :: Member(t, room, x) <==> Member(t', room, x)
    ensures t == t'
  {
    forall room
      ensures room in t <==> room in t'
      ensures room in t ==> t[room] == t'[room]
    {
      if room in t {
        var x :| x in t[room];
        assert Member(t, room, x);
        assert forall y :: y in t[room] <==> Member(t', room, y);
      }
      if room in t' {
        var x :| x in t'[room];
        assert Member(t', room, x);
      }
    }
  }

  lemma JoinMembers<S(!new)>(t: Rooms<S>, room: Bytes, s: S)
    ensures forall r, x :: Member(Join(t, room, s), r, x) <==> Member(t, r, x) || (r == room && x == s)
    ensures NoEmptyRoom(t) ==> NoEmptyRoom(Join(t, room, s))
  {
  }

  lemma LeaveMembers<S(!new)>(t: Rooms<S>, room: Bytes, s: S)
    ensures forall r, x :: Member(Leave(t, room, s), r, x) <==> Member(t, r, x) && !(r == room && x == s)
    ensures NoEmptyRoom(t) ==> NoEmptyRoom(Leave(t, room, s))
  {
    forall r, x
      ensures Member(Leave(t, room, s), r, x) <==> Member(t, r, x) && !(r == room && x == s)
    {
      if r == room && room in t {
        assert x in t[room] - {s} <==> x in t[room] && x != s;
      }
    }
  }

  /** leave_all takes s out of every room and leaves every other membership alone. */
  lemma LeaveAllMembers<S(!new)>(t: Rooms<S>, s: S)
    ensures forall r, x :: Member(LeaveAll(t, s), r, x) <==> Member(t, r, x) && x != s
    ensures NoEmptyRoom(LeaveAll(t, s))
  {
    forall r, x | Member(t, r, x) && x != s
      ensures Member(LeaveAll(t, s), r, x)
    {
      assert x in t[r] - {s};
    }
  }

  /** leave_room for one room after the other. */
  function LeaveEach<S(==)>(t: Rooms<S>, order: seq<Bytes>, s: S): Rooms<S> {
    if order == [] then t else LeaveEach(Leave(t, order[0], s), order[1..], s)
  }

  /** leave_all is leave_room over all rooms, in any order. */
  lemma LeaveAllIsLeaveEach<S(!new)>(t: Rooms<S>, order: seq<Bytes>, s: S)
    requires forall room :: room in t ==> room in order
    ensures LeaveEach(t, order, s) == LeaveAll(t, s)
  {
    LeaveEachValue(t, order, s);
  }

  lemma {:induction false} LeaveEachValue<S(!new)>(t: Rooms<S>, order: seq<Bytes>, s: S)
    ensures LeaveEach(t, order, s) ==
            map room | room in t && !(room in order && t[room] - {s} == {}) ::
              if room in order then t[room] - {s} else t[room]
  {
    if order != [] {
      var t' := Leave(t, order[0], s);
      LeaveEachValue(t', order[1..], s);
      forall room
        ensures room in order <==> room == order[0] || room in order[1..]
        ensures room in t && room != order[0] ==> room in t' && t'[room] == t[room]
        ensures room in t' ==> t'[room] - {s} == t[room] - {s}
      {
      }
    }
  }

  /** leave_all on its way: the rooms in `todo` have not been visited yet. */
  function Partly<S(==)>(t: Rooms<S>, todo: set<Bytes>, s: S): Rooms<S> {
    map room | room in t && (room in todo || t[room] - {s} != {}) ::
      if room in todo then t[room] else t[room] - {s}
  }

  lemma PartlyStep<S>(t: Rooms<S>, todo: set<Bytes>, room: Bytes, s: S)
    requires room in todo && room in t
    ensures room in Partly(t, todo, s)
    ensures Leave(Partly(t, todo, s), room, s) == Partly(t, todo - {room}, s)
  {
    assert Partly(t, todo, s)[room] == t[room];
  }
}
