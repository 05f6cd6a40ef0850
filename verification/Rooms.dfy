/**
 The life of meeting rooms (webrtc/src/room/room.service.ts). An empty room is removed after a delay; the
 timer holds on to the room object of its time, which an update of the room replaces by a copy. What keeps
 the timer honest is that all copies share one map of members.
 */
module Rooms {

  type RoomId = string
  type UserId = string
  type SocketId = string

  /** The Map that all copies of a room share. */
  class Members {
    var ids: map<UserId, SocketId>

    constructor ()
      ensures ids == map[]
    {
      ids := map[];
    }
  }

  datatype Room = Room(name: string, privateMode: bool, invites: set<UserId>, moderators: set<UserId>, members: Members)

  /** A timer of deleteRoom, with the room object it was set for. */
  datatype Timer = Timer(id: RoomId, room: Room)

  /** The rooms that timers are set for. */
  function Pending(timers: seq<Timer>): set<RoomId> {
    set t | t in timers :: t.id
  }

  lemma PendingSnoc(timers: seq<Timer>, t: Timer)
    ensures Pending(timers + [t]) == Pending(timers) + {t.id}
  {
  }

  lemma PendingWithout(timers: seq<Timer>, k: nat)
    requires k < |timers|
    ensures Pending(timers) - {timers[k].id} <= Pending(timers[..k] + timers[k + 1..])
    ensures forall t :: t in timers[..k] + timers[k + 1..] ==> t in timers
  {
    assert timers == timers[..k] + [timers[k]] + timers[k + 1..];
  }

  class RoomService {
    var rooms: map<RoomId, Room>
    var timers: seq<Timer>
    ghost var left: set<RoomId>       // rooms somebody has left

    ghost function Repr(): set<object>
      reads this
    {
      set id | id in rooms :: rooms[id].members
    }

    /** Rooms have maps of their own, and a timer's copy of a room has the room's. */
    ghost predicate Sharing()
      reads this
    {
      && (forall a, b :: a in rooms && b in rooms && a != b ==> rooms[a].members != rooms[b].members)
      && (forall t :: t in timers && t.id in rooms ==> t.room.members == rooms[t.id].members)
      && (forall t :: t in timers ==> t.id in left)
    }

    ghost predicate Waiting()
      reads this, Repr()
    {
      forall id :: id in rooms && id in left && rooms[id].members.ids == map[] ==> HasTimer(id)
    }

    ghost predicate WaitingBut(but: RoomId)
      reads this, Repr()
    {
      forall id :: id in rooms && id in left && rooms[id].members.ids == map[] && id != but ==> HasTimer(id)
    }

    ghost predicate Valid()
      reads this, Repr()
    {
      Sharing() && Waiting()
    }

    ghost predicate HasTimer(id: RoomId)
      reads this`timers
    {
      id in Pending(timers)
    }

    constructor ()
      ensures Valid() && rooms == map[] && timers == []
    {
      rooms, timers, left := map[], [], {};
    }

    method CreateRoom(id: RoomId, name: string, privateMode: bool, invites: set<UserId>, owner: UserId)
      requires Valid() && id !in rooms && id !in left
      modifies this
      ensures Valid() && id in rooms && rooms[id].members.ids == map[] && fresh(rooms[id].members)
      ensures rooms - {id} == old(rooms) && timers == old(timers)
    {
      var members := new Members();
      rooms := rooms[id := Room(name, privateMode, invites, {owner}, members)];
    }

    /** joinMember, once the client is let in. */
    method Join(id: RoomId, user: UserId, socket: SocketId)
      requires Valid() && id in rooms
      modifies rooms[id].members
      ensures Valid() && rooms[id].members.ids == old(rooms[id].members.ids)[user := socket]
    {
      var members := rooms[id].members;
      members.ids := members.ids[user := socket];
    }

    /** deleteRoom. */
    method DeleteRoom(id: RoomId)
      requires Sharing() && WaitingBut(id) && id in rooms && id in left
      modifies this`timers
      ensures Valid() && HasTimer(id)
    {
      PendingSnoc(timers, Timer(id, rooms[id]));
      timers := timers + [Timer(id, rooms[id])];
    }

    /** leaveMember. */
    method Leave(id: RoomId, user: UserId)
      requires Valid() && id in rooms
      modifies this`timers, this`left, rooms[id].members
      ensures Valid() && rooms[id].members.ids == old(rooms[id].members.ids) - {user}
      ensures rooms[id].members.ids == map[] ==> HasTimer(id)
    {
      DropMember(id, user);
      if |rooms[id].members.ids| == 0 {
        DeleteRoom(id);
      }
    }

    method DropMember(id: RoomId, user: UserId)
      requires Valid() && id in rooms
      modifies this`left, rooms[id].members
      ensures Sharing() && WaitingBut(id) && id in left
      ensures rooms[id].members.ids == old(rooms[id].members.ids) - {user}
    {
      hide Pending;
      var members := rooms[id].members;
      members.ids := members.ids - {user};
      left := left + {id};
      assert forall x :: x in rooms && x != id ==> rooms[x].members.ids == old(rooms[x].members.ids);
    }

    /** updateRoom, allowed: the room object is replaced by a copy with the same map of members. */
    method UpdateRoom(id: RoomId, name: string, privateMode: bool, invites: set<UserId>, moderators: set<UserId>)
      requires Valid() && id in rooms
      modifies this`rooms
      ensures Valid() && rooms == old(rooms)[id := Room(name, privateMode, invites, moderators, old(rooms)[id].members)]
    {
      rooms := rooms[id := rooms[id].(name := name, privateMode := privateMode, invites := invites,
          moderators := moderators)];
    }

    /** A timer of deleteRoom fires. A room that is listed goes exactly when it has no members now. */
    method DeleteTimer(k: nat)
      requires Valid() && k < |timers|
      modifies this`rooms, this`timers
      ensures Valid()
      ensures var id := old(timers)[k].id;
              id in old(rooms) ==>
                rooms == if old(rooms)[id].members.ids == map[] then old(rooms) - {id} else old(rooms)
    {
      var timer := timers[k];
      PendingWithout(timers, k);
      timers := timers[..k] + timers[k + 1..];
      if |timer.room.members.ids| == 0 {
        rooms := rooms - {timer.id};
      }
    }
  }

  /** An empty room is waiting to be removed exactly when somebody has left it: one that nobody has joined
      stays. */
  lemma EmptyRoomsGo(s: RoomService, id: RoomId)
    requires s.Valid() && id in s.rooms && s.rooms[id].members.ids == map[]
    ensures s.HasTimer(id) <==> id in s.left
  {
    if s.HasTimer(id) {
      var t :| t in s.timers && t.id == id;
    }
  }
}
