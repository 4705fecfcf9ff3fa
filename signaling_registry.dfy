/** `InMemoryConnectionManager`: the process-local registry that maps live
    connection ids to rooms and users, and users back to "their" connection. */
module SignalingRegistry {
  import opened Wrappers
  import opened Collections
  import Guids

  /** The three dictionaries: connection -> room text, connection -> user,
      user -> connection. */
  datatype Tables = Tables(roomOf: map<string, string>,
                           userOf: map<string, string>,
                           connectionOf: map<string, string>)

  const Empty: Tables := Tables(map[], map[], map[])

  /** `TryGetValue` on a dictionary: the value, or null. */
  function Lookup(m: map<string, string>, k: string): Option<string>
  {
    if k in m then Some(m[k]) else None
  }

  /** The two connection-keyed maps have the same keys. */
  predicate SameConnections(t: Tables)
  {
    t.roomOf.Keys == t.userOf.Keys
  }

  /** Every user-index entry names a live connection of that same user. */
  predicate IndexCoherent(t: Tables)
  {
    forall u :: u in t.connectionOf ==>
      t.connectionOf[u] in t.userOf && t.userOf[t.connectionOf[u]] == u
  }

  /** `c` is registered in the room whose id is `roomId`. */
  predicate InRoom(t: Tables, c: string, roomId: Guids.Guid)
  {
    c in t.roomOf && t.roomOf[c] == Guids.ToString(roomId)
  }

  /** `AddConnection`: all three entries are overwritten. */
  function Add(t: Tables, c: string, u: string, roomId: Guids.Guid): Tables
  {
    Tables(t.roomOf[c := Guids.ToString(roomId)], t.userOf[c := u], t.connectionOf[u := c])
  }

  /** The tables after `RemoveConnection`, with the (user, room) it reports. */
  datatype Removal = Removal(after: Tables, userId: Option<string>, roomId: Option<string>)

  /** `RemoveConnection`: the room entry and the user entry of `c` go; the
      user's index entry goes only if it still names `c`. */
  function Remove(t: Tables, c: string): Removal
  {
    var roomOf := t.roomOf - {c};
    if c in t.userOf then
      var u := t.userOf[c];
      var connectionOf := if u in t.connectionOf && t.connectionOf[u] == c
                          then t.connectionOf - {u} else t.connectionOf;
      Removal(Tables(roomOf, t.userOf - {c}, connectionOf), Some(u), Lookup(t.roomOf, c))
    else
      Removal(Tables(roomOf, t.userOf, t.connectionOf), None, Lookup(t.roomOf, c))
  }

  /** Users of the connections among `keys` that sit in room text `room`,
      other than `exclude`, skipping connections without a user entry. */
  function UsersAmong(t: Tables, keys: set<string>, room: string, exclude: Option<string>): set<string>
  {
    set c | c in keys && c in t.roomOf && t.roomOf[c] == room && Some(c) != exclude
            && c in t.userOf :: t.userOf[c]
  }

  /** `GetUsersInRoomAsync` as a set. */
  function UsersInRoom(t: Tables, roomId: Guids.Guid, exclude: Option<string>): set<string>
  {
    UsersAmong(t, t.roomOf.Keys, Guids.ToString(roomId), exclude)
  }

  /** A sequence of registry calls. */
  datatype Op = AddOp(c: string, u: string, roomId: Guids.Guid) | RemoveOp(c: string)

  function Apply(t: Tables, op: Op): Tables
  {
    match op
    case AddOp(c, u, r) => Add(t, c, u, r)
    case RemoveOp(c) => Remove(t, c).after
  }

  function Run(t: Tables, ops: seq<Op>): Tables
    decreases |ops|
  {
    if ops == [] then t else Run(Apply(t, ops[0]), ops[1..])
  }

  // ---------------------------------------------------------------------------
  // Properties of AddConnection

  /** After `AddConnection(c, u, r)` the connection's room is `r`'s text, its
      user is `u`, and `u` resolves to `c`. */
  lemma AddRegisters(t: Tables, c: string, u: string, roomId: Guids.Guid)
    ensures var t' := Add(t, c, u, roomId);
            Lookup(t'.roomOf, c) == Some(Guids.ToString(roomId))
            && Lookup(t'.userOf, c) == Some(u)
            && Lookup(t'.connectionOf, u) == Some(c)
  {
  }

  /** Last join wins: a later join of the same user from another connection
      takes over the user's index entry. */
  lemma LastJoinWins(t: Tables, c1: string, c2: string, u: string, r1: Guids.Guid, r2: Guids.Guid)
    ensures Lookup(Add(Add(t, c1, u, r1), c2, u, r2).connectionOf, u) == Some(c2)
  {
  }

  /** `AddConnection(c, ...)` leaves every other connection and every other
      user as they were. */
  lemma AddKeepsOthers(t: Tables, c: string, u: string, roomId: Guids.Guid)
    ensures var t' := Add(t, c, u, roomId);
            (forall k :: k != c ==>
               Lookup(t'.roomOf, k) == Lookup(t.roomOf, k) && Lookup(t'.userOf, k) == Lookup(t.userOf, k))
            && (forall v :: v != u ==> Lookup(t'.connectionOf, v) == Lookup(t.connectionOf, v))
  {
  }

  /** A connection is listed in a room exactly when it was last added to that
      room: room ids are compared through their text, which no two Guids share. */
  lemma AddPlacesInOneRoom(t: Tables, c: string, u: string, joined: Guids.Guid, asked: Guids.Guid)
    ensures InRoom(Add(t, c, u, joined), c, asked) <==> joined == asked
  {
    Guids.ToStringInjective(joined, asked);
  }

  /** The joining user is among the users of its room seen by anyone but the
      joining connection itself. */
  lemma AddListsUser(t: Tables, c: string, u: string, roomId: Guids.Guid, exclude: Option<string>)
    requires exclude != Some(c)
    ensures u in UsersInRoom(Add(t, c, u, roomId), roomId, exclude)
  {
    var t' := Add(t, c, u, roomId);
    assert c in t'.roomOf && t'.roomOf[c] == Guids.ToString(roomId) && c in t'.userOf;
  }

  lemma AddKeepsSameConnections(t: Tables, c: string, u: string, roomId: Guids.Guid)
    requires SameConnections(t)
    ensures SameConnections(Add(t, c, u, roomId))
  {
  }

  /** The user index stays coherent when a connection is added for a new
      connection id or re-added for the user that already owns it. */
  lemma AddKeepsIndexCoherent(t: Tables, c: string, u: string, roomId: Guids.Guid)
    requires IndexCoherent(t)
    requires c !in t.userOf || t.userOf[c] == u
    ensures IndexCoherent(Add(t, c, u, roomId))
  {
    var t' := Add(t, c, u, roomId);
    forall v | v in t'.connectionOf
      ensures t'.connectionOf[v] in t'.userOf && t'.userOf[t'.connectionOf[v]] == v
    {
      if v != u {
        assert t.connectionOf[v] != c;
      }
    }
  }

  /** Stale entry: when a connection id changes owner, the first owner's index
      entry keeps naming it, and removing the connection leaves that entry
      behind, pointing at a connection that no longer exists. */
  lemma StaleIndexAfterOwnerChange(roomId: Guids.Guid)
    ensures var t := Add(Add(Empty, "c", "alice", roomId), "c", "bob", roomId);
            var t' := Remove(t, "c").after;
            !IndexCoherent(t)
            && Lookup(t'.connectionOf, "alice") == Some("c")
            && "c" !in t'.userOf && "c" !in t'.roomOf
  {
    var t := Add(Add(Empty, "c", "alice", roomId), "c", "bob", roomId);
    assert t.connectionOf["alice"] == "c" && t.userOf["c"] == "bob";
  }

  // ---------------------------------------------------------------------------
  // Properties of RemoveConnection

  /** `RemoveConnection(c)` reports what `c` was mapped to and leaves `c` in
      neither connection map. */
  lemma RemoveReports(t: Tables, c: string)
    ensures var rm := Remove(t, c);
            rm.userId == Lookup(t.userOf, c) && rm.roomId == Lookup(t.roomOf, c)
            && c !in rm.after.roomOf && c !in rm.after.userOf
  {
  }

  /** A second `RemoveConnection(c)` reports (null, null) and changes nothing. */
  lemma RemoveIdempotent(t: Tables, c: string)
    ensures var once := Remove(t, c).after;
            Remove(once, c) == Removal(once, None, None)
  {
    var once := Remove(t, c).after;
    assert once.roomOf - {c} == once.roomOf;
  }

  /** If the user has since re-registered with another connection, removing
      the old connection does not disturb the new index entry. */
  lemma RemoveKeepsReRegistration(t: Tables, c: string, u: string)
    requires u in t.connectionOf && t.connectionOf[u] != c
    ensures Lookup(Remove(t, c).after.connectionOf, u) == Some(t.connectionOf[u])
  {
  }

  /** After removing `c`, its user no longer resolves to `c`. */
  lemma RemoveClearsOwnIndex(t: Tables, c: string)
    requires c in t.userOf
    ensures Lookup(Remove(t, c).after.connectionOf, t.userOf[c]) != Some(c)
  {
  }

  /** `RemoveConnection(c)` leaves every other connection's entries alone. */
  lemma RemoveKeepsOthers(t: Tables, c: string)
    ensures var t' := Remove(t, c).after;
            forall k :: k != c ==>
              Lookup(t'.roomOf, k) == Lookup(t.roomOf, k) && Lookup(t'.userOf, k) == Lookup(t.userOf, k)
  {
  }

  lemma RemoveKeepsSameConnections(t: Tables, c: string)
    requires SameConnections(t)
    ensures SameConnections(Remove(t, c).after)
  {
  }

  lemma RemoveKeepsIndexCoherent(t: Tables, c: string)
    requires IndexCoherent(t)
    ensures IndexCoherent(Remove(t, c).after)
  {
    var t' := Remove(t, c).after;
    forall v | v in t'.connectionOf
      ensures t'.connectionOf[v] in t'.userOf && t'.userOf[t'.connectionOf[v]] == v
    {
      assert t.userOf[t.connectionOf[v]] == v;
    }
  }

  /** The two connection-keyed maps have equal key sets after any sequence of
      adds and removes that starts from equal key sets. */
  lemma {:induction false} RunKeepsSameConnections(t: Tables, ops: seq<Op>)
    requires SameConnections(t)
    ensures SameConnections(Run(t, ops))
    decreases |ops|
  {
    if ops != [] {
      match ops[0] {
        case AddOp(c, u, r) => AddKeepsSameConnections(t, c, u, r);
        case RemoveOp(c) => RemoveKeepsSameConnections(t, c);
      }
      RunKeepsSameConnections(Apply(t, ops[0]), ops[1..]);
    }
  }

  // ---------------------------------------------------------------------------
  // Properties of GetUsersInRoom

  /** Under equal key sets the null filter drops nothing: the users in a room
      are exactly the users of its connections other than the excluded one. */
  lemma UsersInRoomExactly(t: Tables, roomId: Guids.Guid, exclude: Option<string>, u: string)
    requires SameConnections(t)
    ensures u in UsersInRoom(t, roomId, exclude)
            <==> exists c :: InRoom(t, c, roomId) && Some(c) != exclude && t.userOf[c] == u
  {
  }

  lemma UsersAmongStep(t: Tables, keys: set<string>, c: string, room: string, exclude: Option<string>)
    ensures UsersAmong(t, keys + {c}, room, exclude)
            == UsersAmong(t, keys, room, exclude)
               + (if c in t.roomOf && t.roomOf[c] == room && Some(c) != exclude && c in t.userOf
                  then {t.userOf[c]} else {})
  {
  }

  // ---------------------------------------------------------------------------

  class InMemoryConnectionManager {
    var connectionToRoom: map<string, string>
    var connectionToUser: map<string, string>
    var userToConnection: map<string, string>

    /** The abstract value: the three maps. */
    function Current(): Tables
      reads this
    {
      Tables(connectionToRoom, connectionToUser, userToConnection)
    }

    predicate Valid()
      reads this
    {
      SameConnections(Current())
    }

    constructor ()
      ensures Valid() && Current() == Empty
    {
      connectionToRoom, connectionToUser, userToConnection := map[], map[], map[];
    }

    method AddConnection(connectionId: string, userId: string, roomId: Guids.Guid)
      requires Valid()
      modifies this
      ensures Valid()
      ensures Current() == Add(old(Current()), connectionId, userId, roomId)
    {
      var roomIdStr := Guids.ToString(roomId);
      connectionToUser := connectionToUser[connectionId := userId];
      connectionToRoom := connectionToRoom[connectionId := roomIdStr];
      userToConnection := userToConnection[userId := connectionId];
    }

    /** Three separate map operations, in the source's order. */
    method RemoveConnection(connectionId: string) returns (userId: Option<string>, roomId: Option<string>)
      requires Valid()
      modifies this
      ensures Valid()
      ensures Removal(Current(), userId, roomId) == Remove(old(Current()), connectionId)
    {
      roomId := Lookup(connectionToRoom, connectionId);
      connectionToRoom := connectionToRoom - {connectionId};
      if connectionId in connectionToUser {
        var u := connectionToUser[connectionId];
        connectionToUser := connectionToUser - {connectionId};
        userId := Some(u);
        if u in userToConnection && userToConnection[u] == connectionId {
          userToConnection := userToConnection - {u};
        }
      } else {
        userId := None;
      }
    }

    method GetConnectionId(userId: string) returns (connectionId: Option<string>)
      ensures connectionId.Some? <==> userId in userToConnection
      ensures connectionId.Some? ==> connectionId.value == userToConnection[userId]
    {
      connectionId := Lookup(userToConnection, userId);
    }

    /** The distinct users of the connections in the room, in dictionary
        enumeration order (left unspecified: any order can be chosen). */
    method GetUsersInRoom(roomId: Guids.Guid, excludeConnectionId: Option<string>) returns (users: seq<string>)
      ensures NoDuplicates(users)
      ensures forall u :: u in users <==> u in UsersInRoom(Current(), roomId, excludeConnectionId)
    {
      var roomIdStr := Guids.ToString(roomId);
      var pending := connectionToRoom.Keys;
      users := [];
      while pending != {}
        invariant pending <= connectionToRoom.Keys
        invariant NoDuplicates(users)
        invariant forall u :: u in users <==>
          u in UsersAmong(Current(), connectionToRoom.Keys - pending, roomIdStr, excludeConnectionId)
        decreases pending
      {
        var c :| c in pending;
        UsersAmongStep(Current(), connectionToRoom.Keys - pending, c, roomIdStr, excludeConnectionId);
        if connectionToRoom[c] == roomIdStr && Some(c) != excludeConnectionId && c in connectionToUser {
          var u := connectionToUser[c];
          if u !in users {
            users := users + [u];
          }
        }
        assert connectionToRoom.Keys - (pending - {c}) == (connectionToRoom.Keys - pending) + {c};
        pending := pending - {c};
      }
    }

    method GetRoomForConnection(connectionId: string) returns (roomId: Option<string>)
      ensures roomId.Some? <==> connectionId in connectionToRoom
      ensures roomId.Some? ==> roomId.value == connectionToRoom[connectionId]
    {
      roomId := Lookup(connectionToRoom, connectionId);
    }
  }
}
