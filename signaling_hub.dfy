/** `CommunicationHub`: the SignalR hub's own connection -> room and
    connection -> user maps (static, so shared by every hub instance; here the
    fields of one hub object), `JoinRoom`, `OnDisconnectedAsync`, and the
    participant list it sends to a room's group after each of them. */
module SignalingHub {
  import opened Wrappers
  import opened Collections
  import opened Text
  import opened Entities
  import Guids

  datatype HubMaps = HubMaps(roomOf: map<string, string>, userOf: map<string, string>)

  predicate SameConnections(m: HubMaps)
  {
    m.roomOf.Keys == m.userOf.Keys
  }

  /** What the hub reads from its caller's context: the NameIdentifier claim
      (null when there is no context, no user or no such claim) and the
      connection id (null when there is no context). */
  datatype CallerContext = CallerContext(userClaim: Option<string>, connectionId: Option<string>)

  /** One `{ Id, FirstName }` entry of the participant list. */
  datatype ParticipantView = ParticipantView(id: string, firstName: string)

  /** `Clients.Group(group).SendAsync(hubMethod, participants)`. */
  datatype Broadcast = Broadcast(group: string, hubMethod: string, participants: seq<ParticipantView>)

  const UpdateParticipantList: string := "UpdateParticipantList"

  /** `UserManager.FindByIdAsync`: the users the store can resolve, by id text. */
  type UserStore = map<string, User>

  /** The map writes of `JoinRoom`: nothing without a user claim; otherwise
      both maps are set for the connection id, or for "" when it is null. */
  function Join(m: HubMaps, ctx: CallerContext, roomId: string): HubMaps
  {
    if IsNullOrEmpty(ctx.userClaim) then m
    else
      var key := ctx.connectionId.GetOr("");
      HubMaps(m.roomOf[key := roomId], m.userOf[key := ctx.userClaim.value])
  }

  /** The map writes of `OnDisconnectedAsync`: both entries go, but only when
      the connection had a room entry. */
  function Disconnect(m: HubMaps, c: string): HubMaps
  {
    if c in m.roomOf then HubMaps(m.roomOf - {c}, m.userOf - {c}) else m
  }

  /** The room `OnDisconnectedAsync` broadcasts to, if any. */
  function FormerRoom(m: HubMaps, c: string): Option<string>
  {
    if c in m.roomOf then Some(m.roomOf[c]) else None
  }

  /** User ids of the connections among `keys` whose room entry is `roomId`. */
  function UserIdsAmong(m: HubMaps, keys: set<string>, roomId: string): set<string>
  {
    set c | c in keys && c in m.userOf && c in m.roomOf && m.roomOf[c] == roomId :: m.userOf[c]
  }

  /** The users in a room, as the participant computation selects them. */
  function RoomUserIds(m: HubMaps, roomId: string): set<string>
  {
    UserIdsAmong(m, m.userOf.Keys, roomId)
  }

  function View(u: User): ParticipantView
  {
    ParticipantView(Guids.ToString(u.id), u.firstName)
  }

  /** The entries the `foreach` appends: one per id the store resolves, in
      order; unresolved ids are skipped. */
  function Resolved(ids: seq<string>, users: UserStore): seq<ParticipantView>
    decreases |ids|
  {
    if ids == [] then []
    else
      var last := ids[|ids| - 1];
      Resolved(ids[..|ids| - 1], users) + (if last in users then [View(users[last])] else [])
  }

  /** `ps` is what the hub broadcasts for the user set `roomUsers`: the
      resolved entries of some duplicate-free enumeration of that set. */
  ghost predicate ParticipantListOf(ps: seq<ParticipantView>, roomUsers: set<string>, users: UserStore)
  {
    exists ids :: NoDuplicates(ids) && (forall u :: u in ids <==> u in roomUsers)
                  && ps == Resolved(ids, users)
  }

  ghost predicate IsParticipantUpdate(b: Broadcast, m: HubMaps, roomId: string, users: UserStore)
  {
    b.group == roomId && b.hubMethod == UpdateParticipantList
    && ParticipantListOf(b.participants, RoomUserIds(m, roomId), users)
  }

  /** A sequence of joins and disconnects. */
  datatype HubEvent = JoinEvent(ctx: CallerContext, roomId: string) | DisconnectEvent(c: string)

  function Step(m: HubMaps, e: HubEvent): HubMaps
  {
    match e
    case JoinEvent(ctx, r) => Join(m, ctx, r)
    case DisconnectEvent(c) => Disconnect(m, c)
  }

  function Replay(m: HubMaps, events: seq<HubEvent>): HubMaps
    decreases |events|
  {
    if events == [] then m else Replay(Step(m, events[0]), events[1..])
  }

  // ---------------------------------------------------------------------------
  // Properties

  /** A join without a user claim changes neither map. */
  lemma JoinWithoutClaimKeepsMaps(m: HubMaps, ctx: CallerContext, roomId: string)
    requires IsNullOrEmpty(ctx.userClaim)
    ensures Join(m, ctx, roomId) == m
  {
  }

  /** A join sets both maps for the connection (key "" for a null id), and a
      later join of the same connection to another room overwrites the first. */
  lemma JoinOverwrites(m: HubMaps, ctx: CallerContext, r1: string, r2: string)
    requires !IsNullOrEmpty(ctx.userClaim)
    ensures var key := ctx.connectionId.GetOr("");
            var m' := Join(Join(m, ctx, r1), ctx, r2);
            key in m'.roomOf && m'.roomOf[key] == r2
            && key in m'.userOf && m'.userOf[key] == ctx.userClaim.value
  {
  }

  /** Disconnecting a connection without a room entry changes nothing and
      names no room to broadcast to. */
  lemma DisconnectUnjoined(m: HubMaps, c: string)
    requires c !in m.roomOf
    ensures Disconnect(m, c) == m && FormerRoom(m, c) == None
  {
  }

  /** Disconnecting a joined connection removes it from both maps, leaves the
      other connections alone, and names its former room. */
  lemma DisconnectJoined(m: HubMaps, c: string)
    requires c in m.roomOf
    ensures var m' := Disconnect(m, c);
            c !in m'.roomOf && c !in m'.userOf && FormerRoom(m, c) == Some(m.roomOf[c])
            && (forall k :: k != c && k in m.roomOf ==> k in m'.roomOf && m'.roomOf[k] == m.roomOf[k])
            && (forall k :: k != c && k in m.userOf ==> k in m'.userOf && m'.userOf[k] == m.userOf[k])
  {
  }

  lemma StepKeepsSameConnections(m: HubMaps, e: HubEvent)
    requires SameConnections(m)
    ensures SameConnections(Step(m, e))
  {
  }

  /** The two static maps have equal key sets across any sequence of joins and
      disconnects that starts from equal key sets. */
  lemma {:induction false} ReplayKeepsSameConnections(m: HubMaps, events: seq<HubEvent>)
    requires SameConnections(m)
    ensures SameConnections(Replay(m, events))
    decreases |events|
  {
    if events != [] {
      StepKeepsSameConnections(m, events[0]);
      ReplayKeepsSameConnections(Step(m, events[0]), events[1..]);
    }
  }

  /** An entry is in the resolved list exactly when some id of the list is
      known to the store and shows as that entry. */
  lemma {:induction false} ResolvedMembers(ids: seq<string>, users: UserStore, p: ParticipantView)
    ensures p in Resolved(ids, users)
            <==> exists i :: 0 <= i < |ids| && ids[i] in users && View(users[ids[i]]) == p
    decreases |ids|
  {
    if ids != [] {
      var front := ids[..|ids| - 1];
      ResolvedMembers(front, users, p);
      if p in Resolved(ids, users) && p !in Resolved(front, users) {
        assert View(users[ids[|ids| - 1]]) == p;
      }
      if exists i :: 0 <= i < |ids| && ids[i] in users && View(users[ids[i]]) == p {
        var i :| 0 <= i < |ids| && ids[i] in users && View(users[ids[i]]) == p;
        if i < |ids| - 1 {
          assert front[i] == ids[i];
        }
      }
    }
  }

  /** A broadcast participant list holds exactly the store entries of the
      room's users; ids the store cannot resolve are skipped. */
  lemma ParticipantListMembers(ps: seq<ParticipantView>, roomUsers: set<string>, users: UserStore, p: ParticipantView)
    requires ParticipantListOf(ps, roomUsers, users)
    ensures p in ps <==> exists u :: u in roomUsers && u in users && View(users[u]) == p
  {
    var ids :| NoDuplicates(ids) && (forall u :: u in ids <==> u in roomUsers) && ps == Resolved(ids, users);
    ResolvedMembers(ids, users, p);
    if exists u :: u in roomUsers && u in users && View(users[u]) == p {
      var u :| u in roomUsers && u in users && View(users[u]) == p;
      var i :| 0 <= i < |ids| && ids[i] == u;
    }
  }

  /** The list broadcast after a successful join includes the joining user
      (when the store knows it): the maps are written before it is computed. */
  lemma JoinBroadcastListsJoiner(m: HubMaps, ctx: CallerContext, roomId: string,
                                 users: UserStore, ps: seq<ParticipantView>)
    requires !IsNullOrEmpty(ctx.userClaim) && ctx.userClaim.value in users
    requires ParticipantListOf(ps, RoomUserIds(Join(m, ctx, roomId), roomId), users)
    ensures View(users[ctx.userClaim.value]) in ps
  {
    var m' := Join(m, ctx, roomId);
    var key := ctx.connectionId.GetOr("");
    assert key in m'.userOf && key in m'.roomOf && m'.roomOf[key] == roomId;
    assert ctx.userClaim.value in RoomUserIds(m', roomId);
    ParticipantListMembers(ps, RoomUserIds(m', roomId), users, View(users[ctx.userClaim.value]));
  }

  lemma UserIdsAmongStep(m: HubMaps, keys: set<string>, c: string, roomId: string)
    ensures UserIdsAmong(m, keys + {c}, roomId)
            == UserIdsAmong(m, keys, roomId)
               + (if c in m.userOf && c in m.roomOf && m.roomOf[c] == roomId then {m.userOf[c]} else {})
  {
  }

  // ---------------------------------------------------------------------------

  class CommunicationHub {
    var connectionToRoom: map<string, string>
    var connectionToUser: map<string, string>
    /** Every group broadcast sent so far, oldest first. */
    var outbox: seq<Broadcast>

    function Current(): HubMaps
      reads this
    {
      HubMaps(connectionToRoom, connectionToUser)
    }

    predicate Valid()
      reads this
    {
      SameConnections(Current())
    }

    constructor ()
      ensures Valid() && Current() == HubMaps(map[], map[]) && outbox == []
    {
      connectionToRoom, connectionToUser, outbox := map[], map[], [];
    }

    method JoinRoom(ctx: CallerContext, roomId: string, users: UserStore)
      requires Valid()
      modifies this
      ensures Valid()
      ensures Current() == Join(old(Current()), ctx, roomId)
      ensures IsNullOrEmpty(ctx.userClaim) ==> outbox == old(outbox)
      ensures !IsNullOrEmpty(ctx.userClaim) ==>
                |outbox| == |old(outbox)| + 1 && outbox[..|old(outbox)|] == old(outbox)
                && IsParticipantUpdate(outbox[|old(outbox)|], Current(), roomId, users)
    {
      if IsNullOrEmpty(ctx.userClaim) {
        return;
      }
      var connectionId := ctx.connectionId;
      connectionToRoom := connectionToRoom[connectionId.GetOr("") := roomId];
      connectionToUser := connectionToUser[connectionId.GetOr("") := ctx.userClaim.value];
      UpdateAndBroadcastParticipantList(roomId, users);
    }

    method OnDisconnected(connectionId: string, users: UserStore)
      requires Valid()
      modifies this
      ensures Valid()
      ensures Current() == Disconnect(old(Current()), connectionId)
      ensures FormerRoom(old(Current()), connectionId).None? ==> outbox == old(outbox)
      ensures FormerRoom(old(Current()), connectionId).Some? ==>
                |outbox| == |old(outbox)| + 1 && outbox[..|old(outbox)|] == old(outbox)
                && IsParticipantUpdate(outbox[|old(outbox)|], Current(),
                                       FormerRoom(old(Current()), connectionId).value, users)
    {
      if connectionId in connectionToRoom {
        var roomId := connectionToRoom[connectionId];
        connectionToRoom := connectionToRoom - {connectionId};
        connectionToUser := connectionToUser - {connectionId};
        UpdateAndBroadcastParticipantList(roomId, users);
      }
    }

    method UpdateAndBroadcastParticipantList(roomId: string, users: UserStore)
      modifies this`outbox
      ensures |outbox| == |old(outbox)| + 1 && outbox[..|old(outbox)|] == old(outbox)
      ensures IsParticipantUpdate(outbox[|old(outbox)|], Current(), roomId, users)
    {
      var userIdsInRoom := UserIdsInRoom(roomId);
      var participants := Participants(userIdsInRoom, users);
      outbox := outbox + [Broadcast(roomId, UpdateParticipantList, participants)];
      assert outbox[|old(outbox)|].participants == Resolved(userIdsInRoom, users);
    }

    /** The LINQ query: distinct user ids of the connections whose room entry
        is `roomId`, in dictionary enumeration order (left unspecified). */
    method UserIdsInRoom(roomId: string) returns (ids: seq<string>)
      ensures NoDuplicates(ids)
      ensures forall u :: u in ids <==> u in RoomUserIds(Current(), roomId)
    {
      var pending := connectionToUser.Keys;
      ids := [];
      while pending != {}
        invariant pending <= connectionToUser.Keys
        invariant NoDuplicates(ids)
        invariant forall u :: u in ids <==> u in UserIdsAmong(Current(), connectionToUser.Keys - pending, roomId)
        decreases pending
      {
        var c :| c in pending;
        UserIdsAmongStep(Current(), connectionToUser.Keys - pending, c, roomId);
        if c in connectionToRoom && connectionToRoom[c] == roomId {
          var u := connectionToUser[c];
          if u !in ids {
            ids := ids + [u];
          }
        }
        assert connectionToUser.Keys - (pending - {c}) == (connectionToUser.Keys - pending) + {c};
        pending := pending - {c};
      }
    }

    /** The `foreach` over the ids: look each user up and append an entry for
        every one the store resolves. */
    method Participants(ids: seq<string>, users: UserStore) returns (ps: seq<ParticipantView>)
      ensures ps == Resolved(ids, users)
    {
      ps := [];
      for i := 0 to |ids|
        invariant ps == Resolved(ids[..i], users)
      {
        assert ids[..i + 1][..i] == ids[..i];
        if ids[i] in users {
          ps := ps + [View(users[ids[i]])];
        }
      }
      assert ids[..|ids|] == ids;
    }
  }
}
