/** `ConnectionMapping<T>`: a lock-guarded connection -> room dictionary. The
    lock only serialises calls; calls are modelled one at a time. */
module SignalingHelpers {
  import opened Wrappers

  class ConnectionMapping<T> {
    var connectionToRoom: map<string, T>

    constructor ()
      ensures connectionToRoom == map[]
    {
      connectionToRoom := map[];
    }

    /** `Add`: sets (or overwrites) the room of `connectionId`. */
    method Add(connectionId: string, roomId: T)
      modifies this
      ensures connectionToRoom == old(connectionToRoom)[connectionId := roomId]
      ensures forall c :: c != connectionId ==>
                (c in connectionToRoom <==> c in old(connectionToRoom))
                && (c in connectionToRoom ==> connectionToRoom[c] == old(connectionToRoom)[c])
    {
      connectionToRoom := connectionToRoom[connectionId := roomId];
    }

    /** `TryGetRoom`: the boolean result, and the out value (null when not found). */
    method TryGetRoom(connectionId: string) returns (found: bool, roomId: Option<T>)
      ensures found <==> connectionId in connectionToRoom
      ensures found ==> roomId == Some(connectionToRoom[connectionId])
      ensures !found ==> roomId == None
    {
      found := connectionId in connectionToRoom;
      roomId := if found then Some(connectionToRoom[connectionId]) else None;
    }

    /** `Remove`: drops `connectionId`; a no-op when it is absent. */
    method Remove(connectionId: string)
      modifies this
      ensures connectionToRoom == old(connectionToRoom) - {connectionId}
      ensures connectionId !in old(connectionToRoom) ==> connectionToRoom == old(connectionToRoom)
      ensures forall c :: c != connectionId ==>
                (c in connectionToRoom <==> c in old(connectionToRoom))
                && (c in connectionToRoom ==> connectionToRoom[c] == old(connectionToRoom)[c])
    {
      connectionToRoom := connectionToRoom - {connectionId};
    }
  }

  /** What a caller of the class can rely on: an added room is found, a second
      add overwrites it, another connection's entry is untouched, and after a
      remove nothing is found. */
  method AddLookupRemove<T(==)>(m: ConnectionMapping<T>, c: string, other: string, r1: T, r2: T)
    returns (first: Option<T>, second: Option<T>, afterRemove: bool, otherKept: bool)
    requires c != other
    modifies m
    ensures first == Some(r1) && second == Some(r2) && !afterRemove && otherKept
  {
    var before := m.connectionToRoom;
    var found: bool;
    m.Add(c, r1);
    found, first := m.TryGetRoom(c);
    m.Add(c, r2);
    found, second := m.TryGetRoom(c);
    m.Remove(c);
    var gone: Option<T>;
    afterRemove, gone := m.TryGetRoom(c);
    otherKept := (other in m.connectionToRoom) == (other in before)
                 && (other in before ==> m.connectionToRoom[other] == before[other]);
  }
}
