/** The persisted records the core reads and writes (`Room`, `User`,
    `Message`), and the lookup of a row by its primary key. */
module Entities {
  import opened Wrappers
  import opened Guids

  /** `DateTime`: a count of 100-nanosecond ticks. Only order and the time of
      day are used. */
  datatype Instant = Instant(ticks: nat)

  const TicksPerSecond: nat := 10_000_000

  /** `Identity` user with the profile fields the core reads. */
  datatype User = User(id: Guid, userName: Option<string>, email: Option<string>,
                       firstName: string, middleName: string, lastName: string)

  datatype Room = Room(id: Guid, name: string, createdAt: Instant,
                       expiresAt: Option<Instant>, isActive: bool, summary: Option<string>)

  /** A chat message together with its `Include`d sender. */
  datatype Message = Message(id: Guid, roomId: Guid, senderId: Guid, content: string,
                             sentAt: Instant, sender: User)

  /** Position of the first room whose key is `id` (`FirstOrDefault`/`FindAsync`). */
  function RoomIndex(rooms: seq<Room>, id: Guid): (r: Option<nat>)
    ensures r.Some? ==> r.value < |rooms| && rooms[r.value].id == id
                        && forall j :: 0 <= j < r.value ==> rooms[j].id != id
    ensures r.None? <==> forall j :: 0 <= j < |rooms| ==> rooms[j].id != id
  {
    if rooms == [] then None
    else if rooms[0].id == id then Some(0)
    else
      match RoomIndex(rooms[1..], id)
      case None => None
      case Some(k) => Some(k + 1)
  }

  /** `FirstOrDefaultAsync(r => r.Id == id)`. */
  function FindRoom(rooms: seq<Room>, id: Guid): (r: Option<Room>)
    ensures r.Some? <==> exists j :: 0 <= j < |rooms| && rooms[j].id == id
    ensures r.Some? ==> r.value in rooms && r.value.id == id
  {
    match RoomIndex(rooms, id)
    case None => None
    case Some(k) => Some(rooms[k])
  }
}
