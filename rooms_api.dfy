/** `RoomsController`: listing rooms, fetching one by id, and creating a room
    whose name no existing room has, ignoring case. The Rooms table is a
    sequence of rows. */
module RoomsApi {
  import opened Wrappers
  import opened Text
  import opened Entities
  import opened Mvc
  import Guids

  datatype CreateRoomDto = CreateRoomDto(name: string, expiresAt: Option<Instant>)

  const RoomInUse: ModelError := ModelError("Room", "Room is already in use.")
  const RoomMissing: ModelError := ModelError("Room", "Room not found.")

  /** Some room's name equals `name` ignoring case. */
  predicate NameTaken(rooms: seq<Room>, name: string)
  {
    exists i :: 0 <= i < |rooms| && EqualsIgnoringCase(rooms[i].name, name)
  }

  /** No two rooms have names that are equal ignoring case. */
  predicate NamesDistinctIgnoringCase(rooms: seq<Room>)
  {
    forall i, j :: 0 <= i < j < |rooms| ==> !EqualsIgnoringCase(rooms[i].name, rooms[j].name)
  }

  /** No two rooms share a key. */
  predicate IdsDistinct(rooms: seq<Room>)
  {
    forall i, j :: 0 <= i < j < |rooms| ==> rooms[i].id != rooms[j].id
  }

  /** The row `CreateRoom` inserts; the key comes from the database, and
      `IsActive` and `Summary` keep their defaults. */
  function NewRoom(dto: CreateRoomDto, id: Guids.Guid, now: Instant): Room
  {
    Room(id, dto.name, now, dto.expiresAt, false, None)
  }

  /** The Rooms table after `CreateRoom`. */
  function Create(rooms: seq<Room>, dto: CreateRoomDto, id: Guids.Guid, now: Instant): seq<Room>
  {
    if NameTaken(rooms, dto.name) then rooms else rooms + [NewRoom(dto, id, now)]
  }

  /** One `CreateRoom` call: the request body, the key the database assigns
      and the clock reading. */
  datatype CreateRequest = CreateRequest(dto: CreateRoomDto, id: Guids.Guid, now: Instant)

  function CreateAll(rooms: seq<Room>, requests: seq<CreateRequest>): seq<Room>
    decreases |requests|
  {
    if requests == [] then rooms
    else
      var q := requests[0];
      CreateAll(Create(rooms, q.dto, q.id, q.now), requests[1..])
  }

  // ---------------------------------------------------------------------------
  // Properties

  /** A name equal to an existing one ignoring case is rejected and nothing
      is added. */
  lemma CreateRejectsTakenName(rooms: seq<Room>, dto: CreateRoomDto, id: Guids.Guid, now: Instant, i: nat)
    requires i < |rooms| && ToLower(rooms[i].name) == ToLower(dto.name)
    ensures Create(rooms, dto, id, now) == rooms
  {
  }

  /** Otherwise exactly one room is appended, with the request's name and
      expiry, and the existing rooms are left as they were. */
  lemma CreateAppendsOne(rooms: seq<Room>, dto: CreateRoomDto, id: Guids.Guid, now: Instant)
    requires !NameTaken(rooms, dto.name)
    ensures var rooms' := Create(rooms, dto, id, now);
            |rooms'| == |rooms| + 1 && rooms'[..|rooms|] == rooms
            && rooms'[|rooms|].name == dto.name && rooms'[|rooms|].expiresAt == dto.expiresAt
  {
  }

  lemma CreateKeepsNamesDistinct(rooms: seq<Room>, dto: CreateRoomDto, id: Guids.Guid, now: Instant)
    requires NamesDistinctIgnoringCase(rooms)
    ensures NamesDistinctIgnoringCase(Create(rooms, dto, id, now))
  {
  }

  /** Rooms created only through `CreateRoom`, one call at a time, never
      have two names equal ignoring case. */
  lemma {:induction false} CreateAllKeepsNamesDistinct(rooms: seq<Room>, requests: seq<CreateRequest>)
    requires NamesDistinctIgnoringCase(rooms)
    ensures NamesDistinctIgnoringCase(CreateAll(rooms, requests))
    decreases |requests|
  {
    if requests != [] {
      var q := requests[0];
      CreateKeepsNamesDistinct(rooms, q.dto, q.id, q.now);
      CreateAllKeepsNamesDistinct(Create(rooms, q.dto, q.id, q.now), requests[1..]);
    }
  }

  // ---------------------------------------------------------------------------

  class RoomsController {
    /** The Rooms table reached through the database context. */
    var rooms: seq<Room>

    constructor (rooms: seq<Room>)
      ensures this.rooms == rooms
    {
      this.rooms := rooms;
    }

    /** `GetRooms`: every room, or a validation problem when there is none. */
    function GetRooms(): (r: ActionResult<seq<Room>>)
      reads this
      ensures r.Ok? <==> rooms != []
      ensures r.Ok? ==> r.value == rooms
      ensures !r.Ok? ==> r == ValidationProblem([RoomInUse])
    {
      if rooms == [] then ValidationProblem([RoomInUse]) else Ok(rooms)
    }

    /** `GetRoom`: the room with key `id`, or "Room not found.". */
    function GetRoom(id: Guids.Guid): (r: ActionResult<Room>)
      reads this
      ensures r.Ok? <==> exists i :: 0 <= i < |rooms| && rooms[i].id == id
      ensures r.Ok? ==> r.value in rooms && r.value.id == id
      ensures !r.Ok? ==> r == ValidationProblem([RoomMissing])
    {
      match FindRoom(rooms, id)
      case None => ValidationProblem([RoomMissing])
      case Some(room) => Ok(room)
    }

    method CreateRoom(dto: CreateRoomDto, newId: Guids.Guid, now: Instant) returns (r: ActionResult<Room>)
      modifies this
      ensures rooms == Create(old(rooms), dto, newId, now)
      ensures NameTaken(old(rooms), dto.name) ==> r == ValidationProblem([RoomInUse])
      ensures !NameTaken(old(rooms), dto.name) ==> r == Created(NewRoom(dto, newId, now))
      ensures NamesDistinctIgnoringCase(old(rooms)) ==> NamesDistinctIgnoringCase(rooms)
      ensures IdsDistinct(old(rooms)) && (forall i :: 0 <= i < |old(rooms)| ==> old(rooms)[i].id != newId)
              ==> IdsDistinct(rooms)
    {
      var i := 0;
      while i < |rooms| && ToLower(rooms[i].name) != ToLower(dto.name)
        invariant 0 <= i <= |rooms|
        invariant forall j :: 0 <= j < i ==> !EqualsIgnoringCase(rooms[j].name, dto.name)
      {
        i := i + 1;
      }
      if i < |rooms| {
        return ValidationProblem([RoomInUse]);
      }
      var room := NewRoom(dto, newId, now);
      rooms := rooms + [room];
      r := Created(room);
    }
  }
}
