/**
 * The in-memory registry of mock draft rooms behind the `/room` HTTP routes
 * (routes/draftRoom.js): a map from room id to the stored room, written by
 * createRoom and deleteRoom, read by getRoom, and the two request handlers
 * that guard those updates.
 *
 * JavaScript falsiness of the request fields is modelled on the values a
 * request can carry: the empty string for a missing or empty text field and
 * 0 for a missing or zero best-of count.
 */
module DraftRoom {
  import opened Wrappers

  /** ROOM_TTL: how long a room lives before its scheduled deletion (one hour, in ms). */
  const RoomTtl: int := 1000 * 60 * 60

  const MissingFieldsMessage: string := "필수 값 누락"
  const DuplicateRoomMessage: string := "이미 존재하는 방입니다"
  const CreatedMessage: string := "방 생성 완료"
  const NotFoundMessage: string := "Room not found"

  /** The body of `POST /`; `hostKey` is read but never stored. */
  datatype PostBody = PostBody(
    roomId: string, blueTeam: string, redTeam: string, bo: int, mode: string, hostKey: string)

  /** The series summary a room may carry; GET substitutes a default one. */
  datatype SeriesSummary = SeriesSummary(blueWins: int, redWins: int, currentGame: int)

  /**
   * A stored room: the fields handed to createRoom plus `createdAt`.
   * `picked`, `turnIdx` and `series` are fields GET looks for; POST never sets them.
   */
  datatype StoredRoom = StoredRoom(
    blueTeam: string, redTeam: string, bo: int, mode: string,
    blueReady: bool, redReady: bool, draftStarted: bool, hostId: Option<string>,
    picked: Option<seq<string>>, turnIdx: Option<int>, series: Option<SeriesSummary>,
    createdAt: int)

  /** The fields POST hands to createRoom (everything but `createdAt`). */
  datatype RoomData = RoomData(
    blueTeam: string, redTeam: string, bo: int, mode: string,
    blueReady: bool, redReady: bool, draftStarted: bool, hostId: Option<string>)

  /** The JSON a GET answers with: the stored fields, with the three defaults filled in. */
  datatype RoomView = RoomView(
    blueTeam: string, redTeam: string, bo: int, mode: string,
    blueReady: bool, redReady: bool, draftStarted: bool, hostId: Option<string>,
    createdAt: int, picked: seq<string>, turnIdx: int, series: SeriesSummary)

  datatype PostResponse = PostResponse(status: int, message: string)

  datatype GetResponse = NotFound(status: int, error: string) | Found(room: RoomView)

  const DefaultSeries: SeriesSummary := SeriesSummary(0, 0, 1)

  /** One of the required fields (roomId, blueTeam, redTeam, bo, mode) is falsy. */
  predicate MissingField(body: PostBody) {
    body.roomId == "" || body.blueTeam == "" || body.redTeam == "" || body.bo == 0 || body.mode == ""
  }

  /** The record a successful POST stores for `body`, created at time `now`. */
  function Stored(data: RoomData, now: int): (r: StoredRoom)
    ensures r.picked.None? && r.turnIdx.None? && r.series.None?
    ensures r.createdAt == now
  {
    StoredRoom(data.blueTeam, data.redTeam, data.bo, data.mode,
               data.blueReady, data.redReady, data.draftStarted, data.hostId,
               None, None, None, now)
  }

  /** The fields the POST handler passes to createRoom. */
  function NewRoomData(body: PostBody): (d: RoomData)
    ensures d.blueTeam == body.blueTeam && d.redTeam == body.redTeam
    ensures d.bo == body.bo && d.mode == body.mode
    ensures !d.blueReady && !d.redReady && !d.draftStarted && d.hostId == None
  {
    RoomData(body.blueTeam, body.redTeam, body.bo, body.mode, false, false, false, None)
  }

  /** The GET answer for a stored room: picked defaults to none, turnIdx to 0, series to 0 wins each in game 1. */
  function View(room: StoredRoom): (v: RoomView)
    ensures v.picked == (if room.picked.Some? then room.picked.value else [])
    ensures v.turnIdx == (if room.turnIdx.Some? then room.turnIdx.value else 0)
    ensures room.series.None? ==> v.series == SeriesSummary(0, 0, 1)
    ensures room.series.Some? ==> v.series == room.series.value
    ensures v.blueTeam == room.blueTeam && v.redTeam == room.redTeam && v.bo == room.bo
    ensures v.mode == room.mode && v.createdAt == room.createdAt && v.hostId == room.hostId
    ensures v.blueReady == room.blueReady && v.redReady == room.redReady
    ensures v.draftStarted == room.draftStarted
  {
    RoomView(room.blueTeam, room.redTeam, room.bo, room.mode,
             room.blueReady, room.redReady, room.draftStarted, room.hostId,
             room.createdAt, room.picked.GetOr([]), room.turnIdx.GetOr(0),
             room.series.GetOr(DefaultSeries))
  }

  /** A room created by POST is answered by GET with every default in place. */
  lemma PostedRoomView(body: PostBody, now: int)
    ensures View(Stored(NewRoomData(body), now)) ==
      RoomView(body.blueTeam, body.redTeam, body.bo, body.mode, false, false, false, None,
               now, [], 0, SeriesSummary(0, 0, 1))
  {
  }

  /** The module-level `draftRooms` object. */
  class Registry {
    var draftRooms: map<string, StoredRoom>

    constructor ()
      ensures draftRooms == map[]
    {
      draftRooms := map[];
    }

    /** getRoom: the stored room, or `undefined`. */
    function GetRoom(roomId: string): (r: Option<StoredRoom>)
      reads this
      ensures r.Some? <==> roomId in draftRooms
      ensures r.Some? ==> r.value == draftRooms[roomId]
    {
      if roomId in draftRooms then Some(draftRooms[roomId]) else None
    }

    /**
     * createRoom: store `data` with `createdAt` under `roomId`, overwriting any
     * room already there. Its deletion timer is scheduled separately (ExpireRoom).
     */
    method CreateRoom(roomId: string, data: RoomData, now: int)
      modifies this
      ensures draftRooms == old(draftRooms)[roomId := Stored(data, now)]
      ensures GetRoom(roomId) == Some(Stored(data, now))
      ensures HandleGet(roomId) == Found(View(Stored(data, now)))
      ensures forall other :: other != roomId ==> GetRoom(other) == old(GetRoom(other))
    {
      draftRooms := draftRooms[roomId := Stored(data, now)];
    }

    /** deleteRoom: remove `roomId`, and nothing else. */
    method DeleteRoom(roomId: string)
      modifies this
      ensures draftRooms == old(draftRooms) - {roomId}
      ensures GetRoom(roomId) == None
      ensures HandleGet(roomId) == NotFound(404, NotFoundMessage)
      ensures forall other :: other != roomId ==> GetRoom(other) == old(GetRoom(other))
    {
      draftRooms := draftRooms - {roomId};
    }

    /**
     * The callback scheduleRoomDeletion arms for RoomTtl: delete the room
     * only if it is still present.
     */
    method ExpireRoom(roomId: string)
      modifies this
      ensures roomId !in old(draftRooms) ==> draftRooms == old(draftRooms)
      ensures roomId in old(draftRooms) ==> draftRooms == old(draftRooms) - {roomId}
    {
      if GetRoom(roomId).Some? {
        DeleteRoom(roomId);
      }
    }

    /** `POST /`: validate, refuse duplicates, then create the room. */
    method HandlePost(body: PostBody, now: int) returns (response: PostResponse)
      modifies this
      ensures MissingField(body) ==>
        response == PostResponse(400, MissingFieldsMessage) && draftRooms == old(draftRooms)
      ensures !MissingField(body) && body.roomId in old(draftRooms) ==>
        response == PostResponse(409, DuplicateRoomMessage) && draftRooms == old(draftRooms)
      ensures !MissingField(body) && body.roomId !in old(draftRooms) ==>
        response == PostResponse(201, CreatedMessage) &&
        draftRooms == old(draftRooms)[body.roomId := Stored(NewRoomData(body), now)]
      ensures response.status == 201 ==>
        var room := draftRooms[body.roomId];
        room.blueTeam == body.blueTeam && room.redTeam == body.redTeam && room.bo == body.bo &&
        room.mode == body.mode && !room.blueReady && !room.redReady && !room.draftStarted &&
        room.hostId == None
      ensures response.status == 201 ==>
        HandleGet(body.roomId) ==
          Found(RoomView(body.blueTeam, body.redTeam, body.bo, body.mode, false, false, false, None,
                         now, [], 0, SeriesSummary(0, 0, 1)))
    {
      if MissingField(body) {
        return PostResponse(400, MissingFieldsMessage);
      }
      if GetRoom(body.roomId).Some? {
        return PostResponse(409, DuplicateRoomMessage);
      }
      CreateRoom(body.roomId, NewRoomData(body), now);
      PostedRoomView(body, now);
      response := PostResponse(201, CreatedMessage);
    }

    /** `GET /:roomId`: 404 for an absent room, otherwise the room with its defaults. */
    function HandleGet(roomId: string): (r: GetResponse)
      reads this
      ensures r.NotFound? <==> roomId !in draftRooms
      ensures r.NotFound? ==> r.status == 404 && r.error == NotFoundMessage
      ensures r.Found? ==> r.room == View(draftRooms[roomId])
    {
      match GetRoom(roomId)
      case None => NotFound(404, NotFoundMessage)
      case Some(room) => Found(View(room))
    }
  }
}
