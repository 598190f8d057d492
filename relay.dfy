/** The relay server: the Socket.IO handlers for `join_room`,
    `send_message` and `disconnect`, and the history endpoint
    `GET /api/messages/:roomId`. Room membership is a map from room id to
    the set of connected sockets; every `receive_message` emission is
    recorded in an outbox together with the sockets it reached. Each
    handler invocation is one atomic step. */
module Relay {
  import opened Wire
  import opened Store

  /** A Socket.IO socket id. */
  type ConnId = string

  /** The `send_message` payload; `None` is a property the client left out. */
  datatype SendData = SendData(
    roomId: string,
    userId: string,
    username: string,
    message: string,
    replyToMessageId: Option<string>,
    replyToMessageContent: Option<string>,
    replyToUsername: Option<string>)

  /** `v || null` on an optional string: a truthy (present, non-empty)
      string is kept, an absent or empty one becomes `null`. */
  function OrNull(v: Option<string>): (r: Option<string>)
    ensures r.None? <==> (v.None? || v.value == "")
    ensures r.Some? ==> r == v
  {
    if v == Some("") then None else v
  }

  /** `messageToSave`: the four required fields copied unchanged and without
      any check, each reply field normalised on its own. */
  function BuildRecord(data: SendData): (rec: Record)
    ensures rec.room_id == data.roomId && rec.user_id == data.userId
    ensures rec.username == data.username && rec.message == data.message
    ensures rec.reply_to_message_id.None? <==> data.replyToMessageId in {None, Some("")}
    ensures rec.reply_to_message_content.None? <==> data.replyToMessageContent in {None, Some("")}
    ensures rec.reply_to_username.None? <==> data.replyToUsername in {None, Some("")}
    ensures rec.reply_to_message_id.Some? ==> rec.reply_to_message_id == data.replyToMessageId
    ensures rec.reply_to_message_content.Some? ==> rec.reply_to_message_content == data.replyToMessageContent
    ensures rec.reply_to_username.Some? ==> rec.reply_to_username == data.replyToUsername
  {
    Record(data.roomId, data.userId, data.username, data.message,
           OrNull(data.replyToMessageId), OrNull(data.replyToMessageContent), OrNull(data.replyToUsername))
  }

  /** The payload that, sent as is, yields `rec` (each `null` left out). */
  function PayloadOf(rec: Record): SendData
  {
    SendData(rec.room_id, rec.user_id, rec.username, rec.message,
             rec.reply_to_message_id, rec.reply_to_message_content, rec.reply_to_username)
  }

  predicate NoEmptyReplyField(data: SendData)
  {
    && data.replyToMessageId != Some("")
    && data.replyToMessageContent != Some("")
    && data.replyToUsername != Some("")
  }

  /** Building the record loses nothing except an empty reply field, which
      is stored exactly like an absent one. */
  lemma BuildRecordRoundTrip(data: SendData)
    ensures PayloadOf(BuildRecord(data)) == data <==> NoEmptyReplyField(data)
  {
  }

  /** The reply triple is not kept all-or-nothing: a payload with a reply id
      and an empty reply text is stored with the id and without the text. */
  lemma PartialReplyTripleIsStored()
    ensures exists data: SendData ::
      && BuildRecord(data).reply_to_message_id.Some?
      && BuildRecord(data).reply_to_message_content.None?
      && BuildRecord(data).reply_to_username.Some?
  {
    var data := SendData("r1", "u1", "B", "me too", Some("m1"), Some(""), Some("A"));
    assert BuildRecord(data).reply_to_message_content.None?;
  }

  /** The row-to-payload mapping used both by the broadcast and by the
      history endpoint: `room_id` to `roomId`, `created_at` to `timestamp`,
      and so on, field for field. Nothing is lost: `FromWire` undoes it. */
  function ToWire(row: Row): (m: Message)
    ensures FromWire(m) == row
  {
    Message(row.id, row.room_id, row.user_id, row.username, row.message, row.created_at,
            row.reply_to_message_id, row.reply_to_message_content, row.reply_to_username)
  }

  function FromWire(m: Message): Row
  {
    Row(m.id, m.timestamp, m.roomId, m.userId, m.username, m.message,
        m.replyToMessageId, m.replyToMessageContent, m.replyToUsername)
  }

  lemma WireRoundTrip(m: Message)
    ensures ToWire(FromWire(m)) == m
  {
  }

  /** The history body: each ordered row of the room, mapped. */
  function History(rows: seq<Row>, roomId: string): (h: seq<Message>)
    ensures |h| == |Ordered(rows, roomId)|
    ensures forall i :: 0 <= i < |h| ==> h[i] == ToWire(Ordered(rows, roomId)[i])
  {
    var ordered := Ordered(rows, roomId);
    seq(|ordered|, i requires 0 <= i < |ordered| => ToWire(ordered[i]))
  }

  /** The history of a room holds the payload of each of its rows and of no
      other row, earliest `timestamp` first. */
  lemma HistoryCorrect(rows: seq<Row>, roomId: string)
    ensures forall i :: 0 <= i < |History(rows, roomId)| ==> History(rows, roomId)[i].roomId == roomId
    ensures forall i, j :: 0 <= i < j < |History(rows, roomId)| ==>
      NotAfter(History(rows, roomId)[i].timestamp, History(rows, roomId)[j].timestamp)
    ensures forall m :: m in History(rows, roomId) <==> FromWire(m) in rows && m.roomId == roomId
  {
    var ordered := Ordered(rows, roomId);
    var h := History(rows, roomId);
    OrderedCorrect(rows, roomId);
    forall i | 0 <= i < |h| ensures h[i].roomId == roomId {
      assert ordered[i] in ordered;
    }
    forall m ensures m in h <==> FromWire(m) in rows && m.roomId == roomId {
      if m in h {
        var i :| 0 <= i < |h| && h[i] == m;
        assert ordered[i] in ordered;
      }
      if FromWire(m) in rows && m.roomId == roomId {
        assert FromWire(m) in ordered;
        var i :| 0 <= i < |ordered| && ordered[i] == FromWire(m);
        assert h[i] == m;
      }
    }
  }

  /** One `io.to(room).emit('receive_message', message)`: the sockets that
      were in the room at that moment all receive `message`. */
  datatype Emission = Emission(room: string, recipients: set<ConnId>, message: Message)

  /** The sockets in room `roomId` (a room nobody joined has none). */
  function Members(rooms: map<string, set<ConnId>>, roomId: string): (s: set<ConnId>)
    ensures roomId !in rooms ==> s == {}
    ensures forall c :: c in s <==> roomId in rooms && c in rooms[roomId]
  {
    if roomId in rooms then rooms[roomId] else {}
  }

  /** The `receive_message` payloads socket `c` has been sent, in order:
      at most one per emission, and none unless some emission listed `c`. */
  function Inbox(outbox: seq<Emission>, c: ConnId): (r: seq<Message>)
    ensures |r| <= |outbox|
    ensures r == [] <==> forall i :: 0 <= i < |outbox| ==> c !in outbox[i].recipients
  {
    if outbox == [] then []
    else
      var last := outbox[|outbox| - 1];
      Inbox(outbox[..|outbox| - 1], c) + (if c in last.recipients then [last.message] else [])
  }

  /** A new emission reaches `c` exactly once when `c` is a recipient, and
      not at all otherwise; what `c` received before is kept, in order. */
  lemma InboxAppend(outbox: seq<Emission>, e: Emission, c: ConnId)
    ensures Inbox(outbox + [e], c) == Inbox(outbox, c) + (if c in e.recipients then [e.message] else [])
  {
  }

  /** `c` was sent `m` exactly when some emission with `c` among its
      recipients carried `m`. */
  lemma {:induction false} InboxMembership(outbox: seq<Emission>, c: ConnId, m: Message)
    ensures m in Inbox(outbox, c) <==> exists i :: 0 <= i < |outbox| && c in outbox[i].recipients && outbox[i].message == m
  {
    if outbox != [] {
      var init := outbox[..|outbox| - 1];
      InboxMembership(init, c, m);
      if exists i :: 0 <= i < |init| && c in init[i].recipients && init[i].message == m {
        var i :| 0 <= i < |init| && c in init[i].recipients && init[i].message == m;
        assert outbox[i] == init[i];
      }
      if exists i :: 0 <= i < |outbox| && c in outbox[i].recipients && outbox[i].message == m {
        var i :| 0 <= i < |outbox| && c in outbox[i].recipients && outbox[i].message == m;
        if i < |init| {
          assert init[i] == outbox[i];
        }
      }
    }
  }

  /** A socket that is in no room is sent nothing by a broadcast. */
  lemma NothingReachesAbsentSocket(rooms: map<string, set<ConnId>>, outbox: seq<Emission>, c: ConnId, roomId: string, m: Message)
    requires forall r :: c !in Members(rooms, r)
    ensures Inbox(outbox + [Emission(roomId, Members(rooms, roomId), m)], c) == Inbox(outbox, c)
  {
  }

  /** The generic error body of a failed history request. */
  const HistoryFailure := "メッセージの取得に失敗しました。"

  /** The reply of the history endpoint. */
  datatype HistoryResponse = Ok(body: seq<Message>) | ServerError(status: int, error: string)

  class Server {
    const store: MessageStore
    var rooms: map<string, set<ConnId>>
    var outbox: seq<Emission>

    ghost predicate Valid()
      reads this, store
    {
      store.Valid()
    }

    constructor (store: MessageStore)
      requires store.Valid()
      ensures Valid() && this.store == store
      ensures rooms == map[] && outbox == []
    {
      this.store := store;
      rooms := map[];
      outbox := [];
    }

    /** A socket connects: Socket.IO puts it into the room named after its
        own id, so a `send_message` naming that id reaches it. */
    method Connect(conn: ConnId)
      requires Valid()
      modifies this
      ensures Valid()
      ensures rooms == old(rooms)[conn := Members(old(rooms), conn) + {conn}]
      ensures forall r :: Members(rooms, r) == if r == conn then Members(old(rooms), r) + {conn} else Members(old(rooms), r)
      ensures outbox == old(outbox)
    {
      JoinRoom(conn, conn);
    }

    /** `join_room`: the socket joins the room it names, whatever the name;
        joining again changes nothing. */
    method JoinRoom(conn: ConnId, roomId: string)
      requires Valid()
      modifies this
      ensures Valid()
      ensures rooms == old(rooms)[roomId := Members(old(rooms), roomId) + {conn}]
      ensures forall r :: Members(rooms, r) == if r == roomId then Members(old(rooms), r) + {conn} else Members(old(rooms), r)
      ensures outbox == old(outbox)
    {
      rooms := rooms[roomId := Members(rooms, roomId) + {conn}];
    }

    /** `io.to(roomId).emit('receive_message', message)`. */
    method Broadcast(roomId: string, message: Message)
      modifies this`outbox
      ensures outbox == old(outbox) + [Emission(roomId, Members(rooms, roomId), message)]
      ensures forall c :: Inbox(outbox, c) == Inbox(old(outbox), c) + if c in Members(rooms, roomId) then [message] else []
    {
      outbox := outbox + [Emission(roomId, Members(rooms, roomId), message)];
      forall c ensures Inbox(outbox, c) == Inbox(old(outbox), c) + if c in Members(rooms, roomId) then [message] else [] {
        InboxAppend(old(outbox), Emission(roomId, Members(rooms, roomId), message), c);
      }
    }

    /** `send_message`. The record is inserted without any validation. A
        failed insert is caught and nothing is emitted; an insert that
        returns no row emits nothing either; otherwise the first returned row
        is emitted, once, to every socket in `data.roomId` (whether or not
        the sender is one of them). */
    method SendMessage(data: SendData, choice: InsertChoice)
      requires Valid()
      modifies this, store
      ensures Valid()
      ensures rooms == old(rooms)
      ensures !Persists(old(store.rows), choice) ==> store.rows == old(store.rows) && outbox == old(outbox)
      ensures Persists(old(store.rows), choice) ==>
        var row := Stamp(choice.id, choice.createdAt, BuildRecord(data));
        && store.rows == old(store.rows) + [row]
        && outbox == old(outbox) +
             (if choice.returned then [Emission(data.roomId, Members(rooms, data.roomId), ToWire(row))] else [])
    {
      var outcome := store.Insert(BuildRecord(data), choice);
      match outcome
      case Failed(_) =>
        // caught by the handler and logged; the sender is not told
      case Inserted(inserted) =>
        if |inserted| == 0 {
          return;
        }
        Broadcast(data.roomId, ToWire(inserted[0]));
    }

    /** A socket disconnects. The relay's own `disconnect` handler only
        logs; leaving every room is Socket.IO's doing, modelled here as the
        library behaves. */
    method Disconnect(conn: ConnId)
      requires Valid()
      modifies this
      ensures Valid()
      ensures forall r :: Members(rooms, r) == Members(old(rooms), r) - {conn}
      ensures forall r :: conn !in Members(rooms, r)
      ensures outbox == old(outbox)
    {
      rooms := map r | r in rooms :: rooms[r] - {conn};
    }

    /** `GET /api/messages/:roomId`: the room's messages as broadcast
        payloads, earliest first, or status 500 with a generic error and no
        data when the database query fails. */
    method GetMessages(roomId: string, availability: Availability) returns (resp: HistoryResponse)
      ensures resp.ServerError? <==> availability.Down?
      ensures resp.ServerError? ==> resp == ServerError(500, HistoryFailure)
      ensures resp.Ok? ==>
        && resp.body == History(store.rows, roomId)
        && (forall i :: 0 <= i < |resp.body| ==> resp.body[i].roomId == roomId)
        && (forall i, j :: 0 <= i < j < |resp.body| ==> NotAfter(resp.body[i].timestamp, resp.body[j].timestamp))
        && (forall m :: m in resp.body <==> FromWire(m) in store.rows && m.roomId == roomId)
    {
      var result := store.Query(roomId, availability);
      match result
      case Failure(_) =>
        resp := ServerError(500, HistoryFailure);
      case Success(ordered) =>
        var body := seq(|ordered|, i requires 0 <= i < |ordered| => ToWire(ordered[i]));
        HistoryCorrect(store.rows, roomId);
        assert body == History(store.rows, roomId);
        resp := Ok(body);
    }
  }
}
