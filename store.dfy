/** The relay's `messages` table, seen as an abstract append-only store.
    The database picks each row's `id` and `created_at` and may refuse an
    insert; those choices arrive as parameters. Rows are never changed or
    deleted. A query returns the rows of one room, ordered by `created_at`. */
module Store {
  import opened Wire

  /** The columns the relay fills in when it inserts a message (`null`
      reply columns are `None`). */
  datatype Record = Record(
    room_id: string,
    user_id: string,
    username: string,
    message: string,
    reply_to_message_id: Option<string>,
    reply_to_message_content: Option<string>,
    reply_to_username: Option<string>)

  /** A stored row: the inserted columns plus the two the store assigns. */
  datatype Row = Row(
    id: string,
    created_at: Timestamp,
    room_id: string,
    user_id: string,
    username: string,
    message: string,
    reply_to_message_id: Option<string>,
    reply_to_message_content: Option<string>,
    reply_to_username: Option<string>)

  /** The row the store makes of `rec` when it assigns `id` and `createdAt`. */
  function Stamp(id: string, createdAt: Timestamp, rec: Record): (row: Row)
    ensures row.id == id && row.created_at == createdAt
    ensures RecordOf(row) == rec
  {
    Row(id, createdAt, rec.room_id, rec.user_id, rec.username, rec.message,
        rec.reply_to_message_id, rec.reply_to_message_content, rec.reply_to_username)
  }

  /** The columns of `row` that came from the inserted record. */
  function RecordOf(row: Row): Record
  {
    Record(row.room_id, row.user_id, row.username, row.message,
           row.reply_to_message_id, row.reply_to_message_content, row.reply_to_username)
  }

  datatype StoreError =
    | Unavailable(message: string)   // the database could not be reached or failed
    | UniqueViolation                // the id chosen for a new row is already taken

  /** What the database does with one insert: refuse it, or store the row
      under `id` at time `createdAt`; `returned` says whether the inserted
      row comes back from `.select('*')`. The handler treats an empty reply
      defensively and, like its own warning, takes the row as stored. */
  datatype InsertChoice =
    | Refuse(error: StoreError)
    | Assign(id: string, createdAt: Timestamp, returned: bool)

  /** Whether a read query reaches the database. */
  datatype Availability = Up | Down(error: StoreError)

  /** The reply of an insert: an error, or the rows the insert returned. */
  datatype InsertOutcome = Failed(error: StoreError) | Inserted(rows: seq<Row>)

  predicate IdTaken(rows: seq<Row>, id: string)
  {
    exists i | 0 <= i < |rows| :: rows[i].id == id
  }

  /** No two stored rows share an id. */
  ghost predicate UniqueIds(rows: seq<Row>)
  {
    forall i, j :: 0 <= i < j < |rows| ==> rows[i].id != rows[j].id
  }

  /** The insert with choice `choice` adds a row to `rows`. */
  predicate Persists(rows: seq<Row>, choice: InsertChoice)
  {
    choice.Assign? && !IdTaken(rows, choice.id)
  }

  /** The rows of room `roomId`, in store order. */
  function InRoom(rows: seq<Row>, roomId: string): (r: seq<Row>)
    ensures forall i :: 0 <= i < |r| ==> r[i].room_id == roomId
    ensures |r| <= |rows|
  {
    if rows == [] then []
    else if rows[|rows| - 1].room_id == roomId then InRoom(rows[..|rows| - 1], roomId) + [rows[|rows| - 1]]
    else InRoom(rows[..|rows| - 1], roomId)
  }

  lemma {:induction false} InRoomMultiset(rows: seq<Row>, roomId: string, x: Row)
    ensures multiset(InRoom(rows, roomId))[x] == if x.room_id == roomId then multiset(rows)[x] else 0
  {
    if rows != [] {
      var init := rows[..|rows| - 1];
      InRoomMultiset(init, roomId, x);
      assert rows == init + [rows[|rows| - 1]];
    }
  }

  predicate SortedByTime(s: seq<Row>)
  {
    forall i, j :: 0 <= i < j < |s| ==> NotAfter(s[i].created_at, s[j].created_at)
  }

  /** Puts `x` into the time-sorted `s` before the first row later than it. */
  function InsertByTime(x: Row, s: seq<Row>): seq<Row>
  {
    if s == [] then [x]
    else if NotAfter(x.created_at, s[0].created_at) then [x] + s
    else [s[0]] + InsertByTime(x, s[1..])
  }

  lemma {:induction false} InsertByTimeMultiset(x: Row, s: seq<Row>)
    ensures multiset(InsertByTime(x, s)) == multiset(s) + multiset{x}
  {
    if s != [] && !NotAfter(x.created_at, s[0].created_at) {
      InsertByTimeMultiset(x, s[1..]);
      assert s == [s[0]] + s[1..];
    }
  }

  lemma SortedCons(a: Row, s: seq<Row>)
    requires SortedByTime(s)
    requires forall k :: 0 <= k < |s| ==> NotAfter(a.created_at, s[k].created_at)
    ensures SortedByTime([a] + s)
  {
  }

  lemma {:induction false} InsertByTimeSorted(x: Row, s: seq<Row>)
    requires SortedByTime(s)
    ensures SortedByTime(InsertByTime(x, s))
  {
    if s == [] {
    } else if NotAfter(x.created_at, s[0].created_at) {
      forall k | 0 <= k < |s| ensures NotAfter(x.created_at, s[k].created_at) {
        NotAfterTransitive(x.created_at, s[0].created_at, s[k].created_at);
      }
      SortedCons(x, s);
    } else {
      var rest := InsertByTime(x, s[1..]);
      InsertByTimeSorted(x, s[1..]);
      InsertByTimeMultiset(x, s[1..]);
      forall k | 0 <= k < |rest| ensures NotAfter(s[0].created_at, rest[k].created_at) {
        assert rest[k] in multiset(rest);
        if rest[k] != x {
          assert rest[k] in multiset(s[1..]);
          var m :| 0 <= m < |s[1..]| && s[1..][m] == rest[k];
          assert s[m + 1] == rest[k];
        }
      }
      SortedCons(s[0], rest);
    }
  }

  /** Orders `s` by `created_at`, earliest first (rows with the same time
      keep an order the database leaves unspecified; this one keeps theirs). */
  function SortByTime(s: seq<Row>): seq<Row>
  {
    if s == [] then [] else InsertByTime(s[0], SortByTime(s[1..]))
  }

  lemma {:induction false} SortByTimeCorrect(s: seq<Row>)
    ensures SortedByTime(SortByTime(s))
    ensures multiset(SortByTime(s)) == multiset(s)
  {
    if s != [] {
      SortByTimeCorrect(s[1..]);
      InsertByTimeSorted(s[0], SortByTime(s[1..]));
      InsertByTimeMultiset(s[0], SortByTime(s[1..]));
      assert s == [s[0]] + s[1..];
    }
  }

  /** `select * from messages where room_id = roomId order by created_at`:
      the room's rows, sorted, as a permutation of the room's rows. */
  function Ordered(rows: seq<Row>, roomId: string): (r: seq<Row>)
    ensures SortedByTime(r)
    ensures multiset(r) == multiset(InRoom(rows, roomId))
  {
    SortByTimeCorrect(InRoom(rows, roomId));
    SortByTime(InRoom(rows, roomId))
  }

  /** The ordered query returns every row of the room, each as often as it
      is stored, no row of another room, earliest first. */
  lemma OrderedCorrect(rows: seq<Row>, roomId: string)
    ensures SortedByTime(Ordered(rows, roomId))
    ensures forall x :: multiset(Ordered(rows, roomId))[x] == if x.room_id == roomId then multiset(rows)[x] else 0
    ensures forall x :: x in Ordered(rows, roomId) <==> x in rows && x.room_id == roomId
  {
    SortByTimeCorrect(InRoom(rows, roomId));
    forall x ensures multiset(Ordered(rows, roomId))[x] == if x.room_id == roomId then multiset(rows)[x] else 0 {
      InRoomMultiset(rows, roomId, x);
    }
    forall x ensures x in Ordered(rows, roomId) <==> x in rows && x.room_id == roomId {
      assert x in Ordered(rows, roomId) <==> x in multiset(Ordered(rows, roomId));
      assert x in rows <==> x in multiset(rows);
    }
  }

  class MessageStore {
    var rows: seq<Row>

    ghost predicate Valid()
      reads this
    {
      UniqueIds(rows)
    }

    constructor ()
      ensures Valid() && rows == []
    {
      rows := [];
    }

    /** `insert([rec]).select('*')`. A refused insert, or one whose id is
        already taken, stores nothing and reports the error; otherwise the
        row is appended and returned when the database returns it. */
    method Insert(rec: Record, choice: InsertChoice) returns (out: InsertOutcome)
      requires Valid()
      modifies this
      ensures Valid()
      ensures Persists(old(rows), choice) ==>
        var row := Stamp(choice.id, choice.createdAt, rec);
        && rows == old(rows) + [row]
        && out == Inserted(if choice.returned then [row] else [])
      ensures !Persists(old(rows), choice) ==>
        && rows == old(rows)
        && out == Failed(if choice.Refuse? then choice.error else UniqueViolation)
    {
      match choice
      case Refuse(e) =>
        out := Failed(e);
      case Assign(id, createdAt, returned) =>
        if IdTaken(rows, id) {
          out := Failed(UniqueViolation);
        } else {
          var row := Stamp(id, createdAt, rec);
          rows := rows + [row];
          out := Inserted(if returned then [row] else []);
        }
    }

    /** The ordered room query; it fails only when the database is down,
        never because the room has no rows. */
    method Query(roomId: string, availability: Availability) returns (out: Result<seq<Row>, StoreError>)
      ensures out.Failure? <==> availability.Down?
      ensures availability.Down? ==> out.error == availability.error
      ensures out.Success? ==>
        && SortedByTime(out.value)
        && (forall x :: x in out.value <==> x in rows && x.room_id == roomId)
        && out.value == Ordered(rows, roomId)
    {
      match availability
      case Down(e) =>
        out := Failure(e);
      case Up =>
        OrderedCorrect(rows, roomId);
        out := Success(Ordered(rows, roomId));
    }
  }
}
