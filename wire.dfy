/** Values that cross component boundaries: the optional and error wrappers,
    the calendar timestamp the store assigns, and the chat message payload
    shared by the relay's `receive_message` event, its history endpoint and
    the browser client's message list. */
module Wire {

  datatype Option<T> = None | Some(value: T)

  datatype Result<T, E> = Success(value: T) | Failure(error: E)

  /** JavaScript `Date#getMonth`: 0 for January up to 11 for December. */
  type Month0 = m: int | 0 <= m <= 11

  /** JavaScript `Date#getDate`: the day of the month. */
  type DayOfMonth = d: int | 1 <= d <= 31 witness 1

  /** A point in time as the browser's local calendar reads it: the year,
      month and day that `getFullYear`, `getMonth` and `getDate` return, and
      the milliseconds elapsed since that day's local midnight. */
  datatype Timestamp = Timestamp(year: int, month: Month0, day: DayOfMonth, millis: nat)

  /** `a` is not later than `b`: the order the store sorts `created_at` by. */
  predicate NotAfter(a: Timestamp, b: Timestamp)
  {
    || a.year < b.year
    || (a.year == b.year && a.month < b.month)
    || (a.year == b.year && a.month == b.month && a.day < b.day)
    || (a.year == b.year && a.month == b.month && a.day == b.day && a.millis <= b.millis)
  }

  lemma NotAfterTransitive(a: Timestamp, b: Timestamp, c: Timestamp)
    requires NotAfter(a, b) && NotAfter(b, c)
    ensures NotAfter(a, c)
  {
  }

  /** Both timestamps fall on the same local calendar day. */
  predicate SameDay(a: Timestamp, b: Timestamp)
  {
    a.year == b.year && a.month == b.month && a.day == b.day
  }

  /** A chat message as the relay broadcasts it and as the client keeps it
      (the `Message` interface). `None` in a reply field is the relay's
      `null` or the client's absent property. */
  datatype Message = Message(
    id: string,
    roomId: string,
    userId: string,
    username: string,
    message: string,
    timestamp: Timestamp,
    replyToMessageId: Option<string>,
    replyToMessageContent: Option<string>,
    replyToUsername: Option<string>)
}
