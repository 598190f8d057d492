/** What happens to a message the browser client sends once the relay has
    it: the fields the relay reads, the record it stores, and the payload it
    broadcasts back. */
module EndToEnd {
  import opened Wire
  import opened Store
  import opened Relay

  /** The `send_message` payload the relay reads from a client `Message`:
      the declared fields; the client's own `id` and `timestamp` travel
      along but the relay ignores them. */
  function Transmit(m: Message): SendData
  {
    SendData(m.roomId, m.userId, m.username, m.message,
             m.replyToMessageId, m.replyToMessageContent, m.replyToUsername)
  }

  /** All three reply fields are present, or none is. */
  predicate WholeReplyOrNone(a: Option<string>, b: Option<string>, c: Option<string>)
  {
    (a.None? && b.None? && c.None?) || (a.Some? && b.Some? && c.Some?)
  }

  /** The broadcast of a client's message echoes it: the store's id and
      time replace the client's, and every other field comes back as sent,
      provided no reply field was an empty string. */
  lemma EchoMatchesSent(m: Message, id: string, createdAt: Timestamp)
    requires NoEmptyReplyField(Transmit(m))
    ensures ToWire(Stamp(id, createdAt, BuildRecord(Transmit(m)))) == m.(id := id, timestamp := createdAt)
  {
  }

  /** A client sends the reply triple whole or not at all; the relay then
      stores it whole or not at all exactly when its three texts are all
      non-empty or all empty (an empty text alone is stored as `null`). */
  lemma StoredReplyTriple(m: Message)
    requires WholeReplyOrNone(m.replyToMessageId, m.replyToMessageContent, m.replyToUsername)
    ensures var rec := BuildRecord(Transmit(m));
      WholeReplyOrNone(rec.reply_to_message_id, rec.reply_to_message_content, rec.reply_to_username)
      <==>
      || m.replyToMessageId.None?
      || (m.replyToMessageId != Some("") && m.replyToMessageContent != Some("") && m.replyToUsername != Some(""))
      || (m.replyToMessageId == Some("") && m.replyToMessageContent == Some("") && m.replyToUsername == Some(""))
  {
  }
}
