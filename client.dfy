/** The browser side of a chat session (the `ChatRoom` component): its state
    and the handlers that change it, the mention updater, and the date
    separator rule of the message list. Rendering, focus and scrolling, the
    socket connection and the history fetch are outside; what they hand to
    the component arrives as parameters. */
module Client {
  import opened Wire
  import opened JsText

  /** The message being replied to, as the reply preview keeps it. */
  datatype ReplyTarget = ReplyTarget(id: string, content: string, username: string)

  /** The text a mention of `name` inserts: `@name ` with a trailing space. */
  function MentionOf(name: string): string
  {
    "@" + name + " "
  }

  /** The updater `handleMentionClick` hands to `setNewMessage`: the draft
      is kept when it already contains the mention, and gets the mention
      appended otherwise. Either way the result contains the mention and
      starts with the draft. */
  function WithMention(draft: string, name: string): (r: string)
    ensures Includes(r, MentionOf(name))
    ensures |r| >= |draft| && r[..|draft|] == draft
    ensures r == draft <==> Includes(draft, MentionOf(name))
    ensures r != draft ==> r == draft + MentionOf(name)
  {
    var mention := MentionOf(name);
    if Includes(draft, mention) then draft
    else
      assert OccursAt(draft + mention, mention, |draft|);
      draft + mention
  }

  /** Clicking the same name twice adds the mention once. */
  lemma WithMentionIdempotent(draft: string, name: string)
    ensures WithMention(WithMention(draft, name), name) == WithMention(draft, name)
  {
  }

  /** `formatDate`: `year-MM-DD`, the year as `toString` writes it, the
      1-based month and the day each padded to two digits. The last six
      characters are `-MM-DD` and read back as the month and the day. */
  function FormatDate(t: Timestamp): (r: string)
    ensures |r| == |IntToString(t.year)| + 6
    ensures r[..|r| - 6] == IntToString(t.year)
    ensures r[|r| - 6] == '-' && r[|r| - 3] == '-'
    ensures AllDigits(r[|r| - 5..|r| - 3]) && DecimalValue(r[|r| - 5..|r| - 3]) == t.month + 1
    ensures AllDigits(r[|r| - 2..]) && DecimalValue(r[|r| - 2..]) == t.day
  {
    var year := IntToString(t.year);
    var month := PadStart(NatToString(t.month + 1), 2, '0');
    var day := PadStart(NatToString(t.day), 2, '0');
    TwoDigitsRoundTrip(t.month + 1);
    TwoDigitsRoundTrip(t.day);
    var r := year + "-" + month + "-" + day;
    assert r[|r| - 5..|r| - 3] == month;
    assert r[|r| - 2..] == day;
    assert r[..|r| - 6] == year;
    r
  }

  /** Two timestamps format to the same text exactly when they fall on the
      same calendar day. */
  lemma FormatDateInjective(a: Timestamp, b: Timestamp)
    ensures FormatDate(a) == FormatDate(b) <==> SameDay(a, b)
  {
    var fa, fb := FormatDate(a), FormatDate(b);
    if fa == fb {
      IntToStringInjective(a.year, b.year);
      assert fa[..|fa| - 6] == fb[..|fb| - 6];
    }
  }

  /** Whether the list shows a date line above message `i`: the message's
      formatted date differs from the previous message's, or from the
      empty string for the first message. It appears exactly above the
      first message and above each message on a different day from the one
      before. */
  function ShowDateLine(messages: seq<Message>, i: nat): (show: bool)
    requires i < |messages|
    ensures show <==> i == 0 || !SameDay(messages[i].timestamp, messages[i - 1].timestamp)
  {
    var messageDate := FormatDate(messages[i].timestamp);
    if i > 0 then
      FormatDateInjective(messages[i].timestamp, messages[i - 1].timestamp);
      messageDate != FormatDate(messages[i - 1].timestamp)
    else
      messageDate != ""
  }

  class ChatRoom {
    var roomId: string
    var username: string
    const userId: string
    var messages: seq<Message>
    var newMessage: string
    var joined: bool
    var replyTo: Option<ReplyTarget>
    /** Whether the shared Socket.IO client is connected. */
    var connected: bool

    /** While joined, the room id and the name both contain a character
        that is not white space; the socket is connected only while joined. */
    ghost predicate Valid()
      reads this
    {
      && (joined ==> !AllWhiteSpace(roomId) && !AllWhiteSpace(username))
      && (connected ==> joined)
    }

    /** A fresh component: not joined, no room, an empty draft and list,
        no reply target; the random name and the session id are given. */
    constructor (initialName: string, sessionId: string)
      ensures Valid()
      ensures !joined && roomId == [] && username == initialName && userId == sessionId
      ensures messages == [] && newMessage == [] && replyTo == None && !connected
    {
      connected := false;
      roomId := [];
      username := initialName;
      userId := sessionId;
      messages := [];
      newMessage := [];
      joined := false;
      replyTo := None;
    }

    /** Typing in the room id field, which is shown only before joining. */
    method EditRoomId(value: string)
      requires Valid() && !joined
      modifies this`roomId
      ensures Valid() && roomId == value
    {
      roomId := value;
    }

    /** Typing in the name field, which is shown only before joining. */
    method EditUsername(value: string)
      requires Valid() && !joined
      modifies this`username
      ensures Valid() && username == value
    {
      username := value;
    }

    /** Typing in the message box. */
    method EditDraft(value: string)
      requires Valid()
      modifies this`newMessage
      ensures Valid() && newMessage == value
    {
      newMessage := value;
    }

    /** The close button of the reply preview. */
    method CancelReply()
      requires Valid()
      modifies this`replyTo
      ensures Valid() && replyTo == None
    {
      replyTo := None;
    }

    /** `handleJoinRoom`: joins when the room id and the name both have a
        character that is not white space; otherwise the user is alerted
        and nothing changes. */
    method HandleJoinRoom() returns (alerted: bool)
      requires Valid()
      modifies this`joined
      ensures Valid()
      ensures alerted <==> Trim(roomId) == [] || Trim(username) == []
      ensures joined == (old(joined) || !alerted)
    {
      if Trim(roomId) != [] && Trim(username) != [] {
        joined := true;
        alerted := false;
      } else {
        alerted := true;
      }
    }

    /** The effect that runs once joined: it connects the socket and emits
        `join_room` for the current room (the returned id); before joining
        it does nothing. */
    method ConnectSocket() returns (joinRequest: Option<string>)
      requires Valid()
      modifies this`connected
      ensures Valid()
      ensures joinRequest.Some? <==> joined
      ensures joinRequest.Some? ==> joinRequest.value == roomId && Trim(joinRequest.value) != []
      ensures connected == (old(connected) || joined)
    {
      if joined {
        connected := true;
        joinRequest := Some(roomId);
      } else {
        joinRequest := None;
      }
    }

    /** `handleSendMessage`: emits `send_message` only when joined and the
        trimmed draft is not empty. The message carries the trimmed draft,
        the session's room, id and name, and either the whole reply target
        or no reply field at all; the draft and the reply target are then
        cleared. When the guard fails nothing is emitted and nothing changes. */
    method HandleSendMessage(freshId: string, now: Timestamp) returns (sent: Option<Message>)
      requires Valid()
      modifies this`newMessage, this`replyTo
      ensures Valid()
      ensures sent.Some? <==> joined && Trim(old(newMessage)) != []
      ensures sent.Some? ==>
        && sent.value.id == freshId && sent.value.timestamp == now
        && sent.value.roomId == roomId && sent.value.userId == userId && sent.value.username == username
        && sent.value.message == Trim(old(newMessage))
        && (old(replyTo).None? ==>
              && sent.value.replyToMessageId.None?
              && sent.value.replyToMessageContent.None?
              && sent.value.replyToUsername.None?)
        && (old(replyTo).Some? ==>
              && sent.value.replyToMessageId == Some(old(replyTo).value.id)
              && sent.value.replyToMessageContent == Some(old(replyTo).value.content)
              && sent.value.replyToUsername == Some(old(replyTo).value.username))
      ensures sent.Some? ==>
        Trim(sent.value.roomId) != [] && Trim(sent.value.username) != [] && Trim(sent.value.message) != []
      ensures sent.Some? ==> newMessage == [] && replyTo == None
      ensures sent.None? ==> newMessage == old(newMessage) && replyTo == old(replyTo)
    {
      var text := Trim(newMessage);
      if text != [] && joined {
        var messageData := Message(freshId, roomId, userId, username, text, now, None, None, None);
        if replyTo.Some? {
          messageData := messageData.(
            replyToMessageId := Some(replyTo.value.id),
            replyToMessageContent := Some(replyTo.value.content),
            replyToUsername := Some(replyTo.value.username));
        }
        sent := Some(messageData);
        newMessage := [];
        replyTo := None;
      } else {
        sent := None;
      }
    }

    /** `handleReplyAreaClick`: the clicked message becomes the reply
        target, with its id, its text and its author's name. */
    method HandleReplyAreaClick(m: Message)
      requires Valid()
      modifies this`replyTo
      ensures Valid()
      ensures replyTo.Some?
      ensures replyTo.value.id == m.id && replyTo.value.content == m.message && replyTo.value.username == m.username
    {
      replyTo := Some(ReplyTarget(m.id, m.message, m.username));
    }

    /** `handleMentionClick`: the draft gets `@name ` unless it already
        contains it. */
    method HandleMentionClick(name: string)
      requires Valid()
      modifies this`newMessage
      ensures Valid()
      ensures newMessage == WithMention(old(newMessage), name)
    {
      newMessage := WithMention(newMessage, name);
    }

    /** The `receive_message` listener, which fires only while the socket is
        connected: the message goes at the end of the list and every earlier
        message stays where it was. */
    method ReceiveMessage(m: Message)
      requires Valid() && connected
      modifies this`messages
      ensures Valid()
      ensures |messages| == |old(messages)| + 1
      ensures messages[..|old(messages)|] == old(messages) && messages[|old(messages)|] == m
    {
      messages := messages + [m];
    }

    /** The history fetch resolving: its messages replace the list. */
    method HistoryLoaded(loaded: seq<Message>)
      requires Valid()
      modifies this`messages
      ensures Valid() && messages == loaded
    {
      messages := loaded;
    }

    /** `handleLeaveRoom`: announces `leave_room` for the current room (the
        returned id; the relay has no handler for it), disconnects the
        socket, which on the relay takes it out of every room, and resets the
        session to the join screen. The name and the session id are kept. */
    method HandleLeaveRoom() returns (announced: string)
      requires Valid()
      modifies this`joined, this`roomId, this`messages, this`newMessage, this`replyTo, this`connected
      ensures Valid()
      ensures announced == old(roomId)
      ensures !connected
      ensures !joined && roomId == [] && messages == [] && newMessage == [] && replyTo == None
    {
      announced := roomId;
      connected := false;
      joined := false;
      roomId := [];
      messages := [];
      newMessage := [];
      replyTo := None;
    }
  }
}
