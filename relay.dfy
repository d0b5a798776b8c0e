/**
 * The consumers that the ASGI router actually serves (`chat/consumers.py`).
 * Each socket event becomes the list of things the consumer does (join a
 * group, accept, broadcast to the room, answer the sender alone, drop the
 * connection) together with the message table after the event. Handlers
 * run one at a time, so each is a function of the state before it.
 */
module Relay {
  import opened Text
  import opened Models
  import opened Wire

  const MissingMessageOrSender := "Missing message or sender"

  /** `f"User not found: {str(e)}"` for Django's `User.DoesNotExist`. */
  const UserNotFound := "User not found: User matching query does not exist."

  /** The consumer's outputs for one event and the tables afterwards. */
  datatype Step = Step(outputs: seq<Output>, store: Store)

  /** `connect`: the room's group is joined and every room the route admits is accepted. */
  function Connect(room: string): (outs: seq<Output>)
    ensures Accept in outs && Close !in outs
    ensures forall o :: o in outs && o.Join? ==> o.group == GroupName(room)
    // The group is joined before the socket is accepted.
    ensures |outs| == 2 && outs[0] == Join(GroupName(room)) && outs[1] == Accept
  {
    [Join(GroupName(room)), Accept]
  }

  /** `disconnect`: the group is left and nothing is announced to the room. */
  function Disconnect(room: string): (outs: seq<Output>)
    ensures forall o :: o in outs ==> o == Leave(GroupName(room))
    ensures |outs| == 1
  {
    [Leave(GroupName(room))]
  }

  /** The outcome of `save_message`: a stored row's timestamp, a caught error, or an exception that escapes. */
  datatype SaveResult = Saved(timestamp: int) | NotSaved(error: string) | Raised

  /**
   * `save_message`: both users are looked up by name and the row is created
   * at the current instant in `chat.models.Message`. Only `User.DoesNotExist` is caught; any other
   * database failure (`dbError`) escapes to the caller.
   */
  function SaveMessage(store: Store, sender: string, receiver: string, content: string, now: int, dbError: Option<string>)
    : (r: (SaveResult, Store))
    ensures r.0.Saved? <==> UserNamed(store.users, sender).Some? && UserNamed(store.users, receiver).Some? && dbError.None?
    ensures r.0.Saved? ==> r.0.timestamp == now && r.1 == store.(
      chatMessages := store.chatMessages + [Message(store.nextChatMessageId, UserNamed(store.users, sender).value,
                                            UserNamed(store.users, receiver).value, content, now)],
      nextChatMessageId := store.nextChatMessageId + 1)
    ensures !r.0.Saved? ==> r.1 == store
    ensures r.0.NotSaved? <==> UserNamed(store.users, sender).None? || UserNamed(store.users, receiver).None?
    ensures r.0.NotSaved? ==> r.0.error == UserNotFound
  {
    match (UserNamed(store.users, sender), UserNamed(store.users, receiver))
    case (Some(s), Some(rcv)) =>
      if dbError.Some? then (Raised, store)
      else
        var row := Message(store.nextChatMessageId, s, rcv, content, now);
        (Saved(now), store.(chatMessages := store.chatMessages + [row], nextChatMessageId := store.nextChatMessageId + 1))
    case _ => (NotSaved(UserNotFound), store)
  }

  /** `data.get('type', 'chat_message')`. */
  function MessageType(f: Frame): string
  {
    if f.kind.Some? then f.kind.value else "chat_message"
  }

  /** A chat-message frame (neither typing nor a read receipt) that carries a message and a sender. */
  predicate ChatRequest(inbound: Inbound)
  {
    && inbound.Object? && MessageType(inbound.frame) !in {"typing", "read_receipt"}
    && Truthy(inbound.frame.message) && Truthy(inbound.frame.sender)
  }

  /**
   * `receive`: a typing frame and a read receipt are relayed to the room as
   * they are; anything else is a chat message, which needs a non-empty
   * message and sender, is stored for the other participant of the room,
   * and is broadcast only once it is stored. Exceptions nothing catches
   * (bad JSON, a non-object, `users[1]` missing, a database failure)
   * drop the connection.
   */
  function Receive(room: string, inbound: Inbound, store: Store, now: int, dbError: Option<string>): (r: Step)
    // Every event yields exactly one output; broadcasts go to this room only.
    ensures |r.outputs| == 1
    ensures r.outputs[0].Broadcast? ==> r.outputs[0].group == GroupName(room)
    ensures !r.outputs[0].Accept? && !r.outputs[0].Join? && !r.outputs[0].Announce?
    // Unparseable input drops the connection.
    ensures !inbound.Object? ==> r == Step([Close], store)
    // A typing frame is one typing_indicator event, `typing` defaulting to false, and nothing is stored.
    ensures inbound.Object? && MessageType(inbound.frame) == "typing" ==>
      r == Step([Broadcast(GroupName(room), TypingIndicator(inbound.frame.sender, inbound.frame.typing == Some(true)))], store)
    // A read receipt is one event whose reader is the frame's sender, and nothing is stored.
    ensures inbound.Object? && MessageType(inbound.frame) == "read_receipt" ==>
      r == Step([Broadcast(GroupName(room), ReadReceipt(inbound.frame.sender))], store)
    // A chat message without message or sender is answered to the sender alone.
    ensures inbound.Object? && MessageType(inbound.frame) !in {"typing", "read_receipt"}
            && !(Truthy(inbound.frame.message) && Truthy(inbound.frame.sender)) ==>
      r == Step([Reply(ErrorFrame(MissingMessageOrSender))], store)
    // The table changes only together with the broadcast of the stored message, and vice versa.
    ensures r.store != store <==> r.outputs[0].Broadcast? && r.outputs[0].event.ChatMessage?
    ensures r.outputs[0].Broadcast? && r.outputs[0].event.ChatMessage? ==>
      && inbound.Object?
      && Truthy(inbound.frame.message) && Truthy(inbound.frame.sender)
      && ReceiverOf(room, inbound.frame.sender.value).Some?
      && UserNamed(store.users, inbound.frame.sender.value).Some?
      && UserNamed(store.users, ReceiverOf(room, inbound.frame.sender.value).value).Some?
      && r.outputs[0].event.message == inbound.frame.message.value
      && r.outputs[0].event.sender == inbound.frame.sender.value
      && r.store.chatMessages == store.chatMessages + [Message(store.nextChatMessageId,
           UserNamed(store.users, inbound.frame.sender.value).value,
           UserNamed(store.users, ReceiverOf(room, inbound.frame.sender.value).value).value,
           inbound.frame.message.value, now)]
    // The routed consumer never writes the table the chat views read.
    ensures r.store.users == store.users && r.store.messages == store.messages && r.store.nextMessageId == store.nextMessageId
    // An error reply never comes with a change to the table.
    ensures r.outputs[0].Reply? ==> r.store == store && r.outputs[0].frame.error.Some?
    // A room name that names no other participant makes `users[1]` fail: the connection drops.
    ensures ChatRequest(inbound) && ReceiverOf(room, inbound.frame.sender.value).None? ==> r == Step([Close], store)
    // Both users known and the database working: the row is stored, then broadcast with its timestamp and no id.
    ensures ChatRequest(inbound) && ReceiverOf(room, inbound.frame.sender.value).Some? ==>
      var s := inbound.frame.sender.value;
      var rcv := ReceiverOf(room, s).value;
      var m := inbound.frame.message.value;
      UserNamed(store.users, s).Some? && UserNamed(store.users, rcv).Some? && dbError.None? ==>
        r == Step([Broadcast(GroupName(room), ChatMessage(m, s, None, now))],
                  store.(chatMessages := store.chatMessages + [Message(store.nextChatMessageId, UserNamed(store.users, s).value,
                                                               UserNamed(store.users, rcv).value, m, now)],
                         nextChatMessageId := store.nextChatMessageId + 1))
    // An unknown sender or receiver is answered to the sender alone.
    ensures ChatRequest(inbound) && ReceiverOf(room, inbound.frame.sender.value).Some? ==>
      var s := inbound.frame.sender.value;
      var rcv := ReceiverOf(room, s).value;
      UserNamed(store.users, s).None? || UserNamed(store.users, rcv).None? ==>
        r == Step([Reply(ErrorFrame(UserNotFound))], store)
    // Any other database failure escapes `receive` and drops the connection.
    ensures ChatRequest(inbound) && ReceiverOf(room, inbound.frame.sender.value).Some? ==>
      var s := inbound.frame.sender.value;
      var rcv := ReceiverOf(room, s).value;
      UserNamed(store.users, s).Some? && UserNamed(store.users, rcv).Some? && dbError.Some? ==>
        r == Step([Close], store)
  {
    match inbound
    case BadJson => Step([Close], store)
    case NotAnObject => Step([Close], store)
    case Object(f) =>
      var kind := MessageType(f);
      if kind == "typing" then
        Step([Broadcast(GroupName(room), TypingIndicator(f.sender, f.typing == Some(true)))], store)
      else if kind == "read_receipt" then
        Step([Broadcast(GroupName(room), ReadReceipt(f.sender))], store)
      else if !Truthy(f.message) || !Truthy(f.sender) then
        Step([Reply(ErrorFrame(MissingMessageOrSender))], store)
      else
        match ReceiverOf(room, f.sender.value)
        case None => Step([Close], store)
        case Some(receiver) =>
          var saved := SaveMessage(store, f.sender.value, receiver, f.message.value, now, dbError);
          match saved.0
          case Saved(ts) =>
            Step([Broadcast(GroupName(room), ChatMessage(f.message.value, f.sender.value, None, ts))], saved.1)
          case NotSaved(e) => Step([Reply(ErrorFrame(e))], saved.1)
          case Raised => Step([Close], saved.1)
  }

  /** A frame without a `type` is handled exactly like one whose type is 'chat_message'. */
  lemma UntypedIsChatMessage(room: string, f: Frame, store: Store, now: int, dbError: Option<string>)
    requires f.kind.None?
    ensures Receive(room, Object(f), store, now, dbError)
         == Receive(room, Object(f.(kind := Some("chat_message"))), store, now, dbError)
  {
  }

  /**
   * The group-event handlers (`chat_message`, `typing_indicator`,
   * `read_receipt_message`): the frame each socket in the room receives.
   * A chat message goes out without a `type` key.
   */
  function Deliver(e: GroupEvent): (f: Frame)
    ensures f.error.None? && f.messageId.None?
    ensures e.ChatMessage? ==>
      f.kind.None? && f.message == Some(e.message) && f.sender == Some(e.sender)
      && f.timestamp == Some(e.timestamp) && f.reader.None? && f.typing.None?
    ensures e.TypingIndicator? ==>
      f.kind == Some("typing") && f.sender == e.typist && f.typing == Some(e.typing) && f.message.None?
    ensures e.ReadReceipt? ==>
      f.kind == Some("read_receipt") && f.reader == e.reader && f.sender.None? && f.message.None?
  {
    match e
    case ChatMessage(m, s, _, ts) => NoFields.(message := Some(m), sender := Some(s), timestamp := Some(ts))
    case TypingIndicator(s, t) => NoFields.(kind := Some("typing"), sender := s, typing := Some(t))
    case ReadReceipt(reader) => NoFields.(kind := Some("read_receipt"), reader := reader)
  }

  // ---------------------------------------------------------------------------
  // StatusConsumer
  // ---------------------------------------------------------------------------

  /** `StatusConsumer.connect`: join the presence group, accept, and announce the user online. */
  function StatusConnect(username: string): (outs: seq<Output>)
    ensures Accept in outs
    ensures forall o :: o in outs && o.Announce? ==> o == Announce(StatusGroup, Presence(username, "online"))
    ensures Announce(StatusGroup, Presence(username, "online")) in outs
    // Join, then accept, then announce: the new user's own socket is in the group when 'online' goes out.
    ensures |outs| == 3 && outs[0] == Join(StatusGroup) && outs[1] == Accept
    ensures outs[2].Announce? && outs[2].update.status == "online"
  {
    [Join(StatusGroup), Accept, Announce(StatusGroup, Presence(username, "online"))]
  }

  /** `StatusConsumer.disconnect`: announce the user offline, then leave the group. */
  function StatusDisconnect(username: string): (outs: seq<Output>)
    ensures forall o :: o in outs && o.Announce? ==> o == Announce(StatusGroup, Presence(username, "offline"))
    ensures Announce(StatusGroup, Presence(username, "offline")) in outs
    ensures Accept !in outs
    // 'offline' is announced while the socket is still in the group, and leaving comes last.
    ensures |outs| == 2 && outs[0].Announce? && outs[0].update.status == "offline"
    ensures outs[1] == Leave(StatusGroup)
  {
    [Announce(StatusGroup, Presence(username, "offline")), Leave(StatusGroup)]
  }
}
