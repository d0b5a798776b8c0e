/**
 * The stricter chat consumer of `base/consumers.py`, which the ASGI router
 * does not serve: it validates the room name on connect, catches every
 * exception in `receive` and turns it into an error reply, and stamps its
 * outbound chat messages with `type: 'message'` and the stored row's id.
 * Its StatusConsumer behaves exactly like the routed one (`Relay.StatusConnect`,
 * `Relay.StatusDisconnect`).
 */
module StrictRelay {
  import opened Text
  import opened Models
  import opened Wire
  import Relay

  const InvalidMessageFormat := "Invalid message format"
  const InvalidJsonFormat := "Invalid JSON format"
  const InternalServerError := "Internal server error"
  const ModelNotFound := "Message model not found"

  /** A room name is accepted when it splits on '_' into exactly two non-empty parts, neither of them 'undefined'. */
  predicate ValidRoom(room: string)
  {
    var users := Split(room, '_');
    |users| == 2 && users[0] != "" && users[1] != "" && users[0] != "undefined" && users[1] != "undefined"
  }

  /** `connect`: an invalid room is closed without joining its group; a valid one is joined and accepted. */
  function Connect(room: string): (outs: seq<Output>)
    ensures Accept in outs <==> ValidRoom(room)
    ensures !ValidRoom(room) ==> outs == [Close]
    ensures ValidRoom(room) ==> Join(GroupName(room)) in outs && Close !in outs
    ensures forall o :: o in outs && o.Join? ==> o.group == GroupName(room)
    ensures ValidRoom(room) ==> outs == [Join(GroupName(room)), Accept]
  {
    var users := Split(room, '_');
    if |users| != 2 then [Close]
    else if users[0] == "" || users[1] == "" || users[0] == "undefined" || users[1] == "undefined" then [Close]
    else [Join(GroupName(room)), Accept]
  }

  /**
   * The database as `save_message` finds it: whether the Message model was
   * importable, a failure of the insert, and a failure of the count query
   * that runs after the insert has been committed.
   */
  datatype SaveEnv = SaveEnv(modelLoaded: bool, insertError: Option<string>, countError: Option<string>)

  /** The outcome of `save_message`: the new row's id and timestamp, or an error text. */
  datatype SaveResult = Saved(messageId: nat, timestamp: int) | NotSaved(error: string)

  /**
   * `save_message`: fails when the Message model is missing, when either
   * user is unknown, or when the insert fails, and then nothing is stored.
   * Once the insert is committed the row stays, even when the count query
   * after it fails and its text is returned as the error; otherwise the
   * row's id and timestamp are returned.
   */
  function SaveMessage(store: Store, sender: string, receiver: string, content: string, now: int, env: SaveEnv)
    : (r: (SaveResult, Store))
    ensures r.0.Saved? <==> env.modelLoaded && UserNamed(store.users, sender).Some?
                            && UserNamed(store.users, receiver).Some? && env.insertError.None? && env.countError.None?
    ensures r.0.Saved? ==> r.0.messageId == store.nextMessageId && r.0.timestamp == now
    // The row is committed exactly when the model is there, both users exist and the insert succeeds.
    ensures env.modelLoaded && UserNamed(store.users, sender).Some? && UserNamed(store.users, receiver).Some?
            && env.insertError.None? ==>
      r.1 == store.(
        messages := store.messages + [Message(store.nextMessageId, UserNamed(store.users, sender).value,
                                              UserNamed(store.users, receiver).value, content, now)],
        nextMessageId := store.nextMessageId + 1)
    ensures (!env.modelLoaded || UserNamed(store.users, sender).None? || UserNamed(store.users, receiver).None?
             || env.insertError.Some?) ==> r.1 == store
    ensures !env.modelLoaded ==> r.0 == NotSaved(ModelNotFound)
    ensures env.modelLoaded && (UserNamed(store.users, sender).None? || UserNamed(store.users, receiver).None?)
            ==> r.0 == NotSaved(Relay.UserNotFound)
    ensures (env.modelLoaded && UserNamed(store.users, sender).Some? && UserNamed(store.users, receiver).Some?
             && env.insertError.Some?) ==> r.0 == NotSaved(env.insertError.value)
    ensures (env.modelLoaded && UserNamed(store.users, sender).Some? && UserNamed(store.users, receiver).Some?
             && env.insertError.None? && env.countError.Some?) ==> r.0 == NotSaved(env.countError.value)
  {
    if !env.modelLoaded then (NotSaved(ModelNotFound), store)
    else
      match (UserNamed(store.users, sender), UserNamed(store.users, receiver))
      case (Some(s), Some(rcv)) =>
        if env.insertError.Some? then (NotSaved(env.insertError.value), store)
        else
          var row := Message(store.nextMessageId, s, rcv, content, now);
          var stored := store.(messages := store.messages + [row], nextMessageId := store.nextMessageId + 1);
          if env.countError.Some? then (NotSaved(env.countError.value), stored)
          else (Saved(row.id, now), stored)
      case _ => (NotSaved(Relay.UserNotFound), store)
  }

  /** `data.get('type', 'message')`. */
  function MessageType(f: Frame): string
  {
    if f.kind.Some? then f.kind.value else "message"
  }

  /** A chat-message frame (neither typing nor a read receipt) that carries a message and a sender. */
  predicate ChatRequest(inbound: Inbound)
  {
    && inbound.Object? && MessageType(inbound.frame) !in {"typing", "read_receipt"}
    && Truthy(inbound.frame.message) && Truthy(inbound.frame.sender)
  }

  /**
   * `receive`: a read receipt and a typing frame are relayed to the room; a
   * chat message needs a non-empty message and sender, is stored for the
   * other participant and broadcast with the row's id and timestamp, or its
   * error goes back to the sender alone. Every exception becomes an error
   * reply: malformed JSON is 'Invalid JSON format', anything else (a
   * non-object, a missing `users[1]`) 'Internal server error'.
   */
  function Receive(room: string, inbound: Inbound, store: Store, now: int, env: SaveEnv): (r: Relay.Step)
    ensures |r.outputs| == 1
    // No exception escapes: the connection is never dropped by `receive`.
    ensures !r.outputs[0].Close?
    ensures r.outputs[0].Broadcast? ==> r.outputs[0].group == GroupName(room)
    ensures inbound.BadJson? ==> r == Relay.Step([Reply(ErrorFrame(InvalidJsonFormat))], store)
    ensures inbound.NotAnObject? ==> r == Relay.Step([Reply(ErrorFrame(InternalServerError))], store)
    ensures inbound.Object? && MessageType(inbound.frame) == "read_receipt" ==>
      r == Relay.Step([Broadcast(GroupName(room), ReadReceipt(inbound.frame.sender))], store)
    ensures inbound.Object? && MessageType(inbound.frame) == "typing" ==>
      r == Relay.Step([Broadcast(GroupName(room), TypingIndicator(inbound.frame.sender, inbound.frame.typing == Some(true)))], store)
    ensures inbound.Object? && MessageType(inbound.frame) !in {"typing", "read_receipt"}
            && !(Truthy(inbound.frame.message) && Truthy(inbound.frame.sender)) ==>
      r == Relay.Step([Reply(ErrorFrame(InvalidMessageFormat))], store)
    // A chat message is broadcast with the stored row's id, and only after it is stored.
    ensures r.outputs[0].Broadcast? && r.outputs[0].event.ChatMessage? ==>
      && r.outputs[0].event.messageId == Some(store.nextMessageId)
      && r.outputs[0].event.timestamp == now
      && |r.store.messages| == |store.messages| + 1
      && r.store.messages[..|store.messages|] == store.messages
      && r.store.messages[|store.messages|].content == r.outputs[0].event.message
    // The tables change only by one appended row.
    ensures r.store != store ==>
      && r.store == store.(messages := r.store.messages, nextMessageId := store.nextMessageId + 1)
      && |r.store.messages| == |store.messages| + 1
      && r.store.messages[..|store.messages|] == store.messages
    ensures r.outputs[0].Reply? ==> r.outputs[0].frame.error.Some?
    // The only error reply that comes with a stored row is the failure of the count after the insert.
    ensures r.outputs[0].Reply? && r.store != store ==>
      env.countError.Some? && r.outputs[0].frame == ErrorFrame(env.countError.value)
    // A room name that names no other participant: the failing `users[1]` becomes 'Internal server error'.
    ensures ChatRequest(inbound) && ReceiverOf(room, inbound.frame.sender.value).None? ==>
      r == Relay.Step([Reply(ErrorFrame(InternalServerError))], store)
    // Model loaded, both users known, the insert and the count succeeding: stored, then broadcast with the row's id.
    ensures ChatRequest(inbound) && ReceiverOf(room, inbound.frame.sender.value).Some? ==>
      var s := inbound.frame.sender.value;
      var rcv := ReceiverOf(room, s).value;
      var m := inbound.frame.message.value;
      env.modelLoaded && UserNamed(store.users, s).Some? && UserNamed(store.users, rcv).Some?
      && env.insertError.None? && env.countError.None? ==>
        r == Relay.Step([Broadcast(GroupName(room), ChatMessage(m, s, Some(store.nextMessageId), now))],
                        store.(messages := store.messages + [Message(store.nextMessageId, UserNamed(store.users, s).value,
                                                                     UserNamed(store.users, rcv).value, m, now)],
                               nextMessageId := store.nextMessageId + 1))
    // Each save failure is answered to the sender alone with its own text.
    ensures ChatRequest(inbound) && ReceiverOf(room, inbound.frame.sender.value).Some? && !env.modelLoaded ==>
      r == Relay.Step([Reply(ErrorFrame(ModelNotFound))], store)
    ensures ChatRequest(inbound) && ReceiverOf(room, inbound.frame.sender.value).Some? ==>
      var s := inbound.frame.sender.value;
      var rcv := ReceiverOf(room, s).value;
      env.modelLoaded && (UserNamed(store.users, s).None? || UserNamed(store.users, rcv).None?) ==>
        r == Relay.Step([Reply(ErrorFrame(Relay.UserNotFound))], store)
    ensures ChatRequest(inbound) && ReceiverOf(room, inbound.frame.sender.value).Some? ==>
      var s := inbound.frame.sender.value;
      var rcv := ReceiverOf(room, s).value;
      env.modelLoaded && UserNamed(store.users, s).Some? && UserNamed(store.users, rcv).Some? && env.insertError.Some? ==>
        r == Relay.Step([Reply(ErrorFrame(env.insertError.value))], store)
    // A failure of the count after the insert: the sender gets its text, yet the row stays stored and is not broadcast.
    ensures ChatRequest(inbound) && ReceiverOf(room, inbound.frame.sender.value).Some? ==>
      var s := inbound.frame.sender.value;
      var rcv := ReceiverOf(room, s).value;
      var m := inbound.frame.message.value;
      env.modelLoaded && UserNamed(store.users, s).Some? && UserNamed(store.users, rcv).Some?
      && env.insertError.None? && env.countError.Some? ==>
        r == Relay.Step([Reply(ErrorFrame(env.countError.value))],
                        store.(messages := store.messages + [Message(store.nextMessageId, UserNamed(store.users, s).value,
                                                                     UserNamed(store.users, rcv).value, m, now)],
                               nextMessageId := store.nextMessageId + 1))
  {
    match inbound
    case BadJson => Relay.Step([Reply(ErrorFrame(InvalidJsonFormat))], store)
    case NotAnObject => Relay.Step([Reply(ErrorFrame(InternalServerError))], store)
    case Object(f) =>
      var kind := MessageType(f);
      if kind == "read_receipt" then
        Relay.Step([Broadcast(GroupName(room), ReadReceipt(f.sender))], store)
      else if kind == "typing" then
        Relay.Step([Broadcast(GroupName(room), TypingIndicator(f.sender, f.typing == Some(true)))], store)
      else if !Truthy(f.message) || !Truthy(f.sender) then
        Relay.Step([Reply(ErrorFrame(InvalidMessageFormat))], store)
      else
        match ReceiverOf(room, f.sender.value)
        case None => Relay.Step([Reply(ErrorFrame(InternalServerError))], store)
        case Some(receiver) =>
          var saved := SaveMessage(store, f.sender.value, receiver, f.message.value, now, env);
          match saved.0
          case Saved(id, ts) =>
            Relay.Step([Broadcast(GroupName(room), ChatMessage(f.message.value, f.sender.value, Some(id), ts))], saved.1)
          case NotSaved(e) => Relay.Step([Reply(ErrorFrame(e))], saved.1)
  }

  /**
   * On a valid room the receiver lookup cannot fail, so a well-formed chat
   * message is either broadcast or answered with the save error; it is
   * never turned into 'Internal server error'.
   */
  lemma ValidRoomHasReceiver(room: string, sender: string)
    requires ValidRoom(room)
    ensures ReceiverOf(room, sender).Some?
  {
  }

  /**
   * The group-event handlers (`chat_message`, `typing_indicator`,
   * `read_receipt`): a chat message goes out typed 'message' with its id.
   */
  function Deliver(e: GroupEvent): (f: Frame)
    ensures f.error.None?
    ensures e.ChatMessage? ==>
      f.kind == Some("message") && f.message == Some(e.message) && f.sender == Some(e.sender)
      && f.messageId == e.messageId && f.timestamp == Some(e.timestamp) && f.reader.None?
    ensures e.TypingIndicator? ==>
      f.kind == Some("typing") && f.sender == e.typist && f.typing == Some(e.typing) && f.message.None?
    ensures e.ReadReceipt? ==>
      f.kind == Some("read_receipt") && f.reader == e.reader && f.sender.None? && f.message.None?
  {
    match e
    case ChatMessage(m, s, id, ts) =>
      NoFields.(kind := Some("message"), message := Some(m), sender := Some(s), messageId := id, timestamp := Some(ts))
    case TypingIndicator(s, t) => NoFields.(kind := Some("typing"), sender := s, typing := Some(t))
    case ReadReceipt(reader) => NoFields.(kind := Some("read_receipt"), reader := reader)
  }
}
