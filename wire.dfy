/**
 * The JSON shapes that travel on the chat and presence sockets, and the room
 * name conventions both chat consumers share.
 */
module Wire {
  import opened Text

  /**
   * A JSON object on a chat socket. Each key that the client or a consumer
   * reads or writes is a field; `None` stands for an absent key or a JSON
   * null, which every reader in the system treats alike.
   */
  datatype Frame = Frame(
    kind: Option<string>,      // "type"
    message: Option<string>,
    sender: Option<string>,
    reader: Option<string>,
    typing: Option<bool>,
    error: Option<string>,
    messageId: Option<nat>,    // "message_id"
    timestamp: Option<int>)

  const NoFields := Frame(None, None, None, None, None, None, None, None)

  /** What a consumer's `receive` gets: text that is not JSON, JSON that is not an object, or an object. */
  datatype Inbound = BadJson | NotAnObject | Object(frame: Frame)

  /** Truthiness of a string field, the same in Python and JavaScript: present and not empty. */
  predicate Truthy(f: Option<string>)
  {
    f.Some? && f.value != ""
  }

  /** `{"error": e}`. */
  function ErrorFrame(e: string): Frame
  {
    NoFields.(error := Some(e))
  }

  /** `{type: 'typing', sender, typing}` as the client sends it. */
  function TypingFrame(sender: string, typing: bool): Frame
  {
    NoFields.(kind := Some("typing"), sender := Some(sender), typing := Some(typing))
  }

  /** `{type: 'read_receipt', sender}` as the client sends it. */
  function ReadReceiptFrame(sender: string): Frame
  {
    NoFields.(kind := Some("read_receipt"), sender := Some(sender))
  }

  /** `{type: 'message', message, sender}` as the client sends it. */
  function MessageFrame(message: string, sender: string): Frame
  {
    NoFields.(kind := Some("message"), message := Some(message), sender := Some(sender))
  }

  /** A presence event `{user, status}` on the status socket. */
  datatype Presence = Presence(user: string, status: string)

  /** The events a chat consumer hands to its room's group. */
  datatype GroupEvent =
    | ChatMessage(message: string, sender: string, messageId: Option<nat>, timestamp: int)
    | TypingIndicator(typist: Option<string>, typing: bool)
    | ReadReceipt(reader: Option<string>)

  /** What a consumer does in answer to one socket event, in order. */
  datatype Output =
    | Accept
    | Join(group: string)
    | Leave(group: string)
    | Broadcast(group: string, event: GroupEvent)   // channel_layer.group_send to a chat room
    | Announce(group: string, update: Presence)     // channel_layer.group_send to the presence group
    | Reply(frame: Frame)                           // self.send(...): this connection only
    | Close                                         // self.close(), or the connection dropped by an uncaught exception

  /** The channel-layer group of a chat room. */
  function GroupName(room: string): (g: string)
    ensures |g| == |room| + 5 && g[..5] == "chat_" && g[5..] == room
  {
    "chat_" + room
  }

  /** The one group every presence socket joins. */
  const StatusGroup := "user_status"

  /**
   * `users = room.split('_')`, then `users[1] if users[0] == sender else users[0]`.
   * `None` is the `IndexError` raised when the sender is the only piece.
   */
  function ReceiverOf(room: string, sender: string): (r: Option<string>)
    ensures r.None? <==> Split(room, '_')[0] == sender && '_' !in room
    ensures r.Some? ==> r.value in Split(room, '_')
    ensures r.Some? && Split(room, '_')[0] != sender ==> r.value == Split(room, '_')[0]
    // The sender named first: the receiver is the second part of the room name.
    ensures Split(room, '_')[0] == sender && |Split(room, '_')| > 1 ==> r == Some(Split(room, '_')[1])
  {
    var users := Split(room, '_');
    if users[0] == sender then
      if |users| > 1 then Some(users[1]) else None
    else Some(users[0])
  }
}
