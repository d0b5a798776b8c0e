/**
 * Properties that span the client and the server: the room key the pane
 * computes against the receiver lookup of the consumers, a frame the pane
 * sends followed through `receive`, the group handler and the peer's
 * `onmessage`, and the handshake the client's socket URLs produce.
 */
module EndToEnd {
  import opened Text
  import opened Models
  import opened Wire
  import Relay
  import StrictRelay
  import ChatPane
  import ChatViews
  import Middleware

  /**
   * For names without '_', the room key splits back into the two names, and
   * the consumer's receiver lookup gives each participant the other one
   * (a conversation with oneself names oneself).
   */
  lemma {:induction false} RoomKeyNamesPeer(a: string, b: string)
    requires '_' !in a && '_' !in b
    ensures Split(ChatPane.RoomKey(a, b), '_') in {[a, b], [b, a]}
    ensures ReceiverOf(ChatPane.RoomKey(a, b), a) == Some(b)
    ensures ReceiverOf(ChatPane.RoomKey(a, b), b) == Some(a)
  {
    ChatPane.RoomKeyOrdered(a, b);
    assert a + "_" + b == a + ['_'] + b;
    assert b + "_" + a == b + ['_'] + a;
    SplitPair(a, b, '_');
    SplitPair(b, a, '_');
  }

  /** The stricter consumer accepts every room the pane builds from two usable, distinct-or-equal names without '_'. */
  lemma StrictConsumerAcceptsRoom(a: string, b: string)
    requires '_' !in a && '_' !in b
    requires a != "" && b != "" && a != "undefined" && b != "undefined"
    ensures StrictRelay.ValidRoom(ChatPane.RoomKey(a, b))
    ensures Accept in StrictRelay.Connect(ChatPane.RoomKey(a, b))
  {
    RoomKeyNamesPeer(a, b);
  }

  /**
   * Names with '_' break the scheme: the pairs ("a_b", "c") and ("a", "b_c")
   * share the room "a_b_c", and a message from "a_b" to "c" in that room is
   * stored for "a", as is one from "c".
   */
  lemma RoomKeyCollision()
    ensures ChatPane.RoomKey("a_b", "c") == "a_b_c" && ChatPane.RoomKey("a", "b_c") == "a_b_c"
    ensures ReceiverOf("a_b_c", "a_b") == Some("a")
    ensures ReceiverOf("a_b_c", "c") == Some("a")
  {
    assert LexLe("a_b", "c") && LexLe("a", "b_c");
    assert "a_b_c" == "a" + ['_'] + "b_c";
    assert "b_c" == "b" + ['_'] + "c";
    SplitWithoutSeparator("c", '_');
    SplitAfterPiece("b", "c", '_');
    SplitAfterPiece("a", "b_c", '_');
  }

  /**
   * A message the pane of `a` sends in its room with `b`, relayed by the
   * routed consumer: it is stored from `a` to `b` at the current instant,
   * broadcast to the room, and both panes append it (the sender sees its
   * own message only through this echo).
   */
  lemma MessageReachesBothPanes(a: string, b: string, text: string, store: Store, now: int)
    requires a != "" && text != "" && '_' !in a && '_' !in b
    requires UserNamed(store.users, a).Some? && UserNamed(store.users, b).Some?
    ensures var room := ChatPane.RoomKey(a, b);
      var r := Relay.Receive(room, Object(MessageFrame(text, a)), store, now, None);
      && r.outputs == [Broadcast(GroupName(room), ChatMessage(text, a, None, now))]
      && r.store.chatMessages == store.chatMessages + [Message(store.nextChatMessageId,
           UserNamed(store.users, a).value, UserNamed(store.users, b).value, text, now)]
      && ChatPane.Classify(Relay.Deliver(r.outputs[0].event), b) == ChatPane.Append(a, text)
      && ChatPane.Classify(Relay.Deliver(r.outputs[0].event), a) == ChatPane.Append(a, text)
  {
    RoomKeyNamesPeer(a, b);
  }

  /** The same through the stricter consumer, whose broadcast carries the stored row's id. */
  lemma MessageReachesBothPanesStrict(a: string, b: string, text: string, store: Store, now: int)
    requires a != "" && text != "" && '_' !in a && '_' !in b
    requires UserNamed(store.users, a).Some? && UserNamed(store.users, b).Some?
    ensures var room := ChatPane.RoomKey(a, b);
      var r := StrictRelay.Receive(room, Object(MessageFrame(text, a)), store, now, StrictRelay.SaveEnv(true, None, None));
      && r.outputs == [Broadcast(GroupName(room), ChatMessage(text, a, Some(store.nextMessageId), now))]
      && r.store.messages == store.messages + [Message(store.nextMessageId,
           UserNamed(store.users, a).value, UserNamed(store.users, b).value, text, now)]
      && ChatPane.Classify(StrictRelay.Deliver(r.outputs[0].event), b) == ChatPane.Append(a, text)
      && ChatPane.Classify(StrictRelay.Deliver(r.outputs[0].event), a) == ChatPane.Append(a, text)
  {
    RoomKeyNamesPeer(a, b);
    assert StrictRelay.ChatRequest(Object(MessageFrame(text, a)));
  }

  /**
   * The routed consumer stores chat messages in `chat.models.Message`, while
   * `get_friends` and the message history read `base.models.Message`: a
   * message relayed through it never shows up in either view.
   */
  lemma RoutedMessageMissesViews(room: string, inbound: Inbound, store: Store, now: int, dbError: Option<string>,
                                 caller: User, username: string)
    ensures var after := Relay.Receive(room, inbound, store, now, dbError).store;
      && ChatViews.FriendsView(after.users, after.messages, caller) == ChatViews.FriendsView(store.users, store.messages, caller)
      && ChatViews.MessageHistory(after, caller, username) == ChatViews.MessageHistory(store, caller, username)
  {
  }

  /**
   * A typing frame from `me` reaches every pane in the room, through either
   * consumer, with nothing stored: another pane shows or hides the
   * indicator, and `me`'s own pane ignores it.
   */
  lemma TypingReachesPeer(room: string, me: string, other: string, typing: bool, store: Store, now: int,
                          dbError: Option<string>, env: StrictRelay.SaveEnv)
    ensures var r := Relay.Receive(room, Object(TypingFrame(me, typing)), store, now, dbError);
      && r == Relay.Step([Broadcast(GroupName(room), TypingIndicator(Some(me), typing))], store)
      && ChatPane.Classify(Relay.Deliver(r.outputs[0].event), other)
         == (if other != me then ChatPane.SetTyping(typing) else ChatPane.Ignore)
    ensures var r := StrictRelay.Receive(room, Object(TypingFrame(me, typing)), store, now, env);
      && r == Relay.Step([Broadcast(GroupName(room), TypingIndicator(Some(me), typing))], store)
      && ChatPane.Classify(StrictRelay.Deliver(r.outputs[0].event), other)
         == (if other != me then ChatPane.SetTyping(typing) else ChatPane.Ignore)
  {
  }

  /**
   * A read receipt from `me` comes back with `me` as its reader: another
   * pane marks its messages read, and `me`'s own pane ignores it.
   */
  lemma ReadReceiptReachesPeer(room: string, me: string, other: string, store: Store, now: int,
                               dbError: Option<string>, env: StrictRelay.SaveEnv)
    ensures var r := Relay.Receive(room, Object(ReadReceiptFrame(me)), store, now, dbError);
      && r == Relay.Step([Broadcast(GroupName(room), ReadReceipt(Some(me)))], store)
      && ChatPane.Classify(Relay.Deliver(r.outputs[0].event), other)
         == (if other != me then ChatPane.MarkRead else ChatPane.Ignore)
    ensures var r := StrictRelay.Receive(room, Object(ReadReceiptFrame(me)), store, now, env);
      && r == Relay.Step([Broadcast(GroupName(room), ReadReceipt(Some(me)))], store)
      && ChatPane.Classify(StrictRelay.Deliver(r.outputs[0].event), other)
         == (if other != me then ChatPane.MarkRead else ChatPane.Ignore)
  {
  }

  /**
   * The client's socket URLs carry no query string, so every handshake that
   * passes the origin check reaches the consumer as the anonymous user.
   */
  lemma ClientHandshakeIsAnonymous(debug: bool, allowed: seq<string>, origin: string, tokens: map<string, User>)
    requires !Middleware.OriginRefused(debug, allowed, origin)
    ensures Middleware.Admit(debug, allowed, origin, "", tokens) == Middleware.Forwarded(Middleware.Anonymous)
  {
    SplitWithoutSeparator("", '&');
  }
}
