/**
 * The conversation pane of the React client (`Chat.js`). Its state hooks and
 * refs are the fields of `ChatPane`; every effect, socket callback and UI
 * handler is a method that runs to completion before the next one (the
 * browser has one event loop). The socket is its ready state, and what the
 * pane sends on it is appended to `outbox`.
 */
module ChatPane {
  import opened Text
  import opened Wire
  import ChatViews

  // ---------------------------------------------------------------------------
  // Pure helpers
  // ---------------------------------------------------------------------------

  /**
   * `[a, b].sort().join("_")`: the two names in lexicographic order, joined by '_'.
   */
  function RoomKey(a: string, b: string): (r: string)
    ensures |r| == |a| + |b| + 1
  {
    if LexLe(a, b) then a + "_" + b else b + "_" + a
  }

  /** The key is one of the two joins: the one whose first name sorts no later than the second. */
  lemma RoomKeyOrdered(a: string, b: string)
    ensures var r := RoomKey(a, b);
      (r == a + "_" + b && LexLe(a, b)) || (r == b + "_" + a && LexLe(b, a))
  {
  }

  /** Both participants compute the same room key, whichever of them opens the pane. */
  lemma RoomKeySymmetric(a: string, b: string)
    ensures RoomKey(a, b) == RoomKey(b, a)
  {
    LexLeTotal(a, b);
    if LexLe(a, b) && LexLe(b, a) {
      LexLeAntisymmetric(a, b);
    }
  }

  /** How many characters of a message a notification shows before the ellipsis. */
  const NoticePreview: nat := 50

  /** The notification body: the message itself up to 50 characters, else its first 50 and "...". */
  function NotificationBody(message: string): (body: string)
    ensures |body| <= NoticePreview + 3
    ensures |message| <= NoticePreview ==> body == message
    ensures |message| > NoticePreview ==> body == message[..NoticePreview] + "..." && |body| == NoticePreview + 3
  {
    if |message| > NoticePreview then message[..NoticePreview] + "..." else message
  }

  /** A receiver name the mount effect accepts: present, non-empty, and not the text of a missing value. */
  predicate UsableName(name: Option<string>)
  {
    Truthy(name) && name.value != "undefined" && name.value != "null"
  }

  /** `!receiverId` fails for a missing id and for 0. */
  predicate UsableId(id: Option<int>)
  {
    id.Some? && id.value != 0
  }

  /** What `onmessage` does with a frame, for a pane whose own name is `me`. */
  datatype Reaction =
    | MarkRead                              // the peer read our messages
    | SetTyping(typing: bool)               // the peer started or stopped typing
    | ShowError(error: string)              // the consumer reported an error
    | Append(sender: string, message: string)
    | Ignore

  /**
   * The branches of `onmessage`, in order: a read receipt or typing frame
   * is handled (or ignored when it is our own) and goes no further; then an
   * error; then a chat message, which needs both a message and a sender;
   * any other frame changes nothing.
   */
  function Classify(f: Frame, me: string): (r: Reaction)
    ensures r.MarkRead? <==> f.kind == Some("read_receipt") && f.reader != Some(me)
    ensures r.SetTyping? <==> f.kind == Some("typing") && f.sender != Some(me)
    ensures r.SetTyping? ==> r.typing == (f.typing == Some(true))
    ensures r.ShowError? <==> f.kind != Some("read_receipt") && f.kind != Some("typing") && Truthy(f.error)
    ensures r.ShowError? ==> f.error == Some(r.error)
    ensures r.Append? <==> f.kind != Some("read_receipt") && f.kind != Some("typing") && !Truthy(f.error)
                           && Truthy(f.message) && Truthy(f.sender)
    ensures r.Append? ==> f.sender == Some(r.sender) && f.message == Some(r.message) && r.sender != ""
  {
    if f.kind == Some("read_receipt") then (if f.reader != Some(me) then MarkRead else Ignore)
    else if f.kind == Some("typing") then (if f.sender != Some(me) then SetTyping(f.typing == Some(true)) else Ignore)
    else if Truthy(f.error) then ShowError(f.error.value)
    else if Truthy(f.message) && Truthy(f.sender) then Append(f.sender.value, f.message.value)
    else Ignore
  }

  /** Every frame in `frames` names `who` as its sender. */
  predicate SentBy(frames: seq<Frame>, who: Option<string>)
  {
    forall k :: 0 <= k < |frames| ==> frames[k].sender == who
  }

  // ---------------------------------------------------------------------------
  // State
  // ---------------------------------------------------------------------------

  /** `WebSocket.readyState`. */
  datatype ReadyState = Connecting | Open | Closing | Closed

  /** One entry of `messages`; the time is the instant it was received or stored (its clock rendering is not modelled). */
  datatype Entry = Entry(sender: string, message: string, time: int)

  /** `Notification.permission`, or a browser without the Notification API. */
  datatype Permission = Granted | Denied | Undecided | Unsupported

  /** A desktop notification the pane raised: its title and body. */
  datatype Notice = Notice(title: string, body: string)

  /** What the pane renders: the spinner, the error panel, or the conversation. */
  datatype Screen = Spinner | ErrorPanel(error: string) | Conversation

  const NotLoggedIn := "You are not logged in"
  const InvalidSelection := "Invalid chat selection. Please try again."
  const InvalidUserId := "Invalid user ID"
  const ConnectionErrorText := "Connection error occurred"
  const ConnectionLost := "Connection lost. Please refresh the page."
  const NotConnectedAlert := "Connection not established. Please refresh and try again."

  /** The distance from the bottom under which the view counts as scrolled to the end. */
  const BottomSlack := 100

  /** Every field of the pane at one moment. */
  datatype PaneState = PaneState(
    authUser: Option<string>, receiverId: Option<int>, receiverName: Option<string>,
    messages: seq<Entry>, input: string, connectionError: Option<string>,
    isConnecting: bool, isTyping: bool, showScrollButton: bool, allMessagesRead: bool,
    socket: Option<ReadyState>, room: string, timerPending: bool, historyPending: bool,
    outbox: seq<Frame>, notifications: seq<Notice>, alerts: seq<string>)

  class Pane {
    // Props and the stored login name.
    var authUser: Option<string>
    var receiverId: Option<int>
    var receiverName: Option<string>
    // State hooks.
    var messages: seq<Entry>
    var input: string
    var connectionError: Option<string>
    var isConnecting: bool
    var isTyping: bool
    var showScrollButton: bool
    var allMessagesRead: bool
    // Refs and effects: the socket, the room it joined, the pending typing timer, the pending history fetch.
    var socket: Option<ReadyState>
    var room: string
    var timerPending: bool
    var historyPending: bool
    // What the pane has sent on the socket, raised as notifications, and shown as alerts, in order.
    var outbox: seq<Frame>
    var notifications: seq<Notice>
    var alerts: seq<string>

    function Snapshot(): PaneState
      reads this
    {
      PaneState(authUser, receiverId, receiverName, messages, input, connectionError,
        isConnecting, isTyping, showScrollButton, allMessagesRead,
        socket, room, timerPending, historyPending, outbox, notifications, alerts)
    }

    /** The mount effect got past its three checks. */
    predicate Mounted()
      reads this`authUser, this`receiverId, this`receiverName
    {
      Truthy(authUser) && UsableName(receiverName) && UsableId(receiverId)
    }

    /**
     * A socket exists only after a successful mount; a typing timer and a
     * sent frame need a socket; every frame the pane sent carries the
     * logged-in name as its sender.
     */
    ghost predicate Valid()
      reads this`authUser, this`receiverId, this`receiverName, this`socket, this`room,
        this`timerPending, this`historyPending, this`outbox
    {
      && (socket.Some? ==> Mounted())
      && (timerPending ==> socket.Some?)
      && (historyPending ==> Mounted())
      && (outbox != [] ==> socket.Some?)
      && SentBy(outbox, authUser)
    }

    /** The first render, before any effect has run. */
    constructor (authUser: Option<string>, receiverId: Option<int>, receiverName: Option<string>)
      ensures Valid()
      ensures Snapshot() == PaneState(authUser, receiverId, receiverName, [], "", None,
        true, false, false, false, None, "", false, false, [], [], [])
    {
      this.authUser := authUser;
      this.receiverId := receiverId;
      this.receiverName := receiverName;
      messages := [];
      input := "";
      connectionError := None;
      isConnecting := true;
      isTyping := false;
      showScrollButton := false;
      allMessagesRead := false;
      socket := None;
      room := "";
      timerPending := false;
      historyPending := false;
      outbox := [];
      notifications := [];
      alerts := [];
    }

    /** The rendered screen: the spinner while connecting, then an error if there is one, else the conversation. */
    function View(): (s: Screen)
      reads this
      ensures s.Spinner? <==> isConnecting
      ensures s.ErrorPanel? <==> !isConnecting && Truthy(connectionError)
      ensures s.ErrorPanel? ==> connectionError == Some(s.error)
    {
      if isConnecting then Spinner
      else if Truthy(connectionError) then ErrorPanel(connectionError.value)
      else Conversation
    }

    /**
     * The mount effect. The checks run in order (login, then the receiver's
     * name, then its id); the first that fails sets its own error, stops the
     * spinner, and neither fetches history nor opens a socket. Otherwise the
     * error is cleared, the history is requested and a socket is opened on
     * the room of the two names.
     */
    method Mount()
      requires Valid()
      modifies this
      ensures Valid()
      ensures !Truthy(old(authUser)) ==>
        Snapshot() == old(Snapshot()).(connectionError := Some(NotLoggedIn), isConnecting := false)
      ensures Truthy(old(authUser)) && !UsableName(old(receiverName)) ==>
        Snapshot() == old(Snapshot()).(connectionError := Some(InvalidSelection), isConnecting := false)
      ensures Truthy(old(authUser)) && UsableName(old(receiverName)) && !UsableId(old(receiverId)) ==>
        Snapshot() == old(Snapshot()).(connectionError := Some(InvalidUserId), isConnecting := false)
      ensures old(Mounted()) ==>
        Snapshot() == old(Snapshot()).(connectionError := None, isConnecting := true, allMessagesRead := false,
          historyPending := true, socket := Some(Connecting), room := RoomKey(old(authUser).value, old(receiverName).value))
    {
      if !Truthy(authUser) {
        connectionError := Some(NotLoggedIn);
        isConnecting := false;
        return;
      }
      if !Truthy(receiverName) || receiverName.value == "undefined" || receiverName.value == "null" {
        connectionError := Some(InvalidSelection);
        isConnecting := false;
        return;
      }
      if !UsableId(receiverId) {
        connectionError := Some(InvalidUserId);
        isConnecting := false;
        return;
      }
      connectionError := None;
      isConnecting := true;
      allMessagesRead := false;
      historyPending := true;
      room := RoomKey(authUser.value, receiverName.value);
      socket := Some(Connecting);
    }

    /**
     * The history request settles. Rows that arrive replace `messages`
     * outright; every failure (404, 401 or anything else) leaves an empty
     * conversation.
     */
    method HistoryLoaded(rows: Option<seq<ChatViews.HistoryRow>>)
      requires Valid() && historyPending
      modifies this
      ensures Valid()
      ensures Snapshot() == old(Snapshot()).(historyPending := false,
        messages := if rows.Some? then HistoryEntries(rows.value) else [])
    {
      historyPending := false;
      if rows.Some? {
        messages := HistoryEntries(rows.value);
      } else {
        messages := [];
      }
    }

    /** `onopen`: the spinner stops and any error is cleared. */
    method OnOpen()
      requires Valid() && socket == Some(Connecting)
      modifies this
      ensures Valid()
      ensures Snapshot() == old(Snapshot()).(socket := Some(Open), isConnecting := false, connectionError := None)
    {
      socket := Some(Open);
      isConnecting := false;
      connectionError := None;
    }

    /**
     * `onmessage`. Receipts, typing frames and errors never touch
     * `messages`; a chat message is appended at the end, clears the typing
     * indicator, and, when it comes from the peer, marks the conversation
     * unread and raises a notification if the browser allows one.
     */
    method OnFrame(f: Frame, now: int, permission: Permission)
      requires Valid() && socket.Some?
      modifies this
      ensures Valid()
      ensures Snapshot() == Reacted(old(Snapshot()), Classify(f, old(authUser).value), now, permission)
    {
      var next := Reacted(Snapshot(), Classify(f, authUser.value), now, permission);
      ReactedFrame(Snapshot(), Classify(f, authUser.value), now, permission);
      messages := next.messages;
      isTyping := next.isTyping;
      allMessagesRead := next.allMessagesRead;
      connectionError := next.connectionError;
      notifications := next.notifications;
    }

    /** `onerror`: a fixed error text and the spinner stops. */
    method OnError()
      requires Valid() && socket.Some?
      modifies this
      ensures Valid()
      ensures Snapshot() == old(Snapshot()).(connectionError := Some(ConnectionErrorText), isConnecting := false)
    {
      connectionError := Some(ConnectionErrorText);
      isConnecting := false;
    }

    /** `onclose`: the spinner stops; a close other than 1000 or 1001 also reports the connection lost. */
    method OnClose(code: int)
      requires Valid() && socket.Some?
      modifies this
      ensures Valid()
      ensures Snapshot() == old(Snapshot()).(socket := Some(Closed), isConnecting := false,
        connectionError := if code != 1000 && code != 1001 then Some(ConnectionLost) else old(connectionError))
    {
      socket := Some(Closed);
      isConnecting := false;
      if code != 1000 && code != 1001 {
        connectionError := Some(ConnectionLost);
      }
    }

    /**
     * `handleInputChange`: the input follows the field. While the socket is
     * open, one `typing: true` frame is sent and the stop timer restarts;
     * there is only ever one timer, since a new one replaces the old.
     */
    method Keystroke(value: string)
      requires Valid()
      modifies this
      ensures Valid()
      ensures socket == Some(Open) ==>
        Snapshot() == old(Snapshot()).(input := value, outbox := old(outbox) + [TypingFrame(authUser.value, true)],
          timerPending := true)
      ensures socket != Some(Open) ==> Snapshot() == old(Snapshot()).(input := value)
    {
      input := value;
      if socket == Some(Open) {
        outbox := outbox + [TypingFrame(authUser.value, true)];
        timerPending := true;
      }
    }

    /** The typing timer fires two seconds after the last keystroke: `typing: false`, if the socket is still open. */
    method TimerFires()
      requires Valid() && timerPending
      modifies this
      ensures Valid()
      ensures Snapshot() == old(Snapshot()).(timerPending := false,
        outbox := if socket == Some(Open) then old(outbox) + [TypingFrame(authUser.value, false)] else old(outbox))
    {
      timerPending := false;
      if socket == Some(Open) {
        outbox := outbox + [TypingFrame(authUser.value, false)];
      }
    }

    /**
     * `handleScroll`, with `gap` the distance from the bottom. A read receipt
     * goes out only at the bottom, when the conversation is not yet marked
     * read and the socket is open; sending it marks the conversation read,
     * so scrolling again sends nothing until a peer's message arrives.
     */
    method Scroll(gap: int)
      requires Valid()
      modifies this
      ensures Valid()
      ensures var send := gap < BottomSlack && !old(allMessagesRead) && socket == Some(Open);
        Snapshot() == old(Snapshot()).(
          showScrollButton := gap >= BottomSlack,
          outbox := if send then old(outbox) + [ReadReceiptFrame(authUser.value)] else old(outbox),
          allMessagesRead := if send then true else old(allMessagesRead))
    {
      var atBottom := gap < BottomSlack;
      showScrollButton := !atBottom;
      if atBottom && !allMessagesRead && socket == Some(Open) {
        outbox := outbox + [ReadReceiptFrame(authUser.value)];
        allMessagesRead := true;
      }
    }

    /**
     * `sendMessage`. Blank input does nothing at all; with the socket not
     * open the user gets an alert and the input stays; otherwise exactly two
     * frames go out, `typing: false` and then the message exactly as typed
     * (not trimmed), the input is cleared and the conversation marked unread.
     */
    method Send()
      requires Valid()
      modifies this
      ensures Valid()
      ensures IsBlank(old(input)) ==> Snapshot() == old(Snapshot())
      ensures !IsBlank(old(input)) && socket != Some(Open) ==>
        Snapshot() == old(Snapshot()).(alerts := old(alerts) + [NotConnectedAlert])
      ensures !IsBlank(old(input)) && socket == Some(Open) ==>
        Snapshot() == old(Snapshot()).(input := "", allMessagesRead := false,
          outbox := old(outbox) + [TypingFrame(authUser.value, false), MessageFrame(old(input), authUser.value)])
    {
      TrimEmptyIffBlank(input);
      if Trim(input) == "" {
        return;
      }
      if socket != Some(Open) {
        alerts := alerts + [NotConnectedAlert];
        return;
      }
      var me := authUser.value;
      outbox := outbox + [TypingFrame(me, false), MessageFrame(input, me)];
      input := "";
      allMessagesRead := false;
    }

    /**
     * The effect's cleanup: the socket is closed with 1000 and a pending
     * typing timer is cancelled. `close()` starts closing a connecting or
     * open socket and leaves a closing or closed one as it is.
     */
    method Unmount()
      requires Valid()
      modifies this
      ensures Valid()
      ensures Snapshot() == old(Snapshot()).(timerPending := false,
        socket := if old(socket) in {Some(Connecting), Some(Open)} then Some(Closing) else old(socket))
    {
      if socket == Some(Connecting) || socket == Some(Open) {
        socket := Some(Closing);
      }
      timerPending := false;
    }
  }

  /**
   * The pane's state after `onmessage` reacts to a frame: a receipt, a
   * typing frame or an error changes one flag and never `messages`; a chat
   * message is appended at the end and earlier entries stay as they were.
   */
  function Reacted(st: PaneState, r: Reaction, now: int, permission: Permission): (st': PaneState)
    requires st.authUser.Some?
    ensures r.Append? ==> st'.messages == st.messages + [Entry(r.sender, r.message, now)] && !st'.isTyping
    ensures !r.Append? ==> st'.messages == st.messages
    ensures r.Append? && r.sender != st.authUser.value ==> !st'.allMessagesRead
    ensures r.Append? && r.sender == st.authUser.value ==> st'.allMessagesRead == st.allMessagesRead
    ensures r.Append? ==> st' == st.(messages := st'.messages, isTyping := false, allMessagesRead := st'.allMessagesRead,
                                     notifications := st'.notifications)
    // A receipt, a typing frame or an error changes its one flag and nothing else.
    ensures r.Ignore? ==> st' == st
    ensures r.MarkRead? ==> st' == st.(allMessagesRead := true)
    ensures r.SetTyping? ==> st' == st.(isTyping := r.typing)
    ensures r.ShowError? ==> st' == st.(connectionError := Some(r.error))
    // A notification is raised only for the peer's chat message, and only with permission granted.
    ensures r.Append? && r.sender != st.authUser.value && permission == Granted ==>
      st'.notifications == st.notifications + [Notice("New message from " + r.sender, NotificationBody(r.message))]
    ensures !(r.Append? && r.sender != st.authUser.value && permission == Granted) ==> st'.notifications == st.notifications
  {
    var me := st.authUser.value;
    match r
    case MarkRead => st.(allMessagesRead := true)
    case SetTyping(t) => st.(isTyping := t)
    case ShowError(e) => st.(connectionError := Some(e))
    case Ignore => st
    case Append(s, m) =>
      st.(isTyping := false,
          allMessagesRead := if s != me then false else st.allMessagesRead,
          messages := st.messages + [Entry(s, m, now)],
          notifications := if s != me && permission == Granted
            then st.notifications + [Notice("New message from " + s, NotificationBody(m))]
            else st.notifications)
  }

  /** Whatever the frame, a reaction changes at most these five fields of the pane. */
  lemma ReactedFrame(st: PaneState, r: Reaction, now: int, permission: Permission)
    requires st.authUser.Some?
    ensures var st' := Reacted(st, r, now, permission);
      st' == st.(messages := st'.messages, isTyping := st'.isTyping, allMessagesRead := st'.allMessagesRead,
                 connectionError := st'.connectionError, notifications := st'.notifications)
  {
    match r
    case MarkRead =>
    case SetTyping(_) =>
    case ShowError(_) =>
    case Ignore =>
    case Append(_, _) =>
  }

  /** The history rows as entries: one per row, in the same order, with the row's sender, text and time. */
  function HistoryEntries(rows: seq<ChatViews.HistoryRow>): (es: seq<Entry>)
    ensures |es| == |rows|
    ensures forall k :: 0 <= k < |rows| ==>
      es[k] == Entry(rows[k].senderUsername, rows[k].content, rows[k].timestamp)
  {
    seq(|rows|, k requires 0 <= k < |rows| => Entry(rows[k].senderUsername, rows[k].content, rows[k].timestamp))
  }
}
