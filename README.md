# Social platform chat — a Dafny model

This project models the chat core of a small social platform. The server
side is a Django backend with Django Channels. The client side is a React
single-page app. The model covers:

- **Invitations** (`base/views.py`, `base/models.py`): search with the
  relationship status, sending an invitation, the pending list, answering
  an invitation, the friends list, and removing a friend. The table is a
  class whose invariant keeps at most one invitation per pair of users,
  in either direction.
- **Chat views** (`chat/views.py`): user search, the "friends" list of
  everyone the caller has exchanged messages with (or everyone else when
  there is nobody), and the message history of a pair ordered by time.
- **Handshake middleware** (`chat/middleware.py`): the origin check that
  closes with code 4003, and the `token` query parameter resolved to a
  user or to the anonymous user.
- **Chat consumers**: the routed ones (`chat/consumers.py`) and the
  stricter unrouted one (`base/consumers.py`). Each is a pure function
  from one socket event to the list of things it does: join, accept,
  broadcast to the room group, reply to the sender alone, close. The
  function also gives the message tables afterwards. The routed consumer
  writes `chat.models.Message`; the stricter one writes
  `base.models.Message`, the table the chat views read. The presence consumer
  announces `online` and `offline`.
- **Conversation pane** (`Chat.js`): a class over the component's hooks
  and refs. It covers the mount checks, the room key, every branch of
  `onmessage`, typing frames with their stop timer, the read receipt sent
  on scroll, sending, closing, errors and the notification text. Every
  frame the pane sends carries the logged-in name, and this is kept as an
  invariant.
- **Shell** (`App.js`): the session restored from storage, the presence
  socket and its map of who is online, the online notices, logout, and
  which page is rendered.
- **Friends column** (`FriendsList.js`) and **search box**
  (`UserSearch.js`): their fetch state machines, the online dot, and the
  `{id, username}` handed to the shell.

Cross-component lemmas (`EndToEnd`) follow one frame from the pane that
sends it, through `receive` and the group handler, to the other pane's
`onmessage`. Their findings:

- For usernames without `_`, the room key names both participants, and
  each consumer finds the other participant as the receiver.
- With underscores, two different pairs share a room, and a message is
  stored for the wrong user (`RoomKeyCollision`).
- Neither client socket URL carries a query string, so every handshake
  reaches the consumers as the anonymous user. The consumers never read
  the user (`ClientHandshakeIsAnonymous`).

Strings are sequences of characters. Database rows are sequences in table
order. Clock readings are integers passed in as parameters.

## Model

| member | source | states |
|---|---|---|
| Models.NewInvitation | social_platform/base/models.py:5-14 | a new invitation has the given parties and the default status 'pending', one of the three choices |
| Models.InvitationText | social_platform/base/models.py:20-21 | the text form is the sender's name, " to ", the receiver's name, then " (<status>)"; its length is fixed by the parts |
| Models.NewInvitationText | social_platform/base/tests.py:17 | a new invitation from 'user1' to 'user2' reads "user1 to user2 (pending)" |
| Models.MessageText | social_platform/base/models.py:48-49 | the text form is the sender's name, " to ", the receiver's name, ": ", then the content cut to its first 20 characters, never longer |
| Models.InsertByTime | social_platform/base/models.py:45-46 | inserting into a time-sorted list keeps it sorted and adds exactly that message (multiset) |
| Models.SortByTime | social_platform/base/models.py:45-46 | the default ordering by timestamp yields a sorted permutation of the rows |
| Models.SortByTimeKeepsSorted | social_platform/base/models.py:45-46 | rows already in time order come back unchanged |
| Models.UserNamed | social_platform/chat/consumers.py:105-106 | the username lookup finds a user with that name, or there is none (DoesNotExist) |
| Models.UserWithId | social_platform/base/views.py:53 | the id lookup finds a user with that id, or there is none |
| Text.Split | social_platform/chat/consumers.py:56 | `str.split('_')` yields one piece more than there are separators, and no piece holds a separator |
| Text.JoinSplit | social_platform/chat/consumers.py:56 | joining the pieces with the separator gives back the original text |
| Text.SplitPair | social_platform/chat/consumers.py:56-57 | two separator-free names joined by '_' split into exactly those two names |
| Text.LexLeTotal | social_platform/frontend/src/Chat.js:108 | the string order `sort()` uses relates every two strings |
| Text.LexLeAntisymmetric | social_platform/frontend/src/Chat.js:108 | two strings that sort no later than each other are equal |
| Text.ContainsIffOccurs | social_platform/chat/views.py:15 | the substring test holds exactly when the needle occurs at some index |
| Text.TrimEmptyIffBlank | social_platform/frontend/src/Chat.js:248 | `trim()` yields the empty text exactly when every character is whitespace |
| Text.Take | social_platform/base/models.py:49 | a prefix cut to n characters has length min(len, n) and is a prefix |
| Wire.GroupName | social_platform/chat/consumers.py:11 | the room group is "chat_" followed by the room name |
| Wire.ReceiverOf | social_platform/chat/consumers.py:56-57 | the receiver is the first name unless the sender is first, then exactly the second name; it fails exactly when the sender is the only piece |
| Invitations.InviteBetween | social_platform/base/views.py:56-59 | finds an invitation between the two users in either direction, or there is none |
| Invitations.SearchRows | social_platform/base/views.py:31-45 | no more rows than users |
| Invitations.SearchRowsExact | social_platform/base/views.py:31-45 | a row is listed iff its user matches the query case-insensitively, is not the caller, and the row carries that pair's invitation status or 'none' |
| Invitations.SearchRowsDistinct | social_platform/base/views.py:31-45 | over a user table with a primary key, no two rows are for the same user |
| Invitations.PendingRows | social_platform/base/views.py:75-76 | no more rows than invitations |
| Invitations.PendingRowsExact | social_platform/base/views.py:75-76 | a row is listed iff a pending invitation to the caller has that id and sender name |
| Invitations.PendingRowsIncreasing | social_platform/base/views.py:75-76 | with ids handed out in increasing order, the rows name strictly increasing invitation ids, so no invitation is listed twice |
| Invitations.FriendsOf | social_platform/base/views.py:97-111 | no more rows than invitations |
| Invitations.FriendsOfExact | social_platform/base/views.py:97-111 | a row is listed iff an accepted invitation involves the caller, and the row names the other party and the invitation id |
| Invitations.FriendsOfIncreasing | social_platform/base/views.py:97-111 | with ids handed out in increasing order, the rows name strictly increasing invitation ids, so no invitation is listed twice |
| Invitations.ReceivedIndex | social_platform/base/views.py:86 | finds the invitation with that id received by the caller, or there is none |
| Invitations.AcceptedIndex | social_platform/base/views.py:118-121 | finds the accepted invitation with that id, or there is none |
| Invitations.AppendKeepsWellFormed | social_platform/base/views.py:61-66 | creating an invitation for a pair with none in either direction keeps at most one invitation per pair and ids increasing |
| Invitations.UpdateKeepsWellFormed | social_platform/base/views.py:87-88 | changing a status keeps the table invariant |
| Invitations.DeleteKeepsWellFormed | social_platform/base/views.py:122-123 | deleting a row keeps the table invariant |
| Invitations.InvitationTable.constructor | social_platform/base/models.py:5-18 | an empty table over unique users is well formed |
| Invitations.InvitationTable.SearchUsers | social_platform/base/views.py:29-46 | an empty query gives [], otherwise exactly the search rows |
| Invitations.InvitationTable.SendInvitation | social_platform/base/views.py:50-69 | 404 for an unknown receiver; 400 "already friends" or "already pending" when the pair has an invitation; otherwise 201, one pending invitation appended, the invariant kept |
| Invitations.InvitationTable.ListInvitations | social_platform/base/views.py:73-77 | exactly the pending invitations sent to the caller |
| Invitations.InvitationTable.RespondToInvitation | social_platform/base/views.py:81-91 | 404 unless the caller received it; a missing action, or one longer than the 10-character column on a backend that enforces the length, is a server error with no change; otherwise the status becomes the action verbatim and nothing else changes |
| Invitations.InvitationTable.ListFriends | social_platform/base/views.py:95-111 | exactly the friend rows of the caller |
| Invitations.InvitationTable.RemoveFriend | social_platform/base/views.py:115-127 | 404 unless accepted; 403 for a caller who is not a party; otherwise exactly that row is removed |
| ChatViews.SearchUsers | social_platform/chat/views.py:11-18 | an empty query gives []; otherwise a user is listed iff it matches the query case-insensitively and is not the caller |
| ChatViews.CounterpartiesExact | social_platform/chat/views.py:26-33 | the collected ids are exactly the other parties of the caller's messages |
| ChatViews.UsersWithIds | social_platform/chat/views.py:35 | a user is listed iff its id is in the set; the list is empty iff no user has such an id |
| ChatViews.UsersExcept | social_platform/chat/views.py:39 | a user is listed iff its id is not the caller's |
| ChatViews.FriendsViewExact | social_platform/chat/views.py:23-42 | with someone to talk to, exactly the users the caller exchanged messages with; with nobody, every other user |
| ChatViews.UsersWithIdsDistinct | social_platform/chat/views.py:35 | filtering distinct users yields distinct users |
| ChatViews.UsersExceptDistinct | social_platform/chat/views.py:39 | excluding the caller from distinct users yields distinct users |
| ChatViews.FriendsViewDistinct | social_platform/chat/views.py:35-41 | no user is listed twice |
| ChatViews.GetFriends | social_platform/chat/views.py:23-42 | the loop over the caller's messages computes exactly the friends view |
| ChatViews.Thread | social_platform/chat/views.py:53-55 | a message is selected iff it went between the two users in either direction |
| ChatViews.Conversation | social_platform/chat/views.py:53-56 | the selected messages sorted by timestamp, as a permutation of the selection |
| ChatViews.HistoryRows | social_platform/chat/views.py:58-64 | one row per message, in order, with the sender's name, the content and the timestamp |
| ChatViews.MessageHistory | social_platform/chat/views.py:47-67 | 404 "User not found" iff the name is unknown; otherwise the rows of the pair's messages, timestamps ascending |
| Middleware.SplitAtFirst | social_platform/chat/middleware.py:57 | splits a piece at its first '=', or reports that there is none |
| Middleware.PairOf | social_platform/chat/middleware.py:57 | a piece contributes a pair exactly when it holds an '=' followed by a non-empty value, and the pair is its split at the first '=' |
| Middleware.QueryPairs | social_platform/chat/middleware.py:57 | the parsed pairs never hold an empty value and are no more than the pieces; a single piece gives its own pair or nothing |
| Middleware.QueryPairsAppend | social_platform/chat/middleware.py:57 | pairs keep the order of the pieces: the pairs of a concatenation are the pairs of each part in turn |
| Middleware.QueryPairsExact | social_platform/chat/middleware.py:57 | a pair is parsed exactly when some piece of the query contributes it |
| Middleware.FirstValue | social_platform/chat/middleware.py:60 | the value of the first pair with the name, found among the pairs, or none exactly when no pair has the name |
| Middleware.FirstValueOfPieces | social_platform/chat/middleware.py:57-60 | looking a name up after parsing gives none exactly when no piece names it, and otherwise the value of the first piece that names it |
| Middleware.TokenKey | social_platform/chat/middleware.py:56-62 | the token is the non-empty value of the first `token=` piece of the query, and there is none exactly when no piece carries a non-empty token |
| Middleware.UserForToken | social_platform/chat/middleware.py:15-25 | a known key gives its user, any other key the anonymous user |
| Middleware.Admit | social_platform/chat/middleware.py:37-69 | refused with 4003 iff not DEBUG, the allow-list is non-empty and the origin is given and not in it; authenticated iff admitted with a known token |
| Middleware.OriginCheckOpen | social_platform/chat/middleware.py:46-47 | DEBUG, an empty allow-list or a missing origin always lets the handshake through |
| Middleware.SplitAtFirstOf | social_platform/chat/middleware.py:57 | a name without '=' followed by '=' and a value splits into that name and value |
| Middleware.TokenKeyLeading | social_platform/chat/middleware.py:34 | the documented URL form `?token=<key>`, alone or followed by more parameters, yields exactly that key |
| Relay.Connect | social_platform/chat/consumers.py:9-13 | every room is accepted: first its group is joined, then the socket accepted, nothing else |
| Relay.Disconnect | social_platform/chat/consumers.py:15-16 | the room's group is left and nothing else happens |
| Relay.SaveMessage | social_platform/chat/consumers.py:103-117 | stored iff both users exist and the database does not fail; the new row is appended to `chat.models.Message` with the current time; an unknown user gives "User not found" and no change |
| Relay.Receive | social_platform/chat/consumers.py:18-77 | typing and receipts are relayed unchanged; a message without text or sender gets an error reply; a complete message between known users is stored as the next row and broadcast with its timestamp; an unknown user gets 'User not found'; a missing receiver, another database failure or bad input closes the connection |
| Relay.UntypedIsChatMessage | social_platform/chat/consumers.py:20 | a frame without a type is handled exactly as a chat message |
| Relay.Deliver | social_platform/chat/consumers.py:80-100 | the frame each socket receives: an untyped chat message with text, sender and timestamp, or a typing or read-receipt frame |
| Relay.StatusConnect | social_platform/chat/consumers.py:122-137 | the presence group is joined, then the socket accepted, then the user announced online |
| Relay.StatusDisconnect | social_platform/chat/consumers.py:139-149 | the user is announced offline first, and the group left last |
| StrictRelay.Connect | social_platform/base/consumers.py:76-102 | accepted iff the room splits into exactly two non-empty names, neither 'undefined', after joining its group; otherwise closed without joining |
| StrictRelay.SaveMessage | social_platform/base/consumers.py:30-74 | the row is committed iff the model loaded, both users exist and the insert succeeds, and otherwise nothing changes; success is reported iff the count query after the insert also succeeds, with the row's id and time; a failing count returns its error text while the committed row stays |
| StrictRelay.Receive | social_platform/base/consumers.py:110-207 | no event closes the connection; malformed JSON and other exceptions get error replies; a complete message between known users is stored and broadcast with the new row's id; a missing model, an unknown user and a failed insert each get their own error reply and change nothing; a count failing after the insert gets its error reply while the row stays stored, unbroadcast; the tables change only by one appended row |
| StrictRelay.ValidRoomHasReceiver | social_platform/base/consumers.py:166-167 | in an accepted room the receiver lookup cannot fail |
| StrictRelay.Deliver | social_platform/base/consumers.py:209-232 | a chat message goes out typed 'message' with its id and timestamp |
| ChatPane.RoomKey | social_platform/frontend/src/Chat.js:108 | the room key is as long as both names plus the separator |
| ChatPane.RoomKeyOrdered | social_platform/frontend/src/Chat.js:108 | the key is the two names joined by '_', the one that sorts first in front |
| ChatPane.RoomKeySymmetric | social_platform/frontend/src/Chat.js:108 | both participants compute the same key |
| ChatPane.NotificationBody | social_platform/frontend/src/Chat.js:224 | a message of up to 50 characters is shown whole, a longer one as its first 50 and "..." |
| ChatPane.Classify | social_platform/frontend/src/Chat.js:119-162 | each `onmessage` branch in order: receipts and typing from others, then errors, then chat messages with text and sender; anything else is ignored |
| ChatPane.Reacted | social_platform/frontend/src/Chat.js:119-162 | a receipt, a typing frame or an error changes exactly its one field; a chat message is appended, stops the typing indicator, marks unread only when it is the peer's and notifies only then and with permission, and changes nothing else |
| ChatPane.ReactedFrame | social_platform/frontend/src/Chat.js:119-162 | no frame changes anything but the messages, the typing and read flags, the error and the notifications |
| ChatPane.HistoryEntries | social_platform/frontend/src/Chat.js:83-87 | one entry per history row, in order, with sender, text and time |
| ChatPane.Pane.constructor | social_platform/frontend/src/Chat.js:6-16 | the first render: connecting, no messages, no socket |
| ChatPane.Pane.View | social_platform/frontend/src/Chat.js:277-322 | the spinner while connecting, then the error panel iff there is an error, else the conversation |
| ChatPane.Pane.Mount | social_platform/frontend/src/Chat.js:50-75 | checks login, then the receiver's name, then its id; the first failure sets its error; otherwise history is requested and a socket opened on the room key |
| ChatPane.Pane.HistoryLoaded | social_platform/frontend/src/Chat.js:77-104 | loaded rows replace the messages; any failure leaves them empty |
| ChatPane.Pane.OnOpen | social_platform/frontend/src/Chat.js:113-117 | the spinner stops and the error clears |
| ChatPane.Pane.OnFrame | social_platform/frontend/src/Chat.js:119-162 | the new state is the reaction to the classified frame, for the pane's own name |
| ChatPane.Pane.OnError | social_platform/frontend/src/Chat.js:164-168 | a fixed error text and the spinner stops |
| ChatPane.Pane.OnClose | social_platform/frontend/src/Chat.js:170-177 | the spinner stops; codes other than 1000 and 1001 report the connection lost |
| ChatPane.Pane.Keystroke | social_platform/frontend/src/Chat.js:190-214 | the input follows the field; with the socket open, one typing frame is sent and the stop timer (re)armed |
| ChatPane.Pane.TimerFires | social_platform/frontend/src/Chat.js:204-212 | `typing: false` goes out iff the socket is still open |
| ChatPane.Pane.Scroll | social_platform/frontend/src/Chat.js:24-39 | the scroll button shows away from the bottom; a receipt is sent once at the bottom while unread and open, marking read |
| ChatPane.Pane.Send | social_platform/frontend/src/Chat.js:247-275 | blank input does nothing; a closed socket gives an alert; otherwise `typing: false` then the untrimmed message go out, and the input clears |
| ChatPane.Pane.Unmount | social_platform/frontend/src/Chat.js:179-187 | a connecting or open socket starts closing, a closing or closed one stays as it is, and the typing timer is cancelled |
| Shell.OnlineNotice | social_platform/frontend/src/App.js:84-87 | the notice "New Activity" with "<user> is now online!" |
| Shell.App.constructor | social_platform/frontend/src/App.js:11-16 | the first render: loading, nobody logged in, no socket |
| Shell.App.View | social_platform/frontend/src/App.js:113-187 | loading first; without a user, the register or login form; else the dashboard, with a chat only for a peer with a name |
| Shell.App.RestoreSession | social_platform/frontend/src/App.js:19-30 | the user is restored iff both token and username are stored; loading ends either way |
| Shell.App.ConnectPresence | social_platform/frontend/src/App.js:68-72 | a presence socket is opened for the logged-in user, never without one |
| Shell.App.OnPresence | social_platform/frontend/src/App.js:78-90 | the user's entry is set and every other entry kept; a notice only for someone else coming online with permission |
| Shell.App.Logout | social_platform/frontend/src/App.js:106-111 | storage cleared, socket closed, and every hook back to its initial value |
| Shell.App.SelectChat | social_platform/frontend/src/App.js:166-171 | the chosen peer becomes the active chat |
| Shell.App.ToggleRegister | social_platform/frontend/src/App.js:128 | switches between the login and register forms |
| FriendsList.CardsOf | social_platform/frontend/src/FriendsList.js:39-40 | one card per friend, in order, online iff the presence map says 'online' |
| FriendsList.Selection | social_platform/frontend/src/FriendsList.js:54-57 | a click passes exactly the friend's id and username |
| FriendsList.Panel.constructor | social_platform/frontend/src/FriendsList.js:6-8 | no friends, not loading, no error |
| FriendsList.Panel.View | social_platform/frontend/src/FriendsList.js:29-92 | the loading text first, then the error, then the cards with the hint iff there are none |
| FriendsList.Panel.FetchStarted | social_platform/frontend/src/FriendsList.js:11-12 | loading starts and the error clears |
| FriendsList.Panel.FetchSettled | social_platform/frontend/src/FriendsList.js:13-22 | rows replace the list; a failure keeps it and shows "Failed to load friends"; loading ends either way |
| UserSearch.SearchBox.constructor | social_platform/frontend/src/UserSearch.js:5-6 | empty query and results |
| UserSearch.SearchBox.Typed | social_platform/frontend/src/UserSearch.js:8-22 | the query is the typed value; longer than one character sends it; otherwise the results clear |
| UserSearch.SearchBox.ResponseArrived | social_platform/frontend/src/UserSearch.js:14-19 | rows replace the results; a failure leaves everything as it was |
| UserSearch.SearchBox.Pick | social_platform/frontend/src/UserSearch.js:39-47 | passes exactly id and username, and clears the query and the results |
| EndToEnd.RoomKeyNamesPeer | social_platform/chat/consumers.py:56-57 | for names without '_', the room key splits into the two names and each side's receiver is the other |
| EndToEnd.StrictConsumerAcceptsRoom | social_platform/base/consumers.py:84-101 | the stricter consumer accepts every room the pane builds from usable names without '_' |
| EndToEnd.RoomKeyCollision | social_platform/frontend/src/Chat.js:108 | ("a_b","c") and ("a","b_c") share a room, and messages from "a_b" and from "c" there are stored for "a" |
| EndToEnd.MessageReachesBothPanes | social_platform/chat/consumers.py:45-85 | a message the pane sends is stored in `chat.models.Message` from sender to peer, broadcast, and appended by both panes |
| EndToEnd.RoutedMessageMissesViews | social_platform/chat/consumers.py:5 | whatever the routed consumer receives, the friends view and the message history, which read `base.models.Message` (social_platform/chat/views.py:6), come out the same as before |
| EndToEnd.MessageReachesBothPanesStrict | social_platform/base/consumers.py:152-217 | the same through the stricter consumer, with the row id in the broadcast |
| EndToEnd.TypingReachesPeer | social_platform/chat/consumers.py:23-32 | a typing frame is relayed with nothing stored; the peer shows it and the sender ignores its own |
| EndToEnd.ReadReceiptReachesPeer | social_platform/chat/consumers.py:35-43 | a receipt comes back naming its sender as reader; the peer marks read and the sender ignores it |
| EndToEnd.ClientHandshakeIsAnonymous | social_platform/frontend/src/Chat.js:111 | the client's socket URL carries no query, so an admitted handshake is anonymous |

## Left out

- Rendering, styling, animations, scrolling the view to the bottom and the clock text (`toLocaleTimeString`, `isoformat`). Time is an integer instant.
- Browser and platform APIs: `WebSocket`, `localStorage`, `Notification`, `alert` and `window.location.reload`. Each is a field, a parameter or an appended record.
- The permission request in `showMessageNotification` when the permission is undecided. It is asynchronous and re-enters the function. The model raises a notice only with permission granted.
- `requestNotificationPermission` in `App.js`: a browser prompt with no effect on the modelled state.
- `refreshFriends` in `App.js` never changes, so the friends column fetches once. `FetchStarted` and `FetchSettled` model that fetch.
- Login, registration (`Login.js`, `Register.js`, `register_user`, `login_view`), `api.js` and the serializers are not part of this model.
- `Profile` in `base/models.py`: nothing in the core reads or writes it.
- `chat.models.Message` is not part of this model: its rows are taken to have the fields of `base.models.Message` (social_platform/base/models.py:31-49). The two tables are kept apart, so a message relayed by the routed consumer never reaches `get_friends` or the message history, as in the source.
- Percent-decoding in `parse_qs` and its turning '+' into a space (social_platform/chat/middleware.py:57), the `.decode("utf-8")` of the Origin header and of the query string, which raises on bytes that are not UTF-8 (social_platform/chat/middleware.py:39, :56), and a header given twice (the last one wins in the header dictionary). The model takes both as already-decoded strings.
- String lengths are counted in characters, not in UTF-16 code units, and `LexLe` compares characters where `Array.prototype.sort` compares UTF-16 code units; the two orders differ for characters outside the Basic Multilingual Plane, which the JavaScript sort places below U+E000–U+FFFF. Case folding is ASCII only.
- Switching peers on a live pane: `App` renders `<Chat>` without a `key` (social_platform/frontend/src/App.js:180), so choosing another peer keeps the pane's state and the old socket's close handler can still change the new conversation's spinner and error. The model starts a `Pane` per peer and has no peer switch on a live pane.
- Relay.Receive, StrictRelay.Receive: `typing` is modelled as true exactly when the frame says true. Both consumers relay any JSON value (chat/consumers.py:29, base/consumers.py:137), and the pane stores it as it is.
- UserSearch.SearchBox.Typed: the request records the typed value as the search term. The source puts it into `users/?search=${value}` without encoding (frontend/src/UserSearch.js:14), so a value holding '&', '#', '+' or '%' reaches `search_users` as a different term; that rewriting is not modelled.
- Wire.Frame: JSON values of an unexpected type (a number as `message`, say) are not modelled. A field is a string, absent or null.
- Concurrency: overlapping requests, several sockets per room, and responses that arrive after the component unmounted. Every handler runs to completion, one at a time.
- ChatPane.Pane.HistoryLoaded: rows replace `messages` outright, as in the source. A live message that arrived before the history response is dropped.
- The ASGI routing pattern `[\w_]+` and which consumer is routed: `base/consumers.py` is modelled as written even though the router does not serve it.
- Query results are taken in table order wherever Django gives no ordering (users, invitations, the `first()` of an unordered filter).
- Errors other than those the source names (a database failure in the HTTP views, say). The Django REST framework turns them into 500 responses, and they are left out, except where the source itself names them or its schema forces them (`RespondToInvitation` with a missing action, or with an action longer than the status column on PostgreSQL).
