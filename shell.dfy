/**
 * The application shell of the React client (`App.js`): the session read
 * back from local storage, the presence socket and its map of who is
 * online, the chosen conversation, logout, and which page is rendered.
 */
module Shell {
  import opened Text
  import opened Models
  import opened Wire

  /** The page `App` renders. A dashboard shows a conversation only for a chosen peer with a name. */
  datatype Page = Loading | LoginForm | RegisterForm | Dashboard(chat: Option<User>)

  /** A desktop notification: its title and body. */
  datatype Alert = Alert(title: string, body: string)

  /** Every field of the shell at one moment. */
  datatype ShellState = ShellState(
    storage: map<string, string>, authUser: Option<string>, loading: bool, activeChat: Option<User>,
    showRegister: bool, onlineUsers: map<string, string>, statusSocket: Option<string>, alerts: seq<Alert>)

  /** The body of the notice raised when someone comes online. */
  function OnlineNotice(user: string): (a: Alert)
    ensures a.title == "New Activity"
    ensures |a.body| == |user| + 15
    ensures a.body[..|user|] == user && a.body[|user|..] == " is now online!"
  {
    Alert("New Activity", user + " is now online!")
  }

  /** A present, non-empty stored value (`localStorage.getItem(key)` is truthy). */
  predicate Stored(storage: map<string, string>, key: string)
  {
    key in storage && storage[key] != ""
  }

  class App {
    var storage: map<string, string>      // localStorage
    var authUser: Option<string>
    var loading: bool
    var activeChat: Option<User>
    var showRegister: bool
    var onlineUsers: map<string, string>
    var statusSocket: Option<string>      // the name the open presence socket was opened for
    var alerts: seq<Alert>

    function Snapshot(): ShellState
      reads this
    {
      ShellState(storage, authUser, loading, activeChat, showRegister, onlineUsers, statusSocket, alerts)
    }

    /** A presence socket is open only for the logged-in user, under that user's name. */
    ghost predicate Valid()
      reads this
    {
      statusSocket.Some? ==> Truthy(authUser) && statusSocket == authUser
    }

    /** The first render: nobody logged in yet, the loading page, no socket. */
    constructor (storage: map<string, string>)
      ensures Valid()
      ensures Snapshot() == ShellState(storage, None, true, None, false, map[], None, [])
    {
      this.storage := storage;
      authUser := None;
      loading := true;
      activeChat := None;
      showRegister := false;
      onlineUsers := map[];
      statusSocket := None;
      alerts := [];
    }

    /** The rendered page: loading first, then the login or register form, then the dashboard. */
    function View(): (p: Page)
      reads this
      ensures p.Loading? <==> loading
      ensures p.LoginForm? <==> !loading && !Truthy(authUser) && !showRegister
      ensures p.RegisterForm? <==> !loading && !Truthy(authUser) && showRegister
      ensures p.Dashboard? ==> Truthy(authUser)
      ensures p.Dashboard? && p.chat.Some? ==> activeChat == p.chat && p.chat.value.username != ""
      ensures p.Dashboard? && p.chat.None? ==> activeChat.None? || activeChat.value.username == ""
    {
      if loading then Loading
      else if !Truthy(authUser) then (if showRegister then RegisterForm else LoginForm)
      else Dashboard(if activeChat.Some? && activeChat.value.username != "" then activeChat else None)
    }

    /**
     * The auth check on mount: the user is restored only when both the token
     * and the username are stored; loading ends either way. It runs once, on
     * mount, before any presence socket exists.
     */
    method RestoreSession()
      requires Valid() && statusSocket.None?
      modifies this
      ensures Valid()
      ensures Stored(storage, "token") && Stored(storage, "username") ==>
        Snapshot() == old(Snapshot()).(authUser := Some(storage["username"]), loading := false)
      ensures !(Stored(storage, "token") && Stored(storage, "username")) ==>
        Snapshot() == old(Snapshot()).(loading := false)
    {
      if Stored(storage, "token") && Stored(storage, "username") {
        authUser := Some(storage["username"]);
      }
      loading := false;
    }

    /** The presence effect: a socket is opened for the logged-in user, and never without one. */
    method ConnectPresence()
      requires Valid()
      modifies this
      ensures Valid()
      ensures Truthy(authUser) ==> Snapshot() == old(Snapshot()).(statusSocket := authUser)
      ensures !Truthy(authUser) ==> Snapshot() == old(Snapshot())
    {
      if Truthy(authUser) {
        statusSocket := authUser;
      }
    }

    /**
     * A presence event: the user's entry is set to the new status and every
     * other entry stays. Someone else coming online raises a notice when
     * notifications are allowed.
     */
    method OnPresence(event: Presence, granted: bool)
      requires Valid() && statusSocket.Some?
      modifies this
      ensures Valid()
      ensures onlineUsers == old(onlineUsers)[event.user := event.status]
      ensures forall u :: u in old(onlineUsers) && u != event.user ==> u in onlineUsers && onlineUsers[u] == old(onlineUsers)[u]
      ensures Snapshot() == old(Snapshot()).(onlineUsers := onlineUsers,
        alerts := if event.status == "online" && Some(event.user) != authUser && granted
          then old(alerts) + [OnlineNotice(event.user)] else old(alerts))
    {
      onlineUsers := onlineUsers[event.user := event.status];
      if event.status == "online" && Some(event.user) != authUser && granted {
        alerts := alerts + [OnlineNotice(event.user)];
      }
    }

    /**
     * `handleLogout`: storage is cleared, the presence socket closes, and the
     * page reloads, so every hook starts over from its initial value with
     * nothing stored. Notices already shown stay shown.
     */
    method Logout()
      requires Valid()
      modifies this
      ensures Valid()
      ensures Snapshot() == ShellState(map[], None, true, None, false, map[], None, old(alerts))
    {
      storage := map[];
      authUser := None;
      statusSocket := None;
      loading := true;
      activeChat := None;
      showRegister := false;
      onlineUsers := map[];
    }

    /** `setActiveChat`, called by the friends list and the search box with `{id, username}`. */
    method SelectChat(peer: User)
      requires Valid()
      modifies this
      ensures Valid()
      ensures Snapshot() == old(Snapshot()).(activeChat := Some(peer))
    {
      activeChat := Some(peer);
    }

    /** The button under the forms switches between login and registration. */
    method ToggleRegister()
      requires Valid()
      modifies this
      ensures Valid()
      ensures Snapshot() == old(Snapshot()).(showRegister := !old(showRegister))
    {
      showRegister := !showRegister;
    }
  }
}
