/**
 * The friends column of the React client (`FriendsList.js`): it fetches the
 * list from `get_friends`, shows a loading text, an error or the cards, and
 * marks each friend online from the shell's presence map.
 */
module FriendsList {
  import opened Text
  import opened Models

  const LoadFailed := "Failed to load friends"

  /** `onlineUsers[username] === 'online'`. */
  predicate IsOnline(onlineUsers: map<string, string>, username: string)
  {
    username in onlineUsers && onlineUsers[username] == "online"
  }

  /** One rendered card: the friend and whether the dot is green. */
  datatype Card = Card(friend: User, online: bool)

  /** What the column renders: the loading text, the error, or the cards (with a hint when there are none). */
  datatype Column = LoadingText | ErrorText(text: string) | Cards(cards: seq<Card>, emptyHint: bool)

  /** The cards, one per friend in order, each online exactly when the presence map says 'online'. */
  function CardsOf(friends: seq<User>, onlineUsers: map<string, string>): (cards: seq<Card>)
    ensures |cards| == |friends|
    ensures forall k :: 0 <= k < |friends| ==>
      cards[k].friend == friends[k] && (cards[k].online <==> IsOnline(onlineUsers, friends[k].username))
  {
    seq(|friends|, k requires 0 <= k < |friends| => Card(friends[k], IsOnline(onlineUsers, friends[k].username)))
  }

  /** A click hands the shell exactly `{id, username}` of the friend. */
  function Selection(friend: User): (peer: User)
    ensures peer.id == friend.id && peer.username == friend.username
  {
    User(friend.id, friend.username)
  }

  datatype PanelState = PanelState(friends: seq<User>, loading: bool, error: string)

  class Panel {
    var friends: seq<User>
    var loading: bool
    var error: string

    function Snapshot(): PanelState
      reads this
    {
      PanelState(friends, loading, error)
    }

    constructor ()
      ensures Snapshot() == PanelState([], false, "")
    {
      friends := [];
      loading := false;
      error := "";
    }

    /** The rendered column: loading first, then the error, then the list. */
    function View(onlineUsers: map<string, string>): (c: Column)
      reads this
      ensures c.LoadingText? <==> loading
      ensures c.ErrorText? <==> !loading && error != ""
      ensures c.ErrorText? ==> c.text == error
      ensures c.Cards? ==> c.cards == CardsOf(friends, onlineUsers) && (c.emptyHint <==> friends == [])
    {
      if loading then LoadingText
      else if error != "" then ErrorText(error)
      else Cards(CardsOf(friends, onlineUsers), |friends| == 0)
    }

    /** `fetchFriends` starts: loading, and any earlier error cleared. */
    method FetchStarted()
      modifies this
      ensures Snapshot() == old(Snapshot()).(loading := true, error := "")
    {
      loading := true;
      error := "";
    }

    /**
     * The request settles: rows replace the list, a failure keeps the old
     * list and shows the error; loading ends in both cases.
     */
    method FetchSettled(rows: Option<seq<User>>)
      modifies this
      ensures rows.Some? ==> Snapshot() == old(Snapshot()).(friends := rows.value, loading := false)
      ensures rows.None? ==> Snapshot() == old(Snapshot()).(error := LoadFailed, loading := false)
    {
      if rows.Some? {
        friends := rows.value;
      } else {
        error := LoadFailed;
      }
      loading := false;
    }
  }
}
