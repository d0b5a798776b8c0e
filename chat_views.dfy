/**
 * The REST views of `chat/views.py`: the user search, the people the caller
 * has exchanged messages with (everyone else when there is nobody yet), and
 * the history of one conversation in time order.
 */
module ChatViews {
  import opened Text
  import opened Models

  // ---------------------------------------------------------------------------
  // search_users
  // ---------------------------------------------------------------------------

  /**
   * `search_users`: nobody for an empty query, otherwise the users whose
   * name contains the query ignoring case, the caller excluded, in table
   * order. Each result is `{id, username}`, which is exactly a `User`.
   */
  function SearchUsers(users: seq<User>, caller: User, query: string): (r: seq<User>)
    ensures query == "" ==> r == []
    ensures query != "" ==> forall u :: u in r <==> u in users && Matches(u, caller, query)
    ensures |r| <= |users|
    decreases |users|
  {
    if query == "" || |users| == 0 then []
    else
      var u := users[|users| - 1];
      var init := users[..|users| - 1];
      assert users == init + [u];
      SearchUsers(init, caller, query) + (if Matches(u, caller, query) then [u] else [])
  }

  // ---------------------------------------------------------------------------
  // get_friends
  // ---------------------------------------------------------------------------

  /** `Q(sender=user) | Q(receiver=user)`; Django compares users by primary key. */
  predicate Involves(m: Message, caller: User)
  {
    m.sender.id == caller.id || m.receiver.id == caller.id
  }

  /** The id the loop adds for a message: the receiver's when the caller sent it, the sender's otherwise. */
  function Counterparty(m: Message, caller: User): int
  {
    if m.sender.id == caller.id then m.receiver.id else m.sender.id
  }

  /** The `friend_ids` set after the loop has seen `ms`. */
  function Counterparties(ms: seq<Message>, caller: User): set<int>
    decreases |ms|
  {
    if |ms| == 0 then {}
    else
      var last := ms[|ms| - 1];
      Counterparties(ms[..|ms| - 1], caller) + (if Involves(last, caller) then {Counterparty(last, caller)} else {})
  }

  /** The ids collected are exactly the counterparties of the messages the caller sent or received. */
  lemma {:induction false} CounterpartiesExact(ms: seq<Message>, caller: User)
    ensures forall id :: id in Counterparties(ms, caller) <==>
      exists m :: m in ms && Involves(m, caller) && Counterparty(m, caller) == id
    decreases |ms|
  {
    if |ms| > 0 {
      var last := ms[|ms| - 1];
      var init := ms[..|ms| - 1];
      assert ms == init + [last];
      CounterpartiesExact(init, caller);
      forall id
        ensures id in Counterparties(ms, caller) <==>
          exists m :: m in ms && Involves(m, caller) && Counterparty(m, caller) == id
      {
        if id in Counterparties(init, caller) {
          var m :| m in init && Involves(m, caller) && Counterparty(m, caller) == id;
          assert m in ms;
        } else if Involves(last, caller) && Counterparty(last, caller) == id {
          assert last in ms;
        }
        if exists m :: m in ms && Involves(m, caller) && Counterparty(m, caller) == id {
          var m :| m in ms && Involves(m, caller) && Counterparty(m, caller) == id;
          if m != last {
            assert m in init;
          }
        }
      }
    }
  }

  /** `User.objects.filter(id__in=ids)`, in table order. */
  function UsersWithIds(users: seq<User>, ids: set<int>): (r: seq<User>)
    ensures forall u :: u in r <==> u in users && u.id in ids
    ensures r == [] <==> forall u :: u in users ==> u.id !in ids
    ensures |r| <= |users|
    decreases |users|
  {
    if |users| == 0 then []
    else
      var u := users[|users| - 1];
      var init := users[..|users| - 1];
      assert users == init + [u];
      UsersWithIds(init, ids) + (if u.id in ids then [u] else [])
  }

  /** `User.objects.exclude(id=id)`, in table order. */
  function UsersExcept(users: seq<User>, id: int): (r: seq<User>)
    ensures forall u :: u in r <==> u in users && u.id != id
    ensures |r| <= |users|
    decreases |users|
  {
    if |users| == 0 then []
    else
      var u := users[|users| - 1];
      var init := users[..|users| - 1];
      assert users == init + [u];
      UsersExcept(init, id) + (if u.id != id then [u] else [])
  }

  /** What `get_friends` returns: the counterparties that are users, or every other user when there are none. */
  function FriendsView(users: seq<User>, messages: seq<Message>, caller: User): (r: seq<User>)
  {
    var listed := UsersWithIds(users, Counterparties(messages, caller));
    if listed == [] then UsersExcept(users, caller.id) else listed
  }

  /** The caller sent `u` a message or received one from them. */
  ghost predicate TalkedWith(messages: seq<Message>, caller: User, u: User)
  {
    exists m :: m in messages && Involves(m, caller) && Counterparty(m, caller) == u.id
  }

  /**
   * `get_friends` lists exactly the users the caller has exchanged a message
   * with; only when there is none does it list everybody but the caller.
   */
  lemma FriendsViewExact(users: seq<User>, messages: seq<Message>, caller: User)
    ensures (exists u :: u in users && TalkedWith(messages, caller, u)) ==>
      forall u :: u in FriendsView(users, messages, caller) <==> u in users && TalkedWith(messages, caller, u)
    ensures (forall u :: u in users ==> !TalkedWith(messages, caller, u)) ==>
      forall u :: u in FriendsView(users, messages, caller) <==> u in users && u.id != caller.id
  {
    CounterpartiesExact(messages, caller);
    var ids := Counterparties(messages, caller);
    var listed := UsersWithIds(users, ids);
    assert forall u :: u in listed <==> u in users && TalkedWith(messages, caller, u);
    if exists u :: u in users && TalkedWith(messages, caller, u) {
      var u :| u in users && TalkedWith(messages, caller, u);
      assert u in listed;
    }
  }

  /** Distinct elements, as a table with a unique key has. */
  predicate Distinct<T(==)>(s: seq<T>)
  {
    forall i, j :: 0 <= i < j < |s| ==> s[i] != s[j]
  }

  lemma {:induction false} UsersWithIdsDistinct(users: seq<User>, ids: set<int>)
    requires Distinct(users)
    ensures Distinct(UsersWithIds(users, ids))
    decreases |users|
  {
    if |users| > 0 {
      var u := users[|users| - 1];
      var init := users[..|users| - 1];
      assert users == init + [u];
      assert Distinct(init);
      UsersWithIdsDistinct(init, ids);
      assert u !in init;
    }
  }

  lemma {:induction false} UsersExceptDistinct(users: seq<User>, id: int)
    requires Distinct(users)
    ensures Distinct(UsersExcept(users, id))
    decreases |users|
  {
    if |users| > 0 {
      var u := users[|users| - 1];
      var init := users[..|users| - 1];
      assert users == init + [u];
      assert Distinct(init);
      UsersExceptDistinct(init, id);
      assert u !in init;
    }
  }

  /** Because the ids go through a set and the user table has a primary key, nobody is listed twice. */
  lemma FriendsViewDistinct(users: seq<User>, messages: seq<Message>, caller: User)
    requires UniqueUsers(users)
    ensures Distinct(FriendsView(users, messages, caller))
  {
    UsersWithIdsDistinct(users, Counterparties(messages, caller));
    UsersExceptDistinct(users, caller.id);
  }

  /** `get_friends`: the loop over the caller's messages collects the counterparty ids in a set. */
  method GetFriends(store: Store, caller: User) returns (friends: seq<User>)
    ensures friends == FriendsView(store.users, store.messages, caller)
  {
    var friendIds: set<int> := {};
    var i := 0;
    while i < |store.messages|
      invariant 0 <= i <= |store.messages|
      invariant friendIds == Counterparties(store.messages[..i], caller)
    {
      var m := store.messages[i];
      if m.sender.id == caller.id || m.receiver.id == caller.id {
        if m.sender.id == caller.id {
          friendIds := friendIds + {m.receiver.id};
        } else {
          friendIds := friendIds + {m.sender.id};
        }
      }
      assert store.messages[..i + 1][..i] == store.messages[..i];
      i := i + 1;
    }
    assert store.messages[..|store.messages|] == store.messages;
    friends := UsersWithIds(store.users, friendIds);
    if friends == [] {
      friends := UsersExcept(store.users, caller.id);
    }
  }

  // ---------------------------------------------------------------------------
  // MessageHistoryView
  // ---------------------------------------------------------------------------

  /** `m` went from `a` to `b` or from `b` to `a`. */
  predicate Exchanged(m: Message, a: User, b: User)
  {
    (m.sender.id == a.id && m.receiver.id == b.id) || (m.sender.id == b.id && m.receiver.id == a.id)
  }

  /** The messages between `a` and `b` in either direction, in table order. */
  function Thread(messages: seq<Message>, a: User, b: User): (r: seq<Message>)
    ensures forall m :: m in r <==> m in messages && Exchanged(m, a, b)
    ensures |r| <= |messages|
    decreases |messages|
  {
    if |messages| == 0 then []
    else
      var m := messages[|messages| - 1];
      var init := messages[..|messages| - 1];
      assert messages == init + [m];
      Thread(init, a, b) + (if Exchanged(m, a, b) then [m] else [])
  }

  /** One entry of the history response; the timestamp's ISO rendering is not modelled. */
  datatype HistoryRow = HistoryRow(senderUsername: string, content: string, timestamp: int)

  function HistoryRowOf(m: Message): HistoryRow
  {
    HistoryRow(m.sender.username, m.content, m.timestamp)
  }

  datatype HistoryResponse = NotFound(status: int, error: string) | Found(rows: seq<HistoryRow>)

  /** The conversation between `a` and `b`: every message between them, in ascending timestamp order. */
  function Conversation(messages: seq<Message>, a: User, b: User): (r: seq<Message>)
    ensures SortedByTime(r)
    ensures forall m :: m in r <==> m in messages && Exchanged(m, a, b)
    ensures multiset(r) == multiset(Thread(messages, a, b))
  {
    var thread := Thread(messages, a, b);
    var r := SortByTime(thread);
    assert forall m :: m in r <==> m in multiset(thread);
    r
  }

  /** The JSON rows of a list of messages, one per message and in the same order. */
  function HistoryRows(ms: seq<Message>): (rows: seq<HistoryRow>)
    ensures |rows| == |ms|
    ensures forall k :: 0 <= k < |ms| ==> rows[k] == HistoryRowOf(ms[k])
  {
    seq(|ms|, k requires 0 <= k < |ms| => HistoryRowOf(ms[k]))
  }

  /**
   * `MessageHistoryView`: 404 for an unknown user; otherwise the
   * conversation between the caller and that user, in ascending timestamp order.
   */
  function MessageHistory(store: Store, caller: User, username: string): (r: HistoryResponse)
    ensures r.NotFound? <==> UserNamed(store.users, username).None?
    ensures r.NotFound? ==> r == NotFound(404, "User not found")
    ensures r.Found? ==>
      && r.rows == HistoryRows(Conversation(store.messages, caller, UserNamed(store.users, username).value))
      && forall i, j :: 0 <= i < j < |r.rows| ==> r.rows[i].timestamp <= r.rows[j].timestamp
  {
    match UserNamed(store.users, username)
    case None => NotFound(404, "User not found")
    case Some(other) => Found(HistoryRows(Conversation(store.messages, caller, other)))
  }
}
