/**
 * The friendship invitations of `base/views.py`: a table of invitation rows
 * that the request handlers search, extend, update and delete. Each handler
 * runs for one authenticated caller, who is a row of the user table.
 */
module Invitations {
  import opened Text
  import opened Models

  /** An HTTP answer: a body `{'message': …}` or `{'error': …}` with its status, or Django's 500 page. */
  datatype Response =
    | WithMessage(status: int, message: string)
    | WithError(status: int, error: string)
    | ServerError

  /** One result of `search_users`. */
  datatype SearchRow = SearchRow(id: int, username: string, status: string)

  /** One result of `list_invitations`. */
  datatype PendingRow = PendingRow(id: nat, sender: string)

  /** One result of `list_friends`: the other party and the invitation that makes them a friend. */
  datatype FriendRow = FriendRow(id: int, username: string, inviteId: nat)

  /** `inv` links `a` and `b`, in either direction. */
  predicate Between(inv: Invitation, a: User, b: User)
  {
    (inv.sender == a && inv.receiver == b) || (inv.sender == b && inv.receiver == a)
  }

  /** The first invitation linking `a` and `b` in either direction (the `.first()` of the mutual filter). */
  function InviteBetween(rows: seq<Invitation>, a: User, b: User): (r: Option<Invitation>)
    ensures r.Some? ==> r.value in rows && Between(r.value, a, b)
    ensures r.None? ==> forall inv :: inv in rows ==> !Between(inv, a, b)
    decreases |rows|
  {
    if |rows| == 0 then None
    else if Between(rows[0], a, b) then Some(rows[0])
    else InviteBetween(rows[1..], a, b)
  }

  /** The relationship status `search_users` reports: that of an invitation either way, else 'none'. */
  function StatusWith(rows: seq<Invitation>, caller: User, u: User): string
  {
    match InviteBetween(rows, caller, u)
    case Some(inv) => inv.status
    case None => "none"
  }

  /** The row `search_users` shows for one user: its id, name and status with the caller. */
  function SearchRowFor(rows: seq<Invitation>, caller: User, u: User): SearchRow
  {
    SearchRow(u.id, u.username, StatusWith(rows, caller, u))
  }

  /** The rows `search_users` returns for a non-empty query: the matching users in table order. */
  function SearchRows(users: seq<User>, rows: seq<Invitation>, caller: User, query: string): (r: seq<SearchRow>)
    ensures |r| <= |users|
    decreases |users|
  {
    if |users| == 0 then []
    else
      var u := users[|users| - 1];
      SearchRows(users[..|users| - 1], rows, caller, query) + (if Matches(u, caller, query) then [SearchRowFor(rows, caller, u)] else [])
  }

  /** `search_users` lists exactly the matching users other than the caller, each with its status. */
  lemma {:induction false} SearchRowsExact(users: seq<User>, rows: seq<Invitation>, caller: User, query: string)
    ensures forall row :: row in SearchRows(users, rows, caller, query) <==>
      exists u :: u in users && Matches(u, caller, query) && row == SearchRowFor(rows, caller, u)
    decreases |users|
  {
    if |users| > 0 {
      var u := users[|users| - 1];
      var init := users[..|users| - 1];
      assert users == init + [u];
      SearchRowsExact(init, rows, caller, query);
      forall row
        ensures row in SearchRows(users, rows, caller, query) <==>
          exists v :: v in users && Matches(v, caller, query) && row == SearchRowFor(rows, caller, v)
      {
        if row in SearchRows(init, rows, caller, query) {
          var v :| v in init && Matches(v, caller, query) && row == SearchRowFor(rows, caller, v);
          assert v in users;
        } else if Matches(u, caller, query) && row == SearchRowFor(rows, caller, u) {
          assert u in users;
        }
        if exists v :: v in users && Matches(v, caller, query) && row == SearchRowFor(rows, caller, v) {
          var v :| v in users && Matches(v, caller, query) && row == SearchRowFor(rows, caller, v);
          if v != u {
            assert v in init;
          }
        }
      }
    }
  }

  /** No two search rows are for the same user. */
  predicate DistinctUserIds(r: seq<SearchRow>)
  {
    forall i, j :: 0 <= i < j < |r| ==> r[i].id != r[j].id
  }

  /** Over a user table with a primary key, `search_users` lists every user at most once. */
  lemma {:induction false} SearchRowsDistinct(users: seq<User>, rows: seq<Invitation>, caller: User, query: string)
    requires UniqueUsers(users)
    ensures DistinctUserIds(SearchRows(users, rows, caller, query))
    decreases |users|
  {
    if |users| > 0 {
      var u := users[|users| - 1];
      var init := users[..|users| - 1];
      assert UniqueUsers(init);
      SearchRowsDistinct(init, rows, caller, query);
      SearchRowsExact(init, rows, caller, query);
      var r0 := SearchRows(init, rows, caller, query);
      var tail := if Matches(u, caller, query) then [SearchRowFor(rows, caller, u)] else [];
      assert SearchRows(users, rows, caller, query) == r0 + tail;
      forall k | 0 <= k < |r0|
        ensures r0[k].id != u.id
      {
        assert r0[k] in r0;
        var v :| v in init && Matches(v, caller, query) && r0[k] == SearchRowFor(rows, caller, v);
        var m :| 0 <= m < |init| && init[m] == v;
        assert users[m] == v;
      }
      forall i, j | 0 <= i < j < |r0 + tail|
        ensures (r0 + tail)[i].id != (r0 + tail)[j].id
      {
        if j >= |r0| {
          assert (r0 + tail)[j].id == u.id && (r0 + tail)[i] == r0[i];
        } else {
          assert (r0 + tail)[i] == r0[i] && (r0 + tail)[j] == r0[j];
        }
      }
    }
  }

  /** An invitation `list_invitations` shows to the caller: addressed to them and still pending. */
  predicate PendingFor(inv: Invitation, caller: User)
  {
    inv.receiver == caller && inv.status == Pending
  }

  /** The rows `list_invitations` returns, in table order. */
  function PendingRows(rows: seq<Invitation>, caller: User): (r: seq<PendingRow>)
    ensures |r| <= |rows|
    decreases |rows|
  {
    if |rows| == 0 then []
    else
      var inv := rows[|rows| - 1];
      PendingRows(rows[..|rows| - 1], caller) + (if PendingFor(inv, caller) then [PendingRow(inv.id, inv.sender.username)] else [])
  }

  /** `list_invitations` lists exactly the pending invitations addressed to the caller, with their senders. */
  lemma {:induction false} PendingRowsExact(rows: seq<Invitation>, caller: User)
    ensures forall row :: row in PendingRows(rows, caller) <==>
      exists inv :: inv in rows && PendingFor(inv, caller) && row == PendingRow(inv.id, inv.sender.username)
    decreases |rows|
  {
    if |rows| > 0 {
      var last := rows[|rows| - 1];
      var init := rows[..|rows| - 1];
      assert rows == init + [last];
      PendingRowsExact(init, caller);
      forall row
        ensures row in PendingRows(rows, caller) <==>
          exists inv :: inv in rows && PendingFor(inv, caller) && row == PendingRow(inv.id, inv.sender.username)
      {
        if row in PendingRows(init, caller) {
          var inv :| inv in init && PendingFor(inv, caller) && row == PendingRow(inv.id, inv.sender.username);
          assert inv in rows;
        } else if PendingFor(last, caller) && row == PendingRow(last.id, last.sender.username) {
          assert last in rows;
        }
        if exists inv :: inv in rows && PendingFor(inv, caller) && row == PendingRow(inv.id, inv.sender.username) {
          var inv :| inv in rows && PendingFor(inv, caller) && row == PendingRow(inv.id, inv.sender.username);
          if inv != last {
            assert inv in init;
          }
        }
      }
    }
  }

  /** Ids are handed out in increasing order, so the table is ordered by id. */
  ghost predicate IdsIncreasing(rows: seq<Invitation>)
  {
    forall i, j :: 0 <= i < j < |rows| ==> rows[i].id < rows[j].id
  }

  /** The rows name strictly increasing invitation ids. */
  predicate PendingIdsIncreasing(r: seq<PendingRow>)
  {
    forall i, j :: 0 <= i < j < |r| ==> r[i].id < r[j].id
  }

  /** `list_invitations` lists every invitation at most once, in the order of their ids. */
  lemma {:induction false} PendingRowsIncreasing(rows: seq<Invitation>, caller: User)
    requires IdsIncreasing(rows)
    ensures PendingIdsIncreasing(PendingRows(rows, caller))
    decreases |rows|
  {
    if |rows| > 0 {
      var last := rows[|rows| - 1];
      var init := rows[..|rows| - 1];
      assert IdsIncreasing(init);
      PendingRowsIncreasing(init, caller);
      PendingRowsExact(init, caller);
      var r0 := PendingRows(init, caller);
      forall k | 0 <= k < |r0|
        ensures r0[k].id < last.id
      {
        assert r0[k] in r0;
        var inv :| inv in init && PendingFor(inv, caller) && r0[k] == PendingRow(inv.id, inv.sender.username);
        var m :| 0 <= m < |init| && init[m] == inv;
        assert rows[m] == inv;
      }
      var tail := if PendingFor(last, caller) then [PendingRow(last.id, last.sender.username)] else [];
      assert PendingRows(rows, caller) == r0 + tail;
      forall i, j | 0 <= i < j < |r0 + tail|
        ensures (r0 + tail)[i].id < (r0 + tail)[j].id
      {
        if j >= |r0| {
          assert (r0 + tail)[j].id == last.id && (r0 + tail)[i] == r0[i];
        } else {
          assert (r0 + tail)[i] == r0[i] && (r0 + tail)[j] == r0[j];
        }
      }
    }
  }

  /** The other party of an invitation the caller takes part in. */
  function OtherParty(inv: Invitation, caller: User): User
  {
    if inv.sender == caller then inv.receiver else inv.sender
  }

  /** An accepted invitation the caller takes part in. */
  predicate IsFriendship(inv: Invitation, caller: User)
  {
    inv.status == Accepted && (inv.sender == caller || inv.receiver == caller)
  }

  /** The row `list_friends` shows for one friendship: the other party and the invitation's id. */
  function FriendRowFor(inv: Invitation, caller: User): FriendRow
  {
    var friend := OtherParty(inv, caller);
    FriendRow(friend.id, friend.username, inv.id)
  }

  /** The rows `list_friends` returns, in table order. */
  function FriendsOf(rows: seq<Invitation>, caller: User): (r: seq<FriendRow>)
    ensures |r| <= |rows|
    decreases |rows|
  {
    if |rows| == 0 then []
    else
      var last := rows[|rows| - 1];
      FriendsOf(rows[..|rows| - 1], caller) + (if IsFriendship(last, caller) then [FriendRowFor(last, caller)] else [])
  }

  /** `list_friends` lists exactly one row per accepted invitation the caller takes part in, naming the other party. */
  lemma {:induction false} FriendsOfExact(rows: seq<Invitation>, caller: User)
    ensures forall row :: row in FriendsOf(rows, caller) <==>
      exists inv :: inv in rows && IsFriendship(inv, caller) && row == FriendRowFor(inv, caller)
    decreases |rows|
  {
    if |rows| > 0 {
      var last := rows[|rows| - 1];
      var init := rows[..|rows| - 1];
      assert rows == init + [last];
      FriendsOfExact(init, caller);
      forall row
        ensures row in FriendsOf(rows, caller) <==>
          exists inv :: inv in rows && IsFriendship(inv, caller) && row == FriendRowFor(inv, caller)
      {
        if row in FriendsOf(init, caller) {
          var inv :| inv in init && IsFriendship(inv, caller) && row == FriendRowFor(inv, caller);
          assert inv in rows;
        } else if IsFriendship(last, caller) && row == FriendRowFor(last, caller) {
          assert last in rows;
        }
        if exists inv :: inv in rows && IsFriendship(inv, caller) && row == FriendRowFor(inv, caller) {
          var inv :| inv in rows && IsFriendship(inv, caller) && row == FriendRowFor(inv, caller);
          if inv != last {
            assert inv in init;
          }
        }
      }
    }
  }

  /** The rows name strictly increasing invitation ids. */
  predicate FriendIdsIncreasing(r: seq<FriendRow>)
  {
    forall i, j :: 0 <= i < j < |r| ==> r[i].inviteId < r[j].inviteId
  }

  /** `list_friends` lists every invitation at most once, in the order of their ids. */
  lemma {:induction false} FriendsOfIncreasing(rows: seq<Invitation>, caller: User)
    requires IdsIncreasing(rows)
    ensures FriendIdsIncreasing(FriendsOf(rows, caller))
    decreases |rows|
  {
    if |rows| > 0 {
      var last := rows[|rows| - 1];
      var init := rows[..|rows| - 1];
      assert IdsIncreasing(init);
      FriendsOfIncreasing(init, caller);
      FriendsOfExact(init, caller);
      var r0 := FriendsOf(init, caller);
      forall k | 0 <= k < |r0|
        ensures r0[k].inviteId < last.id
      {
        assert r0[k] in r0;
        var inv :| inv in init && IsFriendship(inv, caller) && r0[k] == FriendRowFor(inv, caller);
        var m :| 0 <= m < |init| && init[m] == inv;
        assert rows[m] == inv;
      }
      var tail := if IsFriendship(last, caller) then [FriendRowFor(last, caller)] else [];
      assert FriendsOf(rows, caller) == r0 + tail;
      forall i, j | 0 <= i < j < |r0 + tail|
        ensures (r0 + tail)[i].inviteId < (r0 + tail)[j].inviteId
      {
        if j >= |r0| {
          assert (r0 + tail)[j].inviteId == last.id && (r0 + tail)[i] == r0[i];
        } else {
          assert (r0 + tail)[i] == r0[i] && (r0 + tail)[j] == r0[j];
        }
      }
    }
  }

  /** The position of the invitation with this id addressed to the caller (`get(id=…, receiver=caller)`). */
  function ReceivedIndex(rows: seq<Invitation>, id: int, caller: User): (r: Option<nat>)
    ensures r.Some? ==> r.value < |rows| && rows[r.value].id == id && rows[r.value].receiver == caller
    ensures r.None? ==> forall k :: 0 <= k < |rows| ==> !(rows[k].id == id && rows[k].receiver == caller)
    decreases |rows|
  {
    if |rows| == 0 then None
    else if rows[0].id == id && rows[0].receiver == caller then Some(0)
    else match ReceivedIndex(rows[1..], id, caller)
      case Some(k) => Some(k + 1)
      case None => None
  }

  /** The position of the accepted invitation with this id (`get(id=…, status='accepted')`). */
  function AcceptedIndex(rows: seq<Invitation>, id: int): (r: Option<nat>)
    ensures r.Some? ==> r.value < |rows| && rows[r.value].id == id && rows[r.value].status == Accepted
    ensures r.None? ==> forall k :: 0 <= k < |rows| ==> !(rows[k].id == id && rows[k].status == Accepted)
    decreases |rows|
  {
    if |rows| == 0 then None
    else if rows[0].id == id && rows[0].status == Accepted then Some(0)
    else match AcceptedIndex(rows[1..], id)
      case Some(k) => Some(k + 1)
      case None => None
  }

  /**
   * The table's invariant. Ids are handed out in increasing order, every row
   * points at known users, and no two rows link the same two users in either
   * direction (which is stronger than `unique_together = ('sender', 'receiver')`).
   */
  ghost predicate WellFormed(users: seq<User>, rows: seq<Invitation>, nextId: nat)
  {
    && UniqueUsers(users)
    && (forall i :: 0 <= i < |rows| ==> rows[i].id < nextId)
    && (forall i, j :: 0 <= i < j < |rows| ==> rows[i].id < rows[j].id)
    && (forall i :: 0 <= i < |rows| ==> rows[i].sender in users && rows[i].receiver in users)
    && (forall i, j :: 0 <= i < j < |rows| ==> !Between(rows[i], rows[j].sender, rows[j].receiver))
  }

  /** `send_invitation` keeps the invariant: the new row has a fresh, larger id and links a pair no row links yet. */
  lemma {:induction false} AppendKeepsWellFormed(users: seq<User>, rows: seq<Invitation>, nextId: nat, sender: User, receiver: User)
    requires WellFormed(users, rows, nextId)
    requires sender in users && receiver in users
    requires InviteBetween(rows, sender, receiver).None?
    ensures WellFormed(users, rows + [NewInvitation(nextId, sender, receiver)], nextId + 1)
  {
    var rows' := rows + [NewInvitation(nextId, sender, receiver)];
    forall i, j | 0 <= i < j < |rows'|
      ensures rows'[i].id < rows'[j].id && !Between(rows'[i], rows'[j].sender, rows'[j].receiver)
    {
      if j == |rows| {
        assert rows'[i] == rows[i] && rows[i] in rows;
      }
    }
  }

  /** `respond_to_invitation` keeps the invariant: only a status changes. */
  lemma {:induction false} UpdateKeepsWellFormed(users: seq<User>, rows: seq<Invitation>, nextId: nat, k: nat, status: string)
    requires WellFormed(users, rows, nextId) && k < |rows|
    ensures WellFormed(users, rows[k := rows[k].(status := status)], nextId)
  {
    var rows' := rows[k := rows[k].(status := status)];
    forall i | 0 <= i < |rows'|
      ensures rows'[i].id == rows[i].id && rows'[i].sender == rows[i].sender && rows'[i].receiver == rows[i].receiver
    {
    }
  }

  /** `remove_friend` keeps the invariant: the remaining rows keep their relative order. */
  lemma {:induction false} DeleteKeepsWellFormed(users: seq<User>, rows: seq<Invitation>, nextId: nat, k: nat)
    requires WellFormed(users, rows, nextId) && k < |rows|
    ensures WellFormed(users, rows[..k] + rows[k + 1..], nextId)
  {
    var rest := rows[..k] + rows[k + 1..];
    forall i | 0 <= i < |rest|
      ensures rest[i] == rows[if i < k then i else i + 1]
    {
    }
  }

  /** The invitation table together with the user table it points into. */
  class InvitationTable {
    var users: seq<User>
    var rows: seq<Invitation>
    var nextId: nat

    ghost predicate Valid()
      reads this
    {
      WellFormed(users, rows, nextId)
    }

    constructor (users: seq<User>)
      requires UniqueUsers(users)
      ensures Valid()
      ensures this.users == users && rows == [] && nextId == 0
    {
      this.users := users;
      rows := [];
      nextId := 0;
    }

    /** `search_users`: an empty query finds nobody; otherwise the matching users with their status, in table order. */
    method SearchUsers(caller: User, query: string) returns (results: seq<SearchRow>)
      ensures query == "" ==> results == []
      ensures query != "" ==> results == SearchRows(users, rows, caller, query)
    {
      results := [];
      if query == "" {
        return;
      }
      var i := 0;
      while i < |users|
        invariant 0 <= i <= |users|
        invariant results == SearchRows(users[..i], rows, caller, query)
      {
        var u := users[i];
        if ContainsIgnoringCase(u.username, query) && u.id != caller.id {
          var invite := InviteBetween(rows, caller, u);
          var status := if invite.Some? then invite.value.status else "none";
          results := results + [SearchRow(u.id, u.username, status)];
        }
        assert users[..i + 1][..i] == users[..i];
        assert SearchRows(users[..i + 1], rows, caller, query) == SearchRows(users[..i], rows, caller, query)
          + (if Matches(u, caller, query) then [SearchRowFor(rows, caller, u)] else []);
        i := i + 1;
      }
      assert users[..|users|] == users;
    }

    /**
     * `send_invitation`: an unknown receiver is 404 and an invitation between
     * the two in either direction is 400 (already friends, or pending); in
     * both cases the table is unchanged. Otherwise exactly one pending
     * invitation from the caller is added and the answer is 201.
     */
    method SendInvitation(caller: User, receiverId: int) returns (resp: Response)
      requires Valid() && caller in users
      modifies this
      ensures Valid() && users == old(users)
      ensures UserWithId(users, receiverId).None? ==>
        resp == WithError(404, "User not found") && rows == old(rows) && nextId == old(nextId)
      ensures UserWithId(users, receiverId).Some? && InviteBetween(old(rows), caller, UserWithId(users, receiverId).value).Some? ==>
        && resp == WithMessage(400,
             if InviteBetween(old(rows), caller, UserWithId(users, receiverId).value).value.status == Accepted
             then "You are already friends!" else "An invitation is already pending.")
        && rows == old(rows) && nextId == old(nextId)
      ensures UserWithId(users, receiverId).Some? && InviteBetween(old(rows), caller, UserWithId(users, receiverId).value).None? ==>
        && resp == WithMessage(201, "Invitation sent!")
        && rows == old(rows) + [NewInvitation(old(nextId), caller, UserWithId(users, receiverId).value)]
        && nextId == old(nextId) + 1
    {
      var receiver := UserWithId(users, receiverId);
      if receiver.None? {
        return WithError(404, "User not found");
      }
      var existing := InviteBetween(rows, caller, receiver.value);
      if existing.Some? {
        if existing.value.status == Accepted {
          return WithMessage(400, "You are already friends!");
        }
        return WithMessage(400, "An invitation is already pending.");
      }
      AppendKeepsWellFormed(users, rows, nextId, caller, receiver.value);
      rows := rows + [NewInvitation(nextId, caller, receiver.value)];
      nextId := nextId + 1;
      resp := WithMessage(201, "Invitation sent!");
    }

    /** `list_invitations`: the pending invitations addressed to the caller. */
    method ListInvitations(caller: User) returns (pending: seq<PendingRow>)
      ensures pending == PendingRows(rows, caller)
    {
      pending := PendingRows(rows, caller);
    }

    /**
     * `respond_to_invitation`: only the receiver may answer. An invitation
     * with this id addressed to someone else is 404 and nothing changes.
     * Otherwise its status becomes the action, stored as given; a missing
     * action fails the NOT NULL column and nothing changes. The column holds
     * at most `StatusMaxLength` characters: a backend that enforces this
     * (`limitsLength`; PostgreSQL, used when DATABASE_URL is set) rejects a
     * longer action and nothing changes, while SQLite stores it whole. No
     * other row is touched.
     */
    method RespondToInvitation(caller: User, inviteId: int, action: Option<string>, limitsLength: bool)
      returns (resp: Response)
      requires Valid()
      modifies this
      ensures Valid() && users == old(users) && nextId == old(nextId)
      ensures ReceivedIndex(old(rows), inviteId, caller).None? ==>
        resp == WithError(404, "Invitation not found") && rows == old(rows)
      ensures ReceivedIndex(old(rows), inviteId, caller).Some? && action.None? ==>
        resp == ServerError && rows == old(rows)
      ensures ReceivedIndex(old(rows), inviteId, caller).Some? && action.Some?
              && limitsLength && |action.value| > StatusMaxLength ==>
        resp == ServerError && rows == old(rows)
      ensures ReceivedIndex(old(rows), inviteId, caller).Some? && action.Some?
              && (!limitsLength || |action.value| <= StatusMaxLength) ==>
        var k := ReceivedIndex(old(rows), inviteId, caller).value;
        && resp == WithMessage(200, "Invitation " + action.value)
        && rows == old(rows)[k := old(rows)[k].(status := action.value)]
    {
      var k := ReceivedIndex(rows, inviteId, caller);
      if k.None? {
        return WithError(404, "Invitation not found");
      }
      if action.None? || (limitsLength && |action.value| > StatusMaxLength) {
        return ServerError;
      }
      UpdateKeepsWellFormed(users, rows, nextId, k.value, action.value);
      rows := rows[k.value := rows[k.value].(status := action.value)];
      resp := WithMessage(200, "Invitation " + action.value);
    }

    /** `list_friends`: one row per accepted invitation the caller takes part in, naming the other party. */
    method ListFriends(caller: User) returns (friends: seq<FriendRow>)
      ensures friends == FriendsOf(rows, caller)
    {
      friends := [];
      var i := 0;
      while i < |rows|
        invariant 0 <= i <= |rows|
        invariant friends == FriendsOf(rows[..i], caller)
      {
        var invite := rows[i];
        if invite.status == Accepted && (invite.sender == caller || invite.receiver == caller) {
          var friend := if invite.sender == caller then invite.receiver else invite.sender;
          friends := friends + [FriendRow(friend.id, friend.username, invite.id)];
        }
        assert rows[..i + 1][..i] == rows[..i];
        assert FriendsOf(rows[..i + 1], caller) == FriendsOf(rows[..i], caller)
          + (if IsFriendship(invite, caller) then [FriendRowFor(invite, caller)] else []);
        i := i + 1;
      }
      assert rows[..|rows|] == rows;
    }

    /**
     * `remove_friend`: 404 unless an accepted invitation with this id
     * exists, 403 when the caller is not one of its parties; otherwise that
     * one row is deleted.
     */
    method RemoveFriend(caller: User, inviteId: int) returns (resp: Response)
      requires Valid()
      modifies this
      ensures Valid() && users == old(users) && nextId == old(nextId)
      ensures AcceptedIndex(old(rows), inviteId).None? ==>
        resp == WithError(404, "Invitation not found") && rows == old(rows)
      ensures AcceptedIndex(old(rows), inviteId).Some? ==>
        var k := AcceptedIndex(old(rows), inviteId).value;
        if old(rows)[k].sender == caller || old(rows)[k].receiver == caller then
          resp == WithMessage(200, "Friend removed") && rows == old(rows)[..k] + old(rows)[k + 1..]
        else
          resp == WithError(403, "Unauthorized") && rows == old(rows)
    {
      var k := AcceptedIndex(rows, inviteId);
      if k.None? {
        return WithError(404, "Invitation not found");
      }
      var invite := rows[k.value];
      if invite.sender == caller || invite.receiver == caller {
        DeleteKeepsWellFormed(users, rows, nextId, k.value);
        rows := rows[..k.value] + rows[k.value + 1..];
        return WithMessage(200, "Friend removed");
      }
      resp := WithError(403, "Unauthorized");
    }
  }
}
