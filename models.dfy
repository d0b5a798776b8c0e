/**
 * The records of `base/models.py` (the invitation and the message, with the
 * user they point at), their text forms, their default ordering, and the
 * user lookups that `User.objects.get(...)` performs.
 */
module Models {
  import opened Text

  /** A row of Django's user table: the primary key and the unique login name. */
  datatype User = User(id: int, username: string)

  /** No two users share an id or a username (both are unique columns). */
  ghost predicate UniqueUsers(users: seq<User>)
  {
    forall i, j :: 0 <= i < j < |users| ==> users[i].id != users[j].id && users[i].username != users[j].username
  }

  // ---------------------------------------------------------------------------
  // Invitation
  // ---------------------------------------------------------------------------

  const Pending := "pending"
  const Accepted := "accepted"
  const Rejected := "rejected"

  /** `STATUS_CHOICES`; the column itself is a varchar(10) whose choices are not checked on save. */
  const StatusChoices: set<string> := {Pending, Accepted, Rejected}

  /** The status column's `max_length`. */
  const StatusMaxLength := 10

  /**
   * A friendship invitation. `unique_together = ('sender', 'receiver')` is kept
   * as an invariant of the table (see `Invitations.InvitationTable.Valid`).
   */
  datatype Invitation = Invitation(id: nat, sender: User, receiver: User, status: string)

  /** `Invitation.objects.create(sender=…, receiver=…)`: the status takes its default. */
  function NewInvitation(id: nat, sender: User, receiver: User): (inv: Invitation)
    ensures inv.status in StatusChoices && inv.status == Pending
    ensures inv.id == id && inv.sender == sender && inv.receiver == receiver
  {
    Invitation(id, sender, receiver, Pending)
  }

  /** `Invitation.__str__`: "<sender> to <receiver> (<status>)". */
  function InvitationText(inv: Invitation): (r: string)
    ensures |r| == |inv.sender.username| + 4 + |inv.receiver.username| + 2 + |inv.status| + 1
    ensures r[..|inv.sender.username|] == inv.sender.username
    ensures r[|inv.sender.username|..|inv.sender.username| + 4] == " to "
    ensures r[|inv.sender.username| + 4..|inv.sender.username| + 4 + |inv.receiver.username|] == inv.receiver.username
    ensures r[|r| - |inv.status| - 3..] == " (" + inv.status + ")"
  {
    inv.sender.username + " to " + inv.receiver.username + " (" + inv.status + ")"
  }

  /** A new invitation from 'user1' to 'user2' reads "user1 to user2 (pending)". */
  lemma NewInvitationText(id: nat, id1: nat, id2: nat)
    ensures InvitationText(NewInvitation(id, User(id1, "user1"), User(id2, "user2"))) == "user1 to user2 (pending)"
  {
  }

  // ---------------------------------------------------------------------------
  // Message
  // ---------------------------------------------------------------------------

  /** A stored chat message; `timestamp` is the `auto_now_add` instant, as an integer clock reading. */
  datatype Message = Message(id: nat, sender: User, receiver: User, content: string, timestamp: int)

  /** How many characters of the content `Message.__str__` shows. */
  const PreviewLength: nat := 20

  /** `Message.__str__`: "<sender> to <receiver>: " followed by the first 20 characters of the content. */
  function MessageText(m: Message): (r: string)
    ensures |r| == |m.sender.username| + 4 + |m.receiver.username| + 2 + |Take(m.content, PreviewLength)|
    ensures |r| <= |m.sender.username| + 4 + |m.receiver.username| + 2 + PreviewLength
    ensures r[..|m.sender.username|] == m.sender.username
    ensures r[|m.sender.username|..|m.sender.username| + 4] == " to "
    ensures r[|m.sender.username| + 4..|m.sender.username| + 4 + |m.receiver.username|] == m.receiver.username
    ensures r[|m.sender.username| + 4 + |m.receiver.username|..|m.sender.username| + 4 + |m.receiver.username| + 2] == ": "
    ensures |m.content| <= PreviewLength ==> r[|r| - |m.content|..] == m.content
    ensures |m.content| > PreviewLength ==> r[|r| - PreviewLength..] == m.content[..PreviewLength]
  {
    m.sender.username + " to " + m.receiver.username + ": " + Take(m.content, PreviewLength)
  }

  // ---------------------------------------------------------------------------
  // Default ordering of messages: `ordering = ['timestamp']`
  // ---------------------------------------------------------------------------

  predicate SortedByTime(ms: seq<Message>)
  {
    forall i, j :: 0 <= i < j < |ms| ==> ms[i].timestamp <= ms[j].timestamp
  }

  /** Places `m` before the first message that is not earlier than it. */
  function InsertByTime(m: Message, ms: seq<Message>): (r: seq<Message>)
    requires SortedByTime(ms)
    ensures forall x :: x in r <==> x == m || x in ms
    ensures SortedByTime(r)
    ensures multiset(r) == multiset(ms) + multiset{m}
    decreases |ms|
  {
    if |ms| == 0 || m.timestamp <= ms[0].timestamp then [m] + ms
    else
      var tail := InsertByTime(m, ms[1..]);
      assert ms == [ms[0]] + ms[1..];
      assert forall x :: x in tail ==> ms[0].timestamp <= x.timestamp;
      SortedCons(ms[0], tail);
      [ms[0]] + tail
  }

  /** A message no later than every message of a sorted sequence can go in front of it. */
  lemma SortedCons(h: Message, t: seq<Message>)
    requires SortedByTime(t)
    requires forall x :: x in t ==> h.timestamp <= x.timestamp
    ensures SortedByTime([h] + t)
  {
    forall i, j | 0 <= i < j < |[h] + t|
      ensures ([h] + t)[i].timestamp <= ([h] + t)[j].timestamp
    {
      if i > 0 {
        assert ([h] + t)[i] == t[i - 1];
      }
      assert ([h] + t)[j] == t[j - 1];
    }
  }

  /** Orders messages by ascending timestamp, keeping the original order among equal timestamps. */
  function SortByTime(ms: seq<Message>): (r: seq<Message>)
    ensures SortedByTime(r)
    ensures multiset(r) == multiset(ms)
    decreases |ms|
  {
    if |ms| == 0 then []
    else
      assert ms == [ms[0]] + ms[1..];
      InsertByTime(ms[0], SortByTime(ms[1..]))
  }

  /**
   * Messages created one after another with a clock that does not run
   * backwards come back in creation order: sorting a sorted table changes nothing.
   */
  lemma {:induction false} SortByTimeKeepsSorted(ms: seq<Message>)
    requires SortedByTime(ms)
    ensures SortByTime(ms) == ms
    decreases |ms|
  {
    if |ms| > 0 {
      SortByTimeKeepsSorted(ms[1..]);
      if |ms| > 1 {
        assert ms[0].timestamp <= ms[1..][0].timestamp;
      }
      assert ms == [ms[0]] + ms[1..];
    }
  }

  // ---------------------------------------------------------------------------
  // User lookups
  // ---------------------------------------------------------------------------

  /** `User.objects.filter(username__icontains=query).exclude(id=caller.id)`: both search views list these users. */
  predicate Matches(u: User, caller: User, query: string)
  {
    ContainsIgnoringCase(u.username, query) && u.id != caller.id
  }

  /** `User.objects.get(username=name)`: `None` stands for `User.DoesNotExist`. */
  function UserNamed(users: seq<User>, name: string): (r: Option<User>)
    ensures r.Some? ==> r.value in users && r.value.username == name
    ensures r.None? ==> forall u :: u in users ==> u.username != name
    decreases |users|
  {
    if |users| == 0 then None
    else if users[0].username == name then Some(users[0])
    else UserNamed(users[1..], name)
  }

  /** `User.objects.get(id=id)`. */
  function UserWithId(users: seq<User>, id: int): (r: Option<User>)
    ensures r.Some? ==> r.value in users && r.value.id == id
    ensures r.None? ==> forall u :: u in users ==> u.id != id
    decreases |users|
  {
    if |users| == 0 then None
    else if users[0].id == id then Some(users[0])
    else UserWithId(users[1..], id)
  }

  // ---------------------------------------------------------------------------
  // The server's tables as the chat consumers see them
  // ---------------------------------------------------------------------------

  /**
   * The user table and the two message tables, each with the next primary
   * key it hands out. `messages` is `base.models.Message`, which the chat
   * views read and the stricter consumer writes; `chatMessages` is
   * `chat.models.Message`, which the routed consumer writes and nothing
   * here reads. Its rows are taken to have the fields of `Message`.
   */
  datatype Store = Store(users: seq<User>, messages: seq<Message>, nextMessageId: nat,
                         chatMessages: seq<Message>, nextChatMessageId: nat)
}
