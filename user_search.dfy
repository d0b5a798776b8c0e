/**
 * The search box of the React client (`UserSearch.js`): the query follows
 * the field, a request goes out once the query is longer than one
 * character, and picking a result hands it to the shell and resets the box.
 */
module UserSearch {
  import opened Text
  import opened Models

  /** The shortest query that is sent to the server. */
  const MinQueryLength := 2

  datatype BoxState = BoxState(query: string, results: seq<User>, requests: seq<string>)

  class SearchBox {
    var query: string
    var results: seq<User>
    // The queries sent to the server, in order.
    var requests: seq<string>

    function Snapshot(): BoxState
      reads this
    {
      BoxState(query, results, requests)
    }

    /** Every query sent was long enough. */
    ghost predicate Valid()
      reads this
    {
      forall k :: 0 <= k < |requests| ==> |requests[k]| >= MinQueryLength
    }

    constructor ()
      ensures Valid()
      ensures Snapshot() == BoxState("", [], [])
    {
      query := "";
      results := [];
      requests := [];
    }

    /**
     * `handleSearch`: the query is always the typed value. A value longer
     * than one character is sent; a shorter one clears the results and
     * sends nothing.
     */
    method Typed(value: string)
      requires Valid()
      modifies this
      ensures Valid()
      ensures |value| > 1 ==> Snapshot() == old(Snapshot()).(query := value, requests := old(requests) + [value])
      ensures |value| <= 1 ==> Snapshot() == old(Snapshot()).(query := value, results := [])
    {
      query := value;
      if |value| > 1 {
        requests := requests + [value];
      } else {
        results := [];
      }
    }

    /** A search request settles: its rows replace the results; a failure leaves them as they were. */
    method ResponseArrived(rows: Option<seq<User>>)
      requires Valid() && |requests| > 0
      modifies this
      ensures Valid()
      ensures rows.Some? ==> Snapshot() == old(Snapshot()).(results := rows.value)
      ensures rows.None? ==> Snapshot() == old(Snapshot())
    {
      if rows.Some? {
        results := rows.value;
      }
    }

    /** A click on a result: the shell gets exactly `{id, username}`, and the query and results are cleared. */
    method Pick(user: User) returns (peer: User)
      requires Valid()
      modifies this
      ensures Valid()
      ensures peer.id == user.id && peer.username == user.username
      ensures Snapshot() == old(Snapshot()).(query := "", results := [])
    {
      peer := User(user.id, user.username);
      query := "";
      results := [];
    }
  }
}
