/**
 * `TokenAuthMiddleware` of `chat/middleware.py`: every WebSocket handshake
 * first passes an origin check, then the `token` query parameter is looked
 * up in the token table and the connection goes on to the consumer with the
 * user it names, or with the anonymous user.
 */
module Middleware {
  import opened Text
  import opened Models

  /** The close code sent to a refused origin. */
  const PolicyViolation := 4003

  /** `scope["user"]`: a token's user, or Django's `AnonymousUser`. */
  datatype Principal = Anonymous | Authenticated(user: User)

  /** Either the connection is closed with a code and the inner application never runs, or it is forwarded. */
  datatype Admission = Rejected(code: int) | Forwarded(user: Principal)

  /**
   * The origin check: outside DEBUG, with a non-empty allow-list, a handshake
   * that names an origin outside the list is refused. A missing origin header
   * reads as the empty text.
   */
  predicate OriginRefused(debug: bool, allowed: seq<string>, origin: string)
  {
    !debug && |allowed| > 0 && origin != "" && origin !in allowed
  }

  // ---------------------------------------------------------------------------
  // urllib.parse.parse_qs (without percent-decoding)
  // ---------------------------------------------------------------------------

  /** `piece.split(c, 1)`: the text before the first `c` and the text after it, when there is a `c`. */
  function SplitAtFirst(piece: string, c: char): (r: Option<(string, string)>)
    ensures r.None? <==> c !in piece
    ensures r.Some? ==> piece == r.value.0 + [c] + r.value.1 && c !in r.value.0
    decreases |piece|
  {
    if |piece| == 0 then None
    else if piece[0] == c then Some(([], piece[1..]))
    else match SplitAtFirst(piece[1..], c)
      case None => None
      case Some((name, value)) => Some(([piece[0]] + name, value))
  }

  /** The pair one piece between '&' contributes: split at its first '=', kept only with a non-empty value. */
  function PairOf(piece: string): (p: Option<(string, string)>)
    ensures p.Some? <==> SplitAtFirst(piece, '=').Some? && SplitAtFirst(piece, '=').value.1 != ""
    ensures p.Some? ==> p == SplitAtFirst(piece, '=')
  {
    match SplitAtFirst(piece, '=')
    case None => None
    case Some((name, value)) => if value == "" then None else Some((name, value))
  }

  /**
   * The name/value pairs `parse_qs` keeps, in order: the pieces between '&'
   * that hold an '=' and a non-empty value (blank values are dropped).
   */
  function QueryPairs(pieces: seq<string>): (pairs: seq<(string, string)>)
    ensures forall k :: 0 <= k < |pairs| ==> pairs[k].1 != ""
    ensures |pairs| <= |pieces|
    ensures |pieces| == 1 ==> pairs == (if PairOf(pieces[0]).Some? then [PairOf(pieces[0]).value] else [])
    decreases |pieces|
  {
    if |pieces| == 0 then []
    else
      var rest := QueryPairs(pieces[1..]);
      match PairOf(pieces[0])
      case None => rest
      case Some(pair) => [pair] + rest
  }

  /** The pairs keep the order of the pieces: the pairs of a concatenation are the pairs of each part, concatenated. */
  lemma {:induction false} QueryPairsAppend(a: seq<string>, b: seq<string>)
    ensures QueryPairs(a + b) == QueryPairs(a) + QueryPairs(b)
    decreases |a|
  {
    if |a| > 0 {
      assert (a + b)[0] == a[0] && (a + b)[1..] == a[1..] + b;
      QueryPairsAppend(a[1..], b);
      match PairOf(a[0])
      case None =>
      case Some(pair) =>
        assert QueryPairs(a + b) == [pair] + (QueryPairs(a[1..]) + QueryPairs(b));
    } else {
      assert a + b == b;
    }
  }

  /** A pair is kept exactly when some piece contributes it. */
  lemma {:induction false} QueryPairsExact(pieces: seq<string>)
    ensures forall p :: p in QueryPairs(pieces) <==> exists k :: 0 <= k < |pieces| && PairOf(pieces[k]) == Some(p)
    decreases |pieces|
  {
    if |pieces| > 0 {
      QueryPairsExact(pieces[1..]);
      forall p
        ensures p in QueryPairs(pieces) <==> exists k :: 0 <= k < |pieces| && PairOf(pieces[k]) == Some(p)
      {
        if p in QueryPairs(pieces) {
          if PairOf(pieces[0]) == Some(p) {
          } else {
            assert p in QueryPairs(pieces[1..]);
            var k :| 0 <= k < |pieces[1..]| && PairOf(pieces[1..][k]) == Some(p);
            assert PairOf(pieces[k + 1]) == Some(p);
          }
        }
        if exists k :: 0 <= k < |pieces| && PairOf(pieces[k]) == Some(p) {
          var k :| 0 <= k < |pieces| && PairOf(pieces[k]) == Some(p);
          if k > 0 {
            assert PairOf(pieces[1..][k - 1]) == Some(p);
          }
        }
      }
    }
  }

  /** The pair at `k` is the first in `pairs` whose name is `name`. */
  predicate FirstNamed(pairs: seq<(string, string)>, name: string, k: int)
  {
    0 <= k < |pairs| && pairs[k].0 == name && forall j :: 0 <= j < k ==> pairs[j].0 != name
  }

  /** `query_params.get(name, [None])[0]`: the value of the first pair with that name. */
  function FirstValue(pairs: seq<(string, string)>, name: string): (r: Option<string>)
    ensures r.Some? ==> (name, r.value) in pairs
    ensures r.None? <==> forall k :: 0 <= k < |pairs| ==> pairs[k].0 != name
    ensures forall k :: FirstNamed(pairs, name, k) ==> r == Some(pairs[k].1)
    decreases |pairs|
  {
    if |pairs| == 0 then None
    else if pairs[0].0 == name then Some(pairs[0].1)
    else
      assert forall k :: FirstNamed(pairs, name, k) ==> k > 0 && FirstNamed(pairs[1..], name, k - 1);
      FirstValue(pairs[1..], name)
  }

  /** Pairs whose values are all non-empty give a non-empty value. */
  lemma FirstValueNonEmpty(pairs: seq<(string, string)>, name: string)
    requires forall k :: 0 <= k < |pairs| ==> pairs[k].1 != ""
    ensures FirstValue(pairs, name).Some? ==> FirstValue(pairs, name).value != ""
  {
    var r := FirstValue(pairs, name);
    if r.Some? {
      assert (name, r.value) in pairs;
    }
  }

  /** The piece contributes a pair whose name is `name`. */
  predicate Names(piece: string, name: string)
  {
    PairOf(piece).Some? && PairOf(piece).value.0 == name
  }

  /** The piece at `k` is the first that contributes a pair named `name`. */
  predicate FirstPieceNaming(pieces: seq<string>, name: string, k: int)
  {
    0 <= k < |pieces| && Names(pieces[k], name) && forall j :: 0 <= j < k ==> !Names(pieces[j], name)
  }

  /** Looking a name up in the parsed pieces finds the value of the first piece that names it, if any does. */
  lemma {:induction false} FirstValueOfPieces(pieces: seq<string>, name: string)
    ensures FirstValue(QueryPairs(pieces), name).None? <==> forall k :: 0 <= k < |pieces| ==> !Names(pieces[k], name)
    ensures forall k :: FirstPieceNaming(pieces, name, k) ==>
      FirstValue(QueryPairs(pieces), name) == Some(PairOf(pieces[k]).value.1)
    decreases |pieces|
  {
    if |pieces| > 0 {
      var rest := pieces[1..];
      FirstValueOfPieces(rest, name);
      if Names(pieces[0], name) {
        assert QueryPairs(pieces)[0] == PairOf(pieces[0]).value;
        assert forall k :: FirstPieceNaming(pieces, name, k) ==> k == 0;
      } else {
        assert FirstValue(QueryPairs(pieces), name) == FirstValue(QueryPairs(rest), name);
        assert forall k :: FirstPieceNaming(pieces, name, k) ==> k > 0 && FirstPieceNaming(rest, name, k - 1);
        assert forall k :: 0 <= k < |rest| ==> rest[k] == pieces[k + 1];
      }
    }
  }

  /**
   * The token the handshake carries: the value of the first piece of the
   * query that reads `token=<non-empty value>`, or none when no piece does.
   */
  function TokenKey(query: string): (r: Option<string>)
    ensures r.Some? ==> r.value != ""
    ensures r.None? <==> forall k :: 0 <= k < |Split(query, '&')| ==> !Names(Split(query, '&')[k], "token")
    ensures forall k :: FirstPieceNaming(Split(query, '&'), "token", k) ==>
      r == Some(PairOf(Split(query, '&')[k]).value.1)
  {
    var pieces := Split(query, '&');
    FirstValueOfPieces(pieces, "token");
    FirstValueNonEmpty(QueryPairs(pieces), "token");
    FirstValue(QueryPairs(pieces), "token")
  }

  /** `get_user_from_token`: an unknown key is the anonymous user, not an error. */
  function UserForToken(tokens: map<string, User>, key: string): (p: Principal)
    ensures p.Authenticated? <==> key in tokens
    ensures p.Authenticated? ==> p.user == tokens[key]
  {
    if key in tokens then Authenticated(tokens[key]) else Anonymous
  }

  /**
   * `TokenAuthMiddleware.__call__`: a refused origin is closed with 4003 and
   * never reaches the consumer; every other handshake is forwarded with a
   * user, the token's owner when the token is known and anonymous otherwise.
   */
  function Admit(debug: bool, allowed: seq<string>, origin: string, query: string, tokens: map<string, User>): (r: Admission)
    ensures r.Rejected? <==> OriginRefused(debug, allowed, origin)
    ensures r.Rejected? ==> r.code == PolicyViolation
    ensures r.Forwarded? && r.user.Authenticated? <==>
      !OriginRefused(debug, allowed, origin) && TokenKey(query).Some? && TokenKey(query).value in tokens
    ensures r.Forwarded? && r.user.Authenticated? ==> r.user.user == tokens[TokenKey(query).value]
  {
    if OriginRefused(debug, allowed, origin) then Rejected(PolicyViolation)
    else match TokenKey(query)
      case Some(key) => Forwarded(UserForToken(tokens, key))
      case None => Forwarded(Anonymous)
  }

  /** The origin check lets everything through in DEBUG, with an empty allow-list, or without an origin header. */
  lemma OriginCheckOpen(debug: bool, allowed: seq<string>, origin: string, query: string, tokens: map<string, User>)
    requires debug || allowed == [] || origin == "" || origin in allowed
    ensures Admit(debug, allowed, origin, query, tokens).Forwarded?
  {
  }

  lemma {:induction false} SplitAtFirstOf(name: string, value: string, c: char)
    requires c !in name
    ensures SplitAtFirst(name + [c] + value, c) == Some((name, value))
    decreases |name|
  {
    var piece := name + [c] + value;
    if |name| > 0 {
      assert piece[1..] == name[1..] + [c] + value;
      SplitAtFirstOf(name[1..], value, c);
      assert name == [name[0]] + name[1..];
    } else {
      assert piece[1..] == value;
    }
  }

  /**
   * The query string the client builds, `token=<key>`, possibly followed by
   * further parameters, hands the middleware exactly that key.
   */
  lemma TokenKeyLeading(key: string, rest: string)
    requires key != "" && '&' !in key
    ensures TokenKey("token=" + key) == Some(key)
    ensures TokenKey("token=" + key + "&" + rest) == Some(key)
  {
    var piece := "token" + ['='] + key;
    assert piece == "token=" + key;
    SplitAtFirstOf("token", key, '=');
    SplitWithoutSeparator(piece, '&');
    SplitAfterPiece(piece, rest, '&');
    assert piece + "&" + rest == piece + ['&'] + rest;
  }
}
