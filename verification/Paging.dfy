/** ListSessions as a client sees it (src/server.rs:2219-2290): pages linked by opaque
    continuation tokens. */
module Paging {
  import opened Sessions
  import opened Listing
  import T = PageTokens

  /** The token a page carries: its next cursor, or nothing when it is the last. */
  function TokenOf(next: Option<Id>): T.Text { if next.Some? then T.EncodePageToken(next.value) else [] }

  /** The cursor a request's token stands for, if it is accepted. */
  function CursorOf(token: T.Text): Option<Option<Id>> {
    if token == [] then Some(None)
    else
      var decoded := T.DecodePageToken(token);
      if decoded.Cursor? then Some(Some(decoded.id)) else None
  }

  /** A client pages until a response carries no token: `tokens[i]` is what request `i`
      sent, `tokens[i + 1]` what its response carried. */
  predicate Paged(visits: seq<Visit>, tokens: seq<T.Text>) {
    && visits != [] && |tokens| == |visits| + 1 && tokens[0] == []
    && (forall i :: 0 <= i < |visits| ==> Served(visits[i]) && CursorOf(tokens[i]) == Some(visits[i].cursor))
    && (forall i, j :: 0 <= i < |visits| && j == i + 1 ==> tokens[j] == TokenOf(visits[i].next) && (j < |visits| ==> tokens[j] != []))
  }

  /** A token is accepted only as the cursor it was made from. */
  lemma {:induction false} TokenStandsForNext(next: Option<Id>)
    requires CursorOf(TokenOf(next)).Some?
    ensures CursorOf(TokenOf(next)) == Some(next)
  {
    if next.Some? {
      T.FrontTruncationRejected(next.value);
      T.EncodeInvertsDecode(TokenOf(next));
      var id := T.DecodePageToken(TokenOf(next)).id;
      T.Base64RoundTrips(T.TOKEN_VERSION_PREFIX + id, []);
      T.Base64RoundTrips(T.TOKEN_VERSION_PREFIX + next.value, []);
      T.PrefixIsAscii(id);
      T.PrefixIsAscii(next.value);
    }
  }

  /** Paging by tokens is a traversal by cursors. */
  lemma {:induction false} TokensTraverse(visits: seq<Visit>, tokens: seq<T.Text>)
    requires Paged(visits, tokens)
    ensures Traversal(visits)
  {
    forall i, j | 0 <= i < |visits| && j == i + 1 && j < |visits| ensures Follows(visits[i], visits[j]) {
      assert tokens[j] == TokenOf(visits[i].next) && CursorOf(tokens[j]).Some?;
      TokenStandsForNext(visits[i].next);
    }
  }

  /** A page's token can be continued from exactly when the last id of the page has
      between 1 and 765 bytes. */
  lemma {:induction false} ContinuesIff(id: Id)
    requires T.ValidUtf8(id)
    ensures CursorOf(TokenOf(Some(id))).Some? <==> 1 <= |id| <= 765
  {
    T.FrontTruncationRejected(id);
    T.DecodeInvertsEncode(id);
  }

  const MAX_SESSION_ID_BYTES := 128

  predicate AcceptedId(id: Id) { T.ValidUtf8(id) && 1 <= |id| <= MAX_SESSION_ID_BYTES }

  lemma {:induction false} NextIsRegistered(v: Visit)
    requires Served(v) && v.next.Some?
    ensures v.next.value in v.registry
  {
    assert v.ids[v.size - 1] in Above(v.registry, v.cursor);
  }

  /** Paging never gets stuck while the registry holds ids a start accepts: the token
      of the latest response is empty or is accepted. */
  lemma {:induction false} NeverStuck(visits: seq<Visit>, tokens: seq<T.Text>)
    requires Paged(visits, tokens) && forall id :: id in visits[|visits| - 1].registry ==> AcceptedId(id)
    ensures CursorOf(tokens[|visits|]).Some?
  {
    var v := visits[|visits| - 1];
    assert tokens[|visits|] == TokenOf(v.next);
    if v.next.Some? {
      NextIsRegistered(v);
      assert AcceptedId(v.next.value);
      ContinuesIff(v.next.value);
    }
  }

  /** A client that pages until the token is empty is shown every session that is there
      throughout, exactly once. */
  lemma {:induction false} PagingShowsAll(visits: seq<Visit>, tokens: seq<T.Text>, id: Id)
    requires Paged(visits, tokens) && tokens[|visits|] == []
    requires forall i :: 0 <= i < |visits| ==> id in visits[i].registry && id in visits[i].present
    ensures exists n :: 0 <= n < |visits| && id in visits[n].shown
    ensures forall i, j :: 0 <= i < j < |visits| ==> !(id in visits[i].shown && id in visits[j].shown)
  {
    TokensTraverse(visits, tokens);
    var last := visits[|visits| - 1];
    assert tokens[|visits|] == TokenOf(last.next);
    if last.next.Some? { T.FrontTruncationRejected(last.next.value); }
    PresentThroughoutIsShown(visits, id);
  }
}
