/** ListSessions (src/server.rs:2219-2290) over `session_ids_after`
    (crates/macp-storage/src/registry.rs:362-390): a keyset scan of the session ids in
    byte order, while sessions come and go between and during pages. */
module Listing {
  import opened Sessions
  import T = PageTokens

  type Id = T.Text

  // ---- Byte order ----------------------------------------------------------

  predicate Less(a: Id, b: Id) {
    b != [] && (a == [] || a[0] < b[0] || (a[0] == b[0] && Less(a[1..], b[1..])))
  }

  lemma {:induction false} LessTransitive(a: Id, b: Id, c: Id)
    requires Less(a, b) && Less(b, c)
    ensures Less(a, c)
  {
    if a != [] && a[0] == b[0] && b[0] == c[0] { LessTransitive(a[1..], b[1..], c[1..]); }
  }

  lemma {:induction false} LessIrreflexive(a: Id)
    ensures !Less(a, a)
  {
    if a != [] { LessIrreflexive(a[1..]); }
  }

  lemma {:induction false} LessTotal(a: Id, b: Id)
    ensures Less(a, b) || a == b || Less(b, a)
  {
    if a != [] && b != [] && a[0] == b[0] {
      LessTotal(a[1..], b[1..]);
      assert a == [a[0]] + a[1..] && b == [b[0]] + b[1..];
    }
  }

  // ---- The scan ------------------------------------------------------------

  predicate Ascending(ids: seq<Id>) { forall i, j :: 0 <= i < j < |ids| ==> Less(ids[i], ids[j]) }

  function Above(registry: set<Id>, cursor: Option<Id>): set<Id> {
    set id | id in registry && (cursor.None? || Less(cursor.value, id))
  }

  /** `ids` are the `limit` smallest candidates, in order: whatever is left out comes
      after all of them, and is left out only when they are `limit` already. */
  predicate Smallest(ids: seq<Id>, candidates: set<Id>, limit: nat) {
    && Ascending(ids) && |ids| <= limit
    && (forall i :: 0 <= i < |ids| ==> ids[i] in candidates)
    && (forall c :: c in candidates && c !in ids ==> |ids| == limit && forall i :: 0 <= i < |ids| ==> Less(ids[i], c))
  }

  function Insert(ids: seq<Id>, key: Id): seq<Id> {
    if ids == [] || Less(key, ids[0]) then [key] + ids else [ids[0]] + Insert(ids[1..], key)
  }

  lemma {:induction false} InsertMembers(ids: seq<Id>, key: Id)
    ensures |Insert(ids, key)| == |ids| + 1
    ensures forall x :: x in Insert(ids, key) <==> x == key || x in ids
  {
    if ids != [] && !Less(key, ids[0]) {
      InsertMembers(ids[1..], key);
      assert ids == [ids[0]] + ids[1..];
    }
  }

  lemma {:induction false} InsertAscending(ids: seq<Id>, key: Id)
    requires Ascending(ids) && key !in ids
    ensures Ascending(Insert(ids, key))
  {
    if ids == [] {
    } else if Less(key, ids[0]) {
      forall j | 0 <= j < |ids| ensures Less(key, ids[j]) {
        if j > 0 { LessTransitive(key, ids[0], ids[j]); }
      }
    } else {
      var rest := Insert(ids[1..], key);
      assert forall x :: x in ids[1..] ==> x in ids;
      InsertAscending(ids[1..], key);
      InsertMembers(ids[1..], key);
      LessTotal(key, ids[0]);
      forall j | 0 <= j < |rest| ensures Less(ids[0], rest[j]) {
        if rest[j] != key {
          assert rest[j] in ids[1..];
          var k :| 0 <= k < |ids[1..]| && ids[1..][k] == rest[j];
          assert ids[k + 1] == rest[j];
        }
      }
    }
  }

  /** The bounded heap: one more candidate, and the largest one out if there are too
      many. */
  function Offer(heap: seq<Id>, key: Id, limit: nat): seq<Id> {
    var more := Insert(heap, key);
    if |more| > limit then more[..limit] else more
  }

  lemma {:induction false} OfferKeepsSmallest(heap: seq<Id>, candidates: set<Id>, key: Id, limit: nat)
    requires Smallest(heap, candidates, limit) && key !in candidates && 0 < limit
    ensures Smallest(Offer(heap, key, limit), candidates + {key}, limit)
  {
    var more, kept := Insert(heap, key), Offer(heap, key, limit);
    InsertMembers(heap, key);
    InsertAscending(heap, key);
    forall i | 0 <= i < |kept| ensures kept[i] in candidates + {key} {
      assert more[i] in more;
    }
    forall c | c in candidates + {key} && c !in kept ensures |kept| == limit && forall i :: 0 <= i < |kept| ==> Less(kept[i], c) {
      if c in more {
        assert more == kept + more[|kept|..];
        assert c == more[|kept|];
      } else {
        forall i | 0 <= i < |kept| ensures Less(kept[i], c) { BelowTheRest(heap, candidates, key, limit, i, c); }
      }
    }
  }

  /** A candidate that was left out earlier still comes after everything kept. */
  lemma {:induction false} BelowTheRest(heap: seq<Id>, candidates: set<Id>, key: Id, limit: nat, i: int, c: Id)
    requires Smallest(heap, candidates, limit) && key !in candidates && 0 < limit
    requires c in candidates && c !in Insert(heap, key) && 0 <= i < |Offer(heap, key, limit)|
    ensures Less(Offer(heap, key, limit)[i], c)
  {
    var more := Insert(heap, key);
    InsertMembers(heap, key);
    InsertAscending(heap, key);
    assert |heap| == limit && c !in heap;
    if more[i] != key {
      assert more[i] in heap;
    } else {
      var last := more[limit];
      assert last in more && Less(more[i], last);
      LessIrreflexive(key);
      assert last in heap;
      LessTransitive(key, last, c);
    }
  }

  function Scan(ids: seq<Id>, key: Id, cursor: Option<Id>, limit: nat): seq<Id> {
    if cursor.None? || Less(cursor.value, key) then Offer(ids, key, limit) else ids
  }

  lemma {:induction false} ScanKeepsSmallest(ids: seq<Id>, done: set<Id>, key: Id, cursor: Option<Id>, limit: nat)
    requires Smallest(ids, Above(done, cursor), limit) && key !in done && 0 < limit
    ensures Smallest(Scan(ids, key, cursor, limit), Above(done + {key}, cursor), limit)
  {
    if cursor.None? || Less(cursor.value, key) {
      OfferKeepsSmallest(ids, Above(done, cursor), key, limit);
      assert Above(done + {key}, cursor) == Above(done, cursor) + {key};
    } else {
      assert Above(done + {key}, cursor) == Above(done, cursor);
    }
  }

  method SessionIdsAfter(registry: set<Id>, cursor: Option<Id>, limit: nat) returns (ids: seq<Id>)
    ensures 0 < limit ==> Smallest(ids, Above(registry, cursor), limit)
    ensures limit == 0 ==> ids == []
  {
    ids := [];
    if limit == 0 { return; }
    var left := registry;
    ghost var done: set<Id> := {};
    while left != {}
      invariant done + left == registry && done !! left
      invariant Smallest(ids, Above(done, cursor), limit)
      decreases |left|
    {
      var key :| key in left;
      ScanKeepsSmallest(ids, done, key, cursor, limit);
      if cursor.None? || Less(cursor.value, key) { ids := Offer(ids, key, limit); }
      left := left - {key};
      done := done + {key};
    }
    assert done == registry;
  }

  // ---- A page --------------------------------------------------------------

  /** `page_size` as a request means it, floored at one. */
  function EffectivePageSize(requested: int, default: nat, cap: nat): (size: Option<nat>)
    ensures size.Some? <==> 0 <= requested
    ensures size.Some? ==> 1 <= size.value && (0 < requested && 0 < cap ==> size.value <= cap && size.value <= requested)
  {
    if requested < 0 then None
    else
      var size := if requested == 0 then default else if requested < cap then requested else cap;
      Some(if size == 0 then 1 else size)
  }

  /** One request: its page size, the registry it scanned, the sessions still there when
      they were fetched, the ids it scanned, what it showed and the cursor it returned. */
  datatype Visit = Visit(size: nat, registry: set<Id>, present: set<Id>, cursor: Option<Id>, ids: seq<Id>, shown: seq<Id>, next: Option<Id>)

  function Page(ids: seq<Id>, size: nat): seq<Id> { if |ids| <= size then ids else ids[..size] }

  function Fetched(ids: seq<Id>, present: set<Id>): seq<Id> {
    if ids == [] then []
    else Fetched(ids[..|ids| - 1], present) + if ids[|ids| - 1] in present then [ids[|ids| - 1]] else []
  }

  predicate Served(v: Visit) {
    && 0 < v.size
    && Smallest(v.ids, Above(v.registry, v.cursor), v.size + 1)
    && v.shown == Fetched(Page(v.ids, v.size), v.present)
    && v.next == if |v.ids| > v.size then Some(v.ids[v.size - 1]) else None
  }

  /** A session removed since the scan is skipped. */
  method FetchPage(page: seq<Id>, present: set<Id>) returns (shown: seq<Id>)
    ensures shown == Fetched(page, present)
  {
    shown := [];
    var i := 0;
    while i < |page|
      invariant 0 <= i <= |page| && shown == Fetched(page[..i], present)
    {
      assert page[..i + 1][..i] == page[..i];
      if page[i] in present { shown := shown + [page[i]]; }
      i := i + 1;
    }
    assert page[..i] == page;
  }

  method ListSessions(registry: set<Id>, present: set<Id>, cursor: Option<Id>, size: nat) returns (v: Visit)
    requires 0 < size
    ensures Served(v) && v.size == size && v.registry == registry && v.present == present && v.cursor == cursor
  {
    var ids := SessionIdsAfter(registry, cursor, size + 1);
    var hasMore := |ids| > size;
    var page := if hasMore then ids[..size] else ids;
    var next := if hasMore then Some(page[|page| - 1]) else None;
    var shown := FetchPage(page, present);
    v := Visit(size, registry, present, cursor, ids, shown, next);
  }

  // ---- A traversal ---------------------------------------------------------

  /** Pages fetched one after another, each with the cursor of the one before and a page
      size of its own; the registry may have changed in between. */
  predicate Traversal(visits: seq<Visit>) {
    && visits != [] && visits[0].cursor == None
    && (forall i :: 0 <= i < |visits| ==> Served(visits[i]))
    && (forall i, j :: 0 <= i < |visits| && j == i + 1 && j < |visits| ==> Follows(visits[i], visits[j]))
  }

  predicate Follows(v: Visit, w: Visit) { v.next.Some? && w.cursor == v.next }

  lemma {:induction false} FetchedMembers(ids: seq<Id>, present: set<Id>, id: Id)
    ensures id in Fetched(ids, present) <==> id in ids && id in present
  {
    if ids != [] {
      FetchedMembers(ids[..|ids| - 1], present, id);
      assert ids == ids[..|ids| - 1] + [ids[|ids| - 1]];
    }
  }

  lemma {:induction false} FetchedAscending(ids: seq<Id>, present: set<Id>)
    requires Ascending(ids)
    ensures Ascending(Fetched(ids, present))
  {
    if ids != [] {
      var front, last := ids[..|ids| - 1], ids[|ids| - 1];
      FetchedAscending(front, present);
      forall x | x in Fetched(front, present) ensures Less(x, last) {
        FetchedMembers(front, present, x);
        var i :| 0 <= i < |front| && front[i] == x;
        assert ids[i] == x;
      }
    }
  }

  /** Everything a page shows lies above its cursor, and at or below the next one. */
  lemma {:induction false} ShownBounds(v: Visit, id: Id)
    requires Served(v) && id in v.shown
    ensures id in v.registry && id in v.present
    ensures v.cursor.Some? ==> Less(v.cursor.value, id)
    ensures v.next.Some? ==> id == v.next.value || Less(id, v.next.value)
  {
    var page := Page(v.ids, v.size);
    FetchedMembers(page, v.present, id);
    var i :| 0 <= i < |page| && page[i] == id;
    assert v.ids[i] == id;
    if v.next.Some? && i < v.size - 1 { assert Less(v.ids[i], v.ids[v.size - 1]); }
  }

  /** Cursors strictly increase, whatever is inserted or removed. */
  lemma {:induction false} CursorIncreases(v: Visit)
    requires Served(v) && v.next.Some? && v.cursor.Some?
    ensures Less(v.cursor.value, v.next.value)
  {
    assert v.ids[v.size - 1] in Above(v.registry, v.cursor);
  }

  lemma {:induction false} LaterCursor(visits: seq<Visit>, i: int, j: int)
    requires Traversal(visits) && 0 <= i < j < |visits|
    ensures visits[i].next.Some? && visits[j].cursor.Some?
    ensures visits[i].next == visits[j].cursor || Less(visits[i].next.value, visits[j].cursor.value)
    decreases j - i
  {
    assert Follows(visits[j - 1], visits[j]);
    if i < j - 1 {
      LaterCursor(visits, i, j - 1);
      CursorIncreases(visits[j - 1]);
      if visits[i].next != visits[j - 1].cursor { LessTransitive(visits[i].next.value, visits[j - 1].cursor.value, visits[j].cursor.value); }
    }
  }

  /** No id is shown twice: within a page ids ascend, and every id of a page comes
      before every id of a later one. */
  lemma {:induction false} NothingTwice(visits: seq<Visit>, i: int, j: int, x: Id, y: Id)
    requires Traversal(visits) && 0 <= i < j < |visits| && x in visits[i].shown && y in visits[j].shown
    ensures Less(x, y) && x != y
    ensures Ascending(visits[i].shown)
  {
    LaterCursor(visits, i, j);
    ShownBounds(visits[i], x);
    ShownBounds(visits[j], y);
    var upper, lower := visits[i].next.value, visits[j].cursor.value;
    if x != upper && upper != lower { LessTransitive(x, upper, lower); }
    if x != lower { LessTransitive(x, lower, y); }
    LessIrreflexive(x);
    FetchedAscending(Page(visits[i].ids, visits[i].size), visits[i].present);
  }

  /** A session above the cursor is on the page, or above the next cursor. */
  lemma {:induction false} ShownOrLater(v: Visit, id: Id)
    requires Served(v) && id in Above(v.registry, v.cursor) && id in v.present
    ensures id in v.shown || (v.next.Some? && Less(v.next.value, id))
  {
    var page := Page(v.ids, v.size);
    FetchedMembers(page, v.present, id);
    assert forall k :: 0 <= k < |page| ==> page[k] == v.ids[k];
    if id !in page && id in v.ids {
      var i :| 0 <= i < |v.ids| && v.ids[i] == id;
      assert i >= v.size;
    }
  }

  lemma {:induction false} StillAhead(visits: seq<Visit>, id: Id, n: nat)
    requires Traversal(visits) && n < |visits|
    requires forall i :: 0 <= i < |visits| ==> id in visits[i].registry && id in visits[i].present
    requires forall i :: 0 <= i < n ==> id !in visits[i].shown
    ensures id in Above(visits[n].registry, visits[n].cursor)
  {
    if n > 0 {
      StillAhead(visits, id, n - 1);
      ShownOrLater(visits[n - 1], id);
      assert Follows(visits[n - 1], visits[n]);
    }
  }

  /** A session that is there throughout a finished traversal is shown, by exactly one
      page. */
  lemma {:induction false} PresentThroughoutIsShown(visits: seq<Visit>, id: Id)
    requires Traversal(visits) && visits[|visits| - 1].next.None?
    requires forall i :: 0 <= i < |visits| ==> id in visits[i].registry && id in visits[i].present
    ensures exists n :: 0 <= n < |visits| && id in visits[n].shown
    ensures forall i, j :: 0 <= i < j < |visits| ==> !(id in visits[i].shown && id in visits[j].shown)
  {
    if forall i :: 0 <= i < |visits| ==> id !in visits[i].shown {
      StillAhead(visits, id, |visits| - 1);
      ShownOrLater(visits[|visits| - 1], id);
      assert false;
    }
    forall i, j | 0 <= i < j < |visits| ensures !(id in visits[i].shown && id in visits[j].shown) {
      if id in visits[i].shown && id in visits[j].shown { NothingTwice(visits, i, j, id, id); }
    }
  }

  // ---- How many pages ------------------------------------------------------

  /** The least number of pages of `size` that hold `n`. */
  function Ceiling(n: nat, size: nat): (c: nat)
    requires 0 < size
    ensures n <= c * size && (0 < n ==> (c - 1) * size < n)
  {
    if n == 0 then 0 else if n <= size then 1 else 1 + Ceiling(n - size, size)
  }

  lemma {:induction false} LastIsNew(ids: seq<Id>)
    requires Ascending(ids) && ids != []
    ensures ids[|ids| - 1] !in ids[..|ids| - 1]
  {
    LessIrreflexive(ids[|ids| - 1]);
  }

  lemma {:induction false} SetOf(ids: seq<Id>)
    requires Ascending(ids)
    ensures |set x | x in ids| == |ids|
  {
    if ids != [] {
      var front, last := ids[..|ids| - 1], ids[|ids| - 1];
      LastIsNew(ids);
      SetOf(front);
      assert ids == front + [last];
      assert (set x | x in ids) == (set x | x in front) + {last};
    }
  }

  /** A page that is not the last takes its size out of the sessions ahead. */
  lemma {:induction false} PageTakes(v: Visit)
    requires Served(v)
    ensures v.next.None? <==> |Above(v.registry, v.cursor)| <= v.size
    ensures v.next.Some? ==> |Above(v.registry, v.next)| == |Above(v.registry, v.cursor)| - v.size
  {
    var ahead, scanned := Above(v.registry, v.cursor), set x | x in v.ids;
    SetOf(v.ids);
    assert scanned <= ahead;
    if v.next.None? {
      assert ahead == scanned;
    } else {
      var page := v.ids[..v.size];
      SetOf(page);
      assert |scanned| <= |ahead| by { assert ahead == scanned + (ahead - scanned); }
      Split(v);
      assert ahead == (set x | x in page) + Above(v.registry, v.next);
    }
  }

  lemma {:induction false} Split(v: Visit)
    requires Served(v) && v.next.Some?
    ensures
      var page := set x | x in v.ids[..v.size];
      page !! Above(v.registry, v.next) && Above(v.registry, v.cursor) == page + Above(v.registry, v.next)
  {
    var last := v.ids[v.size - 1];
    forall id ensures id in Above(v.registry, v.cursor) <==> id in v.ids[..v.size] || id in Above(v.registry, v.next) {
      if id in v.ids[..v.size] {
        var i :| 0 <= i < v.size && v.ids[i] == id;
      } else if id in Above(v.registry, v.cursor) {
        if id in v.ids {
          var i :| 0 <= i < |v.ids| && v.ids[i] == id;
          assert i >= v.size;
        }
        assert Less(last, id);
      } else if id in Above(v.registry, v.next) && v.cursor.Some? {
        CursorIncreases(v);
        LessTransitive(v.cursor.value, last, id);
      }
    }
    forall id | id in v.ids[..v.size] ensures id !in Above(v.registry, v.next) {
      var i :| 0 <= i < v.size && v.ids[i] == id;
      LessIrreflexive(last);
      if i < v.size - 1 && Less(last, id) { LessTransitive(last, id, last); }
    }
  }

  /** The pages that hold `n` sessions, when there is always a first one. */
  function PagesFor(n: nat, size: nat): nat
    requires 0 < size
  {
    if n == 0 then 1 else Ceiling(n, size)
  }

  lemma {:induction false} PagesForStep(n: nat, size: nat)
    requires 0 < size
    ensures n <= size ==> PagesFor(n, size) == 1
    ensures n > size ==> PagesFor(n, size) == 1 + PagesFor(n - size, size)
  {
  }

  /** A registry that does not change, read in pages of one size. */
  predicate Fixed(visits: seq<Visit>, size: nat) {
    forall i :: 0 <= i < |visits| ==> visits[i].registry == visits[0].registry && visits[i].size == size
  }

  lemma {:induction false} PagesFrom(visits: seq<Visit>, size: nat, k: nat)
    requires Traversal(visits) && visits[|visits| - 1].next.None? && k < |visits| && Fixed(visits, size)
    ensures |visits| - k == PagesFor(|Above(visits[0].registry, visits[k].cursor)|, size)
    decreases |visits| - k
  {
    PageTakes(visits[k]);
    PagesForStep(|Above(visits[0].registry, visits[k].cursor)|, size);
    if k + 1 < |visits| {
      assert Follows(visits[k], visits[k + 1]);
      PagesFrom(visits, size, k + 1);
    }
  }

  /** A traversal of a registry that does not change, in pages of one size, takes
      max(1, ceil(n / size)) pages. */
  lemma {:induction false} PageCount(visits: seq<Visit>, size: nat)
    requires Traversal(visits) && visits[|visits| - 1].next.None? && Fixed(visits, size)
    ensures |visits| == if visits[0].registry == {} then 1 else Ceiling(|visits[0].registry|, size)
  {
    PagesFrom(visits, size, 0);
    assert Above(visits[0].registry, None) == visits[0].registry;
  }
}
