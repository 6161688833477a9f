/**
  `sf.object.list` (src/protocol.rs:84-109): a cursor over the objects in key order,
  while objects come and go between the pages.
 */
module Paging {
  import opened Prelude

  type Id = Bytes

  const MAX_LIMIT: nat := 256

  datatype Reply = Refused | Page(ids: seq<Id>, next: Option<Id>)

  predicate Beyond(cursor: Option<Id>, id: Id) {
    cursor.None? || Before(cursor.value, id)
  }

  function Later(ids: seq<Id>, cursor: Option<Id>): seq<Id> {
    if ids == [] then []
    else if Beyond(cursor, ids[0]) then [ids[0]] + Later(ids[1..], cursor)
    else Later(ids[1..], cursor)
  }

  function List(ids: seq<Id>, cursor: Option<Id>, limit: nat): Reply {
    if limit == 0 || limit > MAX_LIMIT then Refused
    else
      var items := Later(ids, cursor);
      if |items| > limit then Page(items[..limit], Some(items[limit - 1])) else Page(items, None)
  }

  // ----- One page -----

  lemma {:induction false} LaterMeaning(ids: seq<Id>, cursor: Option<Id>)
    requires Ascending(ids)
    ensures Ascending(Later(ids, cursor))
    ensures forall id :: id in Later(ids, cursor) <==> id in ids && Beyond(cursor, id)
  {
    if ids != [] {
      LaterMeaning(ids[1..], cursor);
      assert forall id :: id in ids <==> id == ids[0] || id in ids[1..];
      forall id | id in Later(ids[1..], cursor) ensures Before(ids[0], id) {
        assert id in ids[1..];
      }
    }
  }

  /** A page covers the identifiers from its cursor to the next, and exactly those. */
  lemma PageCovers(ids: seq<Id>, cursor: Option<Id>, limit: nat)
    requires Ascending(ids) && List(ids, cursor, limit).Page?
    ensures var page := List(ids, cursor, limit);
      && Ascending(page.ids)
      && (page.next.Some? ==> |page.ids| == limit && page.next.value == page.ids[limit - 1] && Beyond(cursor, page.next.value))
      && (forall id :: id in page.ids <==>
            id in ids && Beyond(cursor, id) && !(page.next.Some? && Before(page.next.value, id)))
  {
    var items, page := Later(ids, cursor), List(ids, cursor, limit);
    LaterMeaning(ids, cursor);
    if page.next.Some? {
      assert page.next.value == items[limit - 1] && items[limit - 1] in items;
      forall id ensures id in page.ids <==> id in items && !Before(items[limit - 1], id) {
        Split(items, limit, id);
      }
    }
  }

  /** The first elements of an ascending sequence are those not after the last of them. */
  lemma Split(items: seq<Id>, n: nat, id: Id)
    requires Ascending(items) && 0 < n <= |items|
    ensures id in items[..n] <==> id in items && !Before(items[n - 1], id)
  {
    if id in items {
      var i :| 0 <= i < |items| && items[i] == id;
      BeforeTotal(id, id);
      if i < n - 1 && Before(items[n - 1], id) {
        BeforeTransitive(id, items[n - 1], id);
      }
    }
  }

  // ----- Following the cursors -----

  /** One request: the keys it finds and the limit it asks for. */
  datatype Query = Query(ids: seq<Id>, limit: nat)

  /** All identifiers listed by a client that passes each cursor on; a refused request moves nothing. */
  function Listed(queries: seq<Query>, cursor: Option<Id>): seq<Id> {
    if queries == [] then []
    else match List(queries[0].ids, cursor, queries[0].limit)
      case Refused => Listed(queries[1..], cursor)
      case Page(ids, None) => ids
      case Page(ids, next) => ids + Listed(queries[1..], next)
  }

  /** Some page came without a cursor. */
  predicate Ended(queries: seq<Query>, cursor: Option<Id>) {
    queries != [] &&
    match List(queries[0].ids, cursor, queries[0].limit)
    case Refused => Ended(queries[1..], cursor)
    case Page(_, None) => true
    case Page(_, next) => Ended(queries[1..], next)
  }

  /** The request whose page covers an identifier. */
  function Turn(queries: seq<Query>, cursor: Option<Id>, id: Id): nat {
    if queries == [] then 0
    else match List(queries[0].ids, cursor, queries[0].limit)
      case Refused => 1 + Turn(queries[1..], cursor, id)
      case Page(_, next) =>
        if next.Some? && Before(next.value, id) then 1 + Turn(queries[1..], next, id) else 0
  }

  ghost predicate Snapshots(queries: seq<Query>) {
    forall q :: q in queries ==> Ascending(q.ids)
  }

  lemma JoinAscending(a: seq<Id>, b: seq<Id>, mark: Id)
    requires Ascending(a) && Ascending(b)
    requires a != [] && a[|a| - 1] == mark
    requires forall id :: id in b ==> Before(mark, id)
    ensures Ascending(a + b)
  {
    var s := a + b;
    forall i, j | 0 <= i < j < |s| ensures Before(s[i], s[j]) {
      if i < |a| <= j {
        assert b[j - |a|] in b;
        if i < |a| - 1 {
          BeforeTransitive(a[i], mark, s[j]);
        }
      }
    }
  }

  /** Whatever changes between pages, the listing only moves forward. */
  lemma {:induction false} ListedAscends(queries: seq<Query>, cursor: Option<Id>)
    requires Snapshots(queries)
    ensures Ascending(Listed(queries, cursor))
    ensures forall id :: id in Listed(queries, cursor) ==> Beyond(cursor, id)
  {
    if queries != [] {
      var q, rest := queries[0], queries[1..];
      var page := List(q.ids, cursor, q.limit);
      hide List, Ascending;
      assert forall r :: r in rest ==> r in queries;
      if page.Refused? {
        ListedAscends(rest, cursor);
      } else {
        PageCovers(q.ids, cursor, q.limit);
        if page.next.Some? {
          ListedAscends(rest, page.next);
          JoinAscending(page.ids, Listed(rest, page.next), page.next.value);
          forall id | id in Listed(rest, page.next) ensures Beyond(cursor, id) {
            if cursor.Some? {
              BeforeTransitive(cursor.value, page.next.value, id);
            }
          }
        }
      }
    }
  }

  /** The first request of a listing, and the rest. */
  lemma Unfold(queries: seq<Query>, cursor: Option<Id>)
    requires queries != []
    ensures var page, rest := List(queries[0].ids, cursor, queries[0].limit), queries[1..];
      if page.Refused? then
        Listed(queries, cursor) == Listed(rest, cursor) && (Ended(queries, cursor) <==> Ended(rest, cursor))
      else if page.next.None? then
        Listed(queries, cursor) == page.ids && Ended(queries, cursor)
      else
        Listed(queries, cursor) == page.ids + Listed(rest, page.next) && (Ended(queries, cursor) <==> Ended(rest, page.next))
  {
    hide List;
  }

  lemma UnfoldTurn(queries: seq<Query>, cursor: Option<Id>, id: Id)
    requires queries != []
    ensures var page, rest := List(queries[0].ids, cursor, queries[0].limit), queries[1..];
      Turn(queries, cursor, id)
      == if page.Refused? then 1 + Turn(rest, cursor, id)
         else if page.next.Some? && Before(page.next.value, id) then 1 + Turn(rest, page.next, id)
         else 0
  {
    hide List, Before;
  }

  lemma LaterSnapshots(queries: seq<Query>)
    requires Snapshots(queries) && queries != []
    ensures Ascending(queries[0].ids) && Snapshots(queries[1..])
  {
    hide Ascending;
  }

  /**
    A listing that ends holds an identifier exactly when the object was there at the one
    request whose page covers it.
   */
  lemma {:induction false} ListedExactly(queries: seq<Query>, cursor: Option<Id>, id: Id)
    requires Snapshots(queries) && Ended(queries, cursor) && Beyond(cursor, id)
    ensures Turn(queries, cursor, id) < |queries|
    ensures id in Listed(queries, cursor) <==> id in queries[Turn(queries, cursor, id)].ids
  {
    var q, rest := queries[0], queries[1..];
    var page := List(q.ids, cursor, q.limit);
    LaterSnapshots(queries);
    Unfold(queries, cursor);
    UnfoldTurn(queries, cursor, id);
    hide List, Ascending, Before, Snapshots, Listed, Turn;
    if page.Refused? {
      ListedExactly(rest, cursor, id);
    } else {
      PageCovers(q.ids, cursor, q.limit);
      if page.next.Some? {
        ListedAscends(rest, page.next);
        if Before(page.next.value, id) {
          ListedExactly(rest, page.next, id);
        }
      }
    }
  }

  lemma AscendingDistinct(ids: seq<Id>)
    requires Ascending(ids)
    ensures Distinct(ids)
  {
    forall i, j | 0 <= i < j < |ids| ensures ids[i] != ids[j] {
      BeforeTotal(ids[i], ids[j]);
    }
  }

  /** If the listing ends, an object present throughout appears exactly once, and one never present not at all. */
  lemma PresentThroughout(queries: seq<Query>, id: Id)
    requires Snapshots(queries) && Ended(queries, None)
    ensures Distinct(Listed(queries, None))
    ensures (forall q :: q in queries ==> id in q.ids) ==> id in Listed(queries, None)
    ensures (forall q :: q in queries ==> id !in q.ids) ==> id !in Listed(queries, None)
  {
    ListedAscends(queries, None);
    AscendingDistinct(Listed(queries, None));
    ListedExactly(queries, None, id);
    assert queries[Turn(queries, None, id)] in queries;
  }

  // ----- An unchanging map -----

  /** The cursor after the first p identifiers. */
  function CursorAt(ids: seq<Id>, p: nat): Option<Id>
    requires p <= |ids|
  {
    if p == 0 then None else Some(ids[p - 1])
  }

  lemma {:induction false} LaterThanAll(ids: seq<Id>, cursor: Option<Id>)
    requires forall id :: id in ids ==> Beyond(cursor, id)
    ensures Later(ids, cursor) == ids
  {
    if ids != [] {
      LaterThanAll(ids[1..], cursor);
    }
  }

  lemma {:induction false} LaterThanNone(a: seq<Id>, b: seq<Id>, cursor: Option<Id>)
    requires forall id :: id in a ==> !Beyond(cursor, id)
    ensures Later(a + b, cursor) == Later(b, cursor)
  {
    if a == [] {
      assert a + b == b;
    } else {
      assert a[0] in a && (a + b)[1..] == a[1..] + b;
      LaterThanNone(a[1..], b, cursor);
    }
  }

  lemma LaterFrom(ids: seq<Id>, p: nat)
    requires Ascending(ids) && p <= |ids|
    ensures Later(ids, CursorAt(ids, p)) == ids[p..]
  {
    hide Later, Before, Ascending, Beyond, CursorAt;
    var a, b, cursor := ids[..p], ids[p..], CursorAt(ids, p);
    NoneBeyond(ids, p);
    AllBeyond(ids, p);
    LaterThanNone(a, b, cursor);
    LaterThanAll(b, cursor);
    assert a + b == ids;
  }

  lemma NoneBeyond(ids: seq<Id>, p: nat)
    requires Ascending(ids) && p <= |ids|
    ensures forall id :: id in ids[..p] ==> !Beyond(CursorAt(ids, p), id)
  {
    hide Before, Ascending;
    forall id | id in ids[..p] ensures !Beyond(CursorAt(ids, p), id) {
      Split(ids, p, id);
    }
  }

  lemma AllBeyond(ids: seq<Id>, p: nat)
    requires Ascending(ids) && p <= |ids|
    ensures forall id :: id in ids[p..] ==> Beyond(CursorAt(ids, p), id)
  {
    hide Before;
  }

  ghost predicate Unchanging(queries: seq<Query>, ids: seq<Id>, limit: nat) {
    forall q :: q in queries ==> q == Query(ids, limit)
  }

  lemma PageAt(ids: seq<Id>, limit: nat, p: nat)
    requires Ascending(ids) && 1 <= limit <= MAX_LIMIT && p <= |ids|
    ensures List(ids, CursorAt(ids, p), limit)
         == if p + limit < |ids| then Page(ids[p..p + limit], CursorAt(ids, p + limit)) else Page(ids[p..], None)
  {
    LaterFrom(ids, p);
    hide Later, Ascending;
    assert p + limit < |ids| ==> ids[p..][..limit] == ids[p..p + limit];
  }

  lemma JoinPages(ids: seq<Id>, p: nat, end: nat, to: nat)
    requires p <= end <= to <= |ids|
    ensures ids[p..end] + ids[end..to] == ids[p..to]
  {
  }

  lemma {:induction false} PagesFrom(queries: seq<Query>, ids: seq<Id>, limit: nat, p: nat)
    requires Ascending(ids) && 1 <= limit <= MAX_LIMIT && p <= |ids|
    requires Unchanging(queries, ids, limit)
    ensures Listed(queries, CursorAt(ids, p)) == ids[p..Min(|ids|, p + |queries| * limit)]
    ensures Ended(queries, CursorAt(ids, p)) <==> queries != [] && p + |queries| * limit >= |ids|
  {
    if queries != [] {
      hide List, Ascending, Listed, Ended;
      var rest, end := queries[1..], p + limit;
      assert queries[0] in queries && forall q :: q in rest ==> q in queries;
      PageAt(ids, limit, p);
      Unfold(queries, CursorAt(ids, p));
      OneMore(|rest|, limit);
      if end < |ids| {
        PagesFrom(rest, ids, limit, end);
        JoinPages(ids, p, end, Min(|ids|, end + |rest| * limit));
      }
    }
  }

  lemma OneMore(n: nat, limit: nat)
    ensures (n + 1) * limit == limit + n * limit && n * limit >= 0
  {
  }

  /** On an unchanging map k pages list the first k * limit objects; the listing ends once those are all. */
  lemma PagesAreTheWhole(queries: seq<Query>, ids: seq<Id>, limit: nat)
    requires Ascending(ids) && 1 <= limit <= 256
    requires Unchanging(queries, ids, limit)
    ensures Listed(queries, None) == ids[..Min(|ids|, |queries| * limit)]
    ensures Ended(queries, None) <==> queries != [] && |queries| * limit >= |ids|
    ensures Ended(queries, None) ==> Listed(queries, None) == ids
  {
    PagesFrom(queries, ids, limit, 0);
  }
}
