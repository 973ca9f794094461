/**
 * Keyset pagination as the listing queries of lib/supabase/services/queries.ts do it
 * (`getChatsByUserId`, `getCharactersByUserId`, `getPublicCharacters`, `getChatsByCharacterId`):
 * an optional cursor row narrows the window, the rows are ordered newest first, `limit + 1` of them
 * are fetched, and the extra row only tells whether there are more.
 */
module Pagination {
  import opened Wrappers
  import opened Errors
  import opened Relational

  /** One page of a listing. */
  datatype Page<T> = Page(rows: seq<T>, hasMore: bool)

  /** `if (cursor)` on a `string | null`: a cursor counts only when present and non-empty. */
  predicate Given(cursor: Option<string>)
  {
    cursor.Some? && cursor.value != ""
  }

  /** The part of the timeline a cursor leaves. */
  datatype Window = Unbounded | NewerThan(after: int) | OlderThan(before: int)

  predicate InWindow(t: int, w: Window)
  {
    match w
    case Unbounded => true
    case NewerThan(after) => t > after
    case OlderThan(before) => t < before
  }

  /** `.select('created_at').eq('id', id).single()`: a value only when exactly one row has that id. */
  function CursorCreatedAt<T>(table: seq<T>, idOf: T -> string, createdAt: T -> int, id: string): Option<int>
  {
    var hits := Filter(table, (x: T) => idOf(x) == id);
    if |hits| == 1 then Some(createdAt(hits[0])) else None
  }

  /**
   * The cursor handling: `startingAfter` is looked at first and keeps strictly newer rows; only
   * without it does `endingBefore` keep strictly older rows. A cursor row that cannot be found
   * raises `not_found:database` (which the queries' outer catch turns into `bad_request:database`).
   */
  function ResolveWindow<T>(table: seq<T>, idOf: T -> string, createdAt: T -> int,
                            startingAfter: Option<string>, endingBefore: Option<string>,
                            entity: string): Result<Window, ChatSdkError>
  {
    if Given(startingAfter) then
      match CursorCreatedAt(table, idOf, createdAt, startingAfter.value)
      case None => Failure(ChatSdkError(NotFoundDatabase, entity + " with id " + startingAfter.value + " not found"))
      case Some(t) => Success(NewerThan(t))
    else if Given(endingBefore) then
      match CursorCreatedAt(table, idOf, createdAt, endingBefore.value)
      case None => Failure(ChatSdkError(NotFoundDatabase, entity + " with id " + endingBefore.value + " not found"))
      case Some(t) => Success(OlderThan(t))
    else
      Success(Unbounded)
  }

  /** The given cursor (startingAfter first) names no single row. */
  predicate UnknownCursor<T>(table: seq<T>, idOf: T -> string, createdAt: T -> int,
                             startingAfter: Option<string>, endingBefore: Option<string>)
  {
    if Given(startingAfter) then CursorCreatedAt(table, idOf, createdAt, startingAfter.value).None?
    else Given(endingBefore) && CursorCreatedAt(table, idOf, createdAt, endingBefore.value).None?
  }

  /** The window the cursors leave (Unbounded when the cursor is unknown: the query fails then). */
  function CursorWindow<T>(table: seq<T>, idOf: T -> string, createdAt: T -> int,
                           startingAfter: Option<string>, endingBefore: Option<string>): Window
  {
    match ResolveWindow(table, idOf, createdAt, startingAfter, endingBefore, "")
    case Success(w) => w
    case Failure(_) => Unbounded
  }

  /** The rows the query's filters keep: the listing's own `.eq(...)` and the cursor's bound. */
  function Matching<T>(table: seq<T>, keep: T -> bool, createdAt: T -> int, w: Window): seq<T>
  {
    Filter(table, (x: T) => keep(x) && InWindow(createdAt(x), w))
  }

  /** `.order('created_at', { ascending: false })`. */
  function NewestFirst<T>(createdAt: T -> int): (T, T) -> bool
  {
    (a: T, b: T) => createdAt(a) >= createdAt(b)
  }

  lemma NewestFirstIsOrder<T(!new)>(createdAt: T -> int)
    ensures Total(NewestFirst(createdAt)) && Transitive(NewestFirst(createdAt))
  {
  }

  /** `.order('created_at', { ascending: true })`. */
  function OldestFirst<T>(createdAt: T -> int): (T, T) -> bool
  {
    (a: T, b: T) => createdAt(a) <= createdAt(b)
  }

  lemma OldestFirstIsOrder<T(!new)>(createdAt: T -> int)
    ensures Total(OldestFirst(createdAt)) && Transitive(OldestFirst(createdAt))
  {
  }

  /** The first row newest first is one of the rows, and none is newer. */
  lemma NewestFirstHead<T(!new)>(s: seq<T>, createdAt: T -> int)
    requires |s| > 0
    ensures var ordered := SortBy(s, NewestFirst(createdAt));
      ordered[0] in s && forall i :: 0 <= i < |s| ==> createdAt(s[i]) <= createdAt(ordered[0])
  {
    var ordered := SortBy(s, NewestFirst(createdAt));
    NewestFirstIsOrder(createdAt);
    SortBySorted(s, NewestFirst(createdAt));
    assert ordered[0] in multiset(s);
    forall i | 0 <= i < |s| ensures createdAt(s[i]) <= createdAt(ordered[0]) {
      assert s[i] in multiset(ordered);
      var k :| 0 <= k < |ordered| && ordered[k] == s[i];
      if k > 0 {
        assert NewestFirst(createdAt)(ordered[0], ordered[k]);
      }
    }
  }

  /**
   * What the code computes from the matching rows: the first `limit + 1` of them newest first,
   * `hasMore` when more than `limit` came back, and the first `limit` of those when so.
   */
  function FetchPage<T>(matching: seq<T>, createdAt: T -> int, limit: nat): Page<T>
  {
    var fetched := Take(SortBy(matching, NewestFirst(createdAt)), limit + 1);
    var hasMore := |fetched| > limit;
    Page(if hasMore then fetched[..limit] else fetched, hasMore)
  }

  /**
   * The page a listing promises: the first `min(limit, n)` of the `n` matching rows in
   * newest-first order, and `hasMore` exactly when more than `limit` rows match.
   */
  ghost predicate IsNewestPage<T>(p: Page<T>, matching: seq<T>, createdAt: T -> int, limit: nat)
  {
    var ordered := SortBy(matching, NewestFirst(createdAt));
    && (p.hasMore <==> |matching| > limit)
    && p.rows == ordered[..Min(limit, |matching|)]
  }

  /** The `limit + 1` look-ahead is exact: the one extra row fetched decides `hasMore` correctly. */
  lemma {:induction false} FetchPageIsNewestPage<T>(matching: seq<T>, createdAt: T -> int, limit: nat)
    ensures IsNewestPage(FetchPage(matching, createdAt, limit), matching, createdAt, limit)
  {
    var ordered := SortBy(matching, NewestFirst(createdAt));
    var fetched := Take(ordered, limit + 1);
    assert |ordered| == |matching|;
    if |matching| > limit {
      assert |fetched| == limit + 1;
      assert fetched[..limit] == ordered[..limit];
    } else {
      assert fetched == ordered;
      assert ordered[..|matching|] == ordered;
    }
  }

  /**
   * A newest page is ordered newest first, holds only matching rows, and leaves out no row that is
   * newer than one it shows.
   */
  lemma NewestPageIsNewest<T(!new)>(p: Page<T>, matching: seq<T>, createdAt: T -> int, limit: nat)
    requires IsNewestPage(p, matching, createdAt, limit)
    ensures |p.rows| == Min(limit, |matching|)
    ensures SortedBy(p.rows, NewestFirst(createdAt))
    ensures forall i :: 0 <= i < |p.rows| ==> p.rows[i] in matching
    ensures forall x, i :: x in matching && 0 <= i < |p.rows| && createdAt(x) > createdAt(p.rows[i])
              ==> x in p.rows
  {
    var ordered := SortBy(matching, NewestFirst(createdAt));
    NewestFirstIsOrder(createdAt);
    SortBySorted(matching, NewestFirst(createdAt));
    var k := Min(limit, |matching|);
    forall i | 0 <= i < |p.rows| ensures p.rows[i] in matching {
      assert p.rows[i] == ordered[i];
      assert ordered[i] in multiset(ordered);
    }
    forall x, i | x in matching && 0 <= i < |p.rows| && createdAt(x) > createdAt(p.rows[i])
      ensures x in p.rows
    {
      assert x in multiset(ordered);
      var j :| 0 <= j < |ordered| && ordered[j] == x;
      assert p.rows[i] == ordered[i];
      if j >= k {
        assert false;
      }
      assert p.rows[j] == x;
    }
  }

  /**
   * A cursor given as `startingAfter` wins over `endingBefore` and keeps only strictly newer
   * rows; `endingBefore` alone keeps only strictly older ones.
   */
  lemma CursorBounds<T>(table: seq<T>, keep: T -> bool, idOf: T -> string, createdAt: T -> int,
                        startingAfter: Option<string>, endingBefore: Option<string>)
    requires !UnknownCursor(table, idOf, createdAt, startingAfter, endingBefore)
    ensures var m := Matching(table, keep, createdAt,
                              CursorWindow(table, idOf, createdAt, startingAfter, endingBefore));
      && (Given(startingAfter) ==>
            forall i :: 0 <= i < |m| ==>
              createdAt(m[i]) > CursorCreatedAt(table, idOf, createdAt, startingAfter.value).value)
      && (!Given(startingAfter) && Given(endingBefore) ==>
            forall i :: 0 <= i < |m| ==>
              createdAt(m[i]) < CursorCreatedAt(table, idOf, createdAt, endingBefore.value).value)
      && (forall i :: 0 <= i < |m| ==> m[i] in table && keep(m[i]))
  {
  }

  /** The composition the listing queries run, with the cursor's `not_found:database`. */
  function ListPage<T>(table: seq<T>, keep: T -> bool, idOf: T -> string, createdAt: T -> int,
                       limit: nat, startingAfter: Option<string>, endingBefore: Option<string>,
                       entity: string): Result<Page<T>, ChatSdkError>
  {
    match ResolveWindow(table, idOf, createdAt, startingAfter, endingBefore, entity)
    case Failure(e) => Failure(e)
    case Success(w) => Success(FetchPage(Matching(table, keep, createdAt, w), createdAt, limit))
  }

  /** The inner failure of a listing is `not_found:database`, and it happens exactly on an unknown cursor. */
  lemma ListPageFailsOnUnknownCursor<T>(table: seq<T>, keep: T -> bool, idOf: T -> string,
                                        createdAt: T -> int, limit: nat,
                                        startingAfter: Option<string>, endingBefore: Option<string>,
                                        entity: string)
    ensures var r := ListPage(table, keep, idOf, createdAt, limit, startingAfter, endingBefore, entity);
      && (r.Failure? <==> UnknownCursor(table, idOf, createdAt, startingAfter, endingBefore))
      && (r.Failure? ==> r.error.code == NotFoundDatabase)
      && (r.Success? ==> r.value == FetchPage(
            Matching(table, keep, createdAt,
                     CursorWindow(table, idOf, createdAt, startingAfter, endingBefore)),
            createdAt, limit))
  {
  }
}
