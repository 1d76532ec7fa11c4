/** Keyset paging over a listing: a table in its ORDER BY order, `key` giving where each
    row stands and `before` the strict order of keys. */
module Paging {
  import opened Wrappers
  import opened Text
  import opened Filtering

  ghost predicate StrictOrder<K(!new)>(before: (K, K) -> bool) {
    && (forall a :: !before(a, a))
    && (forall a, b, c :: before(a, b) && before(b, c) ==> before(a, c))
  }

  predicate Sorted<R, K>(rows: seq<R>, key: R -> K, before: (K, K) -> bool) {
    forall i, j | 0 <= i < j < |rows| :: before(key(rows[i]), key(rows[j]))
  }

  predicate Follows<R, K>(row: R, cursor: Option<K>, key: R -> K, before: (K, K) -> bool) {
    cursor.None? || before(cursor.value, key(row))
  }

  function After<R, K>(rows: seq<R>, cursor: Option<K>, key: R -> K, before: (K, K) -> bool): seq<R> {
    Keep(rows, row => Follows(row, cursor, key, before))
  }

  function First<R>(rows: seq<R>, n: nat): seq<R> {
    if |rows| <= n then rows else rows[..n]
  }

  lemma KeepSorted<R, K(!new)>(rows: seq<R>, p: R -> bool, key: R -> K, before: (K, K) -> bool)
    requires Sorted(rows, key, before)
    ensures Sorted(Keep(rows, p), key, before)
  {
    var at := KeepIsSubsequence(rows, p);
    forall j, k | 0 <= j < k < |at|
      ensures before(key(Keep(rows, p)[j]), key(Keep(rows, p)[k]))
    {
      assert at[j] < at[k];
    }
  }

  // ------------------------------------------------------------------- after a cursor

  lemma NotBothWays<K(!new)>(a: K, b: K, before: (K, K) -> bool)
    requires StrictOrder(before)
    ensures !(before(a, b) && before(b, a))
  {
    assert before(a, b) && before(b, a) ==> before(a, a);
  }

  /** In a sorted list, what follows a listed row is the rest of the list. */
  lemma AfterRowIsRest<R, K(!new)>(rows: seq<R>, k: nat, key: R -> K, before: (K, K) -> bool)
    requires StrictOrder(before) && Sorted(rows, key, before) && k < |rows|
    ensures After(rows, Some(key(rows[k])), key, before) == rows[k + 1..]
  {
    var p: R -> bool := row => Follows(row, Some(key(rows[k])), key, before);
    forall i | 0 <= i <= k ensures !p(rows[i]) {
      NotBothWays(key(rows[i]), key(rows[k]), before);
    }
    KeepNone(rows[..k + 1], p);
    KeepAll(rows[k + 1..], p);
    KeepJoins(rows[..k + 1], rows[k + 1..], p);
    Halves(rows, k + 1);
  }

  lemma AfterAgain<R, K>(rows: seq<R>, cursor: Option<K>, key: R -> K, before: (K, K) -> bool)
    ensures After(After(rows, cursor, key, before), cursor, key, before) == After(rows, cursor, key, before)
  {
    var at := KeepIsSubsequence(rows, row => Follows(row, cursor, key, before));
    KeepAll(After(rows, cursor, key, before), row => Follows(row, cursor, key, before));
  }

  /** After a row that itself follows a cursor come the same rows, cursor or not. */
  lemma AfterListedRow<R, K(!new)>(rows: seq<R>, cursor: Option<K>, k: nat, key: R -> K, before: (K, K) -> bool)
    requires StrictOrder(before) && k < |After(rows, cursor, key, before)|
    ensures var row := After(rows, cursor, key, before)[k];
            After(After(rows, cursor, key, before), Some(key(row)), key, before) == After(rows, Some(key(row)), key, before)
  {
    var p: R -> bool := row => Follows(row, cursor, key, before);
    var at := KeepIsSubsequence(rows, p);
    var row := After(rows, cursor, key, before)[k];
    var q: R -> bool := other => Follows(other, Some(key(row)), key, before);
    assert p(row);
    KeepTwice(rows, p, q);
    KeepAlike(rows, other => p(other) && q(other), q);
  }

  // ------------------------------------------------------------------- one page

  datatype Page<R> = Page(rows: seq<R>, more: bool)

  /** The first `limit` rows shown after the cursor, and whether any are left. */
  function PageOf<R, K>(shown: seq<R>, cursor: Option<K>, limit: nat, key: R -> K, before: (K, K) -> bool): Page<R> {
    var rest := After(shown, cursor, key, before);
    Page(First(rest, limit), |rest| > limit)
  }

  lemma PageFromPrefix<R>(all: seq<R>, kept: seq<R>, limit: nat)
    requires kept <= all && (|kept| > limit || kept == all)
    ensures First(kept, limit) == First(all, limit) && (|kept| > limit <==> |all| > limit)
  {
  }

  // ------------------------------------------------------------------- a run of pages

  /** One request: its cursor, what the caller was shown of the table, and the page. */
  datatype Visit<R, K> = Visit(cursor: Option<K>, shown: seq<R>, page: Page<R>)

  ghost predicate Served<R, K>(visit: Visit<R, K>, limit: nat, key: R -> K, before: (K, K) -> bool) {
    && Sorted(visit.shown, key, before)
    && visit.page == PageOf(visit.shown, visit.cursor, limit, key, before)
  }

  /** The next request carries the cursor of the last row handed out. */
  ghost predicate Linked<R, K>(visit: Visit<R, K>, next: Visit<R, K>, key: R -> K) {
    && visit.page.more && visit.page.rows != []
    && next.cursor == Some(key(Last(visit.page.rows)))
  }

  ghost predicate Run<R, K>(visits: seq<Visit<R, K>>, limit: nat, key: R -> K, before: (K, K) -> bool) {
    && (forall i | 0 <= i < |visits| :: Served(visits[i], limit, key, before))
    && (forall i | 0 < i < |visits| :: Linked(visits[i - 1], visits[i], key))
    && (visits != [] ==> visits[0].cursor == None)
  }

  function Collected<R, K>(visits: seq<Visit<R, K>>): seq<R> {
    if visits == [] then [] else Collected(Front(visits)) + Last(visits).page.rows
  }

  lemma RunStep<R, K>(visits: seq<Visit<R, K>>, limit: nat, key: R -> K, before: (K, K) -> bool)
    requires Run(visits, limit, key, before) && visits != []
    ensures Run(Front(visits), limit, key, before) && Served(Last(visits), limit, key, before)
    ensures |visits| == 1 ==> Front(visits) == [] && Last(visits).cursor == None
    ensures |visits| > 1 ==> Linked(Last(Front(visits)), Last(visits), key)
  {
    forall i | 0 <= i < |visits| - 1 ensures Front(visits)[i] == visits[i] {
    }
  }

  lemma PageIsAfterCursor<R, K(!new)>(shown: seq<R>, cursor: Option<K>, limit: nat, key: R -> K, before: (K, K) -> bool)
    requires Sorted(shown, key, before)
    ensures var page := PageOf(shown, cursor, limit, key, before).rows;
            && Sorted(page, key, before)
            && forall k | 0 <= k < |page| :: Follows(page[k], cursor, key, before) && page[k] in shown
  {
    var p: R -> bool := row => Follows(row, cursor, key, before);
    KeepSorted(shown, p, key, before);
    var at := KeepIsSubsequence(shown, p);
  }

  lemma SortedJoins<R, K(!new)>(xs: seq<R>, ys: seq<R>, key: R -> K, before: (K, K) -> bool)
    requires StrictOrder(before) && Sorted(xs, key, before) && Sorted(ys, key, before)
    requires xs != [] ==> forall k | 0 <= k < |ys| :: before(key(Last(xs)), key(ys[k]))
    ensures Sorted(xs + ys, key, before)
  {
    forall i, j | 0 <= i < j < |xs + ys|
      ensures before(key((xs + ys)[i]), key((xs + ys)[j]))
    {
      if i < |xs| - 1 && j >= |xs| {
        assert before(key(xs[i]), key(Last(xs)));
      }
    }
  }

  ghost predicate EndsAt<R, K>(collected: seq<R>, visits: seq<Visit<R, K>>) {
    visits != [] && Last(visits).page.rows != [] ==>
      collected != [] && Last(collected) == Last(Last(visits).page.rows)
  }

  /** A page after its cursor goes on from what ends at the cursor. */
  lemma PageGoesOn<R, K(!new)>(collected: seq<R>, visit: Visit<R, K>, limit: nat, key: R -> K, before: (K, K) -> bool)
    requires StrictOrder(before) && Sorted(collected, key, before) && Served(visit, limit, key, before)
    requires collected != [] ==> visit.cursor == Some(key(Last(collected)))
    ensures Sorted(collected + visit.page.rows, key, before)
  {
    PageIsAfterCursor(visit.shown, visit.cursor, limit, key, before);
    SortedJoins(collected, visit.page.rows, key, before);
  }

  lemma EndsAtLast<R, K>(collected: seq<R>, visits: seq<Visit<R, K>>)
    requires visits != []
    ensures EndsAt(collected + Last(visits).page.rows, visits)
  {
  }

  lemma {:induction false} PagesIncreaseToLast<R, K(!new)>(visits: seq<Visit<R, K>>, limit: nat, key: R -> K,
                                                           before: (K, K) -> bool)
    requires StrictOrder(before) && Run(visits, limit, key, before)
    ensures Sorted(Collected(visits), key, before) && EndsAt(Collected(visits), visits)
  {
    if visits != [] {
      RunStep(visits, limit, key, before);
      PagesIncreaseToLast(Front(visits), limit, key, before);
      PageGoesOn(Collected(Front(visits)), Last(visits), limit, key, before);
      EndsAtLast(Collected(Front(visits)), visits);
    }
  }

  /** However the table changes between pages, the rows handed out strictly increase. */
  lemma PagesStrictlyIncrease<R, K(!new)>(visits: seq<Visit<R, K>>, limit: nat, key: R -> K, before: (K, K) -> bool)
    requires StrictOrder(before) && Run(visits, limit, key, before)
    ensures Sorted(Collected(visits), key, before)
  {
    PagesIncreaseToLast(visits, limit, key, before);
  }

  /** Every row handed out was in the table and shown to the caller at that request. */
  lemma {:induction false} CollectedWereShown<R, K(!new)>(visits: seq<Visit<R, K>>, limit: nat, key: R -> K,
                                                          before: (K, K) -> bool, k: nat) returns (i: nat)
    requires Run(visits, limit, key, before) && k < |Collected(visits)|
    ensures i < |visits| && Collected(visits)[k] in visits[i].shown && Collected(visits)[k] in visits[i].page.rows
  {
    RunStep(visits, limit, key, before);
    if k < |Collected(Front(visits))| {
      i := CollectedWereShown(Front(visits), limit, key, before, k);
    } else {
      i := |visits| - 1;
      PageIsAfterCursor(visits[i].shown, visits[i].cursor, limit, key, before);
    }
  }

  /** A row shown throughout and beyond the cursor is on the page or beyond it. */
  lemma OnPageOrBeyond<R, K(!new)>(shown: seq<R>, cursor: Option<K>, limit: nat, key: R -> K, before: (K, K) -> bool, row: R)
    requires StrictOrder(before) && Sorted(shown, key, before) && limit > 0
    requires row in shown && Follows(row, cursor, key, before)
    ensures var page := PageOf(shown, cursor, limit, key, before);
            row in page.rows
            || (page.more && page.rows != [] && before(key(Last(page.rows)), key(row)))
  {
    var p: R -> bool := r => Follows(r, cursor, key, before);
    var i :| 0 <= i < |shown| && shown[i] == row;
    var at := KeepIsSubsequence(shown, p);
    KeepSorted(shown, p, key, before);
    var rest := After(shown, cursor, key, before);
    var k :| 0 <= k < |at| && at[k] == i;
    assert rest[k] == row;
    if k < limit {
      assert First(rest, limit)[k] == row;
    }
  }

  ghost predicate Beyond<R, K>(visit: Visit<R, K>, row: R, key: R -> K, before: (K, K) -> bool) {
    visit.page.more && visit.page.rows != [] && before(key(Last(visit.page.rows)), key(row))
  }

  ghost predicate AlwaysShown<R, K>(visits: seq<Visit<R, K>>, row: R) {
    forall i | 0 <= i < |visits| :: row in visits[i].shown
  }

  lemma {:induction false} PassedRowsWereCollected<R, K(!new)>(visits: seq<Visit<R, K>>, limit: nat, key: R -> K,
                                                               before: (K, K) -> bool, row: R)
    requires StrictOrder(before) && Run(visits, limit, key, before) && limit > 0 && visits != []
    requires AlwaysShown(visits, row)
    ensures row in Collected(visits) || Beyond(Last(visits), row, key, before)
  {
    var visit := Last(visits);
    RunStep(visits, limit, key, before);
    assert row in visit.shown;
    if |visits| > 1 {
      PassedRowsWereCollected(Front(visits), limit, key, before, row);
    }
    if row !in Collected(Front(visits)) {
      OnPageOrBeyond(visit.shown, visit.cursor, limit, key, before, row);
    }
  }

  /** Once the last page is reached, every row that was in the table, and shown to the
      caller, at each request has been handed out exactly once. */
  lemma NothingLostNothingRepeated<R, K(!new)>(visits: seq<Visit<R, K>>, limit: nat, key: R -> K, before: (K, K) -> bool,
                                               row: R) returns (k: nat)
    requires StrictOrder(before) && Run(visits, limit, key, before) && limit > 0
    requires visits != [] && !Last(visits).page.more && AlwaysShown(visits, row)
    ensures k < |Collected(visits)| && Collected(visits)[k] == row
    ensures forall j | 0 <= j < |Collected(visits)| && j != k :: key(Collected(visits)[j]) != key(row)
  {
    PassedRowsWereCollected(visits, limit, key, before, row);
    PagesStrictlyIncrease(visits, limit, key, before);
    k :| k < |Collected(visits)| && Collected(visits)[k] == row;
    forall j | 0 <= j < |Collected(visits)| && j != k
      ensures key(Collected(visits)[j]) != key(row)
    {
      SortedKeysDiffer(Collected(visits), j, k, key, before);
    }
  }

  lemma SortedKeysDiffer<R, K(!new)>(rows: seq<R>, i: nat, j: nat, key: R -> K, before: (K, K) -> bool)
    requires StrictOrder(before) && Sorted(rows, key, before) && i < |rows| && j < |rows| && i != j
    ensures key(rows[i]) != key(rows[j])
  {
    if i < j {
      assert before(key(rows[i]), key(rows[j]));
    } else {
      assert before(key(rows[j]), key(rows[i]));
    }
  }

  // ------------------------------------------------------------------- a fixed table

  lemma PageOfRest<R, K(!new)>(shown: seq<R>, c: nat, limit: nat, key: R -> K, before: (K, K) -> bool)
    requires StrictOrder(before) && Sorted(shown, key, before) && 0 < c <= |shown|
    ensures var page := PageOf(shown, Some(key(shown[c - 1])), limit, key, before);
            && shown[..c] + page.rows == First(shown, c + limit)
            && (page.more <==> |shown| > c + limit)
  {
    AfterRowIsRest(shown, c - 1, key, before);
    FirstContinues(shown, c, limit);
  }

  lemma FirstContinues<R>(shown: seq<R>, c: nat, limit: nat)
    requires c <= |shown|
    ensures shown[..c] + First(shown[c..], limit) == First(shown, c + limit)
  {
  }

  lemma FirstPage<R, K>(shown: seq<R>, limit: nat, key: R -> K, before: (K, K) -> bool)
    ensures PageOf(shown, None, limit, key, before) == Page(First(shown, limit), |shown| > limit)
  {
    KeepAll(shown, row => Follows(row, None, key, before));
  }

  /** The length of n pages: `n * limit`. */
  function Stretch(n: nat, limit: nat): nat {
    if n == 0 then 0 else Stretch(n - 1, limit) + limit
  }

  lemma {:induction false} StretchIsProduct(n: nat, limit: nat)
    ensures Stretch(n, limit) == n * limit
  {
    if n > 0 {
      StretchIsProduct(n - 1, limit);
      assert n * limit == (n - 1) * limit + limit;
    }
  }

  ghost predicate AllShow<R, K>(visits: seq<Visit<R, K>>, shown: seq<R>) {
    forall i | 0 <= i < |visits| :: visits[i].shown == shown
  }

  /** The next page of an unchanging table, after its first `c` rows. */
  lemma NextStretch<R, K(!new)>(visits: seq<Visit<R, K>>, shown: seq<R>, c: nat, limit: nat, key: R -> K, before: (K, K) -> bool)
    requires StrictOrder(before) && Run(visits, limit, key, before) && |visits| > 1
    requires Last(visits).shown == shown && c > 0
    requires Collected(Front(visits)) == First(shown, c) && (Last(Front(visits)).page.more <==> |shown| > c)
    ensures Collected(visits) == First(shown, c + limit)
    ensures Last(visits).page.more <==> |shown| > c + limit
  {
    RunStep(visits, limit, key, before);
    PagesIncreaseToLast(Front(visits), limit, key, before);
    PageOfRest(shown, c, limit, key, before);
  }

  /** Over an unchanging table the pages are its successive stretches of `limit` rows:
      together its first ones, with more promised exactly when it is longer. */
  lemma {:induction false} PagesOfFixedTable<R, K(!new)>(visits: seq<Visit<R, K>>, shown: seq<R>, limit: nat, key: R -> K,
                                                         before: (K, K) -> bool)
    requires StrictOrder(before) && Run(visits, limit, key, before) && limit > 0 && visits != [] && AllShow(visits, shown)
    ensures Collected(visits) == First(shown, Stretch(|visits|, limit))
    ensures Last(visits).page.more <==> |shown| > Stretch(|visits|, limit)
  {
    RunStep(visits, limit, key, before);
    assert Last(visits).shown == shown;
    if |visits| == 1 {
      FirstPage(shown, limit, key, before);
      assert Collected(Front(visits)) == [];
      assert Stretch(1, limit) == limit;
    } else {
      PagesOfFixedTable(Front(visits), shown, limit, key, before);
      NextStretch(visits, shown, Stretch(|visits| - 1, limit), limit, key, before);
    }
  }

  /** Paging through an unchanging table ends, after one request for each started
      stretch of `limit` rows, and has then handed out the table. */
  lemma PagingEndsWithTheTable<R, K(!new)>(visits: seq<Visit<R, K>>, shown: seq<R>, limit: nat, key: R -> K,
                                           before: (K, K) -> bool)
    requires StrictOrder(before) && Run(visits, limit, key, before) && limit > 0 && visits != [] && AllShow(visits, shown)
    ensures |visits| > 1 ==> (|visits| - 1) * limit < |shown|
    ensures !Last(visits).page.more <==> |visits| * limit >= |shown|
    ensures !Last(visits).page.more ==> Collected(visits) == shown
  {
    PagesOfFixedTable(visits, shown, limit, key, before);
    StretchIsProduct(|visits|, limit);
    StretchIsProduct(|visits| - 1, limit);
    RunStep(visits, limit, key, before);
    if |visits| > 1 {
      PagesOfFixedTable(Front(visits), shown, limit, key, before);
    }
  }
}
