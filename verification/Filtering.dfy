/** Keeping the elements of a sequence that satisfy a predicate, in order. */
module Filtering {
  import opened Text

  /** The rows that satisfy a condition, in order. */
  function Keep<R>(rows: seq<R>, p: R -> bool): seq<R> {
    if rows == [] then []
    else Keep(Front(rows), p) + if p(Last(rows)) then [Last(rows)] else []
  }

  lemma KeepStep<R>(rows: seq<R>, i: nat, p: R -> bool)
    requires i < |rows|
    ensures Keep(rows[..i + 1], p) == Keep(rows[..i], p) + if p(rows[i]) then [rows[i]] else []
  {
    assert Front(rows[..i + 1]) == rows[..i];
  }

  lemma {:induction false} KeepJoins<R>(xs: seq<R>, ys: seq<R>, p: R -> bool)
    ensures Keep(xs + ys, p) == Keep(xs, p) + Keep(ys, p)
    decreases |ys|
  {
    if ys == [] {
      assert xs + ys == xs;
    } else {
      KeepJoins(xs, Front(ys), p);
      assert Front(xs + ys) == xs + Front(ys);
      Associate(Keep(xs, p), Keep(Front(ys), p), if p(Last(ys)) then [Last(ys)] else []);
    }
  }

  lemma {:induction false} KeepAll<R>(rows: seq<R>, p: R -> bool)
    requires forall i | 0 <= i < |rows| :: p(rows[i])
    ensures Keep(rows, p) == rows
  {
    if rows != [] {
      assert p(Last(rows)) && rows == Front(rows) + [Last(rows)];
      KeepAll(Front(rows), p);
    }
  }

  lemma {:induction false} KeepNone<R>(rows: seq<R>, p: R -> bool)
    requires forall i | 0 <= i < |rows| :: !p(rows[i])
    ensures Keep(rows, p) == []
  {
    if rows != [] {
      KeepNone(Front(rows), p);
    }
  }

  lemma {:induction false} KeepAlike<R>(rows: seq<R>, p: R -> bool, q: R -> bool)
    requires forall i | 0 <= i < |rows| :: p(rows[i]) == q(rows[i])
    ensures Keep(rows, p) == Keep(rows, q)
  {
    if rows != [] {
      KeepAlike(Front(rows), p, q);
    }
  }

  lemma {:induction false} KeepTwice<R>(rows: seq<R>, p: R -> bool, q: R -> bool)
    ensures Keep(Keep(rows, p), q) == Keep(rows, row => p(row) && q(row))
  {
    if rows != [] {
      KeepTwice(Front(rows), p, q);
      KeepJoins(Keep(Front(rows), p), if p(Last(rows)) then [Last(rows)] else [], q);
      KeepOne(Last(rows), q);
    }
  }

  lemma KeepOne<R>(row: R, q: R -> bool)
    ensures Keep([row], q) == if q(row) then [row] else []
  {
    assert Front([row]) == [];
  }

  lemma KeepCommutes<R>(rows: seq<R>, p: R -> bool, q: R -> bool)
    ensures Keep(Keep(rows, p), q) == Keep(Keep(rows, q), p)
  {
    KeepTwice(rows, p, q);
    KeepTwice(rows, q, p);
    KeepAlike(rows, row => p(row) && q(row), row => q(row) && p(row));
  }

  /** `at` lists, in order, the places of the rows that satisfy p; `kept` are those rows. */
  ghost predicate Picks<R>(rows: seq<R>, p: R -> bool, kept: seq<R>, at: seq<nat>) {
    && |at| == |kept|
    && (forall k | 0 <= k < |at| :: at[k] < |rows| && rows[at[k]] == kept[k] && p(kept[k]))
    && (forall j, k | 0 <= j < k < |at| :: at[j] < at[k])
    && (forall i | 0 <= i < |rows| && p(rows[i]) :: i in at)
  }

  lemma PicksMore<R>(rows: seq<R>, row: R, p: R -> bool, kept: seq<R>, at: seq<nat>)
    requires Picks(rows, p, kept, at)
    ensures p(row) ==> Picks(rows + [row], p, kept + [row], at + [|rows|])
    ensures !p(row) ==> Picks(rows + [row], p, kept, at)
  {
    if p(row) {
      assert (at + [|rows|])[|at|] == |rows|;
      forall i | 0 <= i < |rows + [row]| && p((rows + [row])[i]) ensures i in at + [|rows|] {
        assert i < |rows| ==> i in at;
      }
    }
  }

  /** Picks of all rows but the last, carried over to all of them. */
  lemma PicksOfAll<R>(rows: seq<R>, front: seq<R>, last: R, p: R -> bool, kept: seq<R>, all: seq<R>, at: seq<nat>)
    returns (places: seq<nat>)
    requires rows == front + [last] && Picks(front, p, kept, at) && all == if p(last) then kept + [last] else kept
    ensures Picks(rows, p, all, places)
  {
    PicksMore(front, last, p, kept, at);
    places := if p(last) then at + [|front|] else at;
  }

  /** Rows kept are rows of the list, in its order. */
  lemma {:induction false} KeepIsSubsequence<R>(rows: seq<R>, p: R -> bool) returns (at: seq<nat>)
    ensures Picks(rows, p, Keep(rows, p), at)
  {
    at := [];
    if rows != [] {
      at := KeepIsSubsequence(Front(rows), p);
      LastKept(rows, p);
      at := PicksOfAll(rows, Front(rows), Last(rows), p, Keep(Front(rows), p), Keep(rows, p), at);
    }
  }

  lemma PicksLess<R>(rows: seq<R>, p: R -> bool, kept: seq<R>, at: seq<nat>)
    requires rows != [] && Picks(rows, p, kept, at)
    ensures p(Last(rows)) ==>
              at != [] && kept != [] && Last(kept) == Last(rows) && Picks(Front(rows), p, Front(kept), Front(at))
    ensures !p(Last(rows)) ==> Picks(Front(rows), p, kept, at)
  {
    var n := |rows| - 1;
    if p(rows[n]) {
      var k :| 0 <= k < |at| && at[k] == n;
      assert at[k] <= at[|at| - 1] && k == |at| - 1;
      forall i | 0 <= i < n && p(rows[i]) ensures i in Front(at) {
        var j :| 0 <= j < |at| && at[j] == i;
        assert Front(at)[j] == i;
      }
    } else {
      forall k | 0 <= k < |at| ensures at[k] < n && Front(rows)[at[k]] == kept[k] {
      }
      forall i | 0 <= i < n && p(Front(rows)[i]) ensures i in at {
        assert rows[i] == Front(rows)[i];
      }
    }
  }

  lemma Ends<R>(xs: seq<R>, ys: seq<R>)
    requires xs != [] && ys != [] && Front(xs) == Front(ys) && Last(xs) == Last(ys)
    ensures xs == ys
  {
    assert xs == Front(xs) + [Last(xs)] && ys == Front(ys) + [Last(ys)];
  }

  lemma KeptEnds<R>(rows: seq<R>, p: R -> bool)
    requires rows != [] && p(Last(rows))
    ensures Keep(rows, p) != [] && Front(Keep(rows, p)) == Keep(Front(rows), p) && Last(Keep(rows, p)) == Last(rows)
  {
    LastKept(rows, p);
  }

  /** The rows picked are no other list than those kept. */
  lemma {:induction false} PicksAreKept<R>(rows: seq<R>, p: R -> bool, kept: seq<R>, at: seq<nat>)
    requires Picks(rows, p, kept, at)
    ensures kept == Keep(rows, p)
    decreases |rows|
  {
    if rows != [] {
      PicksLess(rows, p, kept, at);
      if p(Last(rows)) {
        PicksAreKept(Front(rows), p, Front(kept), Front(at));
        KeptEnds(rows, p);
        Ends(kept, Keep(rows, p));
      } else {
        PicksAreKept(Front(rows), p, kept, at);
        LastKept(rows, p);
      }
    }
  }

  lemma LastKept<R>(rows: seq<R>, p: R -> bool)
    requires rows != []
    ensures rows == Front(rows) + [Last(rows)]
    ensures Keep(rows, p) == if p(Last(rows)) then Keep(Front(rows), p) + [Last(rows)] else Keep(Front(rows), p)
  {
  }

  lemma Halves<R>(rows: seq<R>, n: nat)
    requires n <= |rows|
    ensures rows == rows[..n] + rows[n..]
  {
  }

  lemma KeepPrefixOfKeep<R>(rest: seq<R>, read: nat, visible: R -> bool)
    requires read <= |rest|
    ensures Keep(rest, visible) == Keep(rest[..read], visible) + Keep(rest[read..], visible)
  {
    Halves(rest, read);
    KeepJoins(rest[..read], rest[read..], visible);
  }
}
