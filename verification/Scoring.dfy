/** nDCG over ranked document ids, for any positive, strictly decreasing discount in
    place of 1 / log2(rank + 2), and over exact reals. */
module Scoring {

  type Discount = nat -> real

  ghost predicate Decreasing(discount: Discount) {
    && (forall i: nat :: discount(i) > 0.0)
    && (forall i: nat, j: nat :: i < j ==> discount(i) > discount(j))
  }

  predicate Distinct(xs: seq<string>) {
    forall i, j :: 0 <= i < j < |xs| ==> xs[i] != xs[j]
  }

  function Members(xs: seq<string>): set<string> {
    set x | x in xs
  }

  /** A Python `xs[:k]`: a negative `k` counts from the end. */
  function Take(xs: seq<string>, k: int): seq<string> {
    if k >= |xs| then xs else if k >= 0 then xs[..k] else if |xs| + k >= 0 then xs[..|xs| + k] else []
  }

  /** What the first ranks earn. */
  ghost function Gain(ranked: seq<string>, relevant: set<string>, discount: Discount): real {
    if ranked == [] then 0.0
    else
      var n := |ranked| - 1;
      Gain(ranked[..n], relevant, discount) + if ranked[n] in relevant then discount(n) else 0.0
  }

  /** What `hits` relevant documents earn when ranked first. */
  function IdealGain(hits: nat, discount: Discount): real {
    if hits == 0 then 0.0 else IdealGain(hits - 1, discount) + discount(hits - 1)
  }

  function Hits(ranked: seq<string>, relevant: set<string>): nat {
    if ranked == [] then 0
    else
      var n := |ranked| - 1;
      Hits(ranked[..n], relevant) + if ranked[n] in relevant then 1 else 0
  }

  /** How many ranks a perfect answer fills. */
  function IdealHits(relevant: set<string>, k: int): nat {
    if k < 0 then 0 else if k < |relevant| then k else |relevant|
  }

  ghost function Ndcg(retrieved: seq<string>, relevant: set<string>, k: int, discount: Discount): real
    requires Decreasing(discount)
  {
    var ideal := IdealHits(relevant, k);
    IdealGainPositive(ideal, discount);
    if ideal == 0 then 0.0
    else Gain(Take(retrieved, k), relevant, discount) / IdealGain(ideal, discount)
  }

  method NdcgAtK(retrieved: seq<string>, relevant: seq<string>, k: int, discount: Discount) returns (score: real)
    requires Decreasing(discount)
    ensures score == Ndcg(retrieved, Members(relevant), k, discount)
  {
    var rel := Members(relevant);
    if rel == {} {
      return 0.0;
    }
    var dcg := 0.0;
    var top := Take(retrieved, k);
    for i := 0 to |top|
      invariant dcg == Gain(top[..i], rel, discount)
    {
      assert top[..i + 1][..i] == top[..i];
      if top[i] in rel {
        dcg := dcg + discount(i);
      }
    }
    assert top[..|top|] == top;
    var idcg := IdealGain(IdealHits(rel, k), discount);
    IdealGainPositive(IdealHits(rel, k), discount);
    score := if idcg != 0.0 then dcg / idcg else 0.0;
  }

  lemma {:induction false} IdealGainPositive(hits: nat, discount: Discount)
    requires Decreasing(discount)
    ensures IdealGain(hits, discount) >= 0.0
    ensures hits > 0 ==> IdealGain(hits, discount) > 0.0
  {
    if hits > 0 {
      IdealGainPositive(hits - 1, discount);
    }
  }

  lemma {:induction false} IdealGainGrows(h: nat, h': nat, discount: Discount)
    requires Decreasing(discount) && h < h'
    ensures IdealGain(h, discount) < IdealGain(h', discount)
    decreases h'
  {
    if h < h' - 1 {
      IdealGainGrows(h, h' - 1, discount);
    }
  }

  ghost predicate AllRelevant(ranked: seq<string>, n: nat, relevant: set<string>) {
    n <= |ranked| && forall i | 0 <= i < n :: ranked[i] in relevant
  }

  lemma {:induction false} LeadingHitsCount(ranked: seq<string>, n: nat, relevant: set<string>)
    requires AllRelevant(ranked, n, relevant)
    ensures Hits(ranked, relevant) >= n
    decreases |ranked|
  {
    if n > 0 {
      var last := |ranked| - 1;
      LeadingHitsCount(ranked[..last], if n <= last then n else last, relevant);
    }
  }

  /** What one more ranked item does to the hits and the gain. */
  lemma OneMoreRanked(ranked: seq<string>, relevant: set<string>, discount: Discount)
    requires ranked != []
    ensures var n, before := |ranked| - 1, ranked[..|ranked| - 1];
            && Hits(ranked, relevant) == Hits(before, relevant) + (if ranked[n] in relevant then 1 else 0)
            && Gain(ranked, relevant, discount)
               == Gain(before, relevant, discount) + (if ranked[n] in relevant then discount(n) else 0.0)
  {
  }

  /** A hit below the front does not complete a leading run of hits. */
  lemma NotAllInFront(ranked: seq<string>, relevant: set<string>)
    requires ranked != [] && Hits(ranked[..|ranked| - 1], relevant) < |ranked| - 1
    ensures !AllRelevant(ranked, Hits(ranked[..|ranked| - 1], relevant) + 1, relevant)
  {
    var before := ranked[..|ranked| - 1];
    var hits := Hits(before, relevant);
    if AllRelevant(ranked, hits + 1, relevant) {
      assert AllRelevant(before, hits + 1, relevant);
      LeadingHitsCount(before, hits + 1, relevant);
    }
  }

  lemma FrontOfFront(ranked: seq<string>, relevant: set<string>, hits: nat)
    requires ranked != [] && hits <= |ranked| - 1
    ensures AllRelevant(ranked[..|ranked| - 1], hits, relevant) <==> AllRelevant(ranked, hits, relevant)
    ensures hits == |ranked| - 1 && ranked[hits] in relevant ==>
              (AllRelevant(ranked, hits + 1, relevant) <==> AllRelevant(ranked, hits, relevant))
  {
    assert forall i | 0 <= i < |ranked| - 1 :: ranked[i] == ranked[..|ranked| - 1][i];
  }

  /** The rearrangement argument: hits anywhere earn at most what as many hits earn
      in front, and exactly that only when they are in front. */
  lemma {:induction false} HitsEarnMostInFront(ranked: seq<string>, relevant: set<string>, discount: Discount)
    requires Decreasing(discount)
    ensures Hits(ranked, relevant) <= |ranked|
    ensures 0.0 <= Gain(ranked, relevant, discount) <= IdealGain(Hits(ranked, relevant), discount)
    ensures Gain(ranked, relevant, discount) == IdealGain(Hits(ranked, relevant), discount)
       <==> AllRelevant(ranked, Hits(ranked, relevant), relevant)
  {
    if ranked != [] {
      var n := |ranked| - 1;
      var hits := Hits(ranked[..n], relevant);
      HitsEarnMostInFront(ranked[..n], relevant, discount);
      OneMoreRanked(ranked, relevant, discount);
      FrontOfFront(ranked, relevant, hits);
      if ranked[n] in relevant && hits < n {
        assert discount(hits) > discount(n);
        NotAllInFront(ranked, relevant);
      }
    }
  }

  lemma {:induction false} HitsWithout(ranked: seq<string>, relevant: set<string>, x: string)
    requires x !in ranked
    ensures Hits(ranked, relevant - {x}) == Hits(ranked, relevant)
  {
    if ranked != [] {
      HitsWithout(ranked[..|ranked| - 1], relevant, x);
    }
  }

  lemma {:induction false} DistinctHitsAreFew(ranked: seq<string>, relevant: set<string>)
    requires Distinct(ranked)
    ensures Hits(ranked, relevant) <= |relevant|
    decreases |ranked|
  {
    if ranked != [] {
      var n := |ranked| - 1;
      if ranked[n] in relevant {
        HitsWithout(ranked[..n], relevant, ranked[n]);
        DistinctHitsAreFew(ranked[..n], relevant - {ranked[n]});
      } else {
        DistinctHitsAreFew(ranked[..n], relevant);
      }
    }
  }

  /** The score is within [0, 1], and perfect exactly when the leading ranks are all
      relevant, as long as the cut-off ranking counts no more hits than there are
      relevant documents. */
  lemma NdcgBound(retrieved: seq<string>, relevant: set<string>, k: int, discount: Discount)
    requires Decreasing(discount) && k >= 1 && relevant != {}
    requires Hits(Take(retrieved, k), relevant) <= |relevant|
    ensures 0.0 <= Ndcg(retrieved, relevant, k, discount) <= 1.0
    ensures Ndcg(retrieved, relevant, k, discount) == 1.0
       <==> AllRelevant(retrieved, IdealHits(relevant, k), relevant)
  {
    var top, ideal := Take(retrieved, k), IdealHits(relevant, k);
    var hits := Hits(top, relevant);
    HitsEarnMostInFront(top, relevant, discount);
    assert hits <= ideal;
    if hits < ideal {
      IdealGainGrows(hits, ideal, discount);
    }
    IdealGainPositive(ideal, discount);
    RatioBound(Gain(top, relevant, discount), IdealGain(ideal, discount));
    assert AllRelevant(retrieved, ideal, relevant) <==> AllRelevant(top, ideal, relevant);
    if AllRelevant(top, ideal, relevant) {
      LeadingHitsCount(top, ideal, relevant);
    }
  }

  /** The score is zero exactly when no relevant document is ranked before the cut-off, or
      none can be. */
  lemma ZeroExactlyWithoutHits(retrieved: seq<string>, relevant: set<string>, k: int, discount: Discount)
    requires Decreasing(discount)
    ensures Ndcg(retrieved, relevant, k, discount) == 0.0 <==>
              k <= 0 || relevant == {} || forall i | 0 <= i < |retrieved| && i < k :: retrieved[i] !in relevant
  {
    var top, ideal := Take(retrieved, k), IdealHits(relevant, k);
    IdealGainPositive(ideal, discount);
    GainPositiveExactlyWithHit(top, relevant, discount);
    if k > 0 && relevant != {} {
      assert |relevant| > 0;
      var gain, best := Gain(top, relevant, discount), IdealGain(ideal, discount);
      assert gain / best * best == gain;
      assert forall i | 0 <= i < |top| :: top[i] == retrieved[i];
    }
  }

  lemma {:induction false} GainPositiveExactlyWithHit(ranked: seq<string>, relevant: set<string>, discount: Discount)
    requires Decreasing(discount)
    ensures Gain(ranked, relevant, discount) >= 0.0
    ensures Gain(ranked, relevant, discount) == 0.0 <==> forall i | 0 <= i < |ranked| :: ranked[i] !in relevant
  {
    if ranked != [] {
      GainPositiveExactlyWithHit(ranked[..|ranked| - 1], relevant, discount);
      assert forall i | 0 <= i < |ranked| - 1 :: ranked[..|ranked| - 1][i] == ranked[i];
    }
  }

  lemma RatioBound(x: real, y: real)
    requires 0.0 <= x && 0.0 < y
    ensures 0.0 <= x / y
    ensures x / y <= 1.0 <==> x <= y
    ensures x / y == 1.0 <==> x == y
  {
    var q := x / y;
    assert q * y == x;
    if q > 1.0 {
      assert (q - 1.0) * y > 0.0;
    }
    if q < 1.0 {
      assert (1.0 - q) * y > 0.0;
    }
  }

  /** With distinct ids, as a retriever returns them, the bound always holds. */
  lemma NdcgOfDistinctIds(retrieved: seq<string>, relevant: set<string>, k: int, discount: Discount)
    requires Decreasing(discount) && k >= 1 && relevant != {} && Distinct(retrieved)
    ensures 0.0 <= Ndcg(retrieved, relevant, k, discount) <= 1.0
    ensures Ndcg(retrieved, relevant, k, discount) == 1.0
       <==> AllRelevant(retrieved, IdealHits(relevant, k), relevant)
  {
    DistinctHitsAreFew(Take(retrieved, k), relevant);
    NdcgBound(retrieved, relevant, k, discount);
  }

  function Flat(n: nat): Discount {
    (i: nat) => n as real + 1.0 / (i + 1) as real
  }

  lemma FlatDecreasing(n: nat)
    ensures Decreasing(Flat(n))
  {
    forall i: nat, j: nat | i < j
      ensures Flat(n)(i) > Flat(n)(j)
    {
      var x, y := (i + 1) as real, (j + 1) as real;
      assert 1.0 / x - 1.0 / y == (y - x) / (x * y);
    }
  }

  lemma FlatWithin(n: nat, i: nat)
    ensures n as real < Flat(n)(i) <= (n + 1) as real
  {
    var y := (i + 1) as real;
    assert 1.0 / y * y == 1.0;
  }

  lemma {:induction false} FlatGainAtLeast(ranked: seq<string>, relevant: set<string>, n: nat)
    ensures Gain(ranked, relevant, Flat(n)) >= (Hits(ranked, relevant) * n) as real
  {
    if ranked != [] {
      var before := ranked[..|ranked| - 1];
      FlatGainAtLeast(before, relevant, n);
      FlatWithin(n, |ranked| - 1);
      assert (Hits(before, relevant) + 1) * n == Hits(before, relevant) * n + n;
    }
  }

  lemma {:induction false} FlatIdealAtMost(hits: nat, n: nat)
    ensures IdealGain(hits, Flat(n)) <= (hits * (n + 1)) as real
  {
    if hits > 0 {
      FlatIdealAtMost(hits - 1, n);
      FlatWithin(n, hits - 1);
      assert hits * (n + 1) == (hits - 1) * (n + 1) + (n + 1);
    }
  }

  lemma SquareArithmetic(hits: nat, ideal: nat)
    requires hits > ideal
    ensures hits * (ideal + 1) > ideal * (ideal + 2)
  {
    assert hits * (ideal + 1) == ideal * (ideal + 1) + (hits - ideal) * (ideal + 1);
    assert (hits - ideal) * (ideal + 1) >= ideal + 1;
  }

  lemma ExcessHitsOutEarn(top: seq<string>, relevant: set<string>, ideal: nat)
    requires Hits(top, relevant) > ideal
    ensures Gain(top, relevant, Flat(ideal + 1)) > IdealGain(ideal, Flat(ideal + 1))
  {
    FlatGainAtLeast(top, relevant, ideal + 1);
    FlatIdealAtMost(ideal, ideal + 1);
    SquareArithmetic(Hits(top, relevant), ideal);
  }

  lemma ExcessHitsExceedOne(retrieved: seq<string>, relevant: set<string>, k: int)
    requires k >= 1 && relevant != {} && Hits(Take(retrieved, k), relevant) > |relevant|
    ensures Decreasing(Flat(IdealHits(relevant, k) + 1))
    ensures Ndcg(retrieved, relevant, k, Flat(IdealHits(relevant, k) + 1)) > 1.0
  {
    var ideal := IdealHits(relevant, k);
    FlatDecreasing(ideal + 1);
    ExcessHitsOutEarn(Take(retrieved, k), relevant, ideal);
    IdealGainPositive(ideal, Flat(ideal + 1));
    RatioBound(Gain(Take(retrieved, k), relevant, Flat(ideal + 1)), IdealGain(ideal, Flat(ideal + 1)));
  }

  /** Repeated ids break the bound: it holds for every discount exactly when the
      cut-off ranking counts no more hits than there are relevant documents. */
  lemma BoundedExactlyWithoutExcessHits(retrieved: seq<string>, relevant: set<string>, k: int)
    requires k >= 1 && relevant != {}
    ensures (forall discount: Discount | Decreasing(discount) :: Ndcg(retrieved, relevant, k, discount) <= 1.0)
       <==> Hits(Take(retrieved, k), relevant) <= |relevant|
  {
    if Hits(Take(retrieved, k), relevant) <= |relevant| {
      forall discount: Discount | Decreasing(discount)
        ensures Ndcg(retrieved, relevant, k, discount) <= 1.0
      {
        NdcgBound(retrieved, relevant, k, discount);
      }
    } else {
      ExcessHitsExceedOne(retrieved, relevant, k);
    }
  }

  // ------------------------------------------------------------- above one at every discount

  /** Hits in front earn the ideal of as many ranks, and any further hit earns more. */
  lemma {:induction false} FrontEarnsIdeal(ranked: seq<string>, n: nat, relevant: set<string>, discount: Discount)
    requires Decreasing(discount) && AllRelevant(ranked, n, relevant)
    ensures Gain(ranked, relevant, discount) >= IdealGain(n, discount)
    ensures Hits(ranked, relevant) > n ==> Gain(ranked, relevant, discount) > IdealGain(n, discount)
    ensures |ranked| == n ==> Hits(ranked, relevant) == n
    decreases |ranked|
  {
    if ranked != [] {
      var last := |ranked| - 1;
      OneMoreRanked(ranked, relevant, discount);
      FrontEarnsIdeal(ranked[..last], if n <= last then n else last, relevant, discount);
    }
  }

  /** About 1 for each rank up to the gap, and at most `tail` for all ranks below it. */
  function Cliff(gap: nat, tail: real): Discount {
    (i: nat) => (if i <= gap then 1.0 else 0.0) + tail / (i + 1) as real
  }

  lemma Cancel(x: real, y: real, z: real)
    requires z > 0.0 && x * z < y * z
    ensures x < y
  {
  }

  lemma QuotientFalls(z: real, x: real, y: real)
    requires 0.0 < z && 0.0 < x < y
    ensures 0.0 < z / y < z / x
  {
    var p, q := z / x, z / y;
    assert p * x == z && q * y == z;
    Cancel(0.0, p, x);
    Cancel(0.0, q, y);
    assert p * (y - x) > 0.0;
    Cancel(q, p, y);
  }

  lemma CliffBounds(gap: nat, tail: real, i: nat)
    requires tail > 0.0
    ensures i <= gap ==> Cliff(gap, tail)(i) > 1.0
    ensures i > gap ==> 0.0 < Cliff(gap, tail)(i) <= tail
  {
    QuotientFalls(tail, (i + 1) as real, (i + 2) as real);
    if i > 0 {
      QuotientFalls(tail, 1.0, (i + 1) as real);
    }
  }

  lemma CliffDecreasing(gap: nat, tail: real)
    requires tail > 0.0
    ensures Decreasing(Cliff(gap, tail))
  {
    forall i: nat ensures Cliff(gap, tail)(i) > 0.0 {
      CliffBounds(gap, tail, i);
    }
    forall i: nat, j: nat | i < j ensures Cliff(gap, tail)(i) > Cliff(gap, tail)(j) {
      QuotientFalls(tail, (i + 1) as real, (j + 1) as real);
    }
  }

  /** What `n` ranks of at most `tail` earn together. */
  function Tails(n: nat, tail: real): real {
    if n == 0 then 0.0 else Tails(n - 1, tail) + tail
  }

  lemma {:induction false} TailsAre(n: nat, tail: real)
    ensures Tails(n, tail) == n as real * tail
  {
    if n > 0 {
      TailsAre(n - 1, tail);
    }
  }

  lemma {:induction false} TailsPositive(n: nat, tail: real)
    requires tail > 0.0
    ensures Tails(n, tail) >= 0.0
  {
    if n > 0 {
      TailsPositive(n - 1, tail);
    }
  }

  /** Without a hit at the gap, the ranks above it earn at most their ideal, and those
      below it at most `tail` each. */
  lemma {:induction false} CliffGain(ranked: seq<string>, relevant: set<string>, gap: nat, tail: real)
    requires tail > 0.0 && (gap < |ranked| ==> ranked[gap] !in relevant)
    ensures Gain(ranked, relevant, Cliff(gap, tail)) <= IdealGain(gap, Cliff(gap, tail)) + Tails(|ranked|, tail)
    decreases |ranked|
  {
    if |ranked| <= gap {
      ShortGain(ranked, relevant, gap, tail);
      TailsPositive(|ranked|, tail);
    } else {
      var last := |ranked| - 1;
      OneMoreRanked(ranked, relevant, Cliff(gap, tail));
      CliffGain(ranked[..last], relevant, gap, tail);
      CliffBounds(gap, tail, last);
    }
  }

  lemma ShortGain(ranked: seq<string>, relevant: set<string>, gap: nat, tail: real)
    requires tail > 0.0 && |ranked| <= gap
    ensures Gain(ranked, relevant, Cliff(gap, tail)) <= IdealGain(gap, Cliff(gap, tail))
  {
    CliffDecreasing(gap, tail);
    HitsEarnMostInFront(ranked, relevant, Cliff(gap, tail));
    if Hits(ranked, relevant) < gap {
      IdealGainGrows(Hits(ranked, relevant), gap, Cliff(gap, tail));
    }
  }

  lemma Fraction(x: real) returns (part: real)
    requires x > 0.0
    ensures part > 0.0 && x * part == 1.0
  {
    part := 1.0 / x;
    QuotientFalls(1.0, x, x + 1.0);
  }

  lemma SmallTail(n: nat) returns (tail: real)
    ensures tail > 0.0 && Tails(n, tail) < 1.0
  {
    tail := Fraction((n + 1) as real);
    TailsAre(n + 1, tail);
  }

  lemma IdealPastGap(gap: nat, ideal: nat, tail: real)
    requires tail > 0.0 && gap < ideal
    ensures IdealGain(ideal, Cliff(gap, tail)) > IdealGain(gap, Cliff(gap, tail)) + 1.0
  {
    CliffDecreasing(gap, tail);
    CliffBounds(gap, tail, gap);
    if gap + 1 < ideal {
      IdealGainGrows(gap + 1, ideal, Cliff(gap, tail));
    }
  }

  /** A gap among the leading ranks keeps the gain below the ideal at some discount. */
  lemma GapFallsShort(ranked: seq<string>, relevant: set<string>, gap: nat, ideal: nat) returns (discount: Discount)
    requires gap < ideal && (gap < |ranked| ==> ranked[gap] !in relevant)
    ensures Decreasing(discount) && Gain(ranked, relevant, discount) < IdealGain(ideal, discount)
  {
    var tail := SmallTail(|ranked|);
    discount := Cliff(gap, tail);
    CliffDecreasing(gap, tail);
    CliffGain(ranked, relevant, gap, tail);
    IdealPastGap(gap, ideal, tail);
  }

  /** The score exceeds 1 exactly when the gain exceeds the ideal. */
  lemma AboveOneExactly(retrieved: seq<string>, relevant: set<string>, k: int, discount: Discount)
    requires Decreasing(discount) && k >= 1 && relevant != {}
    ensures Ndcg(retrieved, relevant, k, discount) > 1.0
       <==> Gain(Take(retrieved, k), relevant, discount) > IdealGain(IdealHits(relevant, k), discount)
  {
    HitsEarnMostInFront(Take(retrieved, k), relevant, discount);
    IdealGainPositive(IdealHits(relevant, k), discount);
    RatioBound(Gain(Take(retrieved, k), relevant, discount), IdealGain(IdealHits(relevant, k), discount));
  }

  /** The score exceeds 1 at every discount, the logarithmic one among them, exactly when
      the leading ranks are all relevant and more hits follow them: the repeated ids then
      earn on top of a perfect answer. */
  lemma AboveOneAtEveryDiscountExactly(retrieved: seq<string>, relevant: set<string>, k: int)
    requires k >= 1 && relevant != {}
    ensures (forall discount: Discount | Decreasing(discount) :: Ndcg(retrieved, relevant, k, discount) > 1.0)
       <==> && AllRelevant(Take(retrieved, k), IdealHits(relevant, k), relevant)
            && Hits(Take(retrieved, k), relevant) > IdealHits(relevant, k)
  {
    var top, ideal := Take(retrieved, k), IdealHits(relevant, k);
    if AllRelevant(top, ideal, relevant) && Hits(top, relevant) > ideal {
      forall discount: Discount | Decreasing(discount) ensures Ndcg(retrieved, relevant, k, discount) > 1.0 {
        AboveOneExactly(retrieved, relevant, k, discount);
        FrontEarnsIdeal(top, ideal, relevant, discount);
      }
    } else if AllRelevant(top, ideal, relevant) {
      FlatDecreasing(0);
      HitsEarnMostInFront(top, relevant, Flat(0));
      NdcgBound(retrieved, relevant, k, Flat(0));
    } else {
      var gap: nat :| gap < ideal && (gap < |top| ==> top[gap] !in relevant);
      var discount := GapFallsShort(top, relevant, gap, ideal);
      AboveOneExactly(retrieved, relevant, k, discount);
    }
  }
}
