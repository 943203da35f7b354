/** The ranking chain of `find_codes` (src/main.rs:108-117): score every
    catalog entry, keep scores of at least 90, sort by score descending with a
    stable sort, and take the first 25. */
module Ranking {
  import opened Scoring

  /** The cutoff of `.filter(|entry| entry.similarity >= 90)`. */
  const Threshold: int := 90
  /** The cap of `.take(25)`. */
  const MaxResults: nat := 25

  /** `.map(|entry| entry.with_similarity(get_similarity(&query, &entry)))` over the catalog. */
  function ScoreAll(jaroWinkler: Metric, query: string, catalog: seq<CatalogRecord>): (r: seq<AtcCode>)
    ensures |r| == |catalog|
    ensures forall i :: 0 <= i < |r| ==>
      r[i].code == catalog[i].code && r[i].name == catalog[i].name
      && r[i].similarity == Similarity(jaroWinkler, query, FromRecord(catalog[i]))
  {
    seq(|catalog|, i requires 0 <= i < |catalog| =>
      WithSimilarity(FromRecord(catalog[i]), Similarity(jaroWinkler, query, FromRecord(catalog[i]))))
  }

  /** `.filter(|entry| entry.similarity >= 90)`. */
  function Qualifying(xs: seq<AtcCode>): (r: seq<AtcCode>)
    ensures forall e :: e in r ==> e.similarity >= Threshold
    ensures forall e :: e in xs && e.similarity >= Threshold ==> e in r
    ensures multiset(r) <= multiset(xs)
  {
    if xs == [] then []
    else
      assert xs == [xs[0]] + xs[1..];
      (if xs[0].similarity >= Threshold then [xs[0]] else []) + Qualifying(xs[1..])
  }

  /** The entries of `xs` whose score is `k`, in their order in `xs`. */
  function WithScore(xs: seq<AtcCode>, k: int): seq<AtcCode> {
    if xs == [] then []
    else (if xs[0].similarity == k then [xs[0]] else []) + WithScore(xs[1..], k)
  }

  /** For `k` from `hi` down to `lo`, the entries scored `k`, concatenated. */
  function Buckets(xs: seq<AtcCode>, hi: int, lo: int): seq<AtcCode>
    decreases hi - lo
  {
    if hi < lo then [] else WithScore(xs, hi) + Buckets(xs, hi - 1, lo)
  }

  predicate NonIncreasing(xs: seq<AtcCode>) {
    forall i, j :: 0 <= i < j < |xs| ==> xs[i].similarity >= xs[j].similarity
  }

  /** Places `x` before the first entry of `ys` that does not score more. */
  function Insert(x: AtcCode, ys: seq<AtcCode>): (r: seq<AtcCode>)
    ensures |r| == |ys| + 1
    ensures multiset(r) == multiset(ys) + multiset{x}
    ensures r[0] == x || (ys != [] && r[0] == ys[0])
  {
    if ys == [] || ys[0].similarity <= x.similarity then [x] + ys
    else
      assert ys == [ys[0]] + ys[1..];
      [ys[0]] + Insert(x, ys[1..])
  }

  lemma ConsNonIncreasing(y: AtcCode, ys: seq<AtcCode>)
    requires NonIncreasing(ys)
    requires ys == [] || ys[0].similarity <= y.similarity
    ensures NonIncreasing([y] + ys)
  {
  }

  /** Inserting into a sequence sorted by descending score keeps it sorted. */
  lemma {:induction false} InsertKeepsOrder(x: AtcCode, ys: seq<AtcCode>)
    requires NonIncreasing(ys)
    ensures NonIncreasing(Insert(x, ys))
  {
    if ys == [] || ys[0].similarity <= x.similarity {
      ConsNonIncreasing(x, ys);
    } else {
      var tail := ys[1..];
      assert NonIncreasing(tail);
      InsertKeepsOrder(x, tail);
      assert tail != [] ==> tail[0].similarity <= ys[0].similarity;
      ConsNonIncreasing(ys[0], Insert(x, tail));
    }
  }

  /** `.sorted_by(|e1, e2| e2.similarity.cmp(&e1.similarity))`: a stable
      sort by score, highest first. */
  function SortByScore(xs: seq<AtcCode>): (r: seq<AtcCode>)
    ensures multiset(r) == multiset(xs)
    ensures NonIncreasing(r)
  {
    if xs == [] then []
    else
      assert xs == [xs[0]] + xs[1..];
      InsertKeepsOrder(xs[0], SortByScore(xs[1..]));
      Insert(xs[0], SortByScore(xs[1..]))
  }

  /** `.take(n)`. */
  function Take(xs: seq<AtcCode>, n: nat): (r: seq<AtcCode>)
    ensures |r| == if |xs| < n then |xs| else n
    ensures r <= xs
  {
    if |xs| <= n then xs else xs[..n]
  }

  /** The entries `find_codes` returns for a normalised, non-empty query on a
      cache miss. */
  function Rank(jaroWinkler: Metric, query: string, catalog: seq<CatalogRecord>): seq<AtcCode> {
    Take(SortByScore(Qualifying(ScoreAll(jaroWinkler, query, catalog))), MaxResults)
  }

  // ---------------------------------------------------------------------------
  // Buckets: facts about selecting the entries of one score

  lemma {:induction false} WithScoreAppend(a: seq<AtcCode>, b: seq<AtcCode>, k: int)
    ensures WithScore(a + b, k) == WithScore(a, k) + WithScore(b, k)
  {
    if a == [] {
      assert a + b == b;
    } else {
      var t := a[1..];
      assert a == [a[0]] + t;
      assert a + b == [a[0]] + (t + b);
      WithScoreAppend(t, b, k);
      WithScoreCons(a[0], t + b, k);
      WithScoreCons(a[0], t, k);
    }
  }

  lemma {:induction false} WithScoreAbsent(xs: seq<AtcCode>, k: int)
    requires forall e :: e in xs ==> e.similarity != k
    ensures WithScore(xs, k) == []
  {
    if xs != [] {
      assert forall e :: e in xs[1..] ==> e in xs;
      WithScoreAbsent(xs[1..], k);
    }
  }

  /** Buckets depend on `xs` only through its per-score selections. */
  lemma {:induction false} BucketsCongruent(xs: seq<AtcCode>, ys: seq<AtcCode>, hi: int, lo: int)
    requires forall k :: lo <= k <= hi ==> WithScore(xs, k) == WithScore(ys, k)
    ensures Buckets(xs, hi, lo) == Buckets(ys, hi, lo)
    decreases hi - lo
  {
    if lo <= hi {
      BucketsCongruent(xs, ys, hi - 1, lo);
    }
  }

  /** An entry scored above the range does not appear in any bucket of it. */
  lemma {:induction false} BucketsSkip(x: AtcCode, ys: seq<AtcCode>, hi: int, lo: int)
    requires x.similarity > hi
    ensures Buckets([x] + ys, hi, lo) == Buckets(ys, hi, lo)
    decreases hi - lo
  {
    if lo <= hi {
      BucketsSkip(x, ys, hi - 1, lo);
      WithScoreCons(x, ys, hi);
      BucketsUnfold([x] + ys, hi, lo);
      BucketsUnfold(ys, hi, lo);
    }
  }

  lemma NonIncreasingHead(ys: seq<AtcCode>)
    requires NonIncreasing(ys) && ys != []
    ensures forall e :: e in ys ==> e.similarity <= ys[0].similarity
  {
    forall e | e in ys ensures e.similarity <= ys[0].similarity {
      var j :| 0 <= j < |ys| && ys[j] == e;
    }
  }

  /** A sequence already sorted by score, with scores in `lo..hi`, is the
      concatenation of its buckets. */
  lemma {:induction false} SortedIsBuckets(ys: seq<AtcCode>, hi: int, lo: int)
    requires NonIncreasing(ys)
    requires forall e :: e in ys ==> lo <= e.similarity <= hi
    ensures ys == Buckets(ys, hi, lo)
    decreases |ys|, hi - lo, 1
  {
    if ys == [] {
      EmptyBuckets(hi, lo);
    } else if ys[0].similarity < hi {
      SortedBelowTop(ys, hi, lo);
    } else {
      SortedHeadBucket(ys, hi, lo);
    }
  }

  lemma {:induction false} EmptyBuckets(hi: int, lo: int)
    ensures Buckets([], hi, lo) == []
    decreases hi - lo
  {
    if lo <= hi {
      EmptyBuckets(hi - 1, lo);
    }
  }

  /** The step of SortedIsBuckets where nothing scores `hi`. */
  lemma {:induction false} SortedBelowTop(ys: seq<AtcCode>, hi: int, lo: int)
    requires NonIncreasing(ys) && ys != [] && ys[0].similarity < hi
    requires forall e :: e in ys ==> lo <= e.similarity <= hi
    ensures ys == Buckets(ys, hi, lo)
    decreases |ys|, hi - lo, 0
  {
    BelowTopFacts(ys, hi, lo);
    BucketsUnfold(ys, hi, lo);
    SortedIsBuckets(ys, hi - 1, lo);
    assert [] + ys == ys;
  }

  lemma BelowTopFacts(ys: seq<AtcCode>, hi: int, lo: int)
    requires NonIncreasing(ys) && ys != [] && ys[0].similarity < hi
    requires forall e :: e in ys ==> lo <= e.similarity <= hi
    ensures lo <= hi && WithScore(ys, hi) == []
    ensures forall e :: e in ys ==> lo <= e.similarity <= hi - 1
  {
    NonIncreasingHead(ys);
    assert ys[0] in ys;
    WithScoreAbsent(ys, hi);
  }

  lemma TailFacts(ys: seq<AtcCode>, lo: int, hi: int)
    requires ys != [] && NonIncreasing(ys)
    requires forall e :: e in ys ==> lo <= e.similarity <= hi
    ensures NonIncreasing(ys[1..])
    ensures forall e :: e in ys[1..] ==> lo <= e.similarity <= hi
  {
    assert forall e :: e in ys[1..] ==> e in ys;
  }

  /** The step of SortedIsBuckets where the first entry scores `hi`. */
  lemma {:induction false} SortedHeadBucket(ys: seq<AtcCode>, hi: int, lo: int)
    requires NonIncreasing(ys) && ys != [] && ys[0].similarity == hi
    requires forall e :: e in ys ==> lo <= e.similarity <= hi
    ensures ys == Buckets(ys, hi, lo)
    decreases |ys|, hi - lo, 0
  {
    var y, tail := ys[0], ys[1..];
    assert ys == [y] + tail;
    TailFacts(ys, lo, hi);
    SortedIsBuckets(tail, hi, lo);
    assert lo <= hi by { assert y in ys; }
    HeadBucket(y, tail, hi, lo);
  }

  /** An entry scored `hi` heads the buckets from `hi` down. */
  lemma HeadBucket(y: AtcCode, tail: seq<AtcCode>, hi: int, lo: int)
    requires lo <= hi && y.similarity == hi
    ensures Buckets([y] + tail, hi, lo) == [y] + Buckets(tail, hi, lo)
  {
    var a, b := WithScore(tail, hi), Buckets(tail, hi - 1, lo);
    calc {
      Buckets([y] + tail, hi, lo);
      { BucketsUnfold([y] + tail, hi, lo); }
      WithScore([y] + tail, hi) + Buckets([y] + tail, hi - 1, lo);
      { WithScoreCons(y, tail, hi); BucketsSkip(y, tail, hi - 1, lo); }
      ([y] + a) + b;
      [y] + (a + b);
      { BucketsUnfold(tail, hi, lo); }
      [y] + Buckets(tail, hi, lo);
    }
  }

  lemma BucketsUnfold(xs: seq<AtcCode>, hi: int, lo: int)
    requires lo <= hi
    ensures Buckets(xs, hi, lo) == WithScore(xs, hi) + Buckets(xs, hi - 1, lo)
  {
  }

  // ---------------------------------------------------------------------------
  // The sort: ordered, a permutation, stable

  lemma WithScoreCons(x: AtcCode, ys: seq<AtcCode>, k: int)
    ensures WithScore([x] + ys, k) == (if x.similarity == k then [x] else []) + WithScore(ys, k)
  {
    assert ([x] + ys)[1..] == ys;
  }

  lemma {:induction false} InsertWithScore(x: AtcCode, ys: seq<AtcCode>, k: int)
    ensures WithScore(Insert(x, ys), k) == (if x.similarity == k then [x] else []) + WithScore(ys, k)
  {
    if ys == [] || ys[0].similarity <= x.similarity {
      WithScoreCons(x, ys, k);
    } else {
      var y, tail := ys[0], ys[1..];
      assert ys == [y] + tail;
      var wx: seq<AtcCode> := if x.similarity == k then [x] else [];
      var wy: seq<AtcCode> := if y.similarity == k then [y] else [];
      var w := WithScore(tail, k);
      assert Insert(x, ys) == [y] + Insert(x, tail);
      calc {
        WithScore(Insert(x, ys), k);
        { WithScoreCons(y, Insert(x, tail), k); }
        wy + WithScore(Insert(x, tail), k);
        { InsertWithScore(x, tail, k); }
        wy + (wx + w);
        { if wy != [] { assert wx == [] && wy + ([] + w) == [] + (wy + w); } else { assert [] + (wx + w) == wx + ([] + w); } }
        wx + (wy + w);
        { WithScoreCons(y, tail, k); }
        wx + WithScore(ys, k);
      }
    }
  }

  /** The sort is stable: among entries of equal score it keeps the input
      order. */
  lemma {:induction false} SortIsStable(xs: seq<AtcCode>, k: int)
    ensures WithScore(SortByScore(xs), k) == WithScore(xs, k)
  {
    if xs != [] {
      SortIsStable(xs[1..], k);
      InsertWithScore(xs[0], SortByScore(xs[1..]), k);
      assert xs == [xs[0]] + xs[1..];
      WithScoreCons(xs[0], xs[1..], k);
    }
  }

  /** When every score lies in `lo..hi`, the stable sort is the concatenation,
      from `hi` down to `lo`, of the entries with each score in input order. */
  lemma SortIsBuckets(xs: seq<AtcCode>, hi: int, lo: int)
    requires forall e :: e in xs ==> lo <= e.similarity <= hi
    ensures SortByScore(xs) == Buckets(xs, hi, lo)
  {
    var s := SortByScore(xs);
    assert forall e :: e in s ==> e in multiset(xs);
    SortedIsBuckets(s, hi, lo);
    forall k | lo <= k <= hi ensures WithScore(s, k) == WithScore(xs, k) {
      SortIsStable(xs, k);
    }
    BucketsCongruent(s, xs, hi, lo);
  }

  /** The filter keeps each qualifying entry exactly as often as the input
      holds it, and no other entry. */
  lemma {:induction false} QualifyingCounts(xs: seq<AtcCode>)
    ensures forall e :: multiset(Qualifying(xs))[e] == if e.similarity >= Threshold then multiset(xs)[e] else 0
  {
    if xs != [] {
      QualifyingCounts(xs[1..]);
      assert xs == [xs[0]] + xs[1..];
    }
  }

  lemma {:induction false} QualifyingWithScore(xs: seq<AtcCode>, k: int)
    requires k >= Threshold
    ensures WithScore(Qualifying(xs), k) == WithScore(xs, k)
  {
    if xs != [] {
      QualifyingWithScore(xs[1..], k);
      WithScoreAppend(if xs[0].similarity >= Threshold then [xs[0]] else [], Qualifying(xs[1..]), k);
    }
  }

  lemma {:induction false} WithScorePrefix(xs: seq<AtcCode>, n: nat, k: int)
    requires n <= |xs|
    ensures WithScore(xs[..n], k) <= WithScore(xs, k)
  {
    assert xs == xs[..n] + xs[n..];
    WithScoreAppend(xs[..n], xs[n..], k);
  }

  // ---------------------------------------------------------------------------
  // What find_codes returns on a miss

  lemma QualifyingInRange(jaroWinkler: Metric, query: string, catalog: seq<CatalogRecord>)
    ensures forall e :: e in Qualifying(ScoreAll(jaroWinkler, query, catalog)) ==> Threshold <= e.similarity <= 100
  {
    var all := ScoreAll(jaroWinkler, query, catalog);
    forall e | e in Qualifying(all) ensures e.similarity <= 100 {
      assert e in multiset(all);
      var i :| 0 <= i < |all| && all[i] == e;
    }
  }

  /** At most 25 entries, each scored 90..100; exactly 25 unless fewer qualify. */
  lemma RankBounded(jaroWinkler: Metric, query: string, catalog: seq<CatalogRecord>)
    ensures var r := Rank(jaroWinkler, query, catalog);
            var q := Qualifying(ScoreAll(jaroWinkler, query, catalog));
            |r| == (if |q| < MaxResults then |q| else MaxResults)
            && forall e :: e in r ==> Threshold <= e.similarity <= 100
  {
    var q := Qualifying(ScoreAll(jaroWinkler, query, catalog));
    var s := SortByScore(q);
    assert |s| == |multiset(s)| == |q|;
    assert forall e :: e in Rank(jaroWinkler, query, catalog) ==> e in multiset(q);
  }

  /** Scores never increase along the result. */
  lemma RankOrdered(jaroWinkler: Metric, query: string, catalog: seq<CatalogRecord>)
    ensures NonIncreasing(Rank(jaroWinkler, query, catalog))
  {
    var s := SortByScore(Qualifying(ScoreAll(jaroWinkler, query, catalog)));
    var r := Rank(jaroWinkler, query, catalog);
    assert forall i :: 0 <= i < |r| ==> r[i] == s[i];
  }

  /** The result is the first 25 of: the catalog entries scoring 100 in
      catalog order, then those scoring 99, and so on down to 90. */
  lemma RankIsBucketPrefix(jaroWinkler: Metric, query: string, catalog: seq<CatalogRecord>)
    ensures Rank(jaroWinkler, query, catalog)
         == Take(Buckets(ScoreAll(jaroWinkler, query, catalog), 100, Threshold), MaxResults)
  {
    var all := ScoreAll(jaroWinkler, query, catalog);
    var q := Qualifying(all);
    QualifyingInRange(jaroWinkler, query, catalog);
    SortIsBuckets(q, 100, Threshold);
    forall k | Threshold <= k <= 100 ensures WithScore(q, k) == WithScore(all, k) {
      QualifyingWithScore(all, k);
    }
    BucketsCongruent(q, all, 100, Threshold);
  }

  /** Entries of equal score keep catalog order: those in the result with
      score `k` are the first ones of the catalog with score `k`. */
  lemma RankStable(jaroWinkler: Metric, query: string, catalog: seq<CatalogRecord>, k: int)
    ensures WithScore(Rank(jaroWinkler, query, catalog), k)
         <= WithScore(ScoreAll(jaroWinkler, query, catalog), k)
  {
    var all := ScoreAll(jaroWinkler, query, catalog);
    var q := Qualifying(all);
    var s := SortByScore(q);
    var r := Rank(jaroWinkler, query, catalog);
    assert r == s[..|r|];
    WithScorePrefix(s, |r|, k);
    SortIsStable(q, k);
    if k >= Threshold {
      QualifyingWithScore(all, k);
    } else {
      assert forall e :: e in r ==> e in multiset(q);
      WithScoreAbsent(r, k);
    }
  }

  /** Every returned entry is a catalog row, scored against the query. */
  lemma RankProvenance(jaroWinkler: Metric, query: string, catalog: seq<CatalogRecord>)
    ensures forall e :: e in Rank(jaroWinkler, query, catalog) ==>
      exists i :: (0 <= i < |catalog| && e.code == catalog[i].code && e.name == catalog[i].name
                && e.similarity == Similarity(jaroWinkler, query, FromRecord(catalog[i])))
  {
    var all := ScoreAll(jaroWinkler, query, catalog);
    var q := Qualifying(all);
    forall e | e in Rank(jaroWinkler, query, catalog)
      ensures exists i :: (0 <= i < |catalog| && e.code == catalog[i].code && e.name == catalog[i].name
                && e.similarity == Similarity(jaroWinkler, query, FromRecord(catalog[i])))
    {
      assert e in multiset(q);
      assert e in all;
      var i :| 0 <= i < |all| && all[i] == e;
    }
  }

  /** Nothing qualifying is lost unless 25 entries scoring at least as much
      were taken in its place. */
  lemma RankKeepsBest(jaroWinkler: Metric, query: string, catalog: seq<CatalogRecord>, i: nat)
    requires i < |catalog|
    requires Similarity(jaroWinkler, query, FromRecord(catalog[i])) >= Threshold
    ensures var r := Rank(jaroWinkler, query, catalog);
            var e := ScoreAll(jaroWinkler, query, catalog)[i];
            e in r || (|r| == MaxResults && forall x :: x in r ==> x.similarity >= e.similarity)
  {
    var all := ScoreAll(jaroWinkler, query, catalog);
    var e := all[i];
    var q := Qualifying(all);
    var s := SortByScore(q);
    var r := Rank(jaroWinkler, query, catalog);
    assert e in q;
    assert e in multiset(s);
    if e !in r {
      var j :| 0 <= j < |s| && s[j] == e;
      assert r == s[..|r|];
      assert j >= |r|;
      forall x | x in r ensures x.similarity >= e.similarity {
        var m :| 0 <= m < |r| && r[m] == x;
      }
    }
  }
}
