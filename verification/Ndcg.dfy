/**
 retrieval_metrics of agent/evals/rag/metrics/retrieval.py over the reals. The discount
 1 / log2(index + 1) is any positive, strictly decreasing function of the rank.
 */
module Ndcg {

  type Discount = nat -> real

  ghost predicate Decreasing(d: Discount) {
    && (forall i :: i >= 1 ==> d(i) > 0.0)
    && forall i, j :: 1 <= i < j ==> d(j) < d(i)
  }

  // hits[:k], for negative k as well.
  function Ranked(hits: seq<string>, k: int): (r: seq<string>)
    ensures r <= hits
    ensures k >= 0 ==> |r| == Min(k, |hits|)
    ensures k < 0 ==> |r| == Max(0, |hits| + k)
  {
    if k >= |hits| then hits else if k >= 0 then hits[..k] else if |hits| + k > 0 then hits[..|hits| + k] else []
  }

  // The first occurrence of a relevant name.
  predicate Gain(ranked: seq<string>, relevant: set<string>, i: nat)
    requires i < |ranked|
  {
    ranked[i] in relevant && ranked[i] !in ranked[..i]
  }

  // Rank i + 1 gains d(i + 1).
  function Dcg(ranked: seq<string>, relevant: set<string>, d: Discount): real {
    if ranked == [] then 0.0
    else
      var n := |ranked| - 1;
      Dcg(ranked[..n], relevant, d) + if Gain(ranked, relevant, n) then d(n + 1) else 0.0
  }

  function Idcg(n: nat, d: Discount): real {
    if n == 0 then 0.0 else Idcg(n - 1, d) + d(n)
  }

  function Matched(ranked: seq<string>, relevant: set<string>): set<string> {
    set x | x in relevant && x in ranked
  }

  function Min(a: int, b: int): int { if a < b then a else b }

  function Max(a: int, b: int): int { if a < b then b else a }

  function IdealCount(relevant: set<string>, k: int): nat { Max(0, Min(|relevant|, k)) }

  // The position of the first relevant name, counted from 1; 0 if there is none.
  function First(ranked: seq<string>, relevant: set<string>): (n: nat)
    ensures n <= |ranked|
    ensures n > 0 ==> ranked[n - 1] in relevant
    ensures forall i :: 0 <= i < (if n > 0 then n - 1 else |ranked|) ==> ranked[i] !in relevant
  {
    if ranked == [] then 0
    else if ranked[0] in relevant then 1
    else
      var n := First(ranked[1..], relevant);
      assert forall i :: 1 <= i < |ranked| ==> ranked[i] == ranked[1..][i - 1];
      if n == 0 then 0 else n + 1
  }

  datatype Metrics = Undefined | Metrics(hit: real, recall: real, precision: real, mrr: real, ndcg: real)

  function RetrievalMetrics(hits: seq<string>, relevant: set<string>, k: int, d: Discount): Metrics {
    var ranked := Ranked(hits, k);
    if relevant == {} then Undefined
    else
      var matched := Matched(ranked, relevant);
      var first := First(ranked, relevant);
      var idcg := Idcg(IdealCount(relevant, k), d);
      Metrics(if matched != {} then 1.0 else 0.0,
              |matched| as real / Max(1, |relevant|) as real,
              |matched| as real / Max(1, k) as real,
              if first > 0 then 1.0 / first as real else 0.0,
              if idcg != 0.0 then Dcg(ranked, relevant, d) / idcg else 0.0)
  }

  // ---------------------------------------------------------------- the loops

  method ComputeDcg(ranked: seq<string>, relevant: set<string>, d: Discount) returns (dcg: real, seen: set<string>)
    ensures dcg == Dcg(ranked, relevant, d) && seen == Matched(ranked, relevant)
  {
    dcg, seen := 0.0, {};
    var i := 0;
    while i < |ranked|
      invariant i <= |ranked|
      invariant dcg == Dcg(ranked[..i], relevant, d) && seen == Matched(ranked[..i], relevant)
    {
      var name := ranked[i];
      assert ranked[..i + 1][..i] == ranked[..i];
      assert ranked[..i + 1] == ranked[..i] + [name];
      if name in relevant && name !in seen {
        dcg := dcg + d(i + 1);
        seen := seen + {name};
      }
      i := i + 1;
    }
    assert ranked[..i] == ranked;
  }

  method ComputeIdcg(n: nat, d: Discount) returns (idcg: real)
    ensures idcg == Idcg(n, d)
  {
    idcg := 0.0;
    for i := 0 to n
      invariant idcg == Idcg(i, d)
    {
      idcg := idcg + d(i + 1);
    }
  }

  // ---------------------------------------------------------------- bounds

  lemma MatchedSnoc(ranked: seq<string>, relevant: set<string>)
    requires ranked != []
    ensures var n := |ranked| - 1;
      && (Gain(ranked, relevant, n) ==> ranked[n] !in Matched(ranked[..n], relevant))
      && (Gain(ranked, relevant, n) ==> Matched(ranked, relevant) == Matched(ranked[..n], relevant) + {ranked[n]})
      && (!Gain(ranked, relevant, n) ==> Matched(ranked, relevant) == Matched(ranked[..n], relevant))
  {
    var n := |ranked| - 1;
    assert ranked == ranked[..n] + [ranked[n]];
  }

  lemma {:induction false} MatchedCount(ranked: seq<string>, relevant: set<string>)
    ensures |Matched(ranked, relevant)| <= |ranked|
  {
    if ranked == [] {
      assert Matched(ranked, relevant) == {};
    } else {
      hide Matched;
      MatchedSnoc(ranked, relevant);
      MatchedCount(ranked[..|ranked| - 1], relevant);
    }
  }

  lemma Subset(small: set<string>, large: set<string>)
    requires small <= large
    ensures |small| <= |large|
  {
    if small != large {
      assert |large| == |small| + |large - small|;
    }
  }

  lemma MatchedBound(hits: seq<string>, relevant: set<string>, k: int)
    requires k >= 0
    ensures |Matched(Ranked(hits, k), relevant)| <= IdealCount(relevant, k)
  {
    MatchedCount(Ranked(hits, k), relevant);
    Subset(Matched(Ranked(hits, k), relevant), relevant);
  }

  // Gains in the order found are worth no more than gains in the first ranks.
  lemma {:induction false} DcgAtMost(ranked: seq<string>, relevant: set<string>, d: Discount)
    requires Decreasing(d)
    ensures 0.0 <= Dcg(ranked, relevant, d) <= Idcg(|Matched(ranked, relevant)|, d)
  {
    hide Matched, Gain;
    if ranked == [] {
      NoMatch(relevant);
    } else {
      var n := |ranked| - 1;
      var before := ranked[..n];
      DcgAtMost(before, relevant, d);
      MatchedSnoc(ranked, relevant);
      MatchedCount(before, relevant);
      if Gain(ranked, relevant, n) {
        var m := |Matched(before, relevant)| + 1;
        assert |Matched(ranked, relevant)| == m;
        assert m == n + 1 || d(n + 1) < d(m);
        assert Idcg(m, d) == Idcg(m - 1, d) + d(m);
      }
    }
  }

  lemma NoMatch(relevant: set<string>)
    ensures Matched([], relevant) == {}
  {}

  lemma {:induction false} IdcgGrows(m: nat, n: nat, d: Discount)
    requires Decreasing(d) && m <= n
    ensures Idcg(m, d) <= Idcg(n, d) && (m < n ==> Idcg(m, d) < Idcg(n, d))
    decreases n
  {
    if m < n { IdcgGrows(m, n - 1, d); }
  }

  // NDCG is a number between 0 and 1 for every ranking, relevance set and k.
  lemma NdcgBounded(hits: seq<string>, relevant: set<string>, k: int, d: Discount)
    requires Decreasing(d) && relevant != {}
    ensures 0.0 <= RetrievalMetrics(hits, relevant, k, d).ndcg <= 1.0
  {
    hide Dcg, Matched, First;
    var ranked, n := Ranked(hits, k), IdealCount(relevant, k);
    IdcgGrows(0, n, d);
    if n > 0 {
      DcgAtMost(ranked, relevant, d);
      MatchedBound(hits, relevant, k);
      IdcgGrows(|Matched(ranked, relevant)|, n, d);
      Ratio(Dcg(ranked, relevant, d), Idcg(n, d));
    }
  }

  lemma Ratio(a: real, b: real)
    requires 0.0 <= a <= b && b > 0.0
    ensures 0.0 <= a / b <= 1.0 && (a / b == 1.0 <==> a == b)
  {}

  // ---------------------------------------------------------------- when it is 1

  // The first n ranks all gain.
  predicate Leads(ranked: seq<string>, relevant: set<string>, n: nat) {
    n <= |ranked| && forall i :: 0 <= i < n ==> Gain(ranked, relevant, i)
  }

  lemma GainPrefix(ranked: seq<string>, relevant: set<string>, n: nat, i: nat)
    requires i < n <= |ranked|
    ensures Gain(ranked[..n], relevant, i) == Gain(ranked, relevant, i)
  {
    assert ranked[..n][..i] == ranked[..i];
  }

  lemma LeadsPrefix(ranked: seq<string>, relevant: set<string>, n: nat, m: nat)
    requires m <= n <= |ranked|
    ensures Leads(ranked[..n], relevant, m) <==> Leads(ranked, relevant, m)
  {
    hide Gain;
    forall i | 0 <= i < m ensures Gain(ranked[..n], relevant, i) == Gain(ranked, relevant, i) {
      GainPrefix(ranked, relevant, n, i);
    }
  }

  // If the gains are not the leading ranks, they are worth strictly less.
  lemma {:induction false} DcgStrict(ranked: seq<string>, relevant: set<string>, d: Discount)
    requires Decreasing(d)
    ensures var m := |Matched(ranked, relevant)|;
      if Leads(ranked, relevant, m) then Dcg(ranked, relevant, d) == Idcg(m, d) else Dcg(ranked, relevant, d) < Idcg(m, d)
  {
    hide Matched, Gain;
    if ranked == [] {
      NoMatch(relevant);
    } else {
      var n := |ranked| - 1;
      var before := ranked[..n];
      var m := |Matched(before, relevant)|;
      DcgStrict(before, relevant, d);
      MatchedSnoc(ranked, relevant);
      MatchedCount(before, relevant);
      LeadsPrefix(ranked, relevant, n, m);
      if Gain(ranked, relevant, n) {
        assert |Matched(ranked, relevant)| == m + 1;
        assert Idcg(m + 1, d) == Idcg(m, d) + d(m + 1);
        assert m == n || d(n + 1) < d(m + 1);
        if m < n { NotLeading(ranked, relevant, m); }
      }
    }
  }

  // With m matches before the last rank, rank m + 1 of m + 2 or more gains only if all before it do.
  lemma NotLeading(ranked: seq<string>, relevant: set<string>, m: nat)
    requires m + 1 < |ranked| && |Matched(ranked[..|ranked| - 1], relevant)| == m
    ensures !Leads(ranked, relevant, m + 1)
  {
    hide Matched, Gain;
    if Leads(ranked, relevant, m + 1) {
      var before := ranked[..|ranked| - 1];
      LeadsPrefix(ranked, relevant, |ranked| - 1, m + 1);
      LeadsCount(before, relevant, m + 1);
    }
  }

  lemma {:induction false} LeadsCount(ranked: seq<string>, relevant: set<string>, n: nat)
    requires Leads(ranked, relevant, n)
    ensures |Matched(ranked, relevant)| >= n
    decreases |ranked|
  {
    hide Matched, Gain;
    if ranked != [] {
      var last := |ranked| - 1;
      MatchedSnoc(ranked, relevant);
      var m := if n <= last then n else last;
      LeadsPrefix(ranked, relevant, last, m);
      LeadsCount(ranked[..last], relevant, m);
    }
  }

  // NDCG is 1 exactly when k is positive and distinct relevant names fill the leading ranks.
  lemma NdcgOneIff(hits: seq<string>, relevant: set<string>, k: int, d: Discount)
    requires Decreasing(d) && relevant != {}
    ensures RetrievalMetrics(hits, relevant, k, d).ndcg == 1.0 <==>
      k >= 1 && Leads(Ranked(hits, k), relevant, IdealCount(relevant, k))
  {
    hide Dcg, Matched, First, Gain;
    var ranked, n := Ranked(hits, k), IdealCount(relevant, k);
    if k >= 1 {
      assert n >= 1 by { NotEmpty(relevant); }
      var m := |Matched(ranked, relevant)|;
      DcgAtMost(ranked, relevant, d);
      DcgStrict(ranked, relevant, d);
      MatchedBound(hits, relevant, k);
      IdcgGrows(m, n, d);
      IdcgGrows(0, n, d);
      Ratio(Dcg(ranked, relevant, d), Idcg(n, d));
      if Leads(ranked, relevant, n) { LeadsCount(ranked, relevant, n); }
    } else {
      assert n == 0 && Idcg(n, d) == 0.0;
    }
  }

  lemma NotEmpty(s: set<string>)
    requires s != {}
    ensures |s| >= 1
  {}

  // ---------------------------------------------------------------- in between

  predicate Distinct(s: seq<string>) { forall i, j :: 0 <= i < j < |s| ==> s[i] != s[j] }

  function Swapped(s: seq<string>, i: nat, j: nat): seq<string>
    requires i < j < |s|
  {
    s[i := s[j]][j := s[i]]
  }

  // Of distinct names every relevant one gains.
  lemma DistinctGain(ranked: seq<string>, relevant: set<string>, i: nat)
    requires Distinct(ranked) && i < |ranked|
    ensures Gain(ranked, relevant, i) <==> ranked[i] in relevant
  {}

  lemma {:induction false} DcgSwap(a: seq<string>, b: seq<string>, relevant: set<string>, d: Discount, i: nat, j: nat)
    requires |a| == |b| && Distinct(a) && Distinct(b) && i < j
    requires forall x :: 0 <= x < |a| && x != i && x != j ==> a[x] == b[x]
    requires i < |a| ==> a[i] !in relevant && b[i] in relevant
    requires j < |a| ==> a[j] in relevant && b[j] !in relevant
    ensures Dcg(b, relevant, d) ==
      Dcg(a, relevant, d) + (if i < |a| then d(i + 1) else 0.0) - (if j < |a| then d(j + 1) else 0.0)
  {
    hide Gain;
    if a != [] {
      var n := |a| - 1;
      DcgSwap(a[..n], b[..n], relevant, d, i, j);
      DistinctGain(a, relevant, n);
      DistinctGain(b, relevant, n);
    }
  }

  // Exchanging a name that is not relevant with a relevant one below it always pays.
  lemma SwapPays(hits: seq<string>, relevant: set<string>, k: int, d: Discount, i: nat, j: nat)
    requires Decreasing(d) && k >= 1 && i < j < |Ranked(hits, k)| && Distinct(Ranked(hits, k))
    requires hits[i] !in relevant && hits[j] in relevant
    ensures RetrievalMetrics(hits, relevant, k, d).ndcg < RetrievalMetrics(Swapped(hits, i, j), relevant, k, d).ndcg
  {
    hide Dcg, Idcg, Matched, First;
    var a, b := Ranked(hits, k), Ranked(Swapped(hits, i, j), k);
    assert b == Swapped(a, i, j);
    DcgSwap(a, b, relevant, d, i, j);
    assert hits[j] in relevant;
    NotEmpty(relevant);
    IdcgGrows(0, IdealCount(relevant, k), d);
    assert Idcg(0, d) == 0.0 by { IdcgZero(d); }
    RatioGrows(Dcg(a, relevant, d), Dcg(b, relevant, d), Idcg(IdealCount(relevant, k), d));
  }

  lemma IdcgZero(d: Discount)
    ensures Idcg(0, d) == 0.0
  {}

  lemma RatioGrows(a: real, b: real, c: real)
    requires a < b && c > 0.0
    ensures a / c < b / c
  {}

  lemma {:induction false} DcgSingle(ranked: seq<string>, x: string, d: Discount, p: nat)
    requires p < |ranked| && ranked[p] == x && x !in ranked[..p]
    ensures Dcg(ranked, {x}, d) == d(p + 1)
  {
    var n := |ranked| - 1;
    if p < n {
      assert ranked[..n][..p] == ranked[..p];
      DcgSingle(ranked[..n], x, d, p);
      assert ranked[..n][p] == x;
    } else {
      DcgNone(ranked[..n], x, d);
    }
  }

  lemma {:induction false} DcgNone(ranked: seq<string>, x: string, d: Discount)
    requires x !in ranked
    ensures Dcg(ranked, {x}, d) == 0.0
  {
    if ranked != [] { DcgNone(ranked[..|ranked| - 1], x, d); }
  }

  // With one relevant name NDCG is the discount at its first rank over that at the first of all.
  lemma NdcgSingle(hits: seq<string>, x: string, k: int, d: Discount, p: nat)
    requires Decreasing(d) && k >= 1 && p < |Ranked(hits, k)| && hits[p] == x && x !in hits[..p]
    ensures RetrievalMetrics(hits, {x}, k, d).ndcg == d(p + 1) / d(1)
  {
    hide Dcg, Matched, First;
    var ranked := Ranked(hits, k);
    assert ranked[..p] == hits[..p];
    DcgSingle(ranked, x, d, p);
    assert IdealCount({x}, k) == 1 && Idcg(1, d) == Idcg(0, d) + d(1);
  }

  // ---------------------------------------------------------------- the other numbers

  lemma Fraction(a: nat, b: nat)
    requires b > 0
    ensures 0.0 <= a as real / b as real && (a as real / b as real <= 1.0 <==> a <= b)
  {
    if a <= b { assert a as real <= b as real; }
  }

  // Hit, recall and reciprocal rank are always within [0, 1].
  lemma OthersBounded(hits: seq<string>, relevant: set<string>, k: int, d: Discount)
    requires relevant != {}
    ensures var m := RetrievalMetrics(hits, relevant, k, d);
      && 0.0 <= m.recall <= 1.0 && 0.0 <= m.mrr <= 1.0 && (m.hit == 1.0 <==> m.recall > 0.0)
  {
    hide Dcg, Idcg;
    var ranked := Ranked(hits, k);
    var matched := Matched(ranked, relevant);
    NotEmpty(relevant);
    Subset(matched, relevant);
    Fraction(|matched|, |relevant|);
    if First(ranked, relevant) > 0 { Fraction(1, First(ranked, relevant)); }
    if matched != {} { NotEmpty(matched); }
  }

  function Found(hits: seq<string>, relevant: set<string>, k: int): set<string> {
    set x | x in relevant && x in Ranked(hits, k)
  }

  // Hit is 1 or 0; precision and recall are the share of relevant names found.
  lemma SharesExactly(hits: seq<string>, relevant: set<string>, k: int, d: Discount)
    requires relevant != {}
    ensures var m, ranked, n := RetrievalMetrics(hits, relevant, k, d), Ranked(hits, k), |Found(hits, relevant, k)|;
      && (m.hit == if exists i :: 0 <= i < |ranked| && ranked[i] in relevant then 1.0 else 0.0)
      && m.recall == n as real / |relevant| as real
      && m.precision == n as real / (if k < 1 then 1 else k) as real
  {
    hide Dcg, Idcg, First, Matched, Ranked;
    var ranked := Ranked(hits, k);
    NotEmpty(relevant);
    FoundIs(hits, relevant, k);
    HitIff(ranked, relevant);
  }

  lemma FoundIs(hits: seq<string>, relevant: set<string>, k: int)
    ensures Found(hits, relevant, k) == Matched(Ranked(hits, k), relevant)
  {}

  lemma ShareOne(a: nat, b: nat)
    requires b > 0
    ensures a as real / b as real == 1.0 <==> a == b
  {
    assert a as real / b as real * b as real == a as real;
  }

  // Recall is 1 exactly when every relevant name is found.
  lemma RecallOneIff(hits: seq<string>, relevant: set<string>, k: int, d: Discount)
    requires relevant != {}
    ensures RetrievalMetrics(hits, relevant, k, d).recall == 1.0 <==> forall x :: x in relevant ==> x in Ranked(hits, k)
  {
    hide RetrievalMetrics, Ranked;
    var found := Found(hits, relevant, k);
    SharesExactly(hits, relevant, k, d);
    NotEmpty(relevant);
    ShareOne(|found|, |relevant|);
    assert found <= relevant;
    assert (forall x :: x in relevant ==> x in Ranked(hits, k)) ==> found == relevant;
    if |found| == |relevant| { SameSize(found, relevant); }
  }

  // The reciprocal rank is that of the first relevant name.
  lemma MrrExactly(hits: seq<string>, relevant: set<string>, k: int, d: Discount, p: nat)
    requires relevant != {} && p < |Ranked(hits, k)| && Ranked(hits, k)[p] in relevant
    requires forall i :: 0 <= i < p ==> Ranked(hits, k)[i] !in relevant
    ensures RetrievalMetrics(hits, relevant, k, d).mrr == 1.0 / (p + 1) as real
  {
    hide Dcg, Idcg, Matched;
    FirstIs(Ranked(hits, k), relevant);
  }

  lemma MrrZero(hits: seq<string>, relevant: set<string>, k: int, d: Discount)
    requires relevant != {} && forall i :: 0 <= i < |Ranked(hits, k)| ==> Ranked(hits, k)[i] !in relevant
    ensures RetrievalMetrics(hits, relevant, k, d).mrr == 0.0
  {
    hide Dcg, Idcg, Matched;
    FirstIs(Ranked(hits, k), relevant);
  }

  lemma HitIff(ranked: seq<string>, relevant: set<string>)
    ensures Matched(ranked, relevant) != {} <==> exists i :: 0 <= i < |ranked| && ranked[i] in relevant
  {
    if i :| 0 <= i < |ranked| && ranked[i] in relevant { assert ranked[i] in Matched(ranked, relevant); }
  }

  lemma FirstIs(ranked: seq<string>, relevant: set<string>)
    ensures forall p :: 0 <= p < |ranked| && ranked[p] in relevant && (forall i :: 0 <= i < p ==> ranked[i] !in relevant) ==>
      First(ranked, relevant) == p + 1
    ensures (forall i :: 0 <= i < |ranked| ==> ranked[i] !in relevant) ==> First(ranked, relevant) == 0
  {
    var n := First(ranked, relevant);
    forall p | 0 <= p < |ranked| && ranked[p] in relevant && (forall i :: 0 <= i < p ==> ranked[i] !in relevant)
      ensures n == p + 1
    {
      if n > 0 { assert ranked[n - 1] in relevant; }
    }
  }

  lemma SameSize(small: set<string>, large: set<string>)
    requires small <= large && |small| == |large|
    ensures small == large
  {
    assert |large| == |small| + |large - small|;
  }

  lemma Reciprocal(a: real, b: real)
    requires 0.0 < a < b
    ensures 1.0 / b < 1.0 / a
  {
    assert 1.0 / b * (a * b) == a && 1.0 / a * (a * b) == b;
  }

  // The later the first relevant name, the smaller the reciprocal rank.
  lemma MrrDecreases(hits: seq<string>, other: seq<string>, relevant: set<string>, k: int, d: Discount, p: nat, q: nat)
    requires relevant != {} && p < q < |Ranked(other, k)| && p < |Ranked(hits, k)|
    requires Ranked(hits, k)[p] in relevant && forall i :: 0 <= i < p ==> Ranked(hits, k)[i] !in relevant
    requires Ranked(other, k)[q] in relevant && forall i :: 0 <= i < q ==> Ranked(other, k)[i] !in relevant
    ensures RetrievalMetrics(other, relevant, k, d).mrr < RetrievalMetrics(hits, relevant, k, d).mrr
  {
    hide RetrievalMetrics, Ranked;
    MrrExactly(hits, relevant, k, d, p);
    MrrExactly(other, relevant, k, d, q);
    Reciprocal((p + 1) as real, (q + 1) as real);
  }

  ghost predicate PrecisionBounded(k: int, d: Discount) {
    forall hits: seq<string>, relevant: set<string> :: relevant != {} ==>
      0.0 <= RetrievalMetrics(hits, relevant, k, d).precision <= 1.0
  }

  // Precision is within [0, 1] for every ranking and every relevance set exactly when k is not
  // negative: a negative k cuts the ranking at its other end, and only names are counted.
  lemma PrecisionBoundedIff(k: int, d: Discount)
    ensures PrecisionBounded(k, d) <==> k >= 0
  {
    hide Dcg, Idcg, First, Matched;
    if k >= 0 {
      forall hits: seq<string>, relevant: set<string> | relevant != {}
        ensures 0.0 <= RetrievalMetrics(hits, relevant, k, d).precision <= 1.0
      {
        Fraction(|Matched(Ranked(hits, k), relevant)|, Max(1, k));
        MatchedBound(hits, relevant, k);
      }
    } else {
      var hits, relevant := PrecisionAboveOne(k, d);
    }
  }

  // For every negative k, two relevant names before -k others make it 2.
  lemma PrecisionAboveOne(k: int, d: Discount) returns (hits: seq<string>, relevant: set<string>)
    requires k < 0
    ensures relevant != {} && RetrievalMetrics(hits, relevant, k, d).precision == 2.0
  {
    hide Dcg, Idcg, First;
    hits, relevant := ["a", "b"] + seq(-k, _ => "c"), {"a", "b"};
    assert Ranked(hits, k) == ["a", "b"];
    assert ["a", "b"][0] == "a" && ["a", "b"][1] == "b";
    assert Matched(["a", "b"], relevant) == relevant;
    assert "a" != "b" by { assert "a"[0] != "b"[0]; }
    assert relevant == {"a"} + {"b"} && |{"a"} + {"b"}| == 2;
  }
}
