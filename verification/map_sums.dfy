/** Sums over finite maps, and what flooring every term of a sum loses. */
module MapSums {
  import opened Numbers

  ghost function Without<K>(m: map<K, nat>, k: K): map<K, nat> {
    m - {k}
  }

  ghost function Pick<K>(s: set<K>): (k: K)
    requires s != {}
    ensures k in s
  {
    var k :| k in s;
    k
  }

  ghost function SumOver<K>(m: map<K, nat>, s: set<K>): nat
    requires s <= m.Keys
  {
    if s == {} then 0 else m[Pick(s)] + SumOver(m, s - {Pick(s)})
  }

  ghost function Sum<K>(m: map<K, nat>): nat {
    SumOver(m, m.Keys)
  }

  /** The order in which the keys are taken does not matter. */
  lemma {:induction false} SumOverSplit<K>(m: map<K, nat>, s: set<K>, k: K)
    requires k in s && s <= m.Keys
    ensures SumOver(m, s) == m[k] + SumOver(m, s - {k})
    decreases s
  {
    var j := Pick(s);
    if j != k {
      SumOverSplit(m, s - {j}, k);
      SumOverSplit(m, s - {k}, j);
      assert s - {j} - {k} == s - {k} - {j};
    }
  }

  lemma {:induction false} SumOverAgree<K>(m: map<K, nat>, p: map<K, nat>, s: set<K>)
    requires s <= m.Keys && s <= p.Keys && forall k :: k in s ==> m[k] == p[k]
    ensures SumOver(m, s) == SumOver(p, s)
    decreases s
  {
    if s != {} {
      SumOverAgree(m, p, s - {Pick(s)});
    }
  }

  lemma SumSplit<K>(m: map<K, nat>, k: K)
    requires k in m
    ensures Sum(m) == m[k] + Sum(Without(m, k))
  {
    SumOverSplit(m, m.Keys, k);
    assert Without(m, k).Keys == m.Keys - {k};
    SumOverAgree(m, Without(m, k), m.Keys - {k});
  }

  lemma WithoutInsert<K>(m: map<K, nat>, k: K, v: nat)
    ensures k in m ==> Without(m[k := v], k) == Without(m, k)
    ensures k !in m ==> Without(m[k := v], k) == m
  {
  }

  lemma SumInsert<K>(m: map<K, nat>, k: K, v: nat)
    ensures Sum(m[k := v]) == Sum(m) + v - (if k in m then m[k] else 0)
  {
    WithoutInsert(m, k, v);
    SumInsertFrom(m, m[k := v], k);
  }

  lemma SumInsertFrom<K>(m: map<K, nat>, u: map<K, nat>, k: K)
    requires k in u
    requires if k in m then Without(u, k) == Without(m, k) else Without(u, k) == m
    ensures Sum(u) == Sum(m) + u[k] - (if k in m then m[k] else 0)
  {
    SumSplit(u, k);
    if k in m {
      SumSplit(m, k);
    }
  }

  lemma TermLeSum<K>(m: map<K, nat>, k: K)
    requires k in m
    ensures m[k] <= Sum(m)
  {
    SumSplit(m, k);
  }

  ghost predicate IsSum<K>(m: map<K, nat>, p: map<K, nat>, q: map<K, nat>) {
    m.Keys == p.Keys == q.Keys && forall k :: k in m ==> m[k] == p[k] + q[k]
  }

  lemma {:induction false} SumOfSums<K>(m: map<K, nat>, p: map<K, nat>, q: map<K, nat>, s: set<K>)
    requires IsSum(m, p, q) && s <= m.Keys
    ensures SumOver(m, s) == SumOver(p, s) + SumOver(q, s)
    decreases s
  {
    if s != {} {
      SumOfSums(m, p, q, s - {Pick(s)});
    }
  }

  /** The floor of a share `weight / whole` of `total`. */
  function Portion(total: nat, weight: nat, whole: nat): nat
    requires whole > 0
  {
    FloorBounds(total * weight, whole);
    total * weight / whole
  }

  lemma PortionBounds(total: nat, weight: nat, whole: nat)
    requires whole > 0
    ensures whole * Portion(total, weight, whole) <= total * weight
    ensures total * weight < whole * Portion(total, weight, whole) + whole
  {
    FloorBounds(total * weight, whole);
  }

  /** A share of something no larger than the whole is no larger than the total. */
  lemma PortionLe(total: nat, weight: nat, whole: nat)
    requires 0 < whole && weight <= whole
    ensures Portion(total, weight, whole) <= total
  {
    MulLe(weight, whole, total);
    Distribute(whole, total, 1);
    QuotientLe(total * weight, whole, total);
  }

  ghost predicate Portions<K>(s: map<K, nat>, w: map<K, nat>, total: nat, whole: nat)
    requires whole > 0
  {
    s.Keys == w.Keys && forall k :: k in w ==> s[k] == Portion(total, w[k], whole)
  }

  ghost predicate PortionsTotal(parts: nat, weights: nat, n: nat, total: nat, whole: nat)
    requires whole > 0
  {
    whole * parts <= total * weights <= whole * parts + (whole - 1) * n
  }

  lemma PortionsTotalStep(part: nat, parts: nat, w: nat, weights: nat, n: nat, total: nat, whole: nat,
                          allParts: nat, allWeights: nat)
    requires whole > 0 && n > 0 && allParts == part + parts && allWeights == w + weights
    requires part == Portion(total, w, whole)
    requires PortionsTotal(parts, weights, n - 1, total, whole)
    ensures PortionsTotal(allParts, allWeights, n, total, whole)
  {
    PortionBounds(total, w, whole);
    Distribute(whole, part, parts);
    Distribute(total, w, weights);
    Distribute(whole - 1, n - 1, 1);
  }

  lemma {:induction false} PortionsSumOver<K>(p: map<K, nat>, w: map<K, nat>, total: nat, whole: nat, s: set<K>)
    requires whole > 0 && Portions(p, w, total, whole) && s <= w.Keys
    ensures PortionsTotal(SumOver(p, s), SumOver(w, s), |s|, total, whole)
    decreases s
  {
    if s == {} {
      assert SumOver(p, s) == 0 && SumOver(w, s) == 0;
    } else {
      var k := Pick(s);
      PortionsSumOver(p, w, total, whole, s - {k});
      PortionsTotalStep(p[k], SumOver(p, s - {k}), w[k], SumOver(w, s - {k}), |s|, total, whole,
                        SumOver(p, s), SumOver(w, s));
    }
  }

  /** Flooring each of n shares of `total` loses less than one unit a share, and never over-distributes. */
  lemma PortionsSum<K>(p: map<K, nat>, w: map<K, nat>, total: nat, whole: nat)
    requires whole > 0 && Portions(p, w, total, whole)
    ensures PortionsTotal(Sum(p), Sum(w), |w|, total, whole)
  {
    PortionsSumOver(p, w, total, whole, w.Keys);
    assert |w.Keys| == |w|;
  }
}
