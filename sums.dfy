/** Finite sums and counts over sequences of keys.

    The ranking engine iterates over the corpus in dictionary order and adds
    up one term per key. Every sum here is taken over a sequence of keys and
    peels off its LAST element, so that a loop over a prefix `ks[..i]`
    extends a sum by exactly one term per iteration. */
module Sums {

  /** No key is listed twice: the last key does not occur before it, and
      the same holds for the rest. */
  predicate Distinct<K(==)>(ks: seq<K>)
  {
    ks == [] || (Distinct(ks[..|ks| - 1]) && ks[|ks| - 1] !in ks[..|ks| - 1])
  }

  /** In a repetition-free sequence, no key occurs before its own position. */
  lemma {:induction false} DistinctAt<K>(ks: seq<K>, i: nat)
    requires Distinct(ks) && i < |ks|
    ensures ks[i] !in ks[..i]
    ensures Distinct(ks[..i])
  {
    var init := ks[..|ks| - 1];
    if i < |ks| - 1 {
      DistinctAt(init, i);
      assert init[..i] == ks[..i];
    } else {
      assert init == ks[..i];
    }
  }

  /** The set of keys a sequence lists. */
  function Elems<K>(ks: seq<K>): set<K>
  {
    set k | k in ks
  }

  /** The sum of `m[k]` over the keys `k` listed by `ks`. */
  function Sum<K>(ks: seq<K>, m: map<K, real>): real
    requires forall k | k in ks :: k in m
  {
    if ks == [] then 0.0 else Sum(ks[..|ks| - 1], m) + m[ks[|ks| - 1]]
  }

  /** `m` is a probability distribution over the keys `ks`: it weights every
      key with a non-negative weight, and the weights add up to 1. */
  ghost predicate Distribution<K>(ks: seq<K>, m: map<K, real>)
  {
    && (forall k | k in ks :: k in m && m[k] >= 0.0)
    && Sum(ks, m) == 1.0
  }

  /** How many entries of `ks` lie in `s` (with repetitions). */
  function CountIn<K>(ks: seq<K>, s: set<K>): (c: nat)
    ensures c <= |ks|
  {
    if ks == [] then 0 else CountIn(ks[..|ks| - 1], s) + (if ks[|ks| - 1] in s then 1 else 0)
  }

  /** A sequence without repetitions has as many elements as it has entries. */
  lemma {:induction false} DistinctCard<K>(ks: seq<K>)
    requires Distinct(ks)
    ensures |Elems(ks)| == |ks|
  {
    if ks != [] {
      var init, last := ks[..|ks| - 1], ks[|ks| - 1];
      DistinctCard(init);
      assert Elems(ks) == Elems(init) + {last};
    }
  }

  /** Counting the entries of a repetition-free sequence that lie in `s`
      gives the size of the part of `s` the sequence covers. */
  lemma {:induction false} CountInDistinct<K>(ks: seq<K>, s: set<K>)
    requires Distinct(ks)
    ensures CountIn(ks, s) == |s * Elems(ks)|
  {
    if ks != [] {
      var init, last := ks[..|ks| - 1], ks[|ks| - 1];
      CountInDistinct(init, s);
      assert Elems(ks) == Elems(init) + {last};
      assert last !in Elems(init);
      if last in s {
        assert s * Elems(ks) == (s * Elems(init)) + {last};
      } else {
        assert s * Elems(ks) == s * Elems(init);
      }
    }
  }

  /** The multiplicity of `x` in a sequence is the count of its entries
      equal to `x`. */
  lemma {:induction false} MultisetCount<K>(ks: seq<K>, x: K)
    ensures multiset(ks)[x] == CountIn(ks, {x})
  {
    if ks != [] {
      var init := ks[..|ks| - 1];
      MultisetCount(init, x);
      assert ks == init + [ks[|ks| - 1]];
    }
  }

  /** Nothing is counted against the empty set. */
  lemma {:induction false} CountInEmpty<K>(ks: seq<K>)
    ensures CountIn(ks, {}) == 0
  {
    if ks != [] {
      CountInEmpty(ks[..|ks| - 1]);
    }
  }

  /** When every entry lies in `s`, every entry is counted. */
  lemma {:induction false} CountInAll<K>(ks: seq<K>, s: set<K>)
    requires forall k | k in ks :: k in s
    ensures CountIn(ks, s) == |ks|
  {
    if ks != [] {
      CountInAll(ks[..|ks| - 1], s);
    }
  }

  /** Counting against `s + {x}` with `x` outside `s` counts the hits on `s`
      and the occurrences of `x` separately. */
  lemma {:induction false} CountInAdd<K>(ks: seq<K>, s: set<K>, x: K)
    requires x !in s
    ensures CountIn(ks, s + {x}) == CountIn(ks, s) + CountIn(ks, {x})
  {
    if ks != [] {
      CountInAdd(ks[..|ks| - 1], s, x);
    }
  }

  /** `k` copies of `a` added up. */
  function Times(k: nat, a: real): real
  {
    if k == 0 then 0.0 else Times(k - 1, a) + a
  }

  /** Repeated addition is multiplication. */
  lemma {:induction false} TimesIsProduct(k: nat, a: real)
    ensures Times(k, a) == (k as real) * a
  {
    if k > 0 {
      TimesIsProduct(k - 1, a);
      assert (k as real) * a == ((k - 1) as real) * a + a;
    }
  }

  /** A map whose value at `k` is `a`, plus `b` when `k` is in `s`, sums to
      `a` per key plus `b` per key in `s`. */
  lemma {:induction false} SumOfAffine<K>(ks: seq<K>, m: map<K, real>, s: set<K>, a: real, b: real)
    requires forall k | k in ks :: k in m && m[k] == a + (if k in s then b else 0.0)
    ensures Sum(ks, m) == Times(|ks|, a) + Times(CountIn(ks, s), b)
  {
    if ks != [] {
      SumOfAffine(ks[..|ks| - 1], m, s, a, b);
    }
  }

  /** The same sum over a repetition-free sequence that covers `s`: `a` per
      key plus `b` per element of `s`. */
  lemma SumOfAffineCovering<K>(ks: seq<K>, m: map<K, real>, s: set<K>, a: real, b: real)
    requires Distinct(ks) && s <= Elems(ks)
    requires forall k | k in ks :: k in m && m[k] == a + (if k in s then b else 0.0)
    ensures Sum(ks, m) == Times(|ks|, a) + Times(|s|, b)
  {
    SumOfAffine(ks, m, s, a, b);
    CountInDistinct(ks, s);
    assert s * Elems(ks) == s;
  }

  /** `k` equal shares of `total` add up to `total` again, and are
      non-negative when the total is. */
  lemma Shares(k: nat, total: real)
    requires k > 0
    ensures total >= 0.0 ==> total / (k as real) >= 0.0
    ensures Times(k, total / (k as real)) == total
  {
    TimesIsProduct(k, total / (k as real));
  }

  /** A sum of non-negative terms is non-negative. */
  lemma {:induction false} SumNonNegative<K>(ks: seq<K>, m: map<K, real>)
    requires forall k | k in ks :: k in m && m[k] >= 0.0
    ensures Sum(ks, m) >= 0.0
  {
    if ks != [] {
      SumNonNegative(ks[..|ks| - 1], m);
    }
  }

  /** A non-negative term is at most the sum of all the terms. */
  lemma {:induction false} TermAtMostSum<K>(ks: seq<K>, m: map<K, real>, k: K)
    requires forall j | j in ks :: j in m && m[j] >= 0.0
    requires k in ks
    ensures m[k] <= Sum(ks, m)
  {
    var init, last := ks[..|ks| - 1], ks[|ks| - 1];
    SumNonNegative(init, m);
    if k != last {
      assert k in init;
      TermAtMostSum(init, m, k);
    }
  }

  /** Termwise smaller terms have a smaller sum. */
  lemma {:induction false} SumMonotone<K>(ks: seq<K>, a: map<K, real>, b: map<K, real>)
    requires forall k | k in ks :: k in a && k in b && a[k] <= b[k]
    ensures Sum(ks, a) <= Sum(ks, b)
  {
    if ks != [] {
      SumMonotone(ks[..|ks| - 1], a, b);
    }
  }
}
