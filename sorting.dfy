/**
 * `sorted(items)` on a list of (key, value) tuples. Python compares tuples
 * lexicographically: by key, then by value. The order is total, so whatever
 * algorithm `sorted` runs, its output is the one ascending permutation of its
 * input (`SortedUnique`); insertion sort is used here to compute it.
 */
module Sorting {
  import opened Bytes
  import opened FormEncoding
  import opened Dicts

  /** Tuple `<` on (key, value) pairs. */
  predicate PairBelow(p: Pair, q: Pair) {
    Below(p.0, q.0) || (p.0 == q.0 && Below(p.1, q.1))
  }

  predicate Leq(p: Pair, q: Pair) {
    p == q || PairBelow(p, q)
  }

  lemma PairBelowIrreflexive(p: Pair)
    ensures !PairBelow(p, p)
  {
    BelowIrreflexive(p.0);
    BelowIrreflexive(p.1);
  }

  lemma PairBelowTransitive(p: Pair, q: Pair, r: Pair)
    requires PairBelow(p, q) && PairBelow(q, r)
    ensures PairBelow(p, r)
  {
    if Below(p.0, q.0) && Below(q.0, r.0) {
      BelowTransitive(p.0, q.0, r.0);
    } else if p.0 == q.0 && q.0 == r.0 {
      BelowTransitive(p.1, q.1, r.1);
    }
  }

  lemma PairTotal(p: Pair, q: Pair)
    ensures Leq(p, q) || PairBelow(q, p)
  {
    BelowTotal(p.0, q.0);
    BelowTotal(p.1, q.1);
  }

  lemma LeqTransitive(p: Pair, q: Pair, r: Pair)
    requires Leq(p, q) && Leq(q, r)
    ensures Leq(p, r)
  {
    if p != q && q != r {
      PairBelowTransitive(p, q, r);
    }
  }

  lemma LeqAntisymmetric(p: Pair, q: Pair)
    requires Leq(p, q) && Leq(q, p)
    ensures p == q
  {
    if p != q {
      PairBelowTransitive(p, q, p);
      PairBelowIrreflexive(p);
    }
  }

  /** Each pair is at most its successor. */
  predicate Sorted(s: seq<Pair>) {
    |s| <= 1 || (Leq(s[0], s[1]) && Sorted(s[1..]))
  }

  /** Sortedness, stated for every two positions. */
  lemma {:induction false} SortedAt(s: seq<Pair>, i: nat, j: nat)
    requires Sorted(s) && i <= j < |s|
    ensures Leq(s[i], s[j])
  {
    if 0 < i {
      SortedAt(s[1..], i - 1, j - 1);
    } else if 0 < j {
      SortedAt(s[1..], 0, j - 1);
      LeqTransitive(s[0], s[1], s[j]);
    }
  }

  /** Insert `p` into a sorted list, before the first pair it does not exceed. */
  function Insert(p: Pair, s: seq<Pair>): (r: seq<Pair>)
    ensures multiset(r) == multiset(s) + multiset{p}
    ensures r[0] == p || (s != [] && r[0] == s[0])
    ensures Sorted(s) ==> Sorted(r)
  {
    if s == [] then [p]
    else if Leq(p, s[0]) then [p] + s
    else
      PairTotal(p, s[0]);
      var r := [s[0]] + Insert(p, s[1..]);
      assert r[1..] == Insert(p, s[1..]);
      assert s == [s[0]] + s[1..];
      r
  }

  /** `sorted(s)` */
  function SortItems(s: seq<Pair>): (r: seq<Pair>)
    ensures Sorted(r)
    ensures multiset(r) == multiset(s)
  {
    if s == [] then []
    else
      assert s == [s[0]] + s[1..];
      Insert(s[0], SortItems(s[1..]))
  }

  /** The least element of a sorted list comes first. */
  lemma HeadIsLeast(s: seq<Pair>, p: Pair)
    requires Sorted(s) && p in s
    ensures Leq(s[0], p)
  {
    var j :| 0 <= j < |s| && s[j] == p;
    SortedAt(s, 0, j);
  }

  /** A sorted arrangement of a multiset of pairs is unique. */
  lemma {:induction false} SortedUnique(a: seq<Pair>, b: seq<Pair>)
    requires Sorted(a) && Sorted(b) && multiset(a) == multiset(b)
    ensures a == b
  {
    if a != [] {
      assert a[0] in multiset(a);
      assert b != [];
      assert b[0] in multiset(b);
      HeadIsLeast(b, a[0]);
      HeadIsLeast(a, b[0]);
      LeqAntisymmetric(a[0], b[0]);
      assert a == [a[0]] + a[1..] && b == [b[0]] + b[1..];
      assert multiset(a) == multiset{a[0]} + multiset(a[1..]);
      assert multiset(b) == multiset{b[0]} + multiset(b[1..]);
      assert multiset(a[1..]) == multiset(a) - multiset{a[0]};
      assert multiset(b[1..]) == multiset(b) - multiset{b[0]};
      SortedUnique(a[1..], b[1..]);
    } else {
      assert |multiset(b)| == 0;
    }
  }

  /** Sorting looks only at the pairs, not at the order they came in. */
  lemma SortPermutationInvariant(s: seq<Pair>, t: seq<Pair>)
    requires multiset(s) == multiset(t)
    ensures SortItems(s) == SortItems(t)
  {
    SortedUnique(SortItems(s), SortItems(t));
  }

  lemma {:induction false} InsertKeys(p: Pair, s: seq<Pair>)
    ensures Keys(Insert(p, s)) == Keys(s) + {p.0}
    ensures DistinctKeys(s) && p.0 !in Keys(s) ==> DistinctKeys(Insert(p, s))
  {
    if s != [] && !Leq(p, s[0]) {
      InsertKeys(p, s[1..]);
      assert Insert(p, s)[1..] == Insert(p, s[1..]);
    }
  }

  /** Sorting a dict's items keeps its keys, each once. */
  lemma {:induction false} SortKeys(s: seq<Pair>)
    ensures Keys(SortItems(s)) == Keys(s)
    ensures DistinctKeys(s) ==> DistinctKeys(SortItems(s))
  {
    if s != [] {
      SortKeys(s[1..]);
      InsertKeys(s[0], SortItems(s[1..]));
    }
  }

  /** Keys strictly increase from each pair to every later one. */
  predicate StrictlyAscendingKeys(s: seq<Pair>) {
    forall i, j | 0 <= i < j < |s| :: Below(s[i].0, s[j].0)
  }

  /** A sorted dict lists its keys in strictly ascending order. */
  lemma SortedDictAscending(s: seq<Pair>)
    requires Sorted(s) && DistinctKeys(s)
    ensures StrictlyAscendingKeys(s)
  {
    forall i, j | 0 <= i < j < |s| ensures Below(s[i].0, s[j].0) {
      SortedAt(s, i, j);
      DistinctKeysAt(s, i, j);
    }
  }
}
