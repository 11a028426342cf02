/**
 * A Python `dict` seen through its `items()`: the (key, value) pairs in
 * insertion order, no key twice. `Put` is `d[k] = v` (an existing key keeps
 * its position and takes the new value; a new key goes last) and `PutAll` is
 * dict unpacking, `{**d, **ps}`.
 */
module Dicts {
  import opened Wrappers
  import opened Bytes
  import opened FormEncoding

  function Keys(d: seq<Pair>): set<Text> {
    if d == [] then {} else {d[0].0} + Keys(d[1..])
  }

  /** No key occurs twice: what every `dict` guarantees of its items. */
  predicate DistinctKeys(d: seq<Pair>) {
    d == [] || (d[0].0 !in Keys(d[1..]) && DistinctKeys(d[1..]))
  }

  /** `d[k] = v` */
  function Put(d: seq<Pair>, k: Text, v: Text): (r: seq<Pair>)
    ensures Keys(r) == Keys(d) + {k}
  {
    if d == [] then [(k, v)]
    else if d[0].0 == k then [(k, v)] + d[1..]
    else [d[0]] + Put(d[1..], k, v)
  }

  /** `{**d, **ps}`: the pairs of `ps` put into `d` one after another. */
  function PutAll(d: seq<Pair>, ps: seq<Pair>): (r: seq<Pair>)
    ensures Keys(r) == Keys(d) + Keys(ps)
    decreases ps
  {
    if ps == [] then d else PutAll(Put(d, ps[0].0, ps[0].1), ps[1..])
  }

  /** The pairs of `d` whose key is not in `ks`, in order. */
  function Drop(d: seq<Pair>, ks: set<Text>): seq<Pair> {
    if d == [] then []
    else (if d[0].0 in ks then [] else [d[0]]) + Drop(d[1..], ks)
  }

  /** A key of `d` is the key of one of its pairs. */
  lemma {:induction false} KeyAt(d: seq<Pair>, k: Text)
    ensures k in Keys(d) <==> exists i | 0 <= i < |d| :: d[i].0 == k
  {
    if d != [] {
      KeyAt(d[1..], k);
      if k in Keys(d[1..]) {
        var i :| 0 <= i < |d[1..]| && d[1..][i].0 == k;
        assert d[i + 1].0 == k;
      }
      if exists i | 0 <= i < |d| :: d[i].0 == k {
        var i :| 0 <= i < |d| && d[i].0 == k;
        if i > 0 {
          assert d[1..][i - 1].0 == k;
        }
      }
    }
  }

  lemma {:induction false} KeyOfMember(d: seq<Pair>, p: Pair)
    requires p in d
    ensures p.0 in Keys(d)
  {
    if d[0] != p {
      KeyOfMember(d[1..], p);
    }
  }

  /** Distinct keys, stated index by index. */
  lemma {:induction false} DistinctKeysAt(d: seq<Pair>, i: nat, j: nat)
    requires DistinctKeys(d) && i < j < |d|
    ensures d[i].0 != d[j].0
  {
    if i == 0 {
      KeyOfMember(d[1..], d[j]);
    } else {
      DistinctKeysAt(d[1..], i - 1, j - 1);
    }
  }

  lemma {:induction false} PutDistinct(d: seq<Pair>, k: Text, v: Text)
    requires DistinctKeys(d)
    ensures DistinctKeys(Put(d, k, v))
  {
    if d != [] && d[0].0 != k {
      PutDistinct(d[1..], k, v);
      assert Put(d, k, v)[1..] == Put(d[1..], k, v);
    }
  }

  lemma {:induction false} PutAllDistinct(d: seq<Pair>, ps: seq<Pair>)
    requires DistinctKeys(d)
    ensures DistinctKeys(PutAll(d, ps))
    decreases ps
  {
    if ps != [] {
      PutDistinct(d, ps[0].0, ps[0].1);
      PutAllDistinct(Put(d, ps[0].0, ps[0].1), ps[1..]);
    }
  }

  lemma {:induction false} DropIgnoresAbsentKey(d: seq<Pair>, ks: set<Text>, k: Text)
    requires k !in Keys(d)
    ensures Drop(d, ks) == Drop(d, ks + {k})
  {
    if d != [] {
      DropIgnoresAbsentKey(d[1..], ks, k);
    }
  }

  lemma DropCons(p: Pair, d: seq<Pair>, ks: set<Text>)
    ensures Drop([p] + d, ks) == (if p.0 in ks then [] else [p]) + Drop(d, ks)
  {
  }

  /** Putting a key that is then dropped with others: the new pair is all that survives of it. */
  lemma {:induction false} DropPut(d: seq<Pair>, k: Text, v: Text, ks: set<Text>)
    requires DistinctKeys(d) && k !in ks
    ensures multiset(Drop(Put(d, k, v), ks)) == multiset(Drop(d, ks + {k})) + multiset{(k, v)}
    decreases |d|, 1
  {
    if d == [] {
      assert Drop([(k, v)], ks) == [(k, v)];
    } else if d[0].0 == k {
      DropPutReplace(d, k, v, ks);
    } else {
      DropPutPass(d, k, v, ks);
    }
  }

  lemma DropPutReplace(d: seq<Pair>, k: Text, v: Text, ks: set<Text>)
    requires DistinctKeys(d) && k !in ks && d != [] && d[0].0 == k
    ensures multiset(Drop(Put(d, k, v), ks)) == multiset(Drop(d, ks + {k})) + multiset{(k, v)}
  {
    DropIgnoresAbsentKey(d[1..], ks, k);
    assert Put(d, k, v) == [(k, v)] + d[1..];
    DropCons((k, v), d[1..], ks);
    assert d == [d[0]] + d[1..];
    DropCons(d[0], d[1..], ks + {k});
  }

  lemma {:induction false} DropPutPass(d: seq<Pair>, k: Text, v: Text, ks: set<Text>)
    requires DistinctKeys(d) && k !in ks && d != [] && d[0].0 != k
    ensures multiset(Drop(Put(d, k, v), ks)) == multiset(Drop(d, ks + {k})) + multiset{(k, v)}
    decreases |d|, 0
  {
    var tail := Put(d[1..], k, v);
    DropPut(d[1..], k, v, ks);
    assert Put(d, k, v) == [d[0]] + tail;
    DropCons(d[0], tail, ks);
    assert d == [d[0]] + d[1..];
    DropCons(d[0], d[1..], ks + {k});
    if d[0].0 in ks {
      assert Drop(d, ks + {k}) == Drop(d[1..], ks + {k});
      assert Drop(Put(d, k, v), ks) == Drop(tail, ks);
    } else {
      assert d[0].0 !in ks + {k};
      assert Drop(d, ks + {k}) == [d[0]] + Drop(d[1..], ks + {k});
      assert Drop(Put(d, k, v), ks) == [d[0]] + Drop(tail, ks);
    }
  }

  lemma {:induction false} DropNothing(d: seq<Pair>)
    ensures Drop(d, {}) == d
  {
    if d != [] {
      DropNothing(d[1..]);
      assert d == [d[0]] + d[1..];
    }
  }

  /**
   * Dict unpacking keeps every pair of `ps` and those pairs of `d` whose key
   * `ps` does not override: as a multiset, independent of insertion order.
   */
  lemma {:induction false} PutAllPairs(d: seq<Pair>, ps: seq<Pair>)
    requires DistinctKeys(d) && DistinctKeys(ps)
    ensures multiset(PutAll(d, ps)) == multiset(Drop(d, Keys(ps))) + multiset(ps)
    decreases ps
  {
    if ps == [] {
      DropNothing(d);
    } else {
      var k, v := ps[0].0, ps[0].1;
      PutDistinct(d, k, v);
      PutAllPairs(Put(d, k, v), ps[1..]);
      DropPut(d, k, v, Keys(ps[1..]));
      assert Keys(ps) == Keys(ps[1..]) + {k};
      assert multiset(ps) == multiset{(k, v)} + multiset(ps[1..]) by {
        assert ps == [ps[0]] + ps[1..];
      }
    }
  }

  /** In a sequence without repeated keys, no pair occurs twice. */
  lemma {:induction false} DistinctKeysMultiplicity(d: seq<Pair>, p: Pair)
    requires DistinctKeys(d)
    ensures multiset(d)[p] == if p in d then 1 else 0
  {
    if d != [] {
      DistinctKeysMultiplicity(d[1..], p);
      assert d == [d[0]] + d[1..];
      if p == d[0] && p in d[1..] {
        KeyOfMember(d[1..], p);
      }
    }
  }

  /** Two dicts holding the same pairs hold them with the same multiplicities. */
  lemma SamePairsSameMultiset(d: seq<Pair>, e: seq<Pair>)
    requires DistinctKeys(d) && DistinctKeys(e)
    requires forall p :: p in d <==> p in e
    ensures multiset(d) == multiset(e)
  {
    forall p ensures multiset(d)[p] == multiset(e)[p] {
      DistinctKeysMultiplicity(d, p);
      DistinctKeysMultiplicity(e, p);
    }
  }

  /** `d.get(k)`: the value stored under `k`, if any. */
  function Get(d: seq<Pair>, k: Text): Option<Text> {
    if d == [] then None else if d[0].0 == k then Some(d[0].1) else Get(d[1..], k)
  }

  /** In a dict, the value stored under a key is the one paired with it. */
  lemma {:induction false} GetMember(d: seq<Pair>, k: Text, v: Text)
    requires DistinctKeys(d) && (k, v) in d
    ensures Get(d, k) == Some(v)
  {
    if d[0] != (k, v) {
      if d[0].0 == k {
        KeyOfMember(d[1..], (k, v));
      }
      GetMember(d[1..], k, v);
    }
  }

  lemma {:induction false} GetAbsent(d: seq<Pair>, k: Text)
    requires k !in Keys(d)
    ensures Get(d, k) == None
  {
    if d != [] {
      GetAbsent(d[1..], k);
    }
  }

  /** Two sequences holding the same pairs have the same keys. */
  lemma SameMembersSameKeys(d: seq<Pair>, e: seq<Pair>)
    requires forall p :: p in d <==> p in e
    ensures Keys(d) == Keys(e)
  {
    forall k | k in Keys(d) ensures k in Keys(e) {
      KeyAt(d, k);
      var i :| 0 <= i < |d| && d[i].0 == k;
      KeyOfMember(e, d[i]);
    }
    forall k | k in Keys(e) ensures k in Keys(d) {
      KeyAt(e, k);
      var i :| 0 <= i < |e| && e[i].0 == k;
      KeyOfMember(d, e[i]);
    }
  }
}
