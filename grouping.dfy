/** A `defaultdict(list)` filled by `groups[key].append(value)`, as an association list in the
    order keys first appear (Python dicts keep insertion order). */
module Grouping {

  type Groups<K, V> = seq<(K, seq<V>)>

  predicate HasKey<K(==), V(==)>(g: Groups<K, V>, k: K)
  {
    exists i :: 0 <= i < |g| && g[i].0 == k
  }

  predicate DistinctKeys<K(==), V(==)>(g: Groups<K, V>)
  {
    forall i, j :: 0 <= i < j < |g| ==> g[i].0 != g[j].0
  }

  /** Position of key `k`, or -1 when it has no group yet (the dictionary lookup). */
  function FindKey<K(==), V(==)>(g: Groups<K, V>, k: K): (i: int)
    ensures -1 <= i < |g|
    ensures i >= 0 ==> g[i].0 == k
    ensures i < 0 <==> !HasKey(g, k)
  {
    if |g| == 0 then -1
    else if g[|g| - 1].0 == k then |g| - 1
    else FindKey(g[..|g| - 1], k)
  }

  /** `groups[k].append(v)`: extend the group of `k`, or open a new group at the end. */
  function Append<K(==), V(==)>(g: Groups<K, V>, k: K, v: V): Groups<K, V>
  {
    var i := FindKey(g, k);
    if i < 0 then g + [(k, [v])] else g[i := (k, g[i].1 + [v])]
  }

  /** The dictionary after appending every pair in order. */
  function GroupBy<K(==), V(==)>(ps: seq<(K, V)>): Groups<K, V>
  {
    if |ps| == 0 then [] else Append(GroupBy(ps[..|ps| - 1]), ps[|ps| - 1].0, ps[|ps| - 1].1)
  }

  /** The values paired with key `k`, in input order: the reference definition of one group. */
  function Select<K(==), V(==)>(ps: seq<(K, V)>, k: K): seq<V>
  {
    if |ps| == 0 then []
    else Select(ps[..|ps| - 1], k) + (if ps[|ps| - 1].0 == k then [ps[|ps| - 1].1] else [])
  }

  /** The pairs a dictionary holds, group after group. */
  function Pairs<K(==), V(==)>(g: Groups<K, V>): seq<(K, V)>
  {
    if |g| == 0 then [] else Pairs(g[..|g| - 1]) + Tag(g[|g| - 1].0, g[|g| - 1].1)
  }

  function Tag<K(==), V(==)>(k: K, vs: seq<V>): seq<(K, V)>
  {
    seq(|vs|, i requires 0 <= i < |vs| => (k, vs[i]))
  }

  /** `g` is the grouping of `ps`: one group per distinct key, each non-empty and holding exactly the
      values of that key in input order, and a group for every key of the input. */
  predicate IsGrouping<K(==), V(==)>(ps: seq<(K, V)>, g: Groups<K, V>)
  {
    && DistinctKeys(g)
    && (forall i :: 0 <= i < |g| ==> |g[i].1| > 0 && g[i].1 == Select(ps, g[i].0))
    && (forall j :: 0 <= j < |ps| ==> HasKey(g, ps[j].0))
  }

  lemma {:induction false} SelectAbsent<K, V>(ps: seq<(K, V)>, k: K)
    requires forall j :: 0 <= j < |ps| ==> ps[j].0 != k
    ensures Select(ps, k) == []
  {
    if |ps| > 0 {
      SelectAbsent(ps[..|ps| - 1], k);
    }
  }

  /** Every value selected for `k` was paired with `k` in the input. */
  lemma {:induction false} SelectMember<K, V>(ps: seq<(K, V)>, k: K, v: V)
    requires v in Select(ps, k)
    ensures (k, v) in ps
  {
    var init := ps[..|ps| - 1];
    if v in Select(init, k) {
      SelectMember(init, k, v);
      assert (k, v) in init;
    }
  }

  lemma {:induction false} GroupByIsGrouping<K, V>(ps: seq<(K, V)>)
    ensures IsGrouping(ps, GroupBy(ps))
  {
    if |ps| > 0 {
      var init, k, v := ps[..|ps| - 1], ps[|ps| - 1].0, ps[|ps| - 1].1;
      var g := GroupBy(init);
      GroupByIsGrouping(init);
      var i := FindKey(g, k);
      var g' := Append(g, k, v);
      assert g' == GroupBy(ps);
      forall m | 0 <= m < |g'|
        ensures |g'[m].1| > 0 && g'[m].1 == Select(ps, g'[m].0)
      {
        if i < 0 && m == |g| {
          forall j | 0 <= j < |init| ensures init[j].0 != k {
            assert HasKey(g, init[j].0);
          }
          SelectAbsent(init, k);
        }
      }
      forall j | 0 <= j < |ps| ensures HasKey(g', ps[j].0) {
        if j < |init| {
          assert init[j] == ps[j];
          assert HasKey(g, ps[j].0);
          var w :| 0 <= w < |g| && g[w].0 == ps[j].0;
          assert g'[w].0 == ps[j].0;
        } else if i < 0 {
          assert g'[|g|].0 == k;
        } else {
          assert g'[i].0 == k;
        }
      }
    }
  }

  lemma {:induction false} PairsUpdate<K, V>(g: Groups<K, V>, i: int, vs: seq<V>)
    requires 0 <= i < |g|
    ensures multiset(Pairs(g[i := (g[i].0, vs)])) + multiset(Tag(g[i].0, g[i].1))
         == multiset(Pairs(g)) + multiset(Tag(g[i].0, vs))
  {
    var g' := g[i := (g[i].0, vs)];
    var n := |g|;
    var init, init' := g[..n - 1], g'[..n - 1];
    var t, t' := multiset(Tag(g[i].0, g[i].1)), multiset(Tag(g[i].0, vs));
    assert Pairs(g) == Pairs(init) + Tag(g[n - 1].0, g[n - 1].1);
    assert Pairs(g') == Pairs(init') + Tag(g'[n - 1].0, g'[n - 1].1);
    if i == n - 1 {
      assert init' == init;
      assert multiset(Pairs(g')) == multiset(Pairs(init)) + t';
      assert multiset(Pairs(g)) == multiset(Pairs(init)) + t;
    } else {
      assert init[i] == g[i];
      assert init' == init[i := (g[i].0, vs)];
      assert g'[n - 1] == g[n - 1];
      var last := multiset(Tag(g[n - 1].0, g[n - 1].1));
      PairsUpdate(init, i, vs);
      assert multiset(Pairs(init')) + t == multiset(Pairs(init)) + t';
      assert multiset(Pairs(g')) == multiset(Pairs(init')) + last;
      assert multiset(Pairs(g)) == multiset(Pairs(init)) + last;
      calc {
        multiset(Pairs(g')) + t;
        multiset(Pairs(init')) + t + last;
        multiset(Pairs(init)) + t' + last;
        multiset(Pairs(g)) + t';
      }
    }
  }

  /** Grouping moves pairs around and loses or duplicates none: the dictionary holds the same multiset
      of pairs as the input, so every pair lands in exactly one group. */
  lemma {:induction false} GroupByPairs<K, V>(ps: seq<(K, V)>)
    ensures multiset(Pairs(GroupBy(ps))) == multiset(ps)
  {
    if |ps| > 0 {
      var init, k, v := ps[..|ps| - 1], ps[|ps| - 1].0, ps[|ps| - 1].1;
      var g := GroupBy(init);
      GroupByPairs(init);
      assert ps == init + [(k, v)];
      assert multiset(ps) == multiset(init) + multiset{(k, v)};
      AppendPairs(g, k, v);
    }
  }

  lemma AppendPairs<K, V>(g: Groups<K, V>, k: K, v: V)
    ensures multiset(Pairs(Append(g, k, v))) == multiset(Pairs(g)) + multiset{(k, v)}
  {
    var i := FindKey(g, k);
    if i < 0 {
      AppendNewPairs(g, k, v);
    } else {
      var vs := g[i].1;
      var g' := g[i := (g[i].0, vs + [v])];
      assert Append(g, k, v) == g';
      PairsUpdate(g, i, vs + [v]);
      var t := multiset(Tag(k, vs));
      assert Tag(k, vs + [v]) == Tag(k, vs) + [(k, v)];
      assert multiset(Tag(k, vs + [v])) == t + multiset{(k, v)};
      assert multiset(Pairs(g')) + t == multiset(Pairs(g)) + multiset{(k, v)} + t;
      MultisetCancel(multiset(Pairs(g')), multiset(Pairs(g)) + multiset{(k, v)}, t);
    }
  }

  lemma AppendNewPairs<K, V>(g: Groups<K, V>, k: K, v: V)
    ensures Pairs(g + [(k, [v])]) == Pairs(g) + [(k, v)]
  {
    var g' := g + [(k, [v])];
    assert g'[..|g|] == g;
    assert Tag(k, [v]) == [(k, v)];
  }

  lemma MultisetCancel<T>(a: multiset<T>, b: multiset<T>, t: multiset<T>)
    requires a + t == b + t
    ensures a == b
  {
    forall x ensures a[x] == b[x] {
      assert (a + t)[x] == (b + t)[x];
    }
  }
}
