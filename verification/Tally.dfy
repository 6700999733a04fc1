/** Adding up the multisets stored under the keys of a map. */
module Tally {

  ghost function Total<K(!new), V(!new)>(m: map<K, multiset<V>>): multiset<V> {
    if m == map[] then multiset{}
    else
      var k :| k in m;
      m[k] + Total(m - {k})
  }

  /** The order in which keys are taken does not matter. */
  lemma {:induction false} TotalWithout<K(!new), V(!new)>(m: map<K, multiset<V>>, k: K)
    requires k in m
    ensures Total(m) == m[k] + Total(m - {k})
    decreases |m|
  {
    var c :| c in m && Total(m) == m[c] + Total(m - {c});
    if c != k {
      TotalWithout(m - {c}, k);
      TotalWithout(m - {k}, c);
      assert m - {c} - {k} == m - {k} - {c};
    }
  }

  lemma TotalUpdate<K(!new), V(!new)>(m: map<K, multiset<V>>, k: K, v: multiset<V>)
    ensures Total(m[k := v]) == v + Total(m - {k})
  {
    TotalWithout(m[k := v], k);
    assert m[k := v] - {k} == m - {k};
  }

  /** Exchanging one part of a total: what goes out and what comes in show in the total. */
  lemma Replace<V(!new)>(total: multiset<V>, total': multiset<V>, rest: multiset<V>, part: multiset<V>,
                         part': multiset<V>, out: multiset<V>, added: multiset<V>)
    requires total == rest + part && total' == rest + part' && part' + out == part + added
    ensures total' + out == total + added
  {
    forall v: V ensures (total' + out)[v] == (total + added)[v] {
      assert (part' + out)[v] == (part + added)[v];
    }
  }

  /** One entry moves in, another moves from the first account to the third; the books still balance. */
  lemma Balance<V(!new)>(p: multiset<V>, p': multiset<V>, e: multiset<V>, o: multiset<V>, d: multiset<V>,
                         r: multiset<V>, moved: multiset<V>)
    requires p' + moved == p + r
    ensures p + e + o + d + r == p' + e + (o + moved) + d
  {
    forall v: V ensures (p + e + o + d + r)[v] == (p' + e + (o + moved) + d)[v] {
      assert (p' + moved)[v] == (p + r)[v];
    }
  }
}
