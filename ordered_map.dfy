/** Insertion-ordered dictionaries, as Python's `dict` and
    `collections.OrderedDict` behave: assigning a key that is not yet
    present appends it, assigning a present key keeps its position and
    replaces its value. `dict(pairs)` is the same as assigning the pairs
    one by one, so a later duplicate key overwrites an earlier one but the
    key stays where it first appeared. */
module OrderedMaps {

  /** An ordered map: the keys in insertion order and the key-value map. */
  datatype OMap<K, V> = OMap(keys: seq<K>, vals: map<K, V>)

  ghost predicate Distinct<K>(s: seq<K>) {
    forall i, j :: 0 <= i < j < |s| ==> s[i] != s[j]
  }

  /** Every key is listed exactly once and the listed keys are the keys
      of the map. */
  ghost predicate WellFormed<K, V>(m: OMap<K, V>) {
    Distinct(m.keys) && m.vals.Keys == Elems(m.keys)
  }

  function Empty<K(==), V>(): (m: OMap<K, V>)
    ensures WellFormed(m) && m.keys == []
  {
    OMap([], map[])
  }

  /** `m[k] = v`. */
  function Put<K(==), V>(m: OMap<K, V>, k: K, v: V): (r: OMap<K, V>)
    requires WellFormed(m)
    ensures WellFormed(r)
    ensures k in r.vals && r.vals[k] == v
    ensures r.vals.Keys == m.vals.Keys + {k}
    ensures forall j :: j in m.vals && j != k ==> r.vals[j] == m.vals[j]
    ensures k in m.vals ==> r.keys == m.keys
    ensures k !in m.vals ==> r.keys == m.keys + [k]
  {
    if k in m.vals then OMap(m.keys, m.vals[k := v])
    else OMap(m.keys + [k], m.vals[k := v])
  }

  /** The keys of a list of pairs, in order. */
  function KeysOf<K(==), V>(xs: seq<(K, V)>): (r: seq<K>)
    ensures |r| == |xs| && forall i :: 0 <= i < |xs| ==> r[i] == xs[i].0
  {
    if xs == [] then [] else [xs[0].0] + KeysOf(xs[1..])
  }

  /** `dict(xs)`: the pairs assigned one after another into an empty map. */
  function Build<K(==), V>(xs: seq<(K, V)>): (m: OMap<K, V>)
    ensures WellFormed(m)
  {
    if xs == [] then Empty()
    else Put(Build(xs[..|xs| - 1]), xs[|xs| - 1].0, xs[|xs| - 1].1)
  }

  /** `m.items()`. */
  function Items<K(==), V>(m: OMap<K, V>): (r: seq<(K, V)>)
    requires WellFormed(m)
    ensures |r| == |m.keys|
    ensures forall i :: 0 <= i < |r| ==> r[i].0 == m.keys[i] && r[i].1 == m.vals[m.keys[i]]
  {
    seq(|m.keys|, i requires 0 <= i < |m.keys| => (m.keys[i], m.vals[m.keys[i]]))
  }

  // ---------------------------------------------------------------------
  // A reference description of Build: the keys are the distinct keys of
  // the pairs in order of first appearance, the value of a key is the value
  // of its last pair.
  // ---------------------------------------------------------------------

  function Elems<K(==)>(s: seq<K>): set<K> {
    set x | x in s
  }

  /** The elements of `s` not in `seen`, each once, in order of first
      appearance. */
  function DedupFrom<K(==)>(seen: set<K>, s: seq<K>): seq<K>
    decreases s
  {
    if s == [] then []
    else if s[0] in seen then DedupFrom(seen, s[1..])
    else [s[0]] + DedupFrom(seen + {s[0]}, s[1..])
  }

  function Dedup<K(==)>(s: seq<K>): seq<K> {
    DedupFrom({}, s)
  }

  /** The map in which each key takes the value of its last pair. */
  function LastMap<K(==), V>(xs: seq<(K, V)>): map<K, V> {
    if xs == [] then map[] else map[xs[0].0 := xs[0].1] + LastMap(xs[1..])
  }

  lemma {:induction false} DedupFromAppend<K>(seen: set<K>, a: seq<K>, b: seq<K>)
    ensures DedupFrom(seen, a + b) == DedupFrom(seen, a) + DedupFrom(seen + Elems(a), b)
    decreases a
  {
    if a == [] {
      assert a + b == b;
      assert seen + Elems(a) == seen;
    } else {
      assert (a + b)[0] == a[0] && (a + b)[1..] == a[1..] + b;
      assert Elems(a) == {a[0]} + Elems(a[1..]);
      if a[0] in seen {
        DedupFromAppend(seen, a[1..], b);
        assert seen + Elems(a) == seen + Elems(a[1..]);
      } else {
        DedupFromAppend(seen + {a[0]}, a[1..], b);
        assert seen + {a[0]} + Elems(a[1..]) == seen + Elems(a);
      }
    }
  }

  lemma {:induction false} DedupFromTwice<K>(s: set<K>, t: set<K>, b: seq<K>)
    ensures DedupFrom(s, DedupFrom(t, b)) == DedupFrom(s + t, b)
    decreases b
  {
    if b != [] {
      var x := b[0];
      if x in t {
        DedupFromTwice(s, t, b[1..]);
      } else {
        var d := DedupFrom(t + {x}, b[1..]);
        assert DedupFrom(t, b) == [x] + d;
        assert ([x] + d)[0] == x && ([x] + d)[1..] == d;
        DedupFromTwice(s, t + {x}, b[1..]);
        if x in s {
          assert s + (t + {x}) == s + t;
        } else {
          DedupFromTwice(s + {x}, t + {x}, b[1..]);
          assert s + {x} + (t + {x}) == s + t + {x};
        }
      }
    }
  }

  lemma {:induction false} DedupFromDistinct<K>(seen: set<K>, s: seq<K>)
    requires Distinct(s) && forall i :: 0 <= i < |s| ==> s[i] !in seen
    ensures DedupFrom(seen, s) == s
    decreases s
  {
    if s != [] {
      DedupFromDistinct(seen + {s[0]}, s[1..]);
    }
  }

  lemma {:induction false} KeysOfAppend<K, V>(a: seq<(K, V)>, b: seq<(K, V)>)
    ensures KeysOf(a + b) == KeysOf(a) + KeysOf(b)
  {
  }

  lemma {:induction false} LastMapAppend<K, V>(a: seq<(K, V)>, b: seq<(K, V)>)
    ensures LastMap(a + b) == LastMap(a) + LastMap(b)
  {
    if a == [] {
      assert a + b == b;
    } else {
      var ab := a + b;
      var head := map[a[0].0 := a[0].1];
      assert ab[0] == a[0] && ab[1..] == a[1..] + b;
      LastMapAppend(a[1..], b);
      UnionAssociative(head, LastMap(a[1..]), LastMap(b));
    }
  }

  /** Map union regroups; stated apart so that it is proved without the
      definition of `LastMap` in view. */
  lemma UnionAssociative<K, V>(x: map<K, V>, y: map<K, V>, z: map<K, V>)
    ensures x + (y + z) == (x + y) + z
  {
  }

  lemma {:induction false} LastMapKeys<K, V>(xs: seq<(K, V)>)
    ensures LastMap(xs).Keys == Elems(KeysOf(xs))
  {
    if xs != [] {
      LastMapKeys(xs[1..]);
      assert KeysOf(xs) == [xs[0].0] + KeysOf(xs[1..]);
    }
  }

  /** The value of a key is that of its last pair. */
  lemma {:induction false} LastMapAt<K, V>(xs: seq<(K, V)>, i: nat)
    requires i < |xs|
    requires forall j :: i < j < |xs| ==> xs[j].0 != xs[i].0
    ensures xs[i].0 in LastMap(xs) && LastMap(xs)[xs[i].0] == xs[i].1
  {
    if i == 0 {
      LastMapKeys(xs[1..]);
      assert xs[0].0 !in Elems(KeysOf(xs[1..]));
    } else {
      LastMapAt(xs[1..], i - 1);
    }
  }

  /** Build agrees with the reference description. */
  lemma {:induction false} BuildIsDedupAndLast<K, V>(xs: seq<(K, V)>)
    ensures Build(xs) == OMap(Dedup(KeysOf(xs)), LastMap(xs))
  {
    if xs != [] {
      var init, x := xs[..|xs| - 1], xs[|xs| - 1];
      assert xs == init + [x];
      BuildIsDedupAndLast(init);
      var ks := KeysOf(init);
      var l := LastMap(init);
      assert Build(xs) == Put(OMap(Dedup(ks), l), x.0, x.1);
      KeysOfSnoc(init, x);
      DedupSnoc(ks, x.0);
      LastMapSnoc(init, x);
      LastMapKeys(init);
    }
  }

  lemma {:induction false} KeysOfSnoc<K, V>(xs: seq<(K, V)>, x: (K, V))
    ensures KeysOf(xs + [x]) == KeysOf(xs) + [x.0]
  {
    KeysOfAppend(xs, [x]);
    assert KeysOf([x]) == [x.0];
  }

  lemma {:induction false} DedupSnoc<K>(s: seq<K>, k: K)
    ensures Dedup(s + [k]) == Dedup(s) + (if k in Elems(s) then [] else [k])
  {
    DedupFromAppend({}, s, [k]);
    assert {} + Elems(s) == Elems(s);
    assert DedupFrom(Elems(s), [k]) == if k in Elems(s) then [] else [k] by {
      assert [k][1..] == [];
    }
  }

  lemma {:induction false} LastMapSnoc<K, V>(xs: seq<(K, V)>, x: (K, V))
    ensures LastMap(xs + [x]) == LastMap(xs)[x.0 := x.1]
  {
    LastMapAppend(xs, [x]);
    assert LastMap([x]) == map[x.0 := x.1] by {
      assert [x][1..] == [];
    }
  }

  /** Two pair lists build the same map exactly when they have the same
      keys in order of first appearance and the same last values. */
  lemma {:induction false} BuildEq<K, V>(xs: seq<(K, V)>, ys: seq<(K, V)>)
    ensures Build(xs) == Build(ys) <==>
            Dedup(KeysOf(xs)) == Dedup(KeysOf(ys)) && LastMap(xs) == LastMap(ys)
  {
    BuildIsDedupAndLast(xs);
    BuildIsDedupAndLast(ys);
  }

  /** A key is present exactly when some pair has it, and its value is the
      value of the last pair that has it. */
  lemma {:induction false} BuildLookup<K, V>(xs: seq<(K, V)>, i: nat)
    requires i < |xs|
    requires forall j :: i < j < |xs| ==> xs[j].0 != xs[i].0
    ensures xs[i].0 in Build(xs).vals && Build(xs).vals[xs[i].0] == xs[i].1
  {
    BuildIsDedupAndLast(xs);
    LastMapAt(xs, i);
  }

  lemma {:induction false} BuildHasKey<K, V>(xs: seq<(K, V)>, k: K)
    ensures k in Build(xs).vals <==> exists i :: 0 <= i < |xs| && xs[i].0 == k
  {
    BuildIsDedupAndLast(xs);
    LastMapKeys(xs);
    if k in Build(xs).vals {
      assert k in KeysOf(xs);
    }
  }

  /** The keys a list of pairs introduces come first, in the same
      positions, in the map built from any extension of it. */
  lemma {:induction false} BuildKeepsPositions<K, V>(a: seq<(K, V)>, b: seq<(K, V)>)
    ensures |Build(a).keys| <= |Build(a + b).keys|
    ensures Build(a + b).keys[..|Build(a).keys|] == Build(a).keys
  {
    BuildIsDedupAndLast(a);
    BuildIsDedupAndLast(a + b);
    KeysOfAppend(a, b);
    DedupFromAppend({}, KeysOf(a), KeysOf(b));
  }

  /** Build is a congruence for concatenation: only the maps built from
      the parts matter. */
  lemma {:induction false} BuildAppendCongruent<K, V>(a: seq<(K, V)>, a': seq<(K, V)>, b: seq<(K, V)>, b': seq<(K, V)>)
    requires Build(a) == Build(a') && Build(b) == Build(b')
    ensures Build(a + b) == Build(a' + b')
  {
    BuildIsDedupAndLast(a);
    BuildIsDedupAndLast(a');
    BuildIsDedupAndLast(b);
    BuildIsDedupAndLast(b');
    BuildIsDedupAndLast(a + b);
    BuildIsDedupAndLast(a' + b');
    LastMapKeys(a);
    LastMapKeys(a');
    KeysOfAppend(a, b);
    KeysOfAppend(a', b');
    DedupAppendCongruent(KeysOf(a), KeysOf(a'), KeysOf(b), KeysOf(b'));
    LastMapAppend(a, b);
    LastMapAppend(a', b');
  }

  lemma {:induction false} DedupAppendCongruent<K>(ka: seq<K>, ka': seq<K>, kb: seq<K>, kb': seq<K>)
    requires Dedup(ka) == Dedup(ka') && Elems(ka) == Elems(ka') && Dedup(kb) == Dedup(kb')
    ensures Dedup(ka + kb) == Dedup(ka' + kb')
  {
    DedupFromAppend({}, ka, kb);
    DedupFromAppend({}, ka', kb');
    var s := {} + Elems(ka);
    DedupFromTwice(s, {}, kb);
    DedupFromTwice(s, {}, kb');
    assert s + {} == s;
  }

  /** `dict(m.items()) == m`. */
  lemma {:induction false} BuildItems<K, V>(m: OMap<K, V>)
    requires WellFormed(m)
    ensures Build(Items(m)) == m
  {
    var xs := Items(m);
    assert KeysOf(xs) == m.keys;
    BuildOfListing(xs, m);
  }

  /** Pairs that list a well-formed map's keys in order, each with its
      value, build that map. */
  lemma {:induction false} BuildOfListing<K, V>(xs: seq<(K, V)>, m: OMap<K, V>)
    requires WellFormed(m) && KeysOf(xs) == m.keys
    requires forall i :: 0 <= i < |xs| ==> xs[i].1 == m.vals[m.keys[i]]
    ensures Build(xs) == m
  {
    BuildDistinct(xs);
    var b := Build(xs);
    assert b.vals.Keys == m.vals.Keys;
    forall k | k in m.vals ensures b.vals[k] == m.vals[k] {
      var i :| 0 <= i < |m.keys| && m.keys[i] == k;
      assert xs[i].0 == k;
    }
  }

  /** With distinct keys nothing is overwritten: the map lists the pairs
      as given. */
  lemma {:induction false} BuildDistinct<K, V>(xs: seq<(K, V)>)
    requires Distinct(KeysOf(xs))
    ensures Build(xs).keys == KeysOf(xs)
    ensures forall i :: 0 <= i < |xs| ==> Build(xs).vals[xs[i].0] == xs[i].1
  {
    BuildIsDedupAndLast(xs);
    DedupFromDistinct({}, KeysOf(xs));
    LastMapDistinct(xs);
  }

  lemma {:induction false} LastMapDistinct<K, V>(xs: seq<(K, V)>)
    requires Distinct(KeysOf(xs))
    ensures forall i :: 0 <= i < |xs| ==> xs[i].0 in LastMap(xs) && LastMap(xs)[xs[i].0] == xs[i].1
  {
    var ks := KeysOf(xs);
    forall i | 0 <= i < |xs| ensures xs[i].0 in LastMap(xs) && LastMap(xs)[xs[i].0] == xs[i].1 {
      forall j | i < j < |xs| ensures xs[j].0 != xs[i].0 {
        assert ks[i] != ks[j];
      }
      LastMapAt(xs, i);
    }
  }

  /** An `OrderedDict` that is updated in place. */
  class OrderedDict<K(==), V> {
    var keys: seq<K>
    var vals: map<K, V>

    function Model(): OMap<K, V>
      reads this
    {
      OMap(keys, vals)
    }

    ghost predicate Valid()
      reads this
    {
      WellFormed(Model())
    }

    constructor ()
      ensures Valid() && Model() == Empty()
    {
      keys, vals := [], map[];
    }

    /** `self[k] = v`. */
    method Set(k: K, v: V)
      requires Valid()
      modifies this
      ensures Valid() && Model() == Put(old(Model()), k, v)
    {
      if k !in vals {
        keys := keys + [k];
      }
      vals := vals[k := v];
    }
  }
}
