/** `dict_flatten(d, parent_key='', sep='_')`: a nested mapping becomes a
    flat dict whose keys join the key path with `sep`. */
module Flatten {
  import opened Wrappers
  import opened OrderedMaps
  import PyStr

  /** A value stored in a mapping: a nested (mutable) mapping, or any
      other value, which is kept as it is. */
  datatype Value<T> = Leaf(value: T) | Nested(sub: Mapping<T>)

  /** A mapping as the (key, value) pairs its `items()` yields, in order. */
  datatype Mapping<T> = Mapping(entries: seq<(string, Value<T>)>)

  /** `parent_key + sep + k if parent_key else k`: an empty parent key is
      falsy, so it adds no separator. */
  function NewKey(parent: string, sep: string, k: string): string {
    if parent != "" then parent + sep + k else k
  }

  /** Reference: every plain value of the first `n` entries, depth first,
      under the key built from its whole key path. */
  function Leaves<T>(m: Mapping<T>, n: nat, parent: string, sep: string): seq<(string, T)>
    requires n <= |m.entries|
    decreases m, n, 1
  {
    if n == 0 then [] else Leaves(m, n - 1, parent, sep) + EntryLeaves(m, n - 1, parent, sep)
  }

  /** The leaves contributed by entry `i`: the entry itself under its new
      key when it is plain, the leaves of the nested mapping otherwise. */
  function EntryLeaves<T>(m: Mapping<T>, i: nat, parent: string, sep: string): seq<(string, T)>
    requires i < |m.entries|
    decreases m, i, 0
  {
    var k := m.entries[i].0;
    match m.entries[i].1
    case Leaf(x) => [(NewKey(parent, sep, k), x)]
    case Nested(s) => Leaves(s, |s.entries|, NewKey(parent, sep, k), sep)
  }

  function AllLeaves<T>(m: Mapping<T>, parent: string, sep: string): seq<(string, T)> {
    Leaves(m, |m.entries|, parent, sep)
  }

  /** One more entry, counted from the entries done so far. */
  lemma {:induction false} LeavesStep<T>(m: Mapping<T>, i: nat, parent: string, sep: string)
    requires i < |m.entries|
    ensures Leaves(m, i + 1, parent, sep) == Leaves(m, i, parent, sep) + EntryLeaves(m, i, parent, sep)
  {
  }

  /** `dict_flatten(d, parent_key, sep)`: loops over the items, recursing
      into nested mappings and extending the list with their flattened
      items; the list becomes a dict at the end. The result is the dict
      of all leaves under their joined key paths: flattening each nested
      mapping into a dict of its own first, as the recursion does, loses
      nothing, because a later pair overwrites an earlier one in both. */
  method DictFlatten<T>(d: Mapping<T>, parentKey: string, sep: string) returns (r: OMap<string, T>)
    ensures WellFormed(r)
    ensures r == Build(AllLeaves(d, parentKey, sep))
    decreases d, 2
  {
    var items := CollectItems(d, parentKey, sep);
    r := Build(items);
  }

  /** The loop of `dict_flatten`, which builds the `items` list: after `i`
      turns the list makes the same dict as the leaves of the first `i`
      entries. */
  method CollectItems<T>(d: Mapping<T>, parentKey: string, sep: string) returns (items: seq<(string, T)>)
    ensures Build(items) == Build(AllLeaves(d, parentKey, sep))
    decreases d, 1
  {
    items := [];
    for i := 0 to |d.entries|
      invariant Build(items) == Build(Leaves(d, i, parentKey, sep))
    {
      items := FlattenEntry(d, i, parentKey, sep, items);
    }
  }

  /** One turn of the loop in `dict_flatten`: entry `i` appended to the
      items collected so far, flattened first when it is a mapping. */
  method FlattenEntry<T>(d: Mapping<T>, i: nat, parentKey: string, sep: string, items: seq<(string, T)>)
    returns (items': seq<(string, T)>)
    requires i < |d.entries| && Build(items) == Build(Leaves(d, i, parentKey, sep))
    ensures Build(items') == Build(Leaves(d, i + 1, parentKey, sep))
    decreases d, 0
  {
    var k := d.entries[i].0;
    var newKey := if parentKey != "" then parentKey + sep + k else k;
    LeavesStep(d, i, parentKey, sep);
    match d.entries[i].1 {
      case Nested(s) =>
        assert d.entries[i] in d.entries;
        var sub := DictFlatten(s, newKey, sep);
        items' := items + Items(sub);
        BuildItems(sub);
        BuildAppendCongruent(items, Leaves(d, i, parentKey, sep), Items(sub), EntryLeaves(d, i, parentKey, sep));
      case Leaf(x) =>
        items' := items + [(newKey, x)];
        BuildAppendCongruent(items, Leaves(d, i, parentKey, sep), [(newKey, x)], EntryLeaves(d, i, parentKey, sep));
    }
  }

  // ---------------------------------------------------------------------
  // Leaves by key path
  // ---------------------------------------------------------------------

  /** The plain value reached from `m` through the entries at positions
      `idx` (one position per nesting level), if there is one. */
  function ValueAt<T>(m: Mapping<T>, idx: seq<nat>): Option<T>
    decreases m
  {
    if idx == [] || idx[0] >= |m.entries| then None
    else match m.entries[idx[0]].1
      case Leaf(x) => if |idx| == 1 then Some(x) else None
      case Nested(s) => if |idx| == 1 then None else ValueAt(s, idx[1..])
  }

  /** The keys of the entries along the positions `idx`. */
  function KeysAlong<T>(m: Mapping<T>, idx: seq<nat>): seq<string>
    decreases m
  {
    if idx == [] || idx[0] >= |m.entries| then []
    else if m.entries[idx[0]].1.Leaf? then [m.entries[idx[0]].0]
    else [m.entries[idx[0]].0] + KeysAlong(m.entries[idx[0]].1.sub, idx[1..])
  }

  /** The key a value nested under the key path `path` gets. */
  function PathKey(parent: string, sep: string, path: seq<string>): string
    decreases |path|
  {
    if path == [] then parent else PathKey(NewKey(parent, sep, path[0]), sep, path[1..])
  }

  /** Every plain value, reached through any path of positions, is among
      the leaves under the key of its key path... */
  lemma {:induction false} ValueAtIsCollected<T>(m: Mapping<T>, n: nat, parent: string, sep: string,
                                                  idx: seq<nat>, x: T)
    requires n <= |m.entries| && |idx| > 0 && idx[0] < n && ValueAt(m, idx) == Some(x)
    ensures (PathKey(parent, sep, KeysAlong(m, idx)), x) in Leaves(m, n, parent, sep)
    decreases m, n
  {
    var e := (PathKey(parent, sep, KeysAlong(m, idx)), x);
    if idx[0] < n - 1 {
      ValueAtIsCollected(m, n - 1, parent, sep, idx, x);
    } else {
      PathIntoEntry(m, n - 1, parent, sep, idx, x);
    }
    InAppend(e, Leaves(m, n - 1, parent, sep), EntryLeaves(m, n - 1, parent, sep));
  }

  /** A value reached through entry `i` is among that entry's leaves. */
  lemma {:induction false} PathIntoEntry<T>(m: Mapping<T>, i: nat, parent: string, sep: string,
                                            idx: seq<nat>, x: T)
    requires i < |m.entries| && |idx| > 0 && idx[0] == i && ValueAt(m, idx) == Some(x)
    ensures (PathKey(parent, sep, KeysAlong(m, idx)), x) in EntryLeaves(m, i, parent, sep)
    decreases m, 0
  {
    var k := m.entries[i].0;
    var nk := NewKey(parent, sep, k);
    match m.entries[i].1
    case Leaf(y) =>
      assert KeysAlong(m, idx) == [k];
      assert PathKey(parent, sep, [k]) == nk;
    case Nested(s) =>
      var tail := idx[1..];
      var ks := KeysAlong(s, tail);
      assert KeysAlong(m, idx) == [k] + ks;
      assert PathKey(parent, sep, [k] + ks) == PathKey(nk, sep, ks) by {
        assert ([k] + ks)[1..] == ks;
      }
      assert m.entries[i] in m.entries;
      ValueAtIsCollected(s, |s.entries|, nk, sep, tail, x);
  }

  /** An element of either part is an element of the concatenation. */
  lemma InAppend<X>(e: X, a: seq<X>, b: seq<X>)
    requires e in a || e in b
    ensures e in a + b
  {
  }

  /** ...and every leaf is such a value. */
  lemma {:induction false} CollectedIsValueAt<T>(m: Mapping<T>, n: nat, parent: string, sep: string, j: nat)
    requires n <= |m.entries| && j < |Leaves(m, n, parent, sep)|
    ensures exists idx: seq<nat> :: |idx| > 0 && idx[0] < n
              && ValueAt(m, idx) == Some(Leaves(m, n, parent, sep)[j].1)
              && PathKey(parent, sep, KeysAlong(m, idx)) == Leaves(m, n, parent, sep)[j].0
  {
    var idx := LeafPath(m, n, parent, sep, j);
  }

  /** The path of positions that leads to leaf `j`. */
  lemma {:induction false} LeafPath<T>(m: Mapping<T>, n: nat, parent: string, sep: string, j: nat)
    returns (idx: seq<nat>)
    requires n <= |m.entries| && j < |Leaves(m, n, parent, sep)|
    ensures |idx| > 0 && idx[0] < n
    ensures ValueAt(m, idx) == Some(Leaves(m, n, parent, sep)[j].1)
    ensures PathKey(parent, sep, KeysAlong(m, idx)) == Leaves(m, n, parent, sep)[j].0
    decreases m, n, 1
  {
    var prev := Leaves(m, n - 1, parent, sep);
    var last := EntryLeaves(m, n - 1, parent, sep);
    if j < |prev| {
      IndexInPrefix(Leaves(m, n, parent, sep), prev, last, j);
      idx := LeafPath(m, n - 1, parent, sep, j);
    } else {
      IndexInSuffix(Leaves(m, n, parent, sep), prev, last, j);
      idx := EntryPath(m, n - 1, parent, sep, j - |prev|);
    }
  }

  /** The path to leaf `j` of entry `i`. */
  lemma {:induction false} EntryPath<T>(m: Mapping<T>, i: nat, parent: string, sep: string, j: nat)
    returns (idx: seq<nat>)
    requires i < |m.entries| && j < |EntryLeaves(m, i, parent, sep)|
    ensures |idx| > 0 && idx[0] == i
    ensures ValueAt(m, idx) == Some(EntryLeaves(m, i, parent, sep)[j].1)
    ensures PathKey(parent, sep, KeysAlong(m, idx)) == EntryLeaves(m, i, parent, sep)[j].0
    decreases m, i, 0
  {
    var k := m.entries[i].0;
    var nk := NewKey(parent, sep, k);
    match m.entries[i].1
    case Leaf(x) =>
      idx := [i];
      assert KeysAlong(m, idx) == [k];
    case Nested(s) =>
      assert m.entries[i] in m.entries;
      var tail := LeafPath(s, |s.entries|, nk, sep, j);
      idx := [i] + tail;
      assert idx[1..] == tail;
      var ks := KeysAlong(s, tail);
      assert KeysAlong(m, idx) == [k] + ks;
      assert ([k] + ks)[1..] == ks;
  }

  /** Positions in a concatenation, stated on plain sequences. */
  lemma IndexInPrefix<X>(y: seq<X>, a: seq<X>, b: seq<X>, j: nat)
    requires y == a + b && j < |a|
    ensures j < |y| && y[j] == a[j]
  {
  }

  lemma IndexInSuffix<X>(y: seq<X>, a: seq<X>, b: seq<X>, j: nat)
    requires y == a + b && |a| <= j < |y|
    ensures j - |a| < |b| && y[j] == b[j - |a|]
  {
  }

  /** A key is in the flattened dict exactly when it is the key of some
      plain value reached through the nesting; its value is then that of
      the last such leaf in depth-first order (OrderedMaps.BuildLookup). */
  lemma {:induction false} FlattenKeys<T>(d: Mapping<T>, parent: string, sep: string, key: string)
    ensures key in Build(AllLeaves(d, parent, sep)).vals <==>
            exists idx: seq<nat>, x :: |idx| > 0 && ValueAt(d, idx) == Some(x)
                                       && PathKey(parent, sep, KeysAlong(d, idx)) == key
  {
    var xs := AllLeaves(d, parent, sep);
    BuildHasKey(xs, key);
    if key in Build(xs).vals {
      var j :| 0 <= j < |xs| && xs[j].0 == key;
      CollectedIsValueAt(d, |d.entries|, parent, sep, j);
    }
    if exists idx: seq<nat>, x :: |idx| > 0 && ValueAt(d, idx) == Some(x)
                                  && PathKey(parent, sep, KeysAlong(d, idx)) == key {
      var idx: seq<nat>, x :| |idx| > 0 && ValueAt(d, idx) == Some(x)
                              && PathKey(parent, sep, KeysAlong(d, idx)) == key;
      ValueAtIsCollected(d, |d.entries|, parent, sep, idx, x);
      var j :| 0 <= j < |xs| && xs[j] == (key, x);
      assert xs[j].0 == key;
    }
  }

  /** When no two leaves share a key (from the top, `parent_key=''`),
      every plain value comes out under its joined key path with its own
      value. */
  lemma {:induction false} FlattenedValue<T>(d: Mapping<T>, sep: string, idx: seq<nat>, x: T)
    requires |idx| > 0 && ValueAt(d, idx) == Some(x)
    requires Distinct(KeysOf(AllLeaves(d, "", sep)))
    ensures PathKey("", sep, KeysAlong(d, idx)) in Build(AllLeaves(d, "", sep)).vals
    ensures Build(AllLeaves(d, "", sep)).vals[PathKey("", sep, KeysAlong(d, idx))] == x
  {
    var xs := AllLeaves(d, "", sep);
    var key := PathKey("", sep, KeysAlong(d, idx));
    assert idx[0] < |d.entries|;
    ValueAtIsCollected(d, |d.entries|, "", sep, idx, x);
    var j :| 0 <= j < |xs| && xs[j] == (key, x);
    BuildDistinct(xs);
    BuildHasKey(xs, key);
  }

  /** With a non-empty starting key, the key of a path is the whole path
      joined with `sep`. */
  lemma {:induction false} PathKeyJoins(parent: string, sep: string, path: seq<string>)
    requires parent != ""
    ensures PathKey(parent, sep, path) == PyStr.Join(sep, [parent] + path)
    decreases |path|
  {
    if path != [] {
      var p := parent + sep + path[0];
      PathKeyJoins(p, sep, path[1..]);
      var rest := path[1..];
      if rest == [] {
        assert [parent] + path == [parent, path[0]];
      } else {
        assert ([parent] + path)[1..] == path;
        assert ([p] + rest)[1..] == rest;
        assert path == [path[0]] + rest;
      }
    }
  }

  /** From the top (`parent_key=''`), a value nested under
      `k1, k2, ..., kn` with `k1` non-empty gets the key
      `k1 + sep + k2 + ... + sep + kn`. */
  lemma {:induction false} TopLevelPathKey(sep: string, path: seq<string>)
    requires |path| > 0 && path[0] != ""
    ensures PathKey("", sep, path) == PyStr.Join(sep, path)
  {
    PathKeyJoins(path[0], sep, path[1..]);
    assert [path[0]] + path[1..] == path;
  }

  /** The leaves of the first `n` entries keep their positions among
      those of the first `n'` entries. */
  lemma {:induction false} LeavesPrefix<T>(m: Mapping<T>, n: nat, n': nat, parent: string, sep: string, j: nat)
    requires n <= n' <= |m.entries| && j < |Leaves(m, n, parent, sep)|
    ensures j < |Leaves(m, n', parent, sep)| && Leaves(m, n', parent, sep)[j] == Leaves(m, n, parent, sep)[j]
    decreases n' - n
  {
    if n' > n {
      LeavesPrefix(m, n, n' - 1, parent, sep, j);
      IndexInPrefix(Leaves(m, n', parent, sep), Leaves(m, n' - 1, parent, sep), EntryLeaves(m, n' - 1, parent, sep), j);
    }
  }

  /** From the top (`parent_key=''`), a plain top-level entry `k: v` comes
      out as `k: v`, unless a leaf flattened after it has the same key
      (a nested path whose joined key is `k`, or a repeated `k`), which
      then overwrites it. */
  lemma {:induction false} TopLevelLeaf<T>(d: Mapping<T>, sep: string, i: nat, x: T)
    requires i < |d.entries| && d.entries[i].1 == Leaf(x)
    requires var xs := AllLeaves(d, "", sep);
             var p := |Leaves(d, i + 1, "", sep)|;
             forall j :: p <= j < |xs| ==> xs[j].0 != d.entries[i].0
    ensures d.entries[i].0 in Build(AllLeaves(d, "", sep)).vals
    ensures Build(AllLeaves(d, "", sep)).vals[d.entries[i].0] == x
  {
    var k := d.entries[i].0;
    var xs := AllLeaves(d, "", sep);
    var front := Leaves(d, i + 1, "", sep);
    LeavesStep(d, i, "", sep);
    assert front[|front| - 1] == (k, x);
    LeavesPrefix(d, i + 1, |d.entries|, "", sep, |front| - 1);
    BuildLookup(xs, |front| - 1);
  }

  /** A mapping whose values are all plain and whose keys are distinct
      flattens (from the top) to the same dict. */
  lemma {:induction false} FlattenFlatMapping<T>(d: Mapping<T>, sep: string)
    requires forall i :: 0 <= i < |d.entries| ==> d.entries[i].1.Leaf?
    requires Distinct(KeysOf(d.entries))
    ensures Build(AllLeaves(d, "", sep)).keys == KeysOf(d.entries)
    ensures forall i :: 0 <= i < |d.entries| ==>
              Build(AllLeaves(d, "", sep)).vals[d.entries[i].0] == d.entries[i].1.value
  {
    var xs := AllLeaves(d, "", sep);
    LeavesOfFlat(d, |d.entries|, sep);
    assert KeysOf(xs) == KeysOf(d.entries);
    BuildDistinct(xs);
  }

  lemma {:induction false} LeavesOfFlat<T>(d: Mapping<T>, n: nat, sep: string)
    requires n <= |d.entries|
    requires forall i :: 0 <= i < |d.entries| ==> d.entries[i].1.Leaf?
    ensures |Leaves(d, n, "", sep)| == n
    ensures forall i :: 0 <= i < n ==> Leaves(d, n, "", sep)[i] == (d.entries[i].0, d.entries[i].1.value)
  {
    if n > 0 {
      LeavesOfFlat(d, n - 1, sep);
    }
  }
}
