/** `split_coords_features`: the rows of a sparse coordinate table, and
    the feature rows beside them, grouped by the example index held in
    column 3. The table is a rectangular integer matrix; a feature row is
    of any type `F`. */
module Sparse {
  import opened Wrappers
  import opened Exceptions

  /** A two-dimensional integer array: `width` is `shape[1]`. */
  datatype Matrix = Matrix(width: nat, rows: seq<seq<int>>)

  /** An array is rectangular: every row is `width` long. */
  predicate Rectangular(m: Matrix) {
    forall j :: 0 <= j < |m.rows| ==> |m.rows[j]| == m.width
  }

  /** One entry of the result, `[coords_i, features_i]`. */
  datatype Group<F> = Group(coords: seq<seq<int>>, features: seq<F>)

  /** `coords[:, 3]`. */
  function ExampleIndices(rows: seq<seq<int>>): seq<int>
    requires forall j :: 0 <= j < |rows| ==> |rows[j]| >= 4
  {
    seq(|rows|, j requires 0 <= j < |rows| => rows[j][3])
  }

  /** `example_indices.max()` of a non-empty column. */
  function MaxOf(col: seq<int>): (r: int)
    requires |col| > 0
    ensures r in col
    ensures forall j :: 0 <= j < |col| ==> col[j] <= r
  {
    if |col| == 1 then col[0]
    else
      var m := MaxOf(col[..|col| - 1]);
      assert forall j :: 0 <= j < |col| - 1 ==> col[j] == col[..|col| - 1][j];
      if col[|col| - 1] > m then col[|col| - 1] else m
  }

  /** A strictly increasing sequence of positions. */
  predicate Increasing(ps: seq<nat>) {
    forall a, b :: 0 <= a < b < |ps| ==> ps[a] < ps[b]
  }

  /** The positions `j` at which `col[j] == i`, in increasing order: the
      boolean mask `example_indices == i` as a list of the positions it
      selects. */
  function Positions(col: seq<int>, i: int): (ps: seq<nat>)
    ensures Increasing(ps)
    ensures forall k :: 0 <= k < |ps| ==> ps[k] < |col| && col[ps[k]] == i
    ensures forall j :: 0 <= j < |col| && col[j] == i ==> j in ps
  {
    if col == [] then []
    else
      var init := col[..|col| - 1];
      assert forall j :: 0 <= j < |col| - 1 ==> col[j] == init[j];
      Positions(init, i) + (if col[|col| - 1] == i then [|col| - 1] else [])
  }

  /** Group `i`: the first three columns of the rows whose example index
      is `i`, and the feature rows at the same positions, both in the
      original order (`coords[indices, :3]`, `features[indices]`). */
  function GroupOf<F>(rows: seq<seq<int>>, features: seq<F>, i: int): Group<F>
    requires forall j :: 0 <= j < |rows| ==> |rows[j]| >= 4
    requires |features| == |rows|
  {
    var ps := Positions(ExampleIndices(rows), i);
    Group(seq(|ps|, k requires 0 <= k < |ps| => rows[ps[k]][..3]),
          seq(|ps|, k requires 0 <= k < |ps| => features[ps[k]]))
  }

  /** What `split_coords_features((coords, features))` returns or raises:
      `AssertionError` unless the table is 4 wide, `ValueError` for a table
      without rows (the maximum of nothing), and, once at least one group
      is built, `IndexError` when the feature rows are not as many as the
      coordinate rows (a boolean mask of the wrong length). */
  function Partition<F>(coords: Matrix, features: seq<F>): Result<seq<Group<F>>, Exception>
    requires Rectangular(coords)
  {
    if coords.width != 4 then Failure(AssertionError)
    else if coords.rows == [] then Failure(ValueError)
    else
      var n := MaxOf(ExampleIndices(coords.rows)) + 1;
      if n <= 0 then Success([])
      else if |features| != |coords.rows| then Failure(IndexError)
      else Success(seq(n, i requires 0 <= i < n => GroupOf(coords.rows, features, i)))
  }

  /** The loop of `split_coords_features`: one group appended per example
      index `0 .. max`. */
  method SplitCoordsFeatures<F>(coords: Matrix, features: seq<F>) returns (r: Result<seq<Group<F>>, Exception>)
    requires Rectangular(coords)
    ensures r == Partition(coords, features)
  {
    if coords.width != 4 {
      return Failure(AssertionError);
    }
    if coords.rows == [] {
      return Failure(ValueError);
    }
    var exampleIndices := ExampleIndices(coords.rows);
    var n := MaxOf(exampleIndices) + 1;
    var res: seq<Group<F>> := [];
    var i := 0;
    while i < n
      invariant 0 <= i <= (if n > 0 then n else 0)
      invariant i > 0 ==> |features| == |coords.rows|
      invariant |res| == i
      invariant forall k :: 0 <= k < i ==> res[k] == GroupOf(coords.rows, features, k)
      decreases n - i
    {
      if |features| != |coords.rows| {
        return Failure(IndexError);
      }
      res := res + [GroupOf(coords.rows, features, i)];
      i := i + 1;
    }
    if n > 0 {
      assert i == n && |features| == |coords.rows|;
      assert res == seq(n, k requires 0 <= k < n => GroupOf(coords.rows, features, k));
    } else {
      assert res == [];
    }
    return Success(res);
  }

  /** The exceptions `split_coords_features` raises, each exactly when
      its condition holds. */
  lemma {:induction false} PartitionErrors<F>(coords: Matrix, features: seq<F>)
    requires Rectangular(coords)
    ensures var r := Partition(coords, features);
            (r == Failure(AssertionError) <==> coords.width != 4)
            && (r == Failure(ValueError) <==> coords.width == 4 && coords.rows == [])
            && (r == Failure(IndexError) <==>
                  coords.width == 4 && coords.rows != [] && |features| != |coords.rows|
                  && exists j :: 0 <= j < |coords.rows| && coords.rows[j][3] >= 0)
            && (r.Success? || r == Failure(AssertionError) || r == Failure(ValueError) || r == Failure(IndexError))
  {
    if coords.width == 4 && coords.rows != [] {
      var col := ExampleIndices(coords.rows);
      assert forall j :: 0 <= j < |col| ==> col[j] == coords.rows[j][3];
      var mx := MaxOf(col);
      var j :| 0 <= j < |col| && col[j] == mx;
    }
  }

  /** On success there are `M + 1` groups, `M` being the largest example
      index, and none when `M` is negative. */
  lemma {:induction false} PartitionSize<F>(coords: Matrix, features: seq<F>, m: int)
    requires Rectangular(coords) && coords.width == 4
    requires exists j :: 0 <= j < |coords.rows| && coords.rows[j][3] == m
    requires forall j :: 0 <= j < |coords.rows| ==> coords.rows[j][3] <= m
    ensures var r := Partition(coords, features);
            r.Success? ==> |r.value| == if m < 0 then 0 else m + 1
  {
    var col := ExampleIndices(coords.rows);
    assert forall j :: 0 <= j < |col| ==> col[j] == coords.rows[j][3];
    var mx := MaxOf(col);
    var j :| 0 <= j < |col| && col[j] == mx;
    var j' :| 0 <= j' < |coords.rows| && coords.rows[j'][3] == m;
    assert col[j'] == m;
  }

  /** Group `i` is exactly the rows whose example index is `i`: there is
      an increasing list of positions that holds every such row and no
      other, and the group's coordinates and features are, in that order,
      the first three columns and the feature rows at those positions. */
  lemma {:induction false} GroupIsSelection<F>(coords: Matrix, features: seq<F>, i: nat)
    requires Rectangular(coords)
    requires Partition(coords, features).Success? && i < |Partition(coords, features).value|
    ensures var rows := coords.rows;
            var g := Partition(coords, features).value[i];
            exists ps: seq<nat> ::
              Increasing(ps)
              && (forall k :: 0 <= k < |ps| ==> ps[k] < |rows| && rows[ps[k]][3] == i)
              && (forall j :: 0 <= j < |rows| && rows[j][3] == i ==> j in ps)
              && |g.coords| == |ps| && |g.features| == |ps|
              && forall k :: 0 <= k < |ps| ==>
                   g.coords[k] == rows[ps[k]][..3] && g.features[k] == features[ps[k]]
  {
    var rows := coords.rows;
    var ps := Positions(ExampleIndices(rows), i);
    var g := Partition(coords, features).value[i];
    assert g == GroupOf(rows, features, i);
    assert forall k :: 0 <= k < |ps| ==> ps[k] < |rows| && rows[ps[k]][3] == i;
    assert |g.coords| == |ps| && |g.features| == |ps|;
  }

  /** Every row whose example index is not negative lands in the group of
      that index, its first three columns beside its own feature row. */
  lemma {:induction false} RowPlacement<F>(coords: Matrix, features: seq<F>, j: nat)
    requires Rectangular(coords)
    requires Partition(coords, features).Success?
    requires j < |coords.rows| && coords.rows[j][3] >= 0
    ensures var gs := Partition(coords, features).value;
            var i := coords.rows[j][3];
            i < |gs|
            && exists k :: 0 <= k < |gs[i].coords| && k < |gs[i].features|
                 && gs[i].coords[k] == coords.rows[j][..3] && gs[i].features[k] == features[j]
  {
    var rows := coords.rows;
    var col := ExampleIndices(rows);
    var i := rows[j][3];
    assert col[j] == i;
    var gs := Partition(coords, features).value;
    assert i < |gs|;
    var ps := Positions(col, i);
    assert gs[i] == GroupOf(rows, features, i);
    var k :| 0 <= k < |ps| && ps[k] == j;
    assert gs[i].coords[k] == rows[j][..3];
  }

  /** The number of rows counted over all groups. */
  function TotalSize<F>(gs: seq<Group<F>>): nat {
    if gs == [] then 0 else TotalSize(gs[..|gs| - 1]) + |gs[|gs| - 1].coords|
  }

  /** How many entries of `col` lie in `lo .. hi - 1`. */
  function CountIn(col: seq<int>, lo: int, hi: int): nat {
    if col == [] then 0
    else CountIn(col[..|col| - 1], lo, hi) + (if lo <= col[|col| - 1] < hi then 1 else 0)
  }

  /** How many entries of `col` are negative. */
  function CountNegative(col: seq<int>): nat {
    if col == [] then 0
    else CountNegative(col[..|col| - 1]) + (if col[|col| - 1] < 0 then 1 else 0)
  }

  /** How many entries of `col` equal `i`. */
  function Occurrences(col: seq<int>, i: int): nat {
    if col == [] then 0
    else Occurrences(col[..|col| - 1], i) + (if col[|col| - 1] == i then 1 else 0)
  }

  lemma {:induction false} PositionsCount(col: seq<int>, i: int)
    ensures |Positions(col, i)| == Occurrences(col, i)
  {
    if col != [] {
      PositionsCount(col[..|col| - 1], i);
    }
  }

  /** The sizes of the first `n` mask selections. */
  function SizesUpTo(col: seq<int>, n: nat): nat {
    if n == 0 then 0 else SizesUpTo(col, n - 1) + Occurrences(col, n - 1)
  }

  lemma {:induction false} SizesUpToAppend(col: seq<int>, x: int, n: nat)
    ensures SizesUpTo(col + [x], n) == SizesUpTo(col, n) + (if 0 <= x < n then 1 else 0)
  {
    if n > 0 {
      SizesUpToAppend(col, x, n - 1);
      var c := col + [x];
      assert c[..|c| - 1] == col;
    }
  }

  lemma {:induction false} SizesUpToCount(col: seq<int>, n: nat)
    ensures SizesUpTo(col, n) == CountIn(col, 0, n)
  {
    if col != [] {
      var init := col[..|col| - 1];
      var x := col[|col| - 1];
      SizesUpToCount(init, n);
      SizesUpToAppend(init, x, n);
      assert init + [x] == col;
    } else {
      SizesUpToEmpty(n);
    }
  }

  lemma {:induction false} SizesUpToEmpty(n: nat)
    ensures SizesUpTo([], n) == 0
  {
    if n > 0 {
      SizesUpToEmpty(n - 1);
    }
  }

  /** When no entry exceeds `m`, every entry is either negative or in
      `0 .. m`. */
  lemma {:induction false} CountSplit(col: seq<int>, m: int)
    requires forall j :: 0 <= j < |col| ==> col[j] <= m
    ensures CountIn(col, 0, m + 1) + CountNegative(col) == |col|
  {
    if col != [] {
      var init := col[..|col| - 1];
      assert forall j :: 0 <= j < |init| ==> init[j] == col[j];
      CountSplit(init, m);
    }
  }

  lemma {:induction false} TotalSizeOfGroups<F>(gs: seq<Group<F>>, col: seq<int>)
    requires forall i :: 0 <= i < |gs| ==> |gs[i].coords| == Occurrences(col, i)
    ensures TotalSize(gs) == SizesUpTo(col, |gs|)
  {
    if gs != [] {
      var init := gs[..|gs| - 1];
      assert forall i :: 0 <= i < |init| ==> init[i] == gs[i];
      TotalSizeOfGroups(init, col);
    }
  }

  /** The group sizes add up to the number of rows, less the rows whose
      example index is negative (those belong to no group). */
  lemma {:induction false} GroupSizesSum<F>(coords: Matrix, features: seq<F>)
    requires Rectangular(coords)
    requires Partition(coords, features).Success?
    ensures var col := ExampleIndices(coords.rows);
            TotalSize(Partition(coords, features).value) + CountNegative(col) == |coords.rows|
  {
    var gs := Partition(coords, features).value;
    var col := ExampleIndices(coords.rows);
    var m := MaxOf(col);
    if m < 0 {
      assert gs == [];
      CountSplit(col, m);
      assert CountIn(col, 0, m + 1) == 0 by { CountInEmptyRange(col, 0, m + 1); }
    } else {
      forall i | 0 <= i < |gs|
        ensures |gs[i].coords| == Occurrences(col, i)
      {
        assert gs[i] == GroupOf(coords.rows, features, i);
        PositionsCount(col, i);
      }
      TotalSizeOfGroups(gs, col);
      SizesUpToCount(col, |gs|);
      CountSplit(col, m);
    }
  }

  lemma {:induction false} CountInEmptyRange(col: seq<int>, lo: int, hi: int)
    requires hi <= lo
    ensures CountIn(col, lo, hi) == 0
  {
    if col != [] {
      CountInEmptyRange(col[..|col| - 1], lo, hi);
    }
  }

  /** With no negative example index, the groups hold every row once. */
  lemma {:induction false} GroupsCoverAllRows<F>(coords: Matrix, features: seq<F>)
    requires Rectangular(coords)
    requires Partition(coords, features).Success?
    requires forall j :: 0 <= j < |coords.rows| ==> coords.rows[j][3] >= 0
    ensures TotalSize(Partition(coords, features).value) == |coords.rows|
  {
    GroupSizesSum(coords, features);
    NoNegatives(ExampleIndices(coords.rows));
  }

  lemma {:induction false} NoNegatives(col: seq<int>)
    requires forall j :: 0 <= j < |col| ==> col[j] >= 0
    ensures CountNegative(col) == 0
  {
    if col != [] {
      var init := col[..|col| - 1];
      assert forall j :: 0 <= j < |init| ==> init[j] == col[j];
      NoNegatives(init);
    }
  }
}
