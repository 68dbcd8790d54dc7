/** The GPU listings of `get_gpu_memory_map` and `get_gpu_names_map`,
    parsed from the already captured `nvidia-smi` output, and
    `gpu_name_by_n`. */
module Gpu {
  import opened Wrappers
  import opened Exceptions
  import opened PyStr
  import opened OrderedMaps

  /** `"gpu_{}".format(i)`. */
  function GpuKey(i: int): string {
    "gpu_" + IntToStr(i)
  }

  /** `result.strip().split('\n')`: one item per GPU. */
  function Listing(output: string): (r: seq<string>)
    ensures |r| >= 1
  {
    Split(Strip(output), "\n")
  }

  /** `[int(x) for x in items]`, or the `ValueError` of the first item
      that is not an integer. */
  function ParseAll(items: seq<string>): (r: Result<seq<int>, Exception>)
    ensures r.Success? <==> forall i :: 0 <= i < |items| ==> ParseInt(items[i]).Some?
    ensures r.Success? ==> |r.value| == |items| && forall i :: 0 <= i < |items| ==> r.value[i] == ParseInt(items[i]).value
    ensures r.Failure? ==> r.error == ValueError
  {
    if items == [] then Success([])
    else
      assert forall i :: 1 <= i < |items| ==> items[i] == items[1..][i - 1];
      match ParseInt(items[0])
      case None => Failure(ValueError)
      case Some(v) =>
        var rest :- ParseAll(items[1..]);
        Success([v] + rest)
  }

  /** `[("gpu_{}".format(i), v) for i, v in enumerate(values)]`. */
  function Enumerated<V>(values: seq<V>): seq<(string, V)> {
    seq(|values|, i requires 0 <= i < |values| => (GpuKey(i), values[i]))
  }

  /** `get_gpu_memory_map()` on the output of the memory query. */
  function GpuMemoryMap(output: string): Result<OMap<string, int>, Exception> {
    var memory :- ParseAll(Listing(output));
    Success(Build(Enumerated(memory)))
  }

  /** `get_gpu_names_map()` on the output of the name query. */
  function GpuNamesMap(output: string): OMap<string, string> {
    Build(Enumerated(Listing(output)))
  }

  /** `gpu_name_by_n(n)`: `names.get('gpu_{}'.format(n), None)`. */
  function GpuNameByN(output: string, n: int): Option<string> {
    var names := GpuNamesMap(output);
    if GpuKey(n) in names.vals then Some(names.vals[GpuKey(n)]) else None
  }

  lemma {:induction false} GpuKeyInjective(i: int, j: int)
    requires GpuKey(i) == GpuKey(j)
    ensures i == j
  {
    assert IntToStr(i) == GpuKey(i)[4..];
    assert IntToStr(j) == GpuKey(j)[4..];
    IntToStrInjective(i, j);
  }

  lemma {:induction false} EnumeratedKeysDistinct<V>(values: seq<V>)
    ensures Distinct(KeysOf(Enumerated(values)))
  {
    var ks := KeysOf(Enumerated(values));
    forall i, j | 0 <= i < j < |ks| ensures ks[i] != ks[j] {
      if ks[i] == ks[j] {
        GpuKeyInjective(i, j);
      }
    }
  }

  /** Enumerating gives the keys `gpu_0 ... gpu_{n-1}` in order, each
      holding its item; nothing is overwritten. */
  lemma {:induction false} EnumeratedMap<V>(values: seq<V>)
    ensures var m := Build(Enumerated(values));
            |m.keys| == |values|
            && forall i :: 0 <= i < |values| ==>
                 m.keys[i] == GpuKey(i) && GpuKey(i) in m.vals && m.vals[GpuKey(i)] == values[i]
  {
    var xs := Enumerated(values);
    assert forall i :: 0 <= i < |xs| ==> xs[i] == (GpuKey(i), values[i]);
    EnumeratedKeysDistinct(values);
    BuildDistinct(xs);
    assert forall i :: 0 <= i < |xs| ==> KeysOf(xs)[i] == GpuKey(i);
  }

  /** The memory map holds one entry per listed GPU, `gpu_i` being the
      integer on line `i`; it raises `ValueError` when a line is not an
      integer. */
  lemma {:induction false} GpuMemoryMapEntries(output: string)
    ensures var items := Listing(output);
            var r := GpuMemoryMap(output);
            (r.Success? <==> forall i :: 0 <= i < |items| ==> ParseInt(items[i]).Some?)
            && (r.Failure? ==> r.error == ValueError)
            && (r.Success? ==>
                  |r.value.keys| == |items|
                  && forall i :: 0 <= i < |items| ==>
                       r.value.keys[i] == GpuKey(i) && GpuKey(i) in r.value.vals
                       && Some(r.value.vals[GpuKey(i)]) == ParseInt(items[i]))
  {
    var items := Listing(output);
    var p := ParseAll(items);
    if p.Success? {
      ParsedMap(items, p.value);
    }
  }

  lemma {:induction false} ParsedMap(items: seq<string>, values: seq<int>)
    requires |values| == |items| && forall i :: 0 <= i < |items| ==> Some(values[i]) == ParseInt(items[i])
    ensures var m := Build(Enumerated(values));
            |m.keys| == |items|
            && forall i :: 0 <= i < |items| ==>
                 m.keys[i] == GpuKey(i) && GpuKey(i) in m.vals && Some(m.vals[GpuKey(i)]) == ParseInt(items[i])
  {
    EnumeratedMap(values);
  }

  /** The names map holds one entry per listed GPU, `gpu_i` being line
      `i`. */
  lemma {:induction false} GpuNamesMapEntries(output: string)
    ensures var items := Listing(output);
            var m := GpuNamesMap(output);
            |m.keys| == |items|
            && forall i :: 0 <= i < |items| ==>
                 m.keys[i] == GpuKey(i) && GpuKey(i) in m.vals && m.vals[GpuKey(i)] == items[i]
  {
    EnumeratedMap(Listing(output));
  }

  /** `gpu_name_by_n(n)` is the name on line `n` for a listed GPU and
      `None` for any other integer. */
  lemma {:induction false} GpuNameByNListed(output: string, n: int)
    ensures var items := Listing(output);
            GpuNameByN(output, n) == if 0 <= n < |items| then Some(items[n]) else None
  {
    var items := Listing(output);
    assert GpuNamesMap(output) == Build(Enumerated(items));
    EnumeratedLookup(items, n);
  }

  lemma {:induction false} EnumeratedLookup<V>(values: seq<V>, n: int)
    ensures var m := Build(Enumerated(values));
            (GpuKey(n) in m.vals <==> 0 <= n < |values|)
            && (0 <= n < |values| ==> m.vals[GpuKey(n)] == values[n])
  {
    var xs := Enumerated(values);
    EnumeratedMap(values);
    BuildHasKey(xs, GpuKey(n));
    if GpuKey(n) in Build(xs).vals {
      var i :| 0 <= i < |xs| && xs[i].0 == GpuKey(n);
      GpuKeyInjective(i, n);
    }
  }

  /** Printing integers one per line and parsing the listing gives them
      back under `gpu_0 ... gpu_{n-1}`. */
  lemma {:induction false} GpuMemoryOfPrinted(values: seq<int>)
    requires |values| >= 1
    ensures GpuMemoryMap(Join("\n", seq(|values|, i requires 0 <= i < |values| => IntToStr(values[i]))))
            == Success(Build(Enumerated(values)))
  {
    var parts := seq(|values|, i requires 0 <= i < |values| => IntToStr(values[i]));
    forall i | 0 <= i < |parts| ensures "\n"[0] !in parts[i] && |parts[i]| > 0 && Trimmed(parts[i]) {
      PrintedIntText(values[i]);
    }
    ListingOfJoin(parts);
    forall i | 0 <= i < |parts| ensures ParseInt(parts[i]) == Some(values[i]) {
      ParseIntOfIntToStr(values[i]);
    }
    var p := ParseAll(parts);
    assert p.value == values;
  }

  /** Non-empty trimmed lines without a newline, joined one per line, are
      listed back as they were. */
  lemma {:induction false} ListingOfJoin(parts: seq<string>)
    requires |parts| >= 1
    requires forall i :: 0 <= i < |parts| ==> "\n"[0] !in parts[i] && |parts[i]| > 0 && Trimmed(parts[i])
    ensures Listing(Join("\n", parts)) == parts
  {
    var output := Join("\n", parts);
    JoinEnds("\n", parts);
    StripTrimmed(output);
    SplitJoin(parts, "\n");
  }

  lemma {:induction false} PrintedIntText(v: int)
    ensures '\n' !in IntToStr(v) && |IntToStr(v)| > 0 && Trimmed(IntToStr(v))
  {
    var n := if v < 0 then -v else v;
    NatToStrDigitGroups(n);
    var d := NatToStr(n);
    assert !IsSpace(d[|d| - 1]);
    forall k | 0 <= k < |IntToStr(v)| ensures IntToStr(v)[k] != '\n' {
      if v < 0 {
        assert IntToStr(v) == "-" + d;
        if k > 0 {
          assert IntToStr(v)[k] == d[k - 1];
        }
      }
    }
  }

  /** An empty output lists one GPU with an empty line: the memory map
      raises `ValueError` (`int('')`) and the names map is
      `{'gpu_0': ''}`. */
  lemma {:induction false} GpuEmptyOutput()
    ensures GpuMemoryMap("") == Failure(ValueError)
    ensures GpuNamesMap("").keys == ["gpu_0"] && GpuNamesMap("").vals["gpu_0"] == ""
  {
    assert Strip("") == "";
    assert IndexOf("", "\n", 0) == None;
    assert Listing("") == [""];
    assert ParseInt("") == None;
    GpuNamesMapEntries("");
    assert GpuKey(0) == "gpu_0";
  }
}
