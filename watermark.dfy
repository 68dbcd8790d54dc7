/** `watermark(packages, return_string)`: an ordered report of the
    environment a notebook runs in (virtualenv, Python version, host name,
    NVIDIA driver and CUDA release, cuDNN version, versions of pip
    packages), and its helper `find_in_lines`.

    Everything the function reads from outside (the environment, the
    Python version string, the host name, the outputs of `nvidia-smi`,
    `nvcc --version` and `pip list`, the cuDNN header, the platform test
    and the git head of a checkout) is captured beforehand in a `Captured`
    value. */
module Watermark {
  import opened Wrappers
  import opened Exceptions
  import opened PyStr
  import opened OrderedMaps

  // ---------------------------------------------------------------------
  // find_in_lines
  // ---------------------------------------------------------------------

  /** What `find_in_lines` returns once it has found `line`: the stripped
      line, or (with `remove_name`) the stripped text of the pieces after
      the first occurrence of the name, joined back with the name.
      Splitting on an empty name raises `ValueError`. */
  function FromLine(line: string, name: string, removeName: bool): Result<string, Exception> {
    if !removeName then Success(Strip(line))
    else if name == "" then Failure(ValueError)
    else Success(Strip(Join(name, Split(line, name)[1..])))
  }

  /** The position of the first line that starts with `name`. */
  function FirstStarting(lines: seq<string>, name: string): (r: Option<nat>)
    ensures r.Some? ==> r.value < |lines| && StartsWith(lines[r.value], name)
    ensures forall j :: 0 <= j < |lines| && StartsWith(lines[j], name) ==> r.Some? && r.value <= j
  {
    if lines == [] then None
    else if StartsWith(lines[0], name) then Some(0)
    else
      var r := FirstStarting(lines[1..], name);
      assert forall j :: 1 <= j < |lines| ==> lines[j] == lines[1..][j - 1];
      match r
      case None => None
      case Some(i) => Some(i + 1)
  }

  /** The value of `find_in_lines(lines, name, remove_name)`: `''` when no
      line starts with `name`, else what the first such line gives. */
  function Found(lines: seq<string>, name: string, removeName: bool): (r: Result<string, Exception>)
    ensures r.Failure? <==> removeName && name == "" && lines != []
  {
    assert lines != [] ==> StartsWith(lines[0], "");
    match FirstStarting(lines, name)
    case None => Success("")
    case Some(i) => FromLine(lines[i], name, removeName)
  }

  /** `find_in_lines`: scans the lines in order and stops at the first one
      that starts with the name. (`name in line and line.startswith(name)`
      is just `line.startswith(name)`, see `StartsWithContains`.) */
  method FindInLines(pipList: seq<string>, packageName: string, removeName: bool)
    returns (r: Result<string, Exception>)
    ensures r == Found(pipList, packageName, removeName)
  {
    var res := "";
    var i := 0;
    while i < |pipList|
      invariant i <= |pipList|
      invariant forall j :: 0 <= j < i ==> !StartsWith(pipList[j], packageName)
    {
      var line := pipList[i];
      if StartsWith(line, packageName) {
        if removeName {
          if packageName == "" {
            return Failure(ValueError);
          }
          res := Strip(Join(packageName, Split(line, packageName)[1..]));
        } else {
          res := Strip(line);
        }
        break;
      }
      i := i + 1;
    }
    return Success(res);
  }

  lemma {:induction false} StartsWithContains(s: string, p: string)
    requires StartsWith(s, p)
    ensures Contains(s, p)
  {
    assert OccursAt(s, p, 0);
  }

  /** Only the first line that starts with the name counts (the loop
      breaks there); with no such line the result is `''`. */
  lemma {:induction false} FoundFirstMatch(lines: seq<string>, name: string, removeName: bool, i: nat)
    requires i <= |lines|
    requires forall j :: 0 <= j < i ==> !StartsWith(lines[j], name)
    ensures i == |lines| ==> Found(lines, name, removeName) == Success("")
    ensures i < |lines| && StartsWith(lines[i], name) ==>
              Found(lines, name, removeName) == FromLine(lines[i], name, removeName)
  {
    match FirstStarting(lines, name)
    case None =>
    case Some(f) =>
      assert f >= i;
  }

  /** On a line that starts with a non-empty name, removing the name is
      the same as stripping what follows the prefix. */
  lemma {:induction false} RemoveNameIsSuffix(line: string, name: string)
    requires name != "" && StartsWith(line, name)
    ensures FromLine(line, name, true) == Success(Strip(line[|name|..]))
  {
    SplitAfterPrefix(line, name);
  }

  // ---------------------------------------------------------------------
  // The facts
  // ---------------------------------------------------------------------

  /** What `watermark` reads from outside, captured beforehand. A `None`
      output stands for a call that raised (a command that is missing or
      exits non-zero, a file that cannot be read). */
  datatype Captured = Captured(
    environ: map<string, string>,          // os.environ
    sysVersion: string,                    // sys.version
    hostname: string,                      // platform.node()
    smi: Option<seq<string>>,              // nvidia-smi driver_version query, as lines
    nvcc: Option<seq<string>>,             // nvcc --version, as lines
    linux: bool,                           // sys.platform.startswith('linux')
    cudnnHeader: Option<seq<string>>,      // readlines() of /usr/local/cuda/include/cudnn.h
    pip: Option<seq<string>>,              // pip list, as lines
    repoHeads: map<string, string>)        // head commit of the git repository at a path

  /** The report: fact names to values, in insertion order; `None` is
      Python's `None`. */
  type FactMap = OMap<string, Option<string>>

  /** The default `packages` argument. */
  const DefaultPackages: seq<string> := ["python", "virtualenv", "nvidia", "cudnn", "hostname", "torch"]

  /** The names handled before the final pass; every other requested name
      is looked up in the `pip list` output. */
  const Parsed: seq<string> := ["python", "virtualenv", "nvidia", "cudnn", "hostname", "sparseconvnet", "pytorch-lightning"]

  /** Packages whose `pip list` line gets the git head of their checkout. */
  const GitPackages: seq<string> := ["sparseconvnet", "pytorch-lightning"]

  function VirtualenvFact(env: map<string, string>): Option<string> {
    if "PS1" in env then Some(env["PS1"])
    else if "VIRTUAL_ENV" in env then Some(env["VIRTUAL_ENV"])
    else None
  }

  /** The leading run of digits and dots of the first line of
      `sys.version`, or that whole line when the run is empty;
      `splitlines()[0]` raises `IndexError` on an empty version string. */
  function PythonFact(version: string): Result<string, Exception> {
    match FirstLine(version)
    case None => Failure(IndexError)
    case Some(line) =>
      var run := LeadingVersion(line);
      Success(if run != "" then run else line)
  }

  /** The first line of the `nvidia-smi` output; no line at all raises
      `IndexError`. The output is never decoded, so the line is a `bytes`
      object and the report shows it as `b'...'`. */
  function DriverFact(smi: Option<seq<string>>): Result<string, Exception> {
    match smi
    case None => Failure(ProcessError)
    case Some(out) => if out == [] then Failure(IndexError) else Success(BytesStr(out[0]))
  }

  /** The CUDA release: on the first line of `nvcc --version` that starts
      with `release`, the stripped text between the first and the second
      `release`. Omitted when `nvcc` fails or no line starts with
      `release` (the `IndexError` of `[1]` is caught). */
  function CudaFact(nvcc: Option<seq<string>>): Option<string> {
    match nvcc
    case None => None
    case Some(out) =>
      var r := Found(out, "release", false).value;
      var parts := Split(r, "release");
      if |parts| > 1 then Some(Strip(parts[1])) else None
  }

  /** `"{}.{}.{}".format(major, minor, patchlevel)` from the `#define`
      lines of the cuDNN header. */
  function CudnnFact(header: seq<string>): string {
    Found(header, "#define CUDNN_MAJOR", true).value + "." +
    Found(header, "#define CUDNN_MINOR", true).value + "." +
    Found(header, "#define CUDNN_PATCHLEVEL", true).value
  }

  /** The `pip list` line of `key`, followed by the head commit of the
      repository named by the words after the first white-space run, when
      there is such a repository (otherwise the failure is caught and the
      line is kept). */
  function GitLine(pip: seq<string>, key: string, heads: map<string, string>): string
    requires key != ""
  {
    var line := Found(pip, key, true).value;
    var a := SplitOnSpaceRuns(line);
    if |a| > 1 && Join(" ", a[1..]) in heads then line + " " + heads[Join(" ", a[1..])]
    else line
  }

  function WithVirtualenv(packages: seq<string>, env: map<string, string>, m: FactMap): (r: FactMap)
    requires WellFormed(m)
    ensures WellFormed(r)
  {
    if "virtualenv" in packages then Put(m, "virtualenv", VirtualenvFact(env)) else m
  }

  function WithPython(packages: seq<string>, version: string, m: FactMap): (r: Result<FactMap, Exception>)
    requires WellFormed(m)
    ensures r.Success? ==> WellFormed(r.value)
  {
    if "python" !in packages then Success(m)
    else
      var v :- PythonFact(version);
      Success(Put(m, "python", Some(v)))
  }

  function WithHostname(packages: seq<string>, host: string, m: FactMap): (r: FactMap)
    requires WellFormed(m)
    ensures WellFormed(r)
  {
    if "hostname" in packages then Put(m, "hostname", Some(host)) else m
  }

  function WithNvidia(packages: seq<string>, smi: Option<seq<string>>, nvcc: Option<seq<string>>,
                      m: FactMap): (r: Result<FactMap, Exception>)
    requires WellFormed(m)
    ensures r.Success? ==> WellFormed(r.value)
  {
    if "nvidia" !in packages then Success(m)
    else
      var d :- DriverFact(smi);
      var m' := Put(m, "nvidia driver", Some(d));
      match CudaFact(nvcc)
      case None => Success(m')
      case Some(v) => Success(Put(m', "nvidia cuda", Some(v)))
  }

  function WithCudnn(packages: seq<string>, linux: bool, header: Option<seq<string>>, m: FactMap): (r: FactMap)
    requires WellFormed(m)
    ensures WellFormed(r)
  {
    if "cudnn" in packages && linux && header.Some? then Put(m, "cudnn", Some(CudnnFact(header.value)))
    else m
  }

  function PipLines(pip: Option<seq<string>>): Result<seq<string>, Exception> {
    match pip
    case None => Failure(ProcessError)
    case Some(lines) => Success(lines)
  }

  /** `if request in packages: lines[key] = find_in_lines(pip_list, name)`. */
  function WithLookup(packages: seq<string>, request: string, key: string, name: string, pip: seq<string>,
                      m: FactMap): (r: FactMap)
    requires WellFormed(m) && name != ""
    ensures WellFormed(r)
  {
    if request in packages then Put(m, key, Some(Found(pip, name, true).value)) else m
  }

  /** `keras` (looked up as `Keras`), `tensorflow` (stored and looked up
      as `tensorflow-gpu`) and `torch`. */
  function WithPip(packages: seq<string>, pip: seq<string>, m: FactMap): (r: FactMap)
    requires WellFormed(m)
    ensures WellFormed(r)
  {
    var m1 := WithLookup(packages, "keras", "keras", "Keras", pip, m);
    var m2 := WithLookup(packages, "tensorflow", "tensorflow-gpu", "tensorflow-gpu", pip, m1);
    WithLookup(packages, "torch", "torch", "torch", pip, m2)
  }

  /** The loop over the `keys` of packages with a git hash. */
  function WithGit(packages: seq<string>, keys: seq<string>, pip: seq<string>, heads: map<string, string>,
                   m: FactMap): (r: FactMap)
    requires WellFormed(m)
    requires forall k :: 0 <= k < |keys| ==> keys[k] != ""
    ensures WellFormed(r)
    decreases |keys|
  {
    if keys == [] then m
    else
      var m' := WithGit(packages, keys[..|keys| - 1], pip, heads, m);
      var key := keys[|keys| - 1];
      if key in packages then Put(m', key, Some(GitLine(pip, key, heads))) else m'
  }

  /** The final loop: every requested name that is not in `Parsed` is
      (re)assigned its `pip list` lookup. */
  function WithRequested(m: FactMap, keys: seq<string>, pip: seq<string>): (r: Result<FactMap, Exception>)
    requires WellFormed(m)
    ensures r.Success? ==> WellFormed(r.value)
    decreases |keys|
  {
    if keys == [] then Success(m)
    else
      var m' :- WithRequested(m, keys[..|keys| - 1], pip);
      var key := keys[|keys| - 1];
      if key in Parsed then Success(m')
      else
        var v :- Found(pip, key, true);
        Success(Put(m', key, Some(v)))
  }

  /** The facts that do not come from `pip list`. */
  function SystemFacts(packages: seq<string>, c: Captured): (r: Result<FactMap, Exception>)
    ensures r.Success? ==> WellFormed(r.value)
  {
    var m1 := WithVirtualenv(packages, c.environ, Empty());
    var m2 :- WithPython(packages, c.sysVersion, m1);
    var m3 := WithHostname(packages, c.hostname, m2);
    var m4 :- WithNvidia(packages, c.smi, c.nvcc, m3);
    Success(WithCudnn(packages, c.linux, c.cudnnHeader, m4))
  }

  /** The facts gathered before the final loop, with the `pip list` lines. */
  function Builtins(packages: seq<string>, c: Captured): (r: Result<(FactMap, seq<string>), Exception>)
    ensures r.Success? ==> WellFormed(r.value.0)
  {
    var m5 :- SystemFacts(packages, c);
    var pip :- PipLines(c.pip);
    Success((WithGit(packages, GitPackages, pip, c.repoHeads, WithPip(packages, pip, m5)), pip))
  }

  /** The `lines` ordered dict `watermark` builds. */
  function Facts(packages: seq<string>, c: Captured): (r: Result<FactMap, Exception>)
    ensures r.Success? ==> WellFormed(r.value)
  {
    var (m, pip) :- Builtins(packages, c);
    WithRequested(m, packages, pip)
  }

  // ---------------------------------------------------------------------
  // The report
  // ---------------------------------------------------------------------

  /** `str(v)` of a fact value. */
  function Render(v: Option<string>): string {
    match v
    case None => "None"
    case Some(s) => s
  }

  /** `"{: <15} {}".format(k + ":", v)`: the label padded with spaces to
      width 15 (never truncated), one space, then the value. */
  function FormatLine(k: string, v: Option<string>): (line: string)
    ensures var tag := k + ":";
            var w := if |tag| >= 15 then |tag| else 15;
            |line| == w + 1 + |Render(v)|
            && line[..|tag|] == tag
            && (forall j :: |tag| <= j <= w ==> line[j] == ' ')
            && line[w + 1..] == Render(v)
  {
    LJust(k + ":", 15) + " " + Render(v)
  }

  /** One line per fact, in the order of the facts. */
  function FormatLines(m: FactMap): seq<string>
    requires WellFormed(m)
  {
    seq(|m.keys|, i requires 0 <= i < |m.keys| => FormatLine(m.keys[i], m.vals[m.keys[i]]))
  }

  function FormatReport(m: FactMap): string
    requires WellFormed(m)
  {
    Join("\n", FormatLines(m))
  }

  /** What `watermark` returns: the report when `return_string` is set,
      `None` otherwise, or the exception that escapes. */
  function Report(packages: seq<string>, c: Captured, returnString: bool): Result<Option<string>, Exception> {
    var m :- Facts(packages, c);
    Success(if returnString then Some(FormatReport(m)) else None)
  }

  // ---------------------------------------------------------------------
  // watermark, step by step
  // ---------------------------------------------------------------------

  /** `watermark(packages, return_string)`: fills an ordered dict fact by
      fact, then formats it. Console output is not modelled. */
  method Watermark(packages: seq<string>, c: Captured, returnString: bool)
    returns (r: Result<Option<string>, Exception>)
    ensures r == Report(packages, c, returnString)
  {
    var lines := new OrderedDict<string, Option<string>>();
    AddVirtualenv(lines, packages, c.environ);
    var e := AddPython(lines, packages, c.sysVersion);
    if e.Some? {
      return Failure(e.value);
    }
    AddHostname(lines, packages, c.hostname);
    e := AddNvidia(lines, packages, c.smi, c.nvcc);
    if e.Some? {
      return Failure(e.value);
    }
    AddCudnn(lines, packages, c.linux, c.cudnnHeader);
    if c.pip.None? {
      return Failure(ProcessError);
    }
    var pip := c.pip.value;
    AddPipVersions(lines, packages, pip);
    AddGitLines(lines, packages, pip, c.repoHeads);
    e := AddRequested(lines, packages, pip);
    if e.Some? {
      return Failure(e.value);
    }
    var s := Join("\n", FormatLines(lines.Model()));
    if returnString {
      return Success(Some(s));
    }
    return Success(None);
  }

  method AddVirtualenv(lines: OrderedDict<string, Option<string>>, packages: seq<string>, env: map<string, string>)
    requires lines.Valid()
    modifies lines
    ensures lines.Valid() && lines.Model() == WithVirtualenv(packages, env, old(lines.Model()))
  {
    if "virtualenv" in packages {
      var v: Option<string> := None;
      if "PS1" in env {
        v := Some(env["PS1"]);
      } else if "VIRTUAL_ENV" in env {
        v := Some(env["VIRTUAL_ENV"]);
      }
      lines.Set("virtualenv", v);
    }
  }

  method AddPython(lines: OrderedDict<string, Option<string>>, packages: seq<string>, version: string)
    returns (e: Option<Exception>)
    requires lines.Valid()
    modifies lines
    ensures lines.Valid()
    ensures e.None? ==> WithPython(packages, version, old(lines.Model())) == Success(lines.Model())
    ensures e.Some? ==> WithPython(packages, version, old(lines.Model())) == Failure(e.value)
  {
    if "python" in packages {
      var first := FirstLine(version);
      if first.None? {
        return Some(IndexError);
      }
      var v := first.value;
      var run := LeadingVersion(v);
      if run != "" {
        v := run;
      }
      lines.Set("python", Some(v));
    }
    return None;
  }

  method AddHostname(lines: OrderedDict<string, Option<string>>, packages: seq<string>, host: string)
    requires lines.Valid()
    modifies lines
    ensures lines.Valid() && lines.Model() == WithHostname(packages, host, old(lines.Model()))
  {
    if "hostname" in packages {
      lines.Set("hostname", Some(host));
    }
  }

  method AddNvidia(lines: OrderedDict<string, Option<string>>, packages: seq<string>,
                   smi: Option<seq<string>>, nvcc: Option<seq<string>>)
    returns (e: Option<Exception>)
    requires lines.Valid()
    modifies lines
    ensures lines.Valid()
    ensures e.None? ==> WithNvidia(packages, smi, nvcc, old(lines.Model())) == Success(lines.Model())
    ensures e.Some? ==> WithNvidia(packages, smi, nvcc, old(lines.Model())) == Failure(e.value)
  {
    if "nvidia" in packages {
      if smi.None? {
        return Some(ProcessError);
      }
      if smi.value == [] {
        return Some(IndexError);
      }
      lines.Set("nvidia driver", Some(BytesStr(smi.value[0])));
      if nvcc.Some? {
        var found := FindInLines(nvcc.value, "release", false);
        var parts := Split(found.value, "release");
        if |parts| > 1 {
          lines.Set("nvidia cuda", Some(Strip(parts[1])));
        }
      }
    }
    return None;
  }

  method AddCudnn(lines: OrderedDict<string, Option<string>>, packages: seq<string>, linux: bool,
                  header: Option<seq<string>>)
    requires lines.Valid()
    modifies lines
    ensures lines.Valid() && lines.Model() == WithCudnn(packages, linux, header, old(lines.Model()))
  {
    if "cudnn" in packages && linux && header.Some? {
      var v1 := FindInLines(header.value, "#define CUDNN_MAJOR", true);
      var v2 := FindInLines(header.value, "#define CUDNN_MINOR", true);
      var v3 := FindInLines(header.value, "#define CUDNN_PATCHLEVEL", true);
      lines.Set("cudnn", Some(v1.value + "." + v2.value + "." + v3.value));
    }
  }

  /** The keras, tensorflow and torch steps. */
  method AddPipVersions(lines: OrderedDict<string, Option<string>>, packages: seq<string>, pip: seq<string>)
    requires lines.Valid()
    modifies lines
    ensures lines.Valid() && lines.Model() == WithPip(packages, pip, old(lines.Model()))
  {
    if "keras" in packages {
      var v := FindInLines(pip, "Keras", true);
      lines.Set("keras", Some(v.value));
    }
    if "tensorflow" in packages {
      var v := FindInLines(pip, "tensorflow-gpu", true);
      lines.Set("tensorflow-gpu", Some(v.value));
    }
    if "torch" in packages {
      var v := FindInLines(pip, "torch", true);
      lines.Set("torch", Some(v.value));
    }
  }

  /** The loop over the packages with a git hash. */
  method AddGitLines(lines: OrderedDict<string, Option<string>>, packages: seq<string>, pip: seq<string>,
                     heads: map<string, string>)
    requires lines.Valid()
    modifies lines
    ensures lines.Valid() && lines.Model() == WithGit(packages, GitPackages, pip, heads, old(lines.Model()))
  {
    ghost var m := lines.Model();
    var keys := GitPackages;
    var k := 0;
    while k < |keys|
      invariant k <= |keys|
      invariant lines.Valid()
      invariant lines.Model() == WithGit(packages, keys[..k], pip, heads, m)
    {
      AddGitLine(lines, packages, keys[k], pip, heads);
      assert keys[..k + 1][..k] == keys[..k];
      k := k + 1;
    }
    assert keys[..k] == keys;
  }

  /** One step of that loop: the `pip list` line of `key`, with the
      head commit appended when the rest of the line names a checkout. */
  method AddGitLine(lines: OrderedDict<string, Option<string>>, packages: seq<string>, key: string,
                    pip: seq<string>, heads: map<string, string>)
    requires lines.Valid() && key != ""
    modifies lines
    ensures lines.Valid()
    ensures lines.Model() == if key in packages then Put(old(lines.Model()), key, Some(GitLine(pip, key, heads)))
                             else old(lines.Model())
  {
    if key in packages {
      var found := FindInLines(pip, key, true);
      var line := found.value;
      var a := SplitOnSpaceRuns(line);
      if |a| > 1 {
        var path := Join(" ", a[1..]);
        if path in heads {
          line := line + " " + heads[path];
        }
      }
      lines.Set(key, Some(line));
    }
  }

  /** The final loop over the requested names. */
  method AddRequested(lines: OrderedDict<string, Option<string>>, packages: seq<string>, pip: seq<string>)
    returns (e: Option<Exception>)
    requires lines.Valid()
    modifies lines
    ensures lines.Valid()
    ensures e.None? ==> WithRequested(old(lines.Model()), packages, pip) == Success(lines.Model())
    ensures e.Some? ==> WithRequested(old(lines.Model()), packages, pip) == Failure(e.value)
  {
    ghost var m := lines.Model();
    var i := 0;
    while i < |packages|
      invariant i <= |packages|
      invariant lines.Valid()
      invariant WithRequested(m, packages[..i], pip).Success?
      invariant lines.Model() == WithRequested(m, packages[..i], pip).value
    {
      var key := packages[i];
      assert packages[..i + 1][..i] == packages[..i];
      if key !in Parsed {
        var found := FindInLines(pip, key, true);
        if found.Failure? {
          WithRequestedFailure(m, packages, pip, i + 1);
          return Some(found.error);
        }
        lines.Set(key, Some(found.value));
      }
      i := i + 1;
    }
    assert packages[..i] == packages;
    return None;
  }

  /** A failure in the final loop is the failure of the whole loop. */
  lemma {:induction false} WithRequestedFailure(m: FactMap, keys: seq<string>, pip: seq<string>, n: nat)
    requires WellFormed(m) && n <= |keys|
    requires WithRequested(m, keys[..n], pip).Failure?
    ensures WithRequested(m, keys, pip) == WithRequested(m, keys[..n], pip)
    decreases |keys| - n
  {
    if n < |keys| {
      assert keys[..n + 1][..n] == keys[..n];
      WithRequestedFailure(m, keys, pip, n + 1);
    } else {
      assert keys[..n] == keys;
    }
  }
}
