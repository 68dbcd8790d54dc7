/** What the report of `watermark` holds: which facts are present, their
    values, their order, and the shape of the formatted text. */
module WatermarkFacts {
  import opened Wrappers
  import opened Exceptions
  import opened PyStr
  import opened OrderedMaps
  import opened Watermark

  /** `k` has the same entry (or none) in both maps. */
  ghost predicate AgreeOn(a: FactMap, b: FactMap, k: string) {
    (k in a.vals <==> k in b.vals) && (k in a.vals ==> a.vals[k] == b.vals[k])
  }

  /** The intermediate dicts of a run that does not raise. */
  lemma {:induction false} Steps(packages: seq<string>, c: Captured)
    returns (m1: FactMap, m2: FactMap, m3: FactMap, m4: FactMap, m5: FactMap,
             pip: seq<string>, m6: FactMap, b: FactMap)
    requires Facts(packages, c).Success?
    ensures WellFormed(m1) && WellFormed(m2) && WellFormed(m3) && WellFormed(m4) && WellFormed(m5)
    ensures WellFormed(m6) && WellFormed(b)
    ensures m1 == WithVirtualenv(packages, c.environ, Empty())
    ensures WithPython(packages, c.sysVersion, m1) == Success(m2)
    ensures m3 == WithHostname(packages, c.hostname, m2)
    ensures WithNvidia(packages, c.smi, c.nvcc, m3) == Success(m4)
    ensures m5 == WithCudnn(packages, c.linux, c.cudnnHeader, m4)
    ensures c.pip == Some(pip)
    ensures m6 == WithPip(packages, pip, m5)
    ensures b == WithGit(packages, GitPackages, pip, c.repoHeads, m6)
    ensures Builtins(packages, c) == Success((b, pip))
    ensures WithRequested(b, packages, pip) == Facts(packages, c)
  {
    m1 := WithVirtualenv(packages, c.environ, Empty());
    m2 := WithPython(packages, c.sysVersion, m1).value;
    m3 := WithHostname(packages, c.hostname, m2);
    m4 := WithNvidia(packages, c.smi, c.nvcc, m3).value;
    m5 := WithCudnn(packages, c.linux, c.cudnnHeader, m4);
    pip := c.pip.value;
    m6 := WithPip(packages, pip, m5);
    b := WithGit(packages, GitPackages, pip, c.repoHeads, m6);
  }

  // ---------------------------------------------------------------------
  // Each step writes only its own keys
  // ---------------------------------------------------------------------

  lemma {:induction false} VirtualenvAgree(packages: seq<string>, env: map<string, string>, m: FactMap, k: string)
    requires WellFormed(m) && k != "virtualenv"
    ensures AgreeOn(m, WithVirtualenv(packages, env, m), k)
  {
  }

  lemma {:induction false} PythonAgree(packages: seq<string>, version: string, m: FactMap, m': FactMap, k: string)
    requires WellFormed(m) && WithPython(packages, version, m) == Success(m') && k != "python"
    ensures AgreeOn(m, m', k)
  {
  }

  lemma {:induction false} HostnameAgree(packages: seq<string>, host: string, m: FactMap, k: string)
    requires WellFormed(m) && k != "hostname"
    ensures AgreeOn(m, WithHostname(packages, host, m), k)
  {
  }

  lemma {:induction false} NvidiaAgree(packages: seq<string>, smi: Option<seq<string>>, nvcc: Option<seq<string>>,
                                       m: FactMap, m': FactMap, k: string)
    requires WellFormed(m) && WithNvidia(packages, smi, nvcc, m) == Success(m')
    requires k != "nvidia driver" && k != "nvidia cuda"
    ensures AgreeOn(m, m', k)
  {
  }

  lemma {:induction false} CudnnAgree(packages: seq<string>, linux: bool, header: Option<seq<string>>, m: FactMap, k: string)
    requires WellFormed(m) && k != "cudnn"
    ensures AgreeOn(m, WithCudnn(packages, linux, header, m), k)
  {
  }

  lemma {:induction false} PipAgree(packages: seq<string>, pip: seq<string>, m: FactMap, k: string)
    requires WellFormed(m) && k != "keras" && k != "tensorflow-gpu" && k != "torch"
    ensures AgreeOn(m, WithPip(packages, pip, m), k)
  {
    var m1 := WithLookup(packages, "keras", "keras", "Keras", pip, m);
    var m2 := WithLookup(packages, "tensorflow", "tensorflow-gpu", "tensorflow-gpu", pip, m1);
    LookupAgree(packages, "keras", "keras", "Keras", pip, m, k);
    LookupAgree(packages, "tensorflow", "tensorflow-gpu", "tensorflow-gpu", pip, m1, k);
    LookupAgree(packages, "torch", "torch", "torch", pip, m2, k);
  }

  lemma {:induction false} LookupAgree(packages: seq<string>, request: string, key: string, name: string,
                                       pip: seq<string>, m: FactMap, k: string)
    requires WellFormed(m) && name != "" && k != key
    ensures AgreeOn(m, WithLookup(packages, request, key, name, pip, m), k)
  {
  }

  /** What the nvidia step sets: the first line of the `nvidia-smi`
      output as the driver. */
  lemma {:induction false} NvidiaSets(packages: seq<string>, smi: Option<seq<string>>, nvcc: Option<seq<string>>,
                                      m: FactMap, m': FactMap)
    requires WellFormed(m) && WithNvidia(packages, smi, nvcc, m) == Success(m')
    ensures "nvidia" in packages ==>
              smi.Some? && smi.value != [] && "nvidia driver" in m'.vals && m'.vals["nvidia driver"] == Some(BytesStr(smi.value[0]))
    ensures "nvidia" !in packages ==> m' == m
  {
    if "nvidia" in packages {
      var d := DriverFact(smi).value;
      var m1 := Put(m, "nvidia driver", Some(d));
      assert "nvidia driver" != "nvidia cuda";
    }
  }

  // ---------------------------------------------------------------------
  // The loops
  // ---------------------------------------------------------------------

  /** The git loop touches only its own keys and keeps the earlier keys
      in place. */
  lemma {:induction false} WithGitAgree(packages: seq<string>, keys: seq<string>, pip: seq<string>,
                                        heads: map<string, string>, m: FactMap, k: string)
    requires WellFormed(m) && forall i :: 0 <= i < |keys| ==> keys[i] != ""
    requires k !in keys
    ensures AgreeOn(m, WithGit(packages, keys, pip, heads, m), k)
    decreases |keys|
  {
    if keys != [] {
      var front := keys[..|keys| - 1];
      assert k !in front by {
        assert forall x :: x in front ==> x in keys;
      }
      WithGitAgree(packages, front, pip, heads, m, k);
    }
  }

  /** The final loop, when it does not raise, keeps the earlier keys in
      place... */
  lemma {:induction false} WithRequestedKeepsPositions(m: FactMap, keys: seq<string>, pip: seq<string>)
    requires WellFormed(m) && WithRequested(m, keys, pip).Success?
    ensures var r := WithRequested(m, keys, pip).value;
            |m.keys| <= |r.keys| && r.keys[..|m.keys|] == m.keys
    decreases |keys|
  {
    if keys != [] {
      WithRequestedKeepsPositions(m, keys[..|keys| - 1], pip);
    }
  }

  /** ...adds exactly the requested names not in `Parsed`... */
  lemma {:induction false} WithRequestedHas(m: FactMap, keys: seq<string>, pip: seq<string>, k: string)
    requires WellFormed(m) && WithRequested(m, keys, pip).Success?
    ensures k in WithRequested(m, keys, pip).value.vals <==> k in m.vals || (k in keys && k !in Parsed)
    decreases |keys|
  {
    if keys != [] {
      var front := keys[..|keys| - 1];
      assert keys == front + [keys[|keys| - 1]];
      WithRequestedHas(m, front, pip, k);
    }
  }

  /** ...leaves the entries of all other names alone... */
  lemma {:induction false} WithRequestedAgree(m: FactMap, keys: seq<string>, pip: seq<string>, k: string)
    requires WellFormed(m) && WithRequested(m, keys, pip).Success?
    requires k in Parsed || k !in keys
    ensures AgreeOn(m, WithRequested(m, keys, pip).value, k)
    decreases |keys|
  {
    if keys != [] {
      var front := keys[..|keys| - 1];
      assert keys == front + [keys[|keys| - 1]];
      WithRequestedAgree(m, front, pip, k);
    }
  }

  /** ...and gives each such name its `pip list` lookup. */
  lemma {:induction false} WithRequestedValue(m: FactMap, keys: seq<string>, pip: seq<string>, k: string)
    requires WellFormed(m) && WithRequested(m, keys, pip).Success?
    requires k in keys && k !in Parsed
    ensures var r := WithRequested(m, keys, pip).value;
            k in r.vals && r.vals[k].Some? && Found(pip, k, true) == Success(r.vals[k].value)
    decreases |keys|
  {
    var front := keys[..|keys| - 1];
    var key := keys[|keys| - 1];
    assert keys == front + [key];
    var m' := WithRequested(m, front, pip).value;
    if key != k {
      WithRequestedValue(m, front, pip, k);
    }
  }

  /** The final loop raises exactly when an empty name is requested and
      `pip list` printed something (`str.split('')` raises). */
  lemma {:induction false} WithRequestedSucceeds(m: FactMap, keys: seq<string>, pip: seq<string>)
    requires WellFormed(m)
    ensures WithRequested(m, keys, pip).Success? <==> ("" in keys ==> pip == [])
    decreases |keys|
  {
    if keys != [] {
      var front := keys[..|keys| - 1];
      var key := keys[|keys| - 1];
      assert keys == front + [key];
      WithRequestedSucceeds(m, front, pip);
      assert "" !in Parsed;
    }
  }

  // ---------------------------------------------------------------------
  // The facts
  // ---------------------------------------------------------------------

  /** `watermark` raises exactly when: the python fact is requested and
      `sys.version` is empty; the nvidia fact is requested and
      `nvidia-smi` fails or prints nothing; `pip list` fails; or an empty
      name is requested and `pip list` printed something. */
  lemma {:induction false} FactsSucceed(packages: seq<string>, c: Captured)
    ensures Facts(packages, c).Success? <==>
              ("python" in packages ==> c.sysVersion != "")
              && ("nvidia" in packages ==> c.smi.Some? && c.smi.value != [])
              && c.pip.Some?
              && ("" in packages ==> c.pip.value == [])
  {
    if Builtins(packages, c).Success? {
      var (b, pip) := Builtins(packages, c).value;
      WithRequestedSucceeds(b, packages, pip);
    }
  }

  /** The virtualenv fact: `PS1` when set, else `VIRTUAL_ENV` when set,
      else `None`; present exactly when requested. */
  lemma {:induction false} FactsVirtualenv(packages: seq<string>, c: Captured)
    requires Facts(packages, c).Success?
    ensures var m := Facts(packages, c).value;
            ("virtualenv" in m.vals <==> "virtualenv" in packages)
            && ("virtualenv" in packages ==>
                  m.vals["virtualenv"] == if "PS1" in c.environ then Some(c.environ["PS1"])
                                          else if "VIRTUAL_ENV" in c.environ then Some(c.environ["VIRTUAL_ENV"])
                                          else None)
  {
    var k := "virtualenv";
    var m1, m2, m3, m4, m5, pip, m6, b := Steps(packages, c);
    PythonAgree(packages, c.sysVersion, m1, m2, k);
    HostnameAgree(packages, c.hostname, m2, k);
    NvidiaAgree(packages, c.smi, c.nvcc, m3, m4, k);
    CudnnAgree(packages, c.linux, c.cudnnHeader, m4, k);
    PipAgree(packages, pip, m5, k);
    WithGitAgree(packages, GitPackages, pip, c.repoHeads, m6, k);
    WithRequestedAgree(b, packages, pip, k);
  }

  /** The python fact: the leading digits and dots of the first line of
      `sys.version`, or the whole first line when there are none. */
  lemma {:induction false} FactsPython(packages: seq<string>, c: Captured)
    requires Facts(packages, c).Success?
    ensures var m := Facts(packages, c).value;
            ("python" in m.vals <==> "python" in packages)
            && ("python" in packages ==>
                  c.sysVersion != ""
                  && var line := FirstLine(c.sysVersion).value;
                     var run := LeadingVersion(line);
                     m.vals["python"] == Some(if run != "" then run else line))
  {
    var k := "python";
    var m1, m2, m3, m4, m5, pip, m6, b := Steps(packages, c);
    VirtualenvAgree(packages, c.environ, Empty(), k);
    HostnameAgree(packages, c.hostname, m2, k);
    NvidiaAgree(packages, c.smi, c.nvcc, m3, m4, k);
    CudnnAgree(packages, c.linux, c.cudnnHeader, m4, k);
    PipAgree(packages, pip, m5, k);
    WithGitAgree(packages, GitPackages, pip, c.repoHeads, m6, k);
    WithRequestedAgree(b, packages, pip, k);
  }

  /** The hostname fact is `platform.node()`. */
  lemma {:induction false} FactsHostname(packages: seq<string>, c: Captured)
    requires Facts(packages, c).Success?
    ensures var m := Facts(packages, c).value;
            ("hostname" in m.vals <==> "hostname" in packages)
            && ("hostname" in packages ==> m.vals["hostname"] == Some(c.hostname))
  {
    var k := "hostname";
    var m1, m2, m3, m4, m5, pip, m6, b := Steps(packages, c);
    VirtualenvAgree(packages, c.environ, Empty(), k);
    PythonAgree(packages, c.sysVersion, m1, m2, k);
    NvidiaAgree(packages, c.smi, c.nvcc, m3, m4, k);
    CudnnAgree(packages, c.linux, c.cudnnHeader, m4, k);
    PipAgree(packages, pip, m5, k);
    WithGitAgree(packages, GitPackages, pip, c.repoHeads, m6, k);
    WithRequestedAgree(b, packages, pip, k);
  }

  /** The driver fact is the first line printed by `nvidia-smi`, shown as
      the `bytes` it is (unless
      `nvidia driver` is itself requested, which the final loop would
      overwrite). */
  lemma {:induction false} FactsDriver(packages: seq<string>, c: Captured)
    requires Facts(packages, c).Success? && "nvidia driver" !in packages
    ensures var m := Facts(packages, c).value;
            ("nvidia driver" in m.vals <==> "nvidia" in packages)
            && ("nvidia" in packages ==> m.vals["nvidia driver"] == Some(BytesStr(c.smi.value[0])))
  {
    var k := "nvidia driver";
    var m1, m2, m3, m4, m5, pip, m6, b := Steps(packages, c);
    VirtualenvAgree(packages, c.environ, Empty(), k);
    PythonAgree(packages, c.sysVersion, m1, m2, k);
    HostnameAgree(packages, c.hostname, m2, k);
    NvidiaSets(packages, c.smi, c.nvcc, m3, m4);
    CudnnAgree(packages, c.linux, c.cudnnHeader, m4, k);
    PipAgree(packages, pip, m5, k);
    WithGitAgree(packages, GitPackages, pip, c.repoHeads, m6, k);
    WithRequestedAgree(b, packages, pip, k);
  }

  /** The CUDA fact is present exactly when the nvidia facts are
      requested, `nvcc` runs, and one of its lines starts with `release`;
      its value is then the stripped text after that `release`. */
  lemma {:induction false} FactsCuda(packages: seq<string>, c: Captured)
    requires Facts(packages, c).Success? && "nvidia cuda" !in packages
    ensures var m := Facts(packages, c).value;
            ("nvidia cuda" in m.vals <==>
               "nvidia" in packages && c.nvcc.Some?
               && exists j :: 0 <= j < |c.nvcc.value| && StartsWith(c.nvcc.value[j], "release"))
            && ("nvidia cuda" in m.vals ==> m.vals["nvidia cuda"] == CudaFact(c.nvcc))
  {
    var k := "nvidia cuda";
    var m1, m2, m3, m4, m5, pip, m6, b := Steps(packages, c);
    VirtualenvAgree(packages, c.environ, Empty(), k);
    PythonAgree(packages, c.sysVersion, m1, m2, k);
    HostnameAgree(packages, c.hostname, m2, k);
    CudnnAgree(packages, c.linux, c.cudnnHeader, m4, k);
    PipAgree(packages, pip, m5, k);
    WithGitAgree(packages, GitPackages, pip, c.repoHeads, m6, k);
    WithRequestedAgree(b, packages, pip, k);
    if c.nvcc.Some? {
      CudaFactPresent(c.nvcc.value);
    }
  }

  /** `CudaFact` finds a release exactly when some line starts with
      `release`. */
  lemma {:induction false} CudaFactPresent(out: seq<string>)
    ensures CudaFact(Some(out)).Some? <==> exists j :: 0 <= j < |out| && StartsWith(out[j], "release")
  {
    match FirstStarting(out, "release")
    case None =>
      assert Found(out, "release", false).value == "";
      assert Split("", "release") == [""];
    case Some(i) =>
      var line := out[i];
      StripKeepsPrefix(line, "release");
      SplitAfterPrefix(Strip(line), "release");
  }

  /** Every line `nvcc --version` prints starts with a letter other than
      `r` (`nvcc: NVIDIA (R) Cuda compiler driver`, `Copyright (c) ...`,
      `Built on ...`, `Cuda compilation tools, release 11.2, V11.2.152`,
      `Build cuda_...`): its release sits in the middle of a line, so the
      CUDA fact is never found in such output. */
  lemma {:induction false} CudaOmittedForNvccOutput(out: seq<string>)
    requires forall j :: 0 <= j < |out| ==> out[j] != "" && out[j][0] != 'r'
    ensures CudaFact(Some(out)) == None
  {
    forall j | 0 <= j < |out| ensures !StartsWith(out[j], "release") {
      assert "release"[0] == 'r';
    }
    CudaFactPresent(out);
  }

  /** The cuDNN fact is present exactly when requested on Linux with a
      readable header, and is then `major.minor.patchlevel`. */
  lemma {:induction false} FactsCudnn(packages: seq<string>, c: Captured)
    requires Facts(packages, c).Success?
    ensures var m := Facts(packages, c).value;
            ("cudnn" in m.vals <==> "cudnn" in packages && c.linux && c.cudnnHeader.Some?)
            && ("cudnn" in m.vals ==>
                  var h := c.cudnnHeader.value;
                  m.vals["cudnn"] == Some(Found(h, "#define CUDNN_MAJOR", true).value + "." +
                                          Found(h, "#define CUDNN_MINOR", true).value + "." +
                                          Found(h, "#define CUDNN_PATCHLEVEL", true).value))
  {
    var k := "cudnn";
    var m1, m2, m3, m4, m5, pip, m6, b := Steps(packages, c);
    VirtualenvAgree(packages, c.environ, Empty(), k);
    PythonAgree(packages, c.sysVersion, m1, m2, k);
    HostnameAgree(packages, c.hostname, m2, k);
    NvidiaAgree(packages, c.smi, c.nvcc, m3, m4, k);
    PipAgree(packages, pip, m5, k);
    WithGitAgree(packages, GitPackages, pip, c.repoHeads, m6, k);
    WithRequestedAgree(b, packages, pip, k);
  }

  /** Every requested name outside `Parsed` gets its `pip list` lookup
      (so `keras`, first looked up as `Keras`, ends with the lower-case
      lookup)... */
  lemma {:induction false} FactsRequested(packages: seq<string>, c: Captured, key: string)
    requires Facts(packages, c).Success? && key in packages && key !in Parsed
    ensures var m := Facts(packages, c).value;
            c.pip.Some? && key in m.vals && m.vals[key].Some?
            && Found(c.pip.value, key, true) == Success(m.vals[key].value)
  {
    var m1, m2, m3, m4, m5, pip, m6, b := Steps(packages, c);
    WithRequestedValue(b, packages, pip, key);
  }

  /** ...which is `''` when no line starts with the name. */
  lemma {:induction false} FactsUnmatched(packages: seq<string>, c: Captured, key: string)
    requires Facts(packages, c).Success? && key in packages && key !in Parsed
    requires c.pip.Some? && forall j :: 0 <= j < |c.pip.value| ==> !StartsWith(c.pip.value[j], key)
    ensures key in Facts(packages, c).value.vals && Facts(packages, c).value.vals[key] == Some("")
  {
    FactsRequested(packages, c, key);
    FoundFirstMatch(c.pip.value, key, true, |c.pip.value|);
  }

  /** The facts gathered before the final loop keep their positions; the
      final loop only adds the requested names not in `Parsed`. */
  lemma {:induction false} FactsKeepPositions(packages: seq<string>, c: Captured)
    requires Facts(packages, c).Success?
    ensures var b := Builtins(packages, c).value.0;
            var m := Facts(packages, c).value;
            |b.keys| <= |m.keys| && m.keys[..|b.keys|] == b.keys
            && forall k :: k in m.vals <==> k in b.vals || (k in packages && k !in Parsed)
  {
    var m1, m2, m3, m4, m5, pip, m6, b := Steps(packages, c);
    WithRequestedKeepsPositions(b, packages, pip);
    forall k {
      WithRequestedHas(b, packages, pip, k);
    }
  }

  /** When every requested name outside `Parsed` is already a key, the
      final loop changes no position. */
  lemma {:induction false} WithRequestedPresent(m: FactMap, keys: seq<string>, pip: seq<string>)
    requires WellFormed(m)
    requires forall i :: 0 <= i < |keys| && keys[i] !in Parsed ==> keys[i] in m.vals && keys[i] != ""
    ensures WithRequested(m, keys, pip).Success?
    ensures WithRequested(m, keys, pip).value.keys == m.keys
    decreases |keys|
  {
    if keys != [] {
      var front := keys[..|keys| - 1];
      assert forall i :: 0 <= i < |front| ==> front[i] == keys[i];
      WithRequestedPresent(m, front, pip);
      var m' := WithRequested(m, front, pip).value;
      WithRequestedHas(m, front, pip, keys[|keys| - 1]);
    }
  }

  // Each step of the default request, on a dict whose keys are `a`.

  lemma {:induction false} PythonAppends(ps: seq<string>, version: string, m: FactMap, m': FactMap, a: seq<string>)
    requires WellFormed(m) && m.keys == a && "python" in ps && "python" !in a
    requires WithPython(ps, version, m) == Success(m')
    ensures m'.keys == a + ["python"]
  {
  }

  lemma {:induction false} NvidiaAppends(ps: seq<string>, smi: Option<seq<string>>, nvcc: Option<seq<string>>,
                                         m: FactMap, m': FactMap, a: seq<string>)
    requires WellFormed(m) && m.keys == a && "nvidia" in ps && "nvidia driver" !in a && "nvidia cuda" !in a
    requires WithNvidia(ps, smi, nvcc, m) == Success(m')
    ensures m'.keys == a + ["nvidia driver"] + (if CudaFact(nvcc).Some? then ["nvidia cuda"] else [])
  {
    var m1 := Put(m, "nvidia driver", Some(DriverFact(smi).value));
    assert "nvidia cuda" !in m1.vals;
  }

  lemma {:induction false} CudnnAppends(ps: seq<string>, linux: bool, header: Option<seq<string>>,
                                        m: FactMap, a: seq<string>)
    requires WellFormed(m) && m.keys == a && "cudnn" !in a
    ensures WithCudnn(ps, linux, header, m).keys == a + (if "cudnn" in ps && linux && header.Some? then ["cudnn"] else [])
  {
  }

  lemma {:induction false} PipAppendsTorch(ps: seq<string>, pip: seq<string>, m: FactMap, a: seq<string>)
    requires WellFormed(m) && m.keys == a && "torch" !in a
    requires "keras" !in ps && "tensorflow" !in ps && "torch" in ps
    ensures WithPip(ps, pip, m).keys == a + ["torch"]
  {
  }

  lemma {:induction false} GitNotRequested(ps: seq<string>, pip: seq<string>, heads: map<string, string>, m: FactMap)
    requires WellFormed(m) && "sparseconvnet" !in ps && "pytorch-lightning" !in ps
    ensures WithGit(ps, GitPackages, pip, heads, m) == m
  {
    assert GitPackages[..1] == ["sparseconvnet"] && GitPackages[..1][..0] == [];
  }

  lemma {:induction false} VirtualenvFirst(ps: seq<string>, env: map<string, string>)
    requires "virtualenv" in ps
    ensures WithVirtualenv(ps, env, Empty()).keys == ["virtualenv"]
  {
  }

  lemma {:induction false} HostnameAppends(ps: seq<string>, host: string, m: FactMap, a: seq<string>)
    requires WellFormed(m) && m.keys == a && "hostname" in ps && "hostname" !in a
    ensures WithHostname(ps, host, m).keys == a + ["hostname"]
  {
  }

  lemma {:induction false} HostLiterals()
    ensures "python" !in ["virtualenv"] && ["virtualenv"] + ["python"] == ["virtualenv", "python"]
    ensures "hostname" !in ["virtualenv", "python"]
    ensures ["virtualenv", "python"] + ["hostname"] == ["virtualenv", "python", "hostname"]
  {
  }

  /** The first three facts, in the order the code assigns them. */
  lemma {:induction false} HostFactOrder(ps: seq<string>, c: Captured)
    requires "virtualenv" in ps && "python" in ps && "hostname" in ps
    requires WithPython(ps, c.sysVersion, WithVirtualenv(ps, c.environ, Empty())).Success?
    ensures var m2 := WithPython(ps, c.sysVersion, WithVirtualenv(ps, c.environ, Empty())).value;
            WithHostname(ps, c.hostname, m2).keys == ["virtualenv", "python", "hostname"]
  {
    var m1 := WithVirtualenv(ps, c.environ, Empty());
    var m2 := WithPython(ps, c.sysVersion, m1).value;
    VirtualenvFirst(ps, c.environ);
    HostLiterals();
    PythonAppends(ps, c.sysVersion, m1, m2, ["virtualenv"]);
    HostnameAppends(ps, c.hostname, m2, ["virtualenv", "python"]);
  }

  lemma {:induction false} NvidiaLiterals()
    ensures "nvidia driver" !in ["virtualenv", "python", "hostname"]
    ensures "nvidia cuda" !in ["virtualenv", "python", "hostname"]
    ensures ["virtualenv", "python", "hostname"] + ["nvidia driver"]
            == ["virtualenv", "python", "hostname", "nvidia driver"]
  {
  }

  /** The nvidia facts follow the first three. */
  lemma {:induction false} NvidiaFactOrder(ps: seq<string>, c: Captured)
    requires SystemFacts(ps, c).Success?
    requires "virtualenv" in ps && "python" in ps && "hostname" in ps && "nvidia" in ps
    ensures var m1 := WithVirtualenv(ps, c.environ, Empty());
            var m2 := WithPython(ps, c.sysVersion, m1).value;
            var m3 := WithHostname(ps, c.hostname, m2);
            WithNvidia(ps, c.smi, c.nvcc, m3).value.keys
            == ["virtualenv", "python", "hostname", "nvidia driver"]
               + (if CudaFact(c.nvcc).Some? then ["nvidia cuda"] else [])
  {
    var m1 := WithVirtualenv(ps, c.environ, Empty());
    var m2 := WithPython(ps, c.sysVersion, m1).value;
    var m3 := WithHostname(ps, c.hostname, m2);
    var m4 := WithNvidia(ps, c.smi, c.nvcc, m3).value;
    HostFactOrder(ps, c);
    NvidiaLiterals();
    NvidiaAppends(ps, c.smi, c.nvcc, m3, m4, ["virtualenv", "python", "hostname"]);
  }

  /** The cuDNN fact follows the nvidia facts. */
  lemma {:induction false} CudnnFactOrder(ps: seq<string>, c: Captured, a4: seq<string>)
    requires SystemFacts(ps, c).Success?
    requires var m1 := WithVirtualenv(ps, c.environ, Empty());
             var m2 := WithPython(ps, c.sysVersion, m1).value;
             var m3 := WithHostname(ps, c.hostname, m2);
             WithNvidia(ps, c.smi, c.nvcc, m3).value.keys == a4
    requires "cudnn" !in a4
    ensures SystemFacts(ps, c).value.keys
            == a4 + (if "cudnn" in ps && c.linux && c.cudnnHeader.Some? then ["cudnn"] else [])
  {
    var m1 := WithVirtualenv(ps, c.environ, Empty());
    var m2 := WithPython(ps, c.sysVersion, m1).value;
    var m3 := WithHostname(ps, c.hostname, m2);
    var m4 := WithNvidia(ps, c.smi, c.nvcc, m3).value;
    CudnnAppends(ps, c.linux, c.cudnnHeader, m4, a4);
    assert SystemFacts(ps, c) == Success(WithCudnn(ps, c.linux, c.cudnnHeader, m4));
  }

  lemma {:induction false} NoCudnnKey(hasCuda: bool)
    ensures "cudnn" !in ["virtualenv", "python", "hostname", "nvidia driver"] + (if hasCuda then ["nvidia cuda"] else [])
  {
  }

  /** The facts that do not come from `pip list`, for a request of the
      virtualenv, python, hostname and nvidia facts. */
  lemma {:induction false} SystemFactOrder(ps: seq<string>, c: Captured)
    requires SystemFacts(ps, c).Success?
    requires "virtualenv" in ps && "python" in ps && "hostname" in ps && "nvidia" in ps
    ensures SystemFacts(ps, c).value.keys
            == ["virtualenv", "python", "hostname", "nvidia driver"]
               + (if CudaFact(c.nvcc).Some? then ["nvidia cuda"] else [])
               + (if "cudnn" in ps && c.linux && c.cudnnHeader.Some? then ["cudnn"] else [])
  {
    var hasCuda := CudaFact(c.nvcc).Some?;
    var a4 := ["virtualenv", "python", "hostname", "nvidia driver"] + (if hasCuda then ["nvidia cuda"] else []);
    NvidiaFactOrder(ps, c);
    NoCudnnKey(hasCuda);
    CudnnFactOrder(ps, c, a4);
  }

  lemma {:induction false} NoTorchKey(a: seq<string>, hasCuda: bool, hasCudnn: bool)
    requires a == ["virtualenv", "python", "hostname", "nvidia driver"]
                  + (if hasCuda then ["nvidia cuda"] else []) + (if hasCudnn then ["cudnn"] else [])
    ensures "torch" !in a
  {
  }

  /** The names of such a request: built-in facts and `torch`. */
  lemma {:induction false} RequestNames(ps: seq<string>)
    requires forall i :: 0 <= i < |ps| ==> ps[i] in ["virtualenv", "python", "hostname", "nvidia", "cudnn", "torch"]
    ensures "keras" !in ps && "tensorflow" !in ps && "sparseconvnet" !in ps && "pytorch-lightning" !in ps
    ensures forall i :: 0 <= i < |ps| ==> ps[i] in Parsed || ps[i] == "torch"
  {
    forall i | 0 <= i < |ps|
      ensures ps[i] != "keras" && ps[i] != "tensorflow" && ps[i] != "sparseconvnet" && ps[i] != "pytorch-lightning"
    {}
  }

  /** A request for the virtualenv, python, hostname and nvidia facts and
      for `torch`, possibly for `cudnn`, and for nothing else, lists its
      facts in the order the code assigns them, whatever the order of the
      request: `virtualenv`, `python`, `hostname`, `nvidia driver`, then
      `nvidia cuda` and `cudnn` when they are found, and `torch` last. */
  lemma {:induction false} FactOrder(ps: seq<string>, c: Captured)
    requires Facts(ps, c).Success?
    requires "virtualenv" in ps && "python" in ps && "hostname" in ps && "nvidia" in ps && "torch" in ps
    requires forall i :: 0 <= i < |ps| ==> ps[i] in ["virtualenv", "python", "hostname", "nvidia", "cudnn", "torch"]
    ensures Facts(ps, c).value.keys
            == ["virtualenv", "python", "hostname", "nvidia driver"]
               + (if CudaFact(c.nvcc).Some? then ["nvidia cuda"] else [])
               + (if "cudnn" in ps && c.linux && c.cudnnHeader.Some? then ["cudnn"] else [])
               + ["torch"]
  {
    var m5, pip := FactsThrough(ps, c);
    SystemFactOrder(ps, c);
    NoTorchKey(m5.keys, CudaFact(c.nvcc).Some?, "cudnn" in ps && c.linux && c.cudnnHeader.Some?);
    RequestNames(ps);
    var m6 := TorchLast(ps, pip, c.repoHeads, m5);
    WithRequestedPresent(m6, ps, pip);
  }

  /** `Facts` unfolded down to the gathered facts and the `pip list` lines. */
  lemma {:induction false} FactsThrough(ps: seq<string>, c: Captured) returns (m5: FactMap, pip: seq<string>)
    requires Facts(ps, c).Success?
    ensures SystemFacts(ps, c) == Success(m5) && WellFormed(m5)
    ensures Facts(ps, c) == WithRequested(WithGit(ps, GitPackages, pip, c.repoHeads, WithPip(ps, pip, m5)), ps, pip)
  {
    m5 := SystemFacts(ps, c).value;
    pip := PipLines(c.pip).value;
  }

  /** With no git package requested, the `torch` version is the last fact. */
  lemma {:induction false} TorchLast(ps: seq<string>, pip: seq<string>, heads: map<string, string>, m5: FactMap)
    returns (m6: FactMap)
    requires WellFormed(m5) && "torch" !in m5.keys && "torch" in ps
    requires "keras" !in ps && "tensorflow" !in ps && "sparseconvnet" !in ps && "pytorch-lightning" !in ps
    ensures m6 == WithGit(ps, GitPackages, pip, heads, WithPip(ps, pip, m5))
    ensures WellFormed(m6) && m6.keys == m5.keys + ["torch"] && "torch" in m6.vals
  {
    PipAppendsTorch(ps, pip, m5, m5.keys);
    m6 := WithPip(ps, pip, m5);
    GitNotRequested(ps, pip, heads, m6);
    assert m6.keys[|m6.keys| - 1] == "torch";
  }

  /** The default request, `['python', 'virtualenv', 'nvidia', 'cudnn',
      'hostname', 'torch']`, is such a request. */
  lemma {:induction false} DefaultFactOrder(c: Captured)
    requires Facts(DefaultPackages, c).Success?
    ensures Facts(DefaultPackages, c).value.keys
            == ["virtualenv", "python", "hostname", "nvidia driver"]
               + (if CudaFact(c.nvcc).Some? then ["nvidia cuda"] else [])
               + (if c.linux && c.cudnnHeader.Some? then ["cudnn"] else [])
               + ["torch"]
  {
    var ps := DefaultPackages;
    assert ps[0] == "python" && ps[1] == "virtualenv" && ps[2] == "nvidia" && ps[3] == "cudnn";
    assert ps[4] == "hostname" && ps[5] == "torch";
    FactOrder(ps, c);
  }

  // ---------------------------------------------------------------------
  // The report
  // ---------------------------------------------------------------------

  lemma {:induction false} LineHasNoNewline(k: string, v: Option<string>)
    requires '\n' !in k && '\n' !in Render(v)
    ensures '\n' !in FormatLine(k, v)
  {
    var line := FormatLine(k, v);
    var tag := k + ":";
    var w := if |tag| >= 15 then |tag| else 15;
    forall j | 0 <= j < |line| ensures line[j] != '\n' {
      if j < |tag| {
        assert line[j] == line[..|tag|][j] == tag[j];
      } else if j > w {
        assert line[j] == line[w + 1..][j - w - 1];
      }
    }
  }

  /** A report of N facts whose names and values hold no newline is
      exactly N lines, in the order of the facts, the i-th about the i-th
      fact. */
  lemma {:induction false} ReportLines(m: FactMap)
    requires WellFormed(m) && |m.keys| >= 1
    requires forall i :: 0 <= i < |m.keys| ==> '\n' !in m.keys[i] && '\n' !in Render(m.vals[m.keys[i]])
    ensures Split(FormatReport(m), "\n") == FormatLines(m)
    ensures |Split(FormatReport(m), "\n")| == |m.keys|
  {
    var parts := FormatLines(m);
    forall i | 0 <= i < |parts| ensures "\n"[0] !in parts[i] {
      LineHasNoNewline(m.keys[i], m.vals[m.keys[i]]);
    }
    SplitJoin(parts, "\n");
  }
}
