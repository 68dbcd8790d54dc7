# goodok_mlu utilities, modelled in Dafny

This project models four helpers of `goodok_mlu/utils.py`:

- `dict_flatten` turns a nested dictionary into a flat one whose keys join the key path with a separator.
- `watermark` reports the environment of a notebook: virtualenv, Python version, host name, NVIDIA driver and CUDA release, cuDNN version, and versions of pip packages. It uses the helper `find_in_lines`.
- `get_gpu_memory_map`, `get_gpu_names_map` and `gpu_name_by_n` turn the output of `nvidia-smi` into a `gpu_0`, `gpu_1`, … dictionary.
- `split_coords_features` splits a sparse batch `(coords, features)` into one `[coords_i, features_i]` pair per example.

Modules:

- `Wrappers` and `Exceptions` (`wrappers.dfy`) hold `Option`, `Result` and the Python exceptions that can escape (`IndexError`, `ValueError`, `AssertionError`, and `ProcessError` for a failed subprocess).
- `PyStr` (`pystr.dfy`) gives the meaning of the Python string operations the code relies on: `str.strip`, `str.split`, `str.join`, `str.ljust`, `int()`, `splitlines()[0]`, the regular expression `[\d.]+`, `re.split(r'\s+')`, `'{}'.format` of an int, and `str()` of a `bytes` object.
- `OrderedMaps` (`ordered_map.dfy`) models `dict` and `OrderedDict` as a key order plus a map: assigning an existing key keeps its position and replaces its value.
  - `Build` is `dict(items)`; it is proved equal to "keys in order of first appearance, value of the last pair".
  - `OrderedDict` is a class whose `Set` method is `lines[k] = v`.
- `Flatten` (`flatten.dfy`) holds `dict_flatten` and the reference description of its result.
- `Watermark` (`watermark.dfy`) holds `find_in_lines` and the facts of `watermark`.
  - Each fact is a function of the captured inputs, and `Report` is the returned string.
  - `Watermark` is the method that fills an `OrderedDict` fact by fact, as the code does.
- `WatermarkFacts` (`watermark_facts.dfy`) holds what is proved about each fact and about the report.
- `Gpu` (`gpu.dfy`) holds the GPU listings.
- `Sparse` (`sparse.dfy`) holds `split_coords_features`.

Everything `watermark` and the GPU helpers read from outside is a parameter: `os.environ`, `sys.version`, `platform.node()`, the outputs of `nvidia-smi`, `nvcc --version` and `pip list`, the cuDNN header, `sys.platform` and the git heads. In `watermark`, a command that fails is a `None` output. The GPU helpers take the decoded text of a successful `nvidia-smi` run.

The model follows the code as written; these behaviours of it are easy to miss:

- Without `PS1` or `VIRTUAL_ENV`, the `virtualenv` fact is `None`, printed as `None`.
- A failing or silent `nvidia-smi` and a failing `pip list` raise; they are not skipped.
  - `nvidia-smi` output is never decoded, so the driver fact is a `bytes` line printed as `b'...'`.
- The CUDA release is looked up as the first `nvcc --version` line that *starts* with `release`.
  - Every line of `nvcc --version` output starts with a letter other than `r`, and its release sits in the middle of a line, so the fact is omitted for it (`CudaOmittedForNvccOutput`).
  - The model keeps this behaviour as written.
- The report lists the facts in the order the code assigns them, not in the order of the request (`DefaultFactOrder`).
- Each report line is the label and `:` padded on the right to 15 characters, then a space, then the value.
- The docstrings of `get_gpu_memory_map` and `get_gpu_names_map` (`goodok_mlu/utils.py:143-144` and `166-167`) promise integer device ids as keys and memory in MB as integer values. The code builds `"gpu_i"` string keys, and the names map holds the names as strings. The model follows the code.

## Model

| member | source | states |
|---|---|---|
| OrderedMaps.Put | goodok_mlu/utils.py:33-48 | assigning a key keeps well-formedness, stores the value, leaves other keys' values alone, keeps an existing key's position and appends a new key |
| OrderedMaps.OrderedDict.Set | goodok_mlu/utils.py:40 | `lines[k] = v` on the ordered dict object is `Put` on its contents |
| OrderedMaps.BuildIsDedupAndLast | goodok_mlu/utils.py:22 | `dict(items)` has the keys in order of first appearance and maps each key to the value of its last pair |
| OrderedMaps.BuildEq | goodok_mlu/utils.py:22 | two item lists give the same dict iff they have the same first-appearance key order and the same last values |
| OrderedMaps.BuildLookup | goodok_mlu/utils.py:22 | a pair not overridden by a later pair with the same key gives that key's value |
| OrderedMaps.BuildHasKey | goodok_mlu/utils.py:22 | a key is in `dict(items)` iff some pair has it |
| OrderedMaps.BuildKeepsPositions | goodok_mlu/utils.py:22 | appending items never moves the keys already present |
| OrderedMaps.BuildItems | goodok_mlu/utils.py:19-22 | rebuilding a dict from its `items()` gives the same dict (round trip) |
| OrderedMaps.BuildDistinct | goodok_mlu/utils.py:155 | with distinct keys, `dict(items)` keeps the listed order and every pair's value |
| Flatten.DictFlatten | goodok_mlu/utils.py:14-22 | the result is `dict` of the depth-first list of leaves, each under its joined key path |
| Flatten.CollectItems | goodok_mlu/utils.py:15-21 | the item loop collects, up to dict equality, exactly the leaves of all entries |
| Flatten.FlattenEntry | goodok_mlu/utils.py:17-21 | one entry adds its plain value under the new key, or the flattened items of its sub-mapping |
| Flatten.FlattenKeys | goodok_mlu/utils.py:14-22 | a key is in the flat dict iff it is the joined key path of some plain value in the nested mapping |
| Flatten.ValueAtIsCollected | goodok_mlu/utils.py:16-21 | every plain value reachable by a key path is collected under that path's key |
| Flatten.CollectedIsValueAt | goodok_mlu/utils.py:16-21 | every collected item is a plain value reachable by a key path, under that path's key |
| Flatten.FlattenedValue | goodok_mlu/utils.py:14-22 | from the top, when no two leaves share a key, every plain value reachable by a key path is in the flat dict under that path's key, with its own value |
| Flatten.PathKeyJoins | goodok_mlu/utils.py:17 | below a non-empty parent key, the new key is the separator join of the parent and the path |
| Flatten.TopLevelPathKey | goodok_mlu/utils.py:17 | with no parent key, the new key is the separator join of the path alone |
| Flatten.LeavesPrefix | goodok_mlu/utils.py:16-21 | the items of the first entries keep their positions when later entries are added |
| Flatten.TopLevelLeaf | goodok_mlu/utils.py:16-21 | a plain top-level value whose key no later item repeats is in the result under its own key |
| Flatten.FlattenFlatMapping | goodok_mlu/utils.py:14-22 | a mapping with no nested value and distinct keys flattens to itself, in order |
| Flatten.LeavesOfFlat | goodok_mlu/utils.py:16-21 | without nesting, the items are the entries themselves, one per entry |
| Watermark.FirstStarting | goodok_mlu/utils.py:52-60 | the position found is a line starting with the name, and no earlier line does |
| Watermark.Found | goodok_mlu/utils.py:50-61 | `find_in_lines` raises iff the name is removed, the name is empty and there is a line |
| Watermark.FindInLines | goodok_mlu/utils.py:50-61 | the scanning loop returns what `Found` describes |
| Watermark.StartsWithContains | goodok_mlu/utils.py:55 | a line that starts with the name contains it, so the membership test is redundant |
| Watermark.FoundFirstMatch | goodok_mlu/utils.py:52-61 | with no earlier match, a matching line decides the result; with no match at all, the result is `''` |
| Watermark.RemoveNameIsSuffix | goodok_mlu/utils.py:56-57 | removing a non-empty name from a line that starts with it leaves the stripped rest of the line |
| Watermark.FormatLine | goodok_mlu/utils.py:116 | a report line is the label and `:`, spaces up to column 15 (never truncated), a space, then the value |
| Watermark.Watermark | goodok_mlu/utils.py:32-122 | filling the ordered dict step by step returns the report, or the exception that escapes |
| Watermark.AddVirtualenv | goodok_mlu/utils.py:34-40 | updates the ordered dict in place exactly as the `WithVirtualenv` step: `PS1`, else `VIRTUAL_ENV`, else `None`, when requested |
| Watermark.AddPython | goodok_mlu/utils.py:41-46 | updates the ordered dict as the `WithPython` step, or reports that step's exception (`IndexError` on an empty version) |
| Watermark.AddHostname | goodok_mlu/utils.py:47-48 | updates the ordered dict as the `WithHostname` step |
| Watermark.AddNvidia | goodok_mlu/utils.py:63-72 | updates the ordered dict as the `WithNvidia` step (driver, then CUDA when found), or reports that step's exception |
| Watermark.AddCudnn | goodok_mlu/utils.py:74-83 | updates the ordered dict as the `WithCudnn` step |
| Watermark.AddPipVersions | goodok_mlu/utils.py:87-94 | updates the ordered dict as the `WithPip` step (`keras`, `tensorflow-gpu`, `torch`) |
| Watermark.AddGitLines | goodok_mlu/utils.py:97-109 | the loop over git packages updates the ordered dict as the `WithGit` step |
| Watermark.AddGitLine | goodok_mlu/utils.py:98-109 | a requested git package gets its pip line, with the git head when the repository is known; otherwise nothing changes |
| Watermark.AddRequested | goodok_mlu/utils.py:111-114 | the final loop updates the ordered dict as the `WithRequested` step, or reports its exception |
| Watermark.WithRequestedFailure | goodok_mlu/utils.py:112-114 | an exception in the final loop ends the whole loop with that exception |
| WatermarkFacts.Steps | goodok_mlu/utils.py:32-114 | a successful report passes through every step in the code's order, each step succeeding |
| WatermarkFacts.VirtualenvAgree | goodok_mlu/utils.py:34-40 | the virtualenv step changes no other fact |
| WatermarkFacts.PythonAgree | goodok_mlu/utils.py:41-46 | the python step changes no other fact |
| WatermarkFacts.HostnameAgree | goodok_mlu/utils.py:47-48 | the hostname step changes no other fact |
| WatermarkFacts.NvidiaAgree | goodok_mlu/utils.py:63-72 | the nvidia step changes only the driver and CUDA facts |
| WatermarkFacts.CudnnAgree | goodok_mlu/utils.py:74-83 | the cuDNN step changes no other fact |
| WatermarkFacts.PipAgree | goodok_mlu/utils.py:87-94 | the pip step changes only `keras`, `tensorflow-gpu` and `torch` |
| WatermarkFacts.LookupAgree | goodok_mlu/utils.py:87-94 | one lookup changes only its own key |
| WatermarkFacts.NvidiaSets | goodok_mlu/utils.py:63-65 | when requested, the driver fact is the first `nvidia-smi` line shown as bytes; otherwise nothing changes |
| WatermarkFacts.WithGitAgree | goodok_mlu/utils.py:97-109 | the git loop changes only its own keys |
| WatermarkFacts.WithRequestedKeepsPositions | goodok_mlu/utils.py:111-114 | the final loop never moves an earlier fact |
| WatermarkFacts.WithRequestedHas | goodok_mlu/utils.py:111-114 | after the final loop, a key is present iff it was already or it is a requested name outside the parsed list |
| WatermarkFacts.WithRequestedAgree | goodok_mlu/utils.py:111-114 | the final loop leaves parsed names and names not requested alone |
| WatermarkFacts.WithRequestedValue | goodok_mlu/utils.py:113-114 | a requested unparsed name ends with its `find_in_lines` value |
| WatermarkFacts.WithRequestedSucceeds | goodok_mlu/utils.py:111-114 | the final loop raises iff the empty name is requested and `pip list` printed something |
| WatermarkFacts.WithRequestedPresent | goodok_mlu/utils.py:111-114 | when every requested unparsed name is already a fact, the final loop succeeds and keeps the order |
| WatermarkFacts.FactsSucceed | goodok_mlu/utils.py:32-114 | `watermark` raises exactly for an empty `sys.version`, a failing or silent `nvidia-smi`, a failing `pip list`, or the empty name with a non-empty pip list |
| WatermarkFacts.FactsVirtualenv | goodok_mlu/utils.py:34-40 | `virtualenv` is reported iff requested, as `PS1`, else `VIRTUAL_ENV`, else `None` |
| WatermarkFacts.FactsPython | goodok_mlu/utils.py:41-46 | `python` is reported iff requested, as the leading digits and dots of the first version line, or that whole line when there are none |
| WatermarkFacts.FactsHostname | goodok_mlu/utils.py:47-48 | `hostname` is reported iff requested, as the node name |
| WatermarkFacts.FactsDriver | goodok_mlu/utils.py:63-65 | `nvidia driver` is reported iff `nvidia` is requested, as the first `nvidia-smi` line shown as bytes |
| WatermarkFacts.FactsCuda | goodok_mlu/utils.py:66-72 | `nvidia cuda` is reported iff `nvidia` is requested, `nvcc` runs and some line starts with `release` |
| WatermarkFacts.CudaFactPresent | goodok_mlu/utils.py:67-72 | a CUDA release is found iff some `nvcc` line starts with `release` |
| WatermarkFacts.CudaOmittedForNvccOutput | goodok_mlu/utils.py:67-70 | for any output whose lines are non-empty and start with a character other than `r`, as every line of `nvcc --version` does, the CUDA fact is omitted |
| WatermarkFacts.FactsCudnn | goodok_mlu/utils.py:74-83 | `cudnn` is reported iff requested on Linux with a readable header, as major.minor.patchlevel from its `#define` lines |
| WatermarkFacts.FactsRequested | goodok_mlu/utils.py:111-114 | every requested unparsed name is reported with its `pip list` lookup |
| WatermarkFacts.FactsUnmatched | goodok_mlu/utils.py:50-61 | a requested name that no pip line starts with is reported as `''` |
| WatermarkFacts.FactsKeepPositions | goodok_mlu/utils.py:93-114 | the final loop keeps the order of the facts gathered before it and adds exactly the requested unparsed names |
| WatermarkFacts.PythonAppends | goodok_mlu/utils.py:41-46 | a requested python fact is appended after the facts before it |
| WatermarkFacts.NvidiaAppends | goodok_mlu/utils.py:63-72 | the driver fact, then the CUDA fact when found, are appended |
| WatermarkFacts.CudnnAppends | goodok_mlu/utils.py:74-83 | the cuDNN fact, when gathered, is appended |
| WatermarkFacts.PipAppendsTorch | goodok_mlu/utils.py:93-94 | with only `torch` requested among the pip packages, `torch` is appended |
| WatermarkFacts.GitNotRequested | goodok_mlu/utils.py:97-109 | without git packages requested, the git loop changes nothing |
| WatermarkFacts.VirtualenvFirst | goodok_mlu/utils.py:33-40 | the virtualenv fact comes first |
| WatermarkFacts.HostnameAppends | goodok_mlu/utils.py:47-48 | a requested hostname fact is appended |
| WatermarkFacts.HostFactOrder | goodok_mlu/utils.py:34-48 | the first three facts are virtualenv, python and hostname, in that order |
| WatermarkFacts.NvidiaFactOrder | goodok_mlu/utils.py:34-72 | the nvidia facts follow the first three |
| WatermarkFacts.CudnnFactOrder | goodok_mlu/utils.py:74-83 | the cuDNN fact follows the nvidia facts |
| WatermarkFacts.SystemFactOrder | goodok_mlu/utils.py:34-83 | the order of the facts that do not come from `pip list` |
| WatermarkFacts.RequestNames | goodok_mlu/utils.py:111 | a request drawn from the default names only holds parsed names and `torch` |
| WatermarkFacts.FactOrder | goodok_mlu/utils.py:32-114 | for such a request, in any order, the facts come in the code's assignment order with `torch` last |
| WatermarkFacts.FactsThrough | goodok_mlu/utils.py:32-114 | a successful report is the final loop over the pip and git steps of the system facts |
| WatermarkFacts.TorchLast | goodok_mlu/utils.py:93-109 | with only `torch` among the pip and git packages, `torch` is the last fact |
| WatermarkFacts.DefaultFactOrder | goodok_mlu/utils.py:32 | the default request reports virtualenv, python, hostname, nvidia driver, then CUDA and cuDNN when found, then torch |
| WatermarkFacts.LineHasNoNewline | goodok_mlu/utils.py:116 | a report line holds no newline when its name and value hold none |
| WatermarkFacts.ReportLines | goodok_mlu/utils.py:116-118 | splitting the report on newlines gives back exactly one line per fact, in order |
| Gpu.Listing | goodok_mlu/utils.py:154 | the stripped output split on newlines always has at least one item |
| Gpu.ParseAll | goodok_mlu/utils.py:154 | the `int()` of every item, or `ValueError` iff some item is not an integer |
| Gpu.GpuKeyInjective | goodok_mlu/utils.py:155 | distinct device numbers give distinct `gpu_i` keys |
| Gpu.EnumeratedKeysDistinct | goodok_mlu/utils.py:155 | the enumerated keys are distinct |
| Gpu.EnumeratedMap | goodok_mlu/utils.py:155 | the dict has one key `gpu_i` per value, in order, mapping to the i-th value |
| Gpu.GpuMemoryMapEntries | goodok_mlu/utils.py:146-157 | the memory map succeeds iff every listed item is an integer, mapping `gpu_i` to the i-th integer, in order; otherwise `ValueError` |
| Gpu.ParsedMap | goodok_mlu/utils.py:154-155 | the dict of parsed values maps `gpu_i` to the `int()` of the i-th item |
| Gpu.GpuNamesMapEntries | goodok_mlu/utils.py:169-180 | the names map has `gpu_i` mapped to the i-th listed name, in order |
| Gpu.GpuNameByNListed | goodok_mlu/utils.py:183-185 | `gpu_name_by_n(n)` is the n-th listed name for a listed device, else `None` |
| Gpu.EnumeratedLookup | goodok_mlu/utils.py:185 | `gpu_n` is present iff n is a valid device number |
| Gpu.GpuMemoryOfPrinted | goodok_mlu/utils.py:154-155 | a listing printed from integers parses back to those integers under `gpu_0`, `gpu_1`, … (round trip) |
| Gpu.PrintedIntText | goodok_mlu/utils.py:154 | a printed integer is non-empty, one line and without surrounding space |
| Gpu.GpuEmptyOutput | goodok_mlu/utils.py:152-154 | empty output makes the memory map raise `ValueError` and the names map hold one empty `gpu_0` name |
| Sparse.MaxOf | goodok_mlu/utils.py:225 | the maximum is an entry and bounds every entry |
| Sparse.Positions | goodok_mlu/utils.py:230 | the mask of rows of example i, as the increasing list of exactly those rows |
| Sparse.SplitCoordsFeatures | goodok_mlu/utils.py:219-234 | the group-building loop returns what `Partition` describes |
| Sparse.PartitionErrors | goodok_mlu/utils.py:223-232 | `AssertionError` iff coords are not 4 wide; `ValueError` iff there is no row; `IndexError` iff the features are misaligned and some group is taken; nothing else |
| Sparse.PartitionSize | goodok_mlu/utils.py:225-229 | there are max+1 groups, or none when the maximum index is negative |
| Sparse.GroupIsSelection | goodok_mlu/utils.py:229-233 | group i is the first three coordinates and the features of exactly the rows whose index is i, in row order |
| Sparse.RowPlacement | goodok_mlu/utils.py:229-233 | every row with a non-negative index appears in its example's group |
| Sparse.PositionsCount | goodok_mlu/utils.py:230 | the mask selects as many rows as hold the index |
| Sparse.GroupSizesSum | goodok_mlu/utils.py:229-234 | the group sizes plus the rows with a negative index add up to the number of rows |
| Sparse.GroupsCoverAllRows | goodok_mlu/utils.py:229-234 | with non-negative indices, the group sizes add up to the number of rows, so every row lands in exactly one group |
| PyStr.Strip | goodok_mlu/utils.py:57-59 | `strip()` removes white space only, from both ends, and leaves no white space at either end |
| PyStr.StripOf | goodok_mlu/utils.py:57-59 | stripping white space around a trimmed text gives that text |
| PyStr.StripIdempotent | goodok_mlu/utils.py:57-59 | stripping twice is stripping once |
| PyStr.StripKeepsPrefix | goodok_mlu/utils.py:59 | stripping keeps a trimmed prefix |
| PyStr.IndexOf | goodok_mlu/utils.py:57 | the first occurrence at or after a position |
| PyStr.Split | goodok_mlu/utils.py:57 | `split(sep)` pieces join back to the string and contain no separator, and every cut is the leftmost one: no piece but the last, followed by all but the last character of `sep`, contains `sep` |
| PyStr.SplitJoin | goodok_mlu/utils.py:118 | splitting a join on a one-character separator absent from the parts gives the parts back |
| PyStr.SplitAfterPrefix | goodok_mlu/utils.py:57 | on a string starting with the separator, the pieces after the first join back to the rest |
| PyStr.JoinEnds | goodok_mlu/utils.py:118 | a join starts with its whole first part and ends with its whole last part, so for non-empty end parts its first and last characters are theirs |
| PyStr.LJust | goodok_mlu/utils.py:116 | left-justified text keeps the text and pads with spaces to the width, never truncating |
| PyStr.NatToStr | goodok_mlu/utils.py:155 | the decimal text of a natural number is non-empty digits |
| PyStr.ParseIntOfIntToStr | goodok_mlu/utils.py:154-155 | `int(str(i)) == i` (round trip) |
| PyStr.ParseNegative | goodok_mlu/utils.py:154 | `int('-' + digits)` is the negated value |
| PyStr.ParseSigned | goodok_mlu/utils.py:154 | `int()` of a minus sign and digit groups is the negated value |
| PyStr.ParseUnsigned | goodok_mlu/utils.py:154 | `int()` of digit groups, underscores allowed between digits, is their value |
| PyStr.IntToStrInjective | goodok_mlu/utils.py:155 | distinct integers print differently |
| PyStr.FirstLine | goodok_mlu/utils.py:42 | `splitlines()[0]`: `None` (the `IndexError`) iff the text is empty, else the prefix up to the first line boundary |
| PyStr.LeadingVersion | goodok_mlu/utils.py:43-45 | the greedy match of `[\d.]+` at the start: a prefix of digits and dots that cannot be extended |
| PyStr.FirstSpace | goodok_mlu/utils.py:101 | the first white-space position, `None` iff there is none |
| PyStr.SplitOnSpaceRuns | goodok_mlu/utils.py:101-102 | `re.split(r'\s+')` pieces have no white space, and there is more than one iff the line has white space |
| PyStr.SpaceRuns | goodok_mlu/utils.py:101 | the runs `re.split(r'\s+')` cuts out are one fewer than the pieces, each non-empty white space |
| PyStr.SplitOnSpaceRunsRebuilds | goodok_mlu/utils.py:101-102 | the pieces with the runs between them give back the line; every piece but the first and last is non-empty, and the first is empty only when the line starts with white space |

## Left out

- Subprocess calls, file reads, `git.Repo` and `platform`/`os`/`sys` queries are not performed. Their outputs are parameters of the model. In `watermark`, a failing call is a `None` output.
- Console output (`print` in `watermark`) is not modelled; the returned string is.
- Decoding of the `pip list` and `nvcc` output bytes (`line.decode('utf-8')` in `find_in_lines`) is not modelled: lines are taken as already-decoded text. The cuDNN header is opened in text mode and is read as text.
- `GpuMemoryMap`, `GpuNamesMap`, `GpuNameByN`: the output is taken as the decoded text of a successful `nvidia-smi` run. A failing call (`CalledProcessError` or `FileNotFoundError` from `subprocess.check_output`) and a UTF-8 decode error in `result.decode('utf8')` both raise, and neither is modelled.
- `bytes` escapes are not modelled: `BytesStr` shows the bytes as plain characters.
- A bare `except:` also catches exceptions other than the ones named. The model only follows the failures the code can meet on its inputs: a missing command, an unreadable file, a missing `release` piece, an unknown repository.
- Python 3.10 and later removed `collections.MutableMapping`. There `dict_flatten` raises `AttributeError` on its first entry; the model assumes an older Python, where it works.
- `dict_flatten` on other mapping types: only nested dicts are modelled, as `Nested` values.
- `dict_flatten` keys are modelled as strings. With a non-string key below the top level, `parent_key + sep + k` raises `TypeError`; that path is not modelled. A falsy non-string parent key such as `0` is not modelled either.
- `GpuNameByN`: the argument is modelled as an integer. `'gpu_{}'.format(n)` also accepts other objects (a string `"0"` finds `gpu_0`); that is not modelled.
- Non-ASCII decimal digits, which `\d` and `int()` accept, are not modelled.
- `int()` of Python's unbounded ints is modelled exactly; numpy integer widths in `split_coords_features` are not modelled (indices are unbounded integers).
- `split_coords_features` takes coords as a list of rows of one common width. A coords array that is not two-dimensional is not modelled, and neither is numpy's float index column.
- `wide_notebook`, `exec_and_print`, `log_text_as_artifact` and `is_notebook` are display, process and tracker glue, with no logic to prove. They are not part of this model.
- `sparse_to_dense_sgnn` computes on floating-point arrays; it is not part of this model.
