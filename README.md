# pyvmusage: a model of the VM utilisation report

`py-vminfo.py` connects to a vCenter server. It then:

1. walks the datacenter → cluster → host → VM inventory and collects the VM display names;
2. builds a catalog from `group.name.rollup` counter names to counter ids;
3. retrieves every VM's `name` and `runtime.powerState` through a paginated property collector;
4. summarises each listed VM that is powered on;
5. marks every other listed VM as unreachable (CPU count 999, every other field absent);
6. sorts the records by CPU count and renders them.

A VM summary has:

- for each of `cpu.usage.average` and `mem.usage.average`, the average and the maximum, in percent, of the first sample series of a 30-day performance query. The script queries twice per counter, but both figures come from the first answer;
- the configured CPU count and memory size;
- the free space of the guest's root volume (`C:\` or `/`), in megabytes.

This project models that pipeline in Dafny and proves what each step computes. Everything below the connection is a value:

- the inventory is a nested `seq`;
- the counter list is a `seq<PerfCounter>`;
- the property collector's answers are a `seq<RetrieveResult>` in server order;
- the performance query and the VM configuration lookup are functions carried by a `Platform` value;
- the server clock is the integer `vchtime`, in seconds.

The source works step by step in loops that append to lists and assign into dictionaries. Those parts are methods with loop invariants, each proved equal to a specification function, and the properties are lemmas about those functions:

- `ListVms`;
- the catalog loop;
- pagination and record building;
- the disk scan;
- `create_vm_object`;
- the loop in `main`.

Modules, one per file:

- `Wrappers`: `Option` and `Result`.
- `Dict`: repeated `d[k] = v` assignments.
- `CounterCatalog`: `perf_dict` and `StatCheck`.
- `Inventory`: `ListVms`.
- `PropertyRetrieval`: `GetProperties`.
- `Metrics`: `BuildQuery` and the numeric reductions.
- `Summary`: `create_vm_object` and `VM`.
- `Report`: the sort in `render_html`.
- `Run`: `main`.

Python semantics made explicit:

- `/` is read as Python 3 true division, on `real`, and `int()` truncates toward zero (`Metrics.Trunc`). This reading is an assumption: the script imports `print_function` from `__future__`, so it may also run under Python 2, where `/` on integers rounds down. The contracts of `AveragePct`, `MaxPct` and `FreeMiB` show that both readings agree for non-negative values (integer floor division). They differ only for negative samples or byte counts.
- The process ends at `exit()` in `BuildQuery`. It also ends at an uncaught `KeyError` (missing counter, missing `name` or `runtime.powerState`), `IndexError` (no sample series) or `ZeroDivisionError` (empty series). Each of these is a `Failure` value that stops the whole run.
- A collector token that is `None` or empty is the empty string.

Behaviour of the script worth noting:

- An empty counter list is not an error: the catalog is empty, and the first lookup fails.
- A failed summary, including empty performance results, does not degrade that VM to unreachable: it ends the run.
- VM names are a list, not a set. Duplicates are kept, and membership is list membership.

## Model

| member | source | states |
|---|---|---|
| CounterCatalog.FullName | py-vminfo.py:193 | the composed name is the group key, a dot, the metric key, a dot and the rollup type |
| CounterCatalog.FullNameInjective | py-vminfo.py:193 | when no group or metric key contains a dot, two counters compose the same name only if they agree on all three keys |
| CounterCatalog.BuildCatalog | py-vminfo.py:190-194 | the loop yields the catalog of the counter list: its keys are exactly the composed `group.name.rollup` names, and each name maps to the key of the last counter that composes it |
| CounterCatalog.CatalogKeys | py-vminfo.py:190-194 | the catalog's key set is the set of composed names of the listed counters |
| CounterCatalog.CatalogLastWins | py-vminfo.py:190-194 | a name composed by several counters maps to the id of the last of them |
| CounterCatalog.StatCheck | py-vminfo.py:96-98 | the lookup succeeds exactly when the name is in the catalog, and then returns the stored id; otherwise it is the `KeyError` case |
| CounterCatalog.StatCheckCatalog | py-vminfo.py:96-98 | looking up a name in a built catalog fails exactly when no listed counter composes it, and otherwise gives the last such counter's key |
| Inventory.ListVms | py-vminfo.py:72-94 | the four nested loops return the VM names of every host of every cluster of every datacenter, in traversal order |
| Inventory.DatacentersVmsMembers | py-vminfo.py:79-93 | a name is in the list exactly when some VM on some host of some cluster of some datacenter carries it |
| Inventory.DatacentersVmsMembersByDc | py-vminfo.py:79-93 | a name is in the list exactly when it is in the list of one of the datacenters |
| Inventory.ClustersVmsMembers | py-vminfo.py:83-93 | a name is in a datacenter's list exactly when it is in the list of one of its clusters |
| Inventory.HostsVmsMembers | py-vminfo.py:87-93 | a name is in a cluster's list exactly when one of its hosts runs a VM of that name |
| Inventory.DatacentersVmsLength | py-vminfo.py:77-93 | the list has one entry per VM of the inventory, duplicates included |
| Inventory.DatacentersVmsAppend | py-vminfo.py:79-93 | the names of two groups of datacenters are the first group's names followed by the second's |
| Inventory.DuplicateNamesKept | py-vminfo.py:92-93 | two VMs called `web` on two hosts both appear: `["web", "web", "db"]` |
| PropertyRetrieval.CollectPages | py-vminfo.py:109-114 | the retrieval loop collects the objects of the first answer and of each continuation while a token comes back |
| PropertyRetrieval.PagedObjectsStopsAtFirstEmptyToken | py-vminfo.py:109-114 | the collected objects are those of every page up to and including the first without a token, in order, and none after it |
| PropertyRetrieval.AllPagesCollected | py-vminfo.py:109-114 | when only the last answer lacks a token, every page's objects are collected |
| PropertyRetrieval.ToRecord | py-vminfo.py:119-122 | one object becomes the dictionary of its properties assigned in order, with `'moref'` set to its reference last |
| PropertyRetrieval.RecordOf | py-vminfo.py:122 | every record holds the object's reference under `'moref'` |
| PropertyRetrieval.RecordKeys | py-vminfo.py:119-122 | a record's keys are exactly the returned property names plus `'moref'` |
| PropertyRetrieval.RecordLastWins | py-vminfo.py:120-121 | a property name other than `'moref'` holds the value of the last property of that name |
| PropertyRetrieval.RecordsOfAt | py-vminfo.py:117-123 | the conversion gives one record per collected object, in the same order, each carrying its object's reference |
| PropertyRetrieval.GetProperties | py-vminfo.py:101-124 | the result is the list of records of the paginated objects |
| Metrics.QueryOf | py-vminfo.py:54-58 | the query window ends at the server time and starts 30 days (2592000 s) before it, for the given counter and instance |
| Metrics.BuildQuery | py-vminfo.py:52-69 | the query succeeds exactly when the platform returns a non-empty result, which is passed on unchanged; otherwise the failure carries the server time, the window bounds and the query |
| Metrics.Trunc | py-vminfo.py:134 | `int()` on a real: the integer between zero and the value that is less than one away from it |
| Metrics.Sum | py-vminfo.py:134 | Python's `sum`: a series of non-negative samples has a non-negative total |
| Metrics.Max | py-vminfo.py:137 | the maximum is an element of the series and no element exceeds it |
| Metrics.AveragePct | py-vminfo.py:133-134 | (also lines 140-141 for memory) the sum of the samples divided by their count and by 100, rounded toward zero: `sum // len // 100` for a non-negative total, and its negation taken on the absolute value for a negative one |
| Metrics.MaxPct | py-vminfo.py:137 | (also line 144 for memory) the largest sample divided by 100, rounded toward zero: `max // 100` for a non-negative maximum |
| Metrics.SumAtLeast | py-vminfo.py:134 | a series whose samples are all at least `lo` sums to at least `len * lo` |
| Metrics.SumAtMost | py-vminfo.py:134 | a series whose samples are all at most `hi` sums to at most `len * hi` |
| Metrics.AverageAtMostMax | py-vminfo.py:133-137 | the reported average never exceeds the reported maximum |
| Metrics.PercentBounds | py-vminfo.py:133-137 | samples in hundredths of a percent (0..10000) give 0 <= average <= maximum <= 100 |
| Metrics.ReductionExample | py-vminfo.py:133-137 | the samples 500, 1000 and 1500 give an average of 10 and a maximum of 15 |
| Summary.Unreachable | py-vminfo.py:205 | the unreachable record keeps the name, has CPU count 999 and every other field absent |
| Summary.ScanDisks | py-vminfo.py:146-149 | the disk loop yields the free space of the last root volume, or none |
| Summary.FreeMiB | py-vminfo.py:149 | bytes divided by 1024 twice, rounded toward zero: `bytes // 1048576` for a non-negative byte count |
| Summary.RootFree | py-vminfo.py:146-149 | no free space exactly when no volume is `C:\` or `/`; otherwise the free space of one of the root volumes |
| Summary.RootFreeLast | py-vminfo.py:146-149 | when some volume is a root volume, the free space is that of the last root volume in the list |
| Summary.CounterSeries | py-vminfo.py:132-134 | for a catalogued counter, the lookup succeeds exactly when the query's answer has a first result with a non-empty first series, and returns that series. It fails with `MissingCounter` exactly when the name is not in the catalog (`KeyError`), with `EmptyPerfResults` exactly when the answer is empty (`exit()`), with `NoSeries` exactly when the first result has no series (`IndexError`), and with `EmptySeries` exactly when the first series is empty (`ZeroDivisionError`) |
| Summary.Summarize | py-vminfo.py:126-150 | a summary succeeds exactly when both counter series do, the CPU failure coming first; then it carries the configured CPU count, memory size and root free space, and for CPU and memory the average and maximum of the series, with average <= maximum |
| Summary.CreateVmObject | py-vminfo.py:126-150 | the step-by-step builder yields exactly that summary |
| Report.SortByCpu | py-vminfo.py:155 | the sorted list is ascending by CPU count and a permutation of the input |
| Report.SortByCpuStable | py-vminfo.py:155 | for every CPU count, the records with that count keep their input order |
| Report.EqualCountsKeepOrder | py-vminfo.py:155 | two VMs with two CPUs found as `vm-b`, `vm-a` stay in that order |
| Run.Classify | py-vminfo.py:199-205 | a record without `name` fails; an unlisted VM is skipped; a listed VM without a power state fails; a powered-on listed VM gets its summary or that summary's failure; any other listed VM is unreachable under its own name |
| Run.ClassifyAll | py-vminfo.py:199-205 | the loop over the records succeeds exactly when every record's classification succeeds |
| Run.FailureSticks | py-vminfo.py:199-205 | once a record fails, later records do not change the outcome |
| Run.FirstFailureWins | py-vminfo.py:199-205 | the loop fails with the error of the first record that fails |
| Run.ReportedNames | py-vminfo.py:199-205 | a successful loop yields one record per listed VM, under that VM's name, in retrieval order |
| Run.ReportIsSortedLoop | py-vminfo.py:199-208 | the run fails exactly when the loop does, with its error; otherwise the report is the loop's records sorted ascending by CPU count, a permutation, stable per count |
| Run.RunReport | py-vminfo.py:185-208 | the whole run (`ListVms`, the catalog, `GetProperties`, the classification loop and the sort) yields exactly that report |

## Left out

- Connecting, authenticating, reading the password, argument parsing and `Disconnect` (lines 34-49, 166-183): these are I/O with the server and the terminal.
- Building the container view, the filter specs and `objView.Destroy()` (lines 103-108, 115): these are server calls. The answers are given as the sequence `pages`, and continuation tokens are not used to choose the next answer.
- `RetrievePropertiesEx` returning `None` is not modelled: every answer is a `RetrieveResult`.
- Reading and writing the template, and the Jinja rendering (lines 156-162): file I/O and an external library. Only the sort of line 155 is modelled.
- The `print` calls (lines 63-68, 202). On empty results, the failure value carries the printed context.
- `content.perfManager.QueryPerf` is the `queryPerf` parameter of `BuildQuery`. Its `interval` argument is unused (`BuildQueryIgnoresInterval`), and so is `create_vm_object`'s `statInt`.
- The queries at lines 136 and 143, whose results the source never reads, are not issued. The platform is a deterministic function, so repeating them changes nothing.
- The second `create_vm_object` call at lines 202-203 is modelled as one call: the printed first result is identical.
- `host.summary.config.name` (line 88) is read but unused.
- Floating-point rounding: `/` is exact real division. For very large sample sums, IEEE doubles may round differently.
- The module-level `vm_objects` list is a local sequence of the run.
- Counter `key`, `numCpu`, `memorySizeMB` and `freeSpace` are unbounded integers.
- The power state is compared as the text `poweredOn`, as the source's string comparison does on the enum value.
