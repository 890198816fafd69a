/** `create_vm_object` and the `VM` record: static configuration, the
    reduced CPU and memory series, and the free space of the root volume. */
module Summary {
  import opened Wrappers
  import opened CounterCatalog
  import opened PropertyRetrieval
  import opened Metrics

  /** One guest volume (`guest.disk` entry); free space in bytes. */
  datatype GuestDisk = GuestDisk(diskPath: string, freeSpace: int)

  /** What `create_vm_object` reads from a VM's summary: `config.numCpu`,
      `config.memorySizeMB` and the guest's volumes. */
  datatype VmConfig = VmConfig(numCpu: int, memorySizeMB: int, disks: seq<GuestDisk>)

  /** The platform as the summary builder sees it: the performance query and
      the configuration behind each VM reference. */
  datatype Platform = Platform(queryPerf: QuerySpec -> seq<EntityMetric>, config: MoRef -> VmConfig)

  /** `c_free`: `''` while no root volume is reported, else megabytes free. */
  datatype DiskFree = NoRootDisk | FreeMB(mb: int)

  /** The `VM` record. An absent field (`None`) is `Option.None`. */
  datatype VM = VM(name: string, cpuNum: int, cpuAvg: Option<int>, cpuMax: Option<int>,
                   memSize: Option<int>, memAvg: Option<int>, memMax: Option<int>,
                   cFree: Option<DiskFree>)

  /** Why a run stops: Python ends the process at each of these. */
  datatype Failure =
    | MissingCounter(counterName: string)   // `perf_dict[counter_name]` raises KeyError
    | EmptyPerfResults(info: EmptyResults)   // `BuildQuery` prints and calls exit()
    | NoSeries                               // `perfResults[0].value[0]` raises IndexError
    | EmptySeries                            // division by `len(...) == 0`
    | MissingProperty(propName: string)      // `vm[...]` raises KeyError

  const CpuCounter := "cpu.usage.average"
  const MemCounter := "mem.usage.average"

  /** The `cpu_num` marking a VM that was listed but not powered on. */
  const UnreachableCpuNum := 999

  /** `VM(name, 999, None, None, None, None, None, None)`. */
  function Unreachable(name: string): (v: VM)
    ensures v.name == name && v.cpuNum == 999
    ensures v.cpuAvg.None? && v.cpuMax.None? && v.memSize.None? && v.memAvg.None? && v.memMax.None? && v.cFree.None?
  {
    VM(name, UnreachableCpuNum, None, None, None, None, None, None)
  }

  /** The root volume of a Windows (`C:\`) or POSIX (`/`) guest. */
  predicate IsRootPath(p: string)
  {
    p == "C:\\" || p == "/"
  }

  /** `int(((freeSpace / 1024) / 1024))`: bytes as whole megabytes, rounded
      toward zero. */
  function FreeMiB(freeSpace: int): (mb: int)
    ensures 0 <= freeSpace ==> mb == freeSpace / 1048576
    ensures freeSpace < 0 ==> mb == -((-freeSpace) / 1048576)
  {
    assert (freeSpace as real / 1024.0) / 1024.0 == freeSpace as real / 1048576.0;
    QuotientBounds(if freeSpace >= 0 then freeSpace else -freeSpace, 1048576);
    Trunc((freeSpace as real / 1024.0) / 1024.0)
  }

  /** `c_free` after the disk loop: the free space of the last root volume.
      It stays `''` exactly when no volume is a root volume, and otherwise is
      the free space of one of them. */
  function RootFree(disks: seq<GuestDisk>): (r: DiskFree)
    ensures r == NoRootDisk <==> forall i :: 0 <= i < |disks| ==> !IsRootPath(disks[i].diskPath)
    ensures r.FreeMB? ==> exists i :: 0 <= i < |disks| && IsRootPath(disks[i].diskPath) && r.mb == FreeMiB(disks[i].freeSpace)
  {
    if disks == [] then NoRootDisk
    else
      var init, last := disks[..|disks| - 1], disks[|disks| - 1];
      assert forall i :: 0 <= i < |init| ==> init[i] == disks[i];
      if IsRootPath(last.diskPath) then FreeMB(FreeMiB(last.freeSpace))
      else RootFree(init)
  }

  /** The disk loop of `create_vm_object`, overwriting `c_free` at each root volume. */
  method ScanDisks(disks: seq<GuestDisk>) returns (cFree: DiskFree)
    ensures cFree == RootFree(disks)
  {
    cFree := NoRootDisk;
    for i := 0 to |disks|
      invariant cFree == RootFree(disks[..i])
    {
      var disk := disks[i];
      assert disks[..i + 1][..i] == disks[..i];
      if disk.diskPath == "C:\\" || disk.diskPath == "/" {
        cFree := FreeMB(FreeMiB(disk.freeSpace));
      }
    }
    assert disks[..|disks|] == disks;
  }

  /** When some volume is a root volume, the free space is that of the last one in the list. */
  lemma {:induction false} RootFreeLast(disks: seq<GuestDisk>, k: nat)
    requires k < |disks| && IsRootPath(disks[k].diskPath)
    requires forall j :: k < j < |disks| ==> !IsRootPath(disks[j].diskPath)
    ensures RootFree(disks) == FreeMB(FreeMiB(disks[k].freeSpace))
  {
    if k < |disks| - 1 {
      var init := disks[..|disks| - 1];
      assert init[k] == disks[k];
      assert forall j :: k < j < |init| ==> init[j] == disks[j];
      RootFreeLast(init, k);
    }
  }

  /** The first sample series `perfResults[0].value[0].value` of one counter's
      query, or why the script stops before it can average it. */
  function CounterSeries(platform: Platform, vchtime: int, interval: int, perfDict: Catalog,
                         vm: MoRef, counterName: string): (r: Result<seq<int>, Failure>)
    ensures r == Failure(MissingCounter(counterName)) <==> counterName !in perfDict
    ensures counterName in perfDict ==>
              var query := QueryOf(vchtime, perfDict[counterName], "", vm);
              var results := platform.queryPerf(query);
              && (r == Failure(EmptyPerfResults(EmptyResults(vchtime, vchtime - 2592000, vchtime, query))) <==> results == [])
              && (r == Failure(NoSeries) <==> results != [] && results[0].value == [])
              && (r == Failure(EmptySeries) <==> results != [] && results[0].value != [] && results[0].value[0].value == [])
              && (r.Success? <==> results != [] && results[0].value != [] && results[0].value[0].value != [])
              && (r.Success? ==> r.value == results[0].value[0].value)
  {
    match StatCheck(perfDict, counterName)
    case None => Failure(MissingCounter(counterName))
    case Some(counterId) =>
      match BuildQuery(platform.queryPerf, vchtime, counterId, "", vm, interval)
      case Failure(e) => Failure(EmptyPerfResults(e))
      case Success(perfResults) =>
        if |perfResults[0].value| == 0 then Failure(NoSeries)
        else if |perfResults[0].value[0].value| == 0 then Failure(EmptySeries)
        else Success(perfResults[0].value[0].value)
  }

  /** What `create_vm_object` yields. On success the record carries the
      configured CPU count and memory size, the root volume's free space, and
      for CPU and memory an average no larger than the maximum, both reduced
      from the same non-empty series; the CPU step's failure comes first. */
  function Summarize(name: string, vm: MoRef, platform: Platform, vchtime: int, interval: int,
                     perfDict: Catalog): (r: Result<VM, Failure>)
    ensures var cpu := CounterSeries(platform, vchtime, interval, perfDict, vm, CpuCounter);
            var mem := CounterSeries(platform, vchtime, interval, perfDict, vm, MemCounter);
            && (r.Success? <==> cpu.Success? && mem.Success?)
            && (cpu.Failure? ==> r == Failure(cpu.error))
            && (cpu.Success? && mem.Failure? ==> r == Failure(mem.error))
            && (r.Success? ==>
                  && r.value.cpuAvg == Some(AveragePct(cpu.value))
                  && r.value.cpuMax == Some(MaxPct(cpu.value))
                  && r.value.memAvg == Some(AveragePct(mem.value))
                  && r.value.memMax == Some(MaxPct(mem.value)))
    ensures r.Success? ==>
              && r.value.name == name
              && r.value.cpuNum == platform.config(vm).numCpu
              && r.value.memSize == Some(platform.config(vm).memorySizeMB)
              && r.value.cFree == Some(RootFree(platform.config(vm).disks))
              && r.value.cpuAvg.Some? && r.value.cpuMax.Some? && r.value.cpuAvg.value <= r.value.cpuMax.value
              && r.value.memAvg.Some? && r.value.memMax.Some? && r.value.memAvg.value <= r.value.memMax.value
  {
    var config := platform.config(vm);
    match CounterSeries(platform, vchtime, interval, perfDict, vm, CpuCounter)
    case Failure(e) => Failure(e)
    case Success(cpu) =>
      match CounterSeries(platform, vchtime, interval, perfDict, vm, MemCounter)
      case Failure(e) => Failure(e)
      case Success(mem) =>
        AverageAtMostMax(cpu);
        AverageAtMostMax(mem);
        Success(VM(name, config.numCpu, Some(AveragePct(cpu)), Some(MaxPct(cpu)),
                   Some(config.memorySizeMB), Some(AveragePct(mem)), Some(MaxPct(mem)),
                   Some(RootFree(config.disks))))
  }

  /** `create_vm_object`, step by step; the repeated queries whose answers the
      script never reads are not issued. */
  method CreateVmObject(name: string, vm: MoRef, platform: Platform, vchtime: int, interval: int,
                        perfDict: Catalog) returns (r: Result<VM, Failure>)
    ensures r == Summarize(name, vm, platform, vchtime, interval, perfDict)
  {
    var config := platform.config(vm);
    var cpuNum, memSize, disks := config.numCpu, config.memorySizeMB, config.disks;
    var cpuUsage := CounterSeries(platform, vchtime, interval, perfDict, vm, CpuCounter);
    if cpuUsage.Failure? {
      return Failure(cpuUsage.error);
    }
    var cpuAvg, cpuMax := AveragePct(cpuUsage.value), MaxPct(cpuUsage.value);
    var memoryUsage := CounterSeries(platform, vchtime, interval, perfDict, vm, MemCounter);
    if memoryUsage.Failure? {
      return Failure(memoryUsage.error);
    }
    var memAvg, memMax := AveragePct(memoryUsage.value), MaxPct(memoryUsage.value);
    var cFree := ScanDisks(disks);
    r := Success(VM(name, cpuNum, Some(cpuAvg), Some(cpuMax), Some(memSize), Some(memAvg), Some(memMax),
                    Some(cFree)));
  }
}
