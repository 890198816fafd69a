/** `main` after the connection: list the inventory's VM names, build the
    counter catalog, retrieve every VM's name and power state, summarise each
    listed VM that is powered on, mark each other listed VM unreachable, and
    order the result as `render_html` does. */
module Run {
  import opened Wrappers
  import opened Inventory
  import opened CounterCatalog
  import opened PropertyRetrieval
  import opened Summary
  import opened Report

  /** The sampling interval `main` passes on (the module-level `interval`). */
  const Interval := 360

  const NameKey := "name"
  const PowerStateKey := "runtime.powerState"
  const PoweredOn := "poweredOn"

  /** Every record `GetProperties` returns carries the object's reference. */
  predicate HasMoref(rec: Record)
  {
    MorefKey in rec && rec[MorefKey].Ref?
  }

  /** `vm['name'] in vmnames`, once `vm['name']` has been found. */
  predicate Listed(rec: Record, vmnames: seq<string>)
  {
    NameKey in rec && rec[NameKey].Text? && rec[NameKey].text in vmnames
  }

  /** What the classification loop reads besides the record itself. */
  datatype RunContext = RunContext(vmnames: seq<string>, platform: Platform, vchtime: int, perfDict: Catalog)

  /** One turn of the loop over `retProps`: `Some` record to append, `None`
      for a VM that is not listed, or the failure that ends the run. */
  function Classify(rec: Record, ctx: RunContext): (r: Result<Option<VM>, Failure>)
    requires HasMoref(rec)
    ensures r == Failure(MissingProperty(NameKey)) <==> NameKey !in rec
    ensures r == Failure(MissingProperty(PowerStateKey)) <==> Listed(rec, ctx.vmnames) && PowerStateKey !in rec
    ensures r == Success(None) <==> NameKey in rec && !Listed(rec, ctx.vmnames)
    ensures r.Success? && r.value.Some? ==> Listed(rec, ctx.vmnames) && r.value.value.name == rec[NameKey].text
    ensures Listed(rec, ctx.vmnames) && PowerStateKey in rec && rec[PowerStateKey] != Text(PoweredOn) ==>
              r == Success(Some(Unreachable(rec[NameKey].text)))
    ensures Listed(rec, ctx.vmnames) && PowerStateKey in rec && rec[PowerStateKey] == Text(PoweredOn) ==>
              var s := Summarize(rec[NameKey].text, rec[MorefKey].ref, ctx.platform, ctx.vchtime, Interval, ctx.perfDict);
              && (r.Success? <==> s.Success?)
              && (r.Success? ==> r.value == Some(s.value))
              && (r.Failure? ==> r.error == s.error)
  {
    if NameKey !in rec then Failure(MissingProperty(NameKey))
    else if !Listed(rec, ctx.vmnames) then Success(None)
    else if PowerStateKey !in rec then Failure(MissingProperty(PowerStateKey))
    else if rec[PowerStateKey] == Text(PoweredOn) then
      match Summarize(rec[NameKey].text, rec[MorefKey].ref, ctx.platform, ctx.vchtime, Interval, ctx.perfDict)
      case Failure(e) => Failure(e)
      case Success(v) => Success(Some(v))
    else Success(Some(Unreachable(rec[NameKey].text)))
  }

  /** The whole loop: `vm_objects` in the order the records came, or the
      first failure; it succeeds exactly when every record does. */
  function ClassifyAll(recs: seq<Record>, ctx: RunContext): (r: Result<seq<VM>, Failure>)
    requires forall i :: 0 <= i < |recs| ==> HasMoref(recs[i])
    ensures r.Success? <==> forall j :: 0 <= j < |recs| ==> Classify(recs[j], ctx).Success?
  {
    if recs == [] then Success([])
    else
      assert forall j :: 0 <= j < |recs| - 1 ==> recs[..|recs| - 1][j] == recs[j];
      match ClassifyAll(recs[..|recs| - 1], ctx)
      case Failure(e) => Failure(e)
      case Success(vms) =>
        match Classify(recs[|recs| - 1], ctx)
        case Failure(e) => Failure(e)
        case Success(None) => Success(vms)
        case Success(Some(v)) => Success(vms + [v])
  }

  /** Loop-step helper: `ClassifyAll` unfolded at the prefix of length `i + 1`. */
  lemma ClassifyAllStep(recs: seq<Record>, ctx: RunContext, i: nat)
    requires forall j :: 0 <= j < |recs| ==> HasMoref(recs[j])
    requires i < |recs|
    ensures ClassifyAll(recs[..i + 1], ctx) ==
              match ClassifyAll(recs[..i], ctx)
              case Failure(e) => Failure(e)
              case Success(vms) =>
                match Classify(recs[i], ctx)
                case Failure(e) => Failure(e)
                case Success(None) => Success(vms)
                case Success(Some(v)) => Success(vms + [v])
  {
    assert recs[..i + 1][..i] == recs[..i];
  }

  /** A failure on some record ends the run: the later records change nothing. */
  lemma {:induction false} FailureSticks(recs: seq<Record>, ctx: RunContext, n: nat)
    requires forall j :: 0 <= j < |recs| ==> HasMoref(recs[j])
    requires n <= |recs| && ClassifyAll(recs[..n], ctx).Failure?
    ensures ClassifyAll(recs, ctx) == ClassifyAll(recs[..n], ctx)
  {
    if n < |recs| {
      var init := recs[..|recs| - 1];
      assert init[..n] == recs[..n];
      FailureSticks(init, ctx, n);
    } else {
      assert recs[..n] == recs;
    }
  }

  /** The run fails with the error of the first record that fails. */
  lemma {:induction false} FirstFailureWins(recs: seq<Record>, ctx: RunContext, f: nat)
    requires forall j :: 0 <= j < |recs| ==> HasMoref(recs[j])
    requires f < |recs| && Classify(recs[f], ctx).Failure?
    requires forall j :: 0 <= j < f ==> Classify(recs[j], ctx).Success?
    ensures ClassifyAll(recs, ctx) == Failure(Classify(recs[f], ctx).error)
  {
    if f < |recs| - 1 {
      var init := recs[..|recs| - 1];
      assert init[f] == recs[f];
      assert forall j :: 0 <= j < f ==> init[j] == recs[j];
      FirstFailureWins(init, ctx, f);
    } else {
      var init := recs[..f];
      assert forall j :: 0 <= j < |init| ==> init[j] == recs[j];
    }
  }

  /** The names of the records that pass `vm['name'] in vmnames`, in order. */
  function ListedNames(recs: seq<Record>, vmnames: seq<string>): seq<string>
  {
    if recs == [] then []
    else
      var last := recs[|recs| - 1];
      ListedNames(recs[..|recs| - 1], vmnames) + (if Listed(last, vmnames) then [last[NameKey].text] else [])
  }

  function NamesOf(vms: seq<VM>): seq<string>
  {
    if vms == [] then [] else NamesOf(vms[..|vms| - 1]) + [vms[|vms| - 1].name]
  }

  lemma NamesOfSnoc(vms: seq<VM>, v: VM)
    ensures NamesOf(vms + [v]) == NamesOf(vms) + [v.name]
  {
    assert (vms + [v])[..|vms|] == vms;
  }

  /** A run that succeeds reports one record per listed VM, each under its
      own name, in the order the retrieval returned them; unlisted VMs are
      dropped. */
  lemma {:induction false} ReportedNames(recs: seq<Record>, ctx: RunContext)
    requires forall j :: 0 <= j < |recs| ==> HasMoref(recs[j])
    ensures ClassifyAll(recs, ctx).Success? ==> NamesOf(ClassifyAll(recs, ctx).value) == ListedNames(recs, ctx.vmnames)
  {
    if recs != [] {
      var init, last := recs[..|recs| - 1], recs[|recs| - 1];
      ReportedNames(init, ctx);
      var r := ClassifyAll(init, ctx);
      if r.Success? && Classify(last, ctx).Success? && Classify(last, ctx).value.Some? {
        NamesOfSnoc(r.value, Classify(last, ctx).value.value);
      }
    }
  }

  /** The context `main` builds: the inventory's names and the catalog. */
  function ContextOf(rootFolder: seq<Datacenter>, vchtime: int, perfList: seq<PerfCounter>,
                     platform: Platform): RunContext
  {
    RunContext(DatacentersVms(rootFolder), platform, vchtime, CatalogOf(perfList))
  }

  /** `vm_objects` after the loop over the retrieved records, or the failure. */
  function LoopResult(rootFolder: seq<Datacenter>, vchtime: int, perfList: seq<PerfCounter>,
                      pages: seq<RetrieveResult>, platform: Platform): Result<seq<VM>, Failure>
    requires EndsPaging(pages)
  {
    RecordsOfAt(PagedObjects(pages));
    ClassifyAll(PagedRecords(pages), ContextOf(rootFolder, vchtime, perfList, platform))
  }

  /** What a run of `main` yields for the inventory `rootFolder`, the
      counters `perfList`, the retrieval answers `pages` and the platform. */
  function ReportOf(rootFolder: seq<Datacenter>, vchtime: int, perfList: seq<PerfCounter>,
                    pages: seq<RetrieveResult>, platform: Platform): Result<seq<VM>, Failure>
    requires EndsPaging(pages)
  {
    match LoopResult(rootFolder, vchtime, perfList, pages, platform)
    case Failure(e) => Failure(e)
    case Success(vms) => Success(SortByCpu(vms))
  }

  /** A run fails exactly when the loop does, with the loop's error; otherwise
      it reports the loop's records ascending by `cpu_num`, nothing added or
      lost, records of equal count in the loop's order. */
  lemma ReportIsSortedLoop(rootFolder: seq<Datacenter>, vchtime: int, perfList: seq<PerfCounter>,
                           pages: seq<RetrieveResult>, platform: Platform)
    requires EndsPaging(pages)
    ensures var cls := LoopResult(rootFolder, vchtime, perfList, pages, platform);
            var r := ReportOf(rootFolder, vchtime, perfList, pages, platform);
            && (r.Success? <==> cls.Success?)
            && (r.Failure? ==> r.error == cls.error)
            && (r.Success? ==>
                  && SortedByCpu(r.value)
                  && multiset(r.value) == multiset(cls.value)
                  && forall k :: WithCpu(r.value, k) == WithCpu(cls.value, k))
  {
    var cls := LoopResult(rootFolder, vchtime, perfList, pages, platform);
    if cls.Success? {
      forall k ensures WithCpu(SortByCpu(cls.value), k) == WithCpu(cls.value, k) {
        SortByCpuStable(cls.value, k);
      }
    }
  }

  /** `main` from `ListVms` to `render_html`'s sort. */
  method RunReport(rootFolder: seq<Datacenter>, vchtime: int, perfList: seq<PerfCounter>,
                   pages: seq<RetrieveResult>, platform: Platform) returns (r: Result<seq<VM>, Failure>)
    requires EndsPaging(pages)
    ensures r == ReportOf(rootFolder, vchtime, perfList, pages, platform)
  {
    var vmnames := ListVms(rootFolder);
    var perfDict := BuildCatalog(perfList);
    var retProps := GetProperties(pages);
    RecordsOfAt(PagedObjects(pages));
    ghost var ctx := RunContext(vmnames, platform, vchtime, perfDict);
    var vmObjects: seq<VM> := [];
    for i := 0 to |retProps|
      invariant ClassifyAll(retProps[..i], ctx) == Success(vmObjects)
    {
      var vm := retProps[i];
      ClassifyAllStep(retProps, ctx, i);
      if NameKey !in vm {
        FailureSticks(retProps, ctx, i + 1);
        return Failure(MissingProperty(NameKey));
      }
      var listed := vm[NameKey].Text? && vm[NameKey].text in vmnames;
      if listed && PowerStateKey !in vm {
        FailureSticks(retProps, ctx, i + 1);
        return Failure(MissingProperty(PowerStateKey));
      }
      if listed && vm[PowerStateKey] == Text(PoweredOn) {
        var created := CreateVmObject(vm[NameKey].text, vm[MorefKey].ref, platform, vchtime, Interval, perfDict);
        if created.Failure? {
          FailureSticks(retProps, ctx, i + 1);
          return Failure(created.error);
        }
        vmObjects := vmObjects + [created.value];
      } else if listed {
        vmObjects := vmObjects + [Unreachable(vm[NameKey].text)];
      }
    }
    assert retProps[..|retProps|] == retProps;
    vmObjects := SortByCpu(vmObjects);
    r := Success(vmObjects);
  }
}
