/** The ordering `render_html` applies before rendering:
    `vms_list.sort(key=lambda x: x.cpu_num)`, a stable ascending sort. */
module Report {
  import opened Summary

  ghost predicate SortedByCpu(vms: seq<VM>)
  {
    forall i, j :: 0 <= i < j < |vms| ==> vms[i].cpuNum <= vms[j].cpuNum
  }

  /** Inserts `v` after every trailing record whose count exceeds it, so it
      lands behind all records of its own count. */
  function InsertByCpu(sorted: seq<VM>, v: VM): seq<VM>
  {
    if sorted == [] || sorted[|sorted| - 1].cpuNum <= v.cpuNum then sorted + [v]
    else InsertByCpu(sorted[..|sorted| - 1], v) + [sorted[|sorted| - 1]]
  }

  /** The sorted list, built by inserting the records in their input order:
      ascending by `cpu_num` and a permutation of the input. */
  function SortByCpu(vms: seq<VM>): (r: seq<VM>)
    ensures SortedByCpu(r)
    ensures multiset(r) == multiset(vms)
  {
    if vms == [] then []
    else
      var init, last := vms[..|vms| - 1], vms[|vms| - 1];
      assert vms == init + [last];
      InsertSorted(SortByCpu(init), last);
      InsertPermutes(SortByCpu(init), last);
      InsertByCpu(SortByCpu(init), last)
  }

  /** The records with `cpu_num == k`, in their order in `vms`. */
  function WithCpu(vms: seq<VM>, k: int): seq<VM>
  {
    if vms == [] then []
    else WithCpu(vms[..|vms| - 1], k) + (if vms[|vms| - 1].cpuNum == k then [vms[|vms| - 1]] else [])
  }

  lemma {:induction false} WithCpuAppend(a: seq<VM>, b: seq<VM>, k: int)
    ensures WithCpu(a + b, k) == WithCpu(a, k) + WithCpu(b, k)
  {
    if b == [] {
      assert a + b == a;
    } else {
      assert (a + b)[..|a + b| - 1] == a + b[..|b| - 1];
      WithCpuAppend(a, b[..|b| - 1], k);
    }
  }

  /** `[v]` if `v` has count `k`, else nothing. */
  function OneWithCpu(v: VM, k: int): seq<VM>
  {
    if v.cpuNum == k then [v] else []
  }

  lemma WithCpuSnoc(vms: seq<VM>, v: VM, k: int)
    ensures WithCpu(vms + [v], k) == WithCpu(vms, k) + OneWithCpu(v, k)
  {
    assert (vms + [v])[..|vms|] == vms;
  }

  lemma {:induction false} InsertWithCpu(sorted: seq<VM>, v: VM, k: int)
    ensures WithCpu(InsertByCpu(sorted, v), k) == WithCpu(sorted, k) + OneWithCpu(v, k)
  {
    if sorted == [] || sorted[|sorted| - 1].cpuNum <= v.cpuNum {
      WithCpuSnoc(sorted, v, k);
    } else {
      var init, last := sorted[..|sorted| - 1], sorted[|sorted| - 1];
      InsertWithCpu(init, v, k);
      WithCpuSnoc(InsertByCpu(init, v), last, k);
      assert OneWithCpu(v, k) + OneWithCpu(last, k) == OneWithCpu(last, k) + OneWithCpu(v, k);
    }
  }

  /** Stability: for every count, the records with that count appear in the
      sorted list exactly as, and in the order, they appear in the input. */
  lemma {:induction false} SortByCpuStable(vms: seq<VM>, k: int)
    ensures WithCpu(SortByCpu(vms), k) == WithCpu(vms, k)
  {
    if vms != [] {
      var init, last := vms[..|vms| - 1], vms[|vms| - 1];
      assert vms == init + [last];
      SortByCpuStable(init, k);
      InsertWithCpu(SortByCpu(init), last, k);
      WithCpuSnoc(init, last, k);
    }
  }

  lemma {:induction false} InsertPermutes(sorted: seq<VM>, v: VM)
    ensures multiset(InsertByCpu(sorted, v)) == multiset(sorted) + multiset{v}
  {
    if !(sorted == [] || sorted[|sorted| - 1].cpuNum <= v.cpuNum) {
      var init := sorted[..|sorted| - 1];
      assert sorted == init + [sorted[|sorted| - 1]];
      InsertPermutes(init, v);
    }
  }

  lemma {:induction false} InsertSorted(sorted: seq<VM>, v: VM)
    requires SortedByCpu(sorted)
    ensures SortedByCpu(InsertByCpu(sorted, v))
  {
    if !(sorted == [] || sorted[|sorted| - 1].cpuNum <= v.cpuNum) {
      var init, last := sorted[..|sorted| - 1], sorted[|sorted| - 1];
      InsertSorted(init, v);
      var ins := InsertByCpu(init, v);
      InsertPermutes(init, v);
      forall i | 0 <= i < |ins| ensures ins[i].cpuNum <= last.cpuNum {
        assert ins[i] in multiset(ins);
        assert ins[i] in multiset(init) || ins[i] == v;
      }
    }
  }

  /** Two records with two CPUs each, found as vm-b then vm-a, stay in that order. */
  lemma EqualCountsKeepOrder()
    ensures var b := Unreachable("vm-b").(cpuNum := 2);
            var a := Unreachable("vm-a").(cpuNum := 2);
            SortByCpu([b, a]) == [b, a]
  {
    var b := Unreachable("vm-b").(cpuNum := 2);
    var a := Unreachable("vm-a").(cpuNum := 2);
    assert [b, a][..1] == [b];
    assert [b][..0] == [];
    assert SortByCpu([b]) == [b];
    assert SortByCpu([b, a]) == InsertByCpu([b], a);
  }
}
