/** The inventory walk of `ListVms`: datacenters hold clusters, clusters hold
    hosts, hosts hold virtual machines; the walk lists the configured name of
    every virtual machine in that nesting order, duplicates included. */
module Inventory {

  /** A host (`cluster.host` entry): its configured name, read and unused by
      the walk, and the configured names of its virtual machines. */
  datatype Host = Host(name: string, vms: seq<string>)

  /** A cluster (`dc.hostFolder.childEntity` entry) and its hosts. */
  datatype Cluster = Cluster(hosts: seq<Host>)

  /** A datacenter (`rootFolder.childEntity` entry) and its clusters. */
  datatype Datacenter = Datacenter(clusters: seq<Cluster>)

  /** The names of the virtual machines on `hosts`, host by host. */
  function HostsVms(hosts: seq<Host>): seq<string>
  {
    if hosts == [] then [] else HostsVms(hosts[..|hosts| - 1]) + hosts[|hosts| - 1].vms
  }

  /** The names of the virtual machines in `clusters`, cluster by cluster. */
  function ClustersVms(clusters: seq<Cluster>): seq<string>
  {
    if clusters == [] then []
    else ClustersVms(clusters[..|clusters| - 1]) + HostsVms(clusters[|clusters| - 1].hosts)
  }

  /** The names of the virtual machines in `dcs`, datacenter by datacenter. */
  function DatacentersVms(dcs: seq<Datacenter>): seq<string>
  {
    if dcs == [] then []
    else DatacentersVms(dcs[..|dcs| - 1]) + ClustersVms(dcs[|dcs| - 1].clusters)
  }

  lemma HostsVmsStep(hosts: seq<Host>, h: nat)
    requires h < |hosts|
    ensures HostsVms(hosts[..h + 1]) == HostsVms(hosts[..h]) + hosts[h].vms
  {
    assert hosts[..h + 1][..h] == hosts[..h];
  }

  lemma ClustersVmsStep(clusters: seq<Cluster>, c: nat)
    requires c < |clusters|
    ensures ClustersVms(clusters[..c + 1]) == ClustersVms(clusters[..c]) + HostsVms(clusters[c].hosts)
  {
    assert clusters[..c + 1][..c] == clusters[..c];
  }

  lemma DatacentersVmsStep(dcs: seq<Datacenter>, d: nat)
    requires d < |dcs|
    ensures DatacentersVms(dcs[..d + 1]) == DatacentersVms(dcs[..d]) + ClustersVms(dcs[d].clusters)
  {
    assert dcs[..d + 1][..d] == dcs[..d];
  }

  /** `ListVms`: four nested loops appending to one list. */
  method ListVms(rootFolder: seq<Datacenter>) returns (listOfVms: seq<string>)
    ensures listOfVms == DatacentersVms(rootFolder)
  {
    listOfVms := [];
    for d := 0 to |rootFolder|
      invariant listOfVms == DatacentersVms(rootFolder[..d])
    {
      var clusters := rootFolder[d].clusters;
      ghost var beforeDc := listOfVms;
      for c := 0 to |clusters|
        invariant listOfVms == beforeDc + ClustersVms(clusters[..c])
      {
        var hosts := clusters[c].hosts;
        ghost var beforeCluster := listOfVms;
        for h := 0 to |hosts|
          invariant listOfVms == beforeCluster + HostsVms(hosts[..h])
        {
          var vms := hosts[h].vms;
          ghost var beforeHost := listOfVms;
          for v := 0 to |vms|
            invariant listOfVms == beforeHost + vms[..v]
          {
            assert vms[..v + 1] == vms[..v] + [vms[v]];
            listOfVms := listOfVms + [vms[v]];
          }
          assert vms[..|vms|] == vms;
          HostsVmsStep(hosts, h);
        }
        assert hosts[..|hosts|] == hosts;
        ClustersVmsStep(clusters, c);
      }
      assert clusters[..|clusters|] == clusters;
      DatacentersVmsStep(rootFolder, d);
    }
    assert rootFolder[..|rootFolder|] == rootFolder;
  }

  /** The number of virtual machines on the hosts, counted host by host. */
  function HostsVmCount(hosts: seq<Host>): nat
  {
    if hosts == [] then 0 else |hosts[0].vms| + HostsVmCount(hosts[1..])
  }

  function ClustersVmCount(clusters: seq<Cluster>): nat
  {
    if clusters == [] then 0 else HostsVmCount(clusters[0].hosts) + ClustersVmCount(clusters[1..])
  }

  function DatacentersVmCount(dcs: seq<Datacenter>): nat
  {
    if dcs == [] then 0 else ClustersVmCount(dcs[0].clusters) + DatacentersVmCount(dcs[1..])
  }

  /** Walking a concatenation of host lists walks each list in turn. */
  lemma {:induction false} HostsVmsAppend(a: seq<Host>, b: seq<Host>)
    ensures HostsVms(a + b) == HostsVms(a) + HostsVms(b)
  {
    if b != [] {
      assert (a + b)[..|a + b| - 1] == a + b[..|b| - 1];
      HostsVmsAppend(a, b[..|b| - 1]);
    } else {
      assert a + b == a;
    }
  }

  lemma {:induction false} ClustersVmsAppend(a: seq<Cluster>, b: seq<Cluster>)
    ensures ClustersVms(a + b) == ClustersVms(a) + ClustersVms(b)
  {
    if b != [] {
      assert (a + b)[..|a + b| - 1] == a + b[..|b| - 1];
      ClustersVmsAppend(a, b[..|b| - 1]);
    } else {
      assert a + b == a;
    }
  }

  /** Nesting order: the VMs of earlier datacenters come first, and within a
      datacenter the walk order is kept. */
  lemma {:induction false} DatacentersVmsAppend(a: seq<Datacenter>, b: seq<Datacenter>)
    ensures DatacentersVms(a + b) == DatacentersVms(a) + DatacentersVms(b)
  {
    if b != [] {
      assert (a + b)[..|a + b| - 1] == a + b[..|b| - 1];
      DatacentersVmsAppend(a, b[..|b| - 1]);
    } else {
      assert a + b == a;
    }
  }

  lemma {:induction false} HostsVmsLength(hosts: seq<Host>)
    ensures |HostsVms(hosts)| == HostsVmCount(hosts)
  {
    if hosts != [] {
      assert hosts == [hosts[0]] + hosts[1..];
      HostsVmsAppend([hosts[0]], hosts[1..]);
      assert [hosts[0]][..0] == [];
      HostsVmsLength(hosts[1..]);
    }
  }

  lemma {:induction false} ClustersVmsLength(clusters: seq<Cluster>)
    ensures |ClustersVms(clusters)| == ClustersVmCount(clusters)
  {
    if clusters != [] {
      assert clusters == [clusters[0]] + clusters[1..];
      ClustersVmsAppend([clusters[0]], clusters[1..]);
      assert [clusters[0]][..0] == [];
      HostsVmsLength(clusters[0].hosts);
      ClustersVmsLength(clusters[1..]);
    }
  }

  /** One name per virtual machine: the list is as long as the inventory holds
      virtual machines, so names that occur on several hosts are kept. */
  lemma {:induction false} DatacentersVmsLength(dcs: seq<Datacenter>)
    ensures |DatacentersVms(dcs)| == DatacentersVmCount(dcs)
  {
    if dcs != [] {
      assert dcs == [dcs[0]] + dcs[1..];
      DatacentersVmsAppend([dcs[0]], dcs[1..]);
      assert [dcs[0]][..0] == [];
      ClustersVmsLength(dcs[0].clusters);
      DatacentersVmsLength(dcs[1..]);
    }
  }

  /** A name is listed for some hosts exactly when one of them carries it. */
  lemma {:induction false} HostsVmsMembers(hosts: seq<Host>, name: string)
    ensures name in HostsVms(hosts) <==> exists h :: 0 <= h < |hosts| && name in hosts[h].vms
  {
    if hosts != [] {
      var init := hosts[..|hosts| - 1];
      assert hosts == init + [hosts[|hosts| - 1]];
      HostsVmsMembers(init, name);
      if exists h :: 0 <= h < |init| && name in init[h].vms {
        var h :| 0 <= h < |init| && name in init[h].vms;
        assert hosts[h] == init[h];
      }
      if exists h :: 0 <= h < |hosts| && name in hosts[h].vms {
        var h :| 0 <= h < |hosts| && name in hosts[h].vms;
        if h < |init| {
          assert init[h] == hosts[h];
        }
      }
    }
  }

  lemma {:induction false} ClustersVmsMembers(clusters: seq<Cluster>, name: string)
    ensures name in ClustersVms(clusters) <==>
              exists c :: 0 <= c < |clusters| && name in HostsVms(clusters[c].hosts)
  {
    if clusters != [] {
      var init := clusters[..|clusters| - 1];
      assert clusters == init + [clusters[|clusters| - 1]];
      ClustersVmsMembers(init, name);
      if exists c :: 0 <= c < |init| && name in HostsVms(init[c].hosts) {
        var c :| 0 <= c < |init| && name in HostsVms(init[c].hosts);
        assert clusters[c] == init[c];
      }
      if exists c :: 0 <= c < |clusters| && name in HostsVms(clusters[c].hosts) {
        var c :| 0 <= c < |clusters| && name in HostsVms(clusters[c].hosts);
        if c < |init| {
          assert init[c] == clusters[c];
        }
      }
    }
  }

  lemma {:induction false} DatacentersVmsMembersByDc(dcs: seq<Datacenter>, name: string)
    ensures name in DatacentersVms(dcs) <==>
              exists d :: 0 <= d < |dcs| && name in ClustersVms(dcs[d].clusters)
  {
    if dcs != [] {
      var init := dcs[..|dcs| - 1];
      assert dcs == init + [dcs[|dcs| - 1]];
      DatacentersVmsMembersByDc(init, name);
      if exists d :: 0 <= d < |init| && name in ClustersVms(init[d].clusters) {
        var d :| 0 <= d < |init| && name in ClustersVms(init[d].clusters);
        assert dcs[d] == init[d];
      }
      if exists d :: 0 <= d < |dcs| && name in ClustersVms(dcs[d].clusters) {
        var d :| 0 <= d < |dcs| && name in ClustersVms(dcs[d].clusters);
        if d < |init| {
          assert init[d] == dcs[d];
        }
      }
    }
  }

  /** A VM slot: datacenter `d`, cluster `c`, host `h`, position `v`, holding `name`. */
  ghost predicate VmAt(dcs: seq<Datacenter>, d: int, c: int, h: int, v: int, name: string)
  {
    && 0 <= d < |dcs| && 0 <= c < |dcs[d].clusters| && 0 <= h < |dcs[d].clusters[c].hosts|
    && 0 <= v < |dcs[d].clusters[c].hosts[h].vms| && dcs[d].clusters[c].hosts[h].vms[v] == name
  }

  /** A name is listed exactly when some virtual machine somewhere in the
      datacenter -> cluster -> host nesting carries it. */
  lemma DatacentersVmsMembers(dcs: seq<Datacenter>, name: string)
    ensures name in DatacentersVms(dcs) <==> exists d, c, h, v :: VmAt(dcs, d, c, h, v, name)
  {
    DatacentersVmsMembersByDc(dcs, name);
    if name in DatacentersVms(dcs) {
      var d :| 0 <= d < |dcs| && name in ClustersVms(dcs[d].clusters);
      ClustersVmsMembers(dcs[d].clusters, name);
      var c :| 0 <= c < |dcs[d].clusters| && name in HostsVms(dcs[d].clusters[c].hosts);
      HostsVmsMembers(dcs[d].clusters[c].hosts, name);
      var h :| 0 <= h < |dcs[d].clusters[c].hosts| && name in dcs[d].clusters[c].hosts[h].vms;
      var v :| 0 <= v < |dcs[d].clusters[c].hosts[h].vms| && dcs[d].clusters[c].hosts[h].vms[v] == name;
      assert VmAt(dcs, d, c, h, v, name);
    }
    if exists d, c, h, v :: VmAt(dcs, d, c, h, v, name) {
      var d, c, h, v :| VmAt(dcs, d, c, h, v, name);
      HostsVmsMembers(dcs[d].clusters[c].hosts, name);
      ClustersVmsMembers(dcs[d].clusters, name);
    }
  }

  /** Two hosts carrying the same VM name give that name twice. */
  lemma DuplicateNamesKept()
    ensures DatacentersVms([Datacenter([Cluster([Host("esx-1", ["web"]), Host("esx-2", ["web", "db"])])])])
              == ["web", "web", "db"]
  {
    var h1, h2 := Host("esx-1", ["web"]), Host("esx-2", ["web", "db"]);
    assert [h1, h2][..1] == [h1];
    assert [h1][..0] == [];
    assert HostsVms([h1]) == ["web"];
    assert HostsVms([h1, h2]) == ["web"] + ["web", "db"];
    var cl := Cluster([h1, h2]);
    assert [cl][..0] == [];
    assert ClustersVms([cl]) == ["web", "web", "db"];
    var dc := Datacenter([cl]);
    assert [dc][..0] == [];
  }
}
