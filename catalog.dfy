/** The performance-counter catalog: every counter the platform lists is filed
    under the key `group.metric.rollup` with its numeric counter id, and
    `StatCheck` looks a counter id up by that key. */
module CounterCatalog {
  import opened Wrappers
  import Dict

  /** One entry of the platform's counter list (`perfManager.perfCounter`). */
  datatype PerfCounter = PerfCounter(groupKey: string, nameKey: string, rollupType: string, key: int)

  /** The catalog: composed counter name to counter id. */
  type Catalog = map<string, int>

  /** `"{}.{}.{}".format(group, metric, rollup)`: the three keys in that
      order, each followed by a dot except the last. */
  function FullName(c: PerfCounter): (n: string)
    ensures |n| == |c.groupKey| + |c.nameKey| + |c.rollupType| + 2
    ensures n[..|c.groupKey|] == c.groupKey && n[|c.groupKey|] == '.'
    ensures n[|c.groupKey| + 1..|c.groupKey| + 1 + |c.nameKey|] == c.nameKey
    ensures n[|c.groupKey| + 1 + |c.nameKey|] == '.'
    ensures n[|c.groupKey| + |c.nameKey| + 2..] == c.rollupType
  {
    c.groupKey + "." + c.nameKey + "." + c.rollupType
  }

  /** Two counters share a catalog key only when they agree on group, name
      and rollup, as long as no group or name key contains a dot. */
  lemma FullNameInjective(a: PerfCounter, b: PerfCounter)
    requires '.' !in a.groupKey && '.' !in a.nameKey && '.' !in b.groupKey && '.' !in b.nameKey
    requires FullName(a) == FullName(b)
    ensures a.groupKey == b.groupKey && a.nameKey == b.nameKey && a.rollupType == b.rollupType
  {
    var n := FullName(a);
    var ga, gb := |a.groupKey|, |b.groupKey|;
    if ga < gb {
      assert false;
    } else if gb < ga {
      assert false;
    }
    var na, nb := |a.nameKey|, |b.nameKey|;
    var rest := n[ga + 1..];
    assert rest[..na] == a.nameKey && rest[..nb] == b.nameKey;
    if na < nb {
      assert false;
    } else if nb < na {
      assert false;
    }
  }

  /** The assignments `perf_dict[full name] = key` the catalog loop performs, in list order. */
  function Entries(perfList: seq<PerfCounter>): (e: seq<(string, int)>)
    ensures |e| == |perfList|
    ensures forall i :: 0 <= i < |perfList| ==> e[i] == (FullName(perfList[i]), perfList[i].key)
  {
    seq(|perfList|, i requires 0 <= i < |perfList| => (FullName(perfList[i]), perfList[i].key))
  }

  /** The catalog the loop leaves behind. */
  function CatalogOf(perfList: seq<PerfCounter>): Catalog
  {
    Dict.Assigned(Entries(perfList))
  }

  /** No later counter in the list composes the same name as counter `i`. */
  ghost predicate LastNamed(perfList: seq<PerfCounter>, i: nat)
    requires i < |perfList|
  {
    forall j :: i < j < |perfList| ==> FullName(perfList[j]) != FullName(perfList[i])
  }

  /** Builds the catalog with the loop of the reporting script: the catalog
      holds exactly the composed names of the listed counters, and each name
      maps to the id of the last counter in the list that composes it. */
  method BuildCatalog(perfList: seq<PerfCounter>) returns (perfDict: Catalog)
    ensures perfDict == CatalogOf(perfList)
    ensures perfDict.Keys == set c | c in perfList :: FullName(c)
    ensures forall i :: 0 <= i < |perfList| && LastNamed(perfList, i) ==>
              perfDict[FullName(perfList[i])] == perfList[i].key
  {
    ghost var entries := Entries(perfList);
    perfDict := map[];
    for i := 0 to |perfList|
      invariant perfDict == Dict.Assigned(entries[..i])
    {
      var counter := perfList[i];
      var counterFull := FullName(counter);
      assert entries[..i + 1] == entries[..i] + [(counterFull, counter.key)];
      Dict.AssignedSnoc(entries[..i], counterFull, counter.key);
      perfDict := perfDict[counterFull := counter.key];
    }
    assert entries[..|perfList|] == entries;
    CatalogKeys(perfList);
    forall i | 0 <= i < |perfList| && LastNamed(perfList, i)
      ensures perfDict[FullName(perfList[i])] == perfList[i].key
    {
      CatalogLastWins(perfList, i);
    }
  }

  /** The catalog's keys are exactly the composed names of the listed counters. */
  lemma CatalogKeys(perfList: seq<PerfCounter>)
    ensures CatalogOf(perfList).Keys == set c | c in perfList :: FullName(c)
  {
    var e := Entries(perfList);
    Dict.AssignedKeys(e);
    var fromEntries := set i | 0 <= i < |e| :: e[i].0;
    var fromList := set c | c in perfList :: FullName(c);
    forall n | n in fromList ensures n in fromEntries {
      var c :| c in perfList && FullName(c) == n;
      var i :| 0 <= i < |perfList| && perfList[i] == c;
      assert e[i].0 == n;
    }
  }

  /** When several counters compose the same name, the last one's id is stored. */
  lemma CatalogLastWins(perfList: seq<PerfCounter>, i: nat)
    requires i < |perfList| && LastNamed(perfList, i)
    ensures FullName(perfList[i]) in CatalogOf(perfList)
    ensures CatalogOf(perfList)[FullName(perfList[i])] == perfList[i].key
  {
    var e := Entries(perfList);
    assert Dict.LastWithKey(e, i) by {
      forall j | i < j < |e| ensures e[j].0 != e[i].0 {
        assert e[j].0 == FullName(perfList[j]);
      }
    }
    Dict.AssignedLastWins(e, i);
  }

  /** `perf_dict[counter_name]`: the stored counter id, or None where Python
      raises KeyError because the name is not in the catalog. */
  function StatCheck(perfDict: Catalog, counterName: string): (r: Option<int>)
    ensures r.Some? <==> counterName in perfDict
    ensures r.Some? ==> r.value == perfDict[counterName]
  {
    if counterName in perfDict then Some(perfDict[counterName]) else None
  }

  /** Looking a name up in a built catalog fails exactly when no listed
      counter composes that name, and otherwise yields the id of the last
      counter that does. */
  lemma StatCheckCatalog(perfList: seq<PerfCounter>, counterName: string)
    ensures StatCheck(CatalogOf(perfList), counterName).None? <==>
              forall c :: c in perfList ==> FullName(c) != counterName
    ensures forall i :: 0 <= i < |perfList| && FullName(perfList[i]) == counterName && LastNamed(perfList, i) ==>
              StatCheck(CatalogOf(perfList), counterName) == Some(perfList[i].key)
  {
    CatalogKeys(perfList);
    forall i | 0 <= i < |perfList| && FullName(perfList[i]) == counterName && LastNamed(perfList, i)
      ensures StatCheck(CatalogOf(perfList), counterName) == Some(perfList[i].key)
    {
      CatalogLastWins(perfList, i);
    }
  }
}
