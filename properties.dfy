/** `GetProperties`: a paginated property-collector retrieval followed by the
    conversion of every returned object into a name -> value record that also
    carries the object's reference under `'moref'`. */
module PropertyRetrieval {
  import Dict

  /** An opaque managed-object reference. */
  datatype MoRef = MoRef(id: string)

  /** The values the retrieval can return: the requested properties are
      strings (`name`, `runtime.powerState`), `'moref'` holds a reference. */
  datatype PropValue = Text(text: string) | Ref(ref: MoRef)

  /** One returned property (`prop.name`, `prop.val`). */
  datatype DynamicProperty = DynamicProperty(name: string, val: PropValue)

  /** One returned object (`eachProp.obj`, `eachProp.propSet`). */
  datatype ObjectContent = ObjectContent(obj: MoRef, propSet: seq<DynamicProperty>)

  /** One answer of the collector. The empty token stands for both Python
      falsy tokens, None and the empty string: no further page. */
  datatype RetrieveResult = RetrieveResult(objects: seq<ObjectContent>, token: string)

  /** A converted object (`propDic`). */
  type Record = map<string, PropValue>

  const MorefKey := "moref"

  /** The objects collected from the answers `pages` (the first answer, then
      each continuation in turn): a page is followed by the next one only
      while it carries a token. */
  function PagedObjects(pages: seq<RetrieveResult>): seq<ObjectContent>
  {
    if pages == [] then []
    else pages[0].objects + (if pages[0].token == "" then [] else PagedObjects(pages[1..]))
  }

  /** Every object of every page, page after page. */
  function AllObjects(pages: seq<RetrieveResult>): seq<ObjectContent>
  {
    if pages == [] then [] else pages[0].objects + AllObjects(pages[1..])
  }

  /** The collector eventually answers with an empty token. */
  ghost predicate EndsPaging(pages: seq<RetrieveResult>)
  {
    exists k :: 0 <= k < |pages| && pages[k].token == ""
  }

  /** Pagination stops exactly at the first page without a token: the result
      holds that page and every page before it, in order, and none after it. */
  lemma {:induction false} PagedObjectsStopsAtFirstEmptyToken(pages: seq<RetrieveResult>, k: nat)
    requires k < |pages| && pages[k].token == ""
    requires forall j :: 0 <= j < k ==> pages[j].token != ""
    ensures PagedObjects(pages) == AllObjects(pages[..k + 1])
  {
    if k > 0 {
      PagedObjectsStopsAtFirstEmptyToken(pages[1..], k - 1);
      assert pages[1..][..k] == pages[..k + 1][1..];
    } else {
      assert pages[..1][1..] == [];
    }
  }

  /** The assignments `propDic[prop.name] = prop.val`, in property order. */
  function PropPairs(propSet: seq<DynamicProperty>): (e: seq<(string, PropValue)>)
    ensures |e| == |propSet|
    ensures forall i :: 0 <= i < |propSet| ==> e[i] == (propSet[i].name, propSet[i].val)
  {
    seq(|propSet|, i requires 0 <= i < |propSet| => (propSet[i].name, propSet[i].val))
  }

  /** The record one object becomes (`propDic`). */
  function RecordOf(o: ObjectContent): (r: Record)
    ensures MorefKey in r && r[MorefKey] == Ref(o.obj)
  {
    Dict.Assigned(PropPairs(o.propSet))[MorefKey := Ref(o.obj)]
  }

  /** A record's keys are the returned property names and `'moref'`, and
      `'moref'` holds the object's reference, whatever properties came back. */
  lemma RecordKeys(o: ObjectContent)
    ensures RecordOf(o).Keys == (set i | 0 <= i < |o.propSet| :: o.propSet[i].name) + {MorefKey}
    ensures RecordOf(o)[MorefKey] == Ref(o.obj)
  {
    Dict.AssignedKeys(PropPairs(o.propSet));
  }

  /** A property name other than `'moref'` holds the value of the last
      property of that name the object returned. */
  lemma RecordLastWins(o: ObjectContent, i: nat)
    requires i < |o.propSet| && o.propSet[i].name != MorefKey
    requires forall j :: i < j < |o.propSet| ==> o.propSet[j].name != o.propSet[i].name
    ensures o.propSet[i].name in RecordOf(o) && RecordOf(o)[o.propSet[i].name] == o.propSet[i].val
  {
    var e := PropPairs(o.propSet);
    assert Dict.LastWithKey(e, i) by {
      forall j | i < j < |e| ensures e[j].0 != e[i].0 {
        assert e[j].0 == o.propSet[j].name;
      }
    }
    Dict.AssignedLastWins(e, i);
  }

  /** Appending one page appends its objects. */
  lemma {:induction false} AllObjectsSnoc(pages: seq<RetrieveResult>, p: RetrieveResult)
    ensures AllObjects(pages + [p]) == AllObjects(pages) + p.objects
  {
    if pages == [] {
      assert [p][1..] == [];
    } else {
      assert (pages + [p])[1..] == pages[1..] + [p];
      AllObjectsSnoc(pages[1..], p);
    }
  }

  lemma AllObjectsFirst(pages: seq<RetrieveResult>)
    requires 0 < |pages|
    ensures AllObjects(pages[..1]) == pages[0].objects
  {
    assert pages[..1] == [] + [pages[0]];
    AllObjectsSnoc([], pages[0]);
  }

  lemma AllObjectsStep(pages: seq<RetrieveResult>, n: nat)
    requires n + 1 < |pages|
    ensures AllObjects(pages[..n + 2]) == AllObjects(pages[..n + 1]) + pages[n + 1].objects
  {
    assert pages[..n + 2] == pages[..n + 1] + [pages[n + 1]];
    AllObjectsSnoc(pages[..n + 1], pages[n + 1]);
  }

  /** While every answer so far carried a token, the collector has another one. */
  lemma NextPageExists(pages: seq<RetrieveResult>, n: nat)
    requires EndsPaging(pages) && n < |pages| && pages[n].token != ""
    requires forall j :: 0 <= j < n ==> pages[j].token != ""
    ensures n + 1 < |pages|
  {
    var k :| 0 <= k < |pages| && pages[k].token == "";
    assert n < k;
  }

  /** One record per object, in the objects' order. */
  function RecordsOf(objects: seq<ObjectContent>): seq<Record>
  {
    if objects == [] then [] else RecordsOf(objects[..|objects| - 1]) + [RecordOf(objects[|objects| - 1])]
  }

  lemma RecordsOfStep(objects: seq<ObjectContent>, i: nat)
    requires i < |objects|
    ensures RecordsOf(objects[..i + 1]) == RecordsOf(objects[..i]) + [RecordOf(objects[i])]
  {
    assert objects[..i + 1][..i] == objects[..i];
  }

  /** The conversion keeps count and order: record `i` is object `i`'s, and
      it carries that object's reference. */
  lemma {:induction false} RecordsOfAt(objects: seq<ObjectContent>)
    ensures |RecordsOf(objects)| == |objects|
    ensures forall i :: 0 <= i < |objects| ==> RecordsOf(objects)[i] == RecordOf(objects[i])
    ensures forall i :: 0 <= i < |objects| ==> MorefKey in RecordsOf(objects)[i] && RecordsOf(objects)[i][MorefKey].Ref?
  {
    if objects != [] {
      var init := objects[..|objects| - 1];
      assert objects == init + [objects[|objects| - 1]];
      RecordsOfAt(init);
      assert forall i :: 0 <= i < |init| ==> init[i] == objects[i];
    }
  }

  /** The records `GetProperties` returns for the answers `pages`. */
  function PagedRecords(pages: seq<RetrieveResult>): seq<Record>
  {
    RecordsOf(PagedObjects(pages))
  }

  /** The body of the conversion loop for one object `eachProp`: its
      properties assigned in order into an empty dictionary, then `'moref'`. */
  method ToRecord(eachProp: ObjectContent) returns (propDic: Record)
    ensures propDic == RecordOf(eachProp)
  {
    ghost var pairs := PropPairs(eachProp.propSet);
    propDic := map[];
    for p := 0 to |eachProp.propSet|
      invariant propDic == Dict.Assigned(pairs[..p])
    {
      var prop := eachProp.propSet[p];
      assert pairs[..p + 1] == pairs[..p] + [(prop.name, prop.val)];
      Dict.AssignedSnoc(pairs[..p], prop.name, prop.val);
      propDic := propDic[prop.name := prop.val];
    }
    assert pairs[..|eachProp.propSet|] == pairs;
    propDic := propDic[MorefKey := Ref(eachProp.obj)];
  }

  /** The retrieval half of `GetProperties`: the first answer, then one
      continuation per token, the objects of each page appended in turn. */
  method CollectPages(pages: seq<RetrieveResult>) returns (totalProps: seq<ObjectContent>)
    requires EndsPaging(pages)
    ensures totalProps == PagedObjects(pages)
  {
    totalProps := [];
    var n := 0;
    var retProps := pages[0];
    totalProps := totalProps + retProps.objects;
    AllObjectsFirst(pages);
    while retProps.token != ""
      invariant n < |pages| && retProps == pages[n]
      invariant forall j :: 0 <= j < n ==> pages[j].token != ""
      invariant totalProps == AllObjects(pages[..n + 1])
      decreases |pages| - n
    {
      NextPageExists(pages, n);
      AllObjectsStep(pages, n);
      n := n + 1;
      retProps := pages[n];
      totalProps := totalProps + retProps.objects;
    }
    PagedObjectsStopsAtFirstEmptyToken(pages, n);
  }

  /** `GetProperties`, from the first answer on: the pages are concatenated
      while a token comes back, then each object becomes one record, in order. */
  method GetProperties(pages: seq<RetrieveResult>) returns (gpOutput: seq<Record>)
    requires EndsPaging(pages)
    ensures gpOutput == PagedRecords(pages)
  {
    var totalProps := CollectPages(pages);
    gpOutput := [];
    for i := 0 to |totalProps|
      invariant gpOutput == RecordsOf(totalProps[..i])
    {
      var propDic := ToRecord(totalProps[i]);
      RecordsOfStep(totalProps, i);
      gpOutput := gpOutput + [propDic];
    }
    assert totalProps[..|totalProps|] == totalProps;
  }

  /** With a token on every page but the last, every page is collected. */
  lemma AllPagesCollected(pages: seq<RetrieveResult>)
    requires |pages| > 0 && pages[|pages| - 1].token == ""
    requires forall j :: 0 <= j < |pages| - 1 ==> pages[j].token != ""
    ensures PagedObjects(pages) == AllObjects(pages)
  {
    var last := |pages| - 1;
    assert pages[..last + 1] == pages;
    PagedObjectsStopsAtFirstEmptyToken(pages, last);
  }
}
