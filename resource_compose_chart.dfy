/** The chart node of the envoy resource graph (pkg/envoy/resource/compose_chart.go):
    how a chart node is built from a store row, how it names itself, and how a
    chart is looked up in a resource set by identifiers. */
module ResourceComposeChart {
  import opened Strconv
  import opened Resource
  import opened ComposeTypes

  /** A chart node: the row, the identifiers it can be found under, the
      namespace it refers to and the modules its reports use. */
  datatype ComposeChart = ComposeChart(
    resourceType: ResourceType,
    identifiers: Identifiers,
    res: Chart,
    refNs: Ref,
    refMods: seq<Ref>,
    timestamps: Timestamps)
  {
    /** The store ID of the chart. */
    function SysID(): (r: nat)
      ensures identifiers == ChartIdentifiers(res.handle, res.name, res.id) && res.id > 0 ==>
        FormatUint(r) in identifiers && ParseUint(FormatUint(r)) == res.id
    {
      ParseFormatUint(res.id);
      res.id
    }

    /** The one identifier a chart is referred to by: the first non-empty of
        handle, name and decimal ID. */
    function Ref(): (r: string)
      ensures r != ""
      ensures res.handle != "" ==> r == res.handle
      ensures res.handle == "" && res.name != "" ==> r == res.name
      ensures res.handle == "" && res.name == "" ==> IsDigits(r) && ParseUint(r) == res.id
    {
      if res.handle != "" then res.handle
      else if res.name != "" then res.name
      else (ParseFormatUint(res.id); FormatUint(res.id))
    }
  }

  /** A member of a resource set. Only chart nodes are charts; every other
      node is seen through its kind and identifiers. */
  datatype Node =
    | ChartNode(chart: ComposeChart)
    | OtherNode(resourceType: ResourceType, identifiers: Identifiers)

  /** identifiers(handle, name, id): the non-blank handle and name, and the
      decimal ID when the chart has one. */
  function ChartIdentifiers(handle: string, name: string, id: nat): Identifiers {
    MakeIdentifiers([handle, name] + (if id > 0 then [FormatUint(id)] else []))
  }

  /** NewComposeChart: the chart node for a row, referring to the namespace
      nsRef and, within that namespace, to the modules in mmRef. */
  method NewComposeChart(res: Chart, nsRef: string, mmRef: seq<string>) returns (r: ComposeChart)
    ensures r.resourceType == ComposeChartType && r.res == res
    ensures r.identifiers == ChartIdentifiers(res.handle, res.name, res.id)
    ensures r.refNs == AddRef(ComposeNamespaceType, [nsRef])
    ensures |r.refMods| == |mmRef|
    ensures forall i :: 0 <= i < |mmRef| ==>
      r.refMods[i] == Constraint(AddRef(ComposeModuleType, [mmRef[i]]), r.refNs)
    ensures r.timestamps == Timestamps(Some(res.createdAt), res.updatedAt, res.deletedAt, None)
  {
    var refMods := new Ref[|mmRef|];
    var refNs := AddRef(ComposeNamespaceType, [nsRef]);
    var i := 0;
    while i < |mmRef|
      invariant 0 <= i <= |mmRef|
      invariant forall k :: 0 <= k < i ==>
        refMods[k] == Constraint(AddRef(ComposeModuleType, [mmRef[k]]), refNs)
    {
      refMods[i] := Constraint(AddRef(ComposeModuleType, [mmRef[i]]), refNs);
      i := i + 1;
    }
    r := ComposeChart(
      ComposeChartType,
      ChartIdentifiers(res.handle, res.name, res.id),
      res,
      refNs,
      refMods[..],
      Timestamps(Some(res.createdAt), res.updatedAt, res.deletedAt, None));
  }

  /** A node FindComposeChart accepts for the query: a chart sharing an identifier with it. */
  predicate ChartMatches(n: Node, ii: Identifiers) {
    n.ChartNode? && HasAny(n.chart.identifiers, ii)
  }

  /** The chart FindComposeChart settles on: the walk never stops early, so
      the last matching chart in walk order. */
  function LastMatchingChart(rr: seq<Node>, ii: Identifiers): Option<Chart> {
    if rr == [] then None
    else if ChartMatches(rr[|rr| - 1], ii) then Some(rr[|rr| - 1].chart.res)
    else LastMatchingChart(rr[..|rr| - 1], ii)
  }

  /** FindComposeChart: walk the whole set, remembering every chart whose
      identifiers intersect the query. */
  method FindComposeChart(rr: seq<Node>, ii: Identifiers) returns (ch: Option<Chart>)
    ensures ch == LastMatchingChart(rr, ii)
  {
    var chRes: Option<ComposeChart> := None;
    var i := 0;
    while i < |rr|
      invariant 0 <= i <= |rr|
      invariant (if chRes.Some? then Some(chRes.value.res) else None) == LastMatchingChart(rr[..i], ii)
    {
      assert rr[..i + 1][..i] == rr[..i];
      var r := rr[i];
      if r.ChartNode? {
        if HasAny(r.chart.identifiers, ii) {
          chRes := Some(r.chart);
        }
      }
      i := i + 1;
    }
    assert rr[..i] == rr;
    if chRes.Some? {
      return Some(chRes.value.res);
    }
    return None;
  }

  /** What the lookup finds: nothing exactly when no chart matches; otherwise a
      matching chart after which no chart matches. */
  lemma {:induction false} LastMatchingChartIsLast(rr: seq<Node>, ii: Identifiers)
    ensures LastMatchingChart(rr, ii).None? <==> forall k :: 0 <= k < |rr| ==> !ChartMatches(rr[k], ii)
    ensures LastMatchingChart(rr, ii).Some? ==>
      exists k :: 0 <= k < |rr| && ChartMatches(rr[k], ii) && rr[k].chart.res == LastMatchingChart(rr, ii).value
        && forall j :: k < j < |rr| ==> !ChartMatches(rr[j], ii)
  {
    if rr != [] {
      var init := rr[..|rr| - 1];
      LastMatchingChartIsLast(init, ii);
      if !ChartMatches(rr[|rr| - 1], ii) {
        assert forall k :: 0 <= k < |init| ==> rr[k] == init[k];
        if LastMatchingChart(init, ii).Some? {
          var k :| 0 <= k < |init| && ChartMatches(init[k], ii) && init[k].chart.res == LastMatchingChart(init, ii).value
            && forall j :: k < j < |init| ==> !ChartMatches(init[j], ii);
          assert ChartMatches(rr[k], ii);
        }
      }
    }
  }

  /** Nodes that are not charts never influence the lookup, whatever their identifiers. */
  lemma {:induction false} LastMatchingChartIgnoresOtherNodes(rr: seq<Node>, n: Node, ii: Identifiers)
    requires !n.ChartNode?
    ensures LastMatchingChart(rr + [n], ii) == LastMatchingChart(rr, ii)
    ensures LastMatchingChart([n] + rr, ii) == LastMatchingChart(rr, ii)
  {
    assert (rr + [n])[..|rr|] == rr;
    if rr != [] {
      assert ([n] + rr)[..|rr|] == [n] + rr[..|rr| - 1];
      LastMatchingChartIgnoresOtherNodes(rr[..|rr| - 1], n, ii);
    }
  }

  /** An empty query finds nothing. */
  lemma {:induction false} LastMatchingChartEmptyQuery(rr: seq<Node>)
    ensures LastMatchingChart(rr, {}) == None
  {
    if rr != [] {
      LastMatchingChartEmptyQuery(rr[..|rr| - 1]);
    }
  }

  /** The chart's own identifiers: exactly the non-blank handle and name and
      the decimal ID when positive, so the ID identifier parses back to SysID. */
  lemma ChartIdentifiersOfRow(c: ComposeChart, s: string)
    requires c.identifiers == ChartIdentifiers(c.res.handle, c.res.name, c.res.id)
    ensures s in c.identifiers <==>
      s != "" && (s == c.res.handle || s == c.res.name || (c.SysID() > 0 && s == FormatUint(c.SysID())))
    ensures c.SysID() > 0 ==> FormatUint(c.SysID()) in c.identifiers && ParseUint(FormatUint(c.SysID())) == c.SysID()
  {
    ParseFormatUint(c.res.id);
  }

  /** A chart built from a row can be found under the name Ref() gives it,
      unless it has neither handle, name nor ID: in any set where it is the
      last chart answering to that name, FindComposeChart returns its row. */
  lemma {:induction false} RefIsIdentifier(rr: seq<Node>, k: nat, c: ComposeChart)
    requires c.identifiers == ChartIdentifiers(c.res.handle, c.res.name, c.res.id)
    requires c.res.handle != "" || c.res.name != "" || c.res.id > 0
    requires k < |rr| && rr[k] == ChartNode(c)
    requires forall j :: k < j < |rr| ==> !ChartMatches(rr[j], {c.Ref()})
    ensures c.Ref() in c.identifiers
    ensures LastMatchingChart(rr, {c.Ref()}) == Some(c.res)
  {
    assert c.Ref() in c.identifiers * {c.Ref()};
    if k < |rr| - 1 {
      var init := rr[..|rr| - 1];
      assert forall j :: k < j < |init| ==> init[j] == rr[j];
      RefIsIdentifier(init, k, c);
    }
  }

  /** ComposeChartErrUnresolved: the error names the chart kind and carries
      exactly the identifiers that were looked for. */
  function ComposeChartErrUnresolved(ii: Identifiers): (e: Error)
    ensures e.Unresolved? && e.resourceType == ComposeChartType && e.identifiers == ii
  {
    Unresolved(ComposeChartType, ii)
  }
}
