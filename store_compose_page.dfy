/** The store encoder of compose pages (pkg/envoy/store/compose_page_marshal.go):
    Prepare resolves a page's references against the graph and the store;
    Encode settles its ID, timestamps and foreign keys, rewrites the module
    and chart references embedded in block options into store IDs, and
    creates, skips or updates the stored page.

    The store is an object that logs every call it receives and answers from
    oracles; the graph lookups, the ID allocator, the clock, the skip
    evaluator and the merge function are given as an environment. */
module StoreComposePage {
  import opened Strconv
  import opened Resource
  import opened ComposeTypes
  import opened ResourceComposeChart

  // ---------------------------------------------------------------------------
  // Collaborators

  /** The store encoder's configuration. */
  datatype EncoderConfig = EncoderConfig(onExisting: MergeAlg, skipIf: string)

  /** The configuration a resource carries. */
  datatype EnvoyConfig = EnvoyConfig(onExisting: Option<MergeAlg>, skipIf: string)

  /** A lookup's answer: the row (nil when not found) and an error. */
  datatype Lookup<T> = Lookup(found: Option<T>, err: Option<Error>)

  /** A call the store received. */
  datatype Call =
    | Find(kind: ResourceType, scope: Option<nat>, ids: Identifiers)  // findCompose*RS, scoped by namespace ID
    | FindExisting(namespaceID: nat, ids: Identifiers)                // findComposePageS
    | Create(page: Page)
    | Update(page: Page)

  /** The store, as seen by the page encoder. */
  class Store {
    var calls: seq<Call>
    const namespaces: Identifiers -> Lookup<Namespace>
    const modules: (nat, Identifiers) -> Lookup<Module>
    const pages: (nat, Identifiers) -> Lookup<Page>
    const charts: (nat, Identifiers) -> Lookup<Chart>
    const existing: (nat, Identifiers) -> Lookup<Page>
    const create: Page -> Option<Error>
    const update: Page -> Option<Error>

    constructor (namespaces: Identifiers -> Lookup<Namespace>, modules: (nat, Identifiers) -> Lookup<Module>,
                 pages: (nat, Identifiers) -> Lookup<Page>, charts: (nat, Identifiers) -> Lookup<Chart>,
                 existing: (nat, Identifiers) -> Lookup<Page>, create: Page -> Option<Error>, update: Page -> Option<Error>)
      ensures calls == []
      ensures this.namespaces == namespaces && this.modules == modules && this.pages == pages
      ensures this.charts == charts && this.existing == existing && this.create == create && this.update == update
    {
      calls := [];
      this.namespaces, this.modules, this.pages := namespaces, modules, pages;
      this.charts, this.existing, this.create, this.update := charts, existing, create, update;
    }

    method FindNamespace(ii: Identifiers) returns (l: Lookup<Namespace>)
      modifies this
      ensures l == namespaces(ii) && calls == old(calls) + [Find(ComposeNamespaceType, None, ii)]
    {
      calls := calls + [Find(ComposeNamespaceType, None, ii)];
      l := namespaces(ii);
    }

    method FindModule(nsID: nat, ii: Identifiers) returns (l: Lookup<Module>)
      modifies this
      ensures l == modules(nsID, ii) && calls == old(calls) + [Find(ComposeModuleType, Some(nsID), ii)]
    {
      calls := calls + [Find(ComposeModuleType, Some(nsID), ii)];
      l := modules(nsID, ii);
    }

    method FindPage(nsID: nat, ii: Identifiers) returns (l: Lookup<Page>)
      modifies this
      ensures l == pages(nsID, ii) && calls == old(calls) + [Find(ComposePageType, Some(nsID), ii)]
    {
      calls := calls + [Find(ComposePageType, Some(nsID), ii)];
      l := pages(nsID, ii);
    }

    method FindChart(nsID: nat, ii: Identifiers) returns (l: Lookup<Chart>)
      modifies this
      ensures l == charts(nsID, ii) && calls == old(calls) + [Find(ComposeChartType, Some(nsID), ii)]
    {
      calls := calls + [Find(ComposeChartType, Some(nsID), ii)];
      l := charts(nsID, ii);
    }

    method FindExistingPage(nsID: nat, ii: Identifiers) returns (l: Lookup<Page>)
      modifies this
      ensures l == existing(nsID, ii) && calls == old(calls) + [FindExisting(nsID, ii)]
    {
      calls := calls + [FindExisting(nsID, ii)];
      l := existing(nsID, ii);
    }

    method CreatePage(p: Page) returns (err: Option<Error>)
      modifies this
      ensures err == create(p) && calls == old(calls) + [Create(p)]
    {
      calls := calls + [Create(p)];
      err := create(p);
    }

    method UpdatePage(p: Page) returns (err: Option<Error>)
      modifies this
      ensures err == update(p) && calls == old(calls) + [Update(p)]
    {
      calls := calls + [Update(p)];
      err := update(p);
    }
  }

  /** What Encode takes from its surroundings: the graph's lookups by
      identifiers (the parent resources), the ID allocator, the clock, the
      skip evaluator and the merge of two pages. */
  datatype Env = Env(
    parents: seq<Node>,
    namespaceIn: Identifiers -> Option<Namespace>,
    moduleIn: Identifiers -> Option<Module>,
    pageIn: Identifiers -> Option<Page>,
    nextID: nat,
    now: Time,
    skipEval: (EncoderConfig, bool) -> Result<bool>,
    merge: (Page, Page) -> Page)

  /** The page resource: the row, which the encoder updates in place, and its references. */
  class ResourcePage {
    var res: Page
    const refNs: Ref
    const refMod: Option<Ref>
    const refParent: Option<Ref>
    const modRefs: seq<Ref>
    const refCharts: seq<Ref>
    const identifiers: Identifiers
    const timestamps: Option<Timestamps>
    const config: EnvoyConfig

    constructor (res: Page, refNs: Ref, refMod: Option<Ref>, refParent: Option<Ref>, modRefs: seq<Ref>,
                 refCharts: seq<Ref>, identifiers: Identifiers, timestamps: Option<Timestamps>, config: EnvoyConfig)
      ensures this.res == res && this.refNs == refNs && this.refMod == refMod && this.refParent == refParent
      ensures this.modRefs == modRefs && this.refCharts == refCharts && this.identifiers == identifiers
      ensures this.timestamps == timestamps && this.config == config
    {
      this.res, this.refNs, this.refMod, this.refParent := res, refNs, refMod, refParent;
      this.modRefs, this.refCharts, this.identifiers := modRefs, refCharts, identifiers;
      this.timestamps, this.config := timestamps, config;
    }
  }

  // ---------------------------------------------------------------------------
  // Prepare, as a specification

  /** The encoder's state around Prepare: the store's log, what was resolved,
      the resource row, and the error Prepare returns. */
  datatype Prepared = Prepared(
    calls: seq<Call>,
    relNS: Option<Namespace>,
    relMod: Option<Module>,
    relParent: Option<Page>,
    relMods: map<string, Module>,
    relCharts: map<string, Chart>,
    pg: Option<Page>,
    res: Page,
    err: Option<Error>)

  /** The identifier map of one resolved reference: each of its identifiers to the row. */
  function Keyed<T>(ii: Identifiers, row: T): (m: map<string, T>)
    ensures m.Keys == ii && forall id :: id in m ==> m[id] == row
  {
    map id | id in ii :: row
  }

  /** One lookup per reference, in order, within the namespace. */
  function RefCalls(kind: ResourceType, nsID: nat, refs: seq<Ref>): (cc: seq<Call>)
    ensures |cc| == |refs|
  {
    seq(|refs|, k requires 0 <= k < |refs| => Find(kind, Some(nsID), refs[k].identifiers))
  }

  /** The lookup of an optional reference: one call when it is present. */
  function OptionalCall(kind: ResourceType, nsID: nat, ref: Option<Ref>): seq<Call> {
    if ref.Some? then [Find(kind, Some(nsID), ref.value.identifiers)] else []
  }

  /** What a successful Prepare asks the store after the namespace, in order:
      the module and the parent page when referenced, every related module,
      every related chart, and the existing page. */
  function PrepareCalls(rp: ResourcePage, nsID: nat): seq<Call> {
    OptionalCall(ComposeModuleType, nsID, rp.refMod) + ParentCalls(rp, nsID)
  }

  function ParentCalls(rp: ResourcePage, nsID: nat): seq<Call> {
    OptionalCall(ComposePageType, nsID, rp.refParent) + RelatedCalls(rp, nsID)
  }

  function RelatedCalls(rp: ResourcePage, nsID: nat): seq<Call> {
    RefCalls(ComposeModuleType, nsID, rp.modRefs) + RefCalls(ComposeChartType, nsID, rp.refCharts)
    + [FindExisting(nsID, rp.identifiers)]
  }

  /** The row after a successful Prepare: seeded by the existing page when there is one. */
  function Seeded(res: Page, pg: Option<Page>): Page {
    if pg.Some? then res.(id := pg.value.id, namespaceID := pg.value.namespaceID) else res
  }

  /** The result of resolving a list of references. */
  datatype Filled<T> = Filled(rel: map<string, T>, calls: seq<Call>, err: Option<Error>)

  /** The loop over ModRefs or RefCharts from entry i on: look each reference
      up within the namespace, fail on an error or a nil row, and otherwise
      key the row by every identifier of the reference. */
  function FillRefs<T>(kind: ResourceType, find: (nat, Identifiers) -> Lookup<T>, nsID: nat, refs: seq<Ref>, i: nat,
                       rel: map<string, T>, calls: seq<Call>): Filled<T>
    requires i <= |refs|
    decreases |refs| - i
  {
    if i == |refs| then Filled(rel, calls, None)
    else
      var ii := refs[i].identifiers;
      var l := find(nsID, ii);
      var calls' := calls + [Find(kind, Some(nsID), ii)];
      if l.err.Some? then Filled(rel, calls', l.err)
      else if l.found.None? then Filled(rel, calls', Some(Unresolved(kind, ii)))
      else FillRefs(kind, find, nsID, refs, i + 1, rel + Keyed(ii, l.found.value), calls')
  }

  /** The loop's store log: it only appends, one lookup per reference in
      order within the namespace; the loop succeeds exactly when every
      reference's lookup returned a row without error, and then it has made
      one lookup per reference. */
  lemma {:induction false} FillRefsLog<T>(kind: ResourceType, find: (nat, Identifiers) -> Lookup<T>, nsID: nat, refs: seq<Ref>, i: nat,
                                          rel: map<string, T>, calls: seq<Call>)
    requires i <= |refs|
    ensures var r := FillRefs(kind, find, nsID, refs, i, rel, calls);
      calls <= r.calls && |r.calls| <= |calls| + (|refs| - i)
    ensures var r := FillRefs(kind, find, nsID, refs, i, rel, calls);
      r.err.None? <==>
        (|r.calls| == |calls| + (|refs| - i)
         && forall k :: i <= k < |refs| ==> find(nsID, refs[k].identifiers).err.None? && find(nsID, refs[k].identifiers).found.Some?)
    ensures var r := FillRefs(kind, find, nsID, refs, i, rel, calls);
      forall k :: |calls| <= k < |r.calls| ==> r.calls[k] == Find(kind, Some(nsID), refs[i + (k - |calls|)].identifiers)
    ensures var r := FillRefs(kind, find, nsID, refs, i, rel, calls);
      r.err.None? ==> r.calls == calls + RefCalls(kind, nsID, refs[i..])
    decreases |refs| - i
  {
    if i < |refs| {
      var ii := refs[i].identifiers;
      var l := find(nsID, ii);
      var calls' := calls + [Find(kind, Some(nsID), ii)];
      if l.err.None? && l.found.Some? {
        var r := FillRefs(kind, find, nsID, refs, i, rel, calls);
        assert r == FillRefs(kind, find, nsID, refs, i + 1, rel + Keyed(ii, l.found.value), calls');
        FillRefsLog(kind, find, nsID, refs, i + 1, rel + Keyed(ii, l.found.value), calls');
        assert refs[i..] == [refs[i]] + refs[i + 1..];
      }
    }
  }

  /** The lookup of ref within the namespace returns a row without error. */
  predicate Resolves<T>(find: (nat, Identifiers) -> Lookup<T>, nsID: nat, ref: Ref) {
    find(nsID, ref.identifiers).err.None? && find(nsID, ref.identifiers).found.Some?
  }

  /** The error a reference that does not resolve fails with: the store's,
      or the kind's unresolved error for its identifiers. */
  function RefError<T>(kind: ResourceType, find: (nat, Identifiers) -> Lookup<T>, nsID: nat, ref: Ref): Error {
    if find(nsID, ref.identifiers).err.Some? then find(nsID, ref.identifiers).err.value
    else Unresolved(kind, ref.identifiers)
  }

  lemma RefCallsCons(kind: ResourceType, nsID: nat, refs: seq<Ref>)
    requires refs != []
    ensures RefCalls(kind, nsID, refs) == [Find(kind, Some(nsID), refs[0].identifiers)] + RefCalls(kind, nsID, refs[1..])
  {
  }

  /** refs[k] is the first reference from i on that does not resolve. */
  predicate FirstUnresolved<T>(find: (nat, Identifiers) -> Lookup<T>, nsID: nat, refs: seq<Ref>, i: nat, k: nat) {
    i <= k < |refs| && !Resolves(find, nsID, refs[k]) && forall j :: i <= j < k ==> Resolves(find, nsID, refs[j])
  }

  /** The index of the first reference from i on that does not resolve, or -1. */
  function FirstUnresolvedFrom<T>(find: (nat, Identifiers) -> Lookup<T>, nsID: nat, refs: seq<Ref>, i: nat): (k: int)
    requires i <= |refs|
    ensures k == -1 || (k >= 0 && FirstUnresolved(find, nsID, refs, i, k))
    ensures k == -1 <==> forall j :: i <= j < |refs| ==> Resolves(find, nsID, refs[j])
    decreases |refs| - i
  {
    if i == |refs| then -1
    else if !Resolves(find, nsID, refs[i]) then i
    else FirstUnresolvedFrom(find, nsID, refs, i + 1)
  }

  /** A failed loop stops at the first reference that does not resolve: its
      lookup is the last call, and its error is returned. */
  lemma {:induction false} FillRefsStopsAtFirstFailure<T>(kind: ResourceType, find: (nat, Identifiers) -> Lookup<T>, nsID: nat,
                                                          refs: seq<Ref>, i: nat, rel: map<string, T>, calls: seq<Call>)
    requires i <= |refs| && FillRefs(kind, find, nsID, refs, i, rel, calls).err.Some?
    ensures var r := FillRefs(kind, find, nsID, refs, i, rel, calls);
      var k := FirstUnresolvedFrom(find, nsID, refs, i);
      k >= 0
      && r.err == Some(RefError(kind, find, nsID, refs[k]))
      && r.calls == calls + RefCalls(kind, nsID, refs[i..k + 1])
    decreases |refs| - i
  {
    var ii := refs[i].identifiers;
    var calls' := calls + [Find(kind, Some(nsID), ii)];
    if Resolves(find, nsID, refs[i]) {
      var rel' := rel + Keyed(ii, find(nsID, ii).found.value);
      FillRefsNext(kind, find, nsID, refs, i, rel, calls);
      FillRefsStopsAtFirstFailure(kind, find, nsID, refs, i + 1, rel', calls');
      var k := FirstUnresolvedFrom(find, nsID, refs, i + 1);
      RefCallsStep(kind, nsID, refs, i, k + 1);
      AppendAssoc(calls, [Find(kind, Some(nsID), ii)], RefCalls(kind, nsID, refs[i + 1..k + 1]));
    } else {
      RefCallsStep(kind, nsID, refs, i, i + 1);
      assert refs[i + 1..i + 1] == [];
    }
  }

  /** A reference that resolves: the loop goes on from the next one, with
      its lookup logged and its row keyed. */
  lemma FillRefsNext<T>(kind: ResourceType, find: (nat, Identifiers) -> Lookup<T>, nsID: nat,
                        refs: seq<Ref>, i: nat, rel: map<string, T>, calls: seq<Call>)
    requires i < |refs| && Resolves(find, nsID, refs[i])
    ensures FillRefs(kind, find, nsID, refs, i, rel, calls)
      == FillRefs(kind, find, nsID, refs, i + 1, rel + Keyed(refs[i].identifiers, find(nsID, refs[i].identifiers).found.value),
                  calls + [Find(kind, Some(nsID), refs[i].identifiers)])
    ensures FirstUnresolvedFrom(find, nsID, refs, i) == FirstUnresolvedFrom(find, nsID, refs, i + 1)
  {
  }

  lemma RefCallsStep(kind: ResourceType, nsID: nat, refs: seq<Ref>, i: nat, j: nat)
    requires i < j <= |refs|
    ensures RefCalls(kind, nsID, refs[i..j]) == [Find(kind, Some(nsID), refs[i].identifiers)] + RefCalls(kind, nsID, refs[i + 1..j])
  {
    RefCallsCons(kind, nsID, refs[i..j]);
    assert refs[i..j][1..] == refs[i + 1..j];
  }

  lemma AppendAssoc<T>(a: seq<T>, b: seq<T>, c: seq<T>)
    ensures (a + b) + c == a + (b + c)
  {
  }

  /** The last reference from i on that lists id, or -1. */
  function LastListing(refs: seq<Ref>, i: nat, id: string): (k: int)
    requires i <= |refs|
    ensures k == -1 || (i <= k < |refs| && id in refs[k].identifiers)
    ensures forall j :: (if k == -1 then i else k + 1) <= j < |refs| ==> id !in refs[j].identifiers
    decreases |refs| - i
  {
    if i == |refs| then -1
    else if LastListing(refs, i + 1, id) >= 0 then LastListing(refs, i + 1, id)
    else if id in refs[i].identifiers then i
    else -1
  }

  /** After a successful loop, every identifier of a reference maps to the row
      its LAST listing reference resolved to; every other key is as before. */
  lemma {:induction false} FillRefsLastWins<T>(kind: ResourceType, find: (nat, Identifiers) -> Lookup<T>, nsID: nat, refs: seq<Ref>,
                                               i: nat, rel: map<string, T>, calls: seq<Call>, id: string)
    requires i <= |refs|
    requires FillRefs(kind, find, nsID, refs, i, rel, calls).err.None?
    ensures var r := FillRefs(kind, find, nsID, refs, i, rel, calls).rel;
      var k := LastListing(refs, i, id);
      (k >= 0 ==> id in r && find(nsID, refs[k].identifiers).found.Some? && r[id] == find(nsID, refs[k].identifiers).found.value)
      && (k < 0 ==> (id in r <==> id in rel) && (id in rel ==> r[id] == rel[id]))
    decreases |refs| - i
  {
    if i < |refs| {
      var ii := refs[i].identifiers;
      var l := find(nsID, ii);
      FillRefsLastWins(kind, find, nsID, refs, i + 1, rel + Keyed(ii, l.found.value), calls + [Find(kind, Some(nsID), ii)], id);
    }
  }

  /** What the loop stores, and whether it fails, does not depend on the log it starts from. */
  lemma {:induction false} FillRefsIgnoresLog<T>(kind: ResourceType, find: (nat, Identifiers) -> Lookup<T>, nsID: nat, refs: seq<Ref>,
                                                 i: nat, rel: map<string, T>, c1: seq<Call>, c2: seq<Call>)
    requires i <= |refs|
    ensures FillRefs(kind, find, nsID, refs, i, rel, c1).rel == FillRefs(kind, find, nsID, refs, i, rel, c2).rel
    ensures FillRefs(kind, find, nsID, refs, i, rel, c1).err == FillRefs(kind, find, nsID, refs, i, rel, c2).err
    decreases |refs| - i
  {
    if i < |refs| {
      var ii := refs[i].identifiers;
      var l := find(nsID, ii);
      if l.err.None? && l.found.Some? {
        FillRefsIgnoresLog(kind, find, nsID, refs, i + 1, rel + Keyed(ii, l.found.value),
                           c1 + [Find(kind, Some(nsID), ii)], c2 + [Find(kind, Some(nsID), ii)]);
      }
    }
  }

  /** Both loops of Prepare succeed from the maps of s, and r holds what they stored. */
  ghost predicate FilledAll(st: Store, rp: ResourcePage, nsID: nat, s: Prepared, r: Prepared) {
    var fm := FillRefs(ComposeModuleType, st.modules, nsID, rp.modRefs, 0, s.relMods, []);
    var fc := FillRefs(ComposeChartType, st.charts, nsID, rp.refCharts, 0, s.relCharts, []);
    fm.err.None? && fc.err.None? && r.relMods == fm.rel && r.relCharts == fc.rel
  }

  /** Prepare: the namespace (required), then the module and parent (when
      referenced), the related modules and charts, and the existing page,
      whose ID and namespace seed the resource. */
  function PrepareSpec(st: Store, rp: ResourcePage, s: Prepared): (r: Prepared)
    requires s.err.None?
    ensures s.calls <= r.calls && |r.calls| > |s.calls|
    ensures r.calls[|s.calls|] == Find(ComposeNamespaceType, None, rp.refNs.identifiers)
    ensures r.relNS == st.namespaces(rp.refNs.identifiers).found
    ensures r.err.None? ==>
      (r.relNS.Some?
       && (rp.refMod.Some? ==> r.relMod.Some?) && (rp.refParent.Some? ==> r.relParent.Some?)
       && r.calls[|r.calls| - 1] == FindExisting(r.relNS.value.id, rp.identifiers)
       && FilledAll(st, rp, r.relNS.value.id, s, r))
    ensures r.err.None? ==>
      (var nsID := r.relNS.value.id;
       r.calls == s.calls + [Find(ComposeNamespaceType, None, rp.refNs.identifiers)] + PrepareCalls(rp, nsID)
       && (rp.refMod.Some? ==> r.relMod == st.modules(nsID, rp.refMod.value.identifiers).found)
       && (rp.refMod.None? ==> r.relMod == s.relMod)
       && (rp.refParent.Some? ==> r.relParent == st.pages(nsID, rp.refParent.value.identifiers).found)
       && (rp.refParent.None? ==> r.relParent == s.relParent)
       && r.pg == st.existing(nsID, rp.identifiers).found && r.res == Seeded(s.res, r.pg))
  {
    var ii := rp.refNs.identifiers;
    var l := st.namespaces(ii);
    var s1 := s.(calls := s.calls + [Find(ComposeNamespaceType, None, ii)], relNS := l.found);
    if l.err.Some? then s1.(err := l.err)
    else if l.found.None? then s1.(err := Some(Unresolved(ComposeNamespaceType, ii)))
    else PrepareModule(st, rp, l.found.value.id, s1)
  }

  function PrepareModule(st: Store, rp: ResourcePage, nsID: nat, s: Prepared): (r: Prepared)
    requires s.err.None?
    ensures s.calls <= r.calls && r.relNS == s.relNS
    ensures r.err.None? ==>
      ((rp.refMod.Some? ==> r.relMod.Some?) && (rp.refParent.Some? ==> r.relParent.Some?)
       && FilledAll(st, rp, nsID, s, r))
    ensures r.err.None? ==>
      (r.calls == s.calls + PrepareCalls(rp, nsID)
       && (rp.refMod.Some? ==> r.relMod == st.modules(nsID, rp.refMod.value.identifiers).found)
       && (rp.refMod.None? ==> r.relMod == s.relMod)
       && (rp.refParent.Some? ==> r.relParent == st.pages(nsID, rp.refParent.value.identifiers).found)
       && (rp.refParent.None? ==> r.relParent == s.relParent)
       && r.pg == st.existing(nsID, rp.identifiers).found && r.res == Seeded(s.res, r.pg))
  {
    if rp.refMod.None? then
      assert PrepareCalls(rp, nsID) == ParentCalls(rp, nsID);
      PrepareParent(st, rp, nsID, s)
    else
      var ii := rp.refMod.value.identifiers;
      var l := st.modules(nsID, ii);
      var s1 := s.(calls := s.calls + [Find(ComposeModuleType, Some(nsID), ii)], relMod := l.found);
      if l.err.Some? then s1.(err := l.err)
      else if l.found.None? then s1.(err := Some(Unresolved(ComposeModuleType, ii)))
      else
        assert s1.calls + ParentCalls(rp, nsID) == s.calls + PrepareCalls(rp, nsID);
        PrepareParent(st, rp, nsID, s1)
  }

  function PrepareParent(st: Store, rp: ResourcePage, nsID: nat, s: Prepared): (r: Prepared)
    requires s.err.None?
    ensures s.calls <= r.calls && r.relNS == s.relNS && r.relMod == s.relMod
    ensures r.err.None? ==>
      ((rp.refParent.Some? ==> r.relParent.Some?)
       && FilledAll(st, rp, nsID, s, r))
    ensures r.err.None? ==>
      (r.calls == s.calls + ParentCalls(rp, nsID)
       && (rp.refParent.Some? ==> r.relParent == st.pages(nsID, rp.refParent.value.identifiers).found)
       && (rp.refParent.None? ==> r.relParent == s.relParent)
       && r.pg == st.existing(nsID, rp.identifiers).found && r.res == Seeded(s.res, r.pg))
  {
    if rp.refParent.None? then
      assert ParentCalls(rp, nsID) == RelatedCalls(rp, nsID);
      PrepareRelated(st, rp, nsID, s)
    else
      var ii := rp.refParent.value.identifiers;
      var l := st.pages(nsID, ii);
      var s1 := s.(calls := s.calls + [Find(ComposePageType, Some(nsID), ii)], relParent := l.found);
      if l.err.Some? then s1.(err := l.err)
      else if l.found.None? then s1.(err := Some(Unresolved(ComposePageType, ii)))
      else
        assert s1.calls + RelatedCalls(rp, nsID) == s.calls + ParentCalls(rp, nsID);
        PrepareRelated(st, rp, nsID, s1)
  }

  function PrepareRelated(st: Store, rp: ResourcePage, nsID: nat, s: Prepared): (r: Prepared)
    requires s.err.None?
    ensures s.calls <= r.calls && r.relNS == s.relNS && r.relMod == s.relMod && r.relParent == s.relParent
    ensures r.err.None? ==>
      FilledAll(st, rp, nsID, s, r)
    ensures r.err.None? ==>
      (r.calls == s.calls + RelatedCalls(rp, nsID)
       && r.pg == st.existing(nsID, rp.identifiers).found && r.res == Seeded(s.res, r.pg))
  {
    var fm := FillRefs(ComposeModuleType, st.modules, nsID, rp.modRefs, 0, s.relMods, s.calls);
    FillRefsLog(ComposeModuleType, st.modules, nsID, rp.modRefs, 0, s.relMods, s.calls);
    if fm.err.Some? then s.(relMods := fm.rel, calls := fm.calls, err := fm.err)
    else
      var fc := FillRefs(ComposeChartType, st.charts, nsID, rp.refCharts, 0, s.relCharts, fm.calls);
      FillRefsLog(ComposeChartType, st.charts, nsID, rp.refCharts, 0, s.relCharts, fm.calls);
      FillRefsIgnoresLog(ComposeModuleType, st.modules, nsID, rp.modRefs, 0, s.relMods, s.calls, []);
      FillRefsIgnoresLog(ComposeChartType, st.charts, nsID, rp.refCharts, 0, s.relCharts, fm.calls, []);
      if fc.err.Some? then s.(relMods := fm.rel, relCharts := fc.rel, calls := fc.calls, err := fc.err)
      else
        assert rp.modRefs[0..] == rp.modRefs && rp.refCharts[0..] == rp.refCharts;
        assert fc.calls + [FindExisting(nsID, rp.identifiers)] == s.calls + RelatedCalls(rp, nsID);
        PrepareExisting(st, rp, nsID, s.(relMods := fm.rel, relCharts := fc.rel, calls := fc.calls))
  }

  function PrepareExisting(st: Store, rp: ResourcePage, nsID: nat, s: Prepared): (r: Prepared)
    ensures r.calls == s.calls + [FindExisting(nsID, rp.identifiers)]
    ensures r.pg == st.existing(nsID, rp.identifiers).found && r.err == st.existing(nsID, rp.identifiers).err
    ensures r.err.None? && r.pg.Some? ==> r.res == s.res.(id := r.pg.value.id, namespaceID := r.pg.value.namespaceID)
    ensures r.err.Some? || r.pg.None? ==> r.res == s.res
  {
    var l := st.existing(nsID, rp.identifiers);
    var s1 := s.(calls := s.calls + [FindExisting(nsID, rp.identifiers)], pg := l.found);
    if l.err.Some? then s1.(err := l.err)
    else if l.found.Some? then s1.(res := s1.res.(id := l.found.value.id, namespaceID := l.found.value.namespaceID), err := None)
    else s1.(err := None)
  }

  /** A nil namespace stops Prepare at once: one lookup, and the namespace
      error naming the reference's identifiers. */
  lemma NamespaceUnresolvedStopsPrepare(st: Store, rp: ResourcePage, s: Prepared)
    requires s.err.None?
    requires st.namespaces(rp.refNs.identifiers) == Lookup(None, None)
    ensures PrepareSpec(st, rp, s).calls == s.calls + [Find(ComposeNamespaceType, None, rp.refNs.identifiers)]
    ensures PrepareSpec(st, rp, s).err == Some(Unresolved(ComposeNamespaceType, rp.refNs.identifiers))
  {
  }

  /** A present module or parent reference that resolves to nil fails
      Prepare with that kind's error, before the related modules and charts
      are looked up. */
  lemma {:induction false} OptionalRefUnresolved(st: Store, rp: ResourcePage, s: Prepared)
    requires s.err.None?
    requires st.namespaces(rp.refNs.identifiers).err.None? && st.namespaces(rp.refNs.identifiers).found.Some?
    ensures var nsID := st.namespaces(rp.refNs.identifiers).found.value.id;
      rp.refMod.Some? && st.modules(nsID, rp.refMod.value.identifiers) == Lookup(None, None) ==>
        PrepareSpec(st, rp, s).err == Some(Unresolved(ComposeModuleType, rp.refMod.value.identifiers))
        && |PrepareSpec(st, rp, s).calls| == |s.calls| + 2
    ensures var nsID := st.namespaces(rp.refNs.identifiers).found.value.id;
      rp.refParent.Some? && st.pages(nsID, rp.refParent.value.identifiers) == Lookup(None, None)
      && (rp.refMod.Some? ==> st.modules(nsID, rp.refMod.value.identifiers).err.None?
                              && st.modules(nsID, rp.refMod.value.identifiers).found.Some?) ==>
        PrepareSpec(st, rp, s).err == Some(Unresolved(ComposePageType, rp.refParent.value.identifiers))
        && |PrepareSpec(st, rp, s).calls| == |s.calls| + (if rp.refMod.Some? then 3 else 2)
  {
    var nsID := st.namespaces(rp.refNs.identifiers).found.value.id;
    var s1 := s.(calls := s.calls + [Find(ComposeNamespaceType, None, rp.refNs.identifiers)],
                 relNS := st.namespaces(rp.refNs.identifiers).found);
    assert PrepareSpec(st, rp, s) == PrepareModule(st, rp, nsID, s1);
    if rp.refMod.Some? {
      var ii := rp.refMod.value.identifiers;
      var s2 := s1.(calls := s1.calls + [Find(ComposeModuleType, Some(nsID), ii)], relMod := st.modules(nsID, ii).found);
      if st.modules(nsID, ii).err.None? && st.modules(nsID, ii).found.Some? {
        assert PrepareModule(st, rp, nsID, s1) == PrepareParent(st, rp, nsID, s2);
      }
    }
  }

  /** After a successful Prepare, every identifier of a related module or
      chart reference is a key of relMods or relCharts, holding the row its
      last listing reference resolved to within the namespace. */
  lemma {:induction false} PreparedMapsLastWin(st: Store, rp: ResourcePage, s: Prepared, id: string)
    requires s.err.None? && PrepareSpec(st, rp, s).err.None?
    ensures var r := PrepareSpec(st, rp, s);
      var nsID := r.relNS.value.id;
      var km := LastListing(rp.modRefs, 0, id);
      var kc := LastListing(rp.refCharts, 0, id);
      (km >= 0 ==> id in r.relMods && st.modules(nsID, rp.modRefs[km].identifiers).found == Some(r.relMods[id]))
      && (kc >= 0 ==> id in r.relCharts && st.charts(nsID, rp.refCharts[kc].identifiers).found == Some(r.relCharts[id]))
  {
    var r := PrepareSpec(st, rp, s);
    var nsID := r.relNS.value.id;
    FillRefsLastWins(ComposeModuleType, st.modules, nsID, rp.modRefs, 0, s.relMods, [], id);
    FillRefsLastWins(ComposeChartType, st.charts, nsID, rp.refCharts, 0, s.relCharts, [], id);
  }

  // ---------------------------------------------------------------------------
  // Encode, as a specification

  /** The stored page exists when Prepare found one with an ID. */
  predicate Exists(pg: Option<Page>) {
    pg.Some? && pg.value.id > 0
  }

  /** The ID a page is written with: its own, else the existing page's, else a fresh one. */
  function ChooseID(id: nat, pg: Option<Page>, nextID: nat): (r: nat)
    ensures id > 0 ==> r == id
    ensures id == 0 && Exists(pg) ==> r == pg.value.id
    ensures id == 0 && !Exists(pg) ==> r == nextID
    ensures r > 0 <==> id > 0 || Exists(pg) || nextID > 0
  {
    var r := if id == 0 && Exists(pg) then pg.value.id else id;
    if r == 0 then nextID else r
  }

  /** The resource's timestamps, when it has any, override the row's; a
      missing creation time is now. */
  function ApplyTimestamps(p: Page, ts: Option<Timestamps>, now: Time): (r: Page)
    ensures ts.None? ==> r == p
    ensures ts.Some? ==> r.createdAt == (if ts.value.createdAt.Some? then ts.value.createdAt.value else now)
    ensures ts.Some? ==> r.updatedAt == (if ts.value.updatedAt.Some? then ts.value.updatedAt else p.updatedAt)
    ensures ts.Some? ==> r.deletedAt == (if ts.value.deletedAt.Some? then ts.value.deletedAt else p.deletedAt)
    ensures r.(createdAt := p.createdAt, updatedAt := p.updatedAt, deletedAt := p.deletedAt) == p
  {
    match ts
    case None => p
    case Some(t) =>
      var p1 := p.(createdAt := if t.createdAt.Some? then t.createdAt.value else now);
      var p2 := if t.updatedAt.Some? then p1.(updatedAt := t.updatedAt) else p1;
      if t.deletedAt.Some? then p2.(deletedAt := t.deletedAt) else p2
  }

  /** A foreign key: the ID of what Prepare resolved, or when that has none
      the ID of the graph's node; a nil row on either path is the nil
      pointer Go would dereference. */
  function ForeignKey(rel: Option<nat>, inGraph: Option<nat>): (r: Result<nat>)
    ensures rel.None? ==> r == Failure(NilDereference)
    ensures rel.Some? && rel.value > 0 ==> r == Success(rel.value)
    ensures rel.Some? && rel.value == 0 ==> r == (if inGraph.Some? then Success(inGraph.value) else Failure(NilDereference))
  {
    match rel
    case None => Failure(NilDereference)
    case Some(id) =>
      if id > 0 then Success(id)
      else if inGraph.Some? then Success(inGraph.value)
      else Failure(NilDereference)
  }

  function NamespaceIDOf(o: Option<Namespace>): Option<nat> { if o.Some? then Some(o.value.id) else None }
  function ModuleIDOf(o: Option<Module>): Option<nat> { if o.Some? then Some(o.value.id) else None }
  function PageIDOf(o: Option<Page>): Option<nat> { if o.Some? then Some(o.value.id) else None }

  // Block options

  /** Where the block rewriting resolves an embedded reference: the maps
      Prepare filled, then the graph. */
  datatype Lookups = Lookups(relMods: map<string, Module>, relCharts: map<string, Chart>,
                             moduleIn: Identifiers -> Option<Module>, parents: seq<Node>)

  /** getModID: the related module keyed by id, or the graph's module with
      that identifier; 0 when neither has an ID. */
  function GetModID(lk: Lookups, id: string): (r: nat)
    ensures id in lk.relMods && lk.relMods[id].id > 0 ==> r == lk.relMods[id].id
    ensures !(id in lk.relMods && lk.relMods[id].id > 0) ==>
      r == (match lk.moduleIn(MakeIdentifiers([id])) case None => 0 case Some(m) => m.id)
  {
    if id in lk.relMods && lk.relMods[id].id > 0 then lk.relMods[id].id
    else match lk.moduleIn(MakeIdentifiers([id]))
      case None => 0
      case Some(m) => m.id
  }

  /** getChartID: the related chart keyed by id, or the last chart of the
      graph answering to id (FindComposeChart); 0 when neither has an ID. */
  function GetChartID(lk: Lookups, id: string): (r: nat)
    ensures id in lk.relCharts && lk.relCharts[id].id > 0 ==> r == lk.relCharts[id].id
    ensures !(id in lk.relCharts && lk.relCharts[id].id > 0) ==>
      r == (match LastMatchingChart(lk.parents, MakeIdentifiers([id])) case None => 0 case Some(c) => c.id)
  {
    if id in lk.relCharts && lk.relCharts[id].id > 0 then lk.relCharts[id].id
    else match LastMatchingChart(lk.parents, MakeIdentifiers([id]))
      case None => 0
      case Some(c) => c.id
  }

  /** ss: the value under the first of the keys present in the map, when it
      is a string; "" when it is not, or when no key is present. */
  function Alias(m: map<string, Json>, kk: seq<string>): string
    decreases |kk|
  {
    if kk == [] then ""
    else if kk[0] in m then (if m[kk[0]].JString? then m[kk[0]].str else "")
    else Alias(m, kk[1..])
  }

  /** ss, as the encoder runs it. */
  method SS(m: map<string, Json>, kk: seq<string>) returns (v: string)
    ensures v == Alias(m, kk)
  {
    var i := 0;
    while i < |kk|
      invariant 0 <= i <= |kk|
      invariant Alias(m, kk[i..]) == Alias(m, kk)
    {
      assert kk[i..][1..] == kk[i + 1..];
      if kk[i] in m {
        if m[kk[i]].JString? {
          return m[kk[i]].str;
        }
        return "";
      }
      i := i + 1;
    }
    return "";
  }

  /** The first listed key that is present decides: its string, or "" when
      it holds something else, whatever later keys hold. */
  lemma {:induction false} AliasFirstPresentKey(m: map<string, Json>, kk: seq<string>)
    ensures (forall k :: k in kk ==> k !in m) ==> Alias(m, kk) == ""
    ensures forall i :: 0 <= i < |kk| && kk[i] in m && (forall j :: 0 <= j < i ==> kk[j] !in m) ==>
      Alias(m, kk) == (if m[kk[i]].JString? then m[kk[i]].str else "")
    decreases |kk|
  {
    if kk != [] {
      AliasFirstPresentKey(m, kk[1..]);
      assert forall i :: 1 <= i < |kk| ==> kk[1..][i - 1] == kk[i];
    }
  }

  /** With both keys present, `module` wins over `moduleID`. */
  lemma ModuleBeatsModuleID(m: map<string, Json>)
    requires "module" in m && "moduleID" in m
    ensures Alias(m, ["module", "moduleID"]) == (if m["module"].JString? then m["module"].str else "")
  {
    AliasFirstPresentKey(m, ["module", "moduleID"]);
  }

  /** What becomes of one embedded reference. */
  datatype RefRewrite =
    | NoRef                           // no reference: left as it is
    | Resolved(opts: map<string, Json>)
    | Failed(err: Error)

  /** The embedded reference of kind `kind` (module or chart) read through
      refKey/idKey: resolved, it is stored as the decimal ID under idKey and
      refKey is removed; resolving to 0 is that identifier's unresolved error. */
  function RewriteRef(m: map<string, Json>, refKey: string, idKey: string, kind: ResourceType, lk: Lookups): (r: RefRewrite)
    requires refKey != idKey
    ensures Alias(m, [refKey, idKey]) == "" <==> r.NoRef?
    ensures var id := Alias(m, [refKey, idKey]);
      var mid := if kind == ComposeChartType then GetChartID(lk, id) else GetModID(lk, id);
      r.Failed? <==> id != "" && mid == 0
    ensures r.Failed? ==> r.err == Unresolved(kind, {Alias(m, [refKey, idKey])})
    ensures r.Resolved? ==>
      var id := Alias(m, [refKey, idKey]);
      var mid := if kind == ComposeChartType then GetChartID(lk, id) else GetModID(lk, id);
      mid > 0 && idKey in r.opts && r.opts[idKey].JString? && IsDigits(r.opts[idKey].str)
      && ParseUint(r.opts[idKey].str) == mid && refKey !in r.opts
      && forall k :: k != refKey && k != idKey ==> (k in r.opts <==> k in m) && (k in m ==> r.opts[k] == m[k])
  {
    var id := Alias(m, [refKey, idKey]);
    if id == "" then NoRef
    else
      var mid := if kind == ComposeChartType then GetChartID(lk, id) else GetModID(lk, id);
      if mid == 0 then
        assert MakeIdentifiers([id]) == {id};
        Failed(Unresolved(kind, MakeIdentifiers([id])))
      else
        ParseFormatUint(mid);
        Resolved(m[idKey := JString(FormatUint(mid))] - {refKey})
  }

  /** Which map inside a list entry holds the reference: a Calendar feed's
      `options`, or a Metric entry itself. */
  datatype EntryShape = FeedOptions | MetricEntry

  function EntryOptions(shape: EntryShape, item: Json): Option<map<string, Json>> {
    match shape
    case FeedOptions =>
      if item.JObject? && "options" in item.fields && item.fields["options"].JObject?
      then Some(item.fields["options"].fields) else None
    case MetricEntry =>
      if item.JObject? then Some(item.fields) else None
  }

  function WithEntryOptions(shape: EntryShape, item: Json, m: map<string, Json>): Json
    requires item.JObject?
  {
    match shape
    case FeedOptions => JObject(item.fields["options" := JObject(m)])
    case MetricEntry => JObject(m)
  }

  datatype Rewritten<T> = Rewritten(value: T, err: Option<Error>)

  /** One feed or metric entry, as the list loop rewrites it. */
  function RewriteEntry(shape: EntryShape, item: Json, lk: Lookups): Rewritten<Json>
  {
    match EntryOptions(shape, item)
    case None => Rewritten(item, None)
    case Some(m) =>
      match RewriteRef(m, "module", "moduleID", ComposeModuleType, lk)
      case NoRef => Rewritten(item, None)
      case Failed(e) => Rewritten(item, Some(e))
      case Resolved(m') => Rewritten(WithEntryOptions(shape, item, m'), None)
  }

  /** One feed or metric entry: without options or without a module
      reference it is left as it is; an unresolved module is that
      identifier's error; a resolved one is stored as the decimal ID under
      moduleID, with `module` removed and every other key kept. */
  lemma RewriteEntryMeaning(shape: EntryShape, item: Json, lk: Lookups)
    ensures var r := RewriteEntry(shape, item, lk);
      EntryOptions(shape, item).None? ==> r == Rewritten(item, None)
    ensures var r := RewriteEntry(shape, item, lk);
      EntryOptions(shape, item).Some? ==>
        var m := EntryOptions(shape, item).value;
        var id := Alias(m, ["module", "moduleID"]);
        (id == "" ==> r == Rewritten(item, None))
        && (id != "" && GetModID(lk, id) == 0 ==> r == Rewritten(item, Some(Unresolved(ComposeModuleType, {id}))))
        && (id != "" && GetModID(lk, id) > 0 ==>
              r.err.None? && EntryOptions(shape, r.value).Some?
              && var m' := EntryOptions(shape, r.value).value;
              "moduleID" in m' && m'["moduleID"].JString? && IsDigits(m'["moduleID"].str)
              && ParseUint(m'["moduleID"].str) == GetModID(lk, id) && "module" !in m'
              && forall k :: k != "module" && k != "moduleID" ==> (k in m' <==> k in m) && (k in m ==> m'[k] == m[k]))
    ensures var r := RewriteEntry(shape, item, lk);
      shape.FeedOptions? && r.err.None? && item.JObject? ==>
        r.value.JObject? && forall k :: k != "options" ==>
          (k in r.value.fields <==> k in item.fields) && (k in item.fields ==> r.value.fields[k] == item.fields[k])
  {
    var opts := EntryOptions(shape, item);
    if opts.Some? {
      var id := Alias(opts.value, ["module", "moduleID"]);
      if id != "" && GetModID(lk, id) > 0 {
        ParseFormatUint(GetModID(lk, id));
      }
    }
  }

  /** The encoder's list loop, for a one-element rewrite f: from element i
      on each element is rewritten on its own; the first element whose
      rewrite fails stops the loop, stored as that rewrite left it, and the
      elements after it are as they were. */
  function RewriteFrom<T>(f: T -> Rewritten<T>, xs: seq<T>, i: nat): (r: Rewritten<seq<T>>)
    requires i <= |xs|
    ensures |r.value| == |xs| && r.value[..i] == xs[..i]
    decreases |xs| - i
  {
    if i == |xs| then Rewritten(xs, None)
    else
      var x := f(xs[i]);
      if x.err.Some? then Rewritten(xs[i := x.value], x.err)
      else RewriteFrom(f, xs[i := x.value], i + 1)
  }

  /** The index of the first element from i on whose own rewrite fails, or -1. */
  function FirstFailureFrom<T>(f: T -> Rewritten<T>, xs: seq<T>, i: nat): (k: int)
    requires i <= |xs|
    ensures k == -1 <==> forall j :: i <= j < |xs| ==> f(xs[j]).err.None?
    ensures k != -1 ==>
      i <= k < |xs| && f(xs[k]).err.Some? && forall j :: i <= j < k ==> f(xs[j]).err.None?
    decreases |xs| - i
  {
    if i == |xs| then -1
    else if f(xs[i]).err.Some? then i
    else FirstFailureFrom(f, xs, i + 1)
  }

  lemma {:induction false} FirstFailureOnlyReadsFrom<T>(f: T -> Rewritten<T>, a: seq<T>, b: seq<T>, i: nat)
    requires i <= |a| == |b| && a[i..] == b[i..]
    ensures FirstFailureFrom(f, a, i) == FirstFailureFrom(f, b, i)
    decreases |a| - i
  {
    if i < |a| {
      assert a[i] == a[i..][0] == b[i..][0] == b[i];
      assert a[i + 1..] == a[i..][1..];
      assert b[i + 1..] == b[i..][1..];
      FirstFailureOnlyReadsFrom(f, a, b, i + 1);
    }
  }

  /** The loop rewrites each element on its own: when it succeeds, every
      element from i on is its one-element rewrite. */
  lemma {:induction false} RewriteFromPointwise<T>(f: T -> Rewritten<T>, xs: seq<T>, i: nat)
    requires i <= |xs|
    requires RewriteFrom(f, xs, i).err.None?
    ensures forall k :: i <= k < |xs| ==> f(xs[k]).err.None? && RewriteFrom(f, xs, i).value[k] == f(xs[k]).value
    decreases |xs| - i
  {
    if i < |xs| {
      var x := f(xs[i]);
      var xs' := xs[i := x.value];
      var r := RewriteFrom(f, xs, i);
      assert x.err.None? && r == RewriteFrom(f, xs', i + 1);
      RewriteFromPointwise(f, xs', i + 1);
      assert r.value[..i + 1][i] == xs'[..i + 1][i];
      assert forall k :: i < k < |xs| ==> xs'[k] == xs[k];
    }
  }

  /** When the loop fails, its error is that of the first element whose own
      rewrite fails; the elements before it and it are their rewrites, and
      the elements after it are as they were. */
  lemma {:induction false} RewriteFromStopsAtFirstError<T>(f: T -> Rewritten<T>, xs: seq<T>, i: nat)
    requires i <= |xs|
    requires RewriteFrom(f, xs, i).err.Some?
    ensures var k := FirstFailureFrom(f, xs, i); var r := RewriteFrom(f, xs, i);
      k != -1 && r.err == f(xs[k]).err && r.value[k] == f(xs[k]).value
      && (forall j :: i <= j < k ==> r.value[j] == f(xs[j]).value)
      && (forall j :: k < j < |xs| ==> r.value[j] == xs[j])
    decreases |xs| - i
  {
    var x := f(xs[i]);
    var xs' := xs[i := x.value];
    var r := RewriteFrom(f, xs, i);
    if x.err.None? {
      var k := FirstFailureFrom(f, xs, i + 1);
      assert FirstFailureFrom(f, xs, i) == k;
      assert FirstFailureFrom(f, xs', i + 1) == k by {
        FirstFailureOnlyReadsFrom(f, xs', xs, i + 1);
      }
      assert r == RewriteFrom(f, xs', i + 1);
      RewriteFromStopsAtFirstError(f, xs', i + 1);
      assert r.value[i] == x.value by {
        assert r.value[..i + 1][i] == xs'[..i + 1][i];
      }
      assert xs'[k] == xs[k];
      forall j | i < j < |xs|
        ensures xs'[j] == xs[j]
      {
      }
    }
  }

  /** Whatever the outcome, each element is either as it was or its own
      one-element rewrite. */
  lemma RewriteFromEach<T>(f: T -> Rewritten<T>, xs: seq<T>, i: nat)
    requires i <= |xs|
    ensures forall k :: 0 <= k < |xs| ==>
      RewriteFrom(f, xs, i).value[k] == xs[k] || RewriteFrom(f, xs, i).value[k] == f(xs[k]).value
  {
    var r := RewriteFrom(f, xs, i);
    assert forall k :: 0 <= k < i ==> r.value[k] == r.value[..i][k];
    if r.err.None? {
      RewriteFromPointwise(f, xs, i);
    } else {
      RewriteFromStopsAtFirstError(f, xs, i);
    }
  }

  /** The loop over feeds or metrics from entry i on. */
  function RewriteEntriesFrom(shape: EntryShape, items: seq<Json>, i: nat, lk: Lookups): Rewritten<seq<Json>>
    requires i <= |items|
  {
    RewriteFrom(x => RewriteEntry(shape, x, lk), items, i)
  }

  /** The feeds or metrics loop, as the encoder runs it. */
  method RewriteEntries(shape: EntryShape, items: seq<Json>, lk: Lookups) returns (out: seq<Json>, err: Option<Error>)
    ensures Rewritten(out, err) == RewriteEntriesFrom(shape, items, 0, lk)
  {
    out, err := items, None;
    var i := 0;
    while i < |items|
      invariant 0 <= i <= |items| && |out| == |items|
      invariant RewriteEntriesFrom(shape, out, i, lk) == RewriteEntriesFrom(shape, items, 0, lk)
    {
      var opts := EntryOptions(shape, out[i]);
      if opts.Some? {
        var id := SS(opts.value, ["module", "moduleID"]);
        if id != "" {
          var mID := GetModID(lk, id);
          if mID == 0 {
            assert MakeIdentifiers([id]) == {id};
            assert RewriteEntry(shape, out[i], lk) == Rewritten(out[i], Some(Unresolved(ComposeModuleType, {id})));
            assert out[i := out[i]] == out;
            return out, Some(Unresolved(ComposeModuleType, MakeIdentifiers([id])));
          }
          var m' := opts.value[ "moduleID" := JString(FormatUint(mID))] - {"module"};
          assert RewriteEntry(shape, out[i], lk) == Rewritten(WithEntryOptions(shape, out[i], m'), None);
          out := out[i := WithEntryOptions(shape, out[i], m')];
        } else {
          assert out[i := out[i]] == out;
        }
      } else {
        assert out[i := out[i]] == out;
      }
      i := i + 1;
    }
  }

  /** One block: RecordList and RecordOrganizer options, every Calendar
      feed's options and every Metric entry have their module reference
      rewritten; a Chart block its chart reference; other kinds are left as
      they are. */
  function RewriteBlock(b: PageBlock, lk: Lookups): (r: Rewritten<PageBlock>)
    ensures r.value.kind == b.kind && r.value.title == b.title
    ensures b.kind !in {"RecordList", "RecordOrganizer", "Calendar", "Chart", "Metric"} ==> r == Rewritten(b, None)
  {
    match b.kind
    case "RecordList" => RewriteBlockRef(b, "module", "moduleID", ComposeModuleType, lk)
    case "RecordOrganizer" => RewriteBlockRef(b, "module", "moduleID", ComposeModuleType, lk)
    case "Chart" => RewriteBlockRef(b, "chart", "chartID", ComposeChartType, lk)
    case "Calendar" => RewriteBlockList(b, "feeds", FeedOptions, lk)
    case "Metric" => RewriteBlockList(b, "metrics", MetricEntry, lk)
    case _ => Rewritten(b, None)
  }

  function RewriteBlockRef(b: PageBlock, refKey: string, idKey: string, kind: ResourceType, lk: Lookups): (r: Rewritten<PageBlock>)
    requires refKey != idKey
    ensures r.value.kind == b.kind && r.value.title == b.title
    ensures r.err.Some? || RewriteRef(b.options, refKey, idKey, kind, lk).NoRef? ==> r.value == b
  {
    match RewriteRef(b.options, refKey, idKey, kind, lk)
    case NoRef => Rewritten(b, None)
    case Failed(e) => Rewritten(b, Some(e))
    case Resolved(m) => Rewritten(b.(options := m), None)
  }

  function RewriteBlockList(b: PageBlock, listKey: string, shape: EntryShape, lk: Lookups): (r: Rewritten<PageBlock>)
    ensures r.value.kind == b.kind && r.value.title == b.title
    ensures r.value.options.Keys == b.options.Keys
    ensures forall k :: k in b.options && k != listKey ==> r.value.options[k] == b.options[k]
  {
    if listKey in b.options && b.options[listKey].JList? then
      var rw := RewriteEntriesFrom(shape, b.options[listKey].items, 0, lk);
      Rewritten(b.(options := b.options[listKey := JList(rw.value)]), rw.err)
    else Rewritten(b, None)
  }

  /** The block loop from block i on; the first error stops it, with the
      blocks before it (and the failing block's earlier entries) rewritten. */
  function RewriteBlocksFrom(bb: seq<PageBlock>, i: nat, lk: Lookups): (r: Rewritten<seq<PageBlock>>)
    requires i <= |bb|
    ensures |r.value| == |bb| && forall k :: 0 <= k < |bb| ==> r.value[k].kind == bb[k].kind
  {
    RewriteFromEach(b => RewriteBlock(b, lk), bb, i);
    RewriteFrom(b => RewriteBlock(b, lk), bb, i)
  }

  /** What the encoder reads of the state Prepare left. */
  datatype Relations = Relations(
    relNS: Option<Namespace>, relMod: Option<Module>, relParent: Option<Page>,
    relMods: map<string, Module>, relCharts: map<string, Chart>, pg: Option<Page>)

  /** The outcome of Encode: the resource's row afterwards, the writes sent
      to the store, and the error returned. */
  datatype Encoded = Encoded(res: Page, writes: seq<Call>, err: Option<Error>)

  /** The foreign keys: the namespace (required), then the module and the
      parent page when the resource refers to them. */
  function ForeignKeys(n: Relations, rp: ResourcePage, r1: Page, env: Env): (r: Rewritten<Page>)
    ensures r.value.(namespaceID := r1.namespaceID, moduleID := r1.moduleID, selfID := r1.selfID) == r1
    ensures r.err.None? ==> n.relNS.Some? && r.value.namespaceID > 0
    ensures r.err.None? && rp.refMod.None? ==> r.value.moduleID == r1.moduleID
    ensures r.err.None? && rp.refParent.None? ==> r.value.selfID == r1.selfID
    ensures r.err.None? && rp.refMod.Some? ==>
      ForeignKey(ModuleIDOf(n.relMod), ModuleIDOf(env.moduleIn(rp.refMod.value.identifiers))) == Success(r.value.moduleID)
    ensures r.err.None? && rp.refParent.Some? ==>
      ForeignKey(PageIDOf(n.relParent), PageIDOf(env.pageIn(rp.refParent.value.identifiers))) == Success(r.value.selfID)
    ensures n.relNS.Some? && n.relNS.value.id > 0 ==>
      r.value.namespaceID == n.relNS.value.id && r.err != Some(Unresolved(ComposeNamespaceType, rp.refNs.identifiers))
  {
    match ForeignKey(NamespaceIDOf(n.relNS), NamespaceIDOf(env.namespaceIn(rp.refNs.identifiers)))
    case Failure(e) => Rewritten(r1, Some(e))
    case Success(nsID) =>
      var r2 := r1.(namespaceID := nsID);
      if nsID == 0 then Rewritten(r2, Some(Unresolved(ComposeNamespaceType, rp.refNs.identifiers)))
      else
        var fk := if rp.refMod.None? then Success(r2.moduleID)
                  else ForeignKey(ModuleIDOf(n.relMod), ModuleIDOf(env.moduleIn(rp.refMod.value.identifiers)));
        match fk
        case Failure(e) => Rewritten(r2, Some(e))
        case Success(modID) =>
          var r3 := r2.(moduleID := modID);
          var fp := if rp.refParent.None? then Success(r3.selfID)
                    else ForeignKey(PageIDOf(n.relParent), PageIDOf(env.pageIn(rp.refParent.value.identifiers)));
          match fp
          case Failure(e) => Rewritten(r3, Some(e))
          case Success(selfID) => Rewritten(r3.(selfID := selfID), None)
  }

  /** Encode: the ID and timestamps, the foreign keys, the block options, the write. */
  function EncodeSpec(n: Relations, cfg: EncoderConfig, rp: ResourcePage, res0: Page, env: Env, st: Store): (e: Encoded)
    ensures |e.writes| <= 1
    ensures e.writes != [] ==> n.relNS.Some? && (e.writes[0].Create? || e.writes[0].Update?)
    ensures e.writes != [] && e.writes[0].Create? ==> e.writes[0].page.namespaceID > 0
    ensures e.res.id == ChooseID(res0.id, n.pg, env.nextID) || (e.writes != [] && e.writes[0].Update? && e.res == e.writes[0].page)
  {
    var r1 := ApplyTimestamps(res0.(id := ChooseID(res0.id, n.pg, env.nextID)), rp.timestamps, env.now);
    var fk := ForeignKeys(n, rp, r1, env);
    if fk.err.Some? then Encoded(fk.value, [], fk.err)
    else
      var rb := RewriteBlocksFrom(fk.value.blocks, 0, Lookups(n.relMods, n.relCharts, env.moduleIn, env.parents));
      var r5 := fk.value.(blocks := rb.value);
      if rb.err.Some? then Encoded(r5, [], rb.err)
      else Write(n.pg, cfg, r5, env, st)
  }

  /** The write: skip when the skip expression says so; create a page that
      does not exist; otherwise apply the conflict policy, and replace the
      resource's row by what was written only once the update succeeded. */
  function Write(pg: Option<Page>, cfg: EncoderConfig, r: Page, env: Env, st: Store): (e: Encoded)
    ensures |e.writes| <= 1
    ensures e.writes != [] ==> e.writes[0].Create? || e.writes[0].Update?
    ensures env.skipEval(cfg, !Exists(pg)).Failure? ==> e == Encoded(r, [], Some(env.skipEval(cfg, !Exists(pg)).error))
    ensures e.writes == [] ==> e.res == r
    ensures e.writes != [] && e.writes[0].Create? ==> e.writes == [Create(r)] && !Exists(pg) && e.res == r
    ensures e.writes != [] && e.writes[0].Update? ==> Exists(pg) && cfg.onExisting != Skip
    ensures e.err.Some? ==> e.res == r
  {
    match env.skipEval(cfg, !Exists(pg))
    case Failure(err) => Encoded(r, [], Some(err))
    case Success(skip) =>
      if skip then Encoded(r, [], None)
      else if !Exists(pg) then Encoded(r, [Create(r)], st.create(r))
      else if cfg.onExisting == Skip then Encoded(r, [], None)
      else
        var w := match cfg.onExisting
          case MergeLeft => env.merge(pg.value, r)
          case MergeRight => env.merge(r, pg.value)
          case _ => r;
        if st.update(w).Some? then Encoded(r, [Update(w)], st.update(w))
        else Encoded(w, [Update(w)], None)
  }

  /** The write policy: nothing is written when the skip expression holds or
      the existing page is to be skipped; a new page is created exactly once;
      an existing one is updated exactly once, with the merge in the order
      the policy names, and becomes the resource's row only if the update
      succeeds. */
  lemma WritePolicy(pg: Option<Page>, cfg: EncoderConfig, r: Page, env: Env, st: Store)
    requires env.skipEval(cfg, !Exists(pg)).Success?
    ensures var e := Write(pg, cfg, r, env, st);
      var skip := env.skipEval(cfg, !Exists(pg)).value;
      (skip ==> e == Encoded(r, [], None))
      && (!skip && !Exists(pg) ==> e == Encoded(r, [Create(r)], st.create(r)))
      && (!skip && Exists(pg) && cfg.onExisting == Skip ==> e == Encoded(r, [], None))
      && (!skip && Exists(pg) && cfg.onExisting == MergeLeft ==> e.writes == [Update(env.merge(pg.value, r))])
      && (!skip && Exists(pg) && cfg.onExisting == MergeRight ==> e.writes == [Update(env.merge(r, pg.value))])
      && (!skip && Exists(pg) && cfg.onExisting == OtherMergeAlg ==> e.writes == [Update(r)])
      && (e.writes != [] && e.writes[0].Update? ==>
            e.err == st.update(e.writes[0].page) && e.res == (if e.err.None? then e.writes[0].page else r))
  {
  }

  /** Encode writes at most once, and only after every foreign key and every
      embedded reference resolved; what it writes is the row with the foreign
      keys set and the block options rewritten to identifiers. */
  lemma {:induction false} EncodeWritesLast(n: Relations, cfg: EncoderConfig, rp: ResourcePage, res0: Page, env: Env, st: Store)
    ensures var e := EncodeSpec(n, cfg, rp, res0, env, st);
      var r1 := ApplyTimestamps(res0.(id := ChooseID(res0.id, n.pg, env.nextID)), rp.timestamps, env.now);
      var rb := RewriteBlocksFrom(res0.blocks, 0, Lookups(n.relMods, n.relCharts, env.moduleIn, env.parents));
      |e.writes| <= 1
      && (e.writes != [] ==> n.relNS.Some? && ForeignKeys(n, rp, r1, env).err.None? && rb.err.None?)
      && (ForeignKeys(n, rp, r1, env).err.None? && rb.err.Some? ==> e.writes == [] && e.err == rb.err)
      && (e.writes != [] && e.writes[0].Create? ==> e.writes[0].page.namespaceID > 0 && e.writes[0].page.id == r1.id)
      && (e.writes != [] && e.writes[0].Create? ==>
            e.writes[0].page == ForeignKeys(n, rp, r1, env).value.(blocks := rb.value))
      && (e.writes != [] ==> e == Write(n.pg, cfg, ForeignKeys(n, rp, r1, env).value.(blocks := rb.value), env, st))
  {
    var r1 := ApplyTimestamps(res0.(id := ChooseID(res0.id, n.pg, env.nextID)), rp.timestamps, env.now);
    assert r1.blocks == res0.blocks;
    var fk := ForeignKeys(n, rp, r1, env);
    assert fk.value.blocks == r1.blocks && fk.value.id == r1.id;
  }

  // ---------------------------------------------------------------------------
  // The encoder's state for one page

  /** composePage: the resource, the configuration, and what Prepare resolved. */
  class ComposePage {
    const cfg: EncoderConfig
    const res: ResourcePage
    var relNS: Option<Namespace>
    var relMod: Option<Module>
    var relParent: Option<Page>
    var pg: Option<Page>
    var relMods: map<string, Module>
    var relCharts: map<string, Chart>

    /** newComposePageFromResource: the configuration merged with the
        resource's own, and empty related maps. */
    constructor (res: ResourcePage, cfg: Option<EncoderConfig>, mergeConfig: (Option<EncoderConfig>, EnvoyConfig) -> EncoderConfig)
      ensures this.res == res && this.cfg == mergeConfig(cfg, res.config)
      ensures relNS == None && relMod == None && relParent == None && pg == None
      ensures relMods == map[] && relCharts == map[]
    {
      this.res := res;
      this.cfg := mergeConfig(cfg, res.config);
      relNS, relMod, relParent, pg := None, None, None, None;
      relMods, relCharts := map[], map[];
    }

    function State(st: Store): Prepared
      reads this, st, res
    {
      Prepared(st.calls, relNS, relMod, relParent, relMods, relCharts, pg, res.res, None)
    }

    function View(): Relations
      reads this
    {
      Relations(relNS, relMod, relParent, relMods, relCharts, pg)
    }

    /** Prepare: resolve the namespace, then hand over to the later stages. */
    method Prepare(st: Store) returns (err: Option<Error>)
      modifies this, st, res
      ensures PrepareSpec(st, res, old(State(st))) == State(st).(err := err)
    {
      var ii := res.refNs.identifiers;
      var l := st.FindNamespace(ii);
      relNS := l.found;
      if l.err.Some? {
        return l.err;
      }
      if l.found.None? {
        return Some(Unresolved(ComposeNamespaceType, ii));
      }
      err := PrepareModuleStep(st, l.found.value.id);
    }

    /** The module reference, when there is one. */
    method PrepareModuleStep(st: Store, nsID: nat) returns (err: Option<Error>)
      modifies this, st, res
      ensures State(st).(err := err) == PrepareModule(st, res, nsID, old(State(st)))
    {
      if res.refMod.Some? {
        var lm := st.FindModule(nsID, res.refMod.value.identifiers);
        relMod := lm.found;
        if lm.err.Some? {
          return lm.err;
        }
        if lm.found.None? {
          return Some(Unresolved(ComposeModuleType, res.refMod.value.identifiers));
        }
      }
      err := PrepareParentStep(st, nsID);
    }

    /** The parent page reference, when there is one. */
    method PrepareParentStep(st: Store, nsID: nat) returns (err: Option<Error>)
      modifies this, st, res
      ensures State(st).(err := err) == PrepareParent(st, res, nsID, old(State(st)))
    {
      if res.refParent.Some? {
        var lp := st.FindPage(nsID, res.refParent.value.identifiers);
        relParent := lp.found;
        if lp.err.Some? {
          return lp.err;
        }
        if lp.found.None? {
          return Some(Unresolved(ComposePageType, res.refParent.value.identifiers));
        }
      }
      err := PrepareRelatedStep(st, nsID);
    }

    /** The related modules, then the related charts, then the existing page. */
    method PrepareRelatedStep(st: Store, nsID: nat) returns (err: Option<Error>)
      modifies this, st, res
      ensures State(st).(err := err) == PrepareRelated(st, res, nsID, old(State(st)))
    {
      err := FillModRefs(st, nsID);
      if err.Some? {
        return;
      }
      err := FillRefCharts(st, nsID);
      if err.Some? {
        return;
      }
      err := PrepareExistingStep(st, nsID);
    }

    /** The loop over the ModRefs: entries land in relMods as they resolve. */
    method FillModRefs(st: Store, nsID: nat) returns (err: Option<Error>)
      modifies this, st
      ensures var f := FillRefs(ComposeModuleType, st.modules, nsID, res.modRefs, 0, old(relMods), old(st.calls));
        relMods == f.rel && st.calls == f.calls && err == f.err
      ensures relNS == old(relNS) && relMod == old(relMod) && relParent == old(relParent)
      ensures relCharts == old(relCharts) && pg == old(pg)
    {
      ghost var fm := FillRefs(ComposeModuleType, st.modules, nsID, res.modRefs, 0, relMods, st.calls);
      var i := 0;
      while i < |res.modRefs|
        invariant 0 <= i <= |res.modRefs|
        invariant FillRefs(ComposeModuleType, st.modules, nsID, res.modRefs, i, relMods, st.calls) == fm
        invariant relNS == old(relNS) && relMod == old(relMod) && relParent == old(relParent)
        invariant relCharts == old(relCharts) && pg == old(pg)
      {
        var mr := res.modRefs[i];
        var mod := st.FindModule(nsID, mr.identifiers);
        if mod.err.Some? {
          return mod.err;
        }
        if mod.found.None? {
          return Some(Unresolved(ComposeModuleType, mr.identifiers));
        }
        relMods := relMods + Keyed(mr.identifiers, mod.found.value);
        i := i + 1;
      }
      return None;
    }

    /** The loop over the RefCharts: entries land in relCharts as they resolve. */
    method FillRefCharts(st: Store, nsID: nat) returns (err: Option<Error>)
      modifies this, st
      ensures var f := FillRefs(ComposeChartType, st.charts, nsID, res.refCharts, 0, old(relCharts), old(st.calls));
        relCharts == f.rel && st.calls == f.calls && err == f.err
      ensures relNS == old(relNS) && relMod == old(relMod) && relParent == old(relParent)
      ensures relMods == old(relMods) && pg == old(pg)
    {
      ghost var fc := FillRefs(ComposeChartType, st.charts, nsID, res.refCharts, 0, relCharts, st.calls);
      var i := 0;
      while i < |res.refCharts|
        invariant 0 <= i <= |res.refCharts|
        invariant FillRefs(ComposeChartType, st.charts, nsID, res.refCharts, i, relCharts, st.calls) == fc
        invariant relNS == old(relNS) && relMod == old(relMod) && relParent == old(relParent)
        invariant relMods == old(relMods) && pg == old(pg)
      {
        var refChart := res.refCharts[i];
        var chr := st.FindChart(nsID, refChart.identifiers);
        if chr.err.Some? {
          return chr.err;
        }
        if chr.found.None? {
          return Some(ComposeChartErrUnresolved(refChart.identifiers));
        }
        relCharts := relCharts + Keyed(refChart.identifiers, chr.found.value);
        i := i + 1;
      }
      return None;
    }

    /** The page already in the store under the resource's identifiers seeds
        the row's ID and namespace. */
    method PrepareExistingStep(st: Store, nsID: nat) returns (err: Option<Error>)
      modifies this, st, res
      ensures State(st).(err := err) == PrepareExisting(st, res, nsID, old(State(st)))
    {
      var le := st.FindExistingPage(nsID, res.identifiers);
      pg := le.found;
      if le.err.Some? {
        return le.err;
      }
      if pg.Some? {
        res.res := res.res.(id := pg.value.id, namespaceID := pg.value.namespaceID);
      }
      return None;
    }

    /** Encode: settle the row, rewrite its blocks, then write it. The row
        is the resource's own, so every change to it stays, whatever the outcome. */
    method Encode(st: Store, env: Env) returns (err: Option<Error>)
      modifies st, res
      ensures var e := EncodeSpec(old(View()), cfg, res, old(res.res), env, st);
        res.res == e.res && st.calls == old(st.calls) + e.writes && err == e.err
    {
      ghost var n := View();
      ghost var res0 := res.res;
      SetIDAndTimestamps(env);
      ghost var r1 := res.res;
      err := SetForeignKeys(env);
      ghost var fk := ForeignKeys(n, res, r1, env);
      if err.Some? {
        assert EncodeSpec(n, cfg, res, res0, env, st) == Encoded(fk.value, [], fk.err);
        return;
      }
      var lk := Lookups(relMods, relCharts, env.moduleIn, env.parents);
      err := RewriteBlocks(lk);
      ghost var rb := RewriteBlocksFrom(fk.value.blocks, 0, lk);
      if err.Some? {
        assert EncodeSpec(n, cfg, res, res0, env, st) == Encoded(fk.value.(blocks := rb.value), [], rb.err);
        return;
      }
      assert EncodeSpec(n, cfg, res, res0, env, st) == Write(pg, cfg, res.res, env, st);
      err := WritePage(st, env);
    }

    /** The ID (the row's own, else the existing page's, else a fresh one) and
        the resource's timestamps. */
    method SetIDAndTimestamps(env: Env)
      modifies res
      ensures res.res == ApplyTimestamps(old(res.res).(id := ChooseID(old(res.res).id, pg, env.nextID)), res.timestamps, env.now)
    {
      var pageExists := pg.Some? && pg.value.id > 0;
      if res.res.id == 0 && pageExists {
        res.res := res.res.(id := pg.value.id);
      }
      if res.res.id == 0 {
        res.res := res.res.(id := env.nextID);
      }

      var ts := res.timestamps;
      if ts.Some? {
        if ts.value.createdAt.Some? {
          res.res := res.res.(createdAt := ts.value.createdAt.value);
        } else {
          res.res := res.res.(createdAt := env.now);
        }
        if ts.value.updatedAt.Some? {
          res.res := res.res.(updatedAt := ts.value.updatedAt);
        }
        if ts.value.deletedAt.Some? {
          res.res := res.res.(deletedAt := ts.value.deletedAt);
        }
      }
    }

    /** The namespace, module and parent foreign keys of the row. */
    method SetForeignKeys(env: Env) returns (err: Option<Error>)
      modifies res
      ensures Rewritten(res.res, err) == ForeignKeys(View(), res, old(res.res), env)
    {
      if relNS.None? {
        return Some(NilDereference);
      }
      var nsID := relNS.value.id;
      if nsID == 0 {
        var ns := env.namespaceIn(res.refNs.identifiers);
        if ns.None? {
          return Some(NilDereference);
        }
        nsID := ns.value.id;
      }
      res.res := res.res.(namespaceID := nsID);
      if nsID == 0 {
        return Some(Unresolved(ComposeNamespaceType, res.refNs.identifiers));
      }

      if res.refMod.Some? {
        if relMod.None? {
          return Some(NilDereference);
        }
        var modID := relMod.value.id;
        if modID == 0 {
          var mod := env.moduleIn(res.refMod.value.identifiers);
          if mod.None? {
            return Some(NilDereference);
          }
          modID := mod.value.id;
        }
        res.res := res.res.(moduleID := modID);
      }

      if res.refParent.Some? {
        if relParent.None? {
          return Some(NilDereference);
        }
        var selfID := relParent.value.id;
        if selfID == 0 {
          var par := env.pageIn(res.refParent.value.identifiers);
          if par.None? {
            return Some(NilDereference);
          }
          selfID := par.value.id;
        }
        res.res := res.res.(selfID := selfID);
      }
      return None;
    }

    /** The block loop: each block's options rewritten in place, up to the
        first unresolved reference. */
    method RewriteBlocks(lk: Lookups) returns (err: Option<Error>)
      modifies res
      ensures Rewritten(res.res.blocks, err) == RewriteBlocksFrom(old(res.res.blocks), 0, lk)
      ensures res.res == old(res.res).(blocks := res.res.blocks)
    {
      ghost var goal := RewriteBlocksFrom(res.res.blocks, 0, lk);
      var i := 0;
      while i < |res.res.blocks|
        invariant 0 <= i <= |res.res.blocks| == |old(res.res.blocks)|
        invariant res.res == old(res.res).(blocks := res.res.blocks)
        invariant RewriteBlocksFrom(res.res.blocks, i, lk) == goal
      {
        var rb := RewriteBlockStep(res.res.blocks[i], lk);
        res.res := res.res.(blocks := res.res.blocks[i := rb.value]);
        if rb.err.Some? {
          return rb.err;
        }
        i := i + 1;
      }
      return None;
    }

    /** The skip expression, then the create or the update the policy asks for. */
    method WritePage(st: Store, env: Env) returns (err: Option<Error>)
      modifies st, res
      ensures var e := Write(pg, cfg, old(res.res), env, st);
        res.res == e.res && st.calls == old(st.calls) + e.writes && err == e.err
    {
      var pageExists := pg.Some? && pg.value.id > 0;
      var skip := env.skipEval(cfg, !pageExists);
      if skip.Failure? {
        return Some(skip.error);
      }
      if skip.value {
        return None;
      }

      if !pageExists {
        err := st.CreatePage(res.res);
        return err;
      }

      var w := res.res;
      match cfg.onExisting {
        case Skip =>
          return None;
        case MergeLeft =>
          w := env.merge(pg.value, w);
        case MergeRight =>
          w := env.merge(w, pg.value);
        case OtherMergeAlg =>
      }

      err := st.UpdatePage(w);
      if err.Some? {
        return err;
      }
      res.res := w;
      return None;
    }
  }

  /** One block of the block loop: the switch on the block's kind. */
  method RewriteBlockStep(b: PageBlock, lk: Lookups) returns (r: Rewritten<PageBlock>)
    ensures r == RewriteBlock(b, lk)
  {
    match b.kind {
      case "RecordList" =>
        r := RewriteBlockRefStep(b, "module", "moduleID", ComposeModuleType, lk);
      case "RecordOrganizer" =>
        r := RewriteBlockRefStep(b, "module", "moduleID", ComposeModuleType, lk);
      case "Chart" =>
        r := RewriteBlockRefStep(b, "chart", "chartID", ComposeChartType, lk);
      case "Calendar" =>
        r := RewriteBlockListStep(b, "feeds", FeedOptions, lk);
      case "Metric" =>
        r := RewriteBlockListStep(b, "metrics", MetricEntry, lk);
      case _ =>
        r := Rewritten(b, None);
    }
  }

  method RewriteBlockRefStep(b: PageBlock, refKey: string, idKey: string, kind: ResourceType, lk: Lookups) returns (r: Rewritten<PageBlock>)
    requires refKey != idKey
    ensures r == RewriteBlockRef(b, refKey, idKey, kind, lk)
  {
    var id := SS(b.options, [refKey, idKey]);
    if id == "" {
      return Rewritten(b, None);
    }
    var mID := if kind == ComposeChartType then GetChartID(lk, id) else GetModID(lk, id);
    if mID == 0 {
      return Rewritten(b, Some(Unresolved(kind, MakeIdentifiers([id]))));
    }
    var opts := b.options[idKey := JString(FormatUint(mID))] - {refKey};
    return Rewritten(b.(options := opts), None);
  }

  method RewriteBlockListStep(b: PageBlock, listKey: string, shape: EntryShape, lk: Lookups) returns (r: Rewritten<PageBlock>)
    ensures r == RewriteBlockList(b, listKey, shape, lk)
  {
    if listKey in b.options && b.options[listKey].JList? {
      var items, err := RewriteEntries(shape, b.options[listKey].items, lk);
      return Rewritten(b.(options := b.options[listKey := JList(items)]), err);
    }
    return Rewritten(b, None);
  }
}
