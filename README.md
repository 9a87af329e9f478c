# Compose envoy of corteza-server, modelled in Dafny

This project models four files of the corteza-server envoy layer, which moves
Compose resources (namespaces, modules, pages, charts and records) between a
resource graph and the store:

- `pkg/envoy/store/compose.go`: the store decoders.
  - Paginated searches turn rows into graph nodes. They append every row ID to
    the decoder's running `resourceID` index and abort on the first store
    error.
  - The record decoder emits one lazy walker per filter, and the walker pages
    through the records as they are needed.
  - `DecodeFilter` collects the filters for a decode.
- `pkg/envoy/store/compose_page_marshal.go`: the page encoder.
  - `Prepare` resolves the page's namespace, module, parent page, related
    modules, related charts and the page already in the store.
  - `Encode` settles the ID, the timestamps and the foreign keys. It rewrites
    the module and chart references embedded in the block options to decimal
    IDs. Then it creates the page, updates it under the conflict policy, or
    skips it.
- `pkg/envoy/resource/compose_chart.go`: the chart node of the resource graph,
  and `FindComposeChart`, which finds the last chart that answers to a set of
  identifiers.
- `pkg/envoy/yaml/compose_page.go`: page matching by identifier, attaching a
  child page to its parent, and handing the encoder configuration to every
  page and block.

## How the model is built

Code that updates state in place is modelled as classes whose methods change
their fields:

- the encoder's `composePage` state;
- the resource's row `n.res.Res`, which the encoder mutates;
- the record walker's filter copy;
- the decoder's ID index;
- the filter builder;
- the yaml pages and blocks.

Each such method, and each loop, is proved equal to a specification function
on values:

- `PrepareSpec` for `Prepare`;
- `EncodeSpec` for `Encode`;
- `RunFilters` for the paged decoders;
- `WalkPages` for the walker;
- `FillRefs` for the reference loops, and `RewriteFrom` for the block loop and the
  feed or metric loop. `RewriteFrom` is one loop over any one-element rewrite,
  and its lemmas hold for both.

The properties the source promises are then proved as lemmas about those
functions.

The store, the resource graph's lookups, `NextID`, `now`, the skip
expression, the merge functions and `mergeConfig` are parameters (oracles):

- The store is a `Store` object that logs every call it receives, so a
  property can say which lookups and writes happened, and in what order.
- A Go nil-pointer dereference, which would panic, is modelled as the
  `NilDereference` error.
- The page loops and the record walker take a `fuel` bound, because nothing
  in the source bounds them: a store can keep returning a cursor. They report
  `OutOfFuel` when it is spent.
- The record walker's lemmas hold for any conversion of a store row to the
  raw record handed to the callback. `RecordWalker.Walk` uses `RawRecord`,
  the conversion of compose.go:229-234.

## Model

| member | source | states |
|---|---|---|
| StoreComposePage.ComposePage.constructor | pkg/envoy/store/compose_page_marshal.go:12-21 | The configuration is the merge of the given one with the resource's own, nothing is resolved yet, and the related-module and related-chart maps are empty. |
| StoreComposePage.ComposePage.Prepare | pkg/envoy/store/compose_page_marshal.go:26-98 | The final state is `PrepareSpec` of the initial one: the store calls in order, the related rows, the maps, the existing page, the row's ID and namespace, and the error returned. |
| StoreComposePage.ComposePage.PrepareModuleStep | pkg/envoy/store/compose_page_marshal.go:36-46 | When a module is referenced, it is looked up within the namespace. A store error or a nil module stops Prepare, and the nil case gives the module's unresolved error. The state afterwards is `PrepareModule`. |
| StoreComposePage.ComposePage.PrepareParentStep | pkg/envoy/store/compose_page_marshal.go:48-57 | The same for the parent-page reference. The state is `PrepareParent`. |
| StoreComposePage.ComposePage.PrepareRelatedStep | pkg/envoy/store/compose_page_marshal.go:59-97 | The related modules, then the related charts, then the existing page. The state is `PrepareRelated`. |
| StoreComposePage.ComposePage.FillModRefs | pkg/envoy/store/compose_page_marshal.go:59-71 | The ModRefs loop leaves `relMods`, the store log and the error as `FillRefs` says. Entries already stored stay in the map when a later reference fails. No other field changes. |
| StoreComposePage.ComposePage.FillRefCharts | pkg/envoy/store/compose_page_marshal.go:73-85 | The same for the RefCharts loop and `relCharts`, with the chart's unresolved error. |
| StoreComposePage.ComposePage.PrepareExistingStep | pkg/envoy/store/compose_page_marshal.go:87-97 | The page is looked up by the resource's identifiers. When one is found, it seeds the row's ID and namespace ID. A store error is returned with the row unchanged. |
| StoreComposePage.PrepareSpec | pkg/envoy/store/compose_page_marshal.go:26-98 | The namespace lookup is always the first call, and its row is kept whatever happens next. After a successful Prepare: the calls are the namespace lookup followed by the module, parent, related-module, related-chart and existing-page lookups, in that order, within the namespace found. A present module or parent reference resolved to the row its lookup found, and an absent one leaves the field as it was. Both reference loops succeeded from the initial maps. The existing page is the one found and seeds the row's ID and namespace. |
| StoreComposePage.PrepareModule | pkg/envoy/store/compose_page_marshal.go:36-46 | The log only grows and the namespace is kept. On success, a present module or parent reference resolved, and the existing-page lookup came last. |
| StoreComposePage.PrepareParent | pkg/envoy/store/compose_page_marshal.go:48-57 | The log only grows, and the namespace and module are kept. On success, a present parent reference resolved, and the existing-page lookup came last. |
| StoreComposePage.PrepareRelated | pkg/envoy/store/compose_page_marshal.go:59-85 | The log only grows, and the namespace, module and parent are kept. On success, both loops succeeded and the existing-page lookup came last. |
| StoreComposePage.PrepareExisting | pkg/envoy/store/compose_page_marshal.go:87-97 | Exactly one more store call. On success with a page found, the row's ID and namespace ID are copied from it. Otherwise the row is as it was. |
| StoreComposePage.FillRefsLog | pkg/envoy/store/compose_page_marshal.go:59-85 | The loop only appends to the store log: one lookup per reference, in order, within the namespace. It succeeds exactly when every reference's lookup returned a row without error, and then it made one lookup per reference. |
| StoreComposePage.FirstUnresolvedFrom | pkg/envoy/store/compose_page_marshal.go:59-85 | The index of the first reference whose lookup fails or finds nothing, or -1 exactly when every reference resolves. |
| StoreComposePage.FillRefsStopsAtFirstFailure | pkg/envoy/store/compose_page_marshal.go:59-85 | A failed loop stops at the first reference that does not resolve. Its error is the store's error or that kind's unresolved error for the reference's identifiers. The log holds the lookups up to and including that reference, and no later one. |
| StoreComposePage.RefCalls | pkg/envoy/store/compose_page_marshal.go:61-62 | One lookup per reference. |
| StoreComposePage.FillRefsLastWins | pkg/envoy/store/compose_page_marshal.go:68-70 | After a successful loop, an identifier maps to the row of the LAST reference that lists it. Identifiers that no reference lists keep their earlier entries. |
| StoreComposePage.FillRefsIgnoresLog | pkg/envoy/store/compose_page_marshal.go:59-85 | What the loop stores, and whether it fails, does not depend on the calls made before it. |
| StoreComposePage.LastListing | pkg/envoy/store/compose_page_marshal.go:68-70 | The last reference that lists an identifier: no later reference lists it. |
| StoreComposePage.NamespaceUnresolvedStopsPrepare | pkg/envoy/store/compose_page_marshal.go:27-34 | A nil namespace stops Prepare after one lookup, with the namespace's unresolved error naming the reference's identifiers. |
| StoreComposePage.OptionalRefUnresolved | pkg/envoy/store/compose_page_marshal.go:36-57 | A present module reference that resolves to nil fails Prepare with the module's unresolved error after two lookups. A present parent reference that resolves to nil, after any module reference resolved, fails with the page's unresolved error after two lookups, or three with a module reference. Either way no related module or chart is looked up. |
| StoreComposePage.PreparedMapsLastWin | pkg/envoy/store/compose_page_marshal.go:59-85 | After a successful Prepare, each identifier of a related module or chart is a key of the map. It holds the row that its last listing reference resolved to within the namespace. |
| StoreComposePage.ComposePage.Encode | pkg/envoy/store/compose_page_marshal.go:104-301 | The resource's row afterwards, the writes sent to the store and the error returned are those of `EncodeSpec` on the state Prepare left. |
| StoreComposePage.ComposePage.SetIDAndTimestamps | pkg/envoy/store/compose_page_marshal.go:105-130 | The row gets the ID `ChooseID` picks and the timestamps `ApplyTimestamps` gives. The store is not touched. |
| StoreComposePage.ComposePage.SetForeignKeys | pkg/envoy/store/compose_page_marshal.go:132-159 | The namespace, module and parent IDs are as `ForeignKeys` gives them, including the row state and error on failure. |
| StoreComposePage.ComposePage.RewriteBlocks | pkg/envoy/store/compose_page_marshal.go:195-267 | The row's blocks and the error are those of `RewriteBlocksFrom`. |
| StoreComposePage.ComposePage.WritePage | pkg/envoy/store/compose_page_marshal.go:269-300 | The writes, error and final row are those of `Write`. |
| StoreComposePage.ChooseID | pkg/envoy/store/compose_page_marshal.go:106-114 | The row's own ID wins. Then the existing page's ID, when it is positive. Then a fresh ID. The result is positive exactly when one of the three is. |
| StoreComposePage.ApplyTimestamps | pkg/envoy/store/compose_page_marshal.go:116-130 | Without timestamps the row is unchanged. With them, creation takes the given time or now, and update/delete take the given time when set. No other field changes. |
| StoreComposePage.ForeignKey | pkg/envoy/store/compose_page_marshal.go:133-158 | A resolved row with a positive ID gives its ID. With ID 0, the graph's node gives the ID. A nil row on either path is a nil dereference. |
| StoreComposePage.ForeignKeys | pkg/envoy/store/compose_page_marshal.go:132-159 | Only the three key fields change. Success means a namespace was resolved and the namespace ID is positive. On success, an absent module or parent reference leaves its key alone, and a present one gets the ID `ForeignKey` gives from the resolved row or the graph's node. A positive resolved namespace ID is used as is and never gives the namespace error. |
| StoreComposePage.GetModID | pkg/envoy/store/compose_page_marshal.go:162-171 | A related module keyed by the identifier with a positive ID wins. Otherwise the result is the ID of the graph's module with that identifier, or 0 when the graph has none. |
| StoreComposePage.GetChartID | pkg/envoy/store/compose_page_marshal.go:173-182 | A related chart keyed by the identifier with a positive ID wins. Otherwise the ID of the last chart of the graph that answers to it, or 0. |
| StoreComposePage.SS | pkg/envoy/store/compose_page_marshal.go:185-193 | The loop returns `Alias`: the first present key decides. |
| StoreComposePage.AliasFirstPresentKey | pkg/envoy/store/compose_page_marshal.go:185-193 | The first listed key that is present decides: its string, or "" when it holds a non-string. Later keys are ignored. No present key gives "". |
| StoreComposePage.ModuleBeatsModuleID | pkg/envoy/store/compose_page_marshal.go:198 | When both `module` and `moduleID` are set, `module` is the reference read. |
| StoreComposePage.RewriteRef | pkg/envoy/store/compose_page_marshal.go:198-207 | No reference exactly when neither key holds a non-empty string. The rewrite fails exactly when there is a reference and its ID resolves to 0, with that kind's unresolved error for exactly that identifier. Otherwise the ID key holds a decimal string that parses back to the resolved positive ID, the reference key is removed, and every other key is unchanged. |
| StoreComposePage.RewriteEntryMeaning | pkg/envoy/store/compose_page_marshal.go:221-236 | An entry without options or without a module reference is left as it is. An unresolved module gives the module's unresolved error for that identifier, with the entry unchanged. A resolved one becomes a decimal `moduleID` that parses back to the module's ID, `module` is removed, and every other key is kept. A feed keeps its fields other than `options`. |
| StoreComposePage.RewriteFrom | pkg/envoy/store/compose_page_marshal.go:195-267 | The list loop, for any one-element rewrite: it keeps the list length and leaves the elements before the current one untouched. |
| StoreComposePage.FirstFailureFrom | pkg/envoy/store/compose_page_marshal.go:195-267 | The index of the first element whose own rewrite fails, or -1 exactly when none fails. |
| StoreComposePage.RewriteFromPointwise | pkg/envoy/store/compose_page_marshal.go:195-267 | After a successful loop, every element is its own one-element rewrite. For blocks: every block is its `RewriteBlock`. For feeds and metrics: every entry is its `RewriteEntry`. |
| StoreComposePage.RewriteFromStopsAtFirstError | pkg/envoy/store/compose_page_marshal.go:195-267 | A failing loop returns the error of the first element whose own rewrite fails. The elements before it are rewritten, it is stored as its rewrite left it, and the elements after it are as they were. |
| StoreComposePage.RewriteFromEach | pkg/envoy/store/compose_page_marshal.go:195-267 | Whatever the outcome, each element is either unchanged or its own rewrite. |
| StoreComposePage.RewriteEntries | pkg/envoy/store/compose_page_marshal.go:250-265 | The loop gives the entries and error of `RewriteEntriesFrom`, which is `RewriteFrom` over `RewriteEntry`. So the `RewriteFrom` lemmas apply: on success each entry is its own rewrite, and on failure the error is the first failing entry's, with the entries before it rewritten and the rest as they were. |
| StoreComposePage.RewriteBlock | pkg/envoy/store/compose_page_marshal.go:195-267 | Kind and title are kept. A block of any kind other than RecordList, RecordOrganizer, Calendar, Chart or Metric is left as it is. |
| StoreComposePage.RewriteBlockRef | pkg/envoy/store/compose_page_marshal.go:238-248 | Kind and title are kept. A failed or absent reference leaves the block unchanged. The options are defined as `RewriteRef`'s result. |
| StoreComposePage.RewriteBlockList | pkg/envoy/store/compose_page_marshal.go:221-236 | Kind and title are kept. The option keys are the same, and every option other than the feed or metric list keeps its value. The new list is defined as `RewriteEntriesFrom`'s result. |
| StoreComposePage.RewriteBlocksFrom | pkg/envoy/store/compose_page_marshal.go:195-267 | The block loop keeps the number of blocks and the kind of every block. |
| StoreComposePage.RewriteBlockStep | pkg/envoy/store/compose_page_marshal.go:196-266 | One block, as the encoder runs it, equals `RewriteBlock`. |
| StoreComposePage.RewriteBlockRefStep | pkg/envoy/store/compose_page_marshal.go:238-248 | Equals `RewriteBlockRef`. |
| StoreComposePage.RewriteBlockListStep | pkg/envoy/store/compose_page_marshal.go:250-265 | Equals `RewriteBlockList`. |
| StoreComposePage.EncodeSpec | pkg/envoy/store/compose_page_marshal.go:104-301 | At most one write, a create or an update, and only once a namespace was resolved. A created page has a positive namespace ID. The row ends with the ID `ChooseID` picks, unless an update replaced it with the written page. |
| StoreComposePage.Write | pkg/envoy/store/compose_page_marshal.go:269-300 | At most one write, a create or an update. A skip-expression error is returned with nothing written. With no write, the row is unchanged. A create writes the row itself and only when no page exists. An update only happens when a page exists and the policy is not Skip. On error the row is unchanged. |
| StoreComposePage.WritePolicy | pkg/envoy/store/compose_page_marshal.go:269-300 | Skip means no write. A page that does not exist is created. Otherwise Skip, MergeLeft, MergeRight or a plain update applies. The row is replaced only after a successful update. |
| StoreComposePage.EncodeWritesLast | pkg/envoy/store/compose_page_marshal.go:104-301 | At most one write. There is a write only when every foreign key and every embedded reference resolved. An unresolved block means no write. A created page has a positive namespace ID and the ID chosen for it, and it is exactly the row with the foreign keys `ForeignKeys` sets and the blocks `RewriteBlocksFrom` rewrites, so the store receives `moduleID`/`chartID` options. Whenever there is a write, Encode is `Write` of that row, so `WritePolicy`'s skip, create and merge clauses apply to it. |
| ResourceComposeChart.NewComposeChart | pkg/envoy/resource/compose_chart.go:22-41 | The node has the chart type and row, and the non-blank handle, name and positive decimal ID as identifiers. It has one namespace reference, and one module reference per module name, each constrained by the namespace reference. It takes the row's timestamps. |
| ResourceComposeChart.ComposeChart.SysID | pkg/envoy/resource/compose_chart.go:43-45 | The row's ID. For a node built from a row with a positive ID, its decimal form is one of the node's identifiers and parses back to that ID. |
| ResourceComposeChart.ComposeChart.Ref | pkg/envoy/resource/compose_chart.go:47-49 | Never empty: the handle, else the name, else the decimal ID, which parses back to the ID. |
| ResourceComposeChart.FindComposeChart | pkg/envoy/resource/compose_chart.go:52-73 | The walk returns `LastMatchingChart`. |
| ResourceComposeChart.LastMatchingChartIsLast | pkg/envoy/resource/compose_chart.go:52-73 | Nil exactly when no chart shares an identifier with the query. Otherwise the result is a matching chart, and no chart after it matches. |
| ResourceComposeChart.LastMatchingChartIgnoresOtherNodes | pkg/envoy/resource/compose_chart.go:56-59 | Nodes that are not charts never change the result. |
| ResourceComposeChart.LastMatchingChartEmptyQuery | pkg/envoy/resource/compose_chart.go:61 | An empty query finds nothing. |
| ResourceComposeChart.ChartIdentifiersOfRow | pkg/envoy/resource/compose_chart.go:30 | The identifiers are exactly the non-blank handle and name and the positive ID's decimal form, which parses back to SysID. |
| ResourceComposeChart.RefIsIdentifier | pkg/envoy/resource/compose_chart.go:47-73 | A chart built from a row with a handle, a name or an ID has its `Ref()` among its identifiers. In any node list where it is the last chart answering to that `Ref()`, `FindComposeChart` returns its row. |
| ResourceComposeChart.ComposeChartErrUnresolved | pkg/envoy/resource/compose_chart.go:75-77 | The error names the chart kind and carries exactly the identifiers looked for. |
| YamlComposePage.AddComposePage | pkg/envoy/yaml/compose_page.go:60-78 | Succeeds exactly when some page matches. The child is appended to the first matching page only. A failure changes nothing. Only the children lists change. |
| YamlComposePage.ConfigurePagesEncoder | pkg/envoy/yaml/compose_page.go:80-84 | Every page gets the configuration. Nothing else changes. |
| YamlComposePage.ConfigureBlocksEncoder | pkg/envoy/yaml/compose_page.go:86-90 | Every block gets the configuration. Nothing else changes. |
| YamlComposePage.ComposePage.Matches | pkg/envoy/yaml/compose_page.go:48-58 | A page answers to its handle, its title and, when it is positive, its decimal ID. Any other string it answers to is exactly the decimal form of its positive ID, which parses back to it. |
| YamlComposePage.MatchesOwnIdentifiers | pkg/envoy/yaml/compose_page.go:48-58 | A page matches its handle, its title and, when it is positive, its decimal ID. Any other match is exactly the decimal form of its positive ID, so "007" never matches ID 7. |
| YamlComposePage.MatchesWithoutID | pkg/envoy/yaml/compose_page.go:48-58 | A page without an ID matches only its handle and title, not even "0". |
| YamlComposePage.IDMatchIsUnique | pkg/envoy/yaml/compose_page.go:48-58 | Two pages with different positive IDs never both match one string through their IDs. |
| StoreCompose.WithDefaultLimit | pkg/envoy/store/compose.go:56-60 | The copy's limit is positive. A limit of 0 becomes the default of 1000, and a positive limit is kept. Nothing else differs from the caller's filter. |
| StoreCompose.NextCursor | pkg/envoy/store/compose.go:76-80 | Another page is fetched with the store's cursor when: the caller's NextPage is set (namespaces, modules, records); the store returned a cursor (pages); or there is no limit and the store returned a cursor (charts). |
| StoreCompose.ComposeDecoder.DecodePaged | pkg/envoy/store/compose.go:44-87 | The index, the filters searched and the result are those of `RunFilters`. |
| StoreCompose.ComposeDecoder.DecodeComposeNamespace | pkg/envoy/store/compose.go:44-87 | `RunFilters` under the caller-cursor rule, emitting namespace nodes. |
| StoreCompose.ComposeDecoder.DecodeComposeModule | pkg/envoy/store/compose.go:89-142 | `RunFilters` under the caller-cursor rule. Each module is emitted with its fields, and a field-search error aborts. |
| StoreCompose.ComposeDecoder.DecodeComposePage | pkg/envoy/store/compose.go:259-302 | `RunFilters` following the store's cursor. |
| StoreCompose.ComposeDecoder.DecodeComposeChart | pkg/envoy/store/compose.go:304-349 | `RunFilters`: one page when limited, else following the store's cursor. |
| StoreCompose.EmitModule | pkg/envoy/store/compose.go:118-128 | A module's node carries the module with the fields the store returned for its ID. A field-search error is returned as is. |
| StoreCompose.RunRowsGrows | pkg/envoy/store/compose.go:62-81 | Row by row, the index and the node list only grow. |
| StoreCompose.RunPagesGrows | pkg/envoy/store/compose.go:62-81 | The page loop only appends to the index, the nodes and the filters searched. |
| StoreCompose.RunFiltersGrows | pkg/envoy/store/compose.go:55-81 | The filter loop only appends to the index, the nodes and the filters searched. |
| StoreCompose.RunRowsAllEmit | pkg/envoy/store/compose.go:70-74 | Every row's ID and node are appended once, in order. |
| StoreCompose.SinglePageDecode | pkg/envoy/store/compose.go:44-87 | Single-page filters with a store that succeeds: one search per filter, each with the defaulted filter, and every row indexed and emitted in order. |
| StoreCompose.FollowStoreCursorComplete | pkg/envoy/store/compose.go:271-297 | The page decoder reads exactly the chain of pages the store's cursors lead through. It indexes and emits every row of that chain once, in order. |
| StoreCompose.CallerCursorNeverStops | pkg/envoy/store/compose.go:62-81 | With the caller's NextPage set, a store that always answers with rows that all become nodes keeps the namespace or module page loop running until the fuel is spent. |
| StoreCompose.ComposeDecoder.DecodeComposeRecord | pkg/envoy/store/compose.go:144-257 | A nil list gives an empty response. A user-search error is returned. Any error leaves no nodes, and is that of the first filter whose module or field lookup fails. On success there is one record node per filter, with decimal module and namespace references, the module with its fields, the users, and a walker over the defaulted copy that tests that filter's own NextPage (the corrected behaviour, see Findings). |
| StoreCompose.MapValues | pkg/envoy/store/compose.go:175-182 | The loop equals `ValuesMap`. |
| StoreCompose.ValuesMapIsLastValue | pkg/envoy/store/compose.go:175-182 | The map's keys are exactly the value names, and each key holds the value of its last occurrence. |
| StoreCompose.RecordWalker.Walk | pkg/envoy/store/compose.go:216-249 | The walk, the records handed over, the walker's filter afterwards and the result are those of `WalkPages`. The cursor advance persists between walks. |
| StoreCompose.VisitPage | pkg/envoy/store/compose.go:227-240 | The callback loop over one page converts each row with `RawRecord` and gives the records handed over and the error of `VisitRows`. |
| StoreCompose.WalkPagesShape | pkg/envoy/store/compose.go:221-247 | A walk searches at most fuel times, first with the walker's filter. Without a caller NextPage it searches exactly once, keeps its filter and ends. It runs out of fuel only with a caller NextPage set. |
| StoreCompose.WalkPagesNext | pkg/envoy/store/compose.go:221-247 | When the search succeeds, the callback accepts the whole page and the caller's NextPage is set, the walk is that page followed by the walk from the filter with the store's cursor. |
| StoreCompose.WalkPagesLast | pkg/envoy/store/compose.go:221-247 | Otherwise the walk ends after its one search, keeping its filter: with the store's error and nothing handed over, or with the page's records and the callback's outcome. |
| StoreCompose.WalkFollowsStoreCursor | pkg/envoy/store/compose.go:221-247 | Every search after the first uses the previous filter with the cursor the store returned for it, and the previous search succeeded. |
| StoreCompose.WalkVisitsPagesInOrder | pkg/envoy/store/compose.go:221-247 | The records handed to the callback are a prefix of the searched pages' records, page by page and row by row. |
| StoreCompose.WalkVisitsAllPages | pkg/envoy/store/compose.go:221-247 | Unless the callback stopped the walk, it was handed every record of every page searched, in order. |
| StoreCompose.WalkStoreErrorSource | pkg/envoy/store/compose.go:222-225 | An error the callback did not return is the store's error for the last search. |
| StoreCompose.WalkCallbackErrorSource | pkg/envoy/store/compose.go:236-239 | When the callback stopped the walk, the error is the callback's error for the last record handed over, and it accepted every earlier record. |
| StoreCompose.WalkCallerCursorNeverStops | pkg/envoy/store/compose.go:221-247 | With a caller NextPage set, a store that always answers and a callback that accepts every record make the walk run until the fuel is spent. |
| StoreCompose.WalkerAsWrittenReadsOnePage | pkg/envoy/store/compose.go:242-246 | Record filters whose first filter has NextPage and whose last has none: as written, the first walker searches once and ends. With its own NextPage it goes on to a second search with the store's cursor. |
| StoreCompose.VisitRowsInOrder | pkg/envoy/store/compose.go:228-240 | The callback receives the page's records in order, each as its raw form. It receives all of them unless it stops early. |
| StoreCompose.VisitRowsStopsAtFirstError | pkg/envoy/store/compose.go:236-239 | The walk stops at the first record the callback rejects and returns that error. It returns none only when every record was accepted. |
| StoreCompose.DecodeFilter.ComposeNamespace | pkg/envoy/store/compose.go:352-358 | Appends the filter to the namespace list and returns the builder. The other lists are unchanged. |
| StoreCompose.DecodeFilter.ComposeModule | pkg/envoy/store/compose.go:361-367 | The same for the module list. |
| StoreCompose.DecodeFilter.ComposeRecord | pkg/envoy/store/compose.go:370-376 | The same for the record list. |
| StoreCompose.DecodeFilter.ComposePage | pkg/envoy/store/compose.go:379-385 | The same for the page list. |
| StoreCompose.DecodeFilter.ComposeChart | pkg/envoy/store/compose.go:388-394 | The same for the chart list. |

## Left out

- Context, logging and error message text. Errors are values that carry the kind and identifiers; the message formatting is not modelled.
- The store, the resource-graph lookups (`findCompose*RS`, `FindComposeNamespace/Module/Page`), `NextID`, `now`, `basicSkipEval`, `mergeComposePage` and `mergeConfig` are parameters whose code is not part of this model. The `Store` object logs calls and returns what its oracle says.
- The identifier helpers (`MakeIdentifiers`, `identifiers`, `AddRef`, `Constraint`, `HasAny`) are in files that are not part of this model. They are given set semantics.
- 64-bit IDs are unbounded naturals. No ID in the source is computed arithmetically, so there is no wrap-around to model.
- Go maps are shared references. A block's options are a value here, and the row is rewritten block by block. The visible outcome is the same, including a partial rewrite that stays after an error, but aliasing between maps is not modelled.
- A Go nil-pointer dereference, which would panic, is the `NilDereference` error. The row's state at the moment of the panic is not tracked.
- Go's `*T` timestamp pointers nested inside a timestamp are flattened into `Option` fields.
- StoreCompose.ComposeDecoder.DecodeComposeNamespace, DecodeComposeModule, DecodeComposePage and DecodeComposeChart take a sequence. A nil filter slice and an empty one give the same empty response, so they are not told apart. The record decoder does tell them apart, because only a non-nil list lists the users.
- StoreCompose.ComposeDecoder.DecodePaged and StoreCompose.RecordWalker.Walk are bounded by fuel. The source's loops end on a store error, on a row or callback error, or when the continuation rule gives no cursor: the caller filter has no NextPage, the store returned no cursor, or a chart filter has a limit. Nothing bounds how many pages a store may chain, and under the caller-cursor rule a store that always answers keeps the loop going for ever. Fuel stands in for that and yields `OutOfFuel`.
- The user search is given to the record decoder as its result. The users are kept as a list, not as the userstamp index.
- The record walker is modelled with its corrected NextPage test (see Findings). `WalkerNextPageAsWritten` and `WalkerAsWrittenReadsOnePage` record the as-written behaviour.

## Findings

| source | as written | input that shows it | evidently intended | confidence | as-written member | corrected member |
|---|---|---|---|---|---|---|
| pkg/envoy/store/compose.go:242 | The walker closure tests `f.NextPage`. `f` is the range variable of the loop at line 185, which Go before 1.22 shares between iterations. By the time a walker runs, after the decoder returned, `f` is the last filter. | Two record filters, the first with NextPage set and the second without. The first filter's walker reads one page only. | Each walker tests the NextPage of the filter it was created for. | not executed | StoreCompose.WalkerAsWrittenReadsOnePage | StoreCompose.ComposeDecoder.DecodeComposeRecord |
