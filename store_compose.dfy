/** The compose decoders of the store envoy (pkg/envoy/store/compose.go):
    paginated searches that turn store rows into graph nodes, append each
    row's ID to the decoder's running index, and abort on the first store
    error; the record decoder that hands out one lazy walker per filter; and
    the builder that collects the filters.

    The store is an oracle: a search is a function from the filter it is
    given to a page of rows and the store's next cursor, or an error. */
module StoreCompose {
  import opened Strconv
  import opened Resource
  import opened ComposeTypes

  datatype Cursor = Cursor(token: string)

  /** Paging of a filter: page size, where to resume, and the caller's NextPage. */
  datatype Paging = Paging(limit: nat, pageCursor: Option<Cursor>, nextPage: Option<Cursor>)

  /** A search filter of any compose kind. The kind-specific criteria are
      opaque to the decoders, except the record filter's namespace and module. */
  datatype Filter = Filter(namespaceID: nat, moduleID: nat, criteria: string, paging: Paging)

  /** One page of search results: the rows, and the NextPage of the filter the store returns. */
  datatype SearchPage<T> = SearchPage(rows: seq<T>, next: Option<Cursor>)

  const DefaultLimit: nat := 1000

  /** aux := *f; if aux.Limit == 0 { aux.Limit = 1000 }: a copy, so the
      caller's filter is left as it was. */
  function WithDefaultLimit(f: Filter): (aux: Filter)
    ensures aux.paging.limit > 0
    ensures f.paging.limit == 0 ==> aux.paging.limit == DefaultLimit
    ensures f.paging.limit > 0 ==> aux.paging.limit == f.paging.limit
    ensures aux.(paging := aux.paging.(limit := f.paging.limit)) == f
  {
    if f.paging.limit == 0 then f.(paging := f.paging.(limit := DefaultLimit)) else f
  }

  /** A raw record as the record walker hands it to its callback. */
  datatype RecordRaw = RecordRaw(id: string, values: map<string, string>, ts: Timestamps, us: Userstamps)

  /** What the record decoder emits per filter: the references of the record
      set and the walker that streams it. */
  datatype RecordAux = RecordAux(refMod: string, relMod: Module, refNs: string, relUsers: seq<User>, walker: RecordWalker)

  /** The node a decoded row becomes. */
  datatype Marshaller =
    | NamespaceNode(ns: Namespace)
    | ModuleNode(mod: Module)
    | PageNode(pg: Page)
    | ChartNode(ch: Chart)
    | RecordNode(aux: RecordAux)

  /** auxRsp: the marshallers, or only the error. */
  datatype AuxRsp = AuxRsp(mm: seq<Marshaller>, err: Option<Error>)

  /** A decoder returns, or (for the loops the source never leaves unless the
      store fails) runs out of the fuel that bounds the searches per filter. */
  datatype Decoded = Returned(rsp: AuxRsp) | OutOfFuel

  // ---------------------------------------------------------------------------
  // Continuation rules

  /** How a decoder decides to fetch another page:
      namespaces, modules and records test the caller's NextPage;
      pages test the cursor the store returned;
      charts stop after one page whenever the caller set a limit. */
  datatype Continuation = FollowCallerCursor | FollowStoreCursor | OnePageWhenLimited

  /** None: leave the page loop. Some(c): search again with page cursor c. */
  function NextCursor(rule: Continuation, caller: Filter, next: Option<Cursor>): (r: Option<Option<Cursor>>)
    ensures r.Some? ==> r.value == next
    ensures rule == FollowCallerCursor ==> (r.Some? <==> caller.paging.nextPage.Some?)
    ensures rule == FollowStoreCursor ==> (r.Some? <==> next.Some?)
    ensures rule == OnePageWhenLimited ==> (r.Some? <==> caller.paging.limit == 0 && next.Some?)
  {
    match rule
    case FollowCallerCursor =>
      if caller.paging.nextPage.Some? then Some(next) else None
    case FollowStoreCursor =>
      if next.Some? then Some(next) else None
    case OnePageWhenLimited =>
      if caller.paging.limit > 0 then None
      else if next.Some? then Some(next)
      else None
  }

  /** Under this rule and caller filter, a decoder searches once and stops. */
  predicate SinglePage(rule: Continuation, caller: Filter) {
    (rule == FollowCallerCursor && caller.paging.nextPage.None?)
    || (rule == OnePageWhenLimited && caller.paging.limit > 0)
  }

  // ---------------------------------------------------------------------------
  // The paged decode loop, as a specification

  /** What a decode has accumulated: the decoder's whole resourceID index, the
      marshallers of this call and the filters searched so far. */
  datatype Progress = Progress(ids: seq<nat>, mm: seq<Marshaller>, searched: seq<Filter>)

  /** Still in the loop, or left it with the final index, searches and result. */
  datatype Outcome =
    | Running(p: Progress)
    | Halted(ids: seq<nat>, searched: seq<Filter>, result: Decoded)

  /** The rows of one page from row j on: each appends its ID, then becomes a
      marshaller; a row that cannot become one aborts with only the error. */
  function RunRows<T>(rows: seq<T>, j: nat, idOf: T -> nat, emit: T -> Result<Marshaller>, p: Progress): Outcome
    requires j <= |rows|
    decreases |rows| - j
  {
    if j == |rows| then Running(p)
    else
      var ids := p.ids + [idOf(rows[j])];
      match emit(rows[j])
      case Failure(e) => Halted(ids, p.searched, Returned(AuxRsp([], Some(e))))
      case Success(m) => RunRows(rows, j + 1, idOf, emit, p.(ids := ids, mm := p.mm + [m]))
  }

  /** The page loop of one filter, with fuel searches left. */
  function RunPages<T>(search: Filter -> Result<SearchPage<T>>, rule: Continuation, caller: Filter, aux: Filter,
                       idOf: T -> nat, emit: T -> Result<Marshaller>, fuel: nat, p: Progress): Outcome
    decreases fuel
  {
    if fuel == 0 then Halted(p.ids, p.searched, OutOfFuel)
    else
      var searched := p.searched + [aux];
      match search(aux)
      case Failure(e) => Halted(p.ids, searched, Returned(AuxRsp([], Some(e))))
      case Success(page) =>
        var o := RunRows(page.rows, 0, idOf, emit, p.(searched := searched));
        if o.Halted? then o
        else
          match NextCursor(rule, caller, page.next)
          case None => o
          case Some(c) =>
            RunPages(search, rule, caller, aux.(paging := aux.paging.(pageCursor := c)), idOf, emit, fuel - 1, o.p)
  }

  /** The filter loop from filter i on. */
  function RunFilters<T>(search: Filter -> Result<SearchPage<T>>, rule: Continuation, ff: seq<Filter>, i: nat,
                         idOf: T -> nat, emit: T -> Result<Marshaller>, fuel: nat, p: Progress): Outcome
    requires i <= |ff|
    decreases |ff| - i
  {
    if i == |ff| then Halted(p.ids, p.searched, Returned(AuxRsp(p.mm, None)))
    else
      var o := RunPages(search, rule, ff[i], WithDefaultLimit(ff[i]), idOf, emit, fuel, p);
      if o.Halted? then o else RunFilters(search, rule, ff, i + 1, idOf, emit, fuel, o.p)
  }

  /** What remains of a decode once filter i's page loop has produced o. */
  function ThenFilters<T>(o: Outcome, search: Filter -> Result<SearchPage<T>>, rule: Continuation, ff: seq<Filter>, i: nat,
                          idOf: T -> nat, emit: T -> Result<Marshaller>, fuel: nat): Outcome
    requires i < |ff|
  {
    if o.Halted? then o else RunFilters(search, rule, ff, i + 1, idOf, emit, fuel, o.p)
  }

  // Row conversions of the four paged kinds

  function NamespaceID(n: Namespace): nat { n.id }
  function ModuleID(m: Module): nat { m.id }
  function PageID(pg: Page): nat { pg.id }
  function ChartID(ch: Chart): nat { ch.id }

  function EmitNamespace(n: Namespace): Result<Marshaller> { Success(NamespaceNode(n)) }
  function EmitPage(pg: Page): Result<Marshaller> { Success(PageNode(pg)) }
  function EmitChart(ch: Chart): Result<Marshaller> { Success(ChartNode(ch)) }

  /** A module is emitted with the fields the store lists for its ID; a
      failing field search aborts. */
  function EmitModule(searchFields: nat -> Result<seq<ModuleField>>, m: Module): (r: Result<Marshaller>)
    ensures r.Success? <==> searchFields(m.id).Success?
    ensures r.Success? ==> r.value == ModuleNode(m.(fields := searchFields(m.id).value))
    ensures r.Failure? ==> r.error == searchFields(m.id).error
  {
    match searchFields(m.id)
    case Failure(e) => Failure(e)
    case Success(fields) => Success(ModuleNode(m.(fields := fields)))
  }

  function ModuleEmitter(searchFields: nat -> Result<seq<ModuleField>>): Module -> Result<Marshaller> {
    m => EmitModule(searchFields, m)
  }

  // ---------------------------------------------------------------------------
  // What the decode loop does

  /** The IDs of rows, in store order. */
  function IdsOf<T>(rows: seq<T>, idOf: T -> nat): seq<nat> {
    seq(|rows|, k requires 0 <= k < |rows| => idOf(rows[k]))
  }

  /** Every row can be turned into a node. */
  predicate AllEmit<T>(rows: seq<T>, emit: T -> Result<Marshaller>) {
    forall k :: 0 <= k < |rows| ==> emit(rows[k]).Success?
  }

  /** The nodes of rows that all can be turned into one, in store order. */
  function NodesOf<T>(rows: seq<T>, emit: T -> Result<Marshaller>): seq<Marshaller>
    requires AllEmit(rows, emit)
  {
    seq(|rows|, k requires 0 <= k < |rows| && emit(rows[k]).Success? => emit(rows[k]).value)
  }

  lemma IdsNodesOfAppend<T>(a: seq<T>, b: seq<T>, idOf: T -> nat, emit: T -> Result<Marshaller>)
    requires AllEmit(a + b, emit)
    ensures AllEmit(a, emit) && AllEmit(b, emit)
    ensures IdsOf(a + b, idOf) == IdsOf(a, idOf) + IdsOf(b, idOf)
    ensures NodesOf(a + b, emit) == NodesOf(a, emit) + NodesOf(b, emit)
  {
    assert forall k :: 0 <= k < |a| ==> (a + b)[k] == a[k];
    assert forall k :: 0 <= k < |b| ==> (a + b)[|a| + k] == b[k];
  }

  /** How an outcome extends the progress it started from: the index and the
      searches only grow; a successful run only adds marshallers; a response
      with an error carries no marshallers. */
  predicate Grows(p: Progress, o: Outcome) {
    match o
    case Running(q) => p.ids <= q.ids && p.mm <= q.mm && p.searched <= q.searched
    case Halted(ids, searched, r) =>
      p.ids <= ids && p.searched <= searched
      && (r.Returned? && r.rsp.err.Some? ==> r.rsp.mm == [])
      && (r.Returned? && r.rsp.err.None? ==> p.mm <= r.rsp.mm)
  }

  /** A page of rows never searches; it only stops on a row that cannot be
      turned into a node, and then with that error and the row's ID kept. */
  lemma {:induction false} RunRowsGrows<T>(rows: seq<T>, j: nat, idOf: T -> nat, emit: T -> Result<Marshaller>, p: Progress)
    requires j <= |rows|
    ensures var o := RunRows(rows, j, idOf, emit, p);
      Grows(p, o)
      && (o.Running? ==> o.p.searched == p.searched)
      && (o.Halted? ==> o.searched == p.searched && |o.ids| > |p.ids| && o.result.Returned? && o.result.rsp.err.Some?)
    decreases |rows| - j
  {
    if j < |rows| && emit(rows[j]).Success? {
      var q := p.(ids := p.ids + [idOf(rows[j])], mm := p.mm + [emit(rows[j]).value]);
      RunRowsGrows(rows, j + 1, idOf, emit, q);
    }
  }

  /** The page loop of one filter searches at least once before it carries
      on, and stops only on an error or when out of fuel. */
  lemma {:induction false} RunPagesGrows<T>(search: Filter -> Result<SearchPage<T>>, rule: Continuation, caller: Filter, aux: Filter,
                                            idOf: T -> nat, emit: T -> Result<Marshaller>, fuel: nat, p: Progress)
    ensures var o := RunPages(search, rule, caller, aux, idOf, emit, fuel, p);
      Grows(p, o)
      && (o.Running? ==> |o.p.searched| > |p.searched|)
      && (o.Halted? ==> o.result.OutOfFuel? || o.result.rsp.err.Some?)
    decreases fuel
  {
    if fuel > 0 && search(aux).Success? {
      var page := search(aux).value;
      var p1 := p.(searched := p.searched + [aux]);
      RunRowsGrows(page.rows, 0, idOf, emit, p1);
      var o := RunRows(page.rows, 0, idOf, emit, p1);
      if o.Running? && NextCursor(rule, caller, page.next).Some? {
        var c := NextCursor(rule, caller, page.next).value;
        RunPagesGrows(search, rule, caller, aux.(paging := aux.paging.(pageCursor := c)), idOf, emit, fuel - 1, o.p);
      }
    }
  }

  /** A decode always returns (or runs out of fuel); it never drops IDs already
      in the index; an error response carries no marshallers; a successful one
      keeps what was decoded before and searched every remaining filter. */
  lemma {:induction false} RunFiltersGrows<T>(search: Filter -> Result<SearchPage<T>>, rule: Continuation, ff: seq<Filter>, i: nat,
                                              idOf: T -> nat, emit: T -> Result<Marshaller>, fuel: nat, p: Progress)
    requires i <= |ff|
    ensures var o := RunFilters(search, rule, ff, i, idOf, emit, fuel, p);
      o.Halted? && Grows(p, o)
      && (o.result.Returned? && o.result.rsp.err.None? ==> |o.searched| >= |p.searched| + (|ff| - i))
    decreases |ff| - i
  {
    if i < |ff| {
      RunPagesGrows(search, rule, ff[i], WithDefaultLimit(ff[i]), idOf, emit, fuel, p);
      var o := RunPages(search, rule, ff[i], WithDefaultLimit(ff[i]), idOf, emit, fuel, p);
      if o.Running? {
        RunFiltersGrows(search, rule, ff, i + 1, idOf, emit, fuel, o.p);
      }
    }
  }

  /** A page whose rows all become nodes adds each row's ID and node, in order. */
  lemma {:induction false} RunRowsAllEmit<T>(rows: seq<T>, j: nat, idOf: T -> nat, emit: T -> Result<Marshaller>, p: Progress)
    requires j <= |rows| && AllEmit(rows, emit)
    ensures AllEmit(rows[j..], emit)
    ensures RunRows(rows, j, idOf, emit, p)
      == Running(p.(ids := p.ids + IdsOf(rows[j..], idOf), mm := p.mm + NodesOf(rows[j..], emit)))
    decreases |rows| - j
  {
    if j < |rows| {
      var q := p.(ids := p.ids + [idOf(rows[j])], mm := p.mm + [emit(rows[j]).value]);
      RunRowsAllEmit(rows, j + 1, idOf, emit, q);
      assert rows[j..] == [rows[j]] + rows[j + 1..];
      IdsNodesOfAppend([rows[j]], rows[j + 1..], idOf, emit);
    } else {
      assert rows[j..] == [];
    }
  }

  /** The rows the store returns for the first search of each filter from i on. */
  function FirstPages<T>(search: Filter -> Result<SearchPage<T>>, ff: seq<Filter>, i: nat): seq<T>
    requires i <= |ff|
    requires forall k :: i <= k < |ff| ==> search(WithDefaultLimit(ff[k])).Success?
    decreases |ff| - i
  {
    if i == |ff| then [] else search(WithDefaultLimit(ff[i])).value.rows + FirstPages(search, ff, i + 1)
  }

  /** The filters from i on, each with the default limit applied. */
  function Defaulted(ff: seq<Filter>, i: nat): seq<Filter>
    requires i <= |ff|
  {
    seq(|ff| - i, k requires 0 <= k < |ff| - i => WithDefaultLimit(ff[i + k]))
  }

  /** When the rule stops after one page for every filter (namespace and
      module filters without a NextPage, chart filters with a limit), and the
      store answers: one search per filter, with the defaulted filter, and
      every returned row indexed and emitted in order. */
  lemma {:induction false} SinglePageDecode<T>(search: Filter -> Result<SearchPage<T>>, rule: Continuation, ff: seq<Filter>, i: nat,
                                               idOf: T -> nat, emit: T -> Result<Marshaller>, fuel: nat, p: Progress)
    requires i <= |ff| && fuel > 0
    requires forall k :: i <= k < |ff| ==>
      SinglePage(rule, ff[k]) && search(WithDefaultLimit(ff[k])).Success?
      && AllEmit(search(WithDefaultLimit(ff[k])).value.rows, emit)
    ensures AllEmit(FirstPages(search, ff, i), emit)
    ensures RunFilters(search, rule, ff, i, idOf, emit, fuel, p)
      == Halted(p.ids + IdsOf(FirstPages(search, ff, i), idOf), p.searched + Defaulted(ff, i),
                Returned(AuxRsp(p.mm + NodesOf(FirstPages(search, ff, i), emit), None)))
    decreases |ff| - i
  {
    if i == |ff| {
      assert Defaulted(ff, i) == [] && IdsOf<T>([], idOf) == [] && NodesOf<T>([], emit) == [];
      assert p.ids + [] == p.ids && p.mm + [] == p.mm && p.searched + [] == p.searched;
    } else {
      var aux := WithDefaultLimit(ff[i]);
      var rows := search(aux).value.rows;
      var rest := FirstPages(search, ff, i + 1);
      var q := Progress(p.ids + IdsOf(rows, idOf), p.mm + NodesOf(rows, emit), p.searched + [aux]);
      SinglePageStep(search, rule, ff, i, idOf, emit, fuel, p);
      SinglePageDecode(search, rule, ff, i + 1, idOf, emit, fuel, q);
      assert FirstPages(search, ff, i) == rows + rest;
      assert Defaulted(ff, i) == [aux] + Defaulted(ff, i + 1);
      AllEmitConcat(rows, rest, emit);
      IdsNodesOfAppend(rows, rest, idOf, emit);
      assert q.ids + IdsOf(rest, idOf) == p.ids + IdsOf(rows + rest, idOf);
      assert q.mm + NodesOf(rest, emit) == p.mm + NodesOf(rows + rest, emit);
      assert q.searched + Defaulted(ff, i + 1) == p.searched + Defaulted(ff, i);
    }
  }

  /** One filter that stops after one page, with a store that answers: the
      filter loop goes on to the next filter with that page's rows indexed
      and emitted and the defaulted filter searched. */
  lemma SinglePageStep<T>(search: Filter -> Result<SearchPage<T>>, rule: Continuation, ff: seq<Filter>, i: nat,
                          idOf: T -> nat, emit: T -> Result<Marshaller>, fuel: nat, p: Progress)
    requires i < |ff| && fuel > 0 && SinglePage(rule, ff[i])
    requires search(WithDefaultLimit(ff[i])).Success? && AllEmit(search(WithDefaultLimit(ff[i])).value.rows, emit)
    ensures var aux := WithDefaultLimit(ff[i]);
      var rows := search(aux).value.rows;
      RunFilters(search, rule, ff, i, idOf, emit, fuel, p)
      == RunFilters(search, rule, ff, i + 1, idOf, emit, fuel,
                    Progress(p.ids + IdsOf(rows, idOf), p.mm + NodesOf(rows, emit), p.searched + [aux]))
  {
    var aux := WithDefaultLimit(ff[i]);
    var rows := search(aux).value.rows;
    var p1 := p.(searched := p.searched + [aux]);
    RunRowsAllEmit(rows, 0, idOf, emit, p1);
    assert rows[0..] == rows;
  }

  lemma AllEmitConcat<T>(a: seq<T>, b: seq<T>, emit: T -> Result<Marshaller>)
    requires AllEmit(a, emit) && AllEmit(b, emit)
    ensures AllEmit(a + b, emit)
  {
    assert forall k :: 0 <= k < |a + b| ==> (a + b)[k] == if k < |a| then a[k] else b[k - |a|];
  }

  /** A chain of pages: the rows of every page and the filters searched for them. */
  datatype Chain<T> = Chain(rows: seq<T>, searched: seq<Filter>)

  /** Reference reading of cursor pagination: search from aux, then again
      from each cursor the store returns, until it returns none; None if the
      store fails or fuel searches do not reach the end. */
  function StoreChain<T>(search: Filter -> Result<SearchPage<T>>, aux: Filter, fuel: nat): Option<Chain<T>>
    decreases fuel
  {
    if fuel == 0 then None
    else match search(aux)
      case Failure(_) => None
      case Success(page) =>
        if page.next.None? then Some(Chain(page.rows, [aux]))
        else match StoreChain(search, aux.(paging := aux.paging.(pageCursor := page.next)), fuel - 1)
          case None => None
          case Some(rest) => Some(Chain(page.rows + rest.rows, [aux] + rest.searched))
  }

  /** Pagination completeness of the page decoder: it reads exactly the
      chain of pages the store's cursors lead through, and indexes and emits
      every row of it once, in order. */
  lemma {:induction false} FollowStoreCursorComplete<T>(search: Filter -> Result<SearchPage<T>>, caller: Filter, aux: Filter,
                                                        idOf: T -> nat, emit: T -> Result<Marshaller>, fuel: nat, p: Progress)
    requires StoreChain(search, aux, fuel).Some?
    requires AllEmit(StoreChain(search, aux, fuel).value.rows, emit)
    ensures var ch := StoreChain(search, aux, fuel).value;
      RunPages(search, FollowStoreCursor, caller, aux, idOf, emit, fuel, p)
        == Running(Progress(p.ids + IdsOf(ch.rows, idOf), p.mm + NodesOf(ch.rows, emit), p.searched + ch.searched))
    decreases fuel
  {
    var page := search(aux).value;
    var ch := StoreChain(search, aux, fuel).value;
    if page.next.Some? {
      IdsNodesOfAppend(page.rows, StoreChain(search, aux.(paging := aux.paging.(pageCursor := page.next)), fuel - 1).value.rows, idOf, emit);
    }
    var p1 := p.(searched := p.searched + [aux]);
    RunRowsAllEmit(page.rows, 0, idOf, emit, p1);
    assert page.rows[0..] == page.rows;
    var q := p1.(ids := p1.ids + IdsOf(page.rows, idOf), mm := p1.mm + NodesOf(page.rows, emit));
    if page.next.Some? {
      var next := aux.(paging := aux.paging.(pageCursor := page.next));
      FollowStoreCursorComplete(search, caller, next, idOf, emit, fuel - 1, q);
    }
  }

  /** With a caller NextPage set, the namespace and module page loops leave
      only when the store fails: a store that always answers makes them run
      until the fuel is gone. (The record walker's loop is WalkCallerCursorNeverStops.) */
  lemma {:induction false} CallerCursorNeverStops<T>(search: Filter -> Result<SearchPage<T>>, caller: Filter, aux: Filter,
                                                     idOf: T -> nat, emit: T -> Result<Marshaller>, fuel: nat, p: Progress)
    requires caller.paging.nextPage.Some?
    requires forall a :: search(a).Success? && AllEmit(search(a).value.rows, emit)
    ensures RunPages(search, FollowCallerCursor, caller, aux, idOf, emit, fuel, p).Halted?
    ensures RunPages(search, FollowCallerCursor, caller, aux, idOf, emit, fuel, p).result == OutOfFuel
    decreases fuel
  {
    if fuel > 0 {
      var page := search(aux).value;
      var p1 := p.(searched := p.searched + [aux]);
      RunRowsAllEmit(page.rows, 0, idOf, emit, p1);
      var q := p1.(ids := p1.ids + IdsOf(page.rows[0..], idOf), mm := p1.mm + NodesOf(page.rows[0..], emit));
      CallerCursorNeverStops(search, caller, aux.(paging := aux.paging.(pageCursor := page.next)), idOf, emit, fuel - 1, q);
    }
  }

  // ---------------------------------------------------------------------------
  // The decoder

  class ComposeDecoder {
    var resourceID: seq<nat>

    constructor ()
      ensures resourceID == []
    {
      resourceID := [];
    }

    /** The loop every paged decoder runs: for each filter, copy it with the
        default limit, search page by page, append each row's ID and node,
        and continue as the kind's rule says. */
    method DecodePaged<T>(search: Filter -> Result<SearchPage<T>>, rule: Continuation, ff: seq<Filter>,
                          idOf: T -> nat, emit: T -> Result<Marshaller>, fuel: nat)
      returns (out: Decoded, ghost searched: seq<Filter>)
      modifies this
      ensures RunFilters(search, rule, ff, 0, idOf, emit, fuel, Progress(old(resourceID), [], []))
        == Halted(resourceID, searched, out)
    {
      var mm: seq<Marshaller> := [];
      searched := [];
      ghost var goal := RunFilters(search, rule, ff, 0, idOf, emit, fuel, Progress(resourceID, [], []));
      var i := 0;
      while i < |ff|
        invariant 0 <= i <= |ff|
        invariant RunFilters(search, rule, ff, i, idOf, emit, fuel, Progress(resourceID, mm, searched)) == goal
      {
        var f := ff[i];
        var aux := WithDefaultLimit(f);
        var left := fuel;
        var more := true;
        while more
          invariant more ==>
            ThenFilters(RunPages(search, rule, f, aux, idOf, emit, left, Progress(resourceID, mm, searched)),
                        search, rule, ff, i, idOf, emit, fuel) == goal
          invariant !more ==> RunFilters(search, rule, ff, i + 1, idOf, emit, fuel, Progress(resourceID, mm, searched)) == goal
          decreases left, more
        {
          if left == 0 {
            return OutOfFuel, searched;
          }
          ghost var p0 := Progress(resourceID, mm, searched + [aux]);
          searched := searched + [aux];
          var r := search(aux);
          if r.Failure? {
            return Returned(AuxRsp([], Some(r.error))), searched;
          }
          var page := r.value;
          var j := 0;
          while j < |page.rows|
            invariant 0 <= j <= |page.rows|
            invariant RunRows(page.rows, j, idOf, emit, Progress(resourceID, mm, searched))
              == RunRows(page.rows, 0, idOf, emit, p0)
          {
            var n := page.rows[j];
            resourceID := resourceID + [idOf(n)];
            var m := emit(n);
            if m.Failure? {
              return Returned(AuxRsp([], Some(m.error))), searched;
            }
            mm := mm + [m.value];
            j := j + 1;
          }
          var next := NextCursor(rule, f, page.next);
          if next.None? {
            more := false;
          } else {
            aux := aux.(paging := aux.paging.(pageCursor := next.value));
            left := left - 1;
          }
        }
        i := i + 1;
      }
      return Returned(AuxRsp(mm, None)), searched;
    }

    /** decodeComposeNamespace: follows the caller's NextPage. */
    method DecodeComposeNamespace(search: Filter -> Result<SearchPage<Namespace>>, ff: seq<Filter>, fuel: nat)
      returns (out: Decoded, ghost searched: seq<Filter>)
      modifies this
      ensures RunFilters(search, FollowCallerCursor, ff, 0, NamespaceID, EmitNamespace, fuel, Progress(old(resourceID), [], []))
        == Halted(resourceID, searched, out)
    {
      if |ff| == 0 {
        return Returned(AuxRsp([], None)), [];
      }
      out, searched := DecodePaged(search, FollowCallerCursor, ff, NamespaceID, EmitNamespace, fuel);
    }

    /** decodeComposeModule: follows the caller's NextPage; each module is
        emitted with its fields. */
    method DecodeComposeModule(search: Filter -> Result<SearchPage<Module>>, searchFields: nat -> Result<seq<ModuleField>>,
                               ff: seq<Filter>, fuel: nat)
      returns (out: Decoded, ghost searched: seq<Filter>)
      modifies this
      ensures RunFilters(search, FollowCallerCursor, ff, 0, ModuleID, ModuleEmitter(searchFields), fuel, Progress(old(resourceID), [], []))
        == Halted(resourceID, searched, out)
    {
      if |ff| == 0 {
        return Returned(AuxRsp([], None)), [];
      }
      out, searched := DecodePaged(search, FollowCallerCursor, ff, ModuleID, ModuleEmitter(searchFields), fuel);
    }

    /** decodeComposePage: follows the store's cursor until it is nil. */
    method DecodeComposePage(search: Filter -> Result<SearchPage<Page>>, ff: seq<Filter>, fuel: nat)
      returns (out: Decoded, ghost searched: seq<Filter>)
      modifies this
      ensures RunFilters(search, FollowStoreCursor, ff, 0, PageID, EmitPage, fuel, Progress(old(resourceID), [], []))
        == Halted(resourceID, searched, out)
    {
      if |ff| == 0 {
        return Returned(AuxRsp([], None)), [];
      }
      out, searched := DecodePaged(search, FollowStoreCursor, ff, PageID, EmitPage, fuel);
    }

    /** decodeComposeChart: one page when the caller set a limit, otherwise
        follows the store's cursor. */
    method DecodeComposeChart(search: Filter -> Result<SearchPage<Chart>>, ff: seq<Filter>, fuel: nat)
      returns (out: Decoded, ghost searched: seq<Filter>)
      modifies this
      ensures RunFilters(search, OnePageWhenLimited, ff, 0, ChartID, EmitChart, fuel, Progress(old(resourceID), [], []))
        == Halted(resourceID, searched, out)
    {
      if |ff| == 0 {
        return Returned(AuxRsp([], None)), [];
      }
      out, searched := DecodePaged(search, OnePageWhenLimited, ff, ChartID, EmitChart, fuel);
    }

    /** decodeComposeRecord: unless the filter list is nil, list the users
        once, then for every filter look up its module and the module's fields
        and emit a walker; no record is read here and no ID is added to the
        index. */
    method DecodeComposeRecord(users: Result<seq<User>>, lookupModule: nat -> Result<Module>,
                               searchFields: nat -> Result<seq<ModuleField>>,
                               searchRecords: (Module, Filter) -> Result<SearchPage<Record>>, filters: Option<seq<Filter>>)
      returns (rsp: AuxRsp)
      ensures filters.None? ==> rsp == AuxRsp([], None)
      ensures filters.Some? && users.Failure? ==> rsp == AuxRsp([], Some(users.error))
      ensures rsp.err.Some? ==> rsp.mm == []
      ensures filters.Some? && users.Success? && rsp.err.Some? ==>
        var ff := filters.value;
        exists i :: 0 <= i < |ff| && RecordFilterFails(lookupModule, searchFields, ff[i]) == rsp.err
          && forall k :: 0 <= k < i ==> RecordFilterFails(lookupModule, searchFields, ff[k]).None?
      ensures filters.Some? && rsp.err.None? ==>
        var ff := filters.value;
        users.Success? && |rsp.mm| == |ff|
        && forall i :: 0 <= i < |ff| ==>
          RecordFilterFails(lookupModule, searchFields, ff[i]).None?
          && rsp.mm[i].RecordNode? && RecordNodeFor(rsp.mm[i].aux, users, lookupModule, searchFields, searchRecords, ff[i])
    {
      if filters.None? {
        return AuxRsp([], None);
      }
      var ff := filters.value;
      if users.Failure? {
        return AuxRsp([], Some(users.error));
      }
      var relUsers := users.value;
      var mm: seq<Marshaller> := [];
      var i := 0;
      while i < |ff|
        invariant 0 <= i <= |ff| && |mm| == i
        invariant forall k :: 0 <= k < i ==>
          RecordFilterFails(lookupModule, searchFields, ff[k]).None?
          && mm[k].RecordNode? && RecordNodeFor(mm[k].aux, users, lookupModule, searchFields, searchRecords, ff[k])
      {
        var f := ff[i];
        var aux := WithDefaultLimit(f);
        var mod := lookupModule(f.moduleID);
        if mod.Failure? {
          return AuxRsp([], Some(mod.error));
        }
        var fields := searchFields(mod.value.id);
        if fields.Failure? {
          return AuxRsp([], Some(fields.error));
        }
        var relMod := mod.value.(fields := fields.value);
        var walker := new RecordWalker(aux, f.paging.nextPage, relMod, searchRecords);
        var auxRecord := RecordAux(FormatUint(f.moduleID), relMod, FormatUint(f.namespaceID), relUsers, walker);
        mm := mm + [RecordNode(auxRecord)];
        i := i + 1;
      }
      return AuxRsp(mm, None);
    }
  }

  /** The error, if any, that preparing the walker of record filter f runs into. */
  function RecordFilterFails(lookupModule: nat -> Result<Module>, searchFields: nat -> Result<seq<ModuleField>>, f: Filter): Option<Error> {
    match lookupModule(f.moduleID)
    case Failure(e) => Some(e)
    case Success(mod) => if searchFields(mod.id).Failure? then Some(searchFields(mod.id).error) else None
  }

  /** The node emitted for record filter f: its module and namespace as
      decimal references, the module with its fields, the users listed once,
      and a walker over f (defaulted limit) that tests f's own NextPage. */
  ghost predicate RecordNodeFor(a: RecordAux, users: Result<seq<User>>, lookupModule: nat -> Result<Module>,
                                searchFields: nat -> Result<seq<ModuleField>>,
                                searchRecords: (Module, Filter) -> Result<SearchPage<Record>>, f: Filter)
    reads a.walker
  {
    && users.Success? && lookupModule(f.moduleID).Success?
    && searchFields(lookupModule(f.moduleID).value.id).Success?
    && a.refMod == FormatUint(f.moduleID)
    && a.refNs == FormatUint(f.namespaceID)
    && a.relMod == lookupModule(f.moduleID).value.(fields := searchFields(lookupModule(f.moduleID).value.id).value)
    && a.relUsers == users.value
    && a.walker.aux == WithDefaultLimit(f)
    && a.walker.callerNext == f.paging.nextPage
    && a.walker.mod == a.relMod
    && a.walker.search == searchRecords
  }

  /** As written, the walker closure tests `f.NextPage` through the range
      variable `f`, which Go (before 1.22) shares between iterations: when a
      walker runs, after the decoder returned, `f` is the last filter. */
  function WalkerNextPageAsWritten(ff: seq<Filter>, i: nat): Option<Cursor>
    requires i < |ff|
  {
    ff[|ff| - 1].paging.nextPage
  }

  // ---------------------------------------------------------------------------
  // The record walker

  /** mapValues: value name to value; a later value of the same name wins. */
  function ValuesMap(values: seq<RecordValue>): map<string, string>
    decreases |values|
  {
    if values == [] then map[]
    else ValuesMap(values[..|values| - 1])[values[|values| - 1].name := values[|values| - 1].value]
  }

  /** mapValues, as the walker runs it. */
  method MapValues(values: seq<RecordValue>) returns (rr: map<string, string>)
    ensures rr == ValuesMap(values)
  {
    rr := map[];
    var i := 0;
    while i < |values|
      invariant 0 <= i <= |values|
      invariant rr == ValuesMap(values[..i])
    {
      assert values[..i + 1][..i] == values[..i];
      rr := rr[values[i].name := values[i].value];
      i := i + 1;
    }
    assert values[..i] == values;
  }

  /** The map holds exactly the value names, each with the value of its last occurrence. */
  lemma {:induction false} ValuesMapIsLastValue(values: seq<RecordValue>)
    ensures forall n :: n in ValuesMap(values) <==> exists k :: 0 <= k < |values| && values[k].name == n
    ensures forall k :: 0 <= k < |values| && (forall j :: k < j < |values| ==> values[j].name != values[k].name) ==>
      values[k].name in ValuesMap(values) && ValuesMap(values)[values[k].name] == values[k].value
  {
    if values != [] {
      var init := values[..|values| - 1];
      ValuesMapIsLastValue(init);
      assert forall k :: 0 <= k < |init| ==> init[k] == values[k];
    }
  }

  function RawRecord(n: Record): RecordRaw {
    RecordRaw(
      FormatUint(n.id),
      ValuesMap(n.values),
      Timestamps(Some(n.createdAt), n.updatedAt, n.deletedAt, None),
      Userstamps(n.createdBy, n.updatedBy, n.deletedBy, n.ownedBy))
  }

  /** The result of one walk: finished with the callback's or the store's
      error (or none), or out of fuel. */
  datatype WalkResult = WalkDone(err: Option<Error>) | WalkOutOfFuel

  /** The records handed to the callback, and the first error it returned. */
  datatype Visit = Visit(visited: seq<RecordRaw>, err: Option<Error>)

  /** The callback loop over one page from row j on. */
  function VisitRows(rows: seq<Record>, j: nat, raw: Record -> RecordRaw, cb: RecordRaw -> Option<Error>): Visit
    requires j <= |rows|
    decreases |rows| - j
  {
    if j == |rows| then Visit([], None)
    else
      var r := raw(rows[j]);
      if cb(r).Some? then Visit([r], cb(r))
      else
        var v := VisitRows(rows, j + 1, raw, cb);
        Visit([r] + v.visited, v.err)
  }

  /** A page's records, as the walker converts them. */
  function Raws(rows: seq<Record>, raw: Record -> RecordRaw): (rr: seq<RecordRaw>)
    ensures |rr| == |rows| && forall k :: 0 <= k < |rows| ==> rr[k] == raw(rows[k])
  {
    seq(|rows|, k requires 0 <= k < |rows| => raw(rows[k]))
  }

  lemma RawsCons(rows: seq<Record>, j: nat, raw: Record -> RecordRaw)
    requires j < |rows|
    ensures Raws(rows[j..], raw) == [raw(rows[j])] + Raws(rows[j + 1..], raw)
  {
  }

  /** a is the first |a| elements of b. */
  ghost predicate IsPrefix<T>(a: seq<T>, b: seq<T>) {
    |a| <= |b| && b[..|a|] == a
  }

  lemma PrefixOfAppend<T>(a: seq<T>, b: seq<T>)
    ensures IsPrefix(a, a + b)
  {
    assert (a + b)[..|a|] == a;
  }

  lemma PrefixAppend<T>(a: seq<T>, b: seq<T>, c: seq<T>)
    requires IsPrefix(b, c)
    ensures IsPrefix(a + b, a + c)
  {
    assert (a + c)[..|a + b|] == a + c[..|b|];
  }

  lemma AppendAssoc<T>(a: seq<T>, b: seq<T>, c: seq<T>)
    ensures (a + b) + c == a + (b + c)
  {
  }

  lemma AppendEmpty<T>(a: seq<T>)
    ensures a + [] == a && [] + a == a
  {
  }

  /** The walker hands the callback the page's records in order, each
      converted by RawRecord: all of them when it rejects none, and
      otherwise those up to the one it rejects. */
  lemma {:induction false} VisitRowsInOrder(rows: seq<Record>, j: nat, raw: Record -> RecordRaw, cb: RecordRaw -> Option<Error>)
    requires j <= |rows|
    ensures var v := VisitRows(rows, j, raw, cb);
      IsPrefix(v.visited, Raws(rows[j..], raw)) && (v.err.None? ==> v.visited == Raws(rows[j..], raw))
    decreases |rows| - j
  {
    if j < |rows| {
      var r := raw(rows[j]);
      var tail := Raws(rows[j + 1..], raw);
      RawsCons(rows, j, raw);
      if cb(r).None? {
        VisitRowsInOrder(rows, j + 1, raw, cb);
        PrefixAppend([r], VisitRows(rows, j + 1, raw, cb).visited, tail);
      } else {
        PrefixOfAppend([r], tail);
      }
    }
  }

  /** The callback accepted every record of vv but the last, which it rejected. */
  predicate AcceptedUntilLast(cb: RecordRaw -> Option<Error>, vv: seq<RecordRaw>) {
    |vv| > 0 && cb(vv[|vv| - 1]).Some? && forall m :: 0 <= m < |vv| - 1 ==> cb(vv[m]).None?
  }

  /** The walker stops at the first record the callback rejects and returns
      that error, every earlier record having been accepted; it returns
      none only when the callback accepted them all. */
  lemma {:induction false} VisitRowsStopsAtFirstError(rows: seq<Record>, j: nat, raw: Record -> RecordRaw, cb: RecordRaw -> Option<Error>)
    requires j <= |rows|
    ensures var v := VisitRows(rows, j, raw, cb);
      (v.err.None? <==> forall m :: j <= m < |rows| ==> cb(raw(rows[m])).None?)
      && (v.err.None? ==> forall m :: 0 <= m < |v.visited| ==> cb(v.visited[m]).None?)
      && (v.err.Some? ==> AcceptedUntilLast(cb, v.visited) && v.err == cb(v.visited[|v.visited| - 1]))
    decreases |rows| - j
  {
    if j < |rows| {
      var r := raw(rows[j]);
      if cb(r).None? {
        VisitRowsStopsAtFirstError(rows, j + 1, raw, cb);
        var v' := VisitRows(rows, j + 1, raw, cb);
        assert forall m :: 1 <= m < |[r] + v'.visited| ==> ([r] + v'.visited)[m] == v'.visited[m - 1];
      }
    }
  }

  /** A filter whose page cursor is c. */
  function WithCursor(f: Filter, c: Option<Cursor>): Filter {
    f.(paging := f.paging.(pageCursor := c))
  }

  /** What a walk handed to the callback, the filters it searched with, in
      order, where it left the walker's filter, and how it ended. */
  datatype Walked = Walked(aux: Filter, visited: seq<RecordRaw>, searched: seq<Filter>, result: WalkResult)

  /** The walker's page loop, with fuel searches left. */
  function WalkPages(search: (Module, Filter) -> Result<SearchPage<Record>>, mod: Module, callerNext: Option<Cursor>,
                     aux: Filter, raw: Record -> RecordRaw, cb: RecordRaw -> Option<Error>, fuel: nat): Walked
    decreases fuel
  {
    if fuel == 0 then Walked(aux, [], [], WalkOutOfFuel)
    else
      match search(mod, aux)
      case Failure(e) => Walked(aux, [], [aux], WalkDone(Some(e)))
      case Success(page) =>
        var v := VisitRows(page.rows, 0, raw, cb);
        if v.err.Some? then Walked(aux, v.visited, [aux], WalkDone(v.err))
        else if callerNext.Some? then
          var w := WalkPages(search, mod, callerNext, WithCursor(aux, page.next), raw, cb, fuel - 1);
          Walked(w.aux, v.visited + w.visited, [aux] + w.searched, w.result)
        else Walked(aux, v.visited, [aux], WalkDone(None))
  }

  /** A walk searches at most fuel times, first with the walker's filter.
      Without a caller NextPage it searches once and keeps its filter; it
      runs out of fuel only with one. */
  lemma {:induction false} WalkPagesShape(search: (Module, Filter) -> Result<SearchPage<Record>>, mod: Module,
                                          callerNext: Option<Cursor>, aux: Filter, raw: Record -> RecordRaw, cb: RecordRaw -> Option<Error>, fuel: nat)
    ensures var w := WalkPages(search, mod, callerNext, aux, raw, cb, fuel);
      |w.searched| <= fuel && (|w.searched| > 0 <==> fuel > 0) && (fuel > 0 ==> w.searched[0] == aux)
    ensures var w := WalkPages(search, mod, callerNext, aux, raw, cb, fuel);
      w.result.WalkOutOfFuel? ==> |w.searched| == fuel && (fuel == 0 || callerNext.Some?)
    ensures var w := WalkPages(search, mod, callerNext, aux, raw, cb, fuel);
      callerNext.None? && fuel > 0 ==> w.searched == [aux] && w.aux == aux && w.result.WalkDone?
    decreases fuel
  {
    if fuel > 0 && search(mod, aux).Success? {
      var page := search(mod, aux).value;
      if VisitRows(page.rows, 0, raw, cb).err.None? && callerNext.Some? {
        WalkPagesShape(search, mod, callerNext, WithCursor(aux, page.next), raw, cb, fuel - 1);
      }
    }
  }

  /** Each filter of ss after the first is the one before it with the cursor
      the store returned for it. */
  predicate FollowsCursor(search: (Module, Filter) -> Result<SearchPage<Record>>, mod: Module, ss: seq<Filter>) {
    forall k :: 0 <= k < |ss| - 1 ==>
      search(mod, ss[k]).Success? && ss[k + 1] == WithCursor(ss[k], search(mod, ss[k]).value.next)
  }

  lemma FollowsCursorCons(search: (Module, Filter) -> Result<SearchPage<Record>>, mod: Module, f: Filter, ss: seq<Filter>)
    requires FollowsCursor(search, mod, ss)
    requires ss != [] ==> search(mod, f).Success? && ss[0] == WithCursor(f, search(mod, f).value.next)
    ensures FollowsCursor(search, mod, [f] + ss)
  {
    var ff := [f] + ss;
    forall k | 0 <= k < |ff| - 1
      ensures search(mod, ff[k]).Success? && ff[k + 1] == WithCursor(ff[k], search(mod, ff[k]).value.next)
    {
      if k > 0 {
        assert ff[k] == ss[k - 1] && ff[k + 1] == ss[k];
      }
    }
  }

  /** The walk goes on past its first page: the search succeeded, the
      callback accepted every record and the caller asked for more pages. */
  predicate WalkGoesOn(search: (Module, Filter) -> Result<SearchPage<Record>>, mod: Module,
                       callerNext: Option<Cursor>, aux: Filter, raw: Record -> RecordRaw, cb: RecordRaw -> Option<Error>) {
    search(mod, aux).Success? && VisitRows(search(mod, aux).value.rows, 0, raw, cb).err.None? && callerNext.Some?
  }

  /** A walk that goes on is its first page followed by the walk from the
      next cursor. */
  lemma WalkPagesNext(search: (Module, Filter) -> Result<SearchPage<Record>>, mod: Module,
                      callerNext: Option<Cursor>, aux: Filter, raw: Record -> RecordRaw, cb: RecordRaw -> Option<Error>, fuel: nat)
    requires fuel > 0 && WalkGoesOn(search, mod, callerNext, aux, raw, cb)
    ensures WalkPages(search, mod, callerNext, aux, raw, cb, fuel)
      == Continued(VisitRows(search(mod, aux).value.rows, 0, raw, cb).visited, [aux],
                   WalkPages(search, mod, callerNext, WithCursor(aux, search(mod, aux).value.next), raw, cb, fuel - 1))
  {
  }

  /** A walk that does not go on ends with its first search: the store's
      error, or the first page's callback outcome. */
  lemma WalkPagesLast(search: (Module, Filter) -> Result<SearchPage<Record>>, mod: Module,
                      callerNext: Option<Cursor>, aux: Filter, raw: Record -> RecordRaw, cb: RecordRaw -> Option<Error>, fuel: nat)
    requires fuel > 0 && !WalkGoesOn(search, mod, callerNext, aux, raw, cb)
    ensures var w := WalkPages(search, mod, callerNext, aux, raw, cb, fuel);
      w.aux == aux && w.searched == [aux]
      && (search(mod, aux).Failure? ==> w.visited == [] && w.result == WalkDone(Some(search(mod, aux).error)))
      && (search(mod, aux).Success? ==>
            w.visited == VisitRows(search(mod, aux).value.rows, 0, raw, cb).visited
            && w.result == WalkDone(VisitRows(search(mod, aux).value.rows, 0, raw, cb).err))
  {
  }

  /** A walk that made no search handed nothing over and ran out of fuel. */
  lemma WalkWithoutSearch(search: (Module, Filter) -> Result<SearchPage<Record>>, mod: Module,
                          callerNext: Option<Cursor>, aux: Filter, raw: Record -> RecordRaw, cb: RecordRaw -> Option<Error>, fuel: nat)
    ensures var w := WalkPages(search, mod, callerNext, aux, raw, cb, fuel);
      w.searched == [] ==> w.visited == [] && w.result == WalkOutOfFuel
  {
  }

  /** The searches of a walk: the first with the walker's filter, each next
      one with the cursor the previous page returned. */
  lemma {:induction false} WalkFollowsStoreCursor(search: (Module, Filter) -> Result<SearchPage<Record>>, mod: Module,
                                                  callerNext: Option<Cursor>, aux: Filter, raw: Record -> RecordRaw, cb: RecordRaw -> Option<Error>, fuel: nat)
    ensures FollowsCursor(search, mod, WalkPages(search, mod, callerNext, aux, raw, cb, fuel).searched)
    decreases fuel
  {
    if fuel > 0 {
      FollowsCursorCons(search, mod, aux, []);
      AppendEmpty([aux]);
      if search(mod, aux).Success? {
        var page := search(mod, aux).value;
        if VisitRows(page.rows, 0, raw, cb).err.None? && callerNext.Some? {
          var aux' := WithCursor(aux, page.next);
          var w' := WalkPages(search, mod, callerNext, aux', raw, cb, fuel - 1);
          WalkPagesShape(search, mod, callerNext, aux', raw, cb, fuel - 1);
          WalkFollowsStoreCursor(search, mod, callerNext, aux', raw, cb, fuel - 1);
          FollowsCursorCons(search, mod, aux, w'.searched);
        }
      }
    }
  }

  /** The records of the page filter f finds; none when the search fails. */
  function PageRaws(search: (Module, Filter) -> Result<SearchPage<Record>>, mod: Module, f: Filter, raw: Record -> RecordRaw): seq<RecordRaw> {
    match search(mod, f)
    case Success(page) => Raws(page.rows, raw)
    case Failure(_) => []
  }

  /** The records of the pages the filters ff find, page after page. */
  function PagesRaws(search: (Module, Filter) -> Result<SearchPage<Record>>, mod: Module, ff: seq<Filter>, raw: Record -> RecordRaw): seq<RecordRaw>
    decreases |ff|
  {
    if ff == [] then [] else PageRaws(search, mod, ff[0], raw) + PagesRaws(search, mod, ff[1..], raw)
  }

  lemma PagesRawsCons(search: (Module, Filter) -> Result<SearchPage<Record>>, mod: Module, f: Filter, ff: seq<Filter>, raw: Record -> RecordRaw)
    ensures PagesRaws(search, mod, [f] + ff, raw) == PageRaws(search, mod, f, raw) + PagesRaws(search, mod, ff, raw)
  {
    assert ([f] + ff)[1..] == ff;
  }

  /** The walk ended because the callback rejected a record of the last page
      it searched. */
  predicate CallbackStopped(search: (Module, Filter) -> Result<SearchPage<Record>>, mod: Module, w: Walked) {
    w.result.WalkDone? && w.result.err.Some? && |w.searched| > 0 && search(mod, w.searched[|w.searched| - 1]).Success?
  }

  /** The first page's records as the walk hands them over. */
  lemma FirstPageRaws(search: (Module, Filter) -> Result<SearchPage<Record>>, mod: Module, aux: Filter, raw: Record -> RecordRaw, cb: RecordRaw -> Option<Error>)
    requires search(mod, aux).Success?
    ensures var v := VisitRows(search(mod, aux).value.rows, 0, raw, cb);
      IsPrefix(v.visited, PageRaws(search, mod, aux, raw)) && (v.err.None? ==> v.visited == PageRaws(search, mod, aux, raw))
  {
    var rows := search(mod, aux).value.rows;
    VisitRowsInOrder(rows, 0, raw, cb);
    assert rows[0..] == rows;
  }

  lemma PagesRawsOne(search: (Module, Filter) -> Result<SearchPage<Record>>, mod: Module, f: Filter, raw: Record -> RecordRaw)
    ensures PagesRaws(search, mod, [f], raw) == PageRaws(search, mod, f, raw)
  {
    PagesRawsCons(search, mod, f, [], raw);
    AppendEmpty([f]);
    AppendEmpty(PageRaws(search, mod, f, raw));
  }

  /** The records handed to the callback are the searched pages' records, in
      page order and row order, up to where the walk stopped. */
  lemma {:induction false} WalkVisitsPagesInOrder(search: (Module, Filter) -> Result<SearchPage<Record>>, mod: Module,
                                                  callerNext: Option<Cursor>, aux: Filter, raw: Record -> RecordRaw, cb: RecordRaw -> Option<Error>, fuel: nat)
    ensures var w := WalkPages(search, mod, callerNext, aux, raw, cb, fuel);
      IsPrefix(w.visited, PagesRaws(search, mod, w.searched, raw))
    decreases fuel
  {
    if fuel > 0 {
      if search(mod, aux).Success? {
        FirstPageRaws(search, mod, aux, raw, cb);
      }
      if WalkGoesOn(search, mod, callerNext, aux, raw, cb) {
        var page := search(mod, aux).value;
        var aux' := WithCursor(aux, page.next);
        WalkPagesNext(search, mod, callerNext, aux, raw, cb, fuel);
        WalkVisitsPagesInOrder(search, mod, callerNext, aux', raw, cb, fuel - 1);
        InOrderStep(search, mod, aux, raw, VisitRows(page.rows, 0, raw, cb).visited,
                    WalkPages(search, mod, callerNext, aux', raw, cb, fuel - 1));
      } else {
        WalkPagesLast(search, mod, callerNext, aux, raw, cb, fuel);
        PagesRawsOne(search, mod, aux, raw);
      }
    }
  }

  /** A whole page in front of a walk whose records are a prefix of its pages'. */
  lemma InOrderStep(search: (Module, Filter) -> Result<SearchPage<Record>>, mod: Module, aux: Filter, raw: Record -> RecordRaw, v: seq<RecordRaw>, w': Walked)
    requires v == PageRaws(search, mod, aux, raw)
    requires IsPrefix(w'.visited, PagesRaws(search, mod, w'.searched, raw))
    ensures var w := Continued(v, [aux], w');
      IsPrefix(w.visited, PagesRaws(search, mod, w.searched, raw))
  {
    PagesRawsCons(search, mod, aux, w'.searched, raw);
    PrefixAppend(v, w'.visited, PagesRaws(search, mod, w'.searched, raw));
  }

  /** Unless the callback stopped the walk, it was handed every record of
      every page searched. */
  lemma {:induction false} WalkVisitsAllPages(search: (Module, Filter) -> Result<SearchPage<Record>>, mod: Module,
                                              callerNext: Option<Cursor>, aux: Filter, raw: Record -> RecordRaw, cb: RecordRaw -> Option<Error>, fuel: nat)
    ensures var w := WalkPages(search, mod, callerNext, aux, raw, cb, fuel);
      !CallbackStopped(search, mod, w) ==> w.visited == PagesRaws(search, mod, w.searched, raw)
    decreases fuel
  {
    if fuel > 0 {
      if search(mod, aux).Success? {
        FirstPageRaws(search, mod, aux, raw, cb);
      }
      if WalkGoesOn(search, mod, callerNext, aux, raw, cb) {
        var page := search(mod, aux).value;
        var aux' := WithCursor(aux, page.next);
        WalkPagesNext(search, mod, callerNext, aux, raw, cb, fuel);
        WalkVisitsAllPages(search, mod, callerNext, aux', raw, cb, fuel - 1);
        WalkWithoutSearch(search, mod, callerNext, aux', raw, cb, fuel - 1);
        AllPagesStep(search, mod, aux, raw, VisitRows(page.rows, 0, raw, cb).visited,
                     WalkPages(search, mod, callerNext, aux', raw, cb, fuel - 1));
      } else {
        WalkPagesLast(search, mod, callerNext, aux, raw, cb, fuel);
        PagesRawsOne(search, mod, aux, raw);
      }
    }
  }

  /** One whole page in front of a walk that was handed every record of the
      pages it searched. */
  lemma AllPagesStep(search: (Module, Filter) -> Result<SearchPage<Record>>, mod: Module, aux: Filter, raw: Record -> RecordRaw, v: seq<RecordRaw>, w': Walked)
    requires v == PageRaws(search, mod, aux, raw)
    requires !CallbackStopped(search, mod, w') ==> w'.visited == PagesRaws(search, mod, w'.searched, raw)
    requires w'.searched == [] ==> w'.visited == []
    ensures var w := Continued(v, [aux], w');
      !CallbackStopped(search, mod, w) ==> w.visited == PagesRaws(search, mod, w.searched, raw)
  {
    PagesRawsCons(search, mod, aux, w'.searched, raw);
    if w'.searched != [] {
      assert ([aux] + w'.searched)[|w'.searched|] == w'.searched[|w'.searched| - 1];
    }
  }

  /** A walk that ends with an error the callback did not return ends with
      the store's error for its last search. */
  lemma {:induction false} WalkStoreErrorSource(search: (Module, Filter) -> Result<SearchPage<Record>>, mod: Module,
                                                callerNext: Option<Cursor>, aux: Filter, raw: Record -> RecordRaw, cb: RecordRaw -> Option<Error>, fuel: nat)
    ensures var w := WalkPages(search, mod, callerNext, aux, raw, cb, fuel);
      w.result.WalkDone? && w.result.err.Some? && !CallbackStopped(search, mod, w) ==>
        |w.searched| > 0 && w.result.err == Some(search(mod, w.searched[|w.searched| - 1]).error)
    decreases fuel
  {
    if fuel > 0 {
      if WalkGoesOn(search, mod, callerNext, aux, raw, cb) {
        var page := search(mod, aux).value;
        var aux' := WithCursor(aux, page.next);
        WalkPagesNext(search, mod, callerNext, aux, raw, cb, fuel);
        WalkStoreErrorSource(search, mod, callerNext, aux', raw, cb, fuel - 1);
        StoreErrorStep(search, mod, aux, VisitRows(page.rows, 0, raw, cb).visited,
                       WalkPages(search, mod, callerNext, aux', raw, cb, fuel - 1));
      } else {
        WalkPagesLast(search, mod, callerNext, aux, raw, cb, fuel);
      }
    }
  }

  /** One page more in front of a walk whose store error is its last search's. */
  lemma StoreErrorStep(search: (Module, Filter) -> Result<SearchPage<Record>>, mod: Module, aux: Filter, v: seq<RecordRaw>, w': Walked)
    requires w'.result.WalkDone? && w'.result.err.Some? && !CallbackStopped(search, mod, w') ==>
      |w'.searched| > 0 && w'.result.err == Some(search(mod, w'.searched[|w'.searched| - 1]).error)
    ensures var w := Continued(v, [aux], w');
      w.result.WalkDone? && w.result.err.Some? && !CallbackStopped(search, mod, w) ==>
        |w.searched| > 0 && w.result.err == Some(search(mod, w.searched[|w.searched| - 1]).error)
  {
    if w'.searched != [] {
      assert ([aux] + w'.searched)[|w'.searched|] == w'.searched[|w'.searched| - 1];
    }
  }

  /** A walk the callback stopped ends with the callback's error for the last
      record it was handed, every earlier record having been accepted. */
  lemma {:induction false} WalkCallbackErrorSource(search: (Module, Filter) -> Result<SearchPage<Record>>, mod: Module,
                                                   callerNext: Option<Cursor>, aux: Filter, raw: Record -> RecordRaw, cb: RecordRaw -> Option<Error>, fuel: nat)
    ensures var w := WalkPages(search, mod, callerNext, aux, raw, cb, fuel);
      CallbackStopped(search, mod, w) ==> AcceptedUntilLast(cb, w.visited) && w.result.err == cb(w.visited[|w.visited| - 1])
    decreases fuel
  {
    if fuel > 0 {
      if WalkGoesOn(search, mod, callerNext, aux, raw, cb) {
        var page := search(mod, aux).value;
        var v := VisitRows(page.rows, 0, raw, cb).visited;
        var aux' := WithCursor(aux, page.next);
        WalkPagesNext(search, mod, callerNext, aux, raw, cb, fuel);
        WalkCallbackErrorSource(search, mod, callerNext, aux', raw, cb, fuel - 1);
        WalkWithoutSearch(search, mod, callerNext, aux', raw, cb, fuel - 1);
        assert forall m :: 0 <= m < |v| ==> cb(v[m]).None? by {
          VisitRowsStopsAtFirstError(page.rows, 0, raw, cb);
        }
        CallbackErrorStep(search, mod, cb, aux, v, WalkPages(search, mod, callerNext, aux', raw, cb, fuel - 1));
      } else {
        CallbackErrorLast(search, mod, callerNext, aux, raw, cb, fuel);
      }
    }
  }

  /** A walk the callback stopped on its only page. */
  lemma CallbackErrorLast(search: (Module, Filter) -> Result<SearchPage<Record>>, mod: Module,
                          callerNext: Option<Cursor>, aux: Filter, raw: Record -> RecordRaw, cb: RecordRaw -> Option<Error>, fuel: nat)
    requires fuel > 0 && !WalkGoesOn(search, mod, callerNext, aux, raw, cb)
    ensures var w := WalkPages(search, mod, callerNext, aux, raw, cb, fuel);
      CallbackStopped(search, mod, w) ==> AcceptedUntilLast(cb, w.visited) && w.result.err == cb(w.visited[|w.visited| - 1])
  {
    WalkPagesLast(search, mod, callerNext, aux, raw, cb, fuel);
    if search(mod, aux).Success? {
      VisitRowsStopsAtFirstError(search(mod, aux).value.rows, 0, raw, cb);
    }
  }

  /** Accepted records in front of a walk the callback stopped. */
  lemma CallbackErrorStep(search: (Module, Filter) -> Result<SearchPage<Record>>, mod: Module, cb: RecordRaw -> Option<Error>,
                          aux: Filter, v: seq<RecordRaw>, w': Walked)
    requires forall m :: 0 <= m < |v| ==> cb(v[m]).None?
    requires w'.searched == [] ==> w'.result == WalkOutOfFuel
    requires CallbackStopped(search, mod, w') ==> AcceptedUntilLast(cb, w'.visited) && w'.result.err == cb(w'.visited[|w'.visited| - 1])
    ensures var w := Continued(v, [aux], w');
      CallbackStopped(search, mod, w) ==> AcceptedUntilLast(cb, w.visited) && w.result.err == cb(w.visited[|w.visited| - 1])
  {
    if w'.searched != [] {
      assert ([aux] + w'.searched)[|w'.searched|] == w'.searched[|w'.searched| - 1];
      if CallbackStopped(search, mod, w') {
        AcceptedAfter(cb, v, w'.visited);
      }
    }
  }

  /** Records all accepted, followed by records accepted until the last. */
  lemma AcceptedAfter(cb: RecordRaw -> Option<Error>, a: seq<RecordRaw>, b: seq<RecordRaw>)
    requires forall m :: 0 <= m < |a| ==> cb(a[m]).None?
    requires AcceptedUntilLast(cb, b)
    ensures AcceptedUntilLast(cb, a + b) && (a + b)[|a + b| - 1] == b[|b| - 1]
  {
    assert forall m :: |a| <= m < |a + b| ==> (a + b)[m] == b[m - |a|];
  }

  /** With a caller NextPage set, the walker leaves only on a store error
      or a callback error: a store that always answers and a callback that
      accepts every record make it run until the fuel is gone. */
  lemma {:induction false} WalkCallerCursorNeverStops(search: (Module, Filter) -> Result<SearchPage<Record>>, mod: Module,
                                                      callerNext: Option<Cursor>, aux: Filter, raw: Record -> RecordRaw, cb: RecordRaw -> Option<Error>, fuel: nat)
    requires callerNext.Some?
    requires forall a :: search(mod, a).Success?
    requires forall r :: cb(r).None?
    ensures WalkPages(search, mod, callerNext, aux, raw, cb, fuel).result == WalkOutOfFuel
    decreases fuel
  {
    if fuel > 0 {
      var page := search(mod, aux).value;
      VisitRowsStopsAtFirstError(page.rows, 0, raw, cb);
      WalkCallerCursorNeverStops(search, mod, callerNext, WithCursor(aux, page.next), raw, cb, fuel - 1);
    }
  }

  /** Record filters where the first asks to follow the store's cursor and
      the last does not. As written, the first filter's walker tests the
      last filter's NextPage and reads one page only; with its own NextPage
      it goes on to the next page. */
  lemma WalkerAsWrittenReadsOnePage(search: (Module, Filter) -> Result<SearchPage<Record>>, mod: Module, ff: seq<Filter>,
                                    raw: Record -> RecordRaw, cb: RecordRaw -> Option<Error>, fuel: nat)
    requires |ff| >= 2 && ff[0].paging.nextPage.Some? && ff[|ff| - 1].paging.nextPage.None?
    requires search(mod, WithDefaultLimit(ff[0])).Success?
    requires forall r :: cb(r).None?
    requires fuel >= 2
    ensures var w := WalkPages(search, mod, WalkerNextPageAsWritten(ff, 0), WithDefaultLimit(ff[0]), raw, cb, fuel);
      w.searched == [WithDefaultLimit(ff[0])] && w.result == WalkDone(None)
    ensures var w := WalkPages(search, mod, ff[0].paging.nextPage, WithDefaultLimit(ff[0]), raw, cb, fuel);
      |w.searched| >= 2 && w.searched[1] == WithCursor(WithDefaultLimit(ff[0]), search(mod, WithDefaultLimit(ff[0])).value.next)
  {
    var aux := WithDefaultLimit(ff[0]);
    var page := search(mod, aux).value;
    VisitRowsStopsAtFirstError(page.rows, 0, raw, cb);
    WalkPagesShape(search, mod, WalkerNextPageAsWritten(ff, 0), aux, raw, cb, fuel);
    WalkPagesShape(search, mod, ff[0].paging.nextPage, WithCursor(aux, page.next), raw, cb, fuel - 1);
  }

  /** The walker's callback loop over one page: each record converted by
      RawRecord and handed to cb, stopping at the first error. */
  method VisitPage(rows: seq<Record>, cb: RecordRaw -> Option<Error>) returns (err: Option<Error>, ghost visited: seq<RecordRaw>)
    ensures VisitRows(rows, 0, RawRecord, cb) == Visit(visited, err)
  {
    visited := [];
    var j := 0;
    while j < |rows|
      invariant 0 <= j <= |rows|
      invariant VisitRows(rows, 0, RawRecord, cb)
        == Visit(visited + VisitRows(rows, j, RawRecord, cb).visited, VisitRows(rows, j, RawRecord, cb).err)
    {
      var n := rows[j];
      var values := MapValues(n.values);
      var r := RecordRaw(
        FormatUint(n.id), values,
        Timestamps(Some(n.createdAt), n.updatedAt, n.deletedAt, None),
        Userstamps(n.createdBy, n.updatedBy, n.deletedBy, n.ownedBy));
      assert r == RawRecord(n);
      err := cb(r);
      if err.Some? {
        visited := visited + [r];
        return;
      }
      AppendAssoc(visited, [r], VisitRows(rows, j + 1, RawRecord, cb).visited);
      visited := visited + [r];
      j := j + 1;
    }
    AppendEmpty(visited);
    return None, visited;
  }

  /** Where a walk that began with the records visited and the filters
      searched goes on as w. */
  function Continued(visited: seq<RecordRaw>, searched: seq<Filter>, w: Walked): Walked {
    Walked(w.aux, visited + w.visited, searched + w.searched, w.result)
  }

  /** The lazy record producer: it keeps the filter copy it was created with
      and advances that copy's cursor as it pages. */
  class RecordWalker {
    var aux: Filter
    const callerNext: Option<Cursor>
    const mod: Module
    const search: (Module, Filter) -> Result<SearchPage<Record>>

    constructor (aux: Filter, callerNext: Option<Cursor>, mod: Module, search: (Module, Filter) -> Result<SearchPage<Record>>)
      ensures this.aux == aux && this.callerNext == callerNext && this.mod == mod && this.search == search
    {
      this.aux := aux;
      this.callerNext := callerNext;
      this.mod := mod;
      this.search := search;
    }

    /** walker(cb): search, hand every record to cb, stop at the first error. */
    method Walk(cb: RecordRaw -> Option<Error>, fuel: nat) returns (out: WalkResult, ghost visited: seq<RecordRaw>, ghost searched: seq<Filter>)
      modifies this
      ensures WalkPages(search, mod, callerNext, old(aux), RawRecord, cb, fuel) == Walked(aux, visited, searched, out)
    {
      visited, searched := [], [];
      var left := fuel;
      ghost var goal := WalkPages(search, mod, callerNext, aux, RawRecord, cb, fuel);
      AppendEmpty(goal.visited);
      AppendEmpty(goal.searched);
      while true
        invariant goal == Continued(visited, searched, WalkPages(search, mod, callerNext, aux, RawRecord, cb, left))
        decreases left
      {
        if left == 0 {
          AppendEmpty(visited);
          AppendEmpty(searched);
          return WalkOutOfFuel, visited, searched;
        }
        var r := search(mod, aux);
        if r.Failure? {
          AppendEmpty(visited);
          searched := searched + [aux];
          return WalkDone(Some(r.error)), visited, searched;
        }
        var page := r.value;
        var err;
        ghost var pv;
        err, pv := VisitPage(page.rows, cb);
        if err.Some? {
          visited, searched := visited + pv, searched + [aux];
          return WalkDone(err), visited, searched;
        }
        ghost var w' := WalkPages(search, mod, callerNext, WithCursor(aux, page.next), RawRecord, cb, left - 1);
        AppendAssoc(visited, pv, w'.visited);
        AppendAssoc(searched, [aux], w'.searched);
        visited, searched := visited + pv, searched + [aux];
        if callerNext.Some? {
          aux := WithCursor(aux, page.next);
          left := left - 1;
        } else {
          AppendEmpty(visited);
          AppendEmpty(searched);
          return WalkDone(None), visited, searched;
        }
      }
    }
  }

  // ---------------------------------------------------------------------------
  // The filter builder

  /** DecodeFilter: the filters collected per kind before a decode runs. */
  class DecodeFilter {
    var composeNamespace: seq<Filter>
    var composeModule: seq<Filter>
    var composeRecord: seq<Filter>
    var composePage: seq<Filter>
    var composeChart: seq<Filter>

    constructor ()
      ensures composeNamespace == [] && composeModule == [] && composeRecord == []
      ensures composePage == [] && composeChart == []
    {
      composeNamespace, composeModule, composeRecord, composePage, composeChart := [], [], [], [], [];
    }

    method ComposeNamespace(f: Filter) returns (df: DecodeFilter)
      modifies this
      ensures df == this && composeNamespace == old(composeNamespace) + [f]
      ensures composeModule == old(composeModule) && composeRecord == old(composeRecord)
      ensures composePage == old(composePage) && composeChart == old(composeChart)
    {
      composeNamespace := composeNamespace + [f];
      return this;
    }

    method ComposeModule(f: Filter) returns (df: DecodeFilter)
      modifies this
      ensures df == this && composeModule == old(composeModule) + [f]
      ensures composeNamespace == old(composeNamespace) && composeRecord == old(composeRecord)
      ensures composePage == old(composePage) && composeChart == old(composeChart)
    {
      composeModule := composeModule + [f];
      return this;
    }

    method ComposeRecord(f: Filter) returns (df: DecodeFilter)
      modifies this
      ensures df == this && composeRecord == old(composeRecord) + [f]
      ensures composeNamespace == old(composeNamespace) && composeModule == old(composeModule)
      ensures composePage == old(composePage) && composeChart == old(composeChart)
    {
      composeRecord := composeRecord + [f];
      return this;
    }

    method ComposePage(f: Filter) returns (df: DecodeFilter)
      modifies this
      ensures df == this && composePage == old(composePage) + [f]
      ensures composeNamespace == old(composeNamespace) && composeModule == old(composeModule)
      ensures composeRecord == old(composeRecord) && composeChart == old(composeChart)
    {
      composePage := composePage + [f];
      return this;
    }

    method ComposeChart(f: Filter) returns (df: DecodeFilter)
      modifies this
      ensures df == this && composeChart == old(composeChart) + [f]
      ensures composeNamespace == old(composeNamespace) && composeModule == old(composeModule)
      ensures composeRecord == old(composeRecord) && composePage == old(composePage)
    {
      composeChart := composeChart + [f];
      return this;
    }
  }
}
