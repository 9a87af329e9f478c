/** The vocabulary the envoy layer shares between its decoders and encoders:
    optional values and errors, identifier sets, typed references with their
    constraints, the conflict policy and the creation/update stamps. The
    helpers that build identifier sets and references live in files that are
    not part of this model; they are given set semantics here. */
module Resource {

  datatype Option<T> = None | Some(value: T)

  datatype Result<T> = Success(value: T) | Failure(error: Error)

  /** The kinds of graph node the compose envoy knows about. */
  datatype ResourceType =
    | ComposeNamespaceType
    | ComposeModuleType
    | ComposePageType
    | ComposeChartType
    | ComposeRecordType
    | OtherType(name: string)

  /** Handles, names and decimal IDs under which a node can be found. */
  type Identifiers = set<string>

  /** MakeIdentifiers / AddIdentifier: the non-blank candidates, as a set. */
  function MakeIdentifiers(candidates: seq<string>): (ii: Identifiers)
    ensures forall s :: s in ii <==> s in candidates && s != ""
  {
    set s | s in candidates && s != ""
  }

  /** Identifiers.HasAny: the two sets share an identifier. */
  predicate HasAny(ii: Identifiers, query: Identifiers) {
    ii * query != {}
  }

  /** A symbolic reference to a node of some kind, optionally constrained by
      other references that must resolve first (a module inside a namespace). */
  datatype Ref = Ref(resourceType: ResourceType, identifiers: Identifiers, constraints: seq<Ref>)

  /** AddRef: a fresh, unconstrained reference. */
  function AddRef(rt: ResourceType, candidates: seq<string>): (r: Ref)
    ensures r.resourceType == rt && r.constraints == []
    ensures forall s :: s in r.identifiers <==> s in candidates && s != ""
  {
    Ref(rt, MakeIdentifiers(candidates), [])
  }

  /** Ref.Constraint: scope a reference by another one. */
  function Constraint(r: Ref, scope: Ref): (c: Ref)
    ensures c.resourceType == r.resourceType && c.identifiers == r.identifiers
    ensures c.constraints == r.constraints + [scope]
  {
    r.(constraints := r.constraints + [scope])
  }

  datatype Error =
    | Unresolved(resourceType: ResourceType, identifiers: Identifiers)  // "<kind> unresolved [ids]"
    | StoreError(reason: string)        // any failure reported by the store, passed on verbatim
    | NilDereference                    // Go would panic on a nil pointer here
    | PageDoesNotExist                  // yaml: no page matched the parent identifier

  /** The policy applied when the node to write already has a row in the store.
      Values of the enum that the page encoder does not name share one case. */
  datatype MergeAlg = Skip | MergeLeft | MergeRight | OtherMergeAlg

  /** Timestamps are opaque to this layer. */
  type Time = nat

  datatype Timestamps = Timestamps(
    createdAt: Option<Time>,
    updatedAt: Option<Time>,
    deletedAt: Option<Time>,
    archivedAt: Option<Time>)

  datatype Userstamps = Userstamps(createdBy: nat, updatedBy: nat, deletedBy: nat, ownedBy: nat)
}
