/** The compose store rows the envoy layer reads and writes, restricted to the
    fields the modelled code touches. Block options are free-form JSON-like
    values. */
module ComposeTypes {
  import opened Resource

  /** A decoded `interface{}` option value. */
  datatype Json =
    | JString(str: string)
    | JList(items: seq<Json>)
    | JObject(fields: map<string, Json>)
    | JOther(raw: string)   // numbers, booleans, null

  datatype Namespace = Namespace(id: nat, slug: string, name: string)

  datatype ModuleField = ModuleField(id: nat, name: string, kind: string)

  datatype Module = Module(id: nat, namespaceID: nat, handle: string, name: string, fields: seq<ModuleField>)

  datatype PageBlock = PageBlock(kind: string, title: string, options: map<string, Json>)

  datatype Page = Page(
    id: nat,
    namespaceID: nat,
    moduleID: nat,
    selfID: nat,
    handle: string,
    title: string,
    blocks: seq<PageBlock>,
    createdAt: Time,
    updatedAt: Option<Time>,
    deletedAt: Option<Time>)

  datatype Chart = Chart(
    id: nat,
    namespaceID: nat,
    handle: string,
    name: string,
    createdAt: Time,
    updatedAt: Option<Time>,
    deletedAt: Option<Time>)

  datatype RecordValue = RecordValue(name: string, value: string)

  datatype Record = Record(
    id: nat,
    moduleID: nat,
    values: seq<RecordValue>,
    createdAt: Time,
    updatedAt: Option<Time>,
    deletedAt: Option<Time>,
    createdBy: nat,
    updatedBy: nat,
    deletedBy: nat,
    ownedBy: nat)

  datatype User = User(id: nat, handle: string, email: string)
}
