/**
 * The resource records the front end exchanges with the hub, reduced to the
 * fields the modelled code reads or writes.
 */
module Models {
  import opened Common

  /** A reference to another resource: `{ id, name }`. */
  datatype Ref = Ref(id: int, name: string)

  /** A stored credential; `kind` is "source", "maven", "proxy", ... */
  datatype Identity = Identity(id: int, name: string, kind: string)

  /** The source repository of an application; only its kind ("git", "subversion") is read. */
  datatype Repository = Repository(kind: Option<string>)

  /** An application of the inventory. Optional fields are `None` when the hub leaves them out. */
  datatype Application = Application(
    id: int,
    name: string,
    description: Option<string>,
    businessService: Option<Ref>,
    identities: Option<seq<Ref>>,
    repository: Option<Repository>,
    binary: Option<string>,
    tags: Option<seq<Ref>>,
    migrationWave: Option<Ref>)

  /** The `{ id, name }` reference to an application. */
  function RefOf(app: Application): Ref
  {
    Ref(app.id, app.name)
  }

  /** The references to the applications, in order. */
  function ApplicationRefs(apps: seq<Application>): (refs: seq<Ref>)
    ensures |refs| == |apps|
    ensures forall i :: 0 <= i < |apps| ==> refs[i] == RefOf(apps[i])
  {
    seq(|apps|, i requires 0 <= i < |apps| => RefOf(apps[i]))
  }

  /** `refs.map((r) => r.name)` */
  function RefNames(refs: seq<Ref>): (names: seq<string>)
    ensures |names| == |refs|
    ensures forall i :: 0 <= i < |refs| ==> names[i] == refs[i].name
  {
    seq(|refs|, i requires 0 <= i < |refs| => refs[i].name)
  }
}
