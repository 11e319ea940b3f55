/**
 * The dependency editor of an application
 * (client/src/app/components/ApplicationDependenciesFormContainer/ApplicationDependenciesForm.tsx):
 * the northbound dependencies (other applications this one depends on being
 * called by: `to` is this application) and the southbound ones (`from` is this
 * application), the ids already mapped, and the candidate options offered on
 * each side.
 */
module DependenciesForm {
  import opened Common
  import opened Models

  /** An application dependency; a new one has no id yet. */
  datatype Dependency = Dependency(id: Option<int>, from: Ref, to: Ref)

  /** A select option holding a dependency and the text `toString()` shows for it. */
  datatype DependencyOption = DependencyOption(value: Dependency, text: string)

  datatype Side = North | South

  /** `northToStringFn` shows the `from` name, `southToStringFn` the `to` name. */
  function ToStringFn(side: Side, value: Dependency): string
  {
    match side
    case North => value.from.name
    case South => value.to.name
  }

  /** `dependencyToOption` */
  function DependencyToOption(value: Dependency, side: Side): (option: DependencyOption)
    ensures option.value == value
    ensures side == North ==> option.text == value.from.name
    ensures side == South ==> option.text == value.to.name
  {
    DependencyOption(value, ToStringFn(side, value))
  }

  function ToOptions(values: seq<Dependency>, side: Side): (options: seq<DependencyOption>)
    ensures |options| == |values|
    ensures forall i :: 0 <= i < |values| ==> options[i] == DependencyToOption(values[i], side)
  {
    seq(|values|, i requires 0 <= i < |values| => DependencyToOption(values[i], side))
  }

  // ---------------------------------------------------------------------------
  // Current dependencies

  /** `filter((f) => f.to.id === appId)`: the dependencies into the application, in fetched order. */
  function Incoming(deps: seq<Dependency>, appId: int): (r: seq<Dependency>)
    ensures forall d :: d in r <==> d in deps && d.to.id == appId
    ensures |r| <= |deps| && IsSubsequence(r, deps)
    ensures forall d :: multiset(r)[d] == if d.to.id == appId then multiset(deps)[d] else 0
  {
    Filter(deps, (d: Dependency) => d.to.id == appId)
  }

  /** `filter((f) => f.from.id === appId)`: the dependencies out of the application, in fetched order. */
  function Outgoing(deps: seq<Dependency>, appId: int): (r: seq<Dependency>)
    ensures forall d :: d in r <==> d in deps && d.from.id == appId
    ensures |r| <= |deps| && IsSubsequence(r, deps)
    ensures forall d :: multiset(r)[d] == if d.from.id == appId then multiset(deps)[d] else 0
  {
    Filter(deps, (d: Dependency) => d.from.id == appId)
  }

  /** The options of `kept` are exactly the options, for `side`, of the dependencies in `kept`. */
  lemma ToOptionsMembers(kept: seq<Dependency>, side: Side, o: DependencyOption)
    ensures o in ToOptions(kept, side) <==> o.value in kept && o == DependencyToOption(o.value, side)
  {
    var options := ToOptions(kept, side);
    if o in options {
      var k :| 0 <= k < |options| && options[k] == o;
      assert kept[k] == o.value;
    }
    if o.value in kept && o == DependencyToOption(o.value, side) {
      var k :| 0 <= k < |kept| && kept[k] == o.value;
      assert options[k] == o;
    }
  }

  /**
   * The northbound list: when the fetched dependencies are there, those whose
   * `to` is the application, in fetched order, shown by their `from` name;
   * otherwise the list stays as it was.
   */
  function Northbound(fetched: Option<seq<Dependency>>, appId: int, current: seq<DependencyOption>): (r: seq<DependencyOption>)
    ensures fetched.None? ==> r == current
    ensures fetched.Some? ==> |r| == |Incoming(fetched.value, appId)| <= |fetched.value|
    ensures fetched.Some? ==> forall i :: 0 <= i < |r| ==> r[i] == DependencyToOption(Incoming(fetched.value, appId)[i], North)
    ensures fetched.Some? ==> forall o :: o in r <==>
      o.value in fetched.value && o.value.to.id == appId && o == DependencyToOption(o.value, North)
  {
    if fetched.None? then current
    else
      var kept := Incoming(fetched.value, appId);
      var r := ToOptions(kept, North);
      assert forall o :: o in r <==> o.value in kept && o == DependencyToOption(o.value, North) by {
        forall o {
          ToOptionsMembers(kept, North, o);
        }
      }
      r
  }

  /**
   * The southbound list: when the fetched dependencies are there, those whose
   * `from` is the application, in fetched order, shown by their `to` name;
   * otherwise the list stays as it was.
   */
  function Southbound(fetched: Option<seq<Dependency>>, appId: int, current: seq<DependencyOption>): (r: seq<DependencyOption>)
    ensures fetched.None? ==> r == current
    ensures fetched.Some? ==> |r| == |Outgoing(fetched.value, appId)| <= |fetched.value|
    ensures fetched.Some? ==> forall i :: 0 <= i < |r| ==> r[i] == DependencyToOption(Outgoing(fetched.value, appId)[i], South)
    ensures fetched.Some? ==> forall o :: o in r <==>
      o.value in fetched.value && o.value.from.id == appId && o == DependencyToOption(o.value, South)
  {
    if fetched.None? then current
    else
      var kept := Outgoing(fetched.value, appId);
      var r := ToOptions(kept, South);
      assert forall o :: o in r <==> o.value in kept && o == DependencyToOption(o.value, South) by {
        forall o {
          ToOptionsMembers(kept, South, o);
        }
      }
      r
  }

  /** `existingDependencyMappings`: the southbound `to` ids, then the northbound `from` ids. */
  function ExistingDependencyMappings(south: seq<DependencyOption>, north: seq<DependencyOption>): (ids: seq<int>)
    ensures |ids| == |south| + |north|
    ensures forall i :: 0 <= i < |south| ==> ids[i] == south[i].value.to.id
    ensures forall i :: 0 <= i < |north| ==> ids[|south| + i] == north[i].value.from.id
  {
    seq(|south|, i requires 0 <= i < |south| => south[i].value.to.id)
    + seq(|north|, i requires 0 <= i < |north| => north[i].value.from.id)
  }

  /** Every mapped id comes from a southbound or a northbound dependency of the application. */
  lemma MappedIdsHaveDependency(south: seq<DependencyOption>, north: seq<DependencyOption>, k: nat)
    requires k < |south| + |north|
    ensures k < |south| ==> ExistingDependencyMappings(south, north)[k] == south[k].value.to.id && south[k] in south
    ensures |south| <= k ==> ExistingDependencyMappings(south, north)[k] == north[k - |south|].value.from.id && north[k - |south|] in north
  {
  }

  /**
   * With both lists freshly derived, an id is mapped exactly when some
   * dependency links the application to it (southbound) or it to the
   * application (northbound).
   */
  lemma MappedIds(southFetched: seq<Dependency>, northFetched: seq<Dependency>, appId: int, x: int, current: seq<DependencyOption>)
    ensures var south := Southbound(Some(southFetched), appId, current);
      var north := Northbound(Some(northFetched), appId, current);
      x in ExistingDependencyMappings(south, north) <==>
        (exists d :: d in southFetched && d.from.id == appId && d.to.id == x) ||
        (exists d :: d in northFetched && d.to.id == appId && d.from.id == x)
  {
    var south := Southbound(Some(southFetched), appId, current);
    var north := Northbound(Some(northFetched), appId, current);
    var ids := ExistingDependencyMappings(south, north);
    if x in ids {
      var k :| 0 <= k < |ids| && ids[k] == x;
      MappedIdsHaveDependency(south, north, k);
    }
    if exists d :: d in southFetched && d.from.id == appId && d.to.id == x {
      var d :| d in southFetched && d.from.id == appId && d.to.id == x;
      SouthboundMapped(southFetched, north, appId, d, current);
    }
    if exists d :: d in northFetched && d.to.id == appId && d.from.id == x {
      var d :| d in northFetched && d.to.id == appId && d.from.id == x;
      NorthboundMapped(south, northFetched, appId, d, current);
    }
  }

  lemma SouthboundMapped(southFetched: seq<Dependency>, north: seq<DependencyOption>, appId: int, d: Dependency, current: seq<DependencyOption>)
    requires d in southFetched && d.from.id == appId
    ensures d.to.id in ExistingDependencyMappings(Southbound(Some(southFetched), appId, current), north)
  {
    var south := Southbound(Some(southFetched), appId, current);
    assert DependencyToOption(d, South) in south;
    var k :| 0 <= k < |south| && south[k] == DependencyToOption(d, South);
    assert ExistingDependencyMappings(south, north)[k] == d.to.id;
  }

  lemma NorthboundMapped(south: seq<DependencyOption>, northFetched: seq<Dependency>, appId: int, d: Dependency, current: seq<DependencyOption>)
    requires d in northFetched && d.to.id == appId
    ensures d.from.id in ExistingDependencyMappings(south, Northbound(Some(northFetched), appId, current))
  {
    var north := Northbound(Some(northFetched), appId, current);
    assert DependencyToOption(d, North) in north;
    var k :| 0 <= k < |north| && north[k] == DependencyToOption(d, North);
    assert ExistingDependencyMappings(south, north)[|south| + k] == d.from.id;
  }

  // ---------------------------------------------------------------------------
  // Options offered

  /**
   * The applications offered on either side: all applications but this one,
   * then only those whose id is not already mapped, in application order.
   */
  function Candidates(applications: Option<seq<Application>>, app: Application, existing: seq<int>): (r: seq<Application>)
    ensures forall c :: c in r <==> c in applications.GetOr([]) && c.id != app.id && c.id !in existing
    ensures IsSubsequence(r, applications.GetOr([]))
    ensures forall c :: multiset(r)[c] ==
                        if c.id != app.id && c.id !in existing then multiset(applications.GetOr([]))[c] else 0
  {
    var others := Filter(applications.GetOr([]), (f: Application) => f.id != app.id);
    var r := Filter(others, (f: Application) => f.id !in existing);
    SubsequenceTransitive(r, others, applications.GetOr([]));
    assert forall c :: multiset(r)[c] == if c.id !in existing then multiset(others)[c] else 0;
    r
  }

  /** The northbound options: a new dependency from each candidate to the application, shown by the candidate's name. */
  function NorthOptions(applications: Option<seq<Application>>, app: Application, existing: seq<int>): (options: seq<DependencyOption>)
    ensures var c := Candidates(applications, app, existing);
      |options| == |c| &&
      forall i :: 0 <= i < |c| ==> options[i] == DependencyOption(Dependency(None, RefOf(c[i]), RefOf(app)), c[i].name)
  {
    var c := Candidates(applications, app, existing);
    seq(|c|, i requires 0 <= i < |c| => DependencyToOption(Dependency(None, RefOf(c[i]), RefOf(app)), North))
  }

  /** The southbound options: a new dependency from the application to each candidate, shown by the candidate's name. */
  function SouthOptions(applications: Option<seq<Application>>, app: Application, existing: seq<int>): (options: seq<DependencyOption>)
    ensures var c := Candidates(applications, app, existing);
      |options| == |c| &&
      forall i :: 0 <= i < |c| ==> options[i] == DependencyOption(Dependency(None, RefOf(app), RefOf(c[i])), c[i].name)
  {
    var c := Candidates(applications, app, existing);
    seq(|c|, i requires 0 <= i < |c| => DependencyToOption(Dependency(None, RefOf(app), RefOf(c[i])), South))
  }

  /** No option links the application to itself or to an application already mapped. */
  lemma OptionsExcludeSelfAndMapped(applications: Option<seq<Application>>, app: Application, existing: seq<int>, i: nat)
    ensures i < |NorthOptions(applications, app, existing)| ==>
      var d := NorthOptions(applications, app, existing)[i].value;
      d.to.id == app.id && d.from.id != app.id && d.from.id !in existing
    ensures i < |SouthOptions(applications, app, existing)| ==>
      var d := SouthOptions(applications, app, existing)[i].value;
      d.from.id == app.id && d.to.id != app.id && d.to.id !in existing
  {
    var c := Candidates(applications, app, existing);
    if i < |c| {
      assert c[i] in c;
    }
  }

  /** Both sides offer the same candidates, in the same order. */
  lemma SidesOfferSameCandidates(applications: Option<seq<Application>>, app: Application, existing: seq<int>)
    ensures |NorthOptions(applications, app, existing)| == |SouthOptions(applications, app, existing)|
    ensures forall i :: 0 <= i < |NorthOptions(applications, app, existing)| ==>
      NorthOptions(applications, app, existing)[i].value.from == SouthOptions(applications, app, existing)[i].value.to
  {
  }

  /** The close button is disabled while either side is being saved. */
  function CloseDisabled(isNorthBeingSaved: bool, isSouthBeingSaved: bool): (disabled: bool)
    ensures !disabled <==> !isNorthBeingSaved && !isSouthBeingSaved
  {
    isNorthBeingSaved || isSouthBeingSaved
  }
}
