/**
 * Bulk credential assignment
 * (client/src/app/pages/applications/components/application-identity-form/application-identity-form.tsx):
 * the source and Maven credential options, the update sent for each selected
 * application when the form is submitted, the default name field and when
 * Save is enabled.
 */
module IdentityForm {
  import opened Common
  import opened Models

  /** The submitted form: the chosen credentials are names, absent when nothing was chosen. */
  datatype FormValues = FormValues(applicationName: string, sourceCredentials: Option<string>, mavenSettings: Option<string>)

  /** A select option: the identity name as value and as shown text. */
  datatype IdentityOption = IdentityOption(value: string, text: string)

  const SourceKind := "source"
  const MavenKind := "maven"

  // ---------------------------------------------------------------------------
  // Options

  /** `identities.filter((identity) => identity.kind === kind)`: the identities of one kind, in input order. */
  function IdentitiesOfKind(identities: seq<Identity>, kind: string): (r: seq<Identity>)
    ensures forall identity :: identity in r <==> identity in identities && identity.kind == kind
    ensures |r| <= |identities| && IsSubsequence(r, identities)
    ensures forall identity :: multiset(r)[identity] == if identity.kind == kind then multiset(identities)[identity] else 0
  {
    Filter(identities, (identity: Identity) => identity.kind == kind)
  }

  /** The identities of one kind, each offered by its name, in input order. */
  function IdentityOptions(identities: seq<Identity>, kind: string): (options: seq<IdentityOption>)
    ensures |options| == |IdentitiesOfKind(identities, kind)| <= |identities|
    ensures forall i :: 0 <= i < |options| ==>
      options[i] == IdentityOption(IdentitiesOfKind(identities, kind)[i].name, IdentitiesOfKind(identities, kind)[i].name)
    ensures forall o :: o in options <==>
      exists i :: 0 <= i < |identities| && identities[i].kind == kind && o == IdentityOption(identities[i].name, identities[i].name)
  {
    var ofKind := IdentitiesOfKind(identities, kind);
    var options := seq(|ofKind|, i requires 0 <= i < |ofKind| => IdentityOption(ofKind[i].name, ofKind[i].name));
    forall o | o in options
      ensures exists i :: 0 <= i < |identities| && identities[i].kind == kind && o == IdentityOption(identities[i].name, identities[i].name)
    {
      var j :| 0 <= j < |ofKind| && o == options[j];
      assert ofKind[j] in ofKind;
      var i :| 0 <= i < |identities| && identities[i] == ofKind[j];
    }
    assert forall i :: 0 <= i < |identities| && identities[i].kind == kind ==>
      identities[i] in ofKind && IdentityOption(identities[i].name, identities[i].name) in options by {
      forall i | 0 <= i < |identities| && identities[i].kind == kind
        ensures IdentityOption(identities[i].name, identities[i].name) in options
      {
        assert identities[i] in ofKind;
        var j :| 0 <= j < |ofKind| && ofKind[j] == identities[i];
        assert options[j] == IdentityOption(identities[i].name, identities[i].name);
      }
    }
    options
  }

  /** `sourceIdentityOptions` */
  function SourceIdentityOptions(identities: seq<Identity>): (options: seq<IdentityOption>)
    ensures |options| == |IdentitiesOfKind(identities, SourceKind)|
    ensures forall o :: o in options <==>
      exists i :: 0 <= i < |identities| && identities[i].kind == SourceKind && o == IdentityOption(identities[i].name, identities[i].name)
  {
    IdentityOptions(identities, SourceKind)
  }

  /** `mavenIdentityOptions` */
  function MavenIdentityOptions(identities: seq<Identity>): (options: seq<IdentityOption>)
    ensures |options| == |IdentitiesOfKind(identities, MavenKind)|
    ensures forall o :: o in options <==>
      exists i :: 0 <= i < |identities| && identities[i].kind == MavenKind && o == IdentityOption(identities[i].name, identities[i].name)
  {
    IdentityOptions(identities, MavenKind)
  }

  /** Every source option names a source identity; no Maven identity is offered as a source unless it shares a name. */
  lemma SourceOptionsAreSourceIdentities(identities: seq<Identity>, o: IdentityOption)
    requires o in SourceIdentityOptions(identities)
    ensures exists i :: 0 <= i < |identities| && identities[i].kind == SourceKind && identities[i].name == o.value
  {
  }

  // ---------------------------------------------------------------------------
  // Submission

  /** `identities.find((identity) => identity.name === name)`; an absent name matches nothing. */
  function FindByName(identities: seq<Identity>, name: Option<string>): (r: Option<Identity>)
    ensures name.None? ==> r.None?
    ensures name.Some? ==> (r.None? <==> forall i :: 0 <= i < |identities| ==> identities[i].name != name.value)
    ensures r.Some? ==> r.value.name == name.value && r.value in identities
    ensures r.Some? ==> exists i :: 0 <= i < |identities| && identities[i] == r.value &&
                                  forall j :: 0 <= j < i ==> identities[j].name != name.value
  {
    if name.None? then None
    else Find(identities, (identity: Identity) => identity.name == name.value)
  }

  /** The reference pushed for a matching identity (empty list when there is none). */
  function RefsOf(found: Option<Identity>): (refs: seq<Ref>)
    ensures found.None? ==> refs == []
    ensures found.Some? ==> refs == [Ref(found.value.id, found.value.name)]
  {
    if found.Some? then [Ref(found.value.id, if found.value.name != "" then found.value.name else "")] else []
  }

  /**
   * `updatedIdentities` for one application: nothing when it has no
   * identities field; otherwise the chosen source credential, then the chosen
   * Maven settings, each when an identity of that name exists.
   */
  function UpdatedIdentities(app: Application, identities: seq<Identity>, form: FormValues): (refs: seq<Ref>)
    ensures app.identities.None? ==> refs == []
    ensures app.identities.Some? ==>
      refs == RefsOf(FindByName(identities, form.sourceCredentials)) + RefsOf(FindByName(identities, form.mavenSettings))
  {
    if app.identities.None? then []
    else RefsOf(FindByName(identities, form.sourceCredentials)) + RefsOf(FindByName(identities, form.mavenSettings))
  }

  /** Each assigned reference is a known identity, by its own id and name. */
  lemma AssignedIdentitiesAreKnown(app: Application, identities: seq<Identity>, form: FormValues, k: nat)
    requires k < |UpdatedIdentities(app, identities, form)|
    ensures exists i :: 0 <= i < |identities| && UpdatedIdentities(app, identities, form)[k] == Ref(identities[i].id, identities[i].name)
    ensures |UpdatedIdentities(app, identities, form)| <= 2
  {
    var source := FindByName(identities, form.sourceCredentials);
    var maven := FindByName(identities, form.mavenSettings);
    var refs := UpdatedIdentities(app, identities, form);
    var chosen := if source.Some? && k == 0 then source.value else maven.value;
    assert refs[k] == Ref(chosen.id, chosen.name);
    var i :| 0 <= i < |identities| && identities[i] == chosen;
  }

  /** The update of one application: the application itself with only its identities replaced. */
  function UpdatePayload(app: Application, identities: seq<Identity>, form: FormValues): (r: Application)
    ensures r.identities == Some(UpdatedIdentities(app, identities, form))
    ensures r.(identities := app.identities) == app
  {
    app.(identities := Some(UpdatedIdentities(app, identities, form)))
  }

  /** `onSubmit`: one update per application, in order, built by pushing the matching credentials. */
  method OnSubmit(applications: seq<Application>, identities: seq<Identity>, form: FormValues)
    returns (updates: seq<Application>)
    ensures |updates| == |applications|
    ensures forall i :: 0 <= i < |applications| ==> updates[i] == UpdatePayload(applications[i], identities, form)
  {
    updates := [];
    var i := 0;
    while i < |applications|
      invariant 0 <= i <= |applications|
      invariant |updates| == i
      invariant forall k :: 0 <= k < i ==> updates[k] == UpdatePayload(applications[k], identities, form)
    {
      var application := applications[i];
      var updatedIdentities: seq<Ref> := [];
      if application.identities.Some? {
        var matchingSourceCredential := FindByName(identities, form.sourceCredentials);
        if matchingSourceCredential.Some? {
          updatedIdentities := updatedIdentities + [Ref(matchingSourceCredential.value.id, matchingSourceCredential.value.name)];
        }
        var matchingMavenSettings := FindByName(identities, form.mavenSettings);
        if matchingMavenSettings.Some? {
          updatedIdentities := updatedIdentities + [Ref(matchingMavenSettings.value.id, matchingMavenSettings.value.name)];
        }
      }
      assert updatedIdentities == UpdatedIdentities(application, identities, form);
      var payload := application.(identities := Some(updatedIdentities));
      updates := updates + [payload];
      i := i + 1;
    }
  }

  /** The updates keep every application's id, name, business service and migration wave. */
  lemma UpdatesKeepIdentity(applications: seq<Application>, identities: seq<Identity>, form: FormValues, i: nat)
    requires i < |applications|
    ensures var u := UpdatePayload(applications[i], identities, form);
      u.id == applications[i].id && u.name == applications[i].name &&
      u.businessService == applications[i].businessService && u.migrationWave == applications[i].migrationWave
  {
    var u := UpdatePayload(applications[i], identities, form);
    assert u.(identities := applications[i].identities) == applications[i];
  }

  // ---------------------------------------------------------------------------
  // Form state

  function Names(applications: seq<Application>): (names: seq<string>)
    ensures |names| == |applications|
    ensures forall i :: 0 <= i < |applications| ==> names[i] == applications[i].name
  {
    RefNames(ApplicationRefs(applications))
  }

  /** `getApplicationNames(applications) || ""`: the names joined with ", ". */
  function ApplicationNames(applications: seq<Application>): (text: string)
    ensures applications == [] ==> text == ""
    ensures |applications| == 1 ==> text == applications[0].name
    ensures applications != [] ==> |text| == TotalLength(Names(applications)) + 2 * (|applications| - 1)
  {
    var text := Join(Names(applications), ", ");
    assert applications != [] ==> |text| == TotalLength(Names(applications)) + 2 * (|applications| - 1) by {
      if applications != [] {
        JoinLength(Names(applications), ", ");
      }
    }
    if text != "" then text else ""
  }

  /**
   * The name field holds every application's name in order, separated by
   * ", ": the i-th name starts after the i names and i separators before it,
   * and a separator follows every name but the last.
   */
  lemma NameInApplicationNames(applications: seq<Application>, i: nat)
    requires i < |applications|
    ensures OccursAt(ApplicationNames(applications), applications[i].name, TotalLength(Names(applications)[..i]) + 2 * i)
    ensures i < |applications| - 1 ==>
      OccursAt(ApplicationNames(applications), ", ", TotalLength(Names(applications)[..i]) + 2 * i + |applications[i].name|)
  {
    JoinContainsPart(Names(applications), ", ", i);
  }

  /** The Save button is enabled only for a valid, changed form that is neither submitting nor validating. */
  function SaveEnabled(isValid: bool, isSubmitting: bool, isValidating: bool, isDirty: bool): (enabled: bool)
    ensures enabled <==> isValid && isDirty && !isSubmitting && !isValidating
  {
    !(!isValid || isSubmitting || isValidating || !isDirty)
  }
}
