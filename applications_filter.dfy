/**
 * The filter, sort and selection values of the application inventory
 * (client/src/app/pages/applications/applicationsFilter.ts): the text each
 * filter category reads from an application, the sort vector of a row,
 * clearing the filters, and when two rows are the same selection entry.
 */
module ApplicationsFilter {
  import opened Common
  import opened Models

  /** The filter categories, by key. */
  datatype FilterKey = NameKey | DescriptionKey | BusinessServiceKey | IdentitiesKey | RepositoryKey | BinaryKey | TagsKey

  const AssessmentTableType := "assessment"

  // ---------------------------------------------------------------------------
  // Simple extractors

  /** `item?.name || ""` */
  function NameValue(app: Application): (r: string)
    ensures r == app.name
  {
    if app.name != "" then app.name else ""
  }

  /** `item.description || ""` */
  function DescriptionValue(app: Application): (r: string)
    ensures r == "" <==> !TruthyText(app.description)
    ensures TruthyText(app.description) ==> r == app.description.value
  {
    if TruthyText(app.description) then app.description.value else ""
  }

  /** `item.businessService?.name || ""` */
  function BusinessServiceValue(app: Application): (r: string)
    ensures app.businessService.None? ==> r == ""
    ensures app.businessService.Some? ==> r == app.businessService.value.name
  {
    if app.businessService.Some? && app.businessService.value.name != "" then app.businessService.value.name else ""
  }

  /** `item?.repository?.kind || ""` */
  function RepositoryValue(app: Application): (r: string)
    ensures app.repository.None? ==> r == ""
    ensures app.repository.Some? ==> r == app.repository.value.kind.GetOr("")
  {
    if app.repository.Some? && TruthyText(app.repository.value.kind) then app.repository.value.kind.value else ""
  }

  // ---------------------------------------------------------------------------
  // Identities

  /** `identities.find((identity) => identity.id === id)` */
  function FindById(identities: seq<Identity>, id: int): (r: Option<Identity>)
    ensures r.None? <==> forall i :: 0 <= i < |identities| ==> identities[i].id != id
    ensures r.Some? ==> r.value.id == id && r.value in identities
    ensures r.Some? ==> exists i :: 0 <= i < |identities| && identities[i] == r.value &&
                                  forall j :: 0 <= j < i ==> identities[j].id != id
  {
    Find(identities, (identity: Identity) => identity.id == id)
  }

  /** `matchingIdentity?.kind || ""`: the kind of the first known identity with this id, or "". */
  function KindFor(identities: seq<Identity>, id: int): string
  {
    match FindById(identities, id)
    case None => ""
    case Some(identity) => identity.kind
  }

  /** The pushed kinds, one per identity reference of the application, in its order. */
  function IdentityKinds(refs: seq<Ref>, identities: seq<Identity>): (kinds: seq<string>)
    ensures |kinds| == |refs|
    ensures forall i :: 0 <= i < |refs| ==> kinds[i] == KindFor(identities, refs[i].id)
  {
    seq(|refs|, i requires 0 <= i < |refs| => KindFor(identities, refs[i].id))
  }

  /** The identities filter value: the joined kinds, or "" when the application has no identities field. */
  function IdentitiesSearchString(app: Application, identities: seq<Identity>): string
  {
    Concat(IdentityKinds(app.identities.GetOr([]), identities))
  }

  /** The identities extractor: a loop pushing one kind per identity reference, then `join("")`. */
  method IdentitiesValue(app: Application, identities: seq<Identity>) returns (searchString: string)
    ensures searchString == IdentitiesSearchString(app, identities)
    ensures |searchString| == TotalLength(IdentityKinds(app.identities.GetOr([]), identities))
  {
    var searchStringArr: seq<string> := [];
    var refs := app.identities.GetOr([]);
    var i := 0;
    while i < |refs|
      invariant 0 <= i <= |refs|
      invariant searchStringArr == IdentityKinds(refs[..i], identities)
    {
      var matching := FindById(identities, refs[i].id);
      var kind := if matching.Some? then matching.value.kind else "";
      searchStringArr := searchStringArr + [kind];
      i := i + 1;
    }
    assert refs[..|refs|] == refs;
    searchString := Concat(searchStringArr);
    ConcatLength(searchStringArr);
  }

  /** Each referenced identity's kind appears in the search string, after the kinds of the references before it. */
  lemma IdentityKindInSearchString(app: Application, identities: seq<Identity>, i: nat)
    requires app.identities.Some? && i < |app.identities.value|
    ensures var kinds := IdentityKinds(app.identities.value, identities);
      OccursAt(IdentitiesSearchString(app, identities), KindFor(identities, app.identities.value[i].id), TotalLength(kinds[..i]))
  {
    ConcatContainsPart(IdentityKinds(app.identities.value, identities), i);
  }

  /** A reference to an identity that is not known contributes nothing. */
  lemma UnknownIdentityContributesNothing(identities: seq<Identity>, id: int)
    requires forall i :: 0 <= i < |identities| ==> identities[i].id != id
    ensures KindFor(identities, id) == ""
  {
  }

  // ---------------------------------------------------------------------------
  // Artifact

  /** The characters `.` does not match in a JavaScript regular expression. */
  predicate IsLineTerminator(c: char)
  {
    c == '\n' || c == '\r' || c == '\U{2028}' || c == '\U{2029}'
  }

  predicate NoLineTerminator(s: string)
  {
    forall k :: 0 <= k < |s| ==> !IsLineTerminator(s[k])
  }

  /**
   * `/.+:.+:.+/` matches with its two literal colons at positions `p` and `q`:
   * one character is enough for each `.+`, and none of the characters from the
   * one before `p` to the one after `q` is a line terminator.
   */
  predicate MatchesAt(s: string, p: int, q: int)
  {
    1 <= p && p + 1 < q && q + 1 < |s| && s[p] == ':' && s[q] == ':' &&
    forall k :: p - 1 <= k <= q + 1 ==> !IsLineTerminator(s[k])
  }

  /** `s.match(/.+:.+:.+/)` is not null. */
  predicate MatchesCoordinates(s: string)
  {
    exists p, q | 0 <= p < |s| && 0 <= q < |s| :: MatchesAt(s, p, q)
  }

  /** The binary extractor: "binary" when the value has the `group:artifact:version` shape, otherwise "none". */
  function ArtifactValue(binary: Option<string>): (r: string)
    ensures r == "binary" || r == "none"
    ensures r == "binary" <==> binary.Some? && binary.value != "::" && MatchesCoordinates(binary.value)
  {
    if binary.Some? && binary.value != "::" && MatchesCoordinates(binary.value) then "binary" else "none"
  }

  /** Any text holding `x:y:z` with non-empty, single-line `x`, `y`, `z` is classified as an artifact. */
  lemma CoordinatesAreArtifact(pre: string, x: string, y: string, z: string, post: string)
    requires x != [] && y != [] && z != []
    requires NoLineTerminator(x) && NoLineTerminator(y) && NoLineTerminator(z)
    ensures ArtifactValue(Some(pre + x + ":" + y + ":" + z + post)) == "binary"
  {
    var s := pre + x + ":" + y + ":" + z + post;
    var p := |pre| + |x|;
    var q := p + 1 + |y|;
    assert s[p] == ':' && s[q] == ':';
    assert forall k :: p - 1 <= k < p ==> s[k] == x[k - |pre|];
    assert forall k :: p < k < q ==> s[k] == y[k - p - 1];
    assert s[q + 1] == z[0];
    assert MatchesAt(s, p, q);
    assert s != "::" by {
      assert |s| >= 5;
    }
  }

  /** Conversely, a value classified as an artifact holds such an `x:y:z`. */
  lemma ArtifactHasCoordinates(s: string) returns (pre: string, x: string, y: string, z: string, post: string)
    requires ArtifactValue(Some(s)) == "binary"
    ensures s == pre + x + ":" + y + ":" + z + post
    ensures x != [] && y != [] && z != []
    ensures NoLineTerminator(x) && NoLineTerminator(y) && NoLineTerminator(z)
  {
    var p, q :| 0 <= p < |s| && 0 <= q < |s| && MatchesAt(s, p, q);
    pre, x, y, z, post := s[..p - 1], s[p - 1..p], s[p + 1..q], s[q + 1..q + 2], s[q + 2..];
    assert s == pre + x + ":" + y + ":" + z + post;
  }

  /** Without a value, or with an empty one, the application has no artifact. */
  lemma MissingBinaryIsNone()
    ensures ArtifactValue(None) == "none"
    ensures ArtifactValue(Some("")) == "none"
  {
  }

  /** The `!== "::"` test excludes nothing the pattern would accept. */
  lemma DoubleColonNeverMatches()
    ensures !MatchesCoordinates("::")
  {
  }

  // ---------------------------------------------------------------------------
  // Tags

  function TagNames(tags: seq<Ref>): (names: seq<string>)
    ensures |names| == |tags|
    ensures forall i :: 0 <= i < |tags| ==> names[i] == tags[i].name
  {
    RefNames(tags)
  }

  /** `item?.tags?.map((tag) => tag.name).join("") || ""` */
  function TagsValue(app: Application): (r: string)
    ensures app.tags.None? ==> r == ""
    ensures app.tags.Some? ==> |r| == TotalLength(TagNames(app.tags.value))
  {
    if app.tags.None? then ""
    else
      ConcatLength(TagNames(app.tags.value));
      Concat(TagNames(app.tags.value))
  }

  /** Every tag's name occurs in the tags value, after the names of the tags before it. */
  lemma TagNameInTagsValue(app: Application, i: nat)
    requires app.tags.Some? && i < |app.tags.value|
    ensures OccursAt(TagsValue(app), app.tags.value[i].name, TotalLength(TagNames(app.tags.value)[..i]))
  {
    ConcatContainsPart(TagNames(app.tags.value), i);
  }

  /** The value a filter category reads from an application. */
  function ItemValue(key: FilterKey, app: Application, identities: seq<Identity>): (r: string)
    ensures key == NameKey ==> r == app.name
    ensures key == DescriptionKey ==> r == app.description.GetOr("")
    ensures key == BusinessServiceKey ==> r == if app.businessService.Some? then app.businessService.value.name else ""
    ensures key == IdentitiesKey && app.identities.GetOr([]) == [] ==> r == ""
    ensures key == RepositoryKey ==> r == if app.repository.Some? then app.repository.value.kind.GetOr("") else ""
    ensures key == BinaryKey ==> r == "binary" || r == "none"
    ensures key == BinaryKey ==>
      (r == "binary" <==> app.binary.Some? && app.binary.value != "::" && MatchesCoordinates(app.binary.value))
    ensures key == TagsKey ==> |r| == TotalLength(TagNames(app.tags.GetOr([])))
  {
    match key
    case NameKey => NameValue(app)
    case DescriptionKey => DescriptionValue(app)
    case BusinessServiceKey => BusinessServiceValue(app)
    case IdentitiesKey => IdentitiesSearchString(app, identities)
    case RepositoryKey => RepositoryValue(app)
    case BinaryKey => ArtifactValue(app.binary)
    case TagsKey => TagsValue(app)
  }

  /** An application without the optional fields yields "" for every text category and "none" for the artifact. */
  lemma BareApplicationValues(app: Application, identities: seq<Identity>, key: FilterKey)
    requires app.description.None? && app.businessService.None? && app.identities.None?
    requires app.repository.None? && app.binary.None? && app.tags.None?
    ensures key != NameKey && key != BinaryKey ==> ItemValue(key, app, identities) == ""
    ensures key == BinaryKey ==> ItemValue(key, app, identities) == "none"
  {
    assert IdentityKinds([], identities) == [];
  }

  // ---------------------------------------------------------------------------
  // Sorting

  /** `item.tags?.length || 0` */
  function TagCount(app: Application): nat
  {
    if app.tags.Some? then |app.tags.value| else 0
  }

  /**
   * `getSortValues`: one entry per column (select, name, description, business
   * service, assessment or analysis, review when an assessment table, tags,
   * actions); only the name, business service and tag count sort.
   */
  function SortValues(tableType: string, app: Application): (r: seq<SortValue>)
    ensures |r| == if tableType == AssessmentTableType then 8 else 7
    ensures r[1] == SText(NameValue(app)) && r[3] == SText(BusinessServiceValue(app))
    ensures r[|r| - 2] == SNum(TagCount(app))
    ensures forall i :: 0 <= i < |r| && i != 1 && i != 3 && i != |r| - 2 ==> r[i] == SText("")
  {
    [SText(""), SText(NameValue(app)), SText(""), SText(BusinessServiceValue(app)), SText("")]
    + (if tableType == AssessmentTableType then [SText("")] else [])
    + [SNum(TagCount(app)), SText("")]
  }

  // ---------------------------------------------------------------------------
  // Filter values and selection

  /** The filter values of the inventory: the selected values per category. */
  class FilterValues {
    var values: map<FilterKey, seq<string>>

    constructor()
      ensures values == map[]
    {
      values := map[];
    }

    predicate IsFiltering()
      reads this
    {
      exists key :: key in values && values[key] != []
    }

    method SetFilterValues(newValues: map<FilterKey, seq<string>>)
      modifies this
      ensures values == newValues
    {
      values := newValues;
    }

    /** `handleOnClearAllFilters`: the filter values become `{}`. */
    method HandleOnClearAllFilters()
      modifies this
      ensures values == map[]
      ensures !IsFiltering()
    {
      values := map[];
    }
  }

  /** Two rows are the same selection entry when their ids are equal. */
  predicate SameApplication(a: Application, b: Application)
  {
    a.id == b.id
  }

  function IsRowSelected(selected: seq<Application>, app: Application): (r: bool)
    ensures app in selected ==> r
    ensures r <==> exists i :: 0 <= i < |selected| && selected[i].id == app.id
  {
    exists i :: 0 <= i < |selected| && SameApplication(selected[i], app)
  }

  /** A selected application stays selected after it is fetched again with other field values. */
  lemma SelectionSurvivesRefresh(selected: seq<Application>, k: nat, refreshed: Application)
    requires k < |selected| && refreshed.id == selected[k].id
    ensures IsRowSelected(selected, refreshed)
  {
    assert SameApplication(selected[k], refreshed);
  }

  /** Selection ignores every field but the id: renaming an application does not change whether it is selected. */
  lemma SelectionIgnoresName(selected: seq<Application>, app: Application, name: string)
    ensures IsRowSelected(selected, app) <==> IsRowSelected(selected, app.(name := name))
  {
    if IsRowSelected(selected, app) {
      var i :| 0 <= i < |selected| && SameApplication(selected[i], app);
      assert SameApplication(selected[i], app.(name := name));
    }
    if IsRowSelected(selected, app.(name := name)) {
      var i :| 0 <= i < |selected| && SameApplication(selected[i], app.(name := name));
      assert SameApplication(selected[i], app);
    }
  }
}
