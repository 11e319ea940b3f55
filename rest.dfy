/**
 * The REST client layer (client/src/app/api/rest.ts): how typed front-end
 * operations are turned into hub requests. The HTTP transport itself is not
 * modelled; each operation yields the request it would issue (or `Rejected`
 * when it refuses to issue one), and the paginated helper's result is computed
 * from the response data and its `x-total` header.
 */
module Rest {
  import opened Common

  const Hub := "/hub"
  const Applications := Hub + "/applications"
  const Reports := Hub + "/reports"
  const Settings := Hub + "/settings"
  const Tasks := Hub + "/tasks"
  const Pathfinder := "/hub/pathfinder"
  const Assessments := Pathfinder + "/assessments"
  const AppReportPath := Hub + "/analyses/report/applications"
  const IssueReportPath := Hub + "/analyses/report/issues"
  const IssuePath := Hub + "/analyses/issues"
  /** `/hub/analyses/report/applications/:applicationId/issues` */
  const AppIssuesTemplate := AppReportPath + "/:" + "applicationId" + "/" + "issues"
  /** `/hub/analyses/report/issues/:issueId/files` */
  const IssueFilesTemplate := IssueReportPath + "/:" + "issueId" + "/" + "files"
  /** `/hub/analyses/issues/:issueId/incidents` */
  const IssueIncidentsTemplate := IssuePath + "/:" + "issueId" + "/" + "incidents"

  const JsonAccept := "application/json"
  const YamlAccept := "application/x-yaml"

  datatype Verb = Get | Post | Put

  /** An HTTP request as the client would issue it. `accept` is `None` when no header is passed. */
  datatype Request<B> = Request(verb: Verb, url: string, accept: Option<string>, body: Option<B>)

  /** What an operation with a guard does: reject at once, or issue a request. */
  datatype Outcome<R> = Rejected | Issued(request: R)

  /** An identifier typed `number | string`. */
  datatype Id = NumId(n: int) | TextId(s: string)

  /** `${id}` */
  function IdText(id: Id): string
  {
    match id
    case NumId(n) => IntToString(n)
    case TextId(s) => s
  }

  /** JavaScript truthiness of an optional identifier: `undefined`, `0` and `""` are falsy. */
  predicate IdTruthy(id: Option<Id>)
  {
    match id
    case None => false
    case Some(NumId(n)) => n != 0
    case Some(TextId(s)) => s != ""
  }

  // ---------------------------------------------------------------------------
  // buildQuery

  /** A value of the record given to `buildQuery`, already rendered as text by `${v}`. */
  datatype ParamValue = Undefined | Null | Scalar(text: string) | Many(items: seq<string>)

  /** The record given to `buildQuery`, in `Object.keys` order. */
  type QueryParams = seq<(string, ParamValue)>

  predicate IsNullish(v: ParamValue)
  {
    v == Undefined || v == Null
  }

  /** The values emitted for one key: none when nullish, the elements of an array, else the value. */
  function ValuesOf(v: ParamValue): seq<string>
  {
    match v
    case Undefined => []
    case Null => []
    case Scalar(t) => [t]
    case Many(items) => items
  }

  /** `key=v` for each value, in order. */
  function Entries(key: string, values: seq<string>): seq<string>
  {
    seq(|values|, i requires 0 <= i < |values| => key + "=" + values[i])
  }

  /** The query strings `buildQuery` produces: each key's entries, in key order. */
  function Query(params: QueryParams): seq<string>
  {
    if params == [] then []
    else Entries(params[0].0, ValuesOf(params[0].1)) + Query(params[1..])
  }

  /** Parameters whose values are all `undefined` or `null` build no query at all. */
  lemma {:induction false} AllNullishQueryEmpty(params: QueryParams)
    requires forall i :: 0 <= i < |params| ==> IsNullish(params[i].1)
    ensures Query(params) == []
  {
    if params != [] {
      assert IsNullish(params[0].1);
      AllNullishQueryEmpty(params[1..]);
    }
  }

  /** How many entries the parameters produce: one per array element, one per other non-nullish value. */
  function ParamCount(params: QueryParams): nat
  {
    if params == [] then 0 else |ValuesOf(params[0].1)| + ParamCount(params[1..])
  }

  /**
   * `buildQuery`: walks the keys, skips `undefined` and `null`, and pushes
   * `key=v` for each element of an array value or once for any other value.
   */
  method BuildQuery(params: QueryParams) returns (query: seq<string>)
    ensures query == Query(params)
    ensures |query| == ParamCount(params)
  {
    query := [];
    var i := 0;
    while i < |params|
      invariant 0 <= i <= |params|
      invariant query == Query(params[..i])
    {
      var key := params[i].0;
      var value := params[i].1;
      if value != Undefined && value != Null {
        var values := if value.Many? then value.items else [value.text];
        assert values == ValuesOf(value);
        ghost var before := query;
        var j := 0;
        while j < |values|
          invariant 0 <= j <= |values|
          invariant query == before + Entries(key, values[..j])
        {
          assert Entries(key, values[..j + 1]) == Entries(key, values[..j]) + [key + "=" + values[j]];
          query := query + [key + "=" + values[j]];
          j := j + 1;
        }
        assert values[..|values|] == values;
      }
      QueryAppend(params[..i], [params[i]]);
      assert params[..i + 1] == params[..i] + [params[i]];
      i := i + 1;
    }
    assert params[..|params|] == params;
    QueryLength(params);
  }

  /** The query of two parameter lists one after the other is the two queries one after the other. */
  lemma {:induction false} QueryAppend(a: QueryParams, b: QueryParams)
    ensures Query(a + b) == Query(a) + Query(b)
  {
    if a == [] {
      assert a + b == b;
    } else {
      assert (a + b)[1..] == a[1..] + b;
      QueryAppend(a[1..], b);
    }
  }

  lemma {:induction false} ParamCountAppend(a: QueryParams, b: QueryParams)
    ensures ParamCount(a + b) == ParamCount(a) + ParamCount(b)
  {
    if a == [] {
      assert a + b == b;
    } else {
      assert (a + b)[1..] == a[1..] + b;
      ParamCountAppend(a[1..], b);
    }
  }

  lemma {:induction false} QueryLength(params: QueryParams)
    ensures |Query(params)| == ParamCount(params)
  {
    if params != [] {
      QueryLength(params[1..]);
    }
  }

  /** A key whose value is `undefined` or `null` contributes nothing: the query is that of the other keys. */
  lemma QueryOmitsNullish(params: QueryParams, i: nat)
    requires i < |params| && IsNullish(params[i].1)
    ensures Query(params) == Query(params[..i]) + Query(params[i + 1..])
  {
    var rest := [params[i]] + params[i + 1..];
    assert params == params[..i] + rest;
    QueryAppend(params[..i], rest);
    assert rest[1..] == params[i + 1..];
    assert Entries(params[i].0, ValuesOf(params[i].1)) == [];
    assert Query(rest) == Query(params[i + 1..]);
  }

  /**
   * The `j`-th value of the `i`-th key is emitted as `key=value` right after the
   * entries of the keys before it and the values before it.
   */
  lemma QueryEntryAt(params: QueryParams, i: nat, j: nat)
    requires i < |params| && j < |ValuesOf(params[i].1)|
    ensures ParamCount(params[..i]) + j < |Query(params)|
    ensures Query(params)[ParamCount(params[..i]) + j] == params[i].0 + "=" + ValuesOf(params[i].1)[j]
  {
    assert params == params[..i] + ([params[i]] + params[i + 1..]);
    QueryAppend(params[..i], [params[i]] + params[i + 1..]);
    QueryLength(params[..i]);
    assert ([params[i]] + params[i + 1..])[1..] == params[i + 1..];
  }

  /** Every emitted entry is `key=value` for a key whose value is neither `undefined` nor `null`. */
  lemma {:induction false} QueryEntryOrigin(params: QueryParams, k: nat) returns (i: nat, j: nat)
    requires k < |Query(params)|
    ensures i < |params| && !IsNullish(params[i].1)
    ensures j < |ValuesOf(params[i].1)|
    ensures Query(params)[k] == params[i].0 + "=" + ValuesOf(params[i].1)[j]
  {
    var first := Entries(params[0].0, ValuesOf(params[0].1));
    if k < |first| {
      i, j := 0, k;
    } else {
      var i', j' := QueryEntryOrigin(params[1..], k - |first|);
      i, j := i' + 1, j';
    }
  }

  /** `getAssessments`: the assessments URL with the `applicationId` filter when one is given. */
  function AssessmentsUrl(applicationId: Option<Id>): (url: string)
    ensures applicationId.None? ==> url == Assessments + "?"
    ensures applicationId.Some? ==> url == Assessments + "?applicationId=" + IdText(applicationId.value)
  {
    var value := if applicationId.Some? then Scalar(IdText(applicationId.value)) else Undefined;
    var params := [("applicationId", value)];
    assert params[1..] == [];
    assert Query(params) == Entries("applicationId", ValuesOf(value));
    assert applicationId.Some? ==> Query(params) == ["applicationId=" + IdText(applicationId.value)] by {
      if applicationId.Some? {
        var e := Entries("applicationId", [IdText(applicationId.value)]);
        assert |e| == 1 && e[0] == "applicationId=" + IdText(applicationId.value);
      }
    }
    Assessments + "?" + Join(Query(params), "&")
  }

  // ---------------------------------------------------------------------------
  // getHubPaginatedResult and the operations built on it

  /**
   * A call of the paginated helper: the URL and the request parameters. `None`
   * stands for the default `{}` (the parameter record itself is serialised by
   * `serializeRequestParamsForHub`, which is not part of this model).
   */
  datatype HubCall<P> = HubCall(url: string, params: Option<P>)

  datatype HubPaginatedResult<T, P> = HubPaginatedResult(data: seq<T>, total: ParsedNumber, params: Option<P>)

  /** `headers["x-total"] ? parseInt(headers["x-total"], 10) : 0` */
  function TotalFromHeader(xTotal: Option<string>): (total: ParsedNumber)
    ensures !TruthyText(xTotal) ==> total == Finite(0)
    ensures TruthyText(xTotal) ==> total == ParseInt10(xTotal.value)
  {
    if TruthyText(xTotal) then ParseInt10(xTotal.value) else Finite(0)
  }

  /** The result of `getHubPaginatedResult` for a response with `data` and an `x-total` header. */
  function PaginatedResult<T, P>(call: HubCall<P>, data: seq<T>, xTotal: Option<string>): (r: HubPaginatedResult<T, P>)
    ensures r.data == data && r.params == call.params
    ensures r.total == TotalFromHeader(xTotal)
  {
    HubPaginatedResult(data, TotalFromHeader(xTotal), call.params)
  }

  /** A header carrying the decimal text of a count yields exactly that count. */
  lemma TotalOfCountHeader(n: int)
    ensures TotalFromHeader(Some(IntToString(n))) == Finite(n)
  {
    ParseIntOfIntToString(n);
  }

  /** A non-empty header that is not a number yields NaN, not 0. */
  lemma TotalOfTextHeader()
    ensures TotalFromHeader(Some("n/a")) == NaN
  {
    var s := "n/a";
    assert !IsStrWhiteSpace(s[0]) && !IsDigit(s[0]);
    assert TrimStart(s) == s;
    assert DigitPrefix(s) == [];
  }

  /** The fixed part of each templated path holds no colon, so its placeholder is the first match. */
  lemma NoColonInPaths()
    ensures ':' !in AppReportPath && ':' !in IssueReportPath && ':' !in IssuePath
  {
    assert forall k :: 0 <= k < |AppReportPath| ==> AppReportPath[k] != ':';
    assert forall k :: 0 <= k < |IssueReportPath| ==> IssueReportPath[k] != ':';
    assert forall k :: 0 <= k < |IssuePath| ==> IssuePath[k] != ':';
  }

  /** `String(x)` for an optional number: `"undefined"` when absent. */
  function OptionalNumberText(x: Option<int>): string
  {
    if x.Some? then IntToString(x.value) else "undefined"
  }

  /** `issueId ? ... : Promise.reject()` for a `number` id. */
  predicate NumberTruthy(x: Option<int>)
  {
    x.Some? && x.value != 0
  }

  /**
   * `getIssueReports` as written: the application id is put in the path (as
   * "undefined" when absent) and the `params` argument is dropped, so the
   * call always uses the default `{}`.
   */
  function GetIssueReports<P>(applicationId: Option<int>, params: Option<P>): (r: HubCall<P>)
    ensures r.url == AppReportPath + "/" + OptionalNumberText(applicationId) + "/" + "issues"
    ensures r.params == None
  {
    NoColonInPaths();
    ReplacePlaceholder(AppReportPath, "applicationId", "issues", OptionalNumberText(applicationId));
    HubCall(ReplaceFirst(AppIssuesTemplate, "/:" + "applicationId" + "/", "/" + OptionalNumberText(applicationId) + "/"), None)
  }

  /**
   * Whatever parameters the caller gives, the call is the one made with the
   * default `{}`, and the issue report result echoes `{}`.
   */
  lemma IssueReportsDropParams<T, P>(applicationId: Option<int>, params: P, data: seq<T>, xTotal: Option<string>)
    ensures GetIssueReports(applicationId, Some(params)) == GetIssueReports(applicationId, None)
    ensures PaginatedResult(GetIssueReports(applicationId, Some(params)), data, xTotal).params == None
  {
  }

  /** `getIssueReports` as its signature and its sibling operations intend it: the parameters are forwarded. */
  function GetIssueReportsForwarding<P>(applicationId: Option<int>, params: Option<P>): (r: HubCall<P>)
    ensures r.url == GetIssueReports(applicationId, params).url
    ensures r.params == params
  {
    HubCall(GetIssueReports(applicationId, params).url, params)
  }

  /** With the parameters forwarded, the result echoes the caller's parameters. */
  lemma IssueReportsForwardingEchoes<T, P>(applicationId: Option<int>, params: Option<P>, data: seq<T>, xTotal: Option<string>)
    ensures PaginatedResult(GetIssueReportsForwarding(applicationId, params), data, xTotal).params == params
  {
  }

  /** `getFileReports`: rejects for a falsy issue id, otherwise substitutes it into the path. */
  function GetFileReports<P>(issueId: Option<int>, params: Option<P>): (r: Outcome<HubCall<P>>)
    ensures r.Rejected? <==> !NumberTruthy(issueId)
    ensures r.Issued? ==> r.request == HubCall(IssueReportPath + "/" + IntToString(issueId.value) + "/" + "files", params)
  {
    if NumberTruthy(issueId) then
      NoColonInPaths();
      ReplacePlaceholder(IssueReportPath, "issueId", "files", IntToString(issueId.value));
      Issued(HubCall(ReplaceFirst(IssueFilesTemplate, "/:" + "issueId" + "/", "/" + IntToString(issueId.value) + "/"), params))
    else
      Rejected
  }

  /** `getIncidents`: rejects for a falsy issue id, otherwise substitutes it into the path. */
  function GetIncidents<P>(issueId: Option<int>, params: Option<P>): (r: Outcome<HubCall<P>>)
    ensures r.Rejected? <==> !NumberTruthy(issueId)
    ensures r.Issued? ==> r.request == HubCall(IssuePath + "/" + IntToString(issueId.value) + "/" + "incidents", params)
  {
    if NumberTruthy(issueId) then
      NoColonInPaths();
      ReplacePlaceholder(IssuePath, "issueId", "incidents", IntToString(issueId.value));
      Issued(HubCall(ReplaceFirst(IssueIncidentsTemplate, "/:" + "issueId" + "/", "/" + IntToString(issueId.value) + "/"), params))
    else
      Rejected
  }

  /** `getFacts`: rejects for a falsy id, otherwise GETs the application's facts. */
  function GetFacts(id: Option<Id>): (r: Outcome<Request<()>>)
    ensures r.Rejected? <==> !IdTruthy(id)
    ensures r.Issued? ==> r.request.verb == Get && r.request.url == Applications + "/" + IdText(id.value) + "/facts"
  {
    if IdTruthy(id) then Issued(Request(Get, Applications + "/" + IdText(id.value) + "/facts", None, None))
    else Rejected
  }

  /**
   * An issued request always has an id segment: it is never empty, and a
   * numeric id is never 0 (the string "0", being truthy, does get through).
   */
  lemma FactsPathHasTruthyId(id: Option<Id>)
    requires GetFacts(id).Issued?
    ensures id.Some? && IdText(id.value) != ""
    ensures id.value.NumId? ==> IdText(id.value) != "0"
  {
    var text := IdText(id.value);
    if id.value.NumId? {
      var n := id.value.n;
      if n > 0 {
        assert text == DecimalString(n);
        assert text[0] != '0';
      } else {
        assert text[0] == '-';
      }
    }
    assert text == "0" ==> text[0] == '0';
  }

  // ---------------------------------------------------------------------------
  // Settings

  datatype SettingValue = BoolSetting(b: bool) | TextSetting(s: string) | NumberSetting(n: int)

  datatype Setting = Setting(key: string, value: SettingValue)

  /** `updateSetting`: PUT to the setting's path; a boolean is sent as its text, anything else unchanged. */
  function UpdateSetting(setting: Setting): (r: Request<SettingValue>)
    ensures r.verb == Put && r.url == Settings + "/" + setting.key && r.body.Some?
    ensures !r.body.value.BoolSetting?
    ensures setting.value.BoolSetting? ==> r.body.value == TextSetting(if setting.value.b then "true" else "false")
    ensures !setting.value.BoolSetting? ==> r.body.value == setting.value
  {
    var body := match setting.value
      case BoolSetting(b) => TextSetting(if b then "true" else "false")
      case _ => setting.value;
    Request(Put, Settings + "/" + setting.key, None, Some(body))
  }

  /** The body of a boolean setting cannot be told apart from the same word sent as text. */
  lemma BooleanBodyMatchesText(key: string, b: bool)
    ensures UpdateSetting(Setting(key, BoolSetting(b))) == UpdateSetting(Setting(key, TextSetting(if b then "true" else "false")))
  {
  }

  // ---------------------------------------------------------------------------
  // Reports posted with a list of application ids

  datatype ApplicationIdRef = ApplicationIdRef(applicationId: int)

  /** `applicationIds.map((f) => ({ applicationId: f }))` */
  function ApplicationIdPayload(ids: seq<int>): (r: seq<ApplicationIdRef>)
    ensures |r| == |ids|
    ensures forall i :: 0 <= i < |ids| ==> r[i].applicationId == ids[i]
  {
    if ids == [] then [] else [ApplicationIdRef(ids[0])] + ApplicationIdPayload(ids[1..])
  }

  /** The ids a payload carries. */
  function PayloadIds(payload: seq<ApplicationIdRef>): seq<int>
  {
    if payload == [] then [] else [payload[0].applicationId] + PayloadIds(payload[1..])
  }

  lemma {:induction false} PayloadRoundTrip(ids: seq<int>)
    ensures PayloadIds(ApplicationIdPayload(ids)) == ids
  {
    if ids != [] {
      PayloadRoundTrip(ids[1..]);
      assert ApplicationIdPayload(ids)[1..] == ApplicationIdPayload(ids[1..]);
    }
  }

  datatype ApplicationReport = AdoptionPlan | AssessmentLandscape | IdentifiedRisks | AssessmentConfidence

  function ReportUrl(report: ApplicationReport): string
  {
    match report
    case AdoptionPlan => Reports + "/adoptionplan"
    case AssessmentLandscape => Assessments + "/assessment-risk"
    case IdentifiedRisks => Assessments + "/risks"
    case AssessmentConfidence => Assessments + "/confidence"
  }

  /**
   * `getApplicationAdoptionPlan`, `getAssessmentLandscape`,
   * `getAssessmentIdentifiedRisks`, `getAssessmentConfidence`: POST the ids
   * as `{ applicationId }` records.
   */
  function ApplicationReportRequest(report: ApplicationReport, ids: seq<int>): (r: Request<seq<ApplicationIdRef>>)
    ensures r.verb == Post && r.url == ReportUrl(report) && r.accept.None?
    ensures r.body.Some? && PayloadIds(r.body.value) == ids
  {
    PayloadRoundTrip(ids);
    Request(Post, ReportUrl(report), None, Some(ApplicationIdPayload(ids)))
  }

  // ---------------------------------------------------------------------------
  // Content negotiation

  datatype Format = Json | Yaml

  function AcceptFor(format: Format): (accept: string)
    ensures accept == YamlAccept <==> format == Yaml
    ensures accept == JsonAccept <==> format == Json
  {
    assert |JsonAccept| == 16 && |YamlAccept| == 18;
    match format
    case Yaml => YamlAccept
    case Json => JsonAccept
  }

  /** `getTaskById`: the task URL with the Accept header chosen by the format. */
  function TaskByIdRequest(id: int, format: Format): (r: Request<()>)
    ensures r.verb == Get && r.url == Tasks + "/" + IntToString(id) && r.accept == Some(AcceptFor(format))
  {
    Request(Get, Tasks + "/" + IntToString(id), Some(AcceptFor(format)), None)
  }

  /** `getApplicationAnalysis`: the analysis URL with the Accept header chosen by the format. */
  function ApplicationAnalysisRequest(applicationId: int, format: Format): (r: Request<()>)
    ensures r.verb == Get && r.url == Applications + "/" + IntToString(applicationId) + "/analysis"
    ensures r.accept == Some(AcceptFor(format))
  {
    Request(Get, Applications + "/" + IntToString(applicationId) + "/analysis", Some(AcceptFor(format)), None)
  }
}
