/**
 * The development proxy rules (common/src/proxies.ts): the headers added to
 * requests forwarded to the authentication server and to the hub, the
 * redirect of unauthorised browser requests, and the `/hub` path rewrite.
 * The proxy middleware is not part of this model; an outgoing request is a
 * header map that the callbacks update, and a response records where it was
 * redirected.
 */
module Proxies {
  import opened Common

  const ForwardedFor := "X-Forwarded-For"
  const RealIp := "X-Real-IP"
  const ForwardedHost := "X-Forwarded-Host"
  const Accept := "Accept"
  const Authorization := "Authorization"
  const WindupReportFilter := "windup/report/?filter"
  const JsonMediaType := "application/json"

  /** What the callbacks read from the incoming request; every part may be absent. */
  datatype IncomingRequest = IncomingRequest(
    originalUrl: string,
    remoteAddress: Option<string>,
    host: Option<string>,
    accept: Option<string>,
    authorization: Option<string>,
    keycloakCookie: Option<string>)

  /** One `proxyReq.setHeader(name, value)` call. */
  datatype HeaderSet = HeaderSet(name: string, value: string)

  /** The headers after the calls, in order: a later call for the same name wins. */
  function Apply(headers: map<string, string>, updates: seq<HeaderSet>): map<string, string>
    decreases |updates|
  {
    if updates == [] then headers else Apply(headers[updates[0].name := updates[0].value], updates[1..])
  }

  lemma {:induction false} ApplyAppend(headers: map<string, string>, a: seq<HeaderSet>, b: seq<HeaderSet>)
    ensures Apply(headers, a + b) == Apply(Apply(headers, a), b)
    decreases |a|
  {
    if a == [] {
      assert a + b == b;
    } else {
      assert (a + b)[0] == a[0];
      assert (a + b)[1..] == a[1..] + b;
      ApplyAppend(headers[a[0].name := a[0].value], a[1..], b);
    }
  }

  /** Headers no call names are left as they were. */
  lemma {:induction false} ApplyKeepsOthers(headers: map<string, string>, updates: seq<HeaderSet>, name: string)
    requires forall k :: 0 <= k < |updates| ==> updates[k].name != name
    ensures name in Apply(headers, updates) <==> name in headers
    ensures name in headers ==> Apply(headers, updates)[name] == headers[name]
    decreases |updates|
  {
    if updates != [] {
      ApplyKeepsOthers(headers[updates[0].name := updates[0].value], updates[1..], name);
    }
  }

  /** A header named by exactly one call ends up with that call's value. */
  lemma {:induction false} ApplySetsOnce(headers: map<string, string>, updates: seq<HeaderSet>, k: nat)
    requires k < |updates|
    requires forall j :: 0 <= j < |updates| && j != k ==> updates[j].name != updates[k].name
    ensures updates[k].name in Apply(headers, updates)
    ensures Apply(headers, updates)[updates[k].name] == updates[k].value
    decreases |updates|
  {
    if k == 0 {
      ApplyKeepsOthers(headers[updates[0].name := updates[0].value], updates[1..], updates[0].name);
    } else {
      ApplySetsOnce(headers[updates[0].name := updates[0].value], updates[1..], k - 1);
    }
  }

  /** An outgoing request: its header map, updated in place by `setHeader`. */
  class ProxyRequest {
    var headers: map<string, string>

    constructor(headers: map<string, string>)
      ensures this.headers == headers
    {
      this.headers := headers;
    }

    method SetHeader(name: string, value: string)
      modifies this
      ensures headers == old(headers)[name := value]
    {
      headers := headers[name := value];
    }
  }

  // ---------------------------------------------------------------------------
  // /auth

  /** The calls made on `/auth`: the client address twice when known, then the host when known. */
  function AuthHeaderUpdates(req: IncomingRequest): (updates: seq<HeaderSet>)
    ensures |updates| == (if TruthyText(req.remoteAddress) then 2 else 0) + (if TruthyText(req.host) then 1 else 0)
    ensures TruthyText(req.remoteAddress) ==>
      updates[0] == HeaderSet(ForwardedFor, req.remoteAddress.value) && updates[1] == HeaderSet(RealIp, req.remoteAddress.value)
    ensures TruthyText(req.host) ==> updates[|updates| - 1] == HeaderSet(ForwardedHost, req.host.value)
  {
    (if TruthyText(req.remoteAddress)
     then [HeaderSet(ForwardedFor, req.remoteAddress.value), HeaderSet(RealIp, req.remoteAddress.value)]
     else [])
    + (if TruthyText(req.host) then [HeaderSet(ForwardedHost, req.host.value)] else [])
  }

  /** `onProxyReq` of `/auth`. */
  method OnAuthProxyReq(proxyReq: ProxyRequest, req: IncomingRequest)
    modifies proxyReq
    ensures proxyReq.headers == Apply(old(proxyReq.headers), AuthHeaderUpdates(req))
  {
    ghost var before := proxyReq.headers;
    ghost var address: seq<HeaderSet> := [];
    if TruthyText(req.remoteAddress) {
      proxyReq.SetHeader(ForwardedFor, req.remoteAddress.value);
      proxyReq.SetHeader(RealIp, req.remoteAddress.value);
      address := [HeaderSet(ForwardedFor, req.remoteAddress.value), HeaderSet(RealIp, req.remoteAddress.value)];
      ghost var once := before[ForwardedFor := req.remoteAddress.value];
      assert address[1..][1..] == [];
      assert Apply(once[RealIp := req.remoteAddress.value], []) == proxyReq.headers;
      assert Apply(once, address[1..]) == proxyReq.headers;
    }
    assert proxyReq.headers == Apply(before, address);
    if TruthyText(req.host) {
      proxyReq.SetHeader(ForwardedHost, req.host.value);
      ApplyAppend(before, address, [HeaderSet(ForwardedHost, req.host.value)]);
    } else {
      assert address + [] == address;
    }
  }

  /** On `/auth` the forwarding headers carry the client address and host verbatim; nothing else changes. */
  lemma AuthHeadersAfterCall(headers: map<string, string>, req: IncomingRequest, name: string)
    ensures TruthyText(req.remoteAddress) ==>
      ForwardedFor in Apply(headers, AuthHeaderUpdates(req)) && RealIp in Apply(headers, AuthHeaderUpdates(req)) &&
      Apply(headers, AuthHeaderUpdates(req))[ForwardedFor] == req.remoteAddress.value &&
      Apply(headers, AuthHeaderUpdates(req))[RealIp] == req.remoteAddress.value
    ensures TruthyText(req.host) ==>
      ForwardedHost in Apply(headers, AuthHeaderUpdates(req)) &&
      Apply(headers, AuthHeaderUpdates(req))[ForwardedHost] == req.host.value
    ensures name != ForwardedFor && name != RealIp && name != ForwardedHost ==>
      (name in Apply(headers, AuthHeaderUpdates(req)) <==> name in headers)
  {
    var updates := AuthHeaderUpdates(req);
    assert ForwardedFor != RealIp && ForwardedFor != ForwardedHost && RealIp != ForwardedHost by {
      assert ForwardedFor[2] == 'F' && RealIp[2] == 'R';
      assert |ForwardedFor| != |ForwardedHost|;
      assert |RealIp| != |ForwardedHost|;
    }
    assert forall k :: 0 <= k < |updates| ==> updates[k].name in {ForwardedFor, RealIp, ForwardedHost};
    if TruthyText(req.remoteAddress) {
      ApplySetsOnce(headers, updates, 0);
      ApplySetsOnce(headers, updates, 1);
    }
    if TruthyText(req.host) {
      ApplySetsOnce(headers, updates, |updates| - 1);
    }
    if name != ForwardedFor && name != RealIp && name != ForwardedHost {
      ApplyKeepsOthers(headers, updates, name);
    }
  }

  // ---------------------------------------------------------------------------
  // /hub

  /**
   * The calls made on `/hub`: Accept cleared for legacy report filter URLs,
   * then a bearer token from the Keycloak cookie when the request carries no
   * Authorization header of its own.
   */
  function HubHeaderUpdates(req: IncomingRequest): (updates: seq<HeaderSet>)
    ensures (exists k :: 0 <= k < |updates| && updates[k].name == Accept) <==> Includes(req.originalUrl, WindupReportFilter)
    ensures (exists k :: 0 <= k < |updates| && updates[k].name == Authorization) <==>
      TruthyText(req.keycloakCookie) && !TruthyText(req.authorization)
    ensures forall k :: 0 <= k < |updates| && updates[k].name == Accept ==> updates[k].value == ""
    ensures forall k :: 0 <= k < |updates| && updates[k].name == Authorization ==>
      updates[k].value == "Bearer " + req.keycloakCookie.value
    ensures forall k :: 0 <= k < |updates| ==> updates[k].name == Accept || updates[k].name == Authorization
    ensures forall j, k :: 0 <= j < k < |updates| ==> updates[j].name != updates[k].name
  {
    assert Accept != Authorization by {
      assert Accept[1] != Authorization[1];
    }
    var accept := if Includes(req.originalUrl, WindupReportFilter) then [HeaderSet(Accept, "")] else [];
    var bearer := if TruthyText(req.keycloakCookie) && !TruthyText(req.authorization)
      then [HeaderSet(Authorization, "Bearer " + req.keycloakCookie.value)]
      else [];
    var updates := accept + bearer;
    assert forall k :: 0 <= k < |updates| ==> updates[k] == if k < |accept| then accept[k] else bearer[k - |accept|];
    assert accept != [] ==> updates[0].name == Accept;
    assert bearer != [] ==> updates[|updates| - 1].name == Authorization;
    updates
  }

  /** `onProxyReq` of `/hub`. */
  method OnHubProxyReq(proxyReq: ProxyRequest, req: IncomingRequest)
    modifies proxyReq
    ensures proxyReq.headers == Apply(old(proxyReq.headers), HubHeaderUpdates(req))
  {
    ghost var before := proxyReq.headers;
    ghost var accept: seq<HeaderSet> := [];
    if Includes(req.originalUrl, WindupReportFilter) {
      proxyReq.SetHeader(Accept, "");
      accept := [HeaderSet(Accept, "")];
    }
    assert proxyReq.headers == Apply(before, accept);
    if TruthyText(req.keycloakCookie) && !TruthyText(req.authorization) {
      proxyReq.SetHeader(Authorization, "Bearer " + req.keycloakCookie.value);
      ApplyAppend(before, accept, [HeaderSet(Authorization, "Bearer " + req.keycloakCookie.value)]);
    } else {
      assert accept + [] == accept;
    }
  }

  /** A bearer token is forwarded exactly when the cookie is there and the request has no Authorization of its own. */
  lemma BearerInjection(headers: map<string, string>, req: IncomingRequest)
    requires Authorization !in headers
    ensures Authorization in Apply(headers, HubHeaderUpdates(req)) <==>
      TruthyText(req.keycloakCookie) && !TruthyText(req.authorization)
    ensures Authorization in Apply(headers, HubHeaderUpdates(req)) ==>
      Apply(headers, HubHeaderUpdates(req))[Authorization] == "Bearer " + req.keycloakCookie.value
  {
    var updates := HubHeaderUpdates(req);
    if k :| 0 <= k < |updates| && updates[k].name == Authorization {
      ApplySetsOnce(headers, updates, k);
    } else {
      ApplyKeepsOthers(headers, updates, Authorization);
    }
  }

  // ---------------------------------------------------------------------------
  // Responses

  /** `req.headers.accept?.includes("application/json")`, absent counting as false. */
  function AcceptsJson(accept: Option<string>): (json: bool)
    ensures accept.None? ==> !json
    ensures json <==> accept.Some? && exists k :: OccursAt(accept.value, JsonMediaType, k)
  {
    if accept.Some? then IncludesIffOccurs(accept.value, JsonMediaType); Includes(accept.value, JsonMediaType)
    else false
  }

  /** The hub answer is redirected to `/` when the client is not a JSON client and the hub said 401 / Unauthorized. */
  function ShouldRedirect(accept: Option<string>, statusCode: int, statusMessage: string): (redirect: bool)
    ensures redirect ==> !AcceptsJson(accept)
    ensures redirect <==> !AcceptsJson(accept) && (statusCode == 401 || statusMessage == "Unauthorized")
  {
    (!AcceptsJson(accept) && statusCode == 401) || (!AcceptsJson(accept) && statusMessage == "Unauthorized")
  }

  /** A client whose Accept header lists `application/json` anywhere is never redirected. */
  lemma JsonClientsAreNotRedirected(pre: string, post: string, statusCode: int, statusMessage: string)
    ensures !ShouldRedirect(Some(pre + JsonMediaType + post), statusCode, statusMessage)
  {
    var accept := pre + JsonMediaType + post;
    assert accept[|pre|..|pre| + |JsonMediaType|] == JsonMediaType;
    assert OccursAt(accept, JsonMediaType, |pre|);
    IncludesIffOccurs(accept, JsonMediaType);
  }

  /** A request without an Accept header that meets a 401 is redirected. */
  lemma BrowserRedirectedOnUnauthorized(statusMessage: string)
    ensures ShouldRedirect(None, 401, statusMessage)
  {
  }

  /** The response as the proxy callback sees it: where, if anywhere, it was redirected. */
  class ServerResponse {
    var redirectedTo: Option<string>

    constructor()
      ensures redirectedTo.None?
    {
      redirectedTo := None;
    }

    method Redirect(location: string)
      modifies this
      ensures redirectedTo == Some(location)
    {
      redirectedTo := Some(location);
    }
  }

  /** `onProxyRes` of `/hub`. */
  method OnHubProxyRes(res: ServerResponse, req: IncomingRequest, statusCode: int, statusMessage: string)
    modifies res
    ensures ShouldRedirect(req.accept, statusCode, statusMessage) ==> res.redirectedTo == Some("/")
    ensures !ShouldRedirect(req.accept, statusCode, statusMessage) ==> res.redirectedTo == old(res.redirectedTo)
  {
    var includesJsonHeaders := AcceptsJson(req.accept);
    if (!includesJsonHeaders && statusCode == 401) || (!includesJsonHeaders && statusMessage == "Unauthorized") {
      res.Redirect("/");
    }
  }

  // ---------------------------------------------------------------------------
  // Path rewrite

  const HubPrefix := "/hub"

  /** `pathRewrite: { "^/hub": "" }`: a leading `/hub` is removed, any other path is kept. */
  function RewriteHubPath(path: string): (r: string)
    ensures |path| >= 4 && path[..4] == HubPrefix ==> HubPrefix + r == path
    ensures !(|path| >= 4 && path[..4] == HubPrefix) ==> r == path
  {
    if |path| >= 4 && path[..4] == HubPrefix then path[4..] else path
  }

  /** Forwarding `/hub` + a hub path reaches exactly that hub path. */
  lemma RewriteStripsPrefix(hubPath: string)
    ensures RewriteHubPath(HubPrefix + hubPath) == hubPath
  {
    assert (HubPrefix + hubPath)[..4] == HubPrefix;
    assert (HubPrefix + hubPath)[4..] == hubPath;
  }
}
