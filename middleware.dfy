/**
 * The two security middlewares of main.go: securityHeaders, the one the server
 * installs, and strictDomainGuard, an alternative that is not installed. Both read
 * the same fixed allow-list. Calling the wrapped handler is the outcome Forward.
 */
module Middleware {
  import opened GoText
  import opened Http

  /** allowedOrigins: fixed at start-up and never changed. */
  const AllowedOrigins: set<string> := {"https://wh.io.vn"}

  const FrameAncestors: string := "frame-ancestors https://wh.io.vn https://localhost http://localhost;"
  const MethodOptions: string := "OPTIONS"
  /** The values securityHeaders gives the headers it sets. */
  const AllowMethodsValue: string := "GET, POST, OPTIONS"
  const AllowHeadersValue: string := "Content-Type, Authorization"
  const AllowCredentialsValue: string := "true"
  const FrameOptionsValue: string := "SAMEORIGIN"
  const XssValue: string := "1; mode=block"
  const ReferrerValue: string := "strict-origin-when-cross-origin"
  const PermissionsValue: string := "camera=(), microphone=(), geolocation=()"
  const HstsValue: string := "max-age=31536000; includeSubDomains"

  /** Whether a middleware passed the request on to the wrapped handler (exactly once)
      or finished the response itself. */
  datatype Outcome = Forward | Stop

  // ---------------------------------------------------------------- securityHeaders

  /** The four headers of the CORS step. */
  predicate IsCorsKey(k: HeaderKey) {
    k.AccessControlAllowOrigin? || k.AccessControlAllowMethods? || k.AccessControlAllowHeaders?
    || k.AccessControlAllowCredentials?
  }

  /** The six headers of the hardening step. */
  predicate IsHardeningKey(k: HeaderKey) {
    k.XContentTypeOptions? || k.XFrameOptions? || k.XXSSProtection? || k.ReferrerPolicy?
    || k.PermissionsPolicy? || k.StrictTransportSecurity?
  }

  /** The value securityHeaders gives each header it sets: the fixed texts of the
      source, except that Access-Control-Allow-Origin echoes the request's origin.
      Other headers are not set by it and have no value here. */
  function SecurityValue(k: HeaderKey, origin: string): string {
    match k
    case ContentSecurityPolicy => FrameAncestors
    case AccessControlAllowOrigin => origin
    case AccessControlAllowMethods => AllowMethodsValue
    case AccessControlAllowHeaders => AllowHeadersValue
    case AccessControlAllowCredentials => AllowCredentialsValue
    case XContentTypeOptions => NoSniff
    case XFrameOptions => FrameOptionsValue
    case XXSSProtection => XssValue
    case ReferrerPolicy => ReferrerValue
    case PermissionsPolicy => PermissionsValue
    case StrictTransportSecurity => HstsValue
    case _ => ""
  }

  /** The CORS step of securityHeaders: for an allow-listed origin, the four CORS
      headers with their values, echoing the origin. */
  function WithCors(h: Header, origin: string): (r: Header)
    ensures forall k :: k in r <==> k in h || (origin in AllowedOrigins && IsCorsKey(k))
    ensures origin in AllowedOrigins ==> forall k :: IsCorsKey(k) ==> r[k] == SecurityValue(k, origin)
    ensures origin in AllowedOrigins ==> AccessControlAllowOrigin in r && r[AccessControlAllowOrigin] == origin
    ensures forall k :: k in h && !IsCorsKey(k) ==> r[k] == h[k]
  {
    if origin in AllowedOrigins then
      h[AccessControlAllowOrigin := origin]
       [AccessControlAllowMethods := AllowMethodsValue]
       [AccessControlAllowHeaders := AllowHeadersValue]
       [AccessControlAllowCredentials := AllowCredentialsValue]
    else h
  }

  /** The hardening step of securityHeaders, reached only by a request that is not a
      preflight: the six hardening headers with their fixed values. */
  function WithHardening(h: Header, verb: string): (r: Header)
    ensures forall k :: k in r <==> k in h || (verb != MethodOptions && IsHardeningKey(k))
    ensures verb != MethodOptions ==> forall k :: IsHardeningKey(k) ==> r[k] == SecurityValue(k, "")
    ensures forall k :: k in h && !IsHardeningKey(k) ==> r[k] == h[k]
  {
    if verb == MethodOptions then h
    else
      h[XContentTypeOptions := NoSniff]
       [XFrameOptions := FrameOptionsValue]
       [XXSSProtection := XssValue]
       [ReferrerPolicy := ReferrerValue]
       [PermissionsPolicy := PermissionsValue]
       [StrictTransportSecurity := HstsValue]
  }

  /** The header map once securityHeaders has run over `h`. */
  function Secured(h: Header, origin: string, verb: string): Header {
    WithHardening(WithCors(h[ContentSecurityPolicy := FrameAncestors], origin), verb)
  }

  /** The headers securityHeaders sets. The frame-ancestors policy always; the four CORS
      headers, echoing the origin, exactly for an allow-listed origin; the hardening
      headers only when the request is not a preflight, since those are set after the
      OPTIONS answer. Nothing else, and each with its value. */
  function SecurityHeaderSet(origin: string, verb: string): (h: Header)
    ensures forall k :: k in h <==> (|| k == ContentSecurityPolicy
                                     || (origin in AllowedOrigins && IsCorsKey(k))
                                     || (verb != MethodOptions && IsHardeningKey(k)))
    ensures forall k :: k in h ==> h[k] == SecurityValue(k, origin)
    ensures h[ContentSecurityPolicy] == FrameAncestors
    ensures AccessControlAllowOrigin in h ==> h[AccessControlAllowOrigin] == origin
  {
    var csp: Header := map[ContentSecurityPolicy := FrameAncestors];
    var cors := WithCors(csp, origin);
    assert ContentSecurityPolicy in cors && cors[ContentSecurityPolicy] == FrameAncestors;
    WithHardening(cors, verb)
  }

  /** securityHeaders only sets: every header already present survives unless it is
      one of those it sets, which then carries the new value. */
  lemma {:induction false} SecuredOverrides(h: Header, origin: string, verb: string)
    ensures Secured(h, origin, verb) == h + SecurityHeaderSet(origin, verb)
  {
    var e: Header := map[];
    AddedOnTop(h, e, ContentSecurityPolicy, FrameAncestors);
    var c := e[ContentSecurityPolicy := FrameAncestors];
    assert h[ContentSecurityPolicy := FrameAncestors] == h + c;
    CorsOnTop(h, c, origin);
    HardeningOnTop(h, WithCors(c, origin), verb);
  }

  lemma CorsOnTop(base: Header, added: Header, origin: string)
    ensures WithCors(base + added, origin) == base + WithCors(added, origin)
  {
    if origin in AllowedOrigins {
      var a := added;
      AddedOnTop(base, a, AccessControlAllowOrigin, origin);
      a := a[AccessControlAllowOrigin := origin];
      AddedOnTop(base, a, AccessControlAllowMethods, AllowMethodsValue);
      a := a[AccessControlAllowMethods := AllowMethodsValue];
      AddedOnTop(base, a, AccessControlAllowHeaders, AllowHeadersValue);
      a := a[AccessControlAllowHeaders := AllowHeadersValue];
      AddedOnTop(base, a, AccessControlAllowCredentials, AllowCredentialsValue);
    }
  }

  lemma HardeningOnTop(base: Header, added: Header, verb: string)
    ensures WithHardening(base + added, verb) == base + WithHardening(added, verb)
  {
    if verb != MethodOptions {
      var a := added;
      AddedOnTop(base, a, XContentTypeOptions, NoSniff);
      a := a[XContentTypeOptions := NoSniff];
      AddedOnTop(base, a, XFrameOptions, FrameOptionsValue);
      a := a[XFrameOptions := FrameOptionsValue];
      AddedOnTop(base, a, XXSSProtection, XssValue);
      a := a[XXSSProtection := XssValue];
      AddedOnTop(base, a, ReferrerPolicy, ReferrerValue);
      a := a[ReferrerPolicy := ReferrerValue];
      AddedOnTop(base, a, PermissionsPolicy, PermissionsValue);
      a := a[PermissionsPolicy := PermissionsValue];
      AddedOnTop(base, a, StrictTransportSecurity, HstsValue);
    }
  }

  /** Setting one more header on top of a base map adds it to what was added. */
  lemma AddedOnTop(base: Header, added: Header, k: HeaderKey, v: string)
    ensures (base + added)[k := v] == base + added[k := v]
  {
  }

  /** A request with no Origin never receives CORS headers. */
  lemma NoOriginNoCors(verb: string)
    ensures AccessControlAllowOrigin !in SecurityHeaderSet("", verb)
  {
    assert "" !in AllowedOrigins;
  }

  /** securityHeaders: sets the headers step by step; a preflight is answered 204 with
      no body and never reaches the handler; anything else is forwarded. */
  method SecurityHeaders(w: ResponseWriter, r: Request) returns (outcome: Outcome)
    modifies w
    ensures w.header == Secured(old(w.header), r.origin, r.verb)
    ensures w.body == old(w.body)
    ensures r.verb == MethodOptions ==> outcome == Stop && w.status == (if old(w.status) == 0 then StatusNoContent else old(w.status))
    ensures r.verb != MethodOptions ==> outcome == Forward && w.status == old(w.status)
  {
    var origin := r.origin;

    w.SetHeader(ContentSecurityPolicy, FrameAncestors);

    if origin in AllowedOrigins {
      w.SetHeader(AccessControlAllowOrigin, origin);
      w.SetHeader(AccessControlAllowMethods, AllowMethodsValue);
      w.SetHeader(AccessControlAllowHeaders, AllowHeadersValue);
      w.SetHeader(AccessControlAllowCredentials, AllowCredentialsValue);
    }

    if r.verb == MethodOptions {
      w.WriteHeader(StatusNoContent);
      return Stop;
    }

    w.SetHeader(XContentTypeOptions, NoSniff);
    w.SetHeader(XFrameOptions, FrameOptionsValue);
    w.SetHeader(XXSSProtection, XssValue);
    w.SetHeader(ReferrerPolicy, ReferrerValue);
    w.SetHeader(PermissionsPolicy, PermissionsValue);
    w.SetHeader(StrictTransportSecurity, HstsValue);
    return Forward;
  }

  // ---------------------------------------------------------------- strictDomainGuard

  /** Some allow-listed origin is a prefix of the Referer. */
  predicate RefererListed(referer: string) {
    exists a :: a in AllowedOrigins && HasPrefix(referer, a)
  }

  /** The Referer loop of strictDomainGuard: it tries the allow-list entries in
      whatever order the map yields them and stops at the first prefix match, so
      it answers whether any entry matches. */
  method RefererAllowed(referer: string) returns (ok: bool)
    ensures ok <==> RefererListed(referer)
  {
    var rest := AllowedOrigins;
    while rest != {}
      invariant rest <= AllowedOrigins
      invariant forall a :: a in AllowedOrigins - rest ==> !HasPrefix(referer, a)
      decreases rest
    {
      var allowed :| allowed in rest;
      if HasPrefix(referer, allowed) {
        return true;
      }
      rest := rest - {allowed};
    }
    return false;
  }

  /** The decision of strictDomainGuard. */
  datatype GuardDecision = Pass | DirectAccess | InvalidDomain

  /** strictDomainGuard's decision: no Origin and no Referer is refused; an allow-listed
      Origin passes; otherwise a Referer starting with an allow-listed origin passes;
      everything else is refused. */
  function Guard(origin: string, referer: string): (d: GuardDecision)
    ensures d == DirectAccess <==> origin == "" && referer == ""
    ensures d == Pass <==> (origin != "" || referer != "") && (origin in AllowedOrigins || RefererListed(referer))
  {
    if origin == "" && referer == "" then DirectAccess
    else if origin != "" && origin in AllowedOrigins then Pass
    else if RefererListed(referer) then Pass
    else InvalidDomain
  }

  function GuardReply(d: GuardDecision): Reply
    requires d != Pass
  {
    if d == DirectAccess then ErrorReply("Forbidden - Direct access not allowed", StatusForbidden)
    else ErrorReply("Forbidden - Invalid domain", StatusForbidden)
  }

  /** strictDomainGuard: forwards what Guard passes and leaves the response untouched
      for the handler; answers 403 with the matching message otherwise. */
  method StrictDomainGuard(w: ResponseWriter, r: Request) returns (outcome: Outcome)
    modifies w
    ensures outcome == Forward <==> Guard(r.origin, r.referer) == Pass
    ensures outcome == Forward ==> w.header == old(w.header) && w.status == old(w.status) && w.body == old(w.body)
    ensures outcome == Stop ==>
      var reply := GuardReply(Guard(r.origin, r.referer));
      && w.header == Updated(old(w.header), reply)
      && w.status == (if old(w.status) == 0 then StatusForbidden else old(w.status))
      && w.body == old(w.body) + [reply.body]
  {
    var origin, referer := r.origin, r.referer;
    if origin == "" && referer == "" {
      w.Error("Forbidden - Direct access not allowed", StatusForbidden);
      return Stop;
    }
    if origin != "" && origin in AllowedOrigins {
      return Forward;
    }
    var listed := RefererAllowed(referer);
    if listed {
      return Forward;
    }
    w.Error("Forbidden - Invalid domain", StatusForbidden);
    return Stop;
  }

  /** The Referer test is a bare prefix test: a host that merely begins with the
      allow-listed text passes the guard. */
  lemma LookalikeRefererPasses()
    ensures Guard("", "https://wh.io.vn.example.com/") == Pass
  {
    assert HasPrefix("https://wh.io.vn.example.com/", "https://wh.io.vn");
  }

  /** An allow-listed origin is forwarded whatever the Referer. */
  lemma ListedOriginPasses(referer: string)
    ensures Guard("https://wh.io.vn", referer) == Pass
  {
  }

  /** A foreign Origin with no Referer is refused. */
  lemma ForeignOriginRefused(origin: string)
    requires origin != "" && origin !in AllowedOrigins
    ensures Guard(origin, "") == InvalidDomain
  {
    assert !HasPrefix("", "https://wh.io.vn");
  }
}
