/**
 * The interceptor chain in front of every RPC: the tenant interceptor, the token
 * interceptor and the logging interceptor, and their composition
 * Logging(Tenant(Token(handler))).
 *
 * Each interceptor is, as in the source, a function from the next handler to a handler.
 * Handlers are pure functions here, so "never calls next" shows as a result that is the
 * same whatever `next` is, and "calls next once and returns its result unchanged" as a
 * result equal to `next` applied to the one context and request it is given. The
 * authenticator's token extraction, OIDC verification and claims decoding are oracles
 * passed in as functions; the clock is passed in as the two instants the logging
 * interceptor reads.
 */
module Middleware {
  import opened Wrappers
  import opened Unicore
  import Sanitizer

  /** An inbound call: its procedure name, its headers, and the request object as reflection sees it. */
  datatype Request = Request(procedure: string, header: map<string, seq<string>>, body: Sanitizer.Value)

  /** `http.Header.Get` for a name already in canonical form: the first value, or "". */
  function HeaderGet(header: map<string, seq<string>>, name: string): string {
    if name in header && |header[name]| > 0 then header[name][0] else ""
  }

  /** What a handler returns: Go's `(connect.AnyResponse, error)` pair. */
  datatype Reply = Reply(resp: Option<Sanitizer.Value>, err: Option<ConnectError>)

  function Fail(e: ConnectError): Reply {
    Reply(None, Some(e))
  }

  type UnaryFunc = (Ctx, Request) -> Reply
  type Interceptor = UnaryFunc -> UnaryFunc

  /** A verified ID token, opaque to this layer. */
  datatype IdToken = IdToken(raw: string)

  /**
   * The authenticator's three steps, with their error text: `ExtractHeaderToken`,
   * `GetVerifier().Verify(ctx, token)` and `idToken.Claims(&claims)`.
   */
  datatype Authenticator = Authenticator(
    extractHeaderToken: Request -> Result<string, string>,
    verify: (Ctx, string) -> Result<IdToken, string>,
    decodeClaims: IdToken -> Result<UserAuthClaims, string>)

  // ---------------------------------------------------------------------------
  // Tenant interceptor

  /**
   * `UnaryTenantInterceptor`: a call without the tenant header ends with the header error and
   * never reaches `next`; any other call goes to `next` with the header's value as its tenant.
   */
  function UnaryTenantInterceptor(): (interceptor: Interceptor)
    ensures forall next: UnaryFunc, ctx: Ctx, req: Request | HeaderGet(req.header, XTenantHeader) == "" ::
      interceptor(next)(ctx, req) == Fail(ErrMissingTenantHeader)
    ensures forall next: UnaryFunc, ctx: Ctx, req: Request | HeaderGet(req.header, XTenantHeader) != "" ::
      interceptor(next)(ctx, req) == next(WithValue(ctx, XTenantKey, AnyString(HeaderGet(req.header, XTenantHeader))), req)
  {
    (next: UnaryFunc) => (ctx: Ctx, req: Request) =>
      var tenantID := HeaderGet(req.header, XTenantHeader);
      if tenantID == "" then Fail(ErrMissingTenantHeader)
      else next(WithValue(ctx, XTenantKey, AnyString(tenantID)), req)
  }

  /** Without the tenant header the call ends with ErrMissingTenantHeader, whatever `next` is. */
  lemma TenantRejectsMissingHeader(next: UnaryFunc, ctx: Ctx, req: Request)
    requires HeaderGet(req.header, XTenantHeader) == ""
    ensures UnaryTenantInterceptor()(next)(ctx, req) == Fail(ErrMissingTenantHeader)
    ensures ErrMissingTenantHeader.code == InvalidArgument
  {
  }

  /**
   * With the header, the result is `next`'s on a context that carries the header's value as
   * its tenant, which `GetTenant` then returns; nothing else in the context changes.
   */
  lemma TenantForwardsWithTenant(next: UnaryFunc, ctx: Ctx, req: Request)
    requires HeaderGet(req.header, XTenantHeader) != ""
    ensures var tenant := HeaderGet(req.header, XTenantHeader);
      var newCtx := WithValue(ctx, XTenantKey, AnyString(tenant));
      && UnaryTenantInterceptor()(next)(ctx, req) == next(newCtx, req)
      && GetTenant(newCtx) == Success(tenant)
      && (forall k :: k != XTenantKey ==> Value(newCtx, k) == Value(ctx, k))
      && newCtx.incoming == ctx.incoming
  {
  }

  // ---------------------------------------------------------------------------
  // Token interceptor

  const MsgMissingOrInvalidToken: string := "missing or invalid token: "
  const MsgInvalidToken: string := "invalid token: "
  const MsgFailedParsingClaims: string := "failed to parse token claims: "

  /**
   * `UnaryTokenInterceptor`: an exempt procedure goes to `next` untouched; a call without an
   * extractable token ends as Unauthenticated before `next`. The verification and decoding
   * branches are the lemmas below.
   */
  function UnaryTokenInterceptor(auth: Authenticator, routes: seq<string>): (interceptor: Interceptor)
    ensures forall next: UnaryFunc, ctx: Ctx, req: Request | req.procedure in routes ::
      interceptor(next)(ctx, req) == next(ctx, req)
    ensures forall next: UnaryFunc, ctx: Ctx, req: Request
      | req.procedure !in routes && auth.extractHeaderToken(req).Failure? ::
      interceptor(next)(ctx, req)
        == Fail(ConnectError(Unauthenticated, MsgMissingOrInvalidToken + auth.extractHeaderToken(req).error))
  {
    (next: UnaryFunc) => (ctx: Ctx, req: Request) =>
      if req.procedure in routes then next(ctx, req)
      else
        match auth.extractHeaderToken(req)
        case Failure(e) => Fail(ConnectError(Unauthenticated, MsgMissingOrInvalidToken + e))
        case Success(token) =>
          match auth.verify(ctx, token)
          case Failure(e) => Fail(ConnectError(Unauthenticated, MsgInvalidToken + e))
          case Success(idToken) =>
            match auth.decodeClaims(idToken)
            case Failure(e) => Fail(ConnectError(Internal, MsgFailedParsingClaims + e))
            case Success(claims) => next(WithValue(ctx, ContextKeyUser, AnyClaims(claims)), req)
  }

  /** An exempt route goes straight to `next` with the context unchanged, whatever the authenticator does. */
  lemma TokenExemptRoute(auth: Authenticator, routes: seq<string>, next: UnaryFunc, ctx: Ctx, req: Request)
    requires req.procedure in routes
    ensures UnaryTokenInterceptor(auth, routes)(next)(ctx, req) == next(ctx, req)
  {
  }

  /**
   * A failed extraction ends the call as Unauthenticated, whatever the verifier, the decoder
   * and `next` do. The error is built on the spot: it is never the exported ErrMissingOrInvalidToken.
   */
  lemma TokenExtractionFails(auth: Authenticator, routes: seq<string>, next: UnaryFunc, ctx: Ctx, req: Request)
    requires req.procedure !in routes && auth.extractHeaderToken(req).Failure?
    ensures UnaryTokenInterceptor(auth, routes)(next)(ctx, req)
      == Fail(ConnectError(Unauthenticated, MsgMissingOrInvalidToken + auth.extractHeaderToken(req).error))
    ensures UnaryTokenInterceptor(auth, routes)(next)(ctx, req).err != Some(ErrMissingOrInvalidToken)
  {
  }

  /**
   * A failed verification ends the call as Unauthenticated, whatever the decoder and `next`
   * do. The error is never the exported ErrInvalidToken.
   */
  lemma TokenVerificationFails(auth: Authenticator, routes: seq<string>, next: UnaryFunc, ctx: Ctx, req: Request)
    requires req.procedure !in routes && auth.extractHeaderToken(req).Success?
    requires auth.verify(ctx, auth.extractHeaderToken(req).value).Failure?
    ensures UnaryTokenInterceptor(auth, routes)(next)(ctx, req)
      == Fail(ConnectError(Unauthenticated, MsgInvalidToken + auth.verify(ctx, auth.extractHeaderToken(req).value).error))
    ensures UnaryTokenInterceptor(auth, routes)(next)(ctx, req).err != Some(ErrInvalidToken)
  {
  }

  /**
   * A verified token whose claims cannot be decoded ends the call as Internal, although the
   * exported ErrFailedParsingTokenClaims carries InvalidArgument.
   */
  lemma TokenDecodeFails(auth: Authenticator, routes: seq<string>, next: UnaryFunc, ctx: Ctx, req: Request)
    requires req.procedure !in routes && auth.extractHeaderToken(req).Success?
    requires auth.verify(ctx, auth.extractHeaderToken(req).value).Success?
    requires auth.decodeClaims(auth.verify(ctx, auth.extractHeaderToken(req).value).value).Failure?
    ensures var r := UnaryTokenInterceptor(auth, routes)(next)(ctx, req);
      && r == Fail(ConnectError(Internal, MsgFailedParsingClaims
           + auth.decodeClaims(auth.verify(ctx, auth.extractHeaderToken(req).value).value).error))
      && r.err.value.code != ErrFailedParsingTokenClaims.code
  {
  }

  /**
   * When all three steps succeed the result is `next`'s on a context that carries the decoded
   * claims, which `GetUserClaims` then returns; the tenant and every other entry are unchanged.
   */
  lemma TokenSucceeds(auth: Authenticator, routes: seq<string>, next: UnaryFunc, ctx: Ctx, req: Request)
    requires req.procedure !in routes && auth.extractHeaderToken(req).Success?
    requires auth.verify(ctx, auth.extractHeaderToken(req).value).Success?
    requires auth.decodeClaims(auth.verify(ctx, auth.extractHeaderToken(req).value).value).Success?
    ensures var claims := auth.decodeClaims(auth.verify(ctx, auth.extractHeaderToken(req).value).value).value;
      var newCtx := WithValue(ctx, ContextKeyUser, AnyClaims(claims));
      && UnaryTokenInterceptor(auth, routes)(next)(ctx, req) == next(newCtx, req)
      && GetUserClaims(newCtx) == claims
      && GetTenant(newCtx) == GetTenant(ctx)
      && (forall k :: k != ContextKeyUser ==> Value(newCtx, k) == Value(ctx, k))
  {
    var claims := auth.decodeClaims(auth.verify(ctx, auth.extractHeaderToken(req).value).value).value;
    var newCtx := WithValue(ctx, ContextKeyUser, AnyClaims(claims));
    assert Value(newCtx, XTenantKey) == Value(ctx, XTenantKey);
  }

  // ---------------------------------------------------------------------------
  // Logging interceptor

  /** The log entries the interceptor writes; durations are `end - start` of the two clock reads. */
  datatype LogEntry =
    | RequestReceived(procedure: string, request: Sanitizer.Value)
    | RequestFailed(procedure: string, err: ConnectError, duration: int)
    | RequestCompleted(procedure: string, response: Option<Sanitizer.Value>, duration: int)

  /** `time.Now()` before the call and the instant `time.Since(start)` reads after it. */
  datatype Clock = Clock(start: int, end: int)

  datatype Logged = Logged(reply: Reply, log: seq<LogEntry>)

  type LoggedFunc = (Ctx, Request, Clock) -> Logged

  /**
   * `LoggingUnaryInterceptor`: every call reaches `next` and returns its reply; the first log
   * entry is the sanitized request.
   */
  function LoggingUnaryInterceptor(): (interceptor: UnaryFunc -> LoggedFunc)
    ensures forall next: UnaryFunc, ctx: Ctx, req: Request, clock: Clock ::
      var out := interceptor(next)(ctx, req, clock);
      out.reply == next(ctx, req) && |out.log| == 2
      && out.log[0] == RequestReceived(req.procedure, Sanitizer.SanitizeRequest(req.body))
  {
    (next: UnaryFunc) => (ctx: Ctx, request: Request, clock: Clock) =>
      var fullMethod := request.procedure;
      var sanitizedReq := Sanitizer.SanitizeRequest(request.body);
      var received := RequestReceived(fullMethod, sanitizedReq);
      var reply := next(ctx, request);
      var duration := clock.end - clock.start;
      var outcome := if reply.err.Some? then RequestFailed(fullMethod, reply.err.value, duration)
                     else RequestCompleted(fullMethod, reply.resp, duration);
      Logged(reply, [received, outcome])
  }

  /**
   * Logging is transparent: the reply is exactly `next`'s. It writes two entries: the request
   * as sanitized, then the failure with its duration or the completion with the response
   * (the response is logged as it is, not sanitized).
   */
  lemma LoggingIsTransparent(next: UnaryFunc, ctx: Ctx, req: Request, clock: Clock)
    ensures var out := LoggingUnaryInterceptor()(next)(ctx, req, clock);
      var reply := next(ctx, req);
      && out.reply == reply
      && |out.log| == 2
      && out.log[0] == RequestReceived(req.procedure, Sanitizer.SanitizeRequest(req.body))
      && (reply.err.Some? ==> out.log[1] == RequestFailed(req.procedure, reply.err.value, clock.end - clock.start))
      && (reply.err.None? ==> out.log[1] == RequestCompleted(req.procedure, reply.resp, clock.end - clock.start))
  {
  }

  /**
   * For a struct request, the logged copy masks sensitive and unexported fields of the
   * struct's own fields and of nested struct fields; nothing behind a pointer field is masked.
   */
  lemma LoggedRequestIsMasked(next: UnaryFunc, ctx: Ctx, req: Request, clock: Clock, fs: seq<Sanitizer.Field>)
    requires req.body == Sanitizer.Struct(fs) || req.body == Sanitizer.Ptr(Some(Sanitizer.Struct(fs)))
    ensures var logged := LoggingUnaryInterceptor()(next)(ctx, req, clock).log[0];
      && logged.RequestReceived?
      && logged.request.Ptr? && logged.request.target.Some? && logged.request.target.value.Struct?
      && Sanitizer.Masked(logged.request.target.value.fields, Sanitizer.SensitiveFields)
      && Sanitizer.SameLayout(logged.request.target.value.fields, fs)
  {
    LoggingIsTransparent(next, ctx, req, clock);
    assert Sanitizer.SanitizeRequest(req.body)
      == Sanitizer.Ptr(Some(Sanitizer.Struct(Sanitizer.SanitizedFields(fs, Sanitizer.SensitiveFields))));
    Sanitizer.SanitizeMasksAtEveryDepth(fs, Sanitizer.SensitiveFields);
    Sanitizer.SanitizeKeepsLayout(fs, Sanitizer.SensitiveFields);
  }

  /**
   * The call site: the interceptor hands `sanitizeRequest` the `*connect.Request` wrapper,
   * whose only exported field is the pointer `Msg`; its other fields are unexported. The
   * logged `Msg` is therefore the original message, unmasked; the wrapper's internals are
   * zeroed; and the nested-struct panic of the code as written is never reached from here.
   */
  lemma ConnectRequestMessageLoggedAsIs(next: UnaryFunc, ctx: Ctx, req: Request, clock: Clock,
                                        msg: Sanitizer.Value, internals: seq<Sanitizer.Field>)
    requires forall i :: 0 <= i < |internals| ==> !internals[i].exported
    requires req.body == Sanitizer.Ptr(Some(Sanitizer.Struct([Sanitizer.Field("Msg", true, Sanitizer.PtrKind, msg)] + internals)))
    ensures var logged := LoggingUnaryInterceptor()(next)(ctx, req, clock).log[0];
      && logged.RequestReceived?
      && logged.request.Ptr? && logged.request.target.Some? && logged.request.target.value.Struct?
      && var out := logged.request.target.value.fields;
      && |out| == 1 + |internals|
      && out[0] == Sanitizer.Field("Msg", true, Sanitizer.PtrKind, msg)
      && (forall i :: 1 <= i < |out| ==> Sanitizer.IsZero(out[i]))
    ensures Sanitizer.SanitizedAsWritten(req.body, Sanitizer.SensitiveFields) == Success(Sanitizer.SanitizeRequest(req.body))
  {
    var fs := [Sanitizer.Field("Msg", true, Sanitizer.PtrKind, msg)] + internals;
    var out := Sanitizer.SanitizedFields(fs, Sanitizer.SensitiveFields);
    LoggingIsTransparent(next, ctx, req, clock);
    Sanitizer.PlainExampleShortNames();
    Sanitizer.SanitizeKeepsPlainFields(fs, Sanitizer.SensitiveFields, 0);
    forall i | 1 <= i < |out|
      ensures Sanitizer.IsZero(out[i])
    {
      Sanitizer.SanitizedFieldsAt(fs, Sanitizer.SensitiveFields, i);
      Sanitizer.ZeroOfIsZero(fs[i]);
    }
    Sanitizer.FlatStructAsWrittenAgrees(fs, Sanitizer.SensitiveFields);
  }

  // ---------------------------------------------------------------------------
  // The chain Logging(Tenant(Token(handler)))

  function Chain(auth: Authenticator, routes: seq<string>, handler: UnaryFunc): LoggedFunc {
    LoggingUnaryInterceptor()(UnaryTenantInterceptor()(UnaryTokenInterceptor(auth, routes)(handler)))
  }

  /** Where a call ends before the handler, or the context the handler is given. */
  datatype Admission = Rejected(err: ConnectError) | Admitted(ctx: Ctx)

  /**
   * The chain's decision as one ladder: the tenant header check, then the exempt-procedure
   * check, then token extraction, verification and claims decoding; each check can end the
   * call with its error, and a call that passes them all reaches the handler.
   */
  function Admit(auth: Authenticator, routes: seq<string>, ctx: Ctx, req: Request): Admission {
    var tenant := HeaderGet(req.header, XTenantHeader);
    if tenant == "" then Rejected(ErrMissingTenantHeader)
    else
      var tenantCtx := WithValue(ctx, XTenantKey, AnyString(tenant));
      if req.procedure in routes then Admitted(tenantCtx)
      else if auth.extractHeaderToken(req).Failure? then
        Rejected(ConnectError(Unauthenticated, MsgMissingOrInvalidToken + auth.extractHeaderToken(req).error))
      else
        var token := auth.extractHeaderToken(req).value;
        if auth.verify(tenantCtx, token).Failure? then
          Rejected(ConnectError(Unauthenticated, MsgInvalidToken + auth.verify(tenantCtx, token).error))
        else
          var idToken := auth.verify(tenantCtx, token).value;
          if auth.decodeClaims(idToken).Failure? then
            Rejected(ConnectError(Internal, MsgFailedParsingClaims + auth.decodeClaims(idToken).error))
          else
            Admitted(WithValue(tenantCtx, ContextKeyUser, AnyClaims(auth.decodeClaims(idToken).value)))
  }

  /** The composed chain follows the ladder: a rejected call never reaches the handler; an admitted one returns the handler's reply. */
  lemma ChainFollowsAdmission(auth: Authenticator, routes: seq<string>, handler: UnaryFunc, ctx: Ctx, req: Request, clock: Clock)
    ensures var out := Chain(auth, routes, handler)(ctx, req, clock);
      match Admit(auth, routes, ctx, req)
      case Rejected(e) => out.reply == Fail(e) && out.log[1] == RequestFailed(req.procedure, e, clock.end - clock.start)
      case Admitted(c) => out.reply == handler(c, req)
  {
    var inner := UnaryTenantInterceptor()(UnaryTokenInterceptor(auth, routes)(handler));
    LoggingIsTransparent(inner, ctx, req, clock);
    var tenant := HeaderGet(req.header, XTenantHeader);
    if tenant != "" {
      var tenantCtx := WithValue(ctx, XTenantKey, AnyString(tenant));
      TenantForwardsWithTenant(UnaryTokenInterceptor(auth, routes)(handler), ctx, req);
      assert inner(ctx, req) == UnaryTokenInterceptor(auth, routes)(handler)(tenantCtx, req);
    }
  }

  /**
   * Every admitted call carries the tenant header's non-empty value, which `GetTenant`
   * returns; a call on a non-exempt route also carries the decoded claims. The tenant check
   * has no exemption.
   */
  lemma AdmittedCallsCarryIdentity(auth: Authenticator, routes: seq<string>, ctx: Ctx, req: Request)
    requires Admit(auth, routes, ctx, req).Admitted?
    ensures var c := Admit(auth, routes, ctx, req).ctx;
      var tenant := HeaderGet(req.header, XTenantHeader);
      && tenant != ""
      && GetTenant(c) == Success(tenant)
      && Value(c, XTenantKey) == Some(AnyString(tenant))
      && (req.procedure !in routes ==>
            Value(c, ContextKeyUser).Some? && Value(c, ContextKeyUser).value.AnyClaims?)
  {
    var tenant := HeaderGet(req.header, XTenantHeader);
    var tenantCtx := WithValue(ctx, XTenantKey, AnyString(tenant));
    assert GetTenant(tenantCtx) == Success(tenant);
    if req.procedure !in routes {
      var c := Admit(auth, routes, ctx, req).ctx;
      assert Value(c, XTenantKey) == Value(tenantCtx, XTenantKey);
    }
  }

  /** A call without the tenant header fails with ErrMissingTenantHeader on every route, exempt or not. */
  lemma ChainRejectsMissingTenant(auth: Authenticator, routes: seq<string>, handler: UnaryFunc, ctx: Ctx, req: Request, clock: Clock)
    requires HeaderGet(req.header, XTenantHeader) == ""
    ensures var out := Chain(auth, routes, handler)(ctx, req, clock);
      && out.reply == Fail(ErrMissingTenantHeader)
      && out.log == [RequestReceived(req.procedure, Sanitizer.SanitizeRequest(req.body)),
                     RequestFailed(req.procedure, ErrMissingTenantHeader, clock.end - clock.start)]
  {
    ChainFollowsAdmission(auth, routes, handler, ctx, req, clock);
    LoggingIsTransparent(UnaryTenantInterceptor()(UnaryTokenInterceptor(auth, routes)(handler)), ctx, req, clock);
  }

  /**
   * A call with a tenant and a token that fails verification ends as Unauthenticated
   * "invalid token: ..." and is logged as a failure with its duration.
   */
  lemma ChainRejectsUnverifiedToken(auth: Authenticator, routes: seq<string>, handler: UnaryFunc, ctx: Ctx, req: Request, clock: Clock)
    requires HeaderGet(req.header, XTenantHeader) != "" && req.procedure !in routes
    requires auth.extractHeaderToken(req).Success?
    requires var tenantCtx := WithValue(ctx, XTenantKey, AnyString(HeaderGet(req.header, XTenantHeader)));
      auth.verify(tenantCtx, auth.extractHeaderToken(req).value).Failure?
    ensures var out := Chain(auth, routes, handler)(ctx, req, clock);
      && out.reply.err.Some? && out.reply.err.value.code == Unauthenticated && out.reply.resp.None?
      && out.log[1] == RequestFailed(req.procedure, out.reply.err.value, clock.end - clock.start)
  {
    ChainFollowsAdmission(auth, routes, handler, ctx, req, clock);
  }

  /**
   * A call with a tenant and a valid token on a protected route reaches the handler with a
   * context from which `GetTenant` and `GetUserClaims` return the header's tenant and the
   * decoded claims.
   */
  lemma ChainAuthenticatedCall(auth: Authenticator, routes: seq<string>, handler: UnaryFunc, ctx: Ctx, req: Request, clock: Clock)
    requires HeaderGet(req.header, XTenantHeader) != "" && req.procedure !in routes
    requires auth.extractHeaderToken(req).Success?
    requires var tenantCtx := WithValue(ctx, XTenantKey, AnyString(HeaderGet(req.header, XTenantHeader)));
      && auth.verify(tenantCtx, auth.extractHeaderToken(req).value).Success?
      && auth.decodeClaims(auth.verify(tenantCtx, auth.extractHeaderToken(req).value).value).Success?
    ensures var tenant := HeaderGet(req.header, XTenantHeader);
      var tenantCtx := WithValue(ctx, XTenantKey, AnyString(tenant));
      var claims := auth.decodeClaims(auth.verify(tenantCtx, auth.extractHeaderToken(req).value).value).value;
      var handlerCtx := WithValue(tenantCtx, ContextKeyUser, AnyClaims(claims));
      && Chain(auth, routes, handler)(ctx, req, clock).reply == handler(handlerCtx, req)
      && GetTenant(handlerCtx) == Success(tenant)
      && GetUserClaims(handlerCtx) == claims
  {
    ChainFollowsAdmission(auth, routes, handler, ctx, req, clock);
    var tenant := HeaderGet(req.header, XTenantHeader);
    var tenantCtx := WithValue(ctx, XTenantKey, AnyString(tenant));
    var claims := auth.decodeClaims(auth.verify(tenantCtx, auth.extractHeaderToken(req).value).value).value;
    var handlerCtx := WithValue(tenantCtx, ContextKeyUser, AnyClaims(claims));
    assert Value(handlerCtx, XTenantKey) == Value(tenantCtx, XTenantKey);
  }

  /**
   * The tenant scope a handler builds binds the non-empty tenant the chain admitted, so a
   * query can never be scoped to a missing tenant.
   */
  lemma AdmittedTenantScope(auth: Authenticator, routes: seq<string>, ctx: Ctx, req: Request, db: Query)
    requires Admit(auth, routes, ctx, req).Admitted?
    ensures var scoped := WithTenantScope(Admit(auth, routes, ctx, req).ctx, db);
      && scoped.wheres == db.wheres + [Where("tenant_id = ?", Some(AnyString(HeaderGet(req.header, XTenantHeader))))]
      && HeaderGet(req.header, XTenantHeader) != ""
  {
    AdmittedCallsCarryIdentity(auth, routes, ctx, req);
  }
}
