/**
 * The data types and the context helpers of the `unicore` package: the token claims,
 * the per-call context, the paged result, the two query scopes handed to the
 * persistence layer, and the connect errors the package exports.
 *
 * A `*gorm.DB` is represented by the clauses the scopes add to it (`Query`);
 * how GORM renders them as SQL is not part of this model.
 */
module Unicore {
  import opened Wrappers
  import opened GoInts

  /** Context key under which the tenant id is stored; also the header and metadata name. */
  const XTenantKey: string := "x-tenant-id"
  /** `http.Header.Get` looks a name up in its canonical MIME form. */
  const XTenantHeader: string := "X-Tenant-Id"
  /** Context key under which the decoded claims are stored. */
  const ContextKeyUser: string := "UserClaimsKey"

  // ---------------------------------------------------------------------------
  // Claims: plain records decoded from a verified token.

  /** The registered claims of RFC 7519 section 4.1, as the JWT library embeds them. */
  datatype RegisteredClaims = RegisteredClaims(
    issuer: string,
    subject: string,
    audience: seq<string>,
    expiresAt: Option<int>,
    notBefore: Option<int>,
    issuedAt: Option<int>,
    id: string)

  datatype AccountRoles = AccountRoles(roles: seq<string>)
  datatype RealmAccess = RealmAccess(roles: seq<string>)
  datatype ResourceAccess = ResourceAccess(account: AccountRoles)

  datatype UserAuthClaims = UserAuthClaims(
    exp: int64,
    iat: int64,
    jti: string,
    iss: string,
    aud: seq<string>,
    id: string,
    typ: string,
    azp: string,
    sid: string,
    acr: string,
    allowedOrigins: seq<string>,
    realmAccess: RealmAccess,
    resourceAccess: ResourceAccess,
    scope: string,
    emailVerified: bool,
    organization: seq<string>,
    name: string,
    preferredUsername: string,
    givenName: string,
    familyName: string,
    email: string,
    registered: RegisteredClaims)

  // ---------------------------------------------------------------------------
  // Errors

  /** The connect status codes this package uses. */
  datatype Code = InvalidArgument | Unauthenticated | Internal

  /** A `*connect.Error`: a status code and the message of the wrapped error. */
  datatype ConnectError = ConnectError(code: Code, message: string)

  const ErrMissingTenantHeader: ConnectError :=
    ConnectError(InvalidArgument, "x-tenant-id is required in the header")
  const ErrFailedParsingTokenClaims: ConnectError :=
    ConnectError(InvalidArgument, "token claims could not be parsed")
  const ErrInvalidToken: ConnectError :=
    ConnectError(Unauthenticated, "invalid token")
  const ErrMissingOrInvalidToken: ConnectError :=
    ConnectError(Unauthenticated, "missing or invalid token")

  /** The plain error `GetTenant` returns when neither source holds a tenant id. */
  const ErrTenantNotFound: string :=
    "could not extract tenant id: x-tenant-id not found in context or metadata"

  // ---------------------------------------------------------------------------
  // The per-call context

  /** A value stored in a context: Go stores it as `interface{}`, so its dynamic type matters. */
  datatype Any = AnyString(s: string) | AnyClaims(claims: UserAuthClaims) | AnyOther(tag: int)

  /** Incoming gRPC metadata: lower-case keys, each with a list of values. */
  type Metadata = map<string, seq<string>>

  /**
   * A `context.Context`: the values attached with `context.WithValue` under string keys,
   * and the incoming gRPC metadata when the transport attached any.
   */
  datatype Ctx = Ctx(values: map<string, Any>, incoming: Option<Metadata>)

  /** `ctx.Value(key)`: `None` stands for Go's nil interface. */
  function Value(ctx: Ctx, key: string): Option<Any> {
    if key in ctx.values then Some(ctx.values[key]) else None
  }

  /** `context.WithValue(ctx, key, v)`: the new context answers `v` for `key` and agrees with `ctx` elsewhere. */
  function WithValue(ctx: Ctx, key: string, v: Any): (r: Ctx)
    ensures Value(r, key) == Some(v)
    ensures forall k :: k != key ==> Value(r, k) == Value(ctx, k)
    ensures r.incoming == ctx.incoming
  {
    ctx.(values := ctx.values[key := v])
  }

  /** `GetUserClaims`: the type assertion `ctx.Value(ContextKeyUser).(*UserAuthClaims)` panics unless claims are there. */
  function GetUserClaims(ctx: Ctx): (claims: UserAuthClaims)
    requires Value(ctx, ContextKeyUser).Some? && Value(ctx, ContextKeyUser).value.AnyClaims?
    ensures Value(ctx, ContextKeyUser) == Some(AnyClaims(claims))
  {
    ctx.values[ContextKeyUser].claims
  }

  /** The tenant id a context carries directly, or "" when it has none or it is not a string. */
  function ContextTenant(ctx: Ctx): string {
    match Value(ctx, XTenantKey)
    case Some(AnyString(id)) => id
    case _ => ""
  }

  /** The first `x-tenant-id` value of the incoming metadata, or "" when there is none. */
  function MetadataTenant(ctx: Ctx): string {
    match ctx.incoming
    case None => ""
    case Some(md) =>
      if XTenantKey in md && |md[XTenantKey]| > 0 then md[XTenantKey][0] else ""
  }

  /**
   * `GetTenant`: the context's own non-empty string tenant id takes precedence; otherwise the
   * first `x-tenant-id` metadata value if it is non-empty; otherwise an error. It never
   * succeeds with "".
   */
  function GetTenant(ctx: Ctx): (r: Result<string, string>)
    ensures r.Success? ==> r.value != ""
    ensures ContextTenant(ctx) != "" ==> r == Success(ContextTenant(ctx))
    ensures ContextTenant(ctx) == "" && MetadataTenant(ctx) != "" ==> r == Success(MetadataTenant(ctx))
    ensures r.Failure? <==> ContextTenant(ctx) == "" && MetadataTenant(ctx) == ""
    ensures r.Failure? ==> r.error == ErrTenantNotFound
  {
    var fromCtx := Value(ctx, XTenantKey);
    if fromCtx.Some? && fromCtx.value.AnyString? && fromCtx.value.s != "" then
      Success(fromCtx.value.s)
    else if ctx.incoming.Some? && XTenantKey in ctx.incoming.value
      && |ctx.incoming.value[XTenantKey]| > 0 && ctx.incoming.value[XTenantKey][0] != "" then
      Success(ctx.incoming.value[XTenantKey][0])
    else
      Failure(ErrTenantNotFound)
  }

  // ---------------------------------------------------------------------------
  // Paged results

  datatype PagedResult<T> = PagedResult(items: T, total: int64)

  /** `NewPagedResult`: a result holding `items` and `total` as given. */
  function NewPagedResult<T>(total: int64, items: T): (p: PagedResult<T>)
    ensures p.items == items && p.total == total
  {
    PagedResult(items, total)
  }

  /**
   * `GetTotalPages` on a possibly nil receiver: 0 for nil or a non-positive limit; otherwise
   * `(Total + limit - 1) / limit` evaluated in int64 (wrapping, truncating toward zero)
   * and converted to int32.
   */
  function GetTotalPages<T>(p: Option<PagedResult<T>>, limit: int32): (pages: int32)
    ensures p.None? || limit <= 0 ==> pages == 0
  {
    if p.None? || limit <= 0 then 0
    else Wrap32(GoQuot(Wrap64(p.value.total as int + limit as int - 1) as int, limit as int))
  }

  /**
   * Without overflow, the page count is the ceiling of total / limit: the least number of
   * pages of `limit` items that hold `total` items.
   */
  lemma GetTotalPagesIsCeiling<T>(p: PagedResult<T>, limit: int32)
    requires limit > 0
    requires 0 <= p.total as int <= MaxInt64 - limit as int + 1
    requires p.total as int <= MaxInt32 * limit as int
    ensures var pages := GetTotalPages(Some(p), limit) as int;
      pages >= 0 && pages * limit as int >= p.total as int && (pages - 1) * limit as int < p.total as int
  {
    var t, l := p.total as int, limit as int;
    var q := GoQuot(t + l - 1, l);
    assert q * l <= t + l - 1 < q * l + l;
    assert (q - 1) * l == q * l - l;
    // q * l < (MaxInt32 + 1) * l, so q cannot exceed MaxInt32 and Wrap32 keeps it
    assert (q - MaxInt32 - 1) * l == q * l - MaxInt32 * l - l;
    ProductSignInv(q - MaxInt32 - 1, l);
  }

  /** A non-positive total within the int32 range never yields a positive page count. */
  lemma GetTotalPagesNonPositiveTotal<T>(p: PagedResult<T>, limit: int32)
    requires limit > 0 && MinInt32 <= p.total as int <= 0
    ensures GetTotalPages(Some(p), limit) <= 0
  {
    var t, l := p.total as int, limit as int;
    var q := GoQuot(t + l - 1, l);
    assert q * l <= l - 1;
    assert (q - 1) * l == q * l - l;
    ProductSignInv(q - 1, l);
    // the quotient lies between the dividend and 0, so the int32 conversion keeps it
    if q < 0 {
      MulMonotone(1, l, -q);
      assert (-q) * l == -(q * l);
    }
    assert MinInt32 <= q;
  }

  /** Worked examples: 95 items in pages of 20, no items, a zero limit, a nil result. */
  lemma GetTotalPagesExamples<T>(items: T)
    ensures GetTotalPages(Some(NewPagedResult(95, items)), 20) == 5
    ensures GetTotalPages(Some(NewPagedResult(0, items)), 20) == 0
    ensures GetTotalPages(Some(NewPagedResult(1, items)), 0) == 0
    ensures GetTotalPages<T>(None, 20) == 0
  {
  }

  // ---------------------------------------------------------------------------
  // Query scopes

  /** The protobuf enum `SortDirection`; proto3 enums are open, so other numbers can arrive. */
  datatype SortDirection =
    | SortDirectionUnspecified
    | SortDirectionAsc
    | SortDirectionDesc
    | SortDirectionUnrecognized(number: int32)

  datatype PageRequest = PageRequest(page: int32, limit: int32, sort: string, direction: SortDirection)

  /** A WHERE predicate with its bound argument (`None` is a nil argument). */
  datatype Where = Where(sql: string, arg: Option<Any>)

  /** The clauses a chain of GORM calls has put on a query. */
  datatype Query = Query(limit: Option<int>, offset: Option<int>, orders: seq<string>, wheres: seq<Where>)

  const DefaultLimit: int32 := 20
  const DefaultSort: string := "created_at"

  /** The page number used: the requested one, or 1 when the request is nil or asks for page <= 0. */
  function EffectivePage(pagination: Option<PageRequest>): (page: int32)
    ensures page >= 1
    ensures pagination.Some? && pagination.value.page > 0 ==> page == pagination.value.page
    ensures pagination.None? || pagination.value.page <= 0 ==> page == 1
  {
    var page := if pagination.Some? then pagination.value.page else 0;
    if page <= 0 then 1 else page
  }

  /** The page size used: the requested one, or 20 when the request is nil or asks for limit <= 0. */
  function EffectiveLimit(pagination: Option<PageRequest>): (limit: int32)
    ensures limit >= 1
    ensures pagination.Some? && pagination.value.limit > 0 ==> limit == pagination.value.limit
    ensures pagination.None? || pagination.value.limit <= 0 ==> limit == DefaultLimit
  {
    var limit := if pagination.Some? then pagination.value.limit else 0;
    if limit <= 0 then DefaultLimit else limit
  }

  /** `(page - 1) * limit` exactly as the source computes it: an int32 product, which wraps. */
  function OffsetAsWritten(page: int32, limit: int32): (offset: int32)
    requires page >= 1 && limit >= 1
    ensures (page as int - 1) * limit as int <= MaxInt32 ==> offset as int == (page as int - 1) * limit as int
  {
    Wrap32((page as int - 1) * limit as int)
  }

  /** A page number a client may send makes the int32 offset wrap to a negative value. */
  lemma OffsetAsWrittenWraps()
    ensures OffsetAsWritten(107374184, 20) == -2147483636
    ensures (107374184 - 1) * 20 == 2147483660
  {
  }

  /** The intended offset: the number of rows on the pages before `page`, computed without overflow. */
  function Offset(page: int32, limit: int32): (offset: int)
    requires page >= 1 && limit >= 1
    ensures offset >= 0
    ensures page == 1 <==> offset == 0
  {
    var n := page as int - 1;
    MulMonotone(0, n, limit as int);
    MulMonotone(if n > 0 then 1 else 0, n, limit as int);
    n * limit as int
  }

  /** Consecutive pages tile the rows: page k + 1 starts exactly `limit` rows after page k. */
  lemma PagesAreContiguous(page: int32, limit: int32)
    requires 1 <= page < 0x7fff_ffff && limit >= 1
    ensures Offset(page + 1, limit) == Offset(page, limit) + limit as int
  {
    var n := page as int - 1;
    assert (n + 1) * limit as int == n * limit as int + limit as int;
  }

  /** The ORDER BY clause: the requested field (default `created_at`), then `asc` or `desc`. */
  function OrderClause(pagination: Option<PageRequest>): (order: string)
    ensures var sort := if pagination.Some? then pagination.value.sort else "";
      var field := if sort == "" then DefaultSort else sort;
      |field| < |order| && order[..|field|] == field
    ensures var asc := pagination.Some? && pagination.value.direction == SortDirectionAsc;
      |order| >= 4 && (order[|order| - 4..] == " asc" <==> asc)
  {
    var sort := if pagination.Some? then pagination.value.sort else "";
    var direction := if pagination.Some? then pagination.value.direction else SortDirectionUnspecified;
    var field := if sort == "" then DefaultSort else sort;
    var dir := match direction
      case SortDirectionAsc => "asc"
      case SortDirectionDesc => "desc"
      case _ => "desc";
    field + " " + dir
  }

  /** The clause names the requested sort field (or the default) and is ascending only on request. */
  lemma OrderClauseParts(pagination: Option<PageRequest>)
    ensures var sort := if pagination.Some? then pagination.value.sort else "";
      var field := if sort == "" then DefaultSort else sort;
      var asc := pagination.Some? && pagination.value.direction == SortDirectionAsc;
      OrderClause(pagination) == field + (if asc then " asc" else " desc")
  {
  }

  /**
   * `WithPaginationScope(pagination)` applied to `db`: sets the limit and offset of the
   * effective page, appends one ORDER BY clause, and leaves the predicates alone.
   */
  function WithPaginationScope(pagination: Option<PageRequest>, db: Query): (r: Query)
    ensures r.limit == Some(EffectiveLimit(pagination) as int)
    ensures r.offset == Some(Offset(EffectivePage(pagination), EffectiveLimit(pagination)))
    ensures |r.orders| == |db.orders| + 1 && r.orders[..|db.orders|] == db.orders
    ensures r.orders[|db.orders|] == OrderClause(pagination)
    ensures r.wheres == db.wheres
  {
    var page := EffectivePage(pagination);
    var limit := EffectiveLimit(pagination);
    var offset := Offset(page, limit);
    db.(limit := Some(limit as int), offset := Some(offset)).(orders := db.orders + [OrderClause(pagination)])
  }

  /** A nil or all-zero request reads the first 20 rows, newest first. */
  lemma PaginationDefaults(db: Query)
    ensures var r := WithPaginationScope(None, db);
      r.limit == Some(20) && r.offset == Some(0) && r.orders == db.orders + ["created_at desc"]
    ensures WithPaginationScope(Some(PageRequest(0, 0, "", SortDirectionUnspecified)), db)
      == WithPaginationScope(None, db)
  {
    assert OrderClause(None) == "created_at desc";
  }

  /** `WithTenantScope(ctx)` applied to `db`: one `tenant_id = ?` predicate bound to the context's tenant value. */
  function WithTenantScope(ctx: Ctx, db: Query): (r: Query)
    ensures r.wheres == db.wheres + [Where("tenant_id = ?", Value(ctx, XTenantKey))]
    ensures r.limit == db.limit && r.offset == db.offset && r.orders == db.orders
  {
    db.(wheres := db.wheres + [Where("tenant_id = ?", Value(ctx, XTenantKey))])
  }

  /** The two scopes commute, so a query may apply them in either order. */
  lemma ScopesCommute(ctx: Ctx, pagination: Option<PageRequest>, db: Query)
    ensures WithTenantScope(ctx, WithPaginationScope(pagination, db))
      == WithPaginationScope(pagination, WithTenantScope(ctx, db))
  {
  }

  /** Applying pagination twice keeps the same window (limit and offset) and the same predicates. */
  lemma PaginationWindowIdempotent(pagination: Option<PageRequest>, db: Query)
    ensures var once := WithPaginationScope(pagination, db);
      var twice := WithPaginationScope(pagination, once);
      twice.limit == once.limit && twice.offset == once.offset && twice.wheres == once.wheres
  {
  }
}
