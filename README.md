# unicore: tenant and token interceptors, request sanitizer, query scopes

This project models the request-authentication and multi-tenant context layer of the
`unicore` Go package and proves properties of the model in Dafny.

- **Interceptor chain** (`middleware.dfy`, module `Middleware`). Each interceptor is a
  function from the next handler to a handler:
  - The tenant interceptor requires the `x-tenant-id` header and stores it in the context.
  - The token interceptor skips exempt procedures. On other calls it extracts, verifies and
    decodes the bearer token, and stores the claims in the context.
  - The logging interceptor writes a sanitized request entry and an outcome entry, and passes
    the reply through.
  - `Chain` composes them as Logging(Tenant(Token(handler))). `Admit` restates the chain's
    decision as one flat ladder, and `ChainFollowsAdmission` proves the two agree.
- **Sanitizer** (`sanitizer.dfy`, module `Sanitizer`). A copy-and-redact over struct values.
  The `Value`/`Field` datatype stands in for Go reflection: each field has a name, an
  exported flag and the kind of its declared type.
  - `Sanitize` and `CopyStruct` are the loop the source runs, with its nested-struct branch
    corrected (see "## Findings"). The loop fills a zero-initialised array field by field and
    recurses into nested structs.
  - Both are proved equal to the functions `Sanitized` and `SanitizedFields`. The lemmas state
    what those functions guarantee.
- **Context helpers and query scopes** (`unicore.dfy`, module `Unicore`):
  - A context is a map of values set with `context.WithValue`, plus optional incoming gRPC
    metadata.
  - A GORM query is represented by the clauses the scopes put on it: limit, offset, ORDER BY
    clauses and WHERE predicates.
  - This module also holds the paged result, the claims records, and the connect errors with
    their status codes.
- **Go integers** (`goints.dfy`, module `GoInts`): `int32`/`int64`, two's-complement
  wrap-around, and division that truncates toward zero.
- `wrappers.dfy`: `Option` and `Result`.

Handlers are pure functions here. "Never calls `next`" is therefore proved as a result that does
not depend on `next`. "Calls `next` once and returns its result unchanged" is proved as a result
equal to `next` applied to the one context it is given.

### Behaviour of the code worth knowing

- Only the request is sanitized. The response is logged as it is (`zap.Any("response", resp)`),
  although the doc comment at `unicore/middleware.go:68` says both are.
- The token interceptor builds new errors. A claims-decoding failure is `Internal`, while the
  exported `ErrFailedParsingTokenClaims` is `InvalidArgument`. The exported `ErrInvalidToken`
  and `ErrMissingOrInvalidToken` are never returned by the interceptor (`TokenExtractionFails`,
  `TokenVerificationFails`).
- Applying a scope twice appends its clause twice: the ORDER BY clause, or the
  `tenant_id = ?` predicate. A second pagination leaves limit, offset and predicates as they
  were (`PaginationWindowIdempotent`).
- The `"apiKey"` entry of the sensitive set can never match, because names are lower-cased
  before the lookup (`MixedCaseEntryNeverMatches`).
- A pointer or interface field is copied without being sanitized, so sensitive data behind a
  pointer is logged as it is (`PointerFieldsCopiedShallow`). The logging interceptor always
  passes the `*connect.Request` wrapper, whose only exported field is the pointer `Msg`. So at
  the real call site no field of the message is ever masked (`ConnectRequestMessageLoggedAsIs`).
  The wrapper's layout is taken from the connect library, which is not part of this model.

## Model

| member | source | states |
|---|---|---|
| `Middleware.HeaderGet` | unicore/middleware.go:28 | `http.Header.Get` on the canonical name: the first value of the header, or "" when there is none |
| `Middleware.UnaryTenantInterceptor` | unicore/middleware.go:25-37 | An empty tenant header ends the call with ErrMissingTenantHeader for every `next`; otherwise the call is `next`'s on the context with the header value under `x-tenant-id` |
| `Middleware.UnaryTokenInterceptor` | unicore/middleware.go:39-66 | An exempt procedure is `next`'s call unchanged; a non-exempt call without an extractable token fails Unauthenticated "missing or invalid token: …" without calling `next` |
| `Middleware.LoggingUnaryInterceptor` | unicore/middleware.go:69-102 | Every call returns `next`'s reply, and writes two entries, the first being the sanitized request |
| `Middleware.Chain` | unicore/middleware.go:25-102 | The composition Logging(Tenant(Token(handler))), whose behaviour is given by `ChainFollowsAdmission` |
| `Middleware.TenantRejectsMissingHeader` | unicore/middleware.go:28-31 | An empty `x-tenant-id` header ends the call with ErrMissingTenantHeader (InvalidArgument), for every `next` |
| `Middleware.TenantForwardsWithTenant` | unicore/middleware.go:33-34 | With the header, the reply is `next`'s on a context whose tenant is the header value; GetTenant returns it; no other entry changes |
| `Middleware.TokenExemptRoute` | unicore/middleware.go:42-45 | An exempt procedure gets `next`'s reply on the unchanged context, whatever the authenticator does |
| `Middleware.TokenExtractionFails` | unicore/middleware.go:47-50 | An extraction error gives Unauthenticated "missing or invalid token: …"; verifier, decoder and `next` are not consulted; the error is never the exported ErrMissingOrInvalidToken |
| `Middleware.TokenVerificationFails` | unicore/middleware.go:52-55 | A verification error gives Unauthenticated "invalid token: …"; decoder and `next` are not consulted; the error is never the exported ErrInvalidToken |
| `Middleware.TokenDecodeFails` | unicore/middleware.go:57-60 | A decoding error gives Internal "failed to parse token claims: …", a code other than that of ErrFailedParsingTokenClaims |
| `Middleware.TokenSucceeds` | unicore/middleware.go:57-63 | On success the reply is `next`'s on the context plus the claims; GetUserClaims returns them; the tenant and the other entries are unchanged |
| `Middleware.LoggingIsTransparent` | unicore/middleware.go:71-100 | The reply is exactly `next`'s; the log is the sanitized request, then the error with its duration or the unsanitized response with its duration |
| `Middleware.LoggedRequestIsMasked` | unicore/middleware.go:75-80 | The logged request of a struct (or pointer to struct) is a pointer to a copy with the same layout, masked in its own fields and in nested struct fields |
| `Middleware.ConnectRequestMessageLoggedAsIs` | unicore/middleware.go:75 | For the connect wrapper (exported pointer `Msg` plus unexported internals) the logged `Msg` is the original message, the internals are zero, and the code as written does not panic |
| `Middleware.ChainFollowsAdmission` | unicore/middleware.go:25-102 | Logging(Tenant(Token(h))) agrees with the flat ladder `Admit`: a rejected call fails with its error and a logged failure, an admitted one returns h's reply |
| `Middleware.AdmittedCallsCarryIdentity` | unicore/middleware.go:28-63 | Every admitted call carries the non-empty header tenant, which GetTenant returns; on non-exempt routes it also carries claims |
| `Middleware.ChainRejectsMissingTenant` | unicore/middleware.go:28-31 | Without the tenant header the chain fails with ErrMissingTenantHeader on every route, exempt or not, and logs the failure |
| `Middleware.ChainRejectsUnverifiedToken` | unicore/middleware.go:52-55 | With a tenant and a token that fails verification, the chain replies Unauthenticated with no response and logs the failure with its duration |
| `Middleware.ChainAuthenticatedCall` | unicore/middleware.go:57-63 | With a tenant and a valid token on a protected route, the handler runs on a context whose GetTenant and GetUserClaims give the header tenant and the decoded claims |
| `Middleware.AdmittedTenantScope` | unicore/unicore.go:102-107 | The tenant scope built from an admitted call's context binds `tenant_id = ?` to the non-empty header tenant |
| `Sanitizer.SanitizeRequest` | unicore/middleware.go:123-133 | `sanitize` applied with the fixed list of six sensitive names |
| `Sanitizer.Sanitize` | unicore/middleware.go:135-176 | The method returns `Sanitized(v)`: nil for nil, a pointer to the sanitized copy for a struct or pointer to struct, otherwise v |
| `Sanitizer.CopyStruct` | unicore/middleware.go:152-174 | The loop over a zero-initialised copy produces `SanitizedFields(fs)`, recursing into nested struct fields |
| `Sanitizer.SanitizePassesNonStructs` | unicore/middleware.go:136-150 | Nil maps to nil; a value that is not a struct after at most one dereference comes back unchanged |
| `Sanitizer.SanitizeKeepsLayout` | unicore/middleware.go:152-154 | The copy has the input's field list: same names, kinds and exported flags, in order |
| `Sanitizer.SanitizeMasksAtEveryDepth` | unicore/middleware.go:156-173 | At every nesting depth: unexported fields are zero, sensitive strings are "[REDACTED]", other sensitive fields are zero |
| `Sanitizer.SanitizeKeepsPlainFields` | unicore/middleware.go:168-173 | In any struct, an exported field not on the sensitive list is copied as it is, or, if it is a nested struct, replaced by its sanitized copy |
| `Sanitizer.SanitizeKeepsCleanFields` | unicore/middleware.go:168-173 | A value with no unexported or sensitive field at any depth is copied exactly |
| `Sanitizer.SanitizeIdempotent` | unicore/middleware.go:153-174 | Sanitizing a sanitized copy changes nothing |
| `Sanitizer.ZeroOfIsZero` | unicore/middleware.go:166 | The zero value of a field's type is its own zero, so masked fields stay masked |
| `Sanitizer.PointerFieldsCopiedShallow` | unicore/middleware.go:171-173 | A password behind an exported pointer field is copied unmasked |
| `Sanitizer.LoginRequestExample` | unicore/middleware.go:162-173 | A login request: password masked, username kept, nested token masked, unexported counter zeroed |
| `Sanitizer.MixedCaseEntryNeverMatches` | unicore/middleware.go:129 | No lower-cased field name equals "apiKey" |
| `Sanitizer.SensitiveSetWithoutDeadEntry` | unicore/middleware.go:124-131 | Sensitivity under the set as written equals sensitivity under the set without "apiKey" |
| `Sanitizer.ToLower` | unicore/middleware.go:156 | `strings.ToLower` on ASCII letters only: the result has the input's length (its characters are given by `ToLowerAt`) |
| `Sanitizer.ZeroOf` | unicore/middleware.go:152-166 | The zero value `reflect.New` leaves in a copied field and `reflect.Zero` returns: "" for a string, nil for a pointer or interface, a struct of zero fields for a struct; its fixed point is `ZeroOfIsZero` |
| `Sanitizer.ToLowerAt` | unicore/middleware.go:156 | Lower-casing maps each character on its own |
| `Sanitizer.SanitizedAsWritten` | unicore/middleware.go:135-150 | `sanitize` as written: whenever it does not panic, it returns what the intended sanitizer returns |
| `Sanitizer.FieldAsWritten` | unicore/middleware.go:156-173 | One field of the loop as written, where the nested-struct branch stores a pointer with `reflect.Value.Set`; without a panic the field is the intended copy |
| `Sanitizer.FieldsAsWritten` | unicore/middleware.go:152-175 | The loop as written stops at the first panic and otherwise yields the intended field list |
| `Sanitizer.Assign` | unicore/middleware.go:166-172 | `reflect.Value.Set` into a field, judged by kind only (it does not compare struct layouts): a pointer set into a struct-typed field panics; a set that succeeds stores the value |
| `Sanitizer.NestedStructPanicsAsWritten` | unicore/middleware.go:168-175 | As written, any struct with an exported, non-sensitive struct-typed field makes sanitize panic in `reflect.Value.Set` |
| `Sanitizer.FlatStructAsWrittenAgrees` | unicore/middleware.go:153-175 | As written, a struct without such fields is sanitized exactly as intended |
| `Sanitizer.LoginRequestPanicsAsWritten` | unicore/middleware.go:168-170 | The login request, which the intended sanitizer masks, panics as written |
| `Unicore.Value` | unicore/unicore.go:104 | `ctx.Value(key)` (also at lines 144 and 150): the value stored under the key, or none |
| `Unicore.WithValue` | unicore/middleware.go:33 | `context.WithValue`: the new context answers the new value for its key and agrees with the old one on every other key |
| `Unicore.GetTenant` | unicore/unicore.go:148-169 | A non-empty string tenant in the context wins, else the first metadata value if it is non-empty, else the error; it never succeeds with "" |
| `Unicore.GetUserClaims` | unicore/unicore.go:143-146 | Defined only when the context holds claims (the type assertion panics otherwise) and returns those claims |
| `Unicore.NewPagedResult` | unicore/unicore.go:25-30 | The result holds the given items and total |
| `Unicore.GetTotalPages` | unicore/unicore.go:18-21 | 0 for a nil receiver or a limit <= 0 |
| `Unicore.GetTotalPagesIsCeiling` | unicore/unicore.go:22 | Without overflow, the page count is the least number of `limit`-sized pages that hold Total |
| `Unicore.GetTotalPagesNonPositiveTotal` | unicore/unicore.go:22 | A total between MinInt32 and 0 gives no positive page count under Go's truncating division |
| `Unicore.GetTotalPagesExamples` | unicore/unicore.go:18-22 | 95 items in pages of 20 give 5; 0 items give 0; limit 0 gives 0; nil gives 0 |
| `GoInts.GoQuot` | unicore/unicore.go:22 | Go division by a positive divisor truncates toward zero |
| `GoInts.Wrap64` | unicore/unicore.go:22 | The int64 sum `Total + limit - 1` keeps in-range values and otherwise wraps modulo 2^64 |
| `GoInts.Wrap32` | unicore/unicore.go:22 | The int32 conversion keeps in-range values and otherwise wraps modulo 2^32 |
| `Unicore.EffectivePage` | unicore/unicore.go:52-55 | The page is the requested one if positive, else 1 (also for a nil request) |
| `Unicore.EffectiveLimit` | unicore/unicore.go:57-60 | The limit is the requested one if positive, else 20 (also for a nil request) |
| `Unicore.OffsetAsWritten` | unicore/unicore.go:62 | The int32 product equals (page-1)*limit only while that fits in int32 |
| `Unicore.OffsetAsWrittenWraps` | unicore/unicore.go:62 | Page 107374184 with limit 20 gives the negative offset -2147483636 |
| `Unicore.Offset` | unicore/unicore.go:62 | The intended offset is non-negative and is 0 exactly on page 1 |
| `Unicore.PagesAreContiguous` | unicore/unicore.go:62-65 | Page k+1 starts exactly `limit` rows after page k, so pages neither overlap nor leave gaps |
| `Unicore.OrderClause` | unicore/unicore.go:68-83 | The clause starts with the requested sort field (or `created_at`) and ends in ` asc` exactly when SORT_DIRECTION_ASC was asked for |
| `Unicore.OrderClauseParts` | unicore/unicore.go:68-83 | The clause is the requested sort field (default `created_at`), then ` asc` only for SORT_DIRECTION_ASC and ` desc` otherwise |
| `Unicore.WithPaginationScope` | unicore/unicore.go:49-87 | Sets the effective limit and offset, appends exactly one ORDER BY clause, and leaves the predicates alone |
| `Unicore.PaginationDefaults` | unicore/unicore.go:52-83 | A nil or all-zero request reads the first 20 rows ordered `created_at desc` |
| `Unicore.WithTenantScope` | unicore/unicore.go:102-107 | Appends exactly one `tenant_id = ?` predicate bound to the context's tenant value, possibly absent, and changes no other clause |
| `Unicore.ScopesCommute` | unicore/unicore.go:49-108 | The tenant scope and the pagination scope give the same query in either order |
| `Unicore.PaginationWindowIdempotent` | unicore/unicore.go:62-65 | Paginating twice keeps the same limit, offset and predicates |

## Findings

| source | as written | input that shows it | evidently intended | confidence | as-written member | corrected member |
|---|---|---|---|---|---|---|
| unicore/middleware.go:168-170 | `sanitize` returns a pointer to the copy (line 175). The nested-struct branch stores that `*T` into a field of type `T` with `reflect.Value.Set`, which panics. The panic is latent: the only caller passes the `*connect.Request` wrapper, whose one exported field is the pointer `Msg` (`ConnectRequestMessageLoggedAsIs`) | `sanitize` given a struct with an exported, non-sensitive struct-typed field, such as `{Password string; Session struct{ Token string }}` | the nested struct is sanitized and stored by value | not executed; high (Go's `Set` requires assignability) | `Sanitizer.NestedStructPanicsAsWritten` | `Sanitizer.SanitizeMasksAtEveryDepth` |
| unicore/unicore.go:62 | `offset := (page - 1) * limit` is an int32 product, which wraps | page 107374184, limit 20: offset -2147483636 | offset = (page-1)*limit, non-negative, computed in a wider type | not executed; high (Go defines signed overflow as wrap-around) | `Unicore.OffsetAsWrittenWraps` | `Unicore.PagesAreContiguous` |

The rest of the model uses the corrected versions: `Sanitized`, `SanitizedFields` and
`CopyStruct` recurse on struct values, and `WithPaginationScope` uses `Offset`.

## Left out

- `CorsMiddleware` and `HealthChecker`: thin wrappers over the CORS and gRPC-health libraries, which are not part of this model.
- Log encoding by zap and `log.Printf` output: log entries are records, and the two clock readings of `time.Now`/`time.Since` are parameters.
- `ExtractHeaderToken`, `ExtractToken`, OIDC verification and claims decoding: oracles passed in as functions that succeed or fail. Their token format and checks (RFC 7519, OpenID Connect Core 1.0 section 3.1.3.7) are not modelled.
- `GetAccessToken`: it only delegates to `ExtractHeaderToken`, which is an oracle here.
- GORM: a query is a record of clauses. `Limit`/`Offset` replace the current value, `Order`/`Where` append. SQL generation is not modelled. The raw sort string is placed in ORDER BY unescaped, as in the source.
- Go reflection: replaced by the `Value`/`Field` datatype. Slices, maps, numbers and booleans are one opaque scalar case. An embedded struct is an ordinary field named after its type.
- `strings.ToLower` is modelled on ASCII letters only. Unicode case mapping is not modelled.
- `http.Header.Get` canonicalisation: the model looks up the canonical name `X-Tenant-Id` directly.
- `UserAuthClaims.String`: JSON marshalling.
- `NewMiddleware` and `NewContextHelper`: field assignment only.
- Concurrency, context deadlines and OIDC key refresh: outside a sequential model.
- Call counting: handlers are pure functions, so "exactly once" is stated as the reply being `next`'s reply on one argument pair.
- Handler errors: a Go handler may return any `error`, but `Reply.err` holds a `ConnectError`. The interceptors only test whether an error is present and pass it on, so no behaviour is lost.
- `Assign` compares kinds only, not struct layouts; its one use stores a pointer into a struct-typed field, which fails on kind alone.
