# Fider feedback core in Dafny

A model of five small pieces of a multi-tenant feedback board (ideas,
comments, users and their roles, request guards, OAuth provider settings and
translations), with proofs of what each piece promises.

- `feedback.dfy` (module `Feedback`): the idea repository `IdeaService` as a
  class `IdeaStore` holding the `ideas` and `comments` tables as sequences of
  rows, the `users` table as a map, and the two id sequences. Reads filter by
  tenant, join the author and come back newest first; `Save` numbers a new
  idea `COALESCE(MAX(number), 0) + 1` within its tenant; both writes either add
  one row or leave the tables as they were. The database's failures are a
  `Fault` parameter (begin, insert or commit fails); the insert timestamp is a
  parameter.
- `newest_first.dfy` (module `NewestFirst`): `ORDER BY created_on DESC` as
  "sorted newest first and a permutation of the selected rows".
- `identity.dfy` (module `Identity`): users, roles, provider membership and
  the user-invitation request.
- `middleware.dfy` (module `Middleware`): the role, authentication and host
  guards as decisions "run the next handler" or "answer with this status".
- `oauth.dfy` (module `OAuth`): the published form of an OAuth provider
  configuration, a map from JSON key to value with the client secret redacted.
- `i18n.dfy` (module `I18n`): the locale cache as a class `LocaleStore`, the
  message lookup with its fallback to `"en"`, the choice of locale and the
  locale-to-plural-culture table.
- `wrappers.dfy` (module `Wrappers`): `Option` and `Result`.

Three behaviours of the code worth knowing:

- A failed commit in `Save` returns the idea (with its new id) together with
  the error, and `AddComment` returns the id together with the error; the
  tables are left unchanged in both cases.
- `AddComment` takes no tenant and does not check the idea's tenant.
- The idea returned by `Save` carries only the title, the description and the
  id; its number stays 0 although the stored row has the new number.

## Model

| member | source | states |
|---|---|---|
| `Feedback.IdeaStore.GetAll` | app/postgres/feedback.go:17-37 | the result is a permutation of the tenant's ideas whose author exists, each joined with the author's id, name and email, in non-increasing `created_on` order |
| `Feedback.TenantIdeasExact` | app/postgres/feedback.go:18-23 | every listed idea is the joined form of a row of the requested tenant, and every such row with an existing author is listed |
| `Feedback.TenantIsolation` | app/postgres/feedback.go:22 | with unique idea ids, the lists of two different tenants never share an idea id |
| `NewestFirst.InsertSorted` | app/postgres/feedback.go:23 | inserting a row into a newest-first list keeps it newest-first (the insertion itself keeps the multiset of rows) |
| `Feedback.IdeaStore.GetByID` | app/postgres/feedback.go:40-59 | `NotFound` exactly when no row has both the tenant and the id (with an existing author), even if another tenant has that id; otherwise the joined form of such a row |
| `Feedback.IdeaStore.GetByNumber` | app/postgres/feedback.go:62-81 | `NotFound` exactly when the tenant has no row with that number (with an existing author); otherwise the joined form of such a row, carrying that number |
| `Feedback.IdeaStore.GetCommentsByIdeaID` | app/postgres/feedback.go:84-107 | when the idea belongs to the tenant, a permutation of that idea's comments with existing authors, newest first; the empty list when the idea belongs to no such tenant |
| `Feedback.IdeaCommentsExact` | app/postgres/feedback.go:85-93 | every listed comment is the joined form of a comment row on the requested idea, and every such row with an existing author is listed |
| `Feedback.IdeaStore.Save` | app/postgres/feedback.go:110-129 | on success exactly one row is appended, numbered `NextNumber` of the tenant, other tables unchanged and ids and per-tenant numbers still unique; on any failure the tables are unchanged; the result is none when begin or insert fails, otherwise an idea with the given title, description and new id and a zero number |
| `Feedback.IdeaStore.AddComment` | app/postgres/feedback.go:132-145 | on success exactly one comment row is appended with the next id; on failure the tables are unchanged and the id is 0 when begin or insert fails |
| `Feedback.MaxNumber` | app/postgres/feedback.go:121 | definition: `MAX(number)` over the tenant's rows, `None` for SQL NULL; characterised by `MaxNumberIsMax` |
| `Feedback.NextNumber` | app/postgres/feedback.go:121 | definition: `COALESCE(MAX(number), 0) + 1` over the tenant's rows; characterised by `NextNumberIsFresh` |
| `Feedback.MaxNumberIsMax` | app/postgres/feedback.go:121 | `MAX(number)` is NULL exactly when the tenant has no rows, and otherwise is a number the tenant uses and no smaller than any of them |
| `Feedback.NextNumberIsFresh` | app/postgres/feedback.go:120-121 | the assigned number is 1 for a tenant's first idea and exceeds, so differs from, every number the tenant already uses |
| `Feedback.NextNumberIsolated` | app/postgres/feedback.go:121 | the assigned number depends only on the tenant's own numbers, never on other tenants' rows |
| `Feedback.SaveKeepsNumbersDense` | app/postgres/feedback.go:120-121 | when a tenant uses exactly 1..n, after one more save it uses exactly 1..n+1 |
| `Identity.HasProvider` | app/models/identity.go:46-53 | true exactly when some linked provider has the given name; the uid is ignored, and an empty provider list gives false |
| `Identity.IsCollaborator` | app/models/identity.go:56-58 | definition: the role is Collaborator or Administrator; characterised by `CollaboratorRoles` |
| `Identity.IsAdministrator` | app/models/identity.go:61-63 | definition: the role is Administrator; characterised by `AdministratorRole` |
| `Identity.CollaboratorRoles` | app/models/identity.go:56-58 | the collaborator check accepts exactly Collaborator and Administrator and refuses exactly Visitor and Member |
| `Identity.AdministratorRole` | app/models/identity.go:61-63 | the administrator check accepts the Administrator role and no other |
| `Identity.AdministratorIsCollaborator` | app/models/identity.go:56-63 | every administrator is a collaborator; a non-administrator collaborator holds the Collaborator role |
| `Identity.GetEmail` | app/models/identity.go:92-94 | definition: the invitation's email |
| `Identity.GetName` | app/models/identity.go:97-99 | definition: always empty |
| `Identity.GetUser` | app/models/identity.go:102-104 | definition: always no user (nil) |
| `Identity.GetKind` | app/models/identity.go:107-109 | definition: always the user-invitation kind |
| `Identity.InvitationRequest` | app/models/identity.go:92-117 | an invitation presents its stored email, an empty name, no user and the user-invitation kind |
| `Identity.InvitationRequestHidesKey` | app/models/identity.go:86-109 | two invitations present the same request exactly when their emails agree: the verification key is never exposed |
| `Middleware.IsAuthorized` | app/infra/middleware_test.go:16-54 | definition: the next handler runs when a user is set and holds one of the listed roles; 403 otherwise, also when no user is set |
| `Middleware.IsAuthenticated` | app/infra/middleware_test.go:56-89 | definition: the next handler runs when a user is set, whatever its role; 403 otherwise |
| `Middleware.StripScheme` | app/infra/middleware_test.go:91-106 | definition: drops a leading `http://` or `https://`; its contract states only that the host is a suffix of the configured value, and it is characterised by `SchemeIgnored` and `SchemelessHostMustMatch` |
| `Middleware.HostChecker` | app/infra/middleware_test.go:91-123 | definition: the next handler runs when the request's host equals the configured host without its scheme; 400 otherwise |
| `Middleware.AuthorizedIsAuthenticated` | app/infra/middleware_test.go:16-73 | a request the role guard admits also passes the authentication guard |
| `Middleware.RoleGuardsMatchUserChecks` | app/models/identity.go:56-63 | guarding with Collaborator and Administrator admits exactly the users `IsCollaborator` accepts; guarding with Administrator admits exactly administrators |
| `Middleware.SchemeIgnored` | app/infra/middleware_test.go:91-106 | a request for host h passes the host guard configured with `http://h` or `https://h` |
| `Middleware.AuthorizedMemberPasses` | app/infra/middleware_test.go:16-34 | a Member passes `IsAuthorized(Administrator, Member)` and the response is the handler's 200 |
| `Middleware.ForbiddenVisitorRefused` | app/infra/middleware_test.go:36-54 | a Visitor is refused by `IsAuthorized(Administrator, Member)` with 403 |
| `Middleware.AuthenticationScenarios` | app/infra/middleware_test.go:56-89 | with a user set, `IsAuthenticated` gives the handler's 200; with none, 403 |
| `Middleware.SchemelessHostMustMatch` | app/infra/middleware_test.go:108-123 | for a configured value without a scheme, a request passes the host guard exactly when its host equals that value |
| `Middleware.HostScenarioSameHost` | app/infra/middleware_test.go:91-106 | a guard configured with `http://login.test.canhearyou.com` admits host `login.test.canhearyou.com` and the response is the handler's 200 |
| `Middleware.HostScenarioDifferentHost` | app/infra/middleware_test.go:108-123 | a guard configured with `login.test.canhearyou.com` refuses host `orange.test.canhearyou.com` with 400 |
| `OAuth.Redact` | app/models/infra.go:49-52 | a secret of at least 10 bytes is published as its first 3 bytes, `...` and its last 3 bytes (9 bytes); a shorter one, the empty one included, as `...` |
| `OAuth.RedactNeverLeaks` | app/models/infra.go:49-51 | a secret of at least 10 bytes is never published as it is; the published form is at most 9 bytes with `...` in the middle, so at most 6 bytes of the secret appear |
| `OAuth.RedactSeesOnlyEnds` | app/models/infra.go:50-51 | long secrets that agree on their first and last three bytes are published alike: nothing else of the secret influences the output |
| `OAuth.MarshalJSON` | app/models/infra.go:48-68 | definition: the fourteen fields under their keys (`Fields`), with the secret replaced by its redacted form; characterised by `MarshalKeys` and `MarshalCopiesAllButSecret` |
| `OAuth.MarshalKeys` | app/models/infra.go:53-68 | the published document has exactly the fourteen fixed keys |
| `OAuth.MarshalCopiesAllButSecret` | app/models/infra.go:48-68 | every key but `clientSecret` holds the configuration's own field; `clientSecret` holds the redacted secret, which differs from the stored one whenever that is at least 10 bytes long |
| `I18n.PluralCulture` | app/pkg/i18n/i18n.go:52 | definition: the lookup in the table of lines 16-19, giving the table's culture for a listed locale, the empty culture (Go's zero value) for any other |
| `I18n.PluralTable` | app/pkg/i18n/i18n.go:16-19 | `"en"` maps to `"en"`, `"pt-BR"` to `"pt"`, and no other locale is listed |
| `I18n.Load` | app/pkg/i18n/i18n.go:41-57 | definition: the locale's catalog and a parser for its plural culture, or a `MissingLocale` failure standing for the panic when the catalog cannot be read |
| `I18n.LoadedParserCulture` | app/pkg/i18n/i18n.go:41-57 | a locale with a catalog always loads, with that catalog and a parser for `"en"`, `"pt"` or the empty culture, the empty one exactly for locales outside the table |
| `I18n.Message` | app/pkg/i18n/i18n.go:66-74 | the requested locale's message and parser when its catalog has the key; otherwise the `"en"` message, or `""` when `"en"` lacks it too, with the `"en"` parser; a missing catalog fails |
| `I18n.ResolveLocale` | app/pkg/i18n/i18n.go:77-80 | definition: the context's locale when it holds a string, the configured default otherwise; `T`'s contract is stated through it |
| `I18n.LocaleStore.GetLocaleData` | app/pkg/i18n/i18n.go:29-64 | returns what loading the locale yields; a cached locale is answered from the cache with the cache unchanged; a fresh load is cached only in production, and the cache otherwise stays as it was |
| `I18n.LocaleStore.GetMessage` | app/pkg/i18n/i18n.go:66-74 | returns `Message` for the locale and key; the cache only grows, by at most the requested locale and `"en"`, and existing entries keep their values; in production the requested locale is cached afterwards when its catalog exists, and `"en"` too when the fallback ran and its catalog exists; outside production nothing is added |
| `I18n.LocaleStore.T` | app/pkg/i18n/i18n.go:76-85 | without parameters, returns the looked-up message unchanged for the resolved locale; the cache only grows, existing entries keep their values, and in production the resolved locale (and `"en"` when the fallback ran) is cached afterwards when its catalog exists |

## Left out

- The `dbx` driver, SQL execution, `rows.Close` and transaction objects: the tables are in memory. Errors of the read queries are not modelled (reads always succeed); `rows.Scan` errors, which the source ignores, are not modelled either.
- Write failures are a `Fault` parameter naming the step that fails. The table schema is not part of this model, so a constraint violation (a missing user or idea) is just one more insert failure. The id sequence advances once the insert succeeded, also when the commit then fails; an insert that fails is taken to use up no id, whereas PostgreSQL draws a serial value before checking constraints, so a constraint violation there does consume one. Ids are only required to be unique, which both behaviours keep.
- `time.Now()` is the `now` parameter of `Save` and `AddComment`; timestamps are integers.
- The race on max+1 numbering under concurrent transactions, and the `sync.RWMutex` double-checked locking of the locale cache: the model is sequential.
- `Feedback.IdeaStore.GetByID`, `Feedback.IdeaStore.GetByNumber`: when several rows match, the query returns the newest and the model the first in table order; the store's invariant (unique ids, unique numbers per tenant) rules out several matches.
- Rows with equal `created_on` may come in any order, as in the query; Go's nil slice for an empty result is the empty sequence.
- `embed.FS` reads and `json.Unmarshal` of catalogs: the catalogs are a map from locale to decoded catalog, and a locale without one stands for a read or decode failure (the panic becomes a `MissingLocale` failure).
- `messageformat.NewWithCulture` is taken to succeed and a parser is represented by its culture code; `T` with parameters (`Parse` and `FormatMap`, and their panics) is not modelled.
- The JSON byte encoding of `MarshalJSON`: the output is a map from key to value.
- A string character stands for one byte; a secret with multi-byte UTF-8 characters, which Go can cut mid-character, is not represented.
- `GenerateSecretKey` (random), the `Tenant`, `Upload`, `ImageUpload`, `ImageUploadData`, `SystemSettings`, `Notification` and `EmailVerification` records, and the user fields not read by the core (tenant, avatar, status).
- The middleware implementation is not part of this model; the guards follow what its tests assert. `IsAuthorized` with no user set answers 403, and the host guard drops a leading `http://` or `https://` from the configured value before comparing. The request context and mock server are left out; the response recorder is reduced to `Respond`, the status a request ends with (the handler's own when the guard lets it run, the guard's otherwise).
- Only the user-invitation kind of email verification is named; the other kinds of the enumeration are one `OtherKind` value.
