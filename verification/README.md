# Currency exchange service: user accounts, tokens, provider gateway and error responses

This Dafny project models the core of a FastAPI currency-exchange service:

- **user registration and login** (`UserService`). Each runs inside one Unit of Work (`UserUnitOfWork`) over a database session. The session reaches the `users` table through `AlchemyUserRepository`.
- **credential primitives**: password hashing and verification, and JWT creation and decoding (`app/core/security.py`).
- **the gateway to the exchange-rate provider**: request, data extraction, currency list and exchange (`app/api/utils/external_api.py`).
- **the exception classes and the handlers** that turn exceptions into JSON responses (`app/api/errors/`).

Each file keeps its source's form:

- The service, the Unit of Work, the session and the repository are classes whose methods change their fields:
  - a `Database` holds the committed rows and the id sequence;
  - a `Session` holds the working copy of the table and the log of calls made on it.
- The service methods are proved against specification functions (`RegisterSpec`, `AuthenticateSpec`). Each spec gives the outcome, the session calls, and the committed table and id sequence left behind. Lemmas state what those functions promise.
- The Unit of Work's `commit` and `rollback` call the session without awaiting it. The model carries both versions:
  - `CommitWork`, `RollbackWork` and `Exit` await the session, which is evidently intended, and the service uses them;
  - the `AsWritten` methods, `RegisterSpecAsWritten` and `RegisterUserAsWritten` follow the code as written. There nothing reaches the session but `close`.
- Security, the gateway, the exceptions and the handlers are pure functions. An exception is a value of `AppError`, and a call that raises returns `Failure`.

Modules, one per file:

- `Values`: Option/Result, JSON, dict lookup, Python-style rendering, lowercasing.
- `Exceptions`, `Security`, `Models`, `Repository`, `UnitOfWork`, `UserService`, `ExternalApi`, `Handlers`.

Parameters stand in for everything outside the program:

- **bcrypt**: a `Hasher` value. The property the service relies on is `SoundHasher`: a hash verifies its own password and no other, and differs from it.
- **the JWT library**: a `JwtCodec` value. `SoundCodec` says a token it signed decodes to its claims until its `exp`, and is expired from then on.
- **the clock**: an integer number of seconds.
- **the HTTP client**: a function from the call sent (URL template, keyword arguments, API key) to a transport error or a response.
- **a broken database connection**: the flag `Database.failing`, under which commit and rollback raise.

## Model

| member | source | states |
|---|---|---|
| Values.Lookup | app/api/utils/external_api.py:36-37 | the value found is the one stored under the key; None exactly when no entry has the key |
| Values.Decimal | app/api/errors/handlers.py:24 | a status code renders as a non-empty run of decimal digits, with a leading '-' for negatives |
| Values.DecimalRoundTrip | app/api/errors/handlers.py:24 | reading the rendered status code back gives the code |
| Values.Lower | app/api/services/user_service.py:36 | lowercasing keeps the length; each Latin capital A-Z and Russian capital А-Я becomes the letter 32 code points on, each of Ѐ-Џ the letter 80 on; no capital is left and every other character is kept |
| Values.LowerIdempotent | app/api/services/user_service.py:36 | lowercasing an already lowercased name changes nothing |
| Exceptions.InvalidUsernameDetail | app/api/errors/exceptions.py:8-9 | the detail starts "Имя пользователя " and contains the taken name |
| Exceptions.UnauthorisedDetail | app/api/errors/exceptions.py:14-19 | a missing or empty detail falls back to "Неверные учетные данные!"; a non-empty one is kept |
| Exceptions.AsHTTPException | app/api/errors/exceptions.py:4-27 | InvalidUsernameException is 400 and names the user; UserUnauthorisedException and InvalidTokenException are 401 with the Bearer challenge; ExternalAPIHTTPError keeps the provider's status and text; exactly these kinds are HTTP exceptions |
| Exceptions.KeyErrorMessage | app/api/errors/exceptions.py:30-36 | the message names the missing key and contains the rendering of the whole provider dict |
| Exceptions.InvalidTokenInheritsUnauthorised | app/api/errors/exceptions.py:22-23 | an InvalidTokenException answers exactly like a UserUnauthorisedException with the same detail |
| Security.GetPasswordHash | app/core/security.py:21-22 | for a sound hasher, the hash verifies its own password and no other, and differs from it |
| Security.VerifyPassword | app/core/security.py:25-26 | for a sound hasher and a stored hash of some password, verification succeeds exactly for that password |
| Security.PrefixHasherIsSound | app/core/security.py:21-26 | the assumptions made of the password hasher can all be met at once |
| Security.AuthenticateUser | app/core/security.py:29-32 | succeeds exactly when a user was found and the password verifies against its hash; otherwise UserUnauthorisedException |
| Security.AuthenticateUserSkipsVerifyWithoutUser | app/core/security.py:31 | with no user the verifier is never consulted and the call fails |
| Security.AuthenticateUserAcceptsOnlyOwnPassword | app/core/security.py:21-32 | the stored hash of a password authenticates that password and no other |
| Security.CreateJwtTokenAsWritten | app/core/security.py:35-43 | with a sound codec, the token decodes at every later time as a token signed over the caller's claims alone, without `exp` |
| Security.CreateJwtToken | app/core/security.py:35-43 | with a sound codec, the corrected token decodes exactly before the configured lifetime has passed |
| Security.AsWrittenTokenNeverExpires | app/core/security.py:35-43 | the token as written decodes to the caller's own claims at every later time |
| Security.AsWrittenTokenCounterexample | app/core/security.py:35-43 | a 30-minute login token for "alex" still decodes, with no `exp`, a day later |
| Security.CreatedTokenExpires | app/core/security.py:36-40 | the corrected token decodes to the claims plus `exp` before `exp` and is expired from `exp` on |
| Security.GetUsernameFromToken | app/core/security.py:46-57 | a decodable token yields its `sub` claim (None when absent); expired gives "Токен устарел", any other decode failure "Ошибка чтения токена" |
| Security.TokenFailuresDistinguishable | app/core/security.py:54-57 | the two token failures give different responses |
| Security.LoginTokenRoundTrip | app/core/security.py:35-57 | a corrected login token gives back the user name until `exp`, then the expired detail |
| Security.AsWrittenLoginTokenRoundTrip | app/core/security.py:35-57 | a login token as written gives back the user name at every time |
| Models.SchemaUserCreate | tests/test_schemas.py:61-79 | a registration input built by a lowercasing schema: username and email are the lowercased inputs, and lowercasing them again changes nothing; the UserCreate of this repository has no such validator |
| Models.FromSchema | app/api/db/models.py:21-25 | the row has no id, keeps the schema's username and email, and stores the password's hash |
| Models.FromSchemaKeepsCredentials | app/api/db/models.py:21-25 | the row keeps the schema's username and email, has no id yet, and stores a hash that differs from the password and verifies it and only it |
| Models.FindUser | app/api/repositories/user_repository.py:28-30 | the lookup finds a row exactly when some stored row holds the value in that column, and the row it finds holds it |
| Models.FindUserUnique | app/api/db/models.py:15-18 | with unique columns, the lookup finds the one row holding the value |
| Models.FindUserIsExact | app/api/repositories/user_repository.py:28 | the comparison is exact: when a value finds a row, a spelling of it differing only in letter case does not find that same result |
| Models.IdsDistinct | app/api/db/models.py:12-14 | rows of a valid table carry distinct ids |
| Repository.AddSpec | app/api/repositories/user_repository.py:22-25 | the add succeeds exactly when the id it would use is free and neither the username nor the email is taken; a failure is IntegrityError and leaves the table as it was; the sequence advances only when no id was given |
| Repository.AddSpecAssignsId | app/api/repositories/user_repository.py:22-25 | a successful add returns the same user with an id (its own, or the sequence's next value) and stores it under that id in a free slot |
| Repository.AddSpecRefusesDuplicates | app/api/db/models.py:15-18 | a taken username or email fails with IntegrityError and leaves the table unchanged |
| Repository.AddSpecKeepsTableValid | app/api/db/models.py:12-18 | adding keeps the primary key and both uniqueness constraints |
| Repository.AddSpecThenFind | app/api/repositories/user_repository.py:22-35 | after a successful add, both lookups find the new row |
| Repository.Session.AddAndFlush | app/api/repositories/user_repository.py:23-24 | the working table and id sequence move as the add specifies; the committed rows are untouched; the call is logged |
| Repository.Session.SelectUser | app/api/repositories/user_repository.py:28-30 | returns the lookup on the working table and logs the select |
| Repository.Session.CommitSession | app/api/db/UoW.py:37 | the working rows become the committed rows unless the connection fails; logs the commit |
| Repository.Session.RollbackSession | app/api/db/UoW.py:40 | the working rows return to the committed rows unless the connection fails; logs the rollback |
| Repository.Session.CloseSession | app/api/db/UoW.py:34 | logs the close and drops the working rows: what was flushed but not committed is gone |
| Repository.AlchemyUserRepository.AddOne | app/api/repositories/user_repository.py:22-25 | add and flush through the session, returning the stored user |
| Repository.AlchemyUserRepository.GetByUsername | app/api/repositories/user_repository.py:27-30 | the row whose username equals the argument exactly, if any |
| Repository.AlchemyUserRepository.GetByEmail | app/api/repositories/user_repository.py:32-35 | the row whose email equals the argument exactly, if any |
| UnitOfWork.UserUnitOfWork.Enter | app/api/db/UoW.py:24-27 | one fresh session of the factory and a repository bound to it; returns the Unit of Work itself |
| UnitOfWork.UserUnitOfWork.CommitWork | app/api/db/UoW.py:36-37 | commits through the session; SessionError when the connection fails |
| UnitOfWork.UserUnitOfWork.RollbackWork | app/api/db/UoW.py:39-40 | rolls back through the session; SessionError when the connection fails |
| UnitOfWork.UserUnitOfWork.Exit | app/api/db/UoW.py:29-34 | a raised body rolls back and keeps the committed rows, a clean one commits the working rows; close follows only when that returned; the body's exception is never suppressed |
| UnitOfWork.UserUnitOfWork.CommitWorkAsWritten | app/api/db/UoW.py:36-37 | as written the session's commit is never awaited: nothing raises |
| UnitOfWork.UserUnitOfWork.RollbackWorkAsWritten | app/api/db/UoW.py:39-40 | as written the session's rollback is never awaited: nothing raises |
| UnitOfWork.UserUnitOfWork.ExitAsWritten | app/api/db/UoW.py:29-40 | as written leaving the scope only closes the session: the committed rows stay as they were, the flushed rows are discarded, and no error is raised |
| UnitOfWork.ExitOps | app/api/db/UoW.py:29-34 | rollback appears exactly when the body raised, commit exactly when it did not, and close exactly when the connection did not fail |
| UserService.LeaveScope | app/api/db/UoW.py:29-34 | a result comes back exactly when the body returned and the connection holds; then the working rows are committed, otherwise the committed rows stay; a session failure replaces the body's error |
| UserService.LeaveScopeAsWritten | app/api/db/UoW.py:29-40 | as written the body's outcome comes back unchanged, the committed rows stay, and close is the only call added |
| UserService.RegisterScope | app/api/services/user_service.py:25-31 | inside the scope: a returned outcome is the input's name and email; a raised one leaves the working rows as they were; the username lookup comes first |
| UserService.RegisterSpec | app/api/services/user_service.py:24-31 | a registration that returns gives the input's name and email; one that raises leaves the committed rows as they were |
| UserService.RegisterSpecAsWritten | app/api/services/user_service.py:24-31 | as written the committed rows never change, whatever the outcome reported |
| UserService.AuthenticateSpec | app/api/services/user_service.py:33-40 | login changes no row and no id; a login that succeeds returns the lowercased name |
| UserService.UserService.RegisterInScope | app/api/services/user_service.py:26-31 | the lookups and the add move the session as RegisterScope says, and the committed rows are untouched |
| UserService.UserService.RegisterUser | app/api/services/user_service.py:24-31 | outcome, session calls, committed table and id sequence are those of RegisterSpec on the table before the call |
| UserService.UserService.RegisterUserAsWritten | app/api/services/user_service.py:24-31 | outcome, session calls, committed table and id sequence are those of RegisterSpecAsWritten on the table before the call |
| UserService.UserService.AuthenticateUser | app/api/services/user_service.py:33-40 | outcome, session calls and committed table are those of AuthenticateSpec on the table before the call |
| UserService.RegisterRejectsTakenUsername | app/api/services/user_service.py:26-27 | a taken username fails with the username conflict after one lookup, rolls back, and changes nothing |
| UserService.RegisterRejectsTakenEmail | app/api/services/user_service.py:28-29 | a free username with a taken email fails with the email conflict after two lookups, and changes nothing |
| UserService.RegisterSuccess | app/api/services/user_service.py:24-31 | a registration that returns gives back the input's name and email, made two lookups and one add, committed, and both lookups now find the row holding the password's hash |
| UserService.RegisterFreshUserSucceeds | app/api/services/user_service.py:24-31 | with both fields free and the next id unused, registration returns the name and email |
| UserService.RegisterFailureRollsBack | app/api/services/user_service.py:24-31 | every failure inside the scope rolls back, never commits, ends with close and leaves the committed rows as they were |
| UserService.RegisterKeepsTableValid | app/api/services/user_service.py:24-31 | registration keeps the table's key and uniqueness constraints |
| UserService.RegisterStoresNameAsGiven | app/api/services/user_service.py:30 | after a registration that returns, the username is taken exactly as given |
| UserService.AuthenticateLooksUpLowercasedOnce | app/api/services/user_service.py:34-37 | login makes one lookup of the lowercased name, commits, closes, and changes no row |
| UserService.AuthenticateSucceedsIff | app/api/services/user_service.py:38-40 | login returns the stored name exactly when a user was found and the password verifies; otherwise UserUnauthorisedException |
| UserService.AuthenticateSkipsVerifyWithoutUser | app/api/services/user_service.py:38 | with no such user, login fails and the verifier plays no part |
| UserService.UnnormalisedNameCannotLogIn | app/api/services/user_service.py:35-37 | a name that skipped the schema's lowercasing ("Alex") registers but cannot log in |
| UserService.RegisterThenLogIn | app/api/services/user_service.py:24-40 | after registering a schema-built user, that password with any capitalisation of the name logs in and returns the lowercased name |
| UserService.RegisterAsWrittenLosesUser | app/api/db/UoW.py:36-40 | as written a fresh registration reports success, but nothing is committed, the user is not in the table and logging in fails |
| ExternalApi.ExtApiRequest | app/api/utils/external_api.py:18-32 | succeeds with the JSON body exactly on 200; any other status gives ExternalAPIHTTPError with that status and the response text; a transport error gives the TypeError raised by building ExternalAPIHTTPError without a status code |
| ExternalApi.ExtApiRequestIntended | app/api/utils/external_api.py:18-32 | as ExtApiRequest when the provider responds; a transport error gives ExternalAPIHTTPError 500 with the error's text; every failure is an ExternalAPIHTTPError |
| ExternalApi.ExtApiGetData | app/api/utils/external_api.py:35-38 | the value under the key when the key is present, otherwise the key error carrying the key and the whole dict |
| ExternalApi.ExtApiGetCurrencies | app/api/utils/external_api.py:41-44 | request failures pass through; otherwise the `currencies` entry of the body, or the key error for `currencies` |
| ExternalApi.ModelDump | app/api/utils/external_api.py:48 | the dumped request has exactly the three keys `currency_1`, `currency_2`, `amount`, each with its field's value |
| ExternalApi.ExtApiGetExchange | app/api/utils/external_api.py:47-53 | request failures pass through; on success the request's currencies and amount come back with the provider's `result`; a body without `result` gives the key error |
| ExternalApi.ExchangeDependsOnlyOnItsCall | app/api/utils/external_api.py:47-51 | the exchange depends only on the provider's answer to the one call built from the request |
| ExternalApi.ExchangeScenario | app/api/utils/external_api.py:47-53 | USD to EUR for 100 with the provider answering 93 gives USD, EUR, 100, 93 |
| Handlers.HttpMessage | app/api/errors/handlers.py:24 | the message starts "Ошибка ", continues with the status in decimal, then " - ", and ends with the detail |
| Handlers.HttpExceptionHandler | app/api/errors/handlers.py:11-26 | status and headers are the exception's own, and the one body entry is the message with status and detail |
| Handlers.RequestValidationErrorHandler | app/api/errors/handlers.py:29-47 | always 422 with the fixed message, the errors and the request body |
| Handlers.ValidationErrorHandler | app/api/errors/handlers.py:50-63 | always 500 with the fixed message; no errors are sent |
| Handlers.ValidationErrorHidesErrors | app/api/errors/handlers.py:60-63 | the response does not depend on the validation errors |
| Handlers.ExternalApiErrorHandler | app/api/errors/handlers.py:66-89 | provider 402 becomes 404 "currency code not found"; any other code 500 "problem with the provider's response"; no headers |
| Handlers.ExternalApiErrorHidesDetail | app/api/errors/handlers.py:77-89 | the response does not depend on the provider's text |
| Handlers.HandlerTableIsOneToOne | app/api/errors/handlers.py:92-97 | the table has exactly the four classes, each with its own handler |
| Handlers.RegisteredClass | app/api/errors/handlers.py:92-97 | every HTTPException kind goes to the Starlette HTTPException entry; the validation errors and ExternalAPIError to their own entries; nothing else is covered; the class found is in the table |
| Handlers.Handle | app/api/errors/handlers.py:92-97 | an exception gets a response exactly when a registered class covers it; an HTTPException kind gets http_exception_handler's response to it, validation errors and ExternalAPIError their own handler's; 401 with Bearer for credential errors, 400 for a taken name, a provider status error its own status |
| Handlers.HandleIntended | app/api/errors/handlers.py:66-97 | provider status errors go to the external-API handler; every other exception is answered as Handle answers it |
| Handlers.ProviderStatusAsWrittenLeaksDetail | app/api/errors/handlers.py:92-97 | as written, a provider 402 is answered 402 with the provider's text in the message |
| Handlers.ProviderStatusIntended | app/api/errors/handlers.py:77-89 | routed to the external-API handler, a provider status error is answered 404 for 402 and 500 otherwise, whatever its text |
| Handlers.ExchangeWithUnknownCurrency | app/api/utils/external_api.py:47-53 | an exchange the provider answers 402 reaches the client as 402 as written, and as 404 "currency code not found" with the intended routing |
| Handlers.TransportFailureUnhandled | app/api/utils/external_api.py:25-26 | as written a transport failure raises the TypeError, and no entry of the handler table covers it |
| Handlers.TransportFailureIntended | app/api/utils/external_api.py:25-26 | with the status supplied, a transport failure is ExternalAPIHTTPError 500 with the error's text and is answered 500 "problem with the provider's response" |

## Left out

- Logging (`logger.debug`, `logger.exception`): it has no effect on results.
- The HTTP client's lifetime (`httpx.AsyncClient` as a context manager) and `str.format` of the URL. A call is identified by the URL template, its keyword arguments and the API key.
- Floating-point amounts and rates. They are JSON numbers kept as text, because the service only echoes them.
- Pydantic validation of `CurrencyResponse` and `CurrencyAll`, and a provider body that is not a JSON object.
- bcrypt's salt and cost: the hasher is a deterministic function, with the properties the service relies on stated as `SoundHasher`.
- The JWT signature, secret key and algorithm: they are inside the codec, with `SoundCodec` as the assumption.
- `async`/`await` and concurrency: each call runs to completion alone.
- `users` column widths (`String(50)` for username and email, `String(60)` for the hash, app/api/db/models.py:16,18,19): strings are unbounded, so an over-long value the database would refuse is accepted.
- Values.Lower: lowercases Latin and Russian Cyrillic letters only, not the whole of Unicode.
- Security.AuthenticateUser: takes the looked-up user's hash as a parameter. `get_user_from_db` belongs to app/api/db/database.py, which is not part of this model.
- The interface protocols (`IUserService`, `IUserUnitOfWork`, `IUserRepository`) and the dependency factory `get_user_service`: they declare shapes and wire objects together.
- UniqueFieldException, ExternalAPIDataError and ExternalAPIError are imported by the core but not defined in app/api/errors/exceptions.py. They are modelled as separate exception kinds:
  - ExternalAPIError is not related to ExternalAPIHTTPError;
  - UniqueFieldException has no entry in the handler table;
  - ExternalAPIDataError is the key error that `ext_api_get_data` raises (ExternalAPIKeyError).
- The server's default answer to an exception no handler covers (the transport TypeError) is not modelled.
- Values.QuoteRepr: always quotes with single quotes and escapes nothing, unlike Python's `repr`, which switches to double quotes for a string holding a single quote and escapes backslashes and control characters.
- Values.Lookup: a `Dict` is a list of pairs that may repeat a key, and Lookup returns the first. The provider's bodies come from `json.loads`, which keeps the last duplicate.
- Models.SchemaUserCreate models a lowercasing registration schema, an assumption taken from tests/test_schemas.py:61-79. The app/api/schemas/users.py of this repository has no such validator and defines no `UserReturn`, so the service as written does not lowercase at registration (see Findings).
- Where the repository's tests expect other texts or codes (a 402 answered 400, differently named handlers), the model follows the handler code.

## Findings

| source | as written | input that shows it | evidently intended | confidence | as-written member | corrected member |
|---|---|---|---|---|---|---|
| app/core/security.py:41-43 | `create_jwt_token` adds `exp` to the copy `to_encode` but signs the original `data`, so tokens carry no expiry | `{"sub": "alex"}` with a 30-minute lifetime still decodes to `alex` a day later | sign `to_encode`, so the token expires after the configured lifetime | high; not executed | Security.AsWrittenTokenCounterexample | Security.CreatedTokenExpires |
| app/api/errors/handlers.py:92-97 | errors from `ext_api_request` are ExternalAPIHTTPError, an HTTPException but not an ExternalAPIError, so they reach `http_exception_handler` rather than `external_api_error_handler` | the provider answers 402 to an exchange: the client gets 402 with the provider's own text instead of 404 "currency code not found" | provider status errors go to the external-API handler: 402 becomes 404, anything else 500 | medium (ExternalAPIError is not defined in app/api/errors/exceptions.py); not executed | Handlers.ProviderStatusAsWrittenLeaksDetail | Handlers.ProviderStatusIntended |
| app/api/utils/external_api.py:26 | a transport error raises `ExternalAPIHTTPError(detail=str(e))` without the required status code, so the constructor itself raises TypeError, which no handler covers | the provider times out: the client gets the server's unhandled-error response, not the provider-problem answer | ExternalAPIHTTPError with status 500 and the error's text as detail, chained to the cause | high; not executed | Handlers.TransportFailureUnhandled | Handlers.TransportFailureIntended |
| app/api/services/user_service.py:24-31 | registration stores the username as given, while login looks up `username.lower()`, and the UserCreate schema does not lowercase | register "Alex" with password "Valid1!x", then log in as "Alex": UserUnauthorisedException | registration stores the lowercased username, as a lowercasing schema would hand it on | medium; not executed | UserService.UnnormalisedNameCannotLogIn | UserService.RegisterThenLogIn |
| app/api/db/UoW.py:36-40 | `commit` and `rollback` call the session without `await`, so the coroutine never runs; `close` then discards the flushed row | register a fresh "alex": success is reported, the table stays empty and logging in as "alex" fails | await the session's commit and rollback | high; not executed | UserService.RegisterAsWrittenLosesUser | UserService.RegisterSuccess |
