# PlantPal authentication core, modelled in Dafny

This project models the authentication core of the PlantPal backend:

- **The authentication service** (`Service` in the `application` package). `Register` normalises the input, validates it, checks that the email is free, hashes the password and persists a new user. `Login` looks the user up, compares the password and asks the token issuer for a 24-hour token. `DeleteUser` parses an id and deletes by it.
- **The HS256 token issuer.** It builds a token's claim map from the registered claims `iss`, `sub`, `iat`, `exp`, then merges the caller's claims over them.
- **Configuration loading.** It reads `PORT`, `ENV`, `DATABASE_URL`, `LOG_LEVEL` and `JWT_SECRET` from the environment, parses the port with `strconv.Atoi`, and refuses a production configuration without a JWT secret.

Modules:

- `Basics`: failure wrappers, foreign error values (`Fault`), UUIDs, instants and durations, and JWT claim values.
- `Strings`: Go's `strings.TrimSpace`, using the white-space set of `unicode.IsSpace`, and `strings.ToLower` on ASCII letters. Also the email normalisation built from them.
- `Domain`: the `User` record and the user repository.
  - The SQL repository is replaced by a class over a table `map<string, User>` keyed by email, with the unique key on email.
  - Each repository operation can be given a database error, which the repository answers with.
  - The functions `Find`, `Create` and `Remove` state what each operation returns and leaves behind. The `UserRepository` methods are proved to agree with them.
- `Jwt`: `TokenClaims`, the claim map a token is signed over, and `HS256Issuer`.
  - The class's `Issue` method runs the merge loop over the caller's claims in an arbitrary key order.
  - It is proved to sign exactly `TokenClaims`. Signing is a function parameter.
- `Auth`: the service.
  - Each operation is a function of the repository state: `RegisterRun`, `LoginRun`, `DeleteUserRun`. Each gives the result, the repository state afterwards and the ordered log of calls made to the collaborators.
  - The `Service` class performs the same steps on a `UserRepository` object and keeps a ghost log of its collaborator calls. Each of its methods is proved to agree with the corresponding function.
  - The collaborators are values holding functions:
    - `Hasher` (`Hash`, `Compare`);
    - `TokenIssuer` (`Issue`);
    - `UuidText` (`UUID.String`, `uuid.Parse`).
  - `uuid.New()` and `time.Now()` are parameters.
- `AuthProperties`: what the service guarantees, proved about the three run functions.
- `AppConfig`: `getEnv`, `validate` and `Load` over an environment map, and an exact model of `strconv.Atoi` for a 64-bit `int`.

## Model

| member | source | states |
|---|---|---|
| Basics.Unix | internal/shared/jwt/issuer.go:30-31 | `Time.Unix` is the whole number of seconds since the epoch, rounded towards the past |
| Basics.Add | internal/shared/jwt/issuer.go:31 | `Time.Add` moves an instant by exactly the duration |
| Strings.LowerChar | internal/modules/auth/application/service.go:66 | an ASCII capital becomes the lower-case letter at the same place in the alphabet; every other character is left alone; white space stays white space |
| Strings.ToLowerAt | internal/modules/auth/application/service.go:66 | `ToLower` maps each character on its own, position by position |
| Strings.TrimLeftCutsSpacePrefix | internal/modules/auth/application/service.go:66-68 | trimming on the left cuts a white-space prefix and stops at the first other character |
| Strings.TrimRightCutsSpaceSuffix | internal/modules/auth/application/service.go:66-68 | trimming on the right cuts a white-space suffix and stops at the last other character |
| Strings.TrimSpaceCutsSpace | internal/modules/auth/application/service.go:66-68 | `TrimSpace` removes white space at both ends and nothing else; the result neither starts nor ends with white space |
| Strings.TrimSpaceIdempotent | internal/modules/auth/application/service.go:67-68 | trimming twice is trimming once |
| Strings.TrimSpacePadded | internal/modules/auth/application/service.go:66-68 | white space around a string makes no difference to `TrimSpace` |
| Strings.NormalizeEmailIdempotent | internal/modules/auth/application/service.go:66 | the email key is its own key and holds no ASCII capital, so normalising a stored email again finds the same row |
| Strings.NormalizeIgnoresCaseAndPadding | internal/modules/auth/application/service.go:137 | emails that differ only in ASCII letter case and surrounding white space have the same key |
| Domain.Find | internal/modules/auth/infrastructure/persistence/user_repository.go:43-69 | lookup fails exactly on a database error; otherwise it finds the row stored under the email, or reports none (not an error) when there is none; in a table keyed by email the row found carries that email |
| Domain.Create | internal/modules/auth/infrastructure/persistence/user_repository.go:22-40 | the insert succeeds exactly when the database does not fail and the email is free, and then adds exactly that row; a taken email gives the unique-key error; a failed insert changes nothing; the table stays keyed by email |
| Domain.Remove | internal/modules/auth/infrastructure/persistence/user_repository.go:93-97 | delete fails exactly on a database error and then changes nothing; otherwise it removes exactly the rows with that id, keeps every other row as it was, and deleting a missing id is no error; the table stays keyed by email |
| Domain.UserRepository.constructor | internal/modules/auth/infrastructure/persistence/user_repository.go:17-19 | a repository starts with the given table, keyed by email, and database behaviour |
| Domain.UserRepository.FindByEmail | internal/modules/auth/infrastructure/persistence/user_repository.go:43-69 | the method returns what `Find` specifies and changes nothing |
| Domain.UserRepository.CreateUser | internal/modules/auth/infrastructure/persistence/user_repository.go:22-40 | the method's result and the new table are those `Create` specifies, and the table stays keyed by email |
| Domain.UserRepository.Delete | internal/modules/auth/infrastructure/persistence/user_repository.go:93-97 | the method's result and the new table are those `Remove` specifies, and the table stays keyed by email |
| Jwt.StandardClaims | internal/shared/jwt/issuer.go:27-32 | the registered claims of a token are exactly `iss`, `sub`, `iat` and `exp` |
| Jwt.TokenClaims | internal/shared/jwt/issuer.go:27-37 | the signed claim map has keys `{iss, sub, iat, exp}` plus the caller's keys; every caller claim keeps the caller's value, winning on collision; a registered claim the caller does not set is the issuer name, the subject, now and now + ttl in Unix seconds |
| Jwt.ExpiryMinusIssuedAt | internal/shared/jwt/issuer.go:30-31 | for a whole number of seconds of TTL, `exp - iat` is the TTL in seconds |
| Jwt.MergeInOrderIsUnion | internal/shared/jwt/issuer.go:35-37 | the merge loop run in any given key order overwrites the base map with the visited caller claims |
| Jwt.MergeInOrderSnoc | internal/shared/jwt/issuer.go:35-37 | one more turn of the merge loop sets one more caller claim over the map built so far |
| Jwt.MergeOrderIndependent | internal/shared/jwt/issuer.go:35-37 | every order that visits each caller key yields the same claim map, `TokenClaims` |
| Jwt.HS256Issuer.constructor | internal/shared/jwt/issuer.go:16-21 | `NewHS256Issuer` keeps the secret and the issuer name unchanged |
| Jwt.HS256Issuer.Issue | internal/shared/jwt/issuer.go:24-41 | the loop's map is the merge in the order it has taken so far; whatever that order, the token is the signature of `TokenClaims` under the issuer's secret |
| Auth.Service.constructor | internal/modules/auth/application/service.go:39-45 | `NewService` holds the given repository, hasher and issuer and has made no calls |
| Auth.Service.Register | internal/modules/auth/application/service.go:64-112 | the method's result, the repository's new table and the collaborator calls it makes are those of `RegisterRun` |
| Auth.Service.Login | internal/modules/auth/application/service.go:135-172 | the repository is untouched, and the result and collaborator calls are those of `LoginRun` |
| Auth.Service.DeleteUser | internal/modules/auth/application/service.go:174-181 | the result, the repository's new table and the calls are those of `DeleteUserRun` |
| AuthProperties.RegisterNormalises | internal/modules/auth/application/service.go:66-111 | a registration stores and returns the normalised email and trimmed names, the returned view is that of the stored row, and the stored email is in normal form |
| AuthProperties.RegisterRejectsMissingFields | internal/modules/auth/application/service.go:71-73 | Register fails with `ErrMissingFields` exactly when the normalised email, the trimmed first name or the password is empty, and then makes no call and writes nothing |
| AuthProperties.RegisterRejectsTakenEmail | internal/modules/auth/application/service.go:76-82 | Register fails with `ErrEmailTaken` exactly when the lookup finds a user, after that lookup alone and without a write |
| AuthProperties.RegisterPassesErrorsThrough | internal/modules/auth/application/service.go:76-104 | a lookup, hash or insert error is returned unchanged and the calls stop at the failing step; an insert error is not turned into `ErrEmailTaken` |
| AuthProperties.RegisterNoWriteOnFailure | internal/modules/auth/application/service.go:64-112 | a failed registration leaves the repository as it was |
| AuthProperties.RegisterSuccess | internal/modules/auth/application/service.go:85-111 | on success the calls are lookup, hash, insert; the one new row has the fresh id, the normalised email, the hasher's output as hash, the trimmed names and `CreatedAt == UpdatedAt == now`; the result is its public view |
| AuthProperties.RegisterSucceedsExactly | internal/modules/auth/application/service.go:71-111 | Register succeeds exactly when every field is present, the lookup finds nobody under the key, the hasher succeeds and the insert does not fail |
| AuthProperties.RegisterWritesAtMostOnce | internal/modules/auth/application/service.go:76-104 | Register writes at most once, only as its last call, after a lookup that found nobody and a successful hash of this password, and exactly once on success |
| AuthProperties.RegisterKeepsStoreKeyed | internal/modules/auth/application/service.go:76-104 | registration keeps one user per email in the table |
| AuthProperties.RegisterOutputHidesPassword | internal/modules/auth/application/service.go:106-111 | two registrations that differ only in the password and its hash return the same value |
| AuthProperties.LoginInvalidExactly | internal/modules/auth/application/service.go:137-151 | Login fails with `ErrInvalidLogin` exactly when the lookup succeeds and finds nobody, or finds a user whose hash does not match |
| AuthProperties.LoginFailuresIndistinguishable | internal/modules/auth/application/service.go:144-151 | an unknown email and a wrong password return the very same value |
| AuthProperties.LoginReadOnly | internal/modules/auth/application/service.go:135-172 | Login leaves the repository as it was and its call log holds no write |
| AuthProperties.LoginSuccess | internal/modules/auth/application/service.go:140-171 | on success the lookup succeeded and `Compare` accepted the password; in a table keyed by email the user found has the login's normalised email; the calls are lookup, compare and one `Issue`; that `Issue` gets the user id string as subject, a 24-hour TTL and exactly the stored email and names as claims; the result holds its token and the stored user's public fields |
| AuthProperties.LoginSucceedsExactly | internal/modules/auth/application/service.go:137-171 | Login succeeds exactly when the lookup finds a user under the key, `Compare` accepts the password and the issuer signs a token |
| AuthProperties.LoginPassesErrorsThrough | internal/modules/auth/application/service.go:140-161 | a lookup error is returned unchanged after the lookup alone, and an `Issue` error is returned unchanged |
| AuthProperties.LoginTokenClaims | internal/modules/auth/application/service.go:154-158 | through the HS256 issuer, a login token carries the issuer name, the user id as subject, `exp = iat + 86400` and the stored email and names |
| AuthProperties.DeleteUserDelegates | internal/modules/auth/application/service.go:174-181 | an id that does not parse gives the parse error with no repository call; otherwise exactly one `Delete` by the parsed id, whose result is returned |
| AuthProperties.DeleteBySubjectRemovesUser | internal/modules/auth/application/service.go:174-181 | deleting by a user's id string removes that user, keeps all other users and keeps the table keyed |
| AuthProperties.RegisterThenLogin | internal/modules/auth/application/service.go:64-172 | with a hasher whose `Compare` accepts its own hashes, a registration with every field present, a free email and collaborators that do not fail succeeds, and a later login passes with the same password and any spelling of the email that has the same key; it succeeds unless the issuer fails and returns the registered user |
| AuthProperties.SecondRegistrationTaken | internal/modules/auth/application/service.go:66-82 | a second registration under an email with the same key is refused with `ErrEmailTaken` after one lookup |
| AuthProperties.InvalidEmailNeverReturned | internal/modules/auth/application/service.go:17 | `ErrInvalidEmail` is declared but no operation returns it |
| AuthProperties.AdaScenario | internal/modules/auth/application/service.go:52-73 | `" Ada@Example.COM "` and `"ADA@EXAMPLE.COM"` both have the key `"ada@example.com"`; the password `"short"` passes Register's own validation |
| AppConfig.GetEnv | internal/shared/config/config.go:49-54 | `getEnv` returns a set, non-empty value, and otherwise the default |
| AppConfig.EmptyValueIsUnset | internal/shared/config/config.go:49-54 | an empty value behaves exactly as an unset variable |
| AppConfig.Atoi | internal/shared/config/config.go:20 | a parsed port is a 64-bit `int` |
| AppConfig.ScanDigitsValue | internal/shared/config/config.go:20 | the digit loop succeeds exactly on digit strings whose value fits in 64 bits, and yields that value |
| AppConfig.AtoiAcceptsIntegers | internal/shared/config/config.go:20-23 | `Atoi` accepts exactly an optional sign followed by digits whose value is a 64-bit `int`, and returns that value |
| AppConfig.Validate | internal/shared/config/config.go:41-46 | validation fails exactly for the production environment without a JWT secret |
| AppConfig.LoadSucceedsIff | internal/shared/config/config.go:19-38 | `Load` succeeds exactly when the port parses and validation passes, and then every field is its variable's `getEnv` value |
| AppConfig.LoadRejectsBadPort | internal/shared/config/config.go:20-23 | a `PORT` that is not a 64-bit integer in decimal makes `Load` fail with `Atoi`'s error about that text, and no configuration |
| AppConfig.LoadDefaults | internal/shared/config/config.go:20-31 | with nothing set, `Load` yields port 8080, environment `development`, empty database URL, log level `info` and empty secret |

## Left out

- Process wiring, the HTTP layer, logging and HTTP error helpers are not part of this model: `cmd/api/main.go`, the gin handlers, `logger.go` and `errors.go`. Request-binding tags such as `required`, `email` and `min=8` belong to that layer. The service itself only rejects empty fields (`AuthProperties.AdaScenario`).
- The SQL repository is replaced by the map-backed `Domain.UserRepository`. A database error is an injected `Fault` per operation. Column scanning and the driver are not modelled.
- `UserRepository.Update` is not modelled: the service never calls it.
- `context.Context` is ignored by the code and is not modelled.
- The check-then-create race between concurrent registrations is not modelled.
  - In the model, lookup and insert see the same table. So the unique-key error of `Domain.Create` cannot reach `Register` after a lookup that found nobody.
  - A uniqueness violation on insert is not turned into `ErrEmailTaken`: the code returns the store's error unchanged (service.go:102-104), and the model follows the code (`AuthProperties.RegisterPassesErrorsThrough`).
- Strings.ToLower: lower-cases ASCII letters only. Go's `strings.ToLower` also maps non-ASCII capitals, so keys of non-ASCII emails may differ from Go's. `TrimSpace` uses the full `unicode.IsSpace` set.
- The hasher is two functions, so a given password always has the same hash in the model. bcrypt draws a fresh salt per call, which the model does not capture. `RegisterThenLogin` assumes only that `Compare` accepts what `Hash` produced (`AuthProperties.Sound`).
- `uuid.New()` and `time.Now()` are parameters of `Register` and `HS256Issuer.Issue`. `UUID.String` and `uuid.Parse` are the `UuidText` collaborator. `DeleteBySubjectRemovesUser` assumes they round-trip.
- Jwt.HS256Issuer.Issue: HS256 signing (`SignedString`) is a `Signer` parameter and is left uninterpreted. The secret is kept as a string rather than its byte conversion.
- Claim values are strings and integers only. That is everything the core puts in a claim map; other Go values are not modelled.
- Errors are values, not messages.
  - The text of the sentinel errors is not modelled.
  - `fmt.Errorf` wrapping in `Load` is the `InvalidPort` and `InvalidConfiguration` constructors.
  - A collaborator error is an opaque `Fault` handed on as `Passed`.
- Reading the process environment is the `Env` map parameter of `Load`.
- Instants (`Basics.Time`) and durations (`Basics.Duration`) are unbounded integers of nanoseconds. Go's `time.Duration` is an int64, and `Time.Add` saturates at the ends of `time.Time`'s range; neither limit is modelled, so `Basics.Add` and `Jwt.HS256Issuer.Issue` accept any TTL.
