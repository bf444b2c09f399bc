# tvm: a credential broker, modelled in Dafny

tvm hands out short-lived AWS role credentials. A browser arrives with no session. The
server mints a session and sends the browser to the identity provider (OAuth2/OIDC). The
provider's callback binds the session to the user's e-mail address. The user then proves
possession of a registered U2F security key. Only after that does the server call STS
`AssumeRole` for one of the user's roles. The credential goes either to the command-line
client, through a redirect to its loopback listener, or out as shell `export` lines.
Administrators add and remove roles, grant and revoke the admin flag, and reset a user's
devices. Sessions and users live in a key-value store; `LocalStore` keeps one JSON file per
record. The command-line client caches credentials per server and role, and reuses a cached
credential until it expires.

The model has these parts:

- `Records` holds the store's records (store.go).
- `Storage` holds `LocalStore` as a class with two tables, a `sessions` map and a `users`
  map. Beside them it keeps a journal of successful writes, so a handler's contract can state
  the order of its writes and that an error path wrote nothing. Each directory can refuse
  writes (`sessionWritesFail`, `userWritesFail`), so the store's error paths are reachable.
  A fault holds for every write to that directory (see Left out).
- `Broker` holds the server as a class with one method per HTTP handler. Each method's
  `ensures` gives the response and the new store state, branch by branch.
- `Admin` holds the admin edits and the admin gate.
- `Issuance` holds role choice, role authorisation and credential delivery.
- `SecondFactor` holds the U2F device scan, counter update and registration.
- `Jwt` holds `ParseJWTWithoutVerifying`. It follows the JWS Compact Serialization of
  section 7.1 of RFC 7515 (three dot-separated parts).
- `Base64Url` is the unpadded base64url of section 5 of RFC 4648, as Go's
  `base64.RawURLEncoding` decodes it: CR and LF are skipped, and unused trailing bits are
  not checked.
- `Decimal` holds `strconv.Atoi` and `%d`.
- `Strings` holds `strings.Split`, `Join`, `HasSuffix` and `TrimSuffix`.
- `Cli` holds the command-line client `cliMain`, as written (its flags are never parsed) and
  with `-s` and `-r` parsed.
- `Findings` drives the handlers, as written and as corrected, through the scenarios listed
  under Findings.

External services are parameters of the model:

- The identity provider's authorisation URL, its code exchange and the JSON decoding of the ID
  token are functions held by the server (`IdentityProvider`).
- U2F challenge verification and registration verification are the `U2FLibrary` functions.
  `authenticate` gives the new counter or fails.
- STS `AssumeRole` is a function from its input to optional credentials. IAM `ListRoles` is
  an argument of the admin handler: the role ARNs, or the error text.
- RFC 3339 formatting is a function of the server. Parsing is a parameter of the client.
- Random bytes are arguments of the handlers that read them. `None` stands for a failed read.
- Calls to the identity provider and to STS are recorded in order in `Server.calls`. This is
  what lets "no exchange" and "the exact STS input" be stated.
- A Go panic is the response `Abort`. A nil Go map is `None`. A time is an integer count of
  seconds from Go's zero instant, so `IsZero` means `== 0`.

Where the code and its description disagree, the model follows the code:

- The server's format values are `"cli"` and `"sh"` (server.go:138,158).
- An empty role is authorised whenever `""` is among the user's roles
  (`Issuance.EmptyRoleAuthorised`).
- The callback never creates a user with `LocalStore`, because `GetUser` reports
  `ErrNotFound` (see Findings).
- `isAuthorizedAdmin` ignores the second-factor flag (`Admin.AdminGateIgnoresSecondFactor`).
- The admin tests (admin_test.go:106-259) post to `/admin/op`, but server.go:46 routes only
  `POST /admin`. `Broker.Route` follows the routing table.
- `cliMain` declares `-s` and `-r` but never calls `flag.Parse`, so both are always empty.
  The client works only from a state file holding exactly one server with exactly one role
  (`Cli.CliMain`; see Findings).

## Model

| member | source | states |
|---|---|---|
| Strings.Split | oauth2.go:101 | `strings.Split`: one more part than there are separators, and no part contains the separator |
| Strings.JoinSplit | oauth2.go:101 | joining the parts of a split with the separator gives back the input |
| Strings.SplitJoin | oauth2.go:101-102 | splitting the join of separator-free parts returns exactly those parts |
| Strings.TrimSuffix | store_local.go:97-98 | a present suffix is removed (stem plus suffix is the input); otherwise the input is unchanged |
| Strings.TrimAppendedSuffix | store_local.go:97-98 | `<id>.json` trimmed of `.json` is `<id>` |
| Base64Url.Symbol | session.go:24-25 | each 6-bit value's symbol decodes back to that value |
| Base64Url.Encode | session.go:24-25 | unpadded base64url: the output length is `EncodedLen`, and every character is in the URL-safe alphabet |
| Base64Url.DecodeEncode | oauth2.go:106 | decoding an encoding returns the original bytes |
| Base64Url.DecodeRejectsForeign | oauth2.go:106-109 | a character outside the alphabet, other than CR or LF, makes decoding fail |
| Base64Url.Encode32 | session.go:11-25 | 32 random bytes encode to 43 characters |
| Decimal.NatToString | server.go:153 | `%d` of a natural number is a non-empty digit string whose value is that number |
| Decimal.AtoiItoa | server.go:147 | `Atoi` reads back any 64-bit value `%d` printed |
| Decimal.AtoiRejects | server.go:147-152 | a non-digit anywhere but a leading sign makes `Atoi` fail |
| Records.RegistrationsOf | store.go:26-32 | one registration per device, the i-th being the i-th device's registration |
| Records.RegistrationsIgnoreCounters | store.go:29 | devices that differ only in counters give the same registrations |
| Storage.ListedUsers | store_local.go:96-105 | a listing fails only with `ErrNotFound` |
| Storage.ListedUsersMatchEntries | store_local.go:96-105 | a successful listing has one user per `.json` entry, in order, each stored under the entry's name without `.json` |
| Storage.ListedUsersFailOnMissing | store_local.go:98-101 | one `.json` entry without a stored user fails the whole listing |
| Storage.LocalStore.GetSession | store_local.go:19-31 | found if and only if stored; the session returned is the one stored under that ID; absent gives `ErrNotFound` |
| Storage.LocalStore.PutSession | store_local.go:34-44 | overwrites the entry for the session's ID (last writer wins), leaves users alone and journals the write; on a write fault nothing changes |
| Storage.LocalStore.DeleteSession | store_local.go:46-53 | absent gives `ErrNotFound`, a fault an I/O error, both with no change; otherwise the entry is removed and the removal journalled |
| Storage.LocalStore.GetUser | store_local.go:55-66 | found if and only if stored; absent gives `ErrNotFound`, never a nil user with no error |
| Storage.LocalStore.PutUser | store_local.go:68-76 | overwrites the entry for the user's ID and journals it; sessions untouched; on a fault nothing changes |
| Storage.LocalStore.DeleteUser | store_local.go:78-85 | as `DeleteSession`, over the users table |
| Storage.LocalStore.ListUsers | store_local.go:87-106 | a missing directory gives no users; an unreadable one an error; otherwise the loop's result is `ListedUsers` of the entries, each user being a stored one; when the directory's `.json` files are exactly the users table, the listing succeeds and holds every stored user once |
| Storage.ListingReflectsTable | store_local.go:96-105 | a listing whose `.json` files are exactly the table yields every stored user, with no ID twice |
| Storage.PutThenGet | store_local.go:19-44 | a get after a put of the same ID returns what was put; a session and a user with the same ID do not collide |
| Storage.DeleteThenGet | store_local.go:46-53 | after a delete, get reports not found and a second delete reports `ErrNotFound` |
| Storage.UserLifecycle | store_test.go:44-76 | in a fresh store a user is not found and none is listed; after the put it is found and is the only user listed; after the delete it is not found, none is listed, and a second delete reports `ErrNotFound` |
| Jwt.NotJWTIffNotThreeParts | oauth2.go:101-104 | "expected JWT" exactly when the token does not have exactly two dots |
| Jwt.ParseThreeParts | oauth2.go:100-115 | for header.payload.signature the result depends only on decoding the payload |
| Jwt.SignatureNeverInspected | oauth2.go:106 | replacing the signature part never changes the result |
| Jwt.ParseEncodedPayload | oauth2.go:106-115 | a payload that is the base64url encoding of some bytes yields exactly the JSON decoding of those bytes |
| SecondFactor.AppIDIgnoresPathAndQuery | u2f_sign.go:11-14 | `AppID`, the origin `scheme://host` of the root URL, does not depend on the root URL's path and query |
| SecondFactor.NewChallenge | u2f_sign.go:18 | a challenge exists exactly when random bytes could be read; it carries the app ID and trusted facets given |
| SecondFactor.FirstVerifying | u2f_sign.go:90-112 | the hit is the first device, in storage order, that verifies; it carries that device's new counter, and no earlier device verifies |
| SecondFactor.ScanDevices | u2f_sign.go:90-112 | the device loop's result is exactly `FirstVerifying`: the first verifying device and its new counter |
| SecondFactor.WithCounter | u2f_sign.go:100 | only the hit device's counter changes, to the verifier's value; all other devices are unchanged |
| SecondFactor.WithCounterKeepsRegistrations | u2f_sign.go:100 | a counter update does not change the registrations offered next time |
| SecondFactor.WithRegistered | u2f_register.go:120-123 | registration appends exactly one device at the end, with counter 0; earlier devices are unchanged |
| SecondFactor.RegisteredAppendsRegistration | u2f_register.go:120-123 | the registrations offered afterwards are the earlier ones followed by the new one |
| Issuance.DesiredRoleChoice | server.go:109-112 | an explicit role is used as given; an empty one is replaced only for a user with exactly one role |
| Issuance.RoleAllowed | server.go:114-119 | the membership loop says yes if and only if the desired role equals some entry exactly |
| Issuance.AuthorisedRoleIsListed | server.go:109-124 | an authorised role is one of the user's roles; without an explicit role that needs a single role or `""` on the list |
| Issuance.EmptyRoleAuthorised | server.go:109-119 | with no role parameter and `""` among the roles, the empty role is authorised |
| Issuance.RoleSessionNameIdentifies | server.go:130 | `RoleSessionName` (`tvm:` and the user ID) is injective: equal session names mean the same user ID |
| Issuance.ShellExportsLines | server.go:158-164 | the `sh` body is exactly three export lines, in a fixed order |
| Admin.Without | admin.go:39-46 | the role is gone, and every other role keeps its number of copies |
| Admin.WithoutConcat | admin.go:39-46 | removal works piece by piece, so the remaining roles keep their relative order |
| Admin.DeleteRole | admin.go:38-47 | the filtering loop computes `Without` |
| Admin.AdminEditScope | admin.go:34-63 | exactly the five operations are known; each changes only its own field and never the ID |
| Admin.RoleEdits | admin.go:35-47 | `add_role` appends and keeps duplicates; `delete_role` removes every copy |
| Admin.AdminGateIgnoresSecondFactor | admin.go:110-125 | the session's second-factor flag makes no difference to the admin gate |
| Broker.NewSessionRecord | session.go:11-27 | the new session is unbound and unverified, has no challenge, and keeps the query verbatim; its ID and state are 43 URL-safe characters that decode to the random bytes |
| Broker.Route | server.go:40-49 | only `POST /admin` is routed for POST; GET routes only the six registered paths |
| Broker.AnswerRoutes | u2f_sign.go:47 | the registration page's answer reaches its handler; the sign page's answer path is not routed |
| Broker.SignAnswerRouted | server.go:43 | the path `/u2f/sign` reaches `handleU2FSigned` |
| Broker.Server.NewSession | session.go:10-45 | the session is stored before the cookie `session` (value the ID, MaxAge from config) and the 302 to `AuthCodeURL(state)`; a failed read or write aborts with neither |
| Broker.Server.SendU2FChallenge | u2f_sign.go:16-33 | the fresh challenge is stored on the session, nothing else about it changed, before the sign request over the user's registrations |
| Broker.Server.AcceptCallback | oauth2.go:12-48 | a missing cookie, unknown session or wrong state stops the handler with no exchange and no write; otherwise the code is exchanged once, and a good ID token stores the session with its state cleared, its user bound and its U2F flag kept |
| Broker.Server.CallbackPrefix | oauth2.go:12-48 | shared post-state of both callback versions: each early exit's exact message, no exchange before the state check, one exchange after it, and no write on any failure |
| Broker.Server.HandleOAuth2Callback | oauth2.go:12-71 | `CallbackPrefix`; no write to users ever; the bound session is written first; a new identity is answered with the fetch error; a user without devices is sent to `/u2f/register`; otherwise a sign challenge is stored and sent, or the handler aborts after the session write |
| Broker.Server.HandleOAuth2CallbackCreating | oauth2.go:50-63 | `CallbackPrefix`; a user seen for the first time is created with only the ID set (or the create error is printed) and sent to register; a known user is not rewritten |
| Broker.Server.HandleU2FSigned | u2f_sign.go:61-120 | no challenge gives 400 and no write; on the first verifying device the user (only that counter changed) is written before the session (verified, challenge cleared), then a redirect to `/` with the original parameters; no hit writes nothing |
| Broker.Server.RegisterSignedDone | u2f_register.go:84-134 | shared post-state of registration: a nil challenge aborts, a failed verification gives 500 with no write, success writes the user (device appended with counter 0) then the session (challenge cleared) |
| Broker.Server.HandleU2FRegisterSigned | u2f_register.go:84-134 | establishes `RegisterSignedDone` |
| Broker.Server.HandleU2FRegister | u2f_register.go:11-81 | a `resp` parameter delegates to registration; otherwise nothing is written, even the challenge placed on the session |
| Broker.Server.HandleU2FRegisterSaving | u2f_register.go:39-48 | the challenge is stored on the session before the registration page is produced |
| Broker.Server.HandleGetToken | server.go:68-169 | the gate (session bound, verified, user loadable) or a restart that deletes a stale session; admin format answered before any role check; STS called only for a listed role, with `tvm:`+ID; cli/sh/other delivery; nothing written past the gate |
| Broker.Server.IsAuthorizedAdmin | admin.go:110-125 | true exactly when the cookie's session leads to a stored admin user |
| Broker.Server.HandleAdminOp | admin.go:20-95 | a non-admin is redirected to `/?format=admin`; an unknown user or operation gives 400 with no write; success writes only the edited target user, re-checks the gate against the updated store, then answers 500 with the error text when listing the users or the IAM roles fails, and otherwise the admin page with the IAM roles, the listed users and the flash |
| Cli.ZeroNeverHits | cmd/tvm/tvm.go:112 | the zero credential is never a cache hit |
| Cli.SoleKey | cmd/tvm/tvm.go:84-88 | the loop over a one-entry map yields that entry's key |
| Cli.InferredIsSoleKey | cmd/tvm/tvm.go:99-103 | the inferred name of a one-entry map is its key |
| Cli.ParseCallback | cmd/tvm/tvm.go:145-157 | a non-empty `error` fails with that text; otherwise the role and secrets are copied, and an unparsable expiry is an error |
| Cli.CallbackRoundTrip | cmd/tvm/tvm.go:145-157 | the client's handler reads back exactly what the server's loopback redirect carries: `ParseCallback` of `Issuance.CredentialQuery` (server.go:139-145) is the issued role and credential |
| Cli.CliQuery | cmd/tvm/tvm.go:167-172 | the built query sets `format=cli`, the port, and the role when known, keeping the URL's other keys |
| Cli.StoreCredentialAsWritten | cmd/tvm/tvm.go:182-183 | it succeeds exactly when both maps exist, and then caches the credential |
| Cli.NewServerPanics | cmd/tvm/tvm.go:182-183 | with no state, or a server not yet cached, the written update panics |
| Cli.StoreCredential | cmd/tvm/tvm.go:182-183 | the intended update caches the credential at server and role and changes no other entry, as read through `ServerOf` and `CredentialOf` (Go map indexing, the zero value for a nil map or missing key, tvm.go:92-94,107-109) |
| Cli.StoreCredentialAgrees | cmd/tvm/tvm.go:182-183 | where both maps exist, the intended update is the written one |
| Cli.StoredCredentialHits | cmd/tvm/tvm.go:107-112 | a stored credential, read back through `ServerOf` and `CredentialOf`, is reused if and only if its expiry is non-zero and still ahead |
| Cli.LoopbackRequest | cmd/tvm/tvm.go:162-175 | the intended request carries `format=cli`, a port the server parses back, and the role |
| Cli.ListenerAddressNotAPort | cmd/tvm/tvm.go:169 | `127.0.0.1:<port>` never parses as a port |
| Cli.InferredFromEmpty | cmd/tvm/tvm.go:84-91 | a name inferred from an empty flag is empty, or the sole key of a map that exists |
| Cli.CliMain | cmd/tvm/tvm.go:64-199 | as written, with both flags empty (`CliRun` with `""`, `""`): without exactly one cached server it fails with "Cannot infer server, specify -s"; a sole server named `""` fails the same way; a sole server without exactly one role fails with "Cannot infer role, specify -r"; the cache write never panics |
| Cli.CliMainWithFlags | cmd/tvm/tvm.go:64-199 | with `-s` and `-r` parsed (`CliRun`): an explicit server or role is used as given and an empty one is inferred only from a single cached entry, with the exact error texts; a cache hit prints the exports and opens nothing; otherwise the server URL is opened unchanged, and the credential read back is persisted before the exports are printed, or the write into nil maps panics |
| Findings.FirstLoginAsWritten | oauth2.go:50-54 | a first sign-in gets the fetch error and creates no user |
| Findings.FirstLoginCorrected | oauth2.go:55-68 | with the intended branch the newcomer is created and sent to register |
| Findings.RegistrationAsWritten | u2f_register.go:46 | the browser's registration answer aborts and no device is added |
| Findings.RegistrationCorrected | u2f_register.go:113-133 | with the challenge stored, the same answer registers one device with counter 0 and clears the challenge |
| Findings.CliLoginAsWritten | cmd/tvm/tvm.go:167-175 | the server sees no `format` and answers an empty 200; with the query attached the port would be refused with 400 |
| Findings.CliLoginCorrected | server.go:138-155 | with the intended request the server redirects to the listener, and the client reads back the issued credential |
| Findings.FlagsIgnored | cmd/tvm/tvm.go:68-69 | asked for a server and role with no state file, the program as written fails with "Cannot infer server, specify -s" and opens nothing; with the flags parsed it opens the server URL |
| Findings.FirstCacheWrite | cmd/tvm/tvm.go:182-183 | once the flags are parsed, a first login panics while caching; the intended update caches the credential |

## Left out

- Page bodies are left out: the HTML and JavaScript of the sign, registration and admin pages,
  `u2f-api.js`, and template rendering. A page is the challenge, or the IAM roles, users and
  flash message, it carries.
- IAM `ListRoles` and STS are network calls. STS is an opaque function, and the outcome of
  `ListRoles` is an argument.
- Broker.Server.HandleGetToken and Broker.Server.HandleAdminOp assume configured AWS clients.
  The clients are built as `sts.New(nil)` (server.go:126) and `iam.New(nil)` (admin.go:86),
  from a nil configuration provider. What the AWS SDK does with a nil provider is not part of
  this model. If its constructor calls a method on the provider, every authorised token request
  and every successful admin edit ends in a panic at that point. The model instead shows the
  outcome of a configured client.
- The U2F cryptography, `crypto/rand`, the OAuth2 exchange and JSON encoding and decoding are
  opaque functions or arguments.
- store_firestore.go is not part of this model. Its `(nil, nil)` for a missing user is what
  the callback's create branch expects; `Broker.Server.HandleOAuth2CallbackCreating` models
  that branch.
- The real file system is not modelled. File names are opaque keys, and corrupt JSON files
  are not represented. A path built from an unsanitised ID is out of scope.
- Storage.LocalStore.ListUsers: a failed user lookup reports `ErrNotFound` only. The I/O
  errors of reading one file are not modelled. The order of `os.ReadDir` (sorted by name) is
  not modelled. The listing is an argument, so a `.json` file removed between the directory
  read and the file read can be expressed.
- A write fault is a property of a whole directory (`sessionWritesFail`, `userWritesFail`).
  It is not a property of one call, so it hits every write to that directory. Two sequences
  the program can go through are therefore not modelled. One is a successful delete of a
  session followed by a failed put of the new one (server.go:82-96 into session.go:28), which
  the Go program answers with a panic. The other is a successful session write followed by a
  failed one (oauth2.go:46, then u2f_sign.go:24). Broker.Server.HandleGetToken's restart
  branch and "an abort leaves the sessions unchanged" hold only under this fault model.
- Storage.ErrorText: the I/O error text is a fixed `input/output error`. The Go program
  returns the `*PathError` text of `ioutil.WriteFile` or `os.Remove` (for example
  `open <dir>/users/<id>.json: permission denied`). The 500 body of
  Broker.Server.HandleAdminOp carries this fixed text.
- Cli.ParseCallback: the error for an unparsable expiry is written as
  `parsing time "<text>" as RFC 3339`. It is not the exact text `time.Parse` gives, which
  names the layout and the element that failed.
- Records.Challenge: the `Timestamp` of a `u2f.Challenge` is not kept, so `authenticate` and
  `register` cannot depend on the challenge's age. Nothing states that the nonce is 32 bytes.
- Routing is modelled only as the table `Broker.Route`. `handleAdminRoot`, the Lambda entry
  point (cmd/funcmain/main.go) and `serveMain` flag parsing are left out.
- Concurrency is left out: the CLI's goroutine and channel, racing requests, `net.Listen` and
  `exec.Command("open")`. The listener's port, and whether it can listen, are arguments. The
  one request the listener answers is an argument.
- `url.Values.Encode` percent-encoding is not modelled. Locations carry their query as a map.
- RFC 3339 text and Go's `%q` escaping of non-printable characters are not modelled. Only `"`
  and `\` are escaped.
- The `http.Redirect` body and the `log` output are not modelled.
- Admin.DeleteRole: it computes the filtered roles as a new sequence. The reuse of the backing
  array of `user.Roles[:0]` is not modelled, since the old slice is not used afterwards.
- Admin.AdminEdit: `reset_devices` sets the devices to a nil slice. The model's empty sequence
  does not tell nil from empty, which only shows in the JSON file.
- Panic messages are not stated. A contract says only that the handler aborts (`Abort`).
- Cli.CliMain (and Cli.CliMainWithFlags): error texts from the OS, the URL parser and the state-file writer are not
  given exactly. The contract says only that they fail. The cache-hit exports name the role
  `TVM_AWS_ROLE`, while a fresh login names it `AWS_ROLE`; both are modelled as written.

## Findings

| source | as written | input that shows it | evidently intended | confidence | as-written member | corrected member |
|---|---|---|---|---|---|---|
| oauth2.go:50-63 | With `LocalStore`, `GetUser` on a new e-mail returns `ErrNotFound`, so the handler prints `cannot fetch user: %w not found` and never reaches the create branch | a first sign-in by a valid identity with no user file | a missing user is created with only the ID set and sent to register a device | high, not executed | Findings.FirstLoginAsWritten | Broker.Server.HandleOAuth2CallbackCreating |
| u2f_register.go:46 | the challenge is set on the in-memory session only, so the signed registration dereferences a nil challenge (u2f_register.go:113) | GET `/u2f/register` for a user without devices, then the browser's `?resp=` answer | the session is stored with its challenge before the page is sent | high, not executed | Findings.RegistrationAsWritten | Broker.Server.HandleU2FRegisterSaving |
| u2f_sign.go:47 | the sign page sends the answer to `/u2f/signed`, but only `/u2f/sign` is routed | any sign-in by a user with a registered device | the sign page sends its answer to `/u2f/sign` | high, not executed | Broker.AnswerRoutes | Broker.SignAnswerRouted |
| cmd/tvm/tvm.go:68-69 | `-s` and `-r` are declared but `flag.Parse` is never called in `cliMain`, so both stay empty and only a state file with one server and one role lets the client proceed | `tvm -s https://tvm.example.com/ -r reader` with no state file fails with "Cannot infer server, specify -s" | the flags are parsed before the server and role are inferred | high, not executed | Findings.FlagsIgnored | Cli.CliMainWithFlags |
| cmd/tvm/tvm.go:167-175 | the query with `format=cli`, port and role is built and never attached to the opened URL, so the server answers an empty page and the client never gets its callback | a state file with exactly one server holding exactly one role, whose credential is zero or expired | the opened URL carries the built query | high, not executed | Findings.CliLoginAsWritten | Cli.LoopbackRequest |
| cmd/tvm/tvm.go:169 | `port` is set to the listener address `127.0.0.1:<n>`, which the server's `strconv.Atoi` rejects with 400 | any fresh login once the query is attached | `port` is the bare port number | high, not executed | Cli.ListenerAddressNotAPort | Cli.LoopbackRequest |
| cmd/tvm/tvm.go:182-183 | latent behind the tvm.go:68-69 row: once `-s` and `-r` are parsed, the credential is written into `serverState.Roles` and `state.Servers`, which are nil maps on a first login, so the write panics; as written the maps are never nil there (`Cli.CliMain` ensures no panic) | once `-s`/`-r` are parsed: no state file, or a new server | missing maps are created before the write | high, not executed | Cli.NewServerPanics | Cli.StoreCredential |
