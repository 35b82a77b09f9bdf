# component-fido2 ceremony core, in Dafny

This project models the part of the FIDO2 component that runs the two
W3C Web Authentication ceremonies: registering a credential (section 7.1 of
WebAuthn Level 1) and verifying an assertion (section 7.2). The component
itself does no cryptography. It checks the caller's session and the
challenge's age. It looks up users and credentials in the user data store.
It hands the client's response to a verification engine (fido2-lib), then
stores the outcome and answers.

The model has three pieces of state:

- the **session record** (`username`, `userId`, `registerChallenge`,
  `registerChallengeTime`, `loginChallenge`, `loginChallengeTime`);
- the **directory**: the user records found under each username, each with
  its list of credentials (`publicKey`, `aaguid`, `credId`, `prevCounter`);
- the **configuration**: `timeout`, `dangerousOpenRegistration`,
  `dangerousXmitDebugInfo`, plus each endpoint's route, method and handler.

The ceremony steps are methods of the class `Fido2.Fido2Component`. Each is
proved against the pure decision rules in module `Rules`. The engine is an
oracle passed in as a function from the expectations to a verdict. The clock
(`now`) and the random user ID are parameters, and so is the outcome of the
session regeneration. The field `trace` records the engine calls and the
directory lookups (`findUsers`, `getCredentials`) in order; the directory's
writes appear as the new value of `directory`. This is what makes "fails
before any directory lookup or engine call" a statement about the new state.

Modules, one per file:

- `Values` (values.dfy): bytes, `Option`/`Result`, and JavaScript values
  with `typeof` and truthiness.
- `Base64` (base64.dfy): `coerceToBase64` and `coerceToArrayBuffer`.
- `Directory` (directory.dfy): users, credentials, lookups and the two writes.
- `Sessions` (sessions.dfy): the session record, the response steps' check,
  issuing and consuming a challenge, and the timeout test.
- `Engine` (engine.dfy): what the engine is given and what it returns.
- `Debug` (debug.dfy): `addDebugInfo`.
- `Endpoints` (endpoints.dfy): the option checks of `updateEndpoint`.
- `Rules` (rules.dfy): the user and credential resolution rules.
- `Fido2` (component.dfy): the component class.

Two facts about the code shape the model:

- **Decoding never fails.** `coerceToArrayBuffer` decodes with Node's
  lenient `Buffer.from(s, "base64")`. On an ASCII string it skips
  characters outside the alphabet, stops at the first `=`, and never fails. A malformed challenge
  string is therefore not an error, so `Base64.Decode` is total.
- **The timeout boundary counts as expired.** The challenge is expired
  already when `now == issuedAt + timeout` (lib/main.js:174 and 338).

The session keeps the user ID and the challenge in padded standard base64, not in the URL-safe
form. Neither response step checks that the user answering is the one the
request step was for, beyond what the engine checks against the session's
user ID. The two ceremonies also share `username` and `userId`: a login
request made while a registration is pending rewrites them (lib/main.js:303-304),
so a registration response that follows answers the first challenge and files
the credential under the login request's user.

## Model

| member | source | states |
|---|---|---|
| Base64.Encode | lib/main.js:523-526 | the padded encoding of n bytes has exactly 4·⌈n/3⌉ characters |
| Base64.DecodeSextets | lib/main.js:544 | the decoder yields 3 bytes per full group of four characters, and 1 or 2 bytes for a final group of 2 or 3 characters |
| Base64.FromUrlSafe | lib/main.js:542 | keeps the length; each `-` becomes `+`, each `_` becomes `/`, and every other character stays as it was |
| Base64.DecodeEncodeSextets | lib/main.js:544 | regrouping 6-bit groups into bytes inverts splitting bytes into them, for every byte sequence |
| Base64.DecodeEncode | lib/main.js:544 | Node's base64 decoding of the padded encoding gives back the original bytes |
| Base64.CoerceRoundTrip | lib/main.js:507-560 | `coerceToArrayBuffer(coerceToBase64(b)) == b` for every byte sequence b |
| Base64.UrlSafeRoundTrip | lib/main.js:539-545 | an unpadded base64url string, as WebAuthn clients send, decodes to the bytes it encodes |
| Base64.EncodeInjective | lib/main.js:195 | distinct byte sequences have distinct encodings, so distinct raw credential IDs are stored as distinct `credId` strings |
| Base64.SessionValueLengths | test/mainTest.js:128 | a 64-byte challenge is stored as 88 characters and a 16-byte user ID as 24 |
| Directory.FindUsers | lib/main.js:227-229 | in a well-formed directory, every user found carries the name looked up |
| Directory.Matches | lib/main.js:353-355 | the credentials filtered by ID are exactly the positions whose `credId` equals it, in increasing order |
| Directory.AddCredential | lib/main.js:190-197 | the only user of the name gains exactly the new credential at the end of its list; every other name's users are unchanged; well-formedness is kept |
| Directory.SetCounter | lib/main.js:377-378 | only the selected credential's `prevCounter` changes, to the new value; the user's other credentials and every other name are unchanged |
| Directory.MatchesSameIds | lib/main.js:377-378 | the credentials selected by an ID depend only on the IDs, not on the counters |
| Directory.MatchesOfDistinct | lib/main.js:353-357 | in a list without repeated IDs, the k-th credential's ID selects the k-th credential alone |
| Sessions.IssuedChallengeIsPending | lib/main.js:139-142 | after a request step's writes, the response step's session check passes and reads back the user, the challenge and its time |
| Sessions.IssueKeepsOtherChallenge | lib/main.js:301-304 | a request step leaves the other ceremony's challenge and challenge time as they were |
| Sessions.ConsumedChallengeIsNotPending | lib/main.js:162-169 | once a response step has read the challenge, the session fails that ceremony's check, so the challenge cannot be answered twice; the other ceremony's pending state is unchanged |
| Sessions.LoginRequestRetargetsRegistration | lib/main.js:301-304 | after a registration request for one user and a login request for another, the registration challenge is still pending, now for the second user |
| Sessions.IssuedChallengeDecodes | lib/main.js:141-180 | the challenge bytes the response step gives the engine are the bytes the request step issued |
| Debug.CopyEntries | lib/main.js:444-450 | copying the entries one by one into an empty object gives exactly the source map |
| Debug.AddDebugInfo | lib/main.js:435-457 | with the flag off, the response is unchanged; with it on, the debug info is the client data, the authenticator data and five audit fields, and status and error message are kept |
| Endpoints.CheckEndpointOptions | lib/main.js:481-505 | the corrected check: succeeds exactly for a non-null object whose `path`, `method` and `cb` are each absent or of the right type; otherwise reports the first wrong field with that field's own type; on success, assigns exactly the truthy fields, with their values |
| Endpoints.CheckEndpointOptionsAsWritten | lib/main.js:481-505 | the check as written: accepts, rejects and assigns exactly as the corrected check, and blames the same field, but reports `typeof opts.path` as the offending type |
| Endpoints.MethodTypeMisreported | lib/main.js:491-494 | with `{method: 5}`, the check as written reports "undefined" while the corrected check reports "number", the type of the offending value |
| Rules.ResolveRegisterUser | lib/main.js:225-255 | succeeds exactly with one user, or with none and open registration on; more than one user is an error, and none with registration closed is "user not found" with nothing created; one user leaves the directory unchanged; none creates exactly `{username, userId}` with no credentials; other names are untouched |
| Rules.LoginUser | lib/main.js:267-281 | succeeds exactly when one user has the name and holds at least one credential; otherwise fails with the lookup error or with "no credentials" |
| Rules.LoginCredential | lib/main.js:343-361 | succeeds exactly with one user and one credential whose ID matches; the position found is the only credential with that ID |
| Rules.NewCredential | lib/main.js:193-196 | the stored credential takes key, AAGUID and counter from the verified attestation, and its `credId` decodes back to the attested raw ID |
| Rules.RegisteredCredentialCanLogIn | lib/main.js:189-197 | after a registration with an ID new to the user, the login request finds the user, and the login response with that raw ID selects the credential just stored |
| Rules.DuplicateCredentialIdBlocksLogin | lib/main.js:190-197 | registering an ID the user already holds is not refused, but afterwards the login response fails for that ID |
| Rules.CounterUpdateKeepsCredentialSelectable | lib/main.js:377-378 | after the counter is stored, the same ID still selects the same credential, which now carries the new counter |
| Rules.AllowedCredentialsAreSelectable | lib/main.js:293-297 | with distinct IDs, every `allowCredentials` entry sent by the login request selects its own credential in the login response |
| Fido2.Fido2Component.constructor | lib/main.js:26-54 | service name "ANONYMOUS SERVICE", timeout 60000, both dangerous flags off, every endpoint on POST with its own handler at its default path |
| Fido2.Fido2Component.RegisterRequest | lib/main.js:121-152 | asks the engine for options and sends them with the user entity; the session holds the username, the base64 user ID, the base64 challenge and the time; without a session it fails after the engine call and writes nothing |
| Fido2.Fido2Component.GetRegisterUser | lib/main.js:225-255 | one directory lookup; the new directory and the user returned are those of `ResolveRegisterUser`, and on failure the directory is unchanged |
| Fido2.Fido2Component.RegisterResponse | lib/main.js:154-223 | fails the session check with nothing changed and no call made; otherwise consumes the challenge; fails on timeout (inclusive) with no call made; on engine rejection fails with the directory unchanged; on acceptance resolves the user and adds exactly one credential from the attestation to a user that carries the session's username; then answers "ok" with an empty error message and debug info exactly when the flag is on |
| Fido2.Fido2Component.LoginRequest | lib/main.js:257-316 | fails unless one user with at least one credential exists, before any challenge is asked for and with the session unchanged; on success sends the challenge, the timeout and one allow entry per credential in order, and writes the login challenge, its time, the username and the stored user ID |
| Fido2.Fido2Component.LoginResponse | lib/main.js:318-412 | session check and timeout as in registration; fails unless one user and one credential with `credId == base64(rawId)` exist; the engine gets that credential's key and counter and the session's user ID; on acceptance only that credential's counter changes, to the engine's, and the session is replaced by a fresh one; the success answer is "ok" with an empty error message |
| Fido2.Fido2Component.UpdateEndpoint | lib/main.js:481-505 | runs the check as written; rejected options change nothing and return its error; accepted ones set this endpoint's route, method and handler for exactly the truthy fields supplied; nothing else can change |

## Left out

- HTTP wiring: route registration in `init`, deriving the origin from the HTTPS component (the origin is a constructor parameter), `res.send`/`res.status` and `sendErrorMessage`. A failure is modelled as status 400 with the reason as a datatype; the message texts are not modelled.
- Default route paths: the constructor takes them as a parameter, because `WebAuthnHelpers.defaultRoutes` is not part of this model.
- The component-class feature table (setter, getter and enable features), `getConfig`, `shutdown`, and the dependency checks of `init`.
- The message classes of webauthn-simple-app (`from`, `validate`, `encodeBinaryProperties`, `decodeBinaryProperties`, `toString`). Request bodies are taken as already valid, and the reply is the message's content, not its wire form.
- The verification engine's checks (keys, signatures, counters, origins): it is an oracle. Its options calls appear only in the trace; their results (creation options, login challenge) are parameters.
- `Date.now()` and `crypto.randomBytes(16)` are parameters. Time is an integer; non-finite timestamps are not modelled.
- `req.session.regenerate` is an abstract step: the session becomes a fresh one whatever the outcome, and its error is a parameter.
- The directory's `commit` calls cannot fail in the model, and the directory store has no concurrency or persistence.
- Logging (`log.*`), `printHex` (writes to the console) and `validInput` (never called).
- Base64.CoerceToBase64: models only binary input given as its bytes; the array, typed-view and non-binary branches of `coerceToBase64`, and the error they raise, are not modelled.
- Base64.CoerceToArrayBuffer: models only string input. Because the decoder is lenient, not every string is the encoding of its decoded bytes, so the round trip holds from bytes to text and back, not from text.
- Fido2.Fido2Component.RegisterResponse: the log record built from the expectations and the authenticator flags is not modelled.
- Several requests sharing one component concurrently, and the `await` interleavings between them.

## Findings

| source | as written | input that shows it | evidently intended | confidence | as-written member | corrected member |
|---|---|---|---|---|---|---|
| lib/main.js:493 | the TypeError for a mistyped `method` (and, at line 499, for a mistyped `cb`) reports `typeof opts.path` | `setRegisterRequest({method: 5})` says "got undefined" while `method` is a number | report the type of the offending field | not executed | Endpoints.MethodTypeMisreported | Endpoints.CheckEndpointOptions |
