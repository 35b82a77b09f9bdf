/**
 * The component itself (lib/main.js:17-433): its configuration, its four
 * endpoints, the session of the request at hand and the user directory. The
 * engine calls and the directory lookups (`findUsers`, `getCredentials`) are
 * recorded in order, so that "fails before any call" can be stated; the
 * directory's writes appear as the new value of `directory`.
 *
 * The engine's answers, the clock and the random bytes are parameters of the
 * ceremony methods; a ceremony step either sends a message (`Sent`) or
 * answers with status 400 and the reason (`Failed`).
 */
module Fido2 {
  import opened Values
  import opened Directory
  import opened Sessions
  import opened Engine
  import opened Debug
  import opened Endpoints
  import opened Rules
  import Base64

  /** `opts.user` of the creation options: name, the random ID bytes and the display name. */
  datatype UserEntity = UserEntity(name: string, id: seq<byte>, displayName: string)

  /** The messages a ceremony step sends on success. */
  datatype Body =
    | CreateOptions(options: CreationOptions, user: UserEntity)
    | GetOptions(challenge: seq<byte>, timeout: int, allowCredentials: seq<CredentialDescriptor>)
    | Outcome(response: ServerResponse)

  datatype Reply = Sent(body: Body) | Failed(status: int, error: Error)

  /** A call the component makes to the engine, or a lookup in the directory. */
  datatype Interaction =
    | AttestationOptionsCall
    | AttestationResultCall(attestation: AttestationExpectations)
    | AssertionOptionsCall
    | AssertionResultCall(assertion: AssertionExpectations)
    | FindUsersCall(username: string)
    | GetCredentialsCall(username: string, credId: Option<string>)

  class Fido2Component {
    var serviceName: string
    var timeout: int
    var dangerousOpenRegistration: bool
    var dangerousXmitDebugInfo: bool
    var origin: string
    var routes: map<Endpoint, string>
    var methods: map<Endpoint, string>
    var callbacks: map<Endpoint, string>
    var session: Session
    var directory: Users
    var trace: seq<Interaction>

    /**
     * Every user record is filed under its own username; this is what makes
     * the user a registration lands on carry the session's username.
     */
    ghost predicate Valid()
      reads this
    {
      WellFormed(directory)
    }

    /**
     * The component as its constructor leaves it: the default configuration,
     * every endpoint answered with POST by its own handler at its default
     * path, and nothing called yet. The origin is what `init` derives from the
     * HTTPS component's protocol, domain and port.
     */
    constructor(defaultRoutes: map<Endpoint, string>, origin: string, directory: Users)
      requires WellFormed(directory)
      ensures Valid()
      ensures serviceName == "ANONYMOUS SERVICE" && timeout == 60000
      ensures !dangerousOpenRegistration && !dangerousXmitDebugInfo
      ensures this.origin == origin && this.directory == directory
      ensures routes == defaultRoutes
      ensures methods == DefaultMethods() && callbacks == DefaultCallbacks()
      ensures session == EmptySession && trace == []
    {
      serviceName := "ANONYMOUS SERVICE";
      timeout := 60000;
      dangerousOpenRegistration := false;
      dangerousXmitDebugInfo := false;
      this.origin := origin;
      routes := defaultRoutes;
      methods := DefaultMethods();
      callbacks := DefaultCallbacks();
      session := EmptySession;
      this.directory := directory;
      trace := [];
    }

    /**
     * `registerRequest`: the engine's creation options, extended with the user
     * entity, are sent back; the session remembers the username, the user ID
     * and the challenge (both in base64) and the time the challenge was issued.
     */
    method RegisterRequest(username: string, displayName: string, options: CreationOptions,
                           userIdBytes: seq<byte>, now: int) returns (reply: Reply)
      requires |userIdBytes| == 16
      modifies this`session, this`trace
      ensures trace == old(trace) + [AttestationOptionsCall]
      ensures old(session).NoSession? ==> reply == Failed(400, SessionUnavailable) && session == old(session)
      ensures old(session).Present? ==>
                && session == IssueChallenge(old(session), Registration, username,
                                             Base64.CoerceToBase64(userIdBytes),
                                             Base64.CoerceToBase64(options.challenge), now)
                && reply == Sent(CreateOptions(options, UserEntity(username, userIdBytes, displayName)))
    {
      trace := trace + [AttestationOptionsCall];
      var user := UserEntity(username, userIdBytes, displayName);
      if session.NoSession? {
        return Failed(400, SessionUnavailable);
      }
      session := session.(username := Str(username));
      session := session.(userId := Str(Base64.CoerceToBase64(user.id)));
      session := session.(registerChallenge := Str(Base64.CoerceToBase64(options.challenge)));
      session := session.(registerChallengeTime := Number(now));
      reply := Sent(CreateOptions(options, user));
    }

    /**
     * `getRegisterUser`: looks the name up; with no user found and open
     * registration on, creates and stores a user with the given name and ID.
     */
    method GetRegisterUser(username: string, userId: string) returns (r: Result<User, Error>)
      requires Valid()
      modifies this`directory, this`trace
      ensures Valid()
      ensures trace == old(trace) + [FindUsersCall(username)]
      ensures var res := ResolveRegisterUser(old(directory), username, userId, dangerousOpenRegistration);
              && (r.Ok? <==> res.Ok?)
              && (res.Ok? ==> directory == res.value && FindUsers(directory, username) == [r.value])
              && (res.Failure? ==> directory == old(directory) && r.error == res.error)
    {
      trace := trace + [FindUsersCall(username)];
      var users := FindUsers(directory, username);
      if |users| > 1 {
        return Failure(MultipleUsers(username));
      }
      if |users| == 0 {
        if !dangerousOpenRegistration {
          return Failure(UserNotFound);
        }
        var user := User(username, userId, []);
        directory := directory[username := [user]];
        return Ok(user);
      }
      r := Ok(users[0]);
    }

    /**
     * `registerResponse`: the session check, then the challenge is read as
     * bytes, then the timeout, then the engine, and only after the engine has
     * accepted is the user resolved and one credential stored, taken from the
     * verified attestation.
     */
    method RegisterResponse(now: int, verifyAttestation: AttestationExpectations -> Verdict<Attestation>)
      returns (reply: Reply)
      requires Valid()
      modifies this`session, this`directory, this`trace
      ensures Valid()
      ensures PendingChallenge(old(session), Registration).None? ==>
                && reply == Failed(400, SessionMissing)
                && session == old(session) && directory == old(directory) && trace == old(trace)
      ensures PendingChallenge(old(session), Registration).Some? ==>
                var p := PendingChallenge(old(session), Registration).value;
                var exp := AttestationExpectations(Base64.CoerceToArrayBuffer(p.challenge), origin, "either");
                && session == ConsumeChallenge(old(session), Registration)
                && (Expired(now, p.issuedAt, timeout) ==>
                      reply == Failed(400, TimedOut(Registration))
                      && directory == old(directory) && trace == old(trace))
                && (!Expired(now, p.issuedAt, timeout) && verifyAttestation(exp).Rejected? ==>
                      reply == Failed(400, VerificationFailed(verifyAttestation(exp).reason))
                      && directory == old(directory) && trace == old(trace) + [AttestationResultCall(exp)])
                && (!Expired(now, p.issuedAt, timeout) && verifyAttestation(exp).Accepted? ==>
                      var a := verifyAttestation(exp).result;
                      var res := ResolveRegisterUser(old(directory), p.username, p.userId, dangerousOpenRegistration);
                      && trace == old(trace) + [AttestationResultCall(exp), FindUsersCall(p.username)]
                      && (res.Failure? ==> reply == Failed(400, res.error) && directory == old(directory))
                      && (res.Ok? ==>
                            && directory == AddCredential(res.value, p.username, NewCredential(a))
                            && FindUsers(directory, p.username)[0].username == p.username
                            && reply.Sent? && reply.body.Outcome?
                            && reply.body.response.status == "ok" && reply.body.response.errorMessage == ""
                            && (dangerousXmitDebugInfo <==> reply.body.response.debugInfo.Some?)
                            && (dangerousXmitDebugInfo ==>
                                  reply.body.response.debugInfo == Some(DebugInfoOf(a.diagnostics)))))
    {
      var pending := PendingChallenge(session, Registration);
      if pending.None? {
        return Failed(400, SessionMissing);
      }
      var p := pending.value;
      session := ConsumeChallenge(session, Registration);
      var challenge := Base64.CoerceToArrayBuffer(p.challenge);
      if now >= p.issuedAt + timeout {
        return Failed(400, TimedOut(Registration));
      }
      var exp := AttestationExpectations(challenge, origin, "either");
      trace := trace + [AttestationResultCall(exp)];
      var verdict := verifyAttestation(exp);
      if verdict.Rejected? {
        return Failed(400, VerificationFailed(verdict.reason));
      }
      var a := verdict.result;
      var user := GetRegisterUser(p.username, p.userId);
      if user.Failure? {
        return Failed(400, user.error);
      }
      directory := AddCredential(directory, p.username, NewCredential(a));
      var response := AddDebugInfo(dangerousXmitDebugInfo, OkResponse, a.diagnostics);
      reply := Sent(Outcome(response));
    }

    /**
     * `loginRequest`: exactly one user of the name, holding at least one
     * credential, or the step fails before a challenge is asked for and before
     * the session is written. On success the options list every credential of
     * the user, in order, and the session remembers the challenge.
     */
    method LoginRequest(username: string, challenge: seq<byte>, now: int) returns (reply: Reply)
      modifies this`session, this`trace
      ensures var users := FindUsers(directory, username);
              && (|users| != 1 ==>
                    && reply == Failed(400, UserLookupFailed(username))
                    && session == old(session) && trace == old(trace) + [FindUsersCall(username)])
              && (|users| == 1 && |users[0].credentials| == 0 ==>
                    && reply == Failed(400, NoCredentials)
                    && session == old(session)
                    && trace == old(trace) + [FindUsersCall(username), GetCredentialsCall(username, None)])
      ensures LoginUser(directory, username).Ok? ==>
                var user := LoginUser(directory, username).value;
                && trace == old(trace) + [FindUsersCall(username), GetCredentialsCall(username, None), AssertionOptionsCall]
                && (old(session).NoSession? ==> reply == Failed(400, SessionUnavailable) && session == old(session))
                && (old(session).Present? ==>
                      && session == IssueChallenge(old(session), Login, username, user.userId,
                                                   Base64.CoerceToBase64(challenge), now)
                      && reply == Sent(GetOptions(challenge, timeout, AllowCredentials(user.credentials))))
    {
      trace := trace + [FindUsersCall(username)];
      var users := FindUsers(directory, username);
      if |users| != 1 {
        return Failed(400, UserLookupFailed(username));
      }
      var user := users[0];
      trace := trace + [GetCredentialsCall(username, None)];
      var creds := user.credentials;
      if |creds| < 1 {
        return Failed(400, NoCredentials);
      }
      trace := trace + [AssertionOptionsCall];
      var allow := AllowCredentials(creds);
      if session.NoSession? {
        return Failed(400, SessionUnavailable);
      }
      session := session.(loginChallenge := Str(Base64.CoerceToBase64(challenge)));
      session := session.(loginChallengeTime := Number(now));
      session := session.(username := Str(username));
      session := session.(userId := Str(user.userId));
      reply := Sent(GetOptions(challenge, timeout, allow));
    }

    /**
     * `loginResponse`: the session check, the challenge read as bytes, the
     * timeout, then exactly one user and exactly one credential with the
     * response's raw ID; the engine checks the response against that
     * credential's key and counter and the session's user ID, and on success
     * only that credential's counter changes, to the one the engine returned.
     * The session is then replaced by a fresh one.
     */
    method LoginResponse(rawId: seq<byte>, now: int, verifyAssertion: AssertionExpectations -> Verdict<Assertion>,
                         regenerateError: Option<string>) returns (reply: Reply)
      requires Valid()
      modifies this`session, this`directory, this`trace
      ensures Valid()
      ensures PendingChallenge(old(session), Login).None? ==>
                && reply == Failed(400, SessionMissing)
                && session == old(session) && directory == old(directory) && trace == old(trace)
      ensures PendingChallenge(old(session), Login).Some? ==>
                var p := PendingChallenge(old(session), Login).value;
                var credId := Base64.CoerceToBase64(rawId);
                var found := LoginCredential(old(directory), p.username, credId);
                && (Expired(now, p.issuedAt, timeout) ==>
                      && reply == Failed(400, TimedOut(Login))
                      && session == ConsumeChallenge(old(session), Login)
                      && directory == old(directory) && trace == old(trace))
                && (!Expired(now, p.issuedAt, timeout) && found.Failure? ==>
                      && reply == Failed(400, found.error)
                      && session == ConsumeChallenge(old(session), Login)
                      && directory == old(directory)
                      && trace == old(trace) + [FindUsersCall(p.username)]
                                 + (if found.error.UserLookupFailed? then [] else [GetCredentialsCall(p.username, Some(credId))]))
                && (!Expired(now, p.issuedAt, timeout) && found.Ok? ==>
                      var cred := FindUsers(old(directory), p.username)[0].credentials[found.value];
                      var exp := AssertionExpectations(Base64.CoerceToArrayBuffer(p.challenge), origin, "either",
                                                       cred.publicKey, cred.prevCounter, p.userId);
                      && trace == old(trace) + [FindUsersCall(p.username), GetCredentialsCall(p.username, Some(credId)),
                                                AssertionResultCall(exp)]
                      && (verifyAssertion(exp).Rejected? ==>
                            && reply == Failed(400, VerificationFailed(verifyAssertion(exp).reason))
                            && session == ConsumeChallenge(old(session), Login)
                            && directory == old(directory))
                      && (verifyAssertion(exp).Accepted? ==>
                            var a := verifyAssertion(exp).result;
                            && directory == SetCounter(old(directory), p.username, found.value, a.counter)
                            && session == EmptySession
                            && (regenerateError.Some? ==> reply == Failed(400, RegenerateFailed(regenerateError.value)))
                            && (regenerateError.None? ==>
                                  && reply.Sent? && reply.body.Outcome?
                                  && reply.body.response.status == "ok" && reply.body.response.errorMessage == ""
                                  && (dangerousXmitDebugInfo <==> reply.body.response.debugInfo.Some?)
                                  && (dangerousXmitDebugInfo ==>
                                        reply.body.response.debugInfo == Some(DebugInfoOf(a.diagnostics))))))
    {
      var pending := PendingChallenge(session, Login);
      if pending.None? {
        return Failed(400, SessionMissing);
      }
      var p := pending.value;
      session := ConsumeChallenge(session, Login);
      var challenge := Base64.CoerceToArrayBuffer(p.challenge);
      if now >= p.issuedAt + timeout {
        return Failed(400, TimedOut(Login));
      }
      trace := trace + [FindUsersCall(p.username)];
      var users := FindUsers(directory, p.username);
      if |users| != 1 {
        return Failed(400, UserLookupFailed(p.username));
      }
      var user := users[0];
      var credId := Base64.CoerceToBase64(rawId);
      trace := trace + [GetCredentialsCall(p.username, Some(credId))];
      var creds := Matches(user.credentials, credId);
      if |creds| != 1 {
        return Failed(400, CredentialNotFound(credId));
      }
      var i := creds[0];
      var cred := user.credentials[i];
      var exp := AssertionExpectations(challenge, origin, "either", cred.publicKey, cred.prevCounter, p.userId);
      trace := trace + [AssertionResultCall(exp)];
      var verdict := verifyAssertion(exp);
      if verdict.Rejected? {
        return Failed(400, VerificationFailed(verdict.reason));
      }
      var a := verdict.result;
      directory := SetCounter(directory, p.username, i, a.counter);
      session := EmptySession;
      if regenerateError.Some? {
        return Failed(400, RegenerateFailed(regenerateError.value));
      }
      var response := AddDebugInfo(dangerousXmitDebugInfo, OkResponse, a.diagnostics);
      reply := Sent(Outcome(response));
    }

    /**
     * `updateEndpoint` (through setRegisterRequest, setRegisterResponse,
     * setLoginRequest and setLoginResponse), with the checks as written:
     * rejected options change nothing; accepted ones replace the path, method
     * and handler of this endpoint for the fields supplied, and nothing else.
     */
    method UpdateEndpoint(e: Endpoint, opts: JsValue) returns (err: Option<EndpointError>)
      modifies this`routes, this`methods, this`callbacks
      ensures CheckEndpointOptionsAsWritten(opts).Failure? ==>
                && err == Some(CheckEndpointOptionsAsWritten(opts).error)
                && routes == old(routes) && methods == old(methods) && callbacks == old(callbacks)
      ensures CheckEndpointOptionsAsWritten(opts).Ok? ==>
                var u := CheckEndpointOptionsAsWritten(opts).value;
                && err == None
                && routes == Assign(old(routes), e, u.path)
                && methods == Assign(old(methods), e, u.httpMethod)
                && callbacks == Assign(old(callbacks), e, u.cb)
    {
      var checked := CheckEndpointOptionsAsWritten(opts);
      if checked.Failure? {
        return Some(checked.error);
      }
      var u := checked.value;
      if u.path.Some? {
        routes := routes[e := u.path.value];
      }
      if u.httpMethod.Some? {
        methods := methods[e := u.httpMethod.value];
      }
      if u.cb.Some? {
        callbacks := callbacks[e := u.cb.value];
      }
      err := None;
    }
  }

  /** Every endpoint is answered with POST by default. */
  function DefaultMethods(): map<Endpoint, string>
  {
    map[RegisterRequestEndpoint := "POST", RegisterResponseEndpoint := "POST",
        LoginRequestEndpoint := "POST", LoginResponseEndpoint := "POST"]
  }

  /** Each endpoint's default handler is the ceremony step of the same name. */
  function DefaultCallbacks(): map<Endpoint, string>
  {
    map[RegisterRequestEndpoint := "registerRequest", RegisterResponseEndpoint := "registerResponse",
        LoginRequestEndpoint := "loginRequest", LoginResponseEndpoint := "loginResponse"]
  }
}
