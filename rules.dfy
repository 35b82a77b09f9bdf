/**
 * The decision rules of the ceremonies, over the directory as a value: which
 * user a registration lands on (`getRegisterUser`, lib/main.js:225-255), which
 * user a login request offers credentials for (lib/main.js:267-281) and which
 * credential a login response verifies against (lib/main.js:343-361). The
 * class in module Fido2 performs these steps one call at a time and is proved
 * against the functions here.
 */
module Rules {
  import opened Values
  import opened Directory
  import opened Sessions
  import opened Engine
  import Base64

  /** Why a ceremony step answers with status 400. */
  datatype Error =
    | SessionUnavailable                      // writing a field of a request that has no session
    | SessionMissing                          // the check of a response step failed
    | TimedOut(ceremony: Ceremony)
    | MultipleUsers(username: string)         // getRegisterUser: more than one user
    | UserNotFound                            // getRegisterUser: none, registration closed
    | UserLookupFailed(username: string)      // login steps: not exactly one user
    | NoCredentials                           // loginRequest: the user has no credential
    | CredentialNotFound(credId: string)      // loginResponse: not exactly one credential with the ID
    | VerificationFailed(reason: string)      // the engine rejected the response
    | RegenerateFailed(reason: string)        // the session could not be regenerated

  /**
   * `getRegisterUser(username, userId)` on the directory: the directory after
   * the user is resolved (and, with open registration, created), or why not.
   */
  function ResolveRegisterUser(d: Users, username: string, userId: string, openRegistration: bool): (r: Result<Users, Error>)
    ensures r.Ok? <==> |FindUsers(d, username)| == 1 || (|FindUsers(d, username)| == 0 && openRegistration)
    ensures |FindUsers(d, username)| > 1 ==> r == Failure(MultipleUsers(username))
    ensures |FindUsers(d, username)| == 0 && !openRegistration ==> r == Failure(UserNotFound)
    ensures |FindUsers(d, username)| == 1 ==> r == Ok(d)
    ensures |FindUsers(d, username)| == 0 && r.Ok? ==> FindUsers(r.value, username) == [User(username, userId, [])]
    ensures r.Ok? ==> |FindUsers(r.value, username)| == 1
    ensures r.Ok? ==> forall name :: name != username ==> FindUsers(r.value, name) == FindUsers(d, name)
    ensures r.Ok? && WellFormed(d) ==> WellFormed(r.value)
  {
    var users := FindUsers(d, username);
    if |users| > 1 then Failure(MultipleUsers(username))
    else if |users| == 1 then Ok(d)
    else if openRegistration then Ok(d[username := [User(username, userId, [])]])
    else Failure(UserNotFound)
  }

  /** The user loginRequest offers credentials for: the only user of the name, holding at least one credential. */
  function LoginUser(d: Users, username: string): (r: Result<User, Error>)
    ensures r.Ok? <==> |FindUsers(d, username)| == 1 && |FindUsers(d, username)[0].credentials| >= 1
    ensures |FindUsers(d, username)| != 1 ==> r == Failure(UserLookupFailed(username))
    ensures r.Ok? ==> r.value == FindUsers(d, username)[0]
    ensures |FindUsers(d, username)| == 1 && r.Failure? ==> r.error == NoCredentials
  {
    var users := FindUsers(d, username);
    if |users| != 1 then Failure(UserLookupFailed(username))
    else if |users[0].credentials| < 1 then Failure(NoCredentials)
    else Ok(users[0])
  }

  /**
   * The credential loginResponse verifies against: its position in the
   * credential list of the only user of the name, when exactly one credential
   * carries the ID.
   */
  function LoginCredential(d: Users, username: string, credId: string): (r: Result<nat, Error>)
    ensures r.Ok? <==> |FindUsers(d, username)| == 1 && |Matches(FindUsers(d, username)[0].credentials, credId)| == 1
    ensures |FindUsers(d, username)| != 1 ==> r == Failure(UserLookupFailed(username))
    ensures |FindUsers(d, username)| == 1 && r.Failure? ==> r.error == CredentialNotFound(credId)
    ensures r.Ok? ==> var creds := FindUsers(d, username)[0].credentials;
                      && r.value < |creds| && creds[r.value].credId == credId
                      && forall j :: 0 <= j < |creds| && creds[j].credId == credId ==> j == r.value
  {
    var users := FindUsers(d, username);
    if |users| != 1 then Failure(UserLookupFailed(username))
    else
      var m := Matches(users[0].credentials, credId);
      if |m| != 1 then Failure(CredentialNotFound(credId)) else Ok(m[0])
  }

  /** The credential registerResponse stores for a verified attestation. */
  function NewCredential(a: Attestation): (c: Credential)
    ensures Base64.CoerceToArrayBuffer(c.credId) == a.credId
    ensures c.publicKey == a.publicKeyPem && c.aaguid == a.aaguid && c.prevCounter == a.counter
  {
    Base64.CoerceRoundTrip(a.credId);
    Credential(a.publicKeyPem, a.aaguid, Base64.CoerceToBase64(a.credId), a.counter)
  }

  /**
   * A registration whose credential ID is new to the user can be used for the
   * next login: the login request offers it, and a login response whose raw ID
   * is the registered one selects exactly the credential just stored.
   */
  lemma RegisteredCredentialCanLogIn(d: Users, username: string, userId: string, openRegistration: bool, a: Attestation)
    requires ResolveRegisterUser(d, username, userId, openRegistration).Ok?
    requires var creds := FindUsers(ResolveRegisterUser(d, username, userId, openRegistration).value, username)[0].credentials;
             forall j :: 0 <= j < |creds| ==> creds[j].credId != Base64.CoerceToBase64(a.credId)
    ensures var resolved := ResolveRegisterUser(d, username, userId, openRegistration).value;
            var after := AddCredential(resolved, username, NewCredential(a));
            && LoginUser(after, username).Ok?
            && LoginCredential(after, username, Base64.CoerceToBase64(a.credId))
               == Ok(|FindUsers(resolved, username)[0].credentials|)
  {
    var resolved := ResolveRegisterUser(d, username, userId, openRegistration).value;
    var creds := FindUsers(resolved, username)[0].credentials;
    var c := NewCredential(a);
    MatchesNone(creds, c.credId);
    MatchesAppend(creds, c, c.credId);
  }

  /**
   * Registering a credential ID the user already holds succeeds, but then no
   * login with that ID can select a credential: two of them carry it.
   */
  lemma DuplicateCredentialIdBlocksLogin(d: Users, username: string, a: Attestation, i: nat)
    requires |FindUsers(d, username)| == 1
    requires i < |FindUsers(d, username)[0].credentials|
    requires FindUsers(d, username)[0].credentials[i].credId == Base64.CoerceToBase64(a.credId)
    ensures LoginCredential(AddCredential(d, username, NewCredential(a)), username, Base64.CoerceToBase64(a.credId))
            == Failure(CredentialNotFound(Base64.CoerceToBase64(a.credId)))
  {
    var creds := FindUsers(d, username)[0].credentials;
    var c := NewCredential(a);
    MatchesAppend(creds, c, c.credId);
    assert i in Matches(creds, c.credId);
  }

  /**
   * Storing the counter of a verified assertion keeps the credential
   * selectable by the same ID, with the new counter as its `prevCounter`.
   */
  lemma CounterUpdateKeepsCredentialSelectable(d: Users, username: string, credId: string, counter: int)
    requires LoginCredential(d, username, credId).Ok?
    ensures var i := LoginCredential(d, username, credId).value;
            var after := SetCounter(d, username, i, counter);
            && LoginCredential(after, username, credId) == Ok(i)
            && FindUsers(after, username)[0].credentials[i].prevCounter == counter
  {
    var i := LoginCredential(d, username, credId).value;
    var after := SetCounter(d, username, i, counter);
    MatchesSameIds(FindUsers(d, username)[0].credentials, FindUsers(after, username)[0].credentials, credId);
  }

  /**
   * When a user's credential IDs are distinct, every entry of the
   * `allowCredentials` list a login request sends selects its own credential
   * in the login response.
   */
  lemma AllowedCredentialsAreSelectable(d: Users, username: string, k: nat)
    requires LoginUser(d, username).Ok?
    requires DistinctIds(LoginUser(d, username).value.credentials)
    requires k < |LoginUser(d, username).value.credentials|
    ensures var allow := AllowCredentials(LoginUser(d, username).value.credentials);
            LoginCredential(d, username, allow[k].id) == Ok(k)
  {
    MatchesOfDistinct(LoginUser(d, username).value.credentials, k);
  }
}
