/**
 * The user data store as the component uses it: `findUsers({username})`,
 * `user.getCredentials()` with an optional `{credId}` filter, and the writes
 * done through `set` and `commit`. Users are kept per username; a username
 * may hold several user records, which the ceremonies treat as an error.
 */
module Directory {
  import opened Values

  /** A stored credential: the fields registerResponse sets on `cred`. */
  datatype Credential = Credential(publicKey: string, aaguid: seq<byte>, credId: string, prevCounter: int)

  datatype User = User(username: string, userId: string, credentials: seq<Credential>)

  /** The directory: the user records found under each username. */
  type Users = map<string, seq<User>>

  /** Every user record is filed under its own username. */
  ghost predicate WellFormed(d: Users) {
    forall name, i :: name in d && 0 <= i < |d[name]| ==> d[name][i].username == name
  }

  /** `findUsers({username})` */
  function FindUsers(d: Users, username: string): (r: seq<User>)
    ensures WellFormed(d) ==> forall i :: 0 <= i < |r| ==> r[i].username == username
  {
    if username in d then d[username] else []
  }

  /**
   * The positions of the credentials with the given ID, in order: what
   * `getCredentials({credId})` returns, as indices into the user's list.
   */
  function Matches(creds: seq<Credential>, credId: string): (m: seq<nat>)
    ensures forall k :: 0 <= k < |m| ==> m[k] < |creds| && creds[m[k]].credId == credId
    ensures forall i :: 0 <= i < |creds| && creds[i].credId == credId ==> i in m
    ensures forall k, l :: 0 <= k < l < |m| ==> m[k] < m[l]
    decreases |creds|
  {
    if |creds| == 0 then []
    else
      var last := |creds| - 1;
      Matches(creds[..last], credId) + (if creds[last].credId == credId then [last] else [])
  }

  /** No two credentials of a list share an ID. */
  ghost predicate DistinctIds(creds: seq<Credential>) {
    forall i, j :: 0 <= i < j < |creds| ==> creds[i].credId != creds[j].credId
  }

  /** One `allowCredentials` entry of the login options. */
  datatype CredentialDescriptor = CredentialDescriptor(id: string, kind: string)

  /** `creds.map((cred) => ({id: cred.get("credId"), type: "public-key"}))` */
  function AllowCredentials(creds: seq<Credential>): (r: seq<CredentialDescriptor>)
    ensures |r| == |creds|
    ensures forall i :: 0 <= i < |creds| ==> r[i] == CredentialDescriptor(creds[i].credId, "public-key")
  {
    seq(|creds|, i requires 0 <= i < |creds| => CredentialDescriptor(creds[i].credId, "public-key"))
  }

  /** The only user found under a username receives one more credential; nothing else changes. */
  function AddCredential(d: Users, username: string, c: Credential): (r: Users)
    requires |FindUsers(d, username)| == 1
    ensures var u := FindUsers(d, username)[0];
            FindUsers(r, username) == [u.(credentials := u.credentials + [c])]
    ensures forall name :: name != username ==> FindUsers(r, name) == FindUsers(d, name)
    ensures WellFormed(d) ==> WellFormed(r)
  {
    var u := d[username][0];
    d[username := [u.(credentials := u.credentials + [c])]]
  }

  /** `cred.set("prevCounter", counter)` on the i-th credential of the only user found under a username. */
  function SetCounter(d: Users, username: string, i: nat, counter: int): (r: Users)
    requires |FindUsers(d, username)| == 1 && i < |FindUsers(d, username)[0].credentials|
    ensures var before := FindUsers(d, username)[0];
            var after := FindUsers(r, username);
            && |after| == 1
            && after[0].username == before.username && after[0].userId == before.userId
            && |after[0].credentials| == |before.credentials|
            && after[0].credentials[i] == before.credentials[i].(prevCounter := counter)
            && forall j :: 0 <= j < |before.credentials| && j != i ==> after[0].credentials[j] == before.credentials[j]
    ensures forall name :: name != username ==> FindUsers(r, name) == FindUsers(d, name)
    ensures WellFormed(d) ==> WellFormed(r)
  {
    var u := d[username][0];
    var c := u.credentials[i];
    d[username := [u.(credentials := u.credentials[i := c.(prevCounter := counter)])]]
  }

  /** Appending a credential adds its position to the matches exactly when its ID matches. */
  lemma MatchesAppend(creds: seq<Credential>, c: Credential, credId: string)
    ensures Matches(creds + [c], credId) == Matches(creds, credId) + (if c.credId == credId then [|creds|] else [])
  {
    assert (creds + [c])[..|creds|] == creds;
  }

  /** The matches depend on the credential IDs only, so changing a counter keeps them. */
  lemma {:induction false} MatchesSameIds(a: seq<Credential>, b: seq<Credential>, credId: string)
    requires |a| == |b|
    requires forall i :: 0 <= i < |a| ==> a[i].credId == b[i].credId
    ensures Matches(a, credId) == Matches(b, credId)
  {
    if |a| > 0 {
      MatchesSameIds(a[..|a| - 1], b[..|b| - 1], credId);
    }
  }

  /** No credential with the ID: no match. */
  lemma {:induction false} MatchesNone(creds: seq<Credential>, credId: string)
    requires forall j :: 0 <= j < |creds| ==> creds[j].credId != credId
    ensures Matches(creds, credId) == []
  {
    if |creds| > 0 {
      MatchesNone(creds[..|creds| - 1], credId);
    }
  }

  /** Exactly the k-th credential carries the ID: the matches are [k]. */
  lemma {:induction false} MatchesSingle(creds: seq<Credential>, credId: string, k: nat)
    requires k < |creds| && creds[k].credId == credId
    requires forall j :: 0 <= j < |creds| && j != k ==> creds[j].credId != credId
    ensures Matches(creds, credId) == [k]
  {
    var last := |creds| - 1;
    assert Matches(creds, credId) == Matches(creds[..last], credId) + (if creds[last].credId == credId then [last] else []);
    if last == k {
      MatchesNone(creds[..last], credId);
    } else {
      MatchesSingle(creds[..last], credId, k);
    }
  }

  /** In a list without repeated IDs, the ID of the k-th credential matches the k-th credential alone. */
  lemma MatchesOfDistinct(creds: seq<Credential>, k: nat)
    requires DistinctIds(creds) && k < |creds|
    ensures Matches(creds, creds[k].credId) == [k]
  {
    forall j | 0 <= j < |creds| && j != k
      ensures creds[j].credId != creds[k].credId
    {
      if j < k {
        assert creds[j].credId != creds[k].credId;
      } else {
        assert creds[k].credId != creds[j].credId;
      }
    }
    MatchesSingle(creds, creds[k].credId, k);
  }
}
