/**
 * The ceremony fields of the caller's session (`req.session`): what a request
 * step writes, what a response step checks before it does anything else, and
 * how a response step turns the stored challenge text into bytes.
 */
module Sessions {
  import opened Values
  import Base64

  datatype Ceremony = Registration | Login

  function Other(c: Ceremony): Ceremony {
    if c == Registration then Login else Registration
  }

  /** The session as the component sees it; `NoSession` when the request carries none. */
  datatype Session =
    | NoSession
    | Present(username: JsValue, userId: JsValue,
              registerChallenge: JsValue, registerChallengeTime: JsValue,
              loginChallenge: JsValue, loginChallengeTime: JsValue)

  /** A freshly generated session, with none of the ceremony fields set. */
  const EmptySession: Session := Present(Undefined, Undefined, Undefined, Undefined, Undefined, Undefined)

  /** `registerChallenge` or `loginChallenge` */
  function ChallengeField(s: Session, c: Ceremony): JsValue
    requires s.Present?
  {
    if c == Registration then s.registerChallenge else s.loginChallenge
  }

  /** `registerChallengeTime` or `loginChallengeTime` */
  function ChallengeTimeField(s: Session, c: Ceremony): JsValue
    requires s.Present?
  {
    if c == Registration then s.registerChallengeTime else s.loginChallengeTime
  }

  /** The values a response step reads out of a session that passed its check. */
  datatype Pending = Pending(username: string, userId: string, challenge: string, issuedAt: int)

  /**
   * The check at the start of registerResponse and loginResponse: the session
   * exists, `username` and `userId` are strings, the challenge time is a number
   * and the challenge is a string.
   */
  function PendingChallenge(s: Session, c: Ceremony): Option<Pending> {
    if s.Present? && s.username.Str? && s.userId.Str?
       && ChallengeTimeField(s, c).Number? && ChallengeField(s, c).Str?
    then Some(Pending(s.username.s, s.userId.s, ChallengeField(s, c).s, ChallengeTimeField(s, c).n))
    else None
  }

  /** The four session writes of registerRequest or loginRequest. */
  function IssueChallenge(s: Session, c: Ceremony, username: string, userId: string, challenge: string, now: int): Session
    requires s.Present?
  {
    match c
    case Registration =>
      s.(username := Str(username), userId := Str(userId),
         registerChallenge := Str(challenge), registerChallengeTime := Number(now))
    case Login =>
      s.(loginChallenge := Str(challenge), loginChallengeTime := Number(now),
         username := Str(username), userId := Str(userId))
  }

  /** `req.session.<c>Challenge = coerceToArrayBuffer(req.session.<c>Challenge, ...)` */
  function ConsumeChallenge(s: Session, c: Ceremony): Session
    requires s.Present? && ChallengeField(s, c).Str?
  {
    var bytes := Base64.CoerceToArrayBuffer(ChallengeField(s, c).s);
    match c
    case Registration => s.(registerChallenge := Binary(bytes))
    case Login => s.(loginChallenge := Binary(bytes))
  }

  /** The timeout test of both response steps: the boundary itself counts as expired. */
  predicate Expired(now: int, issuedAt: int, timeout: int) {
    now >= issuedAt + timeout
  }

  /** A request step leaves exactly the values it wrote for the response step to find. */
  lemma IssuedChallengeIsPending(s: Session, c: Ceremony, username: string, userId: string, challenge: string, now: int)
    requires s.Present?
    ensures PendingChallenge(IssueChallenge(s, c, username, userId, challenge, now), c)
            == Some(Pending(username, userId, challenge, now))
  {
  }

  /** A request step leaves the other ceremony's challenge and its time as they were. */
  lemma IssueKeepsOtherChallenge(s: Session, c: Ceremony, username: string, userId: string, challenge: string, now: int)
    requires s.Present?
    ensures var t := IssueChallenge(s, c, username, userId, challenge, now);
            ChallengeField(t, Other(c)) == ChallengeField(s, Other(c))
            && ChallengeTimeField(t, Other(c)) == ChallengeTimeField(s, Other(c))
  {
  }

  /**
   * After a response step has read the challenge, the session no longer passes
   * the check for that ceremony: the stored challenge is bytes now, not a
   * string, so the same session cannot be answered twice. The other ceremony's
   * pending state is untouched.
   */
  lemma ConsumedChallengeIsNotPending(s: Session, c: Ceremony)
    requires s.Present? && ChallengeField(s, c).Str?
    ensures PendingChallenge(ConsumeChallenge(s, c), c) == None
    ensures PendingChallenge(ConsumeChallenge(s, c), Other(c)) == PendingChallenge(s, Other(c))
  {
  }

  /**
   * The two ceremonies share `username` and `userId`: a login request issued
   * after a registration request leaves the registration challenge pending,
   * but for the login request's user. A registration response that follows
   * answers the first challenge and files the credential under the second
   * user.
   */
  lemma LoginRequestRetargetsRegistration(s: Session, alice: string, aliceId: string, bob: string, bobId: string,
                                          regChallenge: string, loginChallenge: string, t0: int, t1: int)
    requires s.Present?
    ensures var afterRegister := IssueChallenge(s, Registration, alice, aliceId, regChallenge, t0);
            var afterLogin := IssueChallenge(afterRegister, Login, bob, bobId, loginChallenge, t1);
            PendingChallenge(afterLogin, Registration) == Some(Pending(bob, bobId, regChallenge, t0))
  {
  }

  /** The bytes a response step hands to the engine are the bytes the request step issued. */
  lemma IssuedChallengeDecodes(s: Session, c: Ceremony, username: string, userId: string, challenge: seq<byte>, now: int)
    requires s.Present?
    ensures var p := PendingChallenge(IssueChallenge(s, c, username, userId, Base64.CoerceToBase64(challenge), now), c);
            p.Some? && Base64.CoerceToArrayBuffer(p.value.challenge) == challenge
  {
    Base64.CoerceRoundTrip(challenge);
  }
}
