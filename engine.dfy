/**
 * The verification engine (fido2-lib) at its interface: the expectations the
 * component hands over, and the verdict it gets back. The engine itself is an
 * oracle: the ceremony methods take it as a function parameter.
 */
module Engine {
  import opened Values

  /** `result.audit` */
  datatype Audit = Audit(validExpectations: bool, validRequest: bool, complete: bool,
                         journal: set<string>, warning: map<string, string>, info: map<string, string>)

  /** The parts of a verified result that addDebugInfo copies: `clientData`, `authnrData` and `audit`. */
  datatype Diagnostics = Diagnostics(clientData: map<string, JsValue>, authnrData: map<string, JsValue>, audit: Audit)

  /** `attestationExpectations` of registerResponse */
  datatype AttestationExpectations = AttestationExpectations(challenge: seq<byte>, origin: string, factor: string)

  /** `assertionExpectations` of loginResponse */
  datatype AssertionExpectations = AssertionExpectations(
    challenge: seq<byte>, origin: string, factor: string,
    publicKey: string, prevCounter: int, userHandle: string)

  /** A verified attestation: the `authnrData` entries registerResponse stores, and the diagnostics. */
  datatype Attestation = Attestation(counter: int, credId: seq<byte>, aaguid: seq<byte>,
                                     publicKeyPem: string, diagnostics: Diagnostics)

  /** A verified assertion: the new signature counter, and the diagnostics. */
  datatype Assertion = Assertion(counter: int, diagnostics: Diagnostics)

  /** The engine either rejects (the promise is rejected with a reason) or returns a verified result. */
  datatype Verdict<T> = Rejected(reason: string) | Accepted(result: T)

  /** What `attestationOptions()` returns: challenge, relying-party name, timeout and algorithm list. */
  datatype CreationOptions = CreationOptions(challenge: seq<byte>, rpName: string, timeout: int, algorithms: seq<int>)
}
