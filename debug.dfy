/**
 * The success message of the response steps and `addDebugInfo`
 * (lib/main.js:435-457), which attaches the engine's diagnostics to it when
 * `dangerousXmitDebugInfo` is on.
 */
module Debug {
  import opened Values
  import opened Engine

  /** `debugInfo.audit`: five of the audit's fields; the journal is not sent. */
  datatype DebugAudit = DebugAudit(validExpectations: bool, validRequest: bool, complete: bool,
                                   warning: map<string, string>, info: map<string, string>)

  datatype DebugInfo = DebugInfo(clientData: map<string, JsValue>, authnrData: map<string, JsValue>, audit: DebugAudit)

  /** `ServerResponse` */
  datatype ServerResponse = ServerResponse(status: string, errorMessage: string, debugInfo: Option<DebugInfo>)

  /** The plain success message `{status: "ok"}`, whose error message defaults to empty. */
  const OkResponse: ServerResponse := ServerResponse("ok", "", None)

  /** The diagnostics as they appear in `debugInfo`. */
  function DebugInfoOf(d: Diagnostics): DebugInfo {
    DebugInfo(d.clientData, d.authnrData,
              DebugAudit(d.audit.validExpectations, d.audit.validRequest, d.audit.complete,
                         d.audit.warning, d.audit.info))
  }

  /** `source.forEach((v, k) => { target[k] = v; })` into an empty object: an exact copy. */
  method CopyEntries(source: map<string, JsValue>) returns (target: map<string, JsValue>)
    ensures target == source
  {
    target := map[];
    var pending := source.Keys;
    while pending != {}
      invariant pending <= source.Keys
      invariant target.Keys == source.Keys - pending
      invariant forall k :: k in target ==> target[k] == source[k]
      decreases pending
    {
      var k :| k in pending;
      target := target[k := source[k]];
      pending := pending - {k};
    }
  }

  /**
   * `addDebugInfo(ctx, response, result)`: with the flag off the response is
   * returned as it was; with it on, `debugInfo` is replaced by copies of the
   * client data, the authenticator data and five audit fields. Status and
   * error message are never touched.
   */
  method AddDebugInfo(xmitDebugInfo: bool, response: ServerResponse, result: Diagnostics) returns (r: ServerResponse)
    ensures !xmitDebugInfo ==> r == response
    ensures r.status == response.status && r.errorMessage == response.errorMessage
    ensures xmitDebugInfo ==> r.debugInfo == Some(DebugInfoOf(result))
  {
    if !xmitDebugInfo {
      return response;
    }
    var clientData := CopyEntries(result.clientData);
    var authnrData := CopyEntries(result.authnrData);
    var audit := DebugAudit(result.audit.validExpectations, result.audit.validRequest, result.audit.complete,
                            result.audit.warning, result.audit.info);
    r := response.(debugInfo := Some(DebugInfo(clientData, authnrData, audit)));
  }
}
