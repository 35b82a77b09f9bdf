/**
 * The option checks of `updateEndpoint` (lib/main.js:481-505), used by
 * setRegisterRequest, setRegisterResponse, setLoginRequest and
 * setLoginResponse to change a route's path, HTTP method and handler.
 */
module Endpoints {
  import opened Values

  /** The four endpoints of the component, one per ceremony step. */
  datatype Endpoint =
    | RegisterRequestEndpoint
    | RegisterResponseEndpoint
    | LoginRequestEndpoint
    | LoginResponseEndpoint

  /** The TypeErrors updateEndpoint throws. */
  datatype EndpointError =
    | OptionsNotObject                                   // `typeof opts !== "object"`
    | OptionsNull                                        // `opts` is null: reading `opts.path` throws
    | BadField(field: string, expected: string, got: string)

  /** The fields an accepted call assigns: only the truthy ones among `path`, `method` and `cb`. */
  datatype EndpointUpdate = EndpointUpdate(path: Option<string>, httpMethod: Option<string>, cb: Option<string>)

  /** `opts[name]` for an options value that is not null or undefined. */
  function Prop(opts: JsValue, name: string): JsValue {
    match opts
    case Object(props) => if name in props then props[name] else Undefined
    case _ => Undefined
  }

  /** `typeof v !== "undefined" && typeof v !== t` */
  predicate Mistyped(v: JsValue, t: string) {
    TypeOf(v) != "undefined" && TypeOf(v) != t
  }

  /** The first of `path`, `method`, `cb` (checked in that order) whose type is wrong, with the type it must have. */
  function MistypedField(opts: JsValue): Option<(string, string)> {
    if Mistyped(Prop(opts, "path"), "string") then Some(("path", "string"))
    else if Mistyped(Prop(opts, "method"), "string") then Some(("method", "string"))
    else if Mistyped(Prop(opts, "cb"), "function") then Some(("cb", "function"))
    else None
  }

  /** The type the source's message names for a mistyped field: `typeof opts.path`, whichever field it is. */
  function ReportedTypeAsWritten(opts: JsValue, field: string): string {
    TypeOf(Prop(opts, "path"))
  }

  function StringIfTruthy(v: JsValue): Option<string> {
    if v.Str? && v.s != "" then Some(v.s) else None
  }

  function CallbackIfTruthy(v: JsValue): Option<string> {
    if v.Function? then Some(v.name) else None
  }

  /**
   * The corrected checks of updateEndpoint: each field message names the type
   * of the offending field itself. An accepted call assigns `path` and `method`
   * when they are non-empty strings and `cb` when it is a function.
   */
  function CheckEndpointOptions(opts: JsValue): (r: Result<EndpointUpdate, EndpointError>)
    ensures r.Ok? <==> TypeOf(opts) == "object" && !opts.Null? && MistypedField(opts).None?
    ensures TypeOf(opts) != "object" ==> r == Failure(OptionsNotObject)
    ensures opts.Null? ==> r == Failure(OptionsNull)
    ensures TypeOf(opts) == "object" && !opts.Null? && MistypedField(opts).Some? ==> r.Failure? && r.error.BadField?
    ensures r.Failure? && r.error.BadField? ==>
              MistypedField(opts) == Some((r.error.field, r.error.expected))
              && r.error.got == TypeOf(Prop(opts, r.error.field))
    ensures r.Ok? ==>
              && (r.value.path.Some? <==> Truthy(Prop(opts, "path")))
              && (r.value.httpMethod.Some? <==> Truthy(Prop(opts, "method")))
              && (r.value.cb.Some? <==> Truthy(Prop(opts, "cb")))
    ensures r.Ok? ==>
              && (r.value.path.Some? ==> Prop(opts, "path") == Str(r.value.path.value))
              && (r.value.httpMethod.Some? ==> Prop(opts, "method") == Str(r.value.httpMethod.value))
              && (r.value.cb.Some? ==> Prop(opts, "cb") == Function(r.value.cb.value))
  {
    if TypeOf(opts) != "object" then Failure(OptionsNotObject)
    else if opts.Null? then Failure(OptionsNull)
    else match MistypedField(opts)
      case Some((field, expected)) => Failure(BadField(field, expected, TypeOf(Prop(opts, field))))
      case None =>
        Ok(EndpointUpdate(StringIfTruthy(Prop(opts, "path")),
                          StringIfTruthy(Prop(opts, "method")),
                          CallbackIfTruthy(Prop(opts, "cb"))))
  }

  /** `if (x) ctx[type + suffix] = x`: assign the entry only when there is a value. */
  function Assign<V>(m: map<Endpoint, V>, e: Endpoint, v: Option<V>): (r: map<Endpoint, V>)
    ensures v.Some? ==> e in r && r[e] == v.value
    ensures forall other :: other != e ==> (other in r <==> other in m) && (other in m ==> r[other] == m[other])
    ensures v.None? ==> r == m
  {
    if v.Some? then m[e := v.value] else m
  }

  /**
   * The checks of updateEndpoint as written: the same tests in the same
   * order, but every field message names `typeof opts.path`. It accepts and
   * rejects exactly what the corrected check does, assigns the same values,
   * and blames the same field; only the reported type can differ, and only
   * for `method` and `cb`.
   */
  function CheckEndpointOptionsAsWritten(opts: JsValue): (r: Result<EndpointUpdate, EndpointError>)
    ensures r.Ok? <==> CheckEndpointOptions(opts).Ok?
    ensures r.Ok? ==> r == CheckEndpointOptions(opts)
    ensures r.Failure? ==> r.error.BadField? == CheckEndpointOptions(opts).error.BadField?
    ensures r.Failure? && !r.error.BadField? ==> r == CheckEndpointOptions(opts)
    ensures r.Failure? && r.error.BadField? ==>
              && r.error.field == CheckEndpointOptions(opts).error.field
              && r.error.expected == CheckEndpointOptions(opts).error.expected
              && r.error.got == ReportedTypeAsWritten(opts, r.error.field)
              && (r.error.field == "path" ==> r == CheckEndpointOptions(opts))
  {
    if TypeOf(opts) != "object" then Failure(OptionsNotObject)
    else if opts.Null? then Failure(OptionsNull)
    else if Mistyped(Prop(opts, "path"), "string") then Failure(BadField("path", "string", TypeOf(Prop(opts, "path"))))
    else if Mistyped(Prop(opts, "method"), "string") then Failure(BadField("method", "string", TypeOf(Prop(opts, "path"))))
    else if Mistyped(Prop(opts, "cb"), "function") then Failure(BadField("cb", "function", TypeOf(Prop(opts, "path"))))
    else
      Ok(EndpointUpdate(StringIfTruthy(Prop(opts, "path")),
                        StringIfTruthy(Prop(opts, "method")),
                        CallbackIfTruthy(Prop(opts, "cb"))))
  }

  /**
   * With `{method: 5}` the check as written reports the type of the absent
   * `path`, "undefined", where the corrected check reports "number".
   */
  lemma MethodTypeMisreported()
    ensures var opts := Object(map["method" := Number(5)]);
            && CheckEndpointOptionsAsWritten(opts) == Failure(BadField("method", "string", "undefined"))
            && CheckEndpointOptions(opts) == Failure(BadField("method", "string", "number"))
  {
  }
}
