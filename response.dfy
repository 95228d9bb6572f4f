/**
 * The response plugin (`src/plugins/response.js`): the decision table that
 * turns any thrown error into a public status code and payload, and the
 * `{ ok, data, meta }` / `{ ok: false, error }` envelopes.
 */
module Response {
  import opened Wrappers
  import opened Js

  /** The database client's error codes the table tells apart; any other is `OtherCode`. */
  datatype PrismaCode = P2002 | P2003 | P2021 | P2022 | P2025 | OtherCode(text: string)
  {
    function Text(): string {
      match this
      case P2002 => "P2002"
      case P2003 => "P2003"
      case P2021 => "P2021"
      case P2022 => "P2022"
      case P2025 => "P2025"
      case OtherCode(t) => t
    }
  }

  /** Reading a code: the five named ones are recognised, any other text is kept as it is. */
  function ParseCode(text: string): (c: PrismaCode)
    ensures c.Text() == text
  {
    if text == "P2002" then P2002
    else if text == "P2003" then P2003
    else if text == "P2021" then P2021
    else if text == "P2022" then P2022
    else if text == "P2025" then P2025
    else OtherCode(text)
  }

  /** A known request error of the database client: its `P…` code and its `meta`. */
  datatype KnownError = KnownError(code: PrismaCode, meta: JsValue)

  /**
   * The properties of a thrown error that the table reads. `known` is present
   * exactly when the error is an instance of the database client's known
   * request error class.
   */
  datatype ErrorValue = ErrorValue(
    validation: JsValue, known: Option<KnownError>,
    statusCode: JsValue, message: JsValue, code: JsValue, details: JsValue)

  /** The public payload; an absent `details` is `undefined`. */
  datatype Payload = Payload(code: JsValue, message: JsValue, details: JsValue)

  datatype PublicError = PublicError(statusCode: JsValue, payload: Payload)

  function Status(n: int): JsValue {
    Number(Finite(n as real))
  }

  /** Which of the database client's codes the table handles itself. */
  predicate MappedCode(code: PrismaCode) {
    !code.OtherCode?
  }

  // The public messages.
  const ValidationMessage := "Request validation failed"
  const UnexpectedMessage := "Unexpected error"
  const ConflictMessage := "Resource already exists"
  const NotFoundMessage := "Resource not found"
  const ForeignKeyMessage := "Operation violates a foreign key constraint"
  const SchemaOutdatedMessage := "Database schema is out of date. Run `npm run db:migrate` and restart the server."

  /** The branch for the database client's known errors; `None` for a code it does not handle. */
  function KnownErrorReply(k: KnownError): (r: Option<PublicError>)
    ensures r.Some? <==> MappedCode(k.code)
    ensures r.Some? ==>
      match k.code
      case P2025 => r.value.statusCode == Status(404) && r.value.payload.code == Str("NOT_FOUND")
      case P2021 => r.value.statusCode == Status(500) && r.value.payload.code == Str("DATABASE_SCHEMA_OUTDATED")
      case P2022 => r.value.statusCode == Status(500) && r.value.payload.code == Str("DATABASE_SCHEMA_OUTDATED")
      case _ => r.value.statusCode == Status(409) && r.value.payload.code == Str("CONFLICT")
  {
    match k.code
    case P2002 =>
      Some(PublicError(Status(409), Payload(Str("CONFLICT"), Str(ConflictMessage),
                                            Obj(map["target" := Get(k.meta, "target")]))))
    case P2021 | P2022 =>
      Some(PublicError(Status(500), Payload(Str("DATABASE_SCHEMA_OUTDATED"),
        Str(SchemaOutdatedMessage),
        Obj(map["prisma" := Obj(map["code" := Str(k.code.Text()), "meta" := k.meta])]))))
    case P2025 =>
      Some(PublicError(Status(404), Payload(Str("NOT_FOUND"), Str(NotFoundMessage), Undefined)))
    case P2003 =>
      Some(PublicError(Status(409), Payload(Str("CONFLICT"), Str(ForeignKeyMessage),
                                            Obj(map["field" := Get(k.meta, "field_name")]))))
    case OtherCode(_) => None
  }

  /** `toPublicError`; the log line written on the last branch is left out. */
  function ToPublicError(e: ErrorValue): (r: PublicError)
    ensures Truthy(r.statusCode)
    // validation errors win over every other branch
    ensures Truthy(e.validation) ==>
      r == PublicError(Status(400), Payload(Str("VALIDATION_ERROR"), Str(ValidationMessage), e.validation))
    ensures !Truthy(e.validation) && e.known.Some? && MappedCode(e.known.value.code) ==>
      Some(r) == KnownErrorReply(e.known.value)
    // a 4xx or 5xx with a message of its own passes through
    ensures !Truthy(e.validation) && !(e.known.Some? && MappedCode(e.known.value.code))
            && Truthy(e.statusCode) && Truthy(e.message) ==>
      r.statusCode == e.statusCode && r.payload.message == e.message && r.payload.details == e.details
      && r.payload.code == Or(e.code, Str("HTTP_ERROR"))
    ensures !Truthy(e.validation) && !(e.known.Some? && MappedCode(e.known.value.code))
            && !(Truthy(e.statusCode) && Truthy(e.message)) ==>
      r == PublicError(Status(500), Payload(Str("INTERNAL_SERVER_ERROR"), Str(UnexpectedMessage), Undefined))
  {
    if Truthy(e.validation) then
      PublicError(Status(400), Payload(Str("VALIDATION_ERROR"), Str(ValidationMessage), e.validation))
    else if e.known.Some? && KnownErrorReply(e.known.value).Some? then
      KnownErrorReply(e.known.value).value
    else if Truthy(e.statusCode) && Truthy(e.message) then
      PublicError(e.statusCode, Payload(Or(e.code, Str("HTTP_ERROR")), e.message, e.details))
    else
      PublicError(Status(500), Payload(Str("INTERNAL_SERVER_ERROR"), Str(UnexpectedMessage), Undefined))
  }

  /** Any other code of the database client is treated as if the error were not one of its errors. */
  lemma UnmappedCodeFallsThrough(e: ErrorValue)
    requires e.known.Some? && !MappedCode(e.known.value.code)
    ensures ToPublicError(e) == ToPublicError(e.(known := None))
  {
  }

  /**
   * The errors the services throw, as the table sees them: the HTTP layer's
   * `notFound`/`badRequest` errors carry a status code and a message but no
   * `code`; the database client's errors carry their `P…` code; anything
   * else carries only its message.
   */
  function FromFailure(f: Failure): ErrorValue {
    match f
    case NotFound(m) => ErrorValue(Undefined, None, Status(404), Str(m), Undefined, Undefined)
    case BadRequest(m) => ErrorValue(Undefined, None, Status(400), Str(m), Undefined, Undefined)
    case PrismaKnown(code, m) => ErrorValue(Undefined, Some(KnownError(ParseCode(code), Undefined)), Undefined, Str(m), Undefined, Undefined)
    case Thrown(m) => ErrorValue(Undefined, None, Undefined, Str(m), Undefined, Undefined)
  }

  /** What a client sees for each failure the modelled services produce. */
  lemma ServiceFailureStatus(f: Failure)
    ensures f.NotFound? && f.message != "" ==>
      ToPublicError(FromFailure(f)) == PublicError(Status(404), Payload(Str("HTTP_ERROR"), Str(f.message), Undefined))
    ensures f.BadRequest? && f.message != "" ==>
      ToPublicError(FromFailure(f)) == PublicError(Status(400), Payload(Str("HTTP_ERROR"), Str(f.message), Undefined))
    ensures f.PrismaKnown? && f.code == "P2025" ==>
      ToPublicError(FromFailure(f)) == PublicError(Status(404), Payload(Str("NOT_FOUND"), Str(NotFoundMessage), Undefined))
    ensures f.PrismaKnown? && f.code == "P2002" ==> ToPublicError(FromFailure(f)).statusCode == Status(409)
    ensures f.Thrown? ==> ToPublicError(FromFailure(f)).statusCode == Status(500)
    ensures (f.NotFound? || f.BadRequest?) && f.message == "" ==> ToPublicError(FromFailure(f)).statusCode == Status(500)
  {
  }

  // ----------------------------------------------------------- envelopes

  /** A reply: the status code set on it and the body sent. */
  datatype Reply = Reply(statusCode: JsValue, body: JsValue)

  /** The payload as sent; an undefined `details` does not appear. */
  function PayloadValue(p: Payload): (v: JsValue)
    ensures Get(v, "code") == p.code && Get(v, "message") == p.message && Get(v, "details") == p.details
  {
    var fields := map["code" := p.code, "message" := p.message];
    Obj(if p.details.Undefined? then fields else fields["details" := p.details])
  }

  /** `reply.ok(data, meta)`: the status code is left as it is. */
  function OkReply(current: JsValue, data: JsValue, meta: JsValue): (r: Reply)
    ensures r.statusCode == current
    ensures Get(r.body, "ok") == Bool(true) && Get(r.body, "data") == data && Get(r.body, "meta") == meta
  {
    Reply(current, Obj(map["ok" := Bool(true), "data" := data, "meta" := meta]))
  }

  /** `reply.fail(error, statusCode = 400)`: the default applies only to an `undefined` status. */
  function FailReply(error: JsValue, statusCode: JsValue): (r: Reply)
    ensures r.statusCode == (if statusCode.Undefined? then Status(400) else statusCode)
    ensures Get(r.body, "ok") == Bool(false) && Get(r.body, "error") == error
  {
    Reply(if statusCode.Undefined? then Status(400) else statusCode, Obj(map["ok" := Bool(false), "error" := error]))
  }

  /** The error handler: the mapped status, and `ok: false` with the mapped payload. */
  function HandleError(e: ErrorValue): (r: Reply)
    ensures r.statusCode == ToPublicError(e).statusCode
    ensures Get(r.body, "ok") == Bool(false) && Get(r.body, "error") == PayloadValue(ToPublicError(e).payload)
  {
    var pe := ToPublicError(e);
    FailReply(PayloadValue(pe.payload), pe.statusCode)
  }
}
