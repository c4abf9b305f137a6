/**
 * The decision logic of the event write endpoint: the shared-token check,
 * the constraints on the request body, the merge that puts the event type
 * into `meta`, and the order in which they and the store are consulted.
 */
module EventsApi {
  import opened Wrappers
  import opened Events

  /** The accepted severities, and the one used when the body has none. */
  const LevelNames: set<string> := {"INFO", "WARN", "ERROR"}
  const DefaultLevel: string := "INFO"

  /** The accepted event types, and the one used when the body has none. */
  const TypeNames: set<string> := {"AUDIT", "OPS", "SECURITY", "DEPLOY"}
  const DefaultType: string := "OPS"

  const DefaultService: string := "api"
  const MaxServiceLength: nat := 80
  const MaxMessageLength: nat := 1000

  /** The `meta` key that carries the event type. */
  const TypeKey: string := "type"

  const NotConfigured: string := "Server token not configured."
  const Unauthorized: string := "Unauthorized."
  const InternalError: string := "Internal Server Error"

  /** The outcome of the token check. */
  datatype AuthDecision = Authorized | Denied(status: int, detail: string)

  /**
   * The token check: with no server token configured (unset or empty) every
   * request is refused with 503, whatever it carries; otherwise the request is
   * let through exactly when its header equals the server token, and refused
   * with 401 when the header is missing, empty or different.
   */
  function RequireToken(expected: Option<string>, header: Option<string>): (d: AuthDecision)
    ensures (expected.None? || expected.value == "") ==> d == Denied(503, NotConfigured)
    ensures d == Authorized <==> expected.Some? && expected.value != "" && header == expected
    ensures d == Denied(401, Unauthorized) <==> expected.Some? && expected.value != "" && header != expected
  {
    if expected.None? || expected.value == "" then Denied(503, NotConfigured)
    else if header.None? || header.value == "" || header.value != expected.value then Denied(401, Unauthorized)
    else Authorized
  }

  /** A request body's fields as sent; `None` is a field left out. */
  datatype EventInput = EventInput(
    level: Option<string>,
    eventType: Option<string>,
    service: Option<string>,
    message: Option<string>,
    meta: Option<Meta>)

  /** A body that passed validation, with defaults filled in. */
  datatype EventIn = EventIn(level: string, eventType: string, service: string, message: string, meta: Meta)

  /** The body fields that carry a constraint. */
  datatype Field = LevelField | TypeField | ServiceField | MessageField

  predicate LevelOk(level: Option<string>) {
    level.None? || level.value in LevelNames
  }

  predicate TypeOk(eventType: Option<string>) {
    eventType.None? || eventType.value in TypeNames
  }

  predicate ServiceOk(service: Option<string>) {
    service.None? || 1 <= |service.value| <= MaxServiceLength
  }

  predicate MessageOk(message: Option<string>) {
    message.Some? && 1 <= |message.value| <= MaxMessageLength
  }

  /** Every field that breaks its constraint. */
  function FieldErrors(input: EventInput): set<Field> {
    (if LevelOk(input.level) then {} else {LevelField}) +
    (if TypeOk(input.eventType) then {} else {TypeField}) +
    (if ServiceOk(input.service) then {} else {ServiceField}) +
    (if MessageOk(input.message) then {} else {MessageField})
  }

  /**
   * Body validation: a body is accepted exactly when its level and type, if
   * given, are among the allowed names, its service, if given, has 1 to 80
   * characters, and its message is given with 1 to 1000 characters; an
   * accepted body keeps every given value and takes the defaults for the rest,
   * and a refused body is reported with each offending field.
   */
  function Validate(input: EventInput): (r: Result<EventIn, set<Field>>)
    ensures r.Ok? <==>
      && (input.level.None? || input.level.value in LevelNames)
      && (input.eventType.None? || input.eventType.value in TypeNames)
      && (input.service.None? || 1 <= |input.service.value| <= MaxServiceLength)
      && (input.message.Some? && 1 <= |input.message.value| <= MaxMessageLength)
    ensures r.Ok? ==>
      && r.value.level in LevelNames && r.value.eventType in TypeNames
      && 1 <= |r.value.service| <= MaxServiceLength && 1 <= |r.value.message| <= MaxMessageLength
      && r.value.level == input.level.GetOr(DefaultLevel)
      && r.value.eventType == input.eventType.GetOr(DefaultType)
      && r.value.service == input.service.GetOr(DefaultService)
      && Some(r.value.message) == input.message
      && r.value.meta == input.meta.GetOr(map[])
    ensures r.Err? ==>
      && r.error != {}
      && (LevelField in r.error <==> input.level.Some? && input.level.value !in LevelNames)
      && (TypeField in r.error <==> input.eventType.Some? && input.eventType.value !in TypeNames)
      && (ServiceField in r.error <==> input.service.Some? && (|input.service.value| == 0
                                       || |input.service.value| > MaxServiceLength))
      && (MessageField in r.error <==> input.message.None? || |input.message.value| == 0
                                       || |input.message.value| > MaxMessageLength)
  {
    var errors := FieldErrors(input);
    if errors != {} then Err(errors)
    else
      Ok(EventIn(input.level.GetOr(DefaultLevel), input.eventType.GetOr(DefaultType),
                 input.service.GetOr(DefaultService), input.message.value, input.meta.GetOr(map[])))
  }

  /**
   * The meta object stored with a posted event: the caller's object with the
   * event type added under "type" unless the caller already set that key,
   * whose value is then kept; every other key is carried over unchanged.
   */
  function MergeMeta(meta: Meta, eventType: string): (m: Meta)
    ensures m.Keys == meta.Keys + {TypeKey}
    ensures TypeKey in meta ==> m[TypeKey] == meta[TypeKey]
    ensures TypeKey !in meta ==> m[TypeKey] == JString(eventType)
    ensures forall k :: k in meta && k != TypeKey ==> m[k] == meta[k]
  {
    if TypeKey in meta then meta else meta[TypeKey := JString(eventType)]
  }

  /** Merging again changes nothing: once "type" is set, a later type never overwrites it. */
  lemma MergeMetaIdempotent(meta: Meta, eventType: string, laterType: string)
    ensures MergeMeta(MergeMeta(meta, eventType), laterType) == MergeMeta(meta, eventType)
  {
  }

  /** What the endpoint answers. */
  datatype Response =
    | Created(event: Event)
    | Failed(status: int, detail: string)
    | Unprocessable(fields: set<Field>)

  /** The event a valid body is stored as, under the given id and timestamp. */
  function EventOf(body: EventIn, id: string, ts: string): Event {
    Event(id, ts, body.level, body.service, body.message, MergeMeta(body.meta, body.eventType))
  }

  /**
   * Handles one POST of an event. The token is checked first, so a refused
   * token is answered whatever the body; then the body is validated; only
   * then is the store asked to insert, and a store failure (the database
   * refusing the write, `dbFails`, or a taken id) is a 500. The
   * store changes only when an event is created, and then by exactly that
   * event at the end.
   */
  method PostEvent(store: EventStore, expected: Option<string>, header: Option<string>,
                   input: EventInput, id: string, ts: string, dbFails: bool) returns (resp: Response)
    requires store.Valid()
    modifies store
    ensures store.Valid()
    ensures RequireToken(expected, header).Denied? ==>
      resp == Failed(RequireToken(expected, header).status, RequireToken(expected, header).detail)
      && store.events == old(store.events)
    ensures RequireToken(expected, header).Authorized? && Validate(input).Err? ==>
      resp == Unprocessable(Validate(input).error) && store.events == old(store.events)
    ensures RequireToken(expected, header).Authorized? && Validate(input).Ok?
            && (dbFails || HasId(old(store.events), id)) ==>
      resp == Failed(500, InternalError) && store.events == old(store.events)
    ensures RequireToken(expected, header).Authorized? && Validate(input).Ok?
            && !dbFails && !HasId(old(store.events), id) ==>
      resp == Created(EventOf(Validate(input).value, id, ts))
      && store.events == old(store.events) + [EventOf(Validate(input).value, id, ts)]
  {
    var auth := RequireToken(expected, header);
    if auth.Denied? {
      return Failed(auth.status, auth.detail);
    }
    var body := Validate(input);
    if body.Err? {
      return Unprocessable(body.error);
    }
    var event := body.value;
    var meta := MergeMeta(event.meta, event.eventType);
    var created := store.AddEvent(id, ts, event.level, event.service, event.message, Some(meta), dbFails);
    if created.Err? {
      return Failed(500, InternalError);
    }
    resp := Created(created.value);
  }

  /**
   * `GET /events`: the listing with the query's limit, or with 50 rows at most
   * when the query gives none.
   */
  function GetEvents(store: EventStore, limit: Option<int>, level: Option<string>, service: Option<string>)
    : (r: seq<Event>)
    reads store
    ensures limit.None? ==> |r| == if |Select(store.events, level, service)| < DefaultLimit
                                   then |Select(store.events, level, service)| else DefaultLimit
    ensures |r| <= ClampLimit(limit.GetOr(DefaultLimit))
    ensures NewestFirst(r)
    ensures forall i :: 0 <= i < |r| ==> r[i] in store.events && Matches(r[i], level, service)
  {
    store.ListEvents(limit.GetOr(DefaultLimit), level, service)
  }

  /**
   * An event created from a valid body echoes its level, service and message,
   * and its meta always holds a "type": the caller's when given, else the body's type.
   */
  lemma CreatedEchoesBody(input: EventInput, id: string, ts: string)
    requires Validate(input).Ok?
    ensures var e := EventOf(Validate(input).value, id, ts);
      && e.level == input.level.GetOr(DefaultLevel)
      && e.service == input.service.GetOr(DefaultService)
      && Some(e.message) == input.message
      && TypeKey in e.meta
      && e.meta[TypeKey] == (if input.meta.Some? && TypeKey in input.meta.value then input.meta.value[TypeKey]
                             else JString(input.eventType.GetOr(DefaultType)))
  {
  }

  /**
   * The body posted with a valid token in the repository's own test: a WARN
   * AUDIT event for service "api" is accepted, and its stored meta keeps the
   * caller's key and gains type "AUDIT".
   */
  lemma AuditEventAccepted(id: string, ts: string)
    ensures var input := EventInput(Some("WARN"), Some("AUDIT"), Some("api"), Some("something happened"),
                                    Some(map["request_id" := JString("abc123")]));
      && RequireToken(Some("testtoken"), Some("testtoken")) == Authorized
      && Validate(input).Ok?
      && var e := EventOf(Validate(input).value, id, ts);
      && e.level == "WARN" && e.service == "api"
      && e.meta == map["request_id" := JString("abc123"), TypeKey := JString("AUDIT")]
  {
  }

  /** The same body without a token header is refused with 401 once a token is configured. */
  lemma MissingTokenRefused()
    ensures RequireToken(Some("testtoken"), None) == Denied(401, Unauthorized)
  {
  }
}
