/** The JSON envelopes every route answers with: `{ ok: true, data }` and
    `{ ok: false, error, ... }`, both carrying the request id when the request is known. */
module Http {
  import opened Common
  import opened Json
  import opened Requests

  /** `getOrCreateRequestId`: the caller's x-request-id, else its x-correlation-id, else a
      freshly generated id (`generated` stands for the random UUID). */
  function GetOrCreateRequestId(h: Headers, generated: string): (id: string)
    ensures HasNonEmpty(h, "x-request-id") ==> id == h["x-request-id"]
    ensures !HasNonEmpty(h, "x-request-id") && HasNonEmpty(h, "x-correlation-id") ==> id == h["x-correlation-id"]
    ensures !HasNonEmpty(h, "x-request-id") && !HasNonEmpty(h, "x-correlation-id") ==> id == generated
    ensures generated != "" ==> id != ""
  {
    if HasNonEmpty(h, "x-request-id") then h["x-request-id"]
    else if HasNonEmpty(h, "x-correlation-id") then h["x-correlation-id"]
    else generated
  }

  /** A `ResponseInit`: an optional status and headers (names in lower case, as the
      Headers object stores them). */
  datatype Init = Init(status: Option<int>, headers: Headers)

  datatype StatusOrInit = NoStatus | Status(code: int) | WithInit(init: Init)

  datatype Response = Response(status: int, body: Value, headers: Headers)

  /** `NextResponse.json(body, { status, ...init })` followed by setting x-request-id when the
      request id is non-empty. The headers are those the code sets; the framework's own
      `content-type: application/json` is left out. */
  function Respond(fields: map<string, Value>, status: int, init: Option<Init>, requestId: Option<string>): (res: Response)
    ensures res.status == if init.Some? && init.value.status.Some? then init.value.status.value else status
    ensures requestId.Some? ==> res.body == Obj(fields["requestId" := Str(requestId.value)])
    ensures requestId.None? ==> res.body == Obj(fields)
    ensures requestId.Some? && requestId.value != "" ==> "x-request-id" in res.headers && res.headers["x-request-id"] == requestId.value
    ensures forall k | k in res.headers && k != "x-request-id" :: init.Some? && k in init.value.headers && res.headers[k] == init.value.headers[k]
    ensures forall k | init.Some? && k in init.value.headers && k != "x-request-id" :: k in res.headers
  {
    var body := if requestId.Some? then fields["requestId" := Str(requestId.value)] else fields;
    var st := if init.Some? && init.value.status.Some? then init.value.status.value else status;
    var hs := if init.Some? then init.value.headers else map[];
    var hs' := if requestId.Some? && requestId.value != "" then hs["x-request-id" := requestId.value] else hs;
    Response(st, Obj(body), hs')
  }

  /** `ok(data, statusOrInit?, req?)`. */
  function Ok(data: Value, statusOrInit: StatusOrInit, req: Option<Request>, generated: string): (res: Response)
    ensures res.body.Obj? && "ok" in res.body.fields && res.body.fields["ok"] == Bool(true)
    ensures "data" in res.body.fields && res.body.fields["data"] == data
    ensures res.status == match statusOrInit
      case NoStatus => 200
      case Status(n) => n
      case WithInit(i) => if i.status.Some? then i.status.value else 200
    ensures "requestId" in res.body.fields <==> req.Some?
    ensures req.Some? ==> res.body.fields["requestId"] == Str(GetOrCreateRequestId(req.value.headers, generated))
    ensures req.Some? && generated != "" ==>
      "x-request-id" in res.headers && res.body.fields["requestId"] == Str(res.headers["x-request-id"])
    ensures req.None? ==> "x-request-id" !in res.headers || (statusOrInit.WithInit? && "x-request-id" in statusOrInit.init.headers)
  {
    var fields := map["ok" := Bool(true), "data" := data];
    var requestId := if req.Some? then Some(GetOrCreateRequestId(req.value.headers, generated)) else None;
    match statusOrInit
    case NoStatus => Respond(fields, 200, None, requestId)
    case Status(n) => Respond(fields, n, None, requestId)
    case WithInit(i) => Respond(fields, 200, Some(i), requestId)
  }

  /** `fail(status, error, extra?, req?, init?)`: the fields of `extra` are spread after
      `ok` and `error`, so they override them. */
  function Fail(status: int, error: string, extra: map<string, Value>, req: Option<Request>,
                init: Option<Init>, generated: string): (res: Response)
    ensures res.body.Obj? && "ok" in res.body.fields && "error" in res.body.fields
    ensures res.body.fields["ok"] == if "ok" in extra then extra["ok"] else Bool(false)
    ensures res.body.fields["error"] == if "error" in extra then extra["error"] else Str(error)
    ensures forall k | k in extra && k != "requestId" :: k in res.body.fields && res.body.fields[k] == extra[k]
    ensures res.status == if init.Some? && init.value.status.Some? then init.value.status.value else status
    ensures "requestId" in res.body.fields <==> req.Some? || "requestId" in extra
    ensures req.Some? ==> res.body.fields["requestId"] == Str(GetOrCreateRequestId(req.value.headers, generated))
    ensures req.Some? && generated != "" ==>
      "x-request-id" in res.headers && res.body.fields["requestId"] == Str(res.headers["x-request-id"])
    ensures forall k | init.Some? && k in init.value.headers && k != "x-request-id" ::
      k in res.headers && res.headers[k] == init.value.headers[k]
  {
    var fields := map["ok" := Bool(false), "error" := Str(error)] + extra;
    var requestId := if req.Some? then Some(GetOrCreateRequestId(req.value.headers, generated)) else None;
    Respond(fields, status, init, requestId)
  }

  /** The plain failure used by the routes: the status passes through and the body is
      `{ ok: false, error, requestId }`. */
  lemma PlainFailShape(status: int, error: string, req: Request, generated: string)
    ensures var res := Fail(status, error, map[], Some(req), None, generated);
      res.status == status
      && res.body == Obj(map["ok" := Bool(false), "error" := Str(error),
                             "requestId" := Str(GetOrCreateRequestId(req.headers, generated))])
  {
    assert map["ok" := Bool(false), "error" := Str(error)] + map[] == map["ok" := Bool(false), "error" := Str(error)];
  }

  /** `res.headers.set(name, value)` on a built response. */
  function SetHeader(res: Response, name: string, value: string): (r: Response)
    ensures r.status == res.status && r.body == res.body
    ensures name in r.headers && r.headers[name] == value
    ensures forall k | k in res.headers && k != name :: k in r.headers && r.headers[k] == res.headers[k]
  {
    res.(headers := res.headers[name := value])
  }
}
