/** The audit-logging decision of src/middleware/auditLogger.ts: when a
    handler sends a successful response, one audit entry describing the
    request is written, and the response itself goes out untouched. Writing
    the entry is asynchronous and its failures are only logged, so here the
    decision yields the entry to write, if any, beside the data sent. */
module Audit {
  import opened Common

  /** A JSON request body, reduced to its top-level string fields. */
  type Body = map<string, string>

  /** What the middleware reads from the request. */
  datatype Request = Request(
    user: Option<Claims>,
    paramsId: Option<string>,
    body: Option<Body>,
    httpMethod: string,
    path: string,
    ip: Option<string>,
    userAgent: Option<string>)

  datatype Details = Details(httpMethod: string, path: string, body: Option<Body>)

  /** An AuditLog document as the middleware builds it. */
  datatype AuditEntry = AuditEntry(
    userId: UserId,
    action: string,
    resourceType: string,
    resourceId: string,
    details: Details,
    ipAddress: Option<string>,
    userAgent: Option<string>)

  const READ_ACTION: string := "read"
  const UNKNOWN_RESOURCE: string := "unknown"
  const ANONYMOUS: UserId := "anonymous"

  /** Status codes of a successful response. */
  predicate IsSuccess(statusCode: int) {
    200 <= statusCode < 300
  }

  /** `req.body?.id` */
  function BodyId(body: Option<Body>): Option<string> {
    if body.Some? && "id" in body.value then Some(body.value["id"]) else None
  }

  /** `req.params.id || req.body?.id || 'unknown'` */
  function ResourceId(r: Request): (id: string)
    ensures Present(r.paramsId) ==> id == r.paramsId.value
    ensures !Present(r.paramsId) && Present(BodyId(r.body)) ==> id == BodyId(r.body).value
    ensures !Present(r.paramsId) && !Present(BodyId(r.body)) ==> id == UNKNOWN_RESOURCE
    ensures id != ""
  {
    if Present(r.paramsId) then r.paramsId.value
    else if Present(BodyId(r.body)) then BodyId(r.body).value
    else UNKNOWN_RESOURCE
  }

  /** `req.user?.userId || 'anonymous'` */
  function Actor(user: Option<Claims>): (u: UserId)
    ensures user.Some? && user.value.userId != "" ==> u == user.value.userId
    ensures user.None? || user.value.userId == "" ==> u == ANONYMOUS
    ensures u != ""
  {
    if user.Some? && user.value.userId != "" then user.value.userId else ANONYMOUS
  }

  /** The entry written for a successful response. */
  function Entry(r: Request, action: string, resourceType: string): AuditEntry {
    AuditEntry(Actor(r.user), action, resourceType, ResourceId(r),
               Details(r.httpMethod, r.path, if action != READ_ACTION then r.body else None),
               r.ip, r.userAgent)
  }

  /** The wrapped `res.send`: the entry to write, if any, and the data
      handed to the original send. */
  function Send<D>(statusCode: int, r: Request, action: string, resourceType: string, data: D)
    : (out: (Option<AuditEntry>, D))
    ensures out.1 == data
    ensures out.0.Some? <==> IsSuccess(statusCode)
    ensures out.0.Some? ==> out.0.value == Entry(r, action, resourceType)
  {
    if 200 <= statusCode && statusCode < 300 then (Some(Entry(r, action, resourceType)), data)
    else (None, data)
  }

  /** An entry names the acting user (or "anonymous"), the action and the
      resource type it was configured with, and a non-empty resource id;
      it carries the request body exactly when the action is not a read. */
  lemma EntryContents(r: Request, action: string, resourceType: string)
    ensures var e := Entry(r, action, resourceType);
      && e.userId != "" && e.resourceId != ""
      && e.action == action && e.resourceType == resourceType
      && (action == READ_ACTION ==> e.details.body.None?)
      && (action != READ_ACTION ==> e.details.body == r.body)
      && (r.user.None? ==> e.userId == ANONYMOUS)
      && e.details.httpMethod == r.httpMethod && e.details.path == r.path
  {
  }

  /** The response is the same whether or not an entry is written: data
      sent with different status codes, requests or configurations is the
      data given. */
  lemma AuditNeverAltersResponse<D>(c1: int, r1: Request, a1: string, t1: string,
                                    c2: int, r2: Request, a2: string, t2: string, data: D)
    ensures Send(c1, r1, a1, t1, data).1 == Send(c2, r2, a2, t2, data).1 == data
  {
  }
}
