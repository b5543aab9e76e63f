/** Shared vocabulary of the healthcare collaboration backend: identities,
    the enumerations of src/types/index.ts, optional request fields with
    JavaScript truthiness, HTTP status codes, the decoded token claims and
    the payloads carried by live socket events. */
module Common {

  /** A healthcare worker's id (a Mongo id string). */
  type UserId = string

  datatype Option<T> = None | Some(value: T)

  datatype Result<T, E> = Ok(value: T) | Err(error: E)

  /** JavaScript truthiness of an optional string taken from a request:
      a missing field and the empty string are both falsy. */
  predicate Present(field: Option<string>) {
    field.Some? && field.value != ""
  }

  /** `field || fallback` for a field whose present values are all truthy
      (arrays and enumeration strings). */
  function OrElse<T>(field: Option<T>, fallback: T): T {
    if field.Some? then field.value else fallback
  }

  datatype UserRole = Doctor | Nurse | Admin | Specialist | Paramedic

  datatype CaseStatus = Open | InProgress | PendingReferral | Resolved | Closed

  datatype CasePriority = PriorityEmergency | Urgent | Routine | Low

  datatype ReferralStatus = Pending | Accepted | Rejected | Completed

  datatype RecordAccessLevel = Owner | SharedFull | SharedLimited | EmergencyAccess

  const OK: int := 200
  const CREATED: int := 201
  const BAD_REQUEST: int := 400
  const UNAUTHORIZED: int := 401
  const FORBIDDEN: int := 403
  const NOT_FOUND: int := 404

  /** The claims a verified bearer token decodes to. */
  datatype Claims = Claims(userId: UserId, email: string, role: UserRole)

  /** What a lookup of a healthcare worker by id tells the gates. */
  datatype Account = Account(isActive: bool)

  /** The category of a notification. */
  datatype NotificationKind = CaseNotice | ReferralNotice | EmergencyNotice | MessageNotice | SystemNotice

  /** The reference a notification carries in its `data` field. */
  datatype NoticeData = NoData | CaseRef(caseId: string) | ReferralRef(referralId: string) | AlertRef(alertId: string)

  /** A notification of a user's queue (src/services/notificationService.ts:4-13). */
  datatype Notification = Notification(
    id: string,
    userId: UserId,
    kind: NotificationKind,
    title: string,
    message: string,
    data: NoticeData,
    read: bool,
    createdAt: int)

  /** The payload of a live socket event. */
  datatype Payload =
    | PresencePayload(userId: UserId)
    | NotificationPayload(notification: Notification)
    | AlertPayload(alertId: string, title: string)

  /** Array.prototype.findIndex: the first index whose element satisfies p, or -1. */
  function FindIndex<T>(s: seq<T>, p: T -> bool): (i: int)
    ensures -1 <= i < |s|
    ensures i == -1 <==> forall j :: 0 <= j < |s| ==> !p(s[j])
    ensures 0 <= i ==> p(s[i]) && forall j :: 0 <= j < i ==> !p(s[j])
    decreases |s|
  {
    if s == [] then -1
    else if p(s[0]) then 0
    else
      var j := FindIndex(s[1..], p);
      if j == -1 then -1 else j + 1
  }

  /** Number of occurrences of x in s. */
  function Count<T(==)>(s: seq<T>, x: T): nat
    decreases |s|
  {
    if s == [] then 0 else (if s[0] == x then 1 else 0) + Count(s[1..], x)
  }

  lemma {:induction false} CountAppend<T>(s: seq<T>, t: seq<T>, x: T)
    ensures Count(s + t, x) == Count(s, x) + Count(t, x)
    decreases |s|
  {
    if s == [] {
      assert s + t == t;
    } else {
      assert (s + t)[1..] == s[1..] + t;
      CountAppend(s[1..], t, x);
    }
  }

  lemma {:induction false} CountZeroIffAbsent<T>(s: seq<T>, x: T)
    ensures Count(s, x) == 0 <==> x !in s
    decreases |s|
  {
    if s != [] {
      CountZeroIffAbsent(s[1..], x);
      assert s == [s[0]] + s[1..];
    }
  }

  /** A prefix is the shorter prefix followed by one element. */
  lemma TakeSnoc<T>(s: seq<T>, k: nat)
    requires 0 < k <= |s|
    ensures s[..k] == s[..k - 1] + [s[k - 1]]
  {
  }

  lemma AppendAssoc<T>(a: seq<T>, b: seq<T>, c: seq<T>)
    ensures a + (b + c) == (a + b) + c
  {
  }

  /** No element occurs twice. */
  predicate NoDup<T(==)>(s: seq<T>) {
    forall i, j :: 0 <= i < j < |s| ==> s[i] != s[j]
  }

  /** s with the element at index i taken out (Array.prototype.splice(i, 1)). */
  function RemoveAt<T>(s: seq<T>, i: nat): (r: seq<T>)
    requires i < |s|
    ensures |r| == |s| - 1
    ensures multiset(r) + multiset{s[i]} == multiset(s)
    ensures forall j :: 0 <= j < i ==> r[j] == s[j]
    ensures forall j :: i <= j < |r| ==> r[j] == s[j + 1]
  {
    assert s == s[..i] + [s[i]] + s[i + 1..];
    s[..i] + s[i + 1..]
  }
}
