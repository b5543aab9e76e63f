/** The emergency alert workflow (src/controllers/emergencyController.ts):
    an alert is raised as active, moves to responding when the first
    responder answers, and is resolved by anyone; respondedBy is kept free
    of duplicates. */
module Emergency {
  import opened Common
  import opened Models

  /** The fields of a createAlert request body. */
  datatype NewAlertRequest = NewAlertRequest(
    title: Option<string>,
    description: Option<string>,
    location: Option<string>,
    priority: Option<CasePriority>,
    assignedTo: Option<seq<UserId>>,
    caseId: Option<Key>,
    patient: Option<string>)

  predicate HasRequiredFields(b: NewAlertRequest) {
    Present(b.title) && Present(b.description)
  }

  /** The alert createAlert stores for a complete request. */
  function NewAlert(b: NewAlertRequest, creator: UserId): EmergencyAlert
    requires HasRequiredFields(b)
  {
    EmergencyAlert(
      b.title.value, b.description.value, b.location,
      OrElse(b.priority, PriorityEmergency), creator,
      OrElse(b.assignedTo, []), [], Active, b.caseId, b.patient, None)
  }

  /** A new alert is active, nobody has responded yet, its priority is the
      requested one or EMERGENCY, its assignees the requested ones or none. */
  lemma NewAlertDefaults(b: NewAlertRequest, creator: UserId)
    requires HasRequiredFields(b)
    ensures var a := NewAlert(b, creator);
      && a.status == Active && a.respondedBy == [] && a.resolvedAt.None?
      && a.createdBy == creator
      && a.title == b.title.value && a.description == b.description.value
      && (b.priority.None? ==> a.priority == PriorityEmergency)
      && (b.priority.Some? ==> a.priority == b.priority.value)
      && (b.assignedTo.None? ==> a.assignedTo == [])
      && (b.assignedTo.Some? ==> a.assignedTo == b.assignedTo.value)
      && AlertWellFormed(a)
  {
  }

  /** The alert after u answers it: u joins respondedBy unless already
      there, and an active alert becomes responding. */
  function Responded(a: EmergencyAlert, u: UserId): EmergencyAlert {
    a.(respondedBy := if u in a.respondedBy then a.respondedBy else a.respondedBy + [u],
       status := if a.status == Active then Responding else a.status)
  }

  /** The alert after it is resolved at time now. */
  function Resolved(a: EmergencyAlert, now: int): EmergencyAlert {
    a.(status := AlertResolved, resolvedAt := Some(now))
  }

  /** The position of a status along active, responding, resolved. */
  function Stage(s: AlertStatus): (n: nat)
    ensures n <= 2
    ensures (n == 0 <==> s == Active) && (n == 2 <==> s == AlertResolved)
  {
    match s
    case Active => 0
    case Responding => 1
    case AlertResolved => 2
  }

  /** Responding records u exactly once, keeps the earlier responders in
      order, moves active to responding and leaves every other status
      (resolved included) and every other field alone. */
  lemma RespondEffect(a: EmergencyAlert, u: UserId)
    requires NoDup(a.respondedBy)
    ensures var r := Responded(a, u);
      && u in r.respondedBy
      && NoDup(r.respondedBy)
      && Count(r.respondedBy, u) == 1
      && r.respondedBy[..|a.respondedBy|] == a.respondedBy
      && |r.respondedBy| == |a.respondedBy| + (if u in a.respondedBy then 0 else 1)
      && (forall v :: v in r.respondedBy <==> v in a.respondedBy || v == u)
      && (a.status == Active ==> r.status == Responding)
      && (a.status != Active ==> r.status == a.status)
      && r.(respondedBy := a.respondedBy, status := a.status) == a
  {
    var r := Responded(a, u);
    NoDupCountOne(r.respondedBy, u);
  }

  /** In a duplicate-free list, a member occurs exactly once. */
  lemma {:induction false} NoDupCountOne<T>(s: seq<T>, x: T)
    requires NoDup(s) && x in s
    ensures Count(s, x) == 1
    decreases |s|
  {
    if s[0] == x {
      assert x !in s[1..] by {
        forall j | 0 <= j < |s[1..]| ensures s[1..][j] != x {
          assert s[1..][j] == s[j + 1];
        }
      }
      CountZeroIffAbsent(s[1..], x);
    } else {
      assert x in s[1..] by {
        var k :| 0 <= k < |s| && s[k] == x;
        assert s[1..][k - 1] == x;
      }
      NoDupCountOne(s[1..], x);
    }
  }

  /** Responding twice is the same as responding once. */
  lemma RespondIdempotent(a: EmergencyAlert, u: UserId)
    ensures Responded(Responded(a, u), u) == Responded(a, u)
  {
  }

  /** Respond and resolve keep an alert well formed and never move it back
      along active, responding, resolved; a resolved alert stays resolved. */
  lemma StepsKeepWellFormed(a: EmergencyAlert, u: UserId, now: int)
    requires AlertWellFormed(a)
    ensures AlertWellFormed(Responded(a, u)) && AlertWellFormed(Resolved(a, now))
    ensures Stage(a.status) <= Stage(Responded(a, u).status)
    ensures Stage(a.status) <= Stage(Resolved(a, now).status)
    ensures a.status == AlertResolved ==> Responded(a, u).status == AlertResolved
  {
    RespondEffect(a, u);
  }

  /** createAlert: 400 without a title or description, otherwise the new
      alert is stored under a key no alert has yet. */
  method CreateAlert(db: Database, requester: UserId, body: NewAlertRequest, key: Key)
    returns (status: int)
    requires db.Valid() && key !in db.alerts
    modifies db`alerts
    ensures db.Valid()
    ensures status == (if HasRequiredFields(body) then CREATED else BAD_REQUEST)
    ensures status == BAD_REQUEST ==> db.alerts == old(db.alerts)
    ensures status == CREATED ==> db.alerts == old(db.alerts)[key := NewAlert(body, requester)]
  {
    if !HasRequiredFields(body) {
      return BAD_REQUEST;
    }
    var alert := EmergencyAlert(
      body.title.value, body.description.value, body.location,
      OrElse(body.priority, PriorityEmergency), requester,
      OrElse(body.assignedTo, []), [], Active, body.caseId, body.patient, None);
    db.alerts := db.alerts[key := alert];
    status := CREATED;
  }

  /** respondToAlert: 404 for an unknown alert; otherwise the caller is
      recorded as a responder and an active alert becomes responding. */
  method RespondToAlert(db: Database, requester: UserId, key: Key)
    returns (status: int)
    requires db.Valid()
    modifies db`alerts
    ensures db.Valid()
    ensures status == (if key in old(db.alerts) then OK else NOT_FOUND)
    ensures status == NOT_FOUND ==> db.alerts == old(db.alerts)
    ensures status == OK ==> db.alerts == old(db.alerts)[key := Responded(old(db.alerts)[key], requester)]
  {
    if key !in db.alerts {
      return NOT_FOUND;
    }
    var alert := db.alerts[key];
    StepsKeepWellFormed(alert, requester, 0);
    if requester !in alert.respondedBy {
      alert := alert.(respondedBy := alert.respondedBy + [requester]);
    }
    if alert.status == Active {
      alert := alert.(status := Responding);
    }
    db.alerts := db.alerts[key := alert];
    status := OK;
  }

  /** resolveAlert: 404 for an unknown alert; otherwise it is resolved at
      time now, whatever its status was. */
  method ResolveAlert(db: Database, key: Key, now: int)
    returns (status: int)
    requires db.Valid()
    modifies db`alerts
    ensures db.Valid()
    ensures status == (if key in old(db.alerts) then OK else NOT_FOUND)
    ensures status == NOT_FOUND ==> db.alerts == old(db.alerts)
    ensures status == OK ==> db.alerts == old(db.alerts)[key := Resolved(old(db.alerts)[key], now)]
  {
    if key !in db.alerts {
      return NOT_FOUND;
    }
    var alert := db.alerts[key];
    StepsKeepWellFormed(alert, "", now);
    alert := alert.(status := AlertResolved);
    alert := alert.(resolvedAt := Some(now));
    db.alerts := db.alerts[key := alert];
    status := OK;
  }

  /** deleteAlert: 404 for an unknown alert; otherwise it is removed. */
  method DeleteAlert(db: Database, key: Key)
    returns (status: int)
    requires db.Valid()
    modifies db`alerts
    ensures db.Valid()
    ensures status == (if key in old(db.alerts) then OK else NOT_FOUND)
    ensures db.alerts == old(db.alerts) - {key}
  {
    if key !in db.alerts {
      return NOT_FOUND;
    }
    db.alerts := db.alerts - {key};
    status := OK;
  }
}
