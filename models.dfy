/** The Mongo collections the controllers read and write (the Mongoose models under src/models),
    as one database object whose fields are maps from document id to
    document value. A handler loads a document, changes fields of it and
    saves it back; here that is one update of the map entry. */
module Models {
  import opened Common

  /** A Mongo document id. */
  type Key = string

  /** One row of a medical record's `accessControl` list. */
  datatype Grant = Grant(userId: UserId, accessLevel: RecordAccessLevel, grantedBy: UserId, grantedAt: int)

  /** What EncryptionService.encrypt returns: ciphertext, nonce and tag. The
      cipher itself is not modelled. */
  datatype Envelope = Envelope(encryptedData: string, iv: string, authTag: string)

  datatype MedicalRecord = MedicalRecord(
    patient: string,
    caseId: Option<Key>,
    recordType: string,
    title: string,
    content: string,
    encryptedData: Option<Envelope>,
    attachments: seq<string>,
    createdBy: UserId,
    accessControl: seq<Grant>)

  /** At most one grant row per user. */
  predicate UniqueGrantees(acl: seq<Grant>) {
    forall i, j :: 0 <= i < j < |acl| ==> acl[i].userId != acl[j].userId
  }

  datatype AlertStatus = Active | Responding | AlertResolved

  datatype EmergencyAlert = EmergencyAlert(
    title: string,
    description: string,
    location: Option<string>,
    priority: CasePriority,
    createdBy: UserId,
    assignedTo: seq<UserId>,
    respondedBy: seq<UserId>,
    status: AlertStatus,
    caseId: Option<Key>,
    patient: Option<string>,
    resolvedAt: Option<int>)

  /** respondedBy is used as a set, and an alert carries a resolution time
      exactly when it is resolved. */
  predicate AlertWellFormed(a: EmergencyAlert) {
    && NoDup(a.respondedBy)
    && (a.status == AlertResolved <==> a.resolvedAt.Some?)
  }

  datatype Referral = Referral(
    caseId: Key,
    patient: string,
    fromProvider: UserId,
    toProvider: UserId,
    reason: string,
    urgency: CasePriority,
    notes: Option<string>,
    status: ReferralStatus,
    responseNotes: Option<string>,
    respondedAt: Option<int>,
    completedAt: Option<int>)

  /** The timestamps of a referral agree with its status. */
  predicate ReferralWellFormed(r: Referral) {
    && (r.status == Pending ==> r.respondedAt.None? && r.completedAt.None?)
    && (r.status == Accepted || r.status == Rejected ==> r.respondedAt.Some?)
    && (r.status == Completed ==> r.completedAt.Some?)
  }

  datatype Case = Case(
    caseId: string,
    patient: string,
    title: string,
    description: string,
    status: CaseStatus,
    priority: CasePriority,
    symptoms: seq<string>,
    assignedTo: seq<UserId>,
    createdBy: UserId,
    diagnosis: Option<string>,
    treatment: Option<string>,
    notes: Option<string>)

  datatype Message = Message(
    id: Key,
    sender: UserId,
    senderName: string,
    text: string,
    timestamp: int,
    isEdited: bool)

  datatype Discussion = Discussion(messages: seq<Message>, participants: seq<UserId>)

  class Database {
    var records: map<Key, MedicalRecord>
    var alerts: map<Key, EmergencyAlert>
    var referrals: map<Key, Referral>
    var cases: map<Key, Case>
    /** Discussions, keyed by the key of their case (`case` is unique). */
    var discussions: map<Key, Discussion>

    /** The invariants every handler keeps. */
    ghost predicate Valid()
      reads this
    {
      && (forall k :: k in records ==> UniqueGrantees(records[k].accessControl))
      && (forall k :: k in alerts ==> AlertWellFormed(alerts[k]))
      && (forall k :: k in referrals ==> ReferralWellFormed(referrals[k]))
      && discussions.Keys <= cases.Keys
    }

    constructor ()
      ensures Valid()
      ensures records == map[] && alerts == map[] && referrals == map[]
      ensures cases == map[] && discussions == map[]
    {
      records, alerts, referrals := map[], map[], map[];
      cases, discussions := map[], map[];
    }
  }
}
