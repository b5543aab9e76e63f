# Syncly core in Dafny

Syncly is a healthcare collaboration backend: an Express/Mongoose/Redis/socket.io
server through which doctors, nurses and paramedics share medical records, work
cases, refer patients to each other, raise emergency alerts and talk in case
discussions. This project models the in-memory logic behind those handlers and
proves properties about it. The Mongo collections, the Redis lists and the
socket.io registry become Dafny state. Each handler becomes one atomic step on
that state.

| file | module | what it models |
|---|---|---|
| `common.dfy` | `Common` | The enumerations of `src/types/index.ts`, identities, JavaScript truthiness of request fields (`Present`, `OrElse`), HTTP status codes, notifications and live-event payloads, and `findIndex`, `splice` and counting on sequences |
| `models.dfy` | `Models` | The Mongoose documents (medical record with its grant list, emergency alert, referral, case, discussion) as datatypes. A `Database` class holds one map per collection and the invariants every handler keeps |
| `medical_records.dfy` | `MedicalRecords` | Disclosure control: the OWNER grant made at creation, the read gate, `shareRecord`, `revokeAccess` and the encryption envelope |
| `notifications.dfy` | `Notifications` | `NotificationService`: the per-user notification lists (newest first), the store-up flag, and the hand-overs to the socket service |
| `sockets.dfy` | `Sockets` | `SocketService`: the handshake gate, the `userSockets` map, presence queries, and the log of emitted events |
| `emergency.dfy` | `Emergency` | Emergency alerts: active → responding → resolved, with a duplicate-free `respondedBy` |
| `referrals.dfy` | `Referrals` | Referral creation, answer and completion, and their effect on the referred case |
| `discussions.dfy` | `Discussions` | Posting and deleting messages in a case discussion |
| `cases.dfy` | `Cases` | Case creation with its discussion, field stripping on update, assignment, and deletion |
| `auth.dfy` | `Auth` | The `authenticate` and `authorize` middleware as pure decision functions |
| `audit.dfy` | `Audit` | The audit-logging decision and the entry built inside the wrapped `res.send` |

Modelling conventions:

- Handlers are methods on a `Database` or on a service object. Each method's
  frame names exactly the collections or fields the handler writes.
- Each method's `ensures` gives the HTTP status for every input and the new
  state as a function of the old one. The lemmas beside each function prove
  what the source promises about that function: effects, invariants kept,
  round trips and idempotence.
- Generated ids, `new Date()`, token verification, account lookup and
  encryption are parameters. A verifier or lookup that fails is `None`.
- The invariant `Database.Valid` holds at the start and end of every handler:
  - at most one grant row per user on every record;
  - every alert's `respondedBy` is duplicate-free, and the alert carries
    `resolvedAt` exactly when it is resolved;
  - every referral's timestamps agree with its status;
  - no discussion exists without its case.
- `NotificationService.Valid` requires each stored list to be non-empty and
  to hold only its own user's notifications.
- `SocketService.Valid` requires that no user maps to an empty socket list.

Where the specification and the code disagree, the model follows the code:

- The specification calls the OWNER grant immutable. `shareRecord`
  (`src/controllers/medicalRecordController.ts:164-182`) accepts the OWNER
  level and lets the owner overwrite their own row. `ShareCanGrantOwnership`
  and `ShareCanDemoteOwner` prove both behaviours. OWNER rows are proved
  immutable only under revocation (`RevokeEffect`).
- The specification says `getUserNotifications` returns at most `limit`
  items. The code asks Redis for `LRANGE key 0 limit-1`. A limit of 0 gives
  stop −1, which Redis reads as "to the end", so the whole list comes back.
  `LRangeZeroLimitReadsAll` proves this.

## Model

| member | source | states |
|---|---|---|
| MedicalRecords.CreateRecord | src/controllers/medicalRecordController.ts:10-46 | 400 and no change when patient, record type, title or content is missing; otherwise exactly the new record is stored under the fresh key and the grant invariant is kept |
| MedicalRecords.NewRecordDisclosure | src/controllers/medicalRecordController.ts:17-44 | a new record has one grant row, the creator's OWNER row granted by the creator; only the creator has access and owns it; an encrypted record stores the placeholder and the envelope, an unencrypted one the content and no envelope |
| MedicalRecords.GetRecordById | src/controllers/medicalRecordController.ts:95-130 | 404 for an unknown record, 403 exactly when no grant row names the caller, otherwise the record; decrypted content is attached to the record only when decryption is asked for and an envelope exists, and a failed decryption leaves it absent |
| MedicalRecords.ShareRecord | src/controllers/medicalRecordController.ts:140-186 | 400/404/403 as an if-and-only-if over the inputs with no change; 403 unless the caller holds an OWNER row; on success the grant list becomes `Shared(...)` and at most one row per user remains |
| MedicalRecords.ShareEffect | src/controllers/medicalRecordController.ts:164-182 | after sharing the grantee's level is the requested one, every other user's level and access are unchanged, and a row is appended only when the grantee had none |
| MedicalRecords.ShareRow | src/controllers/medicalRecordController.ts:164-182 | the grantee's first row after sharing is exactly the new grant (level, grantor, time), at the position of its old first row, or at the end when there was none |
| MedicalRecords.ShareKeepsUniqueGrantees | src/controllers/medicalRecordController.ts:164-182 | sharing keeps at most one grant row per user |
| MedicalRecords.ShareCanDemoteOwner | src/controllers/medicalRecordController.ts:165-173 | as written, an owner sharing a non-OWNER level with themself loses ownership |
| MedicalRecords.ShareCanGrantOwnership | src/controllers/medicalRecordController.ts:142-181 | as written, sharing the OWNER level makes the grantee an owner |
| MedicalRecords.RevokeAccess | src/controllers/medicalRecordController.ts:196-227 | 400/404/403 as an if-and-only-if with no change; on success the grant list becomes `Revoked(...)` and the grant invariant is kept |
| MedicalRecords.Revoked | src/controllers/medicalRecordController.ts:220-223 | a row survives exactly when it names another user or is an OWNER row, and the list never grows |
| MedicalRecords.RevokedAppend | src/controllers/medicalRecordController.ts:221-223 | revocation filters each part of a list independently, so the surviving rows keep their order |
| MedicalRecords.RevokeEffect | src/controllers/medicalRecordController.ts:220-223 | the owners are exactly those before; the target keeps access only if it owns the record; every other user's access is unchanged |
| MedicalRecords.RevokeAbsentIsNoop | src/controllers/medicalRecordController.ts:221-223 | revoking a user without a grant row leaves the list unchanged |
| MedicalRecords.RevokeIdempotent | src/controllers/medicalRecordController.ts:221-223 | revoking twice is revoking once |
| MedicalRecords.RevokeKeepsUniqueGrantees | src/controllers/medicalRecordController.ts:221-223 | revocation keeps at most one grant row per user |
| Notifications.NotificationService.constructor | src/services/notificationService.ts:19-36 | after initialize the socket service is attached, the store is up exactly when the connection succeeded, the lists already in the store are kept as they were, and no hand-over exists yet |
| Notifications.NotificationService.CreateNotification | src/services/notificationService.ts:38-63 | the returned notification has the caller's fields, the given id and time, and read false; it is pushed at the head of its user's list only when the store is up, and handed to the socket service either way |
| Notifications.QueueOfPushed | src/services/notificationService.ts:49-50 | LPUSH puts the notification at the head of its own user's list and changes no other list |
| Notifications.NotificationService.GetUserNotifications | src/services/notificationService.ts:65-79 | empty when the store is down; always a prefix of the user's list; of length min(limit, n) for a limit of at least one; the whole list for limit 0 |
| Notifications.LRangeFromHead | src/services/notificationService.ts:72 | LRANGE 0 stop returns a prefix of the list |
| Notifications.LRangeLimit | src/services/notificationService.ts:72 | for a limit of at least one the read is the first min(limit, n) notifications |
| Notifications.LRangeZeroLimitReadsAll | src/services/notificationService.ts:72 | a limit of 0 reads the whole list |
| Notifications.NotificationService.MarkAsRead | src/services/notificationService.ts:81-102 | with the store up and a list present, the list becomes `MarkedRead(list, id)`; otherwise nothing changes |
| Notifications.MarkedReadEffect | src/services/notificationService.ts:90-98 | only read flags change, and only at the first entry with the id; that entry becomes read; the length is kept; with no match nothing changes |
| Notifications.MarkedReadIdempotent | src/services/notificationService.ts:90-98 | marking the same id twice is marking it once |
| Notifications.MarkedReadUnread | src/services/notificationService.ts:90-98 | the unread count drops by one exactly when the first entry with the id was unread |
| Notifications.NotificationService.MarkAllAsRead | src/services/notificationService.ts:104-125 | with the store up and a list present, the list becomes `AllRead(list)`: same entries, same order; otherwise nothing changes |
| Notifications.AllRead | src/services/notificationService.ts:115-119 | same length, and each entry is the original with read set |
| Notifications.AllReadNothingUnread | src/services/notificationService.ts:115-119 | after markAllAsRead the unread count is 0 |
| Notifications.NotificationService.DeleteNotification | src/services/notificationService.ts:127-147 | with the store up and a list present, the list becomes `Deleted(list, id)`, and an emptied list disappears; otherwise nothing changes |
| Notifications.LRemFirst | src/services/notificationService.ts:140 | LREM key 1 v shortens the list by one exactly when v occurs in it |
| Notifications.LRemFirstAt | src/services/notificationService.ts:140 | LREM of an element that does not occur earlier removes exactly its position |
| Notifications.LRemFirstIsDeleted | src/services/notificationService.ts:137-143 | LREM of the first entry with the id removes exactly that position, which is what `Deleted` does |
| Notifications.DeletedEffect | src/services/notificationService.ts:136-143 | an absent id changes nothing; otherwise exactly one entry with the id goes, and the rest keep their multiplicities |
| Notifications.CountUnread | src/services/notificationService.ts:158 | at most the list length, and 0 exactly when every entry is read |
| Notifications.NotificationService.GetUnreadCount | src/services/notificationService.ts:149-163 | 0 when the store is down; otherwise at most the list length, and 0 exactly when every entry is read |
| Notifications.NotificationService.NotifyNewCase | src/services/notificationService.ts:166-174 | one case notification with the fixed title and the case title in its message, pushed and handed over as createNotification does |
| Notifications.NotificationService.NotifyNewReferral | src/services/notificationService.ts:176-184 | one referral notification with the fixed title and message, pushed and handed over as createNotification does |
| Notifications.NotificationService.NotifyNewMessage | src/services/notificationService.ts:203-211 | one message notification naming the sender, pushed and handed over as createNotification does |
| Notifications.EmergencyNotices | src/services/notificationService.ts:187-195 | one unread emergency notification per listed user, in list order, carrying the alert title and id |
| Notifications.NotificationService.NotifyEmergencyAlert | src/services/notificationService.ts:186-201 | the store becomes the listed notifications pushed in turn; the hand-overs are one live push per user in list order, then one emergency broadcast |
| Notifications.PushFirstQueue | src/services/notificationService.ts:187-195 | after pushing in turn, each user's list starts with that user's new notifications, newest first, followed by what it held before |
| Sockets.ReplaceFirstPrefix | src/services/socketService.ts:30 | a header starting with "Bearer " yields the rest of the header as the token |
| Sockets.ReplaceFirstAbsent | src/services/socketService.ts:30 | a header without "Bearer " anywhere is taken whole as the token |
| Sockets.Handshake | src/services/socketService.ts:28-51 | success exactly when a token is present, verifies, and names an active account; the attached claims are the verified ones; a missing token and a failed verification each give their own error |
| Sockets.SocketService.constructor | src/services/socketService.ts:13 | no sockets are tracked and nothing has been emitted |
| Sockets.SocketService.OnConnection | src/services/socketService.ts:58-66 | for a socket with a user, its id is appended to that user's list and user:online is broadcast on every connection; otherwise nothing changes |
| Sockets.ConnectEffect | src/services/socketService.ts:59-62 | connecting appends the socket to the user's list, changes no other user, and keeps every list non-empty |
| Sockets.SocketService.OnDisconnect | src/services/socketService.ts:127-138 | the socket is filtered out of the user's list; user:offline is broadcast exactly when the user's key is gone afterwards |
| Sockets.Without | src/services/socketService.ts:129 | the filtered list holds exactly the other socket ids and is no longer |
| Sockets.DisconnectEffect | src/services/socketService.ts:127-137 | the user's list loses the socket; the user stays online exactly when another socket of theirs is tracked; no other user changes; no list is empty |
| Sockets.ConnectDisconnectRoundTrip | src/services/socketService.ts:60-137 | connecting a fresh socket and then disconnecting it restores the map |
| Sockets.FanOut | src/services/socketService.ts:151-153 | one event per socket, addressed to that socket, in list order |
| Sockets.SocketService.EmitToUser | src/services/socketService.ts:148-155 | the log grows by one event per tracked socket of the user, and by nothing for an untracked user |
| Sockets.SocketService.EmitEmergencyAlert | src/services/socketService.ts:157-159 | exactly one emergency:alert event to the emergency room |
| Sockets.SocketService.IsUserOnline | src/services/socketService.ts:173-175 | online exactly when at least one socket of the user is tracked |
| Sockets.SocketService.GetOnlineUsers | src/services/socketService.ts:169-171 | exactly the tracked users, each once |
| Emergency.CreateAlert | src/controllers/emergencyController.ts:9-29 | 400 and no change without a title or description; otherwise exactly the new alert is stored |
| Emergency.NewAlertDefaults | src/controllers/emergencyController.ts:16-27 | a new alert is active and has no responders and no resolution time; priority defaults to EMERGENCY and assignees to none; the alert is well formed |
| Emergency.RespondToAlert | src/controllers/emergencyController.ts:94-115 | 404 and no change for an unknown alert; otherwise the alert becomes `Responded(alert, caller)` and stays well formed |
| Emergency.RespondEffect | src/controllers/emergencyController.ts:103-111 | the responder is recorded exactly once; earlier responders keep their order; active becomes responding and every other status, resolved included, is kept; no other field changes |
| Emergency.RespondIdempotent | src/controllers/emergencyController.ts:103-111 | responding twice is responding once |
| Emergency.StepsKeepWellFormed | src/controllers/emergencyController.ts:103-134 | respond and resolve keep an alert well formed and never move it back from responding or resolved |
| Emergency.ResolveAlert | src/controllers/emergencyController.ts:124-138 | 404 and no change for an unknown alert; otherwise it is resolved at the given time from any status |
| Emergency.DeleteAlert | src/controllers/emergencyController.ts:147-156 | 404 for an unknown alert; the alert is gone afterwards and nothing else changes |
| Referrals.NewReferral | src/controllers/referralController.ts:24-33 | a new referral is pending, sent by the requester to the named provider for the named case, routine unless an urgency is given (the schema default of src/models/Referral.ts:34-38), and well formed |
| Referrals.CreateReferral | src/controllers/referralController.ts:10-40 | 400 when case, patient, recipient or reason is missing; 404 for an unknown case; neither changes anything; otherwise the referral is stored and the case becomes pending referral |
| Referrals.RespondToReferral | src/controllers/referralController.ts:107-142 | 400 for any answer other than accepted or rejected, 404 for an unknown referral, 403 unless the caller is the recipient, each with no change; otherwise the referral is answered, and on acceptance the existing case gains the caller and goes in progress |
| Referrals.AnswerEffect | src/controllers/referralController.ts:128-130 | an answer overwrites exactly status, response notes and response time, whatever the previous status, and keeps the referral well formed |
| Referrals.AcceptEffect | src/controllers/referralController.ts:135-140 | accepting pushes the responder onto the assignees once more, even when already there; earlier assignees keep their order; the case goes in progress |
| Referrals.CompleteReferral | src/controllers/referralController.ts:151-172 | 404 for an unknown referral, 403 unless the caller is sender or recipient, each with no change; otherwise the referral is completed at the given time |
| Referrals.CompleteEffect | src/controllers/referralController.ts:167-168 | completion from any status changes only status and completion time and keeps the referral well formed |
| Discussions.AddMessage | src/controllers/discussionController.ts:28-70 | 400 for an empty message, 404 for an unknown case, neither changing anything; otherwise the message is posted on the case's discussion, which is created with the poster as its only participant when missing |
| Discussions.PostedEffect | src/controllers/discussionController.ts:55-66 | exactly one message is appended and earlier ones are kept; the sender becomes a participant, added once only when absent; nobody else's count changes; a duplicate-free participant list stays duplicate-free |
| Discussions.DeleteMessage | src/controllers/discussionController.ts:79-106 | 404 without a discussion or a message with the id, 403 unless the caller sent the first such message, each with no change; 200 exactly when the caller sent the first such message, and then exactly that message is spliced out |
| Discussions.PostThenDelete | src/controllers/discussionController.ts:88-103 | deleting a just-posted message with a fresh id finds it at the end and restores the earlier messages |
| Cases.CreateCase | src/controllers/caseController.ts:10-35 | 400 and no change without patient, title or description; otherwise the case and its discussion are stored under the same fresh key |
| Cases.NewCaseDefaults | src/controllers/caseController.ts:17-33 | a new case is open and created by the requester; it is routine, has no symptoms and is assigned to the requester unless these are given; its discussion has no messages and lists the creator first, then the given assignees, so the creator appears twice when they list themself |
| Cases.UpdateCase | src/controllers/caseController.ts:100-120 | 404 and no change for an unknown case; otherwise the stripped body is set on the case |
| Cases.UpdateKeepsIdentity | src/controllers/caseController.ts:103-110 | an update never changes the display id or the creator; named fields take the new values and the others keep theirs; applying it twice is applying it once |
| Cases.AssignCase | src/controllers/caseController.ts:129-154 | 400 unless assignedTo is an array, 404 for an unknown case, each with no change; otherwise the case's assignees and, when it exists, the discussion's participants both become the given list |
| Cases.DeleteCase | src/controllers/caseController.ts:163-175 | 404 and no change for an unknown case; otherwise the case and its discussion are both removed |
| Auth.BearerToken | src/middleware/auth.ts:22-27 | a token exists exactly when the header starts with "Bearer ", and the header is "Bearer " followed by the token |
| Auth.BearerRoundTrip | src/middleware/auth.ts:27 | parsing "Bearer " + t gives t back |
| Auth.Authenticate | src/middleware/auth.ts:14-42 | every refusal is 401; the request passes exactly when the header carries a bearer token that verifies and names an active account; the attached user is the decoded claims |
| Auth.NoBearerNoLookup | src/middleware/auth.ts:22-25 | without a bearer header the answer is 401 whatever the verifier and the account lookup would say |
| Auth.OnlyTheTokenUserIsLookedUp | src/middleware/auth.ts:28-35 | the outcome depends on the account lookup only at the user the token names |
| Auth.Authorize | src/middleware/auth.ts:44-57 | 401 exactly when there is no user, 403 exactly when the role is not listed, otherwise next with the same user |
| Auth.GatesInSequence | src/middleware/auth.ts:14-57 | the two gates together admit exactly an authenticated caller with a listed role; they answer 401 when authentication fails and 403 when only the role is missing |
| Audit.ResourceId | src/middleware/auditLogger.ts:12 | params.id when truthy, else body.id when truthy, else "unknown" |
| Audit.Actor | src/middleware/auditLogger.ts:15 | the caller's id when there is one, else "anonymous" |
| Audit.Send | src/middleware/auditLogger.ts:9-30 | the data goes to the original send unchanged; an entry is produced exactly when the status is in [200, 300) |
| Audit.EntryContents | src/middleware/auditLogger.ts:12-25 | the entry records the actor, the configured action and resource type, a non-empty resource id, and the request body exactly when the action is not a read |

## Left out

- Mongoose schema validation, `populate`, the `try`/`catch` answering 500 on an
  exception, and database I/O failures. Each handler is one atomic step that
  either refuses with the status shown or succeeds.
- Concurrency between handlers. For example, `markAllAsRead` deletes and then
  re-pushes a list, so a notification created in between can be lost. No
  race-freedom is claimed.
- AES-256-GCM encryption and decryption, JWT verification and bcrypt are
  foreign libraries. They are function parameters: `encrypt` returns an
  envelope, `decrypt` may fail (`None`), `verify` may refuse (`None`).
- The JSON serialisation of the encryption envelope into one string is not
  modelled. The envelope is stored as a value.
- Generated ids (`Date.now()`/`Math.random()` ids, Mongo `_id`s, the case
  display id) and timestamps are parameters. The caller supplies a key not
  yet used.
- Redis key expiry (`expire`), connection set-up and the offline command
  queue are left out. A failed connection and a store whose calls all fail
  are both the single `storeUp == false` state. Failures of individual
  Redis calls on a working connection are not modelled.
- Notifications.NotificationService: LREM in Redis compares serialised JSON
  strings. The model compares notification values, which agree when
  serialisation is injective.
- Notifications.NotificationService: the service records its hand-overs to
  the socket service in `outbox` instead of calling a `SocketService` object.
  What `emitToUser` does with one hand-over is `Sockets.SocketService.EmitToUser`.
  The two are not composed into one heap.
- Notifications.NotificationService.constructor: models the state after
  `initialize`. The state before `initialize`, with neither store nor socket
  service, is not a separate state. `initialize` does not clear Redis, so the
  lists already stored are a parameter and are kept as given.
- socket.io rooms and their join/leave handlers, CORS, and `emitToCase`,
  `emitReferralNotification` and `broadcastNotification` are library
  plumbing with no state of their own. The emergency room is recorded by
  name only.
- Sockets.SocketService.GetOnlineUsers: states the set of users and that
  none repeats. It does not state the Map's insertion order.
- The query-building, pagination and sorting read handlers (`getAlerts`,
  `getReferrals`, `getCases`, `getDiscussion`, ...) are left out because they
  are Mongo query semantics.
- The patient, auth and notification controllers are left out because they
  are pass-throughs to Mongoose, bcrypt, JWT and `NotificationService`. The
  routes, `app.ts`, `index.ts` and the swagger documents are wiring.
- Request bodies are typed: enumeration fields are `Option` of the
  enumeration, and strings outside an enumeration are outside the model.
  What the source does with them differs by handler: `respondToReferral`
  answers 400 itself for any status other than ACCEPTED or REJECTED
  (src/controllers/referralController.ts:109-111), which is the model's
  `None` case; `shareRecord` lets such an `accessLevel` past its 400 check
  (src/controllers/medicalRecordController.ts:141-144) and through the 404
  and 403 checks, and the save then fails schema validation with 500; the
  create and update handlers likewise end in 500 on save. `Audit.Body`
  keeps only string-valued top-level fields.
- String fields are stored as given: the schema's `trim` on titles
  (src/models/Case.ts:27, src/models/EmergencyAlert.ts:13,
  src/models/MedicalRecord.ts:27) is not modelled.
- The display ids (caseId, alertId, recordId, referralId) are parameters
  stored on create, or left out for referrals. In the schemas they are
  `required: true` but are assigned only in `pre('save')` hooks
  (src/models/Case.ts:72-77, src/models/EmergencyAlert.ts:61-66,
  src/models/MedicalRecord.ts:72-77, src/models/Referral.ts:61-66). Mongoose validates before running save
  hooks, so, read as written, these creates would fail validation and
  answer 500. This is read from the schema and hook definitions alone; the
  model follows the evident intent that each create stores its document.
- MedicalRecords.GetRecordById: the model follows the evident intent that
  the decrypted content reaches the caller with the record. As written, the
  handler sets `decryptedContent` as an extra property on the Mongoose
  document (src/controllers/medicalRecordController.ts:124), which is not a
  path of the schema in src/models/MedicalRecord.ts, and answers with
  `res.json({ record })` (line 130); `toJSON` serialises schema paths only,
  so read from the code alone the decrypted content would not be sent.
- Sockets.Handshake: a lookup that throws (for example a malformed user id
  in otherwise valid claims) lands in the handler's `catch` and fails with
  "Invalid token" (src/services/socketService.ts:47-49). The model's
  `lookup` cannot throw: its `None` is "no such user" and always gives
  `InvalidUser`.
- Audit.Send: the asynchronous `AuditLog.create` and its logged failure are
  not modelled. The entry to write is returned beside the data sent.
