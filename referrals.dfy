/** The referral workflow (src/controllers/referralController.ts): a
    provider refers a case to another provider, the recipient accepts or
    rejects it, and either party marks it completed. Creating and accepting
    a referral also change the referred case. */
module Referrals {
  import opened Common
  import opened Models

  /** The fields of a createReferral request body. */
  datatype NewReferralRequest = NewReferralRequest(
    caseId: Option<Key>,
    patient: Option<string>,
    toProvider: Option<UserId>,
    reason: Option<string>,
    urgency: Option<CasePriority>,
    notes: Option<string>)

  predicate HasRequiredFields(b: NewReferralRequest) {
    Present(b.caseId) && Present(b.patient) && Present(b.toProvider) && Present(b.reason)
  }

  /** The referral createReferral stores: pending, sent by the requester,
      with urgency ROUTINE unless one is given (the schema default). */
  function NewReferral(b: NewReferralRequest, requester: UserId): (r: Referral)
    requires HasRequiredFields(b)
    ensures r.status == Pending && r.fromProvider == requester
    ensures r.caseId == b.caseId.value && r.toProvider == b.toProvider.value
    ensures r.urgency == if b.urgency.Some? then b.urgency.value else Routine
    ensures ReferralWellFormed(r)
  {
    Referral(b.caseId.value, b.patient.value, requester, b.toProvider.value, b.reason.value,
             OrElse(b.urgency, Routine), b.notes, Pending, None, None, None)
  }

  /** The only statuses a recipient may answer with. */
  predicate IsAnswer(s: ReferralStatus) {
    s == Accepted || s == Rejected
  }

  /** The referral after its recipient answers: status, response notes and
      response time are overwritten, whatever the referral's status was. */
  function Answered(r: Referral, answer: ReferralStatus, responseNotes: Option<string>, now: int): Referral {
    r.(status := answer, responseNotes := responseNotes, respondedAt := Some(now))
  }

  /** The referral after either party completes it. */
  function MarkedCompleted(r: Referral, now: int): Referral {
    r.(status := ReferralStatus.Completed, completedAt := Some(now))
  }

  /** The case after its referral is accepted by u: u is pushed onto the
      assignees (even when already there) and the case is in progress. */
  function AcceptedInto(c: Case, u: UserId): Case {
    c.(assignedTo := c.assignedTo + [u], status := InProgress)
  }

  /** An answer replaces exactly the status, the notes and the response
      time; the outcome is well formed whatever the previous status was,
      so an accepted referral may be rejected later and a completed one
      answered again. */
  lemma AnswerEffect(r: Referral, answer: ReferralStatus, responseNotes: Option<string>, now: int)
    requires ReferralWellFormed(r) && IsAnswer(answer)
    ensures var a := Answered(r, answer, responseNotes, now);
      && a.status == answer && a.responseNotes == responseNotes && a.respondedAt == Some(now)
      && a.(status := r.status, responseNotes := r.responseNotes, respondedAt := r.respondedAt) == r
      && ReferralWellFormed(a)
  {
  }

  /** Completion is reachable from every status and keeps the referral
      well formed; completing again only moves the completion time. */
  lemma CompleteEffect(r: Referral, now: int, later: int)
    requires ReferralWellFormed(r)
    ensures var c := MarkedCompleted(r, now);
      && c.status == ReferralStatus.Completed && c.completedAt == Some(now)
      && c.(status := r.status, completedAt := r.completedAt) == r
      && ReferralWellFormed(c)
      && MarkedCompleted(c, later) == MarkedCompleted(r, later)
  {
  }

  /** Accepting adds u to the assignees once more, keeps every earlier
      assignee in order and puts the case in progress. */
  lemma AcceptEffect(c: Case, u: UserId)
    ensures var a := AcceptedInto(c, u);
      && a.status == InProgress
      && a.assignedTo[..|c.assignedTo|] == c.assignedTo
      && Count(a.assignedTo, u) == Count(c.assignedTo, u) + 1
      && (forall v :: v != u ==> Count(a.assignedTo, v) == Count(c.assignedTo, v))
      && a.(assignedTo := c.assignedTo, status := c.status) == c
  {
    var a := AcceptedInto(c, u);
    forall v ensures Count(a.assignedTo, v) == Count(c.assignedTo, v) + (if v == u then 1 else 0) {
      CountAppend(c.assignedTo, [u], v);
      assert [u][1..] == [];
    }
  }

  /** createReferral: 400 without a case, patient, recipient or reason, 404
      for an unknown case; otherwise the referral is stored under a fresh
      key and the case is marked pending referral. */
  method CreateReferral(db: Database, requester: UserId, body: NewReferralRequest, key: Key)
    returns (status: int)
    requires db.Valid() && key !in db.referrals
    modifies db`referrals, db`cases
    ensures db.Valid()
    ensures status == BAD_REQUEST <==> !HasRequiredFields(body)
    ensures status == NOT_FOUND <==> HasRequiredFields(body) && body.caseId.value !in old(db.cases)
    ensures status == CREATED <==> HasRequiredFields(body) && body.caseId.value in old(db.cases)
    ensures status != CREATED ==> db.referrals == old(db.referrals) && db.cases == old(db.cases)
    ensures status == CREATED ==>
      var k := body.caseId.value;
      && db.referrals == old(db.referrals)[key := NewReferral(body, requester)]
      && db.cases == old(db.cases)[k := old(db.cases)[k].(status := PendingReferral)]
  {
    if !HasRequiredFields(body) {
      return BAD_REQUEST;
    }
    var caseKey := body.caseId.value;
    if caseKey !in db.cases {
      return NOT_FOUND;
    }
    var referral := Referral(caseKey, body.patient.value, requester, body.toProvider.value,
                             body.reason.value, OrElse(body.urgency, Routine), body.notes, Pending, None, None, None);
    db.referrals := db.referrals[key := referral];
    db.cases := db.cases[caseKey := db.cases[caseKey].(status := PendingReferral)];
    status := CREATED;
  }

  /** respondToReferral: 400 unless the answer is accepted or rejected, 404
      for an unknown referral, 403 unless the caller is its recipient;
      otherwise the referral is answered and, on acceptance, the referred
      case (when it still exists) gains the caller as an assignee and goes
      in progress. Nothing changes on a refusal. */
  method RespondToReferral(db: Database, requester: UserId, key: Key, answer: Option<ReferralStatus>,
                           responseNotes: Option<string>, now: int)
    returns (status: int)
    requires db.Valid()
    modifies db`referrals, db`cases
    ensures db.Valid()
    ensures status == BAD_REQUEST <==> answer.None? || !IsAnswer(answer.value)
    ensures status == NOT_FOUND <==> answer.Some? && IsAnswer(answer.value) && key !in old(db.referrals)
    ensures status == FORBIDDEN <==> (answer.Some? && IsAnswer(answer.value) && key in old(db.referrals)
      && old(db.referrals)[key].toProvider != requester)
    ensures status == OK <==> (answer.Some? && IsAnswer(answer.value) && key in old(db.referrals)
      && old(db.referrals)[key].toProvider == requester)
    ensures status != OK ==> db.referrals == old(db.referrals) && db.cases == old(db.cases)
    ensures status == OK ==>
      var r := old(db.referrals)[key];
      && db.referrals == old(db.referrals)[key := Answered(r, answer.value, responseNotes, now)]
      && db.cases == if answer.value == Accepted && r.caseId in old(db.cases)
                     then old(db.cases)[r.caseId := AcceptedInto(old(db.cases)[r.caseId], requester)]
                     else old(db.cases)
  {
    if answer.None? || !IsAnswer(answer.value) {
      return BAD_REQUEST;
    }
    if key !in db.referrals {
      return NOT_FOUND;
    }
    var referral := db.referrals[key];
    if referral.toProvider != requester {
      return FORBIDDEN;
    }
    AnswerEffect(referral, answer.value, responseNotes, now);
    referral := referral.(status := answer.value);
    referral := referral.(responseNotes := responseNotes);
    referral := referral.(respondedAt := Some(now));
    db.referrals := db.referrals[key := referral];
    if answer.value == Accepted && referral.caseId in db.cases {
      var c := db.cases[referral.caseId];
      db.cases := db.cases[referral.caseId := c.(assignedTo := c.assignedTo + [requester], status := InProgress)];
    }
    status := OK;
  }

  /** completeReferral: 404 for an unknown referral, 403 unless the caller
      is its sender or its recipient; otherwise it is completed at time
      now, whatever its status was. */
  method CompleteReferral(db: Database, requester: UserId, key: Key, now: int)
    returns (status: int)
    requires db.Valid()
    modifies db`referrals
    ensures db.Valid()
    ensures status == NOT_FOUND <==> key !in old(db.referrals)
    ensures status == FORBIDDEN <==> (key in old(db.referrals)
      && old(db.referrals)[key].toProvider != requester && old(db.referrals)[key].fromProvider != requester)
    ensures status == OK <==> (key in old(db.referrals)
      && (old(db.referrals)[key].toProvider == requester || old(db.referrals)[key].fromProvider == requester))
    ensures status != OK ==> db.referrals == old(db.referrals)
    ensures status == OK ==> db.referrals == old(db.referrals)[key := MarkedCompleted(old(db.referrals)[key], now)]
  {
    if key !in db.referrals {
      return NOT_FOUND;
    }
    var referral := db.referrals[key];
    if referral.toProvider != requester && referral.fromProvider != requester {
      return FORBIDDEN;
    }
    CompleteEffect(referral, now, now);
    referral := referral.(status := ReferralStatus.Completed);
    referral := referral.(completedAt := Some(now));
    db.referrals := db.referrals[key := referral];
    status := OK;
  }
}
