/** Cases and the discussion each one carries (src/controllers/caseController.ts):
    creating a case creates its discussion, assigning a case resets the
    discussion's participants to the new assignees, updating never touches
    the case's identity, and deleting a case deletes its discussion. */
module Cases {
  import opened Common
  import opened Models

  /** The fields of a createCase request body. */
  datatype NewCaseRequest = NewCaseRequest(
    patient: Option<string>,
    title: Option<string>,
    description: Option<string>,
    priority: Option<CasePriority>,
    symptoms: Option<seq<string>>,
    assignedTo: Option<seq<UserId>>)

  predicate HasRequiredFields(b: NewCaseRequest) {
    Present(b.patient) && Present(b.title) && Present(b.description)
  }

  /** The case createCase stores; caseId is the generated display id. An
      empty assignee list is truthy in JavaScript and is kept as given. */
  function NewCase(b: NewCaseRequest, creator: UserId, caseId: string): Case
    requires HasRequiredFields(b)
  {
    Case(caseId, b.patient.value, b.title.value, b.description.value, Open,
         OrElse(b.priority, Routine), OrElse(b.symptoms, []),
         OrElse(b.assignedTo, [creator]), creator, None, None, None)
  }

  /** The discussion createCase opens beside the case: the creator first,
      then the requested assignees, and no messages. */
  function NewThread(b: NewCaseRequest, creator: UserId): Discussion {
    Discussion([], [creator] + OrElse(b.assignedTo, []))
  }

  /** A new case is open, created by the requester, routine unless a
      priority is given, without symptoms unless given, and assigned to the
      requester unless assignees are given; its discussion starts with the
      creator followed by the requested assignees, so the creator appears
      twice when they also named themself. */
  lemma NewCaseDefaults(b: NewCaseRequest, creator: UserId, caseId: string)
    requires HasRequiredFields(b)
    ensures var c := NewCase(b, creator, caseId);
      && c.status == Open && c.createdBy == creator && c.caseId == caseId
      && c.priority == (if b.priority.Some? then b.priority.value else Routine)
      && c.symptoms == (if b.symptoms.Some? then b.symptoms.value else [])
      && c.assignedTo == (if b.assignedTo.Some? then b.assignedTo.value else [creator])
    ensures var d := NewThread(b, creator);
      && d.messages == []
      && |d.participants| >= 1 && d.participants[0] == creator
      && (forall u :: u in d.participants <==> u == creator || u in OrElse(b.assignedTo, []))
      && (b.assignedTo.None? ==> d.participants == NewCase(b, creator, caseId).assignedTo)
      && (b.assignedTo.Some? && creator in b.assignedTo.value ==> Count(d.participants, creator) >= 2)
  {
    var d := NewThread(b, creator);
    if b.assignedTo.Some? && creator in b.assignedTo.value {
      CountAppend([creator], b.assignedTo.value, creator);
      CountZeroIffAbsent(b.assignedTo.value, creator);
    }
  }

  /** An updateCase body: every field of the case may be named, and an
      absent field is left as it is. */
  datatype CasePatch = CasePatch(
    caseId: Option<string>,
    patient: Option<string>,
    title: Option<string>,
    description: Option<string>,
    status: Option<CaseStatus>,
    priority: Option<CasePriority>,
    symptoms: Option<seq<string>>,
    assignedTo: Option<seq<UserId>>,
    createdBy: Option<UserId>,
    diagnosis: Option<string>,
    treatment: Option<string>,
    notes: Option<string>)

  /** The body once updateCase has deleted caseId and createdBy from it. */
  function Stripped(p: CasePatch): CasePatch {
    p.(caseId := None, createdBy := None)
  }

  /** `$set` of the fields present in p. */
  function Patched(c: Case, p: CasePatch): Case {
    Case(OrElse(p.caseId, c.caseId), OrElse(p.patient, c.patient), OrElse(p.title, c.title),
         OrElse(p.description, c.description), OrElse(p.status, c.status),
         OrElse(p.priority, c.priority), OrElse(p.symptoms, c.symptoms),
         OrElse(p.assignedTo, c.assignedTo), OrElse(p.createdBy, c.createdBy),
         if p.diagnosis.Some? then p.diagnosis else c.diagnosis,
         if p.treatment.Some? then p.treatment else c.treatment,
         if p.notes.Some? then p.notes else c.notes)
  }

  /** An update never changes a case's display id or its creator, takes
      every other field the body names, and keeps the fields it does not
      name; applying it twice is applying it once. */
  lemma UpdateKeepsIdentity(c: Case, p: CasePatch)
    ensures var u := Patched(c, Stripped(p));
      && u.caseId == c.caseId && u.createdBy == c.createdBy
      && (p.status.Some? ==> u.status == p.status.value)
      && (p.status.None? ==> u.status == c.status)
      && (p.assignedTo.Some? ==> u.assignedTo == p.assignedTo.value)
      && (p.assignedTo.None? ==> u.assignedTo == c.assignedTo)
      && (p.title.Some? ==> u.title == p.title.value)
      && (p.title.None? ==> u.title == c.title)
      && (p.diagnosis.Some? ==> u.diagnosis == p.diagnosis)
      && (p.diagnosis.None? ==> u.diagnosis == c.diagnosis)
      && (p.patient.Some? ==> u.patient == p.patient.value)
      && (p.patient.None? ==> u.patient == c.patient)
      && (p.description.Some? ==> u.description == p.description.value)
      && (p.description.None? ==> u.description == c.description)
      && (p.priority.Some? ==> u.priority == p.priority.value)
      && (p.priority.None? ==> u.priority == c.priority)
      && (p.symptoms.Some? ==> u.symptoms == p.symptoms.value)
      && (p.symptoms.None? ==> u.symptoms == c.symptoms)
      && (p.treatment.Some? ==> u.treatment == p.treatment)
      && (p.treatment.None? ==> u.treatment == c.treatment)
      && (p.notes.Some? ==> u.notes == p.notes)
      && (p.notes.None? ==> u.notes == c.notes)
      && Patched(u, Stripped(p)) == u
  {
  }

  /** The assignedTo field of an assignCase body: absent, present but not
      an array, or an array of user ids. */
  datatype AssigneesField = Missing | NotAList | List(ids: seq<UserId>)

  /** createCase: 400 without a patient, title or description; otherwise
      the case is stored under a fresh key and its discussion under the
      same key. Nothing changes on a refusal. */
  method CreateCase(db: Database, requester: UserId, body: NewCaseRequest, key: Key, caseId: string)
    returns (status: int)
    requires db.Valid() && key !in db.cases
    modifies db`cases, db`discussions
    ensures db.Valid()
    ensures status == (if HasRequiredFields(body) then CREATED else BAD_REQUEST)
    ensures status == BAD_REQUEST ==> db.cases == old(db.cases) && db.discussions == old(db.discussions)
    ensures status == CREATED ==>
      && db.cases == old(db.cases)[key := NewCase(body, requester, caseId)]
      && db.discussions == old(db.discussions)[key := NewThread(body, requester)]
  {
    if !HasRequiredFields(body) {
      return BAD_REQUEST;
    }
    var c := Case(caseId, body.patient.value, body.title.value, body.description.value, Open,
                  OrElse(body.priority, Routine), OrElse(body.symptoms, []),
                  OrElse(body.assignedTo, [requester]), requester, None, None, None);
    db.cases := db.cases[key := c];
    db.discussions := db.discussions[key := Discussion([], [requester] + OrElse(body.assignedTo, []))];
    status := CREATED;
  }

  /** updateCase: caseId and createdBy are dropped from the body, then the
      rest is set on the case; 404 for an unknown case. */
  method UpdateCase(db: Database, key: Key, body: CasePatch)
    returns (status: int)
    requires db.Valid()
    modifies db`cases
    ensures db.Valid()
    ensures status == (if key in old(db.cases) then OK else NOT_FOUND)
    ensures status == NOT_FOUND ==> db.cases == old(db.cases)
    ensures status == OK ==> db.cases == old(db.cases)[key := Patched(old(db.cases)[key], Stripped(body))]
  {
    var updates := body;
    updates := updates.(caseId := None);
    updates := updates.(createdBy := None);
    if key !in db.cases {
      return NOT_FOUND;
    }
    db.cases := db.cases[key := Patched(db.cases[key], updates)];
    status := OK;
  }

  /** assignCase: 400 unless assignedTo is an array, 404 for an unknown
      case; otherwise the case's assignees and, when the case has a
      discussion, its participants both become the given list. */
  method AssignCase(db: Database, key: Key, assignedTo: AssigneesField)
    returns (status: int)
    requires db.Valid()
    modifies db`cases, db`discussions
    ensures db.Valid()
    ensures status == BAD_REQUEST <==> !assignedTo.List?
    ensures status == NOT_FOUND <==> assignedTo.List? && key !in old(db.cases)
    ensures status == OK <==> assignedTo.List? && key in old(db.cases)
    ensures status != OK ==> db.cases == old(db.cases) && db.discussions == old(db.discussions)
    ensures status == OK ==>
      && db.cases == old(db.cases)[key := old(db.cases)[key].(assignedTo := assignedTo.ids)]
      && db.discussions == if key in old(db.discussions)
                           then old(db.discussions)[key := old(db.discussions)[key].(participants := assignedTo.ids)]
                           else old(db.discussions)
    ensures status == OK && key in db.discussions ==> db.discussions[key].participants == db.cases[key].assignedTo
  {
    if !assignedTo.List? {
      return BAD_REQUEST;
    }
    if key !in db.cases {
      return NOT_FOUND;
    }
    db.cases := db.cases[key := db.cases[key].(assignedTo := assignedTo.ids)];
    if key in db.discussions {
      db.discussions := db.discussions[key := db.discussions[key].(participants := assignedTo.ids)];
    }
    status := OK;
  }

  /** deleteCase: 404 for an unknown case; otherwise the case and its
      discussion are both removed, so no discussion outlives its case. */
  method DeleteCase(db: Database, key: Key)
    returns (status: int)
    requires db.Valid()
    modifies db`cases, db`discussions
    ensures db.Valid()
    ensures status == (if key in old(db.cases) then OK else NOT_FOUND)
    ensures status == NOT_FOUND ==> db.cases == old(db.cases) && db.discussions == old(db.discussions)
    ensures status == OK ==> db.cases == old(db.cases) - {key} && db.discussions == old(db.discussions) - {key}
  {
    if key !in db.cases {
      return NOT_FOUND;
    }
    db.cases := db.cases - {key};
    db.discussions := db.discussions - {key};
    status := OK;
  }
}
