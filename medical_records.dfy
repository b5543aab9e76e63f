/** Disclosure control over medical records
    (src/controllers/medicalRecordController.ts): the OWNER grant made at
    creation, the read gate, sharing and revocation over a record's
    `accessControl` list, and the optional encryption envelope. */
module MedicalRecords {
  import opened Common
  import opened Models

  /** The placeholder stored as content once a record is encrypted. */
  const ENCRYPTED_PLACEHOLDER: string := "[ENCRYPTED]"

  /** The fields of a createRecord request body. */
  datatype NewRecordRequest = NewRecordRequest(
    patient: Option<string>,
    caseId: Option<Key>,
    recordType: Option<string>,
    title: Option<string>,
    content: Option<string>,
    attachments: Option<seq<string>>,
    encrypt: bool)

  predicate HasRequiredFields(b: NewRecordRequest) {
    Present(b.patient) && Present(b.recordType) && Present(b.title) && Present(b.content)
  }

  /** Selects the grant rows of user u. */
  function GrantFor(u: UserId): Grant -> bool {
    (g: Grant) => g.userId == u
  }

  /** The read gate: some grant row names u. */
  predicate HasAccess(acl: seq<Grant>, u: UserId) {
    exists i :: 0 <= i < |acl| && acl[i].userId == u
  }

  /** The share/revoke gate: some OWNER row names u. */
  predicate IsOwner(acl: seq<Grant>, u: UserId) {
    exists i :: 0 <= i < |acl| && acl[i].userId == u && acl[i].accessLevel == Owner
  }

  /** The level of u's first grant row, if any. */
  function LevelOf(acl: seq<Grant>, u: UserId): Option<RecordAccessLevel> {
    var i := FindIndex(acl, GrantFor(u));
    if i == -1 then None else Some(acl[i].accessLevel)
  }

  /** The record createRecord stores for a complete request. */
  function NewRecord(b: NewRecordRequest, creator: UserId, now: int, encrypt: string -> Envelope): MedicalRecord
    requires HasRequiredFields(b)
  {
    MedicalRecord(
      b.patient.value, b.caseId, b.recordType.value, b.title.value,
      if b.encrypt then ENCRYPTED_PLACEHOLDER else b.content.value,
      if b.encrypt then Some(encrypt(b.content.value)) else None,
      OrElse(b.attachments, []),
      creator,
      [Grant(creator, Owner, creator, now)])
  }

  /** A new record discloses to its creator alone, who owns it; an encrypted
      record keeps only the placeholder and the envelope of the content. */
  lemma NewRecordDisclosure(b: NewRecordRequest, creator: UserId, now: int, encrypt: string -> Envelope)
    requires HasRequiredFields(b)
    ensures var r := NewRecord(b, creator, now, encrypt);
      && |r.accessControl| == 1
      && r.accessControl[0].grantedBy == creator
      && UniqueGrantees(r.accessControl)
      && (forall u :: HasAccess(r.accessControl, u) <==> u == creator)
      && (forall u :: IsOwner(r.accessControl, u) <==> u == creator)
      && (b.encrypt ==> r.content == ENCRYPTED_PLACEHOLDER && r.encryptedData == Some(encrypt(b.content.value)))
      && (!b.encrypt ==> r.content == b.content.value && r.encryptedData == None)
  {
    var r := NewRecord(b, creator, now, encrypt);
    assert r.accessControl[0].userId == creator;
  }

  /** The grant list after a successful shareRecord (lines 164-182): the
      grantee's first row has its level, grantor and time overwritten in
      place, or a new row is appended. */
  function Shared(acl: seq<Grant>, grantee: UserId, level: RecordAccessLevel, grantor: UserId, now: int): seq<Grant> {
    var i := FindIndex(acl, GrantFor(grantee));
    if i != -1 then acl[i := acl[i].(accessLevel := level, grantedBy := grantor, grantedAt := now)]
    else acl + [Grant(grantee, level, grantor, now)]
  }

  /** FindIndex is decided by the predicate's values alone. */
  lemma FindIndexAgrees<T>(s: seq<T>, p: T -> bool, t: seq<T>, q: T -> bool)
    requires |s| == |t|
    requires forall j :: 0 <= j < |s| ==> p(s[j]) == q(t[j])
    ensures FindIndex(s, p) == FindIndex(t, q)
  {
  }

  lemma HasAccessIffFound(acl: seq<Grant>, u: UserId)
    ensures HasAccess(acl, u) <==> FindIndex(acl, GrantFor(u)) != -1
  {
    if HasAccess(acl, u) {
      var i :| 0 <= i < |acl| && acl[i].userId == u;
      assert GrantFor(u)(acl[i]);
    }
  }

  /** Sharing gives the grantee exactly the requested level, leaves every
      other user's level and access as it was, keeps the other rows in
      place and adds a row only when the grantee had none. */
  lemma {:induction false} ShareEffect(acl: seq<Grant>, grantee: UserId, level: RecordAccessLevel, grantor: UserId, now: int)
    ensures var r := Shared(acl, grantee, level, grantor, now);
      && LevelOf(r, grantee) == Some(level)
      && HasAccess(r, grantee)
      && (forall u :: u != grantee ==> LevelOf(r, u) == LevelOf(acl, u))
      && (forall u :: u != grantee ==> (HasAccess(r, u) <==> HasAccess(acl, u)))
      && |r| == (if HasAccess(acl, grantee) then |acl| else |acl| + 1)
      && (forall j :: 0 <= j < |acl| && acl[j].userId != grantee ==> r[j] == acl[j])
  {
    var r := Shared(acl, grantee, level, grantor, now);
    var i := FindIndex(acl, GrantFor(grantee));
    HasAccessIffFound(acl, grantee);
    HasAccessIffFound(r, grantee);
    if i != -1 {
      assert |r| == |acl|;
      forall j | 0 <= j < |r| ensures r[j].userId == acl[j].userId { }
      assert FindIndex(r, GrantFor(grantee)) == i by {
        assert GrantFor(grantee)(r[i]);
        forall j | 0 <= j < i ensures !GrantFor(grantee)(r[j]) {
          assert !GrantFor(grantee)(acl[j]);
        }
      }
      forall u | u != grantee
        ensures LevelOf(r, u) == LevelOf(acl, u)
        ensures HasAccess(r, u) <==> HasAccess(acl, u)
      {
        FindIndexAgrees(r, GrantFor(u), acl, GrantFor(u));
        HasAccessIffFound(acl, u);
        HasAccessIffFound(r, u);
        var k := FindIndex(acl, GrantFor(u));
        if k != -1 {
          assert GrantFor(u)(acl[k]);
          assert k != i;
        }
      }
    } else {
      assert r == acl + [Grant(grantee, level, grantor, now)];
      assert FindIndex(r, GrantFor(grantee)) == |acl| by {
        assert GrantFor(grantee)(r[|acl|]);
        forall j | 0 <= j < |acl| ensures !GrantFor(grantee)(r[j]) {
          assert r[j] == acl[j];
        }
      }
      forall u | u != grantee
        ensures LevelOf(r, u) == LevelOf(acl, u)
        ensures HasAccess(r, u) <==> HasAccess(acl, u)
      {
        HasAccessIffFound(acl, u);
        HasAccessIffFound(r, u);
        var k := FindIndex(acl, GrantFor(u));
        if k == -1 {
          assert forall j :: 0 <= j < |r| ==> !GrantFor(u)(r[j]) by {
            forall j | 0 <= j < |r| ensures !GrantFor(u)(r[j]) {
              if j < |acl| { assert r[j] == acl[j]; assert !GrantFor(u)(acl[j]); }
            }
          }
        } else {
          assert FindIndex(r, GrantFor(u)) == k by {
            assert r[k] == acl[k];
            assert GrantFor(u)(r[k]);
            forall j | 0 <= j < k ensures !GrantFor(u)(r[j]) {
              assert r[j] == acl[j];
              assert !GrantFor(u)(acl[j]);
            }
          }
        }
      }
    }
  }

  /** The grantee's row after sharing records the level, the grantor and
      the time of this grant, and sits where the grantee's first row was,
      or at the end when the grantee had none. */
  lemma {:induction false} ShareRow(acl: seq<Grant>, grantee: UserId, level: RecordAccessLevel, grantor: UserId, now: int)
    ensures var r := Shared(acl, grantee, level, grantor, now);
      var k := FindIndex(r, GrantFor(grantee));
      && k == (if HasAccess(acl, grantee) then FindIndex(acl, GrantFor(grantee)) else |acl|)
      && 0 <= k && r[k] == Grant(grantee, level, grantor, now)
  {
    var r := Shared(acl, grantee, level, grantor, now);
    var i := FindIndex(acl, GrantFor(grantee));
    HasAccessIffFound(acl, grantee);
    if i != -1 {
      assert acl[i].userId == grantee by { assert GrantFor(grantee)(acl[i]); }
      assert FindIndex(r, GrantFor(grantee)) == i by {
        assert GrantFor(grantee)(r[i]);
        forall j | 0 <= j < i ensures !GrantFor(grantee)(r[j]) {
          assert r[j] == acl[j];
          assert !GrantFor(grantee)(acl[j]);
        }
      }
    } else {
      assert FindIndex(r, GrantFor(grantee)) == |acl| by {
        assert GrantFor(grantee)(r[|acl|]);
        forall j | 0 <= j < |acl| ensures !GrantFor(grantee)(r[j]) {
          assert r[j] == acl[j];
          assert !GrantFor(grantee)(acl[j]);
        }
      }
    }
  }

  /** Sharing keeps at most one row per user. */
  lemma ShareKeepsUniqueGrantees(acl: seq<Grant>, grantee: UserId, level: RecordAccessLevel, grantor: UserId, now: int)
    requires UniqueGrantees(acl)
    ensures UniqueGrantees(Shared(acl, grantee, level, grantor, now))
  {
    var i := FindIndex(acl, GrantFor(grantee));
    HasAccessIffFound(acl, grantee);
    if i == -1 {
      forall j | 0 <= j < |acl| ensures acl[j].userId != grantee {
        assert !GrantFor(grantee)(acl[j]);
      }
    }
  }

  /** As written, the owner may rewrite any row, their own included: sharing
      with a non-OWNER level to a user takes that user's ownership away, so
      an owner can demote themself. */
  lemma ShareCanDemoteOwner(acl: seq<Grant>, owner: UserId, level: RecordAccessLevel, now: int)
    requires UniqueGrantees(acl) && IsOwner(acl, owner) && level != Owner
    ensures !IsOwner(Shared(acl, owner, level, owner, now), owner)
  {
    var r := Shared(acl, owner, level, owner, now);
    ShareEffect(acl, owner, level, owner, now);
    ShareKeepsUniqueGrantees(acl, owner, level, owner, now);
    var k := FindIndex(r, GrantFor(owner));
    forall j | 0 <= j < |r| && r[j].userId == owner ensures j == k {
      assert GrantFor(owner)(r[j]);
    }
  }

  /** As written, sharing does not refuse the OWNER level: it makes the
      grantee a second owner. */
  lemma ShareCanGrantOwnership(acl: seq<Grant>, grantee: UserId, grantor: UserId, now: int)
    ensures IsOwner(Shared(acl, grantee, Owner, grantor, now), grantee)
  {
    var r := Shared(acl, grantee, Owner, grantor, now);
    ShareEffect(acl, grantee, Owner, grantor, now);
    var k := FindIndex(r, GrantFor(grantee));
    assert GrantFor(grantee)(r[k]);
  }

  /** revokeAccess's filter keeps a row unless it names the target with a
      non-OWNER level. */
  predicate Survives(g: Grant, target: UserId) {
    g.userId != target || g.accessLevel == Owner
  }

  /** The grant list after a successful revokeAccess (lines 220-223). */
  function Revoked(acl: seq<Grant>, target: UserId): (r: seq<Grant>)
    ensures |r| <= |acl|
    ensures forall g :: g in r <==> g in acl && Survives(g, target)
    decreases |acl|
  {
    if acl == [] then []
    else (if Survives(acl[0], target) then [acl[0]] else []) + Revoked(acl[1..], target)
  }

  /** Revocation filters each part of a list on its own, so it keeps the
      surviving rows in their order. */
  lemma {:induction false} RevokedAppend(a: seq<Grant>, b: seq<Grant>, target: UserId)
    ensures Revoked(a + b, target) == Revoked(a, target) + Revoked(b, target)
    decreases |a|
  {
    if a == [] {
      assert a + b == b;
    } else {
      assert (a + b)[1..] == a[1..] + b;
      RevokedAppend(a[1..], b, target);
    }
  }

  /** A list in which every row survives is left unchanged; in particular
      revoking a user without a grant row is a no-op. */
  lemma {:induction false} RevokeNoop(acl: seq<Grant>, target: UserId)
    requires forall j :: 0 <= j < |acl| ==> Survives(acl[j], target)
    ensures Revoked(acl, target) == acl
    decreases |acl|
  {
    if acl != [] {
      RevokeNoop(acl[1..], target);
    }
  }

  lemma RevokeAbsentIsNoop(acl: seq<Grant>, target: UserId)
    requires !HasAccess(acl, target)
    ensures Revoked(acl, target) == acl
  {
    RevokeNoop(acl, target);
  }

  /** Revocation never removes an OWNER row and removes every other row of
      the target: the owners are exactly those before, the target keeps
      access only if it is an owner, and everyone else keeps their access. */
  lemma RevokeEffect(acl: seq<Grant>, target: UserId)
    ensures var r := Revoked(acl, target);
      && (forall u :: IsOwner(r, u) <==> IsOwner(acl, u))
      && (HasAccess(r, target) <==> IsOwner(acl, target))
      && (forall u :: u != target ==> (HasAccess(r, u) <==> HasAccess(acl, u)))
  {
    var r := Revoked(acl, target);
    forall u ensures IsOwner(r, u) <==> IsOwner(acl, u) {
      if IsOwner(acl, u) {
        var i :| 0 <= i < |acl| && acl[i].userId == u && acl[i].accessLevel == Owner;
        assert acl[i] in r;
      }
      if IsOwner(r, u) {
        var i :| 0 <= i < |r| && r[i].userId == u && r[i].accessLevel == Owner;
        assert r[i] in acl;
      }
    }
    if HasAccess(r, target) {
      var i :| 0 <= i < |r| && r[i].userId == target;
      assert r[i] in acl;
    }
    forall u | u != target ensures HasAccess(r, u) <==> HasAccess(acl, u) {
      if HasAccess(acl, u) {
        var i :| 0 <= i < |acl| && acl[i].userId == u;
        assert acl[i] in r;
      }
      if HasAccess(r, u) {
        var i :| 0 <= i < |r| && r[i].userId == u;
        assert r[i] in acl;
      }
    }
  }

  /** Revoking twice is revoking once. */
  lemma RevokeIdempotent(acl: seq<Grant>, target: UserId)
    ensures Revoked(Revoked(acl, target), target) == Revoked(acl, target)
  {
    var r := Revoked(acl, target);
    forall j | 0 <= j < |r| ensures Survives(r[j], target) {
      assert r[j] in r;
    }
    RevokeNoop(r, target);
  }

  /** Revocation keeps at most one row per user. */
  lemma {:induction false} RevokeKeepsUniqueGrantees(acl: seq<Grant>, target: UserId)
    requires UniqueGrantees(acl)
    ensures UniqueGrantees(Revoked(acl, target))
    decreases |acl|
  {
    if acl != [] {
      var rest := Revoked(acl[1..], target);
      RevokeKeepsUniqueGrantees(acl[1..], target);
      forall j | 0 <= j < |rest| ensures rest[j].userId != acl[0].userId {
        assert rest[j] in acl[1..];
      }
    }
  }

  /** What getRecordById returns to a caller that passes the gate. */
  datatype RecordView = RecordView(record: MedicalRecord, decryptedContent: Option<string>)

  /** createRecord: a complete request stores a record whose only grant is
      the creator's OWNER row; an incomplete one is refused with 400. The
      caller supplies a key no record has yet. */
  method CreateRecord(db: Database, requester: UserId, body: NewRecordRequest, key: Key, now: int,
                      encrypt: string -> Envelope)
    returns (status: int)
    requires db.Valid() && key !in db.records
    modifies db`records
    ensures db.Valid()
    ensures status == (if HasRequiredFields(body) then CREATED else BAD_REQUEST)
    ensures status == BAD_REQUEST ==> db.records == old(db.records)
    ensures status == CREATED ==> db.records == old(db.records)[key := NewRecord(body, requester, now, encrypt)]
  {
    if !HasRequiredFields(body) {
      return BAD_REQUEST;
    }
    var finalContent := body.content.value;
    var encryptedData: Option<Envelope> := None;
    if body.encrypt {
      encryptedData := Some(encrypt(body.content.value));
      finalContent := ENCRYPTED_PLACEHOLDER;
    }
    var record := MedicalRecord(
      body.patient.value, body.caseId, body.recordType.value, body.title.value,
      finalContent, encryptedData, OrElse(body.attachments, []), requester,
      [Grant(requester, Owner, requester, now)]);
    db.records := db.records[key := record];
    status := CREATED;
  }

  /** getRecordById: 404 for an unknown record, 403 unless some grant row
      names the caller, otherwise the record; when decryption is asked for
      and the record has an envelope, the decrypted content is attached to
      the record, and a failed decryption (None) is swallowed. */
  method GetRecordById(db: Database, requester: UserId, key: Key, decryptRequested: bool,
                       decrypt: Envelope -> Option<string>)
    returns (status: int, view: Option<RecordView>)
    ensures status == NOT_FOUND <==> key !in db.records
    ensures status == FORBIDDEN <==> key in db.records && !HasAccess(db.records[key].accessControl, requester)
    ensures status == OK <==> key in db.records && HasAccess(db.records[key].accessControl, requester)
    ensures view.Some? <==> status == OK
    ensures view.Some? ==> view.value.record == db.records[key]
    ensures view.Some? ==> (
      var enc := db.records[key].encryptedData;
      view.value.decryptedContent == if decryptRequested && enc.Some? then decrypt(enc.value) else None)
  {
    if key !in db.records {
      return NOT_FOUND, None;
    }
    var record := db.records[key];
    if !HasAccess(record.accessControl, requester) {
      return FORBIDDEN, None;
    }
    var decrypted: Option<string> := None;
    if decryptRequested && record.encryptedData.Some? {
      decrypted := decrypt(record.encryptedData.value);
    }
    status, view := OK, Some(RecordView(record, decrypted));
  }

  /** shareRecord: 400 without a grantee or level, 404 for an unknown record,
      403 unless the caller holds an OWNER row; otherwise the grant list
      becomes Shared(...). Nothing changes on a refusal. */
  method ShareRecord(db: Database, requester: UserId, key: Key, grantee: Option<UserId>,
                     level: Option<RecordAccessLevel>, now: int)
    returns (status: int)
    requires db.Valid()
    modifies db`records
    ensures db.Valid()
    ensures status == BAD_REQUEST <==> !Present(grantee) || level.None?
    ensures status == NOT_FOUND <==> Present(grantee) && level.Some? && key !in old(db.records)
    ensures status == FORBIDDEN <==> (Present(grantee) && level.Some? && key in old(db.records)
      && !IsOwner(old(db.records)[key].accessControl, requester))
    ensures status == OK <==> (Present(grantee) && level.Some? && key in old(db.records)
      && IsOwner(old(db.records)[key].accessControl, requester))
    ensures status != OK ==> db.records == old(db.records)
    ensures status == OK ==>
      var before := old(db.records)[key];
      db.records == old(db.records)[key := before.(accessControl :=
        Shared(before.accessControl, grantee.value, level.value, requester, now))]
  {
    if !Present(grantee) || level.None? {
      return BAD_REQUEST;
    }
    if key !in db.records {
      return NOT_FOUND;
    }
    var record := db.records[key];
    if !IsOwner(record.accessControl, requester) {
      return FORBIDDEN;
    }
    var acl := record.accessControl;
    var existing := FindIndex(acl, GrantFor(grantee.value));
    if existing != -1 {
      acl := acl[existing := acl[existing].(accessLevel := level.value)];
      acl := acl[existing := acl[existing].(grantedBy := requester)];
      acl := acl[existing := acl[existing].(grantedAt := now)];
      assert acl == record.accessControl[existing := record.accessControl[existing].(
        accessLevel := level.value, grantedBy := requester, grantedAt := now)];
    } else {
      acl := acl + [Grant(grantee.value, level.value, requester, now)];
    }
    ShareKeepsUniqueGrantees(record.accessControl, grantee.value, level.value, requester, now);
    db.records := db.records[key := record.(accessControl := acl)];
    status := OK;
  }

  /** revokeAccess: 400 without a target, 404 for an unknown record, 403
      unless the caller holds an OWNER row; otherwise the grant list becomes
      Revoked(...). Nothing changes on a refusal. */
  method RevokeAccess(db: Database, requester: UserId, key: Key, target: Option<UserId>)
    returns (status: int)
    requires db.Valid()
    modifies db`records
    ensures db.Valid()
    ensures status == BAD_REQUEST <==> !Present(target)
    ensures status == NOT_FOUND <==> Present(target) && key !in old(db.records)
    ensures status == FORBIDDEN <==> (Present(target) && key in old(db.records)
      && !IsOwner(old(db.records)[key].accessControl, requester))
    ensures status == OK <==> (Present(target) && key in old(db.records)
      && IsOwner(old(db.records)[key].accessControl, requester))
    ensures status != OK ==> db.records == old(db.records)
    ensures status == OK ==>
      var before := old(db.records)[key];
      db.records == old(db.records)[key := before.(accessControl := Revoked(before.accessControl, target.value))]
  {
    if !Present(target) {
      return BAD_REQUEST;
    }
    if key !in db.records {
      return NOT_FOUND;
    }
    var record := db.records[key];
    if !IsOwner(record.accessControl, requester) {
      return FORBIDDEN;
    }
    RevokeKeepsUniqueGrantees(record.accessControl, target.value);
    db.records := db.records[key := record.(accessControl := Revoked(record.accessControl, target.value))];
    status := OK;
  }
}
