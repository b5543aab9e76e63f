/** A case's discussion thread (src/controllers/discussionController.ts):
    posting a message appends it and makes its sender a participant,
    creating the thread on first use; deleting removes one message, and
    only its sender may do so. */
module Discussions {
  import opened Common
  import opened Models

  /** Selects the messages with Mongo id `id`. */
  function MessageIs(id: Key): Message -> bool {
    (m: Message) => m.id == id
  }

  /** The thread addMessage works on: the case's discussion, or a new one
      whose only participant is the poster. */
  function ThreadFor(discussions: map<Key, Discussion>, caseKey: Key, poster: UserId): Discussion {
    if caseKey in discussions then discussions[caseKey] else Discussion([], [poster])
  }

  /** The thread after m is posted by its sender. */
  function Posted(d: Discussion, m: Message): Discussion {
    Discussion(d.messages + [m],
               if m.sender in d.participants then d.participants else d.participants + [m.sender])
  }

  /** Posting appends exactly m, leaves the earlier messages as they were,
      and makes the sender a participant without adding anyone twice: a
      sender already taking part is not added again, one who is not is
      added once at the end. */
  lemma PostedEffect(d: Discussion, m: Message)
    ensures var p := Posted(d, m);
      && p.messages == d.messages + [m]
      && p.messages[..|d.messages|] == d.messages
      && m.sender in p.participants
      && p.participants[..|d.participants|] == d.participants
      && Count(p.participants, m.sender) == (if m.sender in d.participants then Count(d.participants, m.sender) else 1)
      && (forall v :: v != m.sender ==> Count(p.participants, v) == Count(d.participants, v))
      && (NoDup(d.participants) ==> NoDup(p.participants))
  {
    var p := Posted(d, m);
    if m.sender !in d.participants {
      forall v ensures Count(p.participants, v) == Count(d.participants, v) + (if v == m.sender then 1 else 0) {
        CountAppend(d.participants, [m.sender], v);
        assert [m.sender][1..] == [];
      }
      CountZeroIffAbsent(d.participants, m.sender);
    }
  }

  /** The thread after the message at index i is spliced out. */
  function Unposted(d: Discussion, i: nat): Discussion
    requires i < |d.messages|
  {
    d.(messages := RemoveAt(d.messages, i))
  }

  /** Deleting the message just posted, which is the first with its id,
      gives back the thread's messages (participants stay as they are). */
  lemma {:induction false} PostThenDelete(d: Discussion, m: Message)
    requires forall j :: 0 <= j < |d.messages| ==> d.messages[j].id != m.id
    ensures var p := Posted(d, m);
      && FindIndex(p.messages, MessageIs(m.id)) == |d.messages|
      && Unposted(p, |d.messages|).messages == d.messages
  {
    var p := Posted(d, m);
    var i := FindIndex(p.messages, MessageIs(m.id));
    assert p.messages[|d.messages|] == m;
    assert forall j :: 0 <= j < |d.messages| ==> p.messages[j] == d.messages[j];
    assert RemoveAt(p.messages, |d.messages|) == d.messages;
  }

  /** addMessage: 400 for an empty message, 404 for an unknown case;
      otherwise the message (sender and name taken from the caller's
      claims, not edited) is posted on the case's thread, which is created
      when the case has none. Nothing changes on a refusal. */
  method AddMessage(db: Database, user: Claims, caseKey: Key, text: Option<string>, messageId: Key, now: int)
    returns (status: int)
    requires db.Valid()
    modifies db`discussions
    ensures db.Valid()
    ensures status == BAD_REQUEST <==> !Present(text)
    ensures status == NOT_FOUND <==> Present(text) && caseKey !in db.cases
    ensures status == OK <==> Present(text) && caseKey in db.cases
    ensures status != OK ==> db.discussions == old(db.discussions)
    ensures status == OK ==>
      db.discussions == old(db.discussions)[caseKey := Posted(
        ThreadFor(old(db.discussions), caseKey, user.userId),
        Message(messageId, user.userId, user.email, text.value, now, false))]
  {
    if !Present(text) {
      return BAD_REQUEST;
    }
    if caseKey !in db.cases {
      return NOT_FOUND;
    }
    var discussion: Discussion;
    if caseKey in db.discussions {
      discussion := db.discussions[caseKey];
    } else {
      discussion := Discussion([], [user.userId]);
    }
    discussion := discussion.(messages := discussion.messages +
      [Message(messageId, user.userId, user.email, text.value, now, false)]);
    if user.userId !in discussion.participants {
      discussion := discussion.(participants := discussion.participants + [user.userId]);
    }
    db.discussions := db.discussions[caseKey := discussion];
    status := OK;
  }

  /** deleteMessage: 404 when the case has no thread or the thread has no
      message with that id, 403 unless the caller sent the first such
      message; otherwise (200) that message is spliced out. Nothing
      changes on a refusal. */
  method DeleteMessage(db: Database, requester: UserId, caseKey: Key, messageId: Key)
    returns (status: int)
    requires db.Valid()
    modifies db`discussions
    ensures db.Valid()
    ensures status == NOT_FOUND <==> (caseKey !in old(db.discussions)
      || FindIndex(old(db.discussions)[caseKey].messages, MessageIs(messageId)) == -1)
    ensures status == FORBIDDEN <==> (caseKey in old(db.discussions)
      && var ms := old(db.discussions)[caseKey].messages;
         var i := FindIndex(ms, MessageIs(messageId));
         i != -1 && ms[i].sender != requester)
    ensures status == OK <==> (caseKey in old(db.discussions)
      && var ms := old(db.discussions)[caseKey].messages;
         var i := FindIndex(ms, MessageIs(messageId));
         i != -1 && ms[i].sender == requester)
    ensures status != OK ==> db.discussions == old(db.discussions)
    ensures status == OK ==>
      var d := old(db.discussions)[caseKey];
      var i := FindIndex(d.messages, MessageIs(messageId));
      && 0 <= i && d.messages[i].sender == requester
      && db.discussions == old(db.discussions)[caseKey := Unposted(d, i)]
  {
    if caseKey !in db.discussions {
      return NOT_FOUND;
    }
    var discussion := db.discussions[caseKey];
    var index := FindIndex(discussion.messages, MessageIs(messageId));
    if index == -1 {
      return NOT_FOUND;
    }
    if discussion.messages[index].sender != requester {
      return FORBIDDEN;
    }
    discussion := discussion.(messages := RemoveAt(discussion.messages, index));
    db.discussions := db.discussions[caseKey := discussion];
    status := OK;
  }
}
