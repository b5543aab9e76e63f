/** The per-user notification queues of src/services/notificationService.ts.
    The Redis store holds one list per user under `notifications:<userId>`,
    newest first; here it is a map from user to sequence, where a missing key
    is an empty list (Redis deletes a list when its last element goes).
    `storeUp` is false when no Redis client is connected, and then every
    read answers empty or zero and every write to the store does nothing.
    Live delivery is what the service hands to the socket service; each
    hand-over is recorded in an outbox (how emitToUser fans a user event out
    to sockets is modelled by Sockets.SocketService.EmitToUser). */
module Notifications {
  import opened Common

  type Queues = map<UserId, seq<Notification>>

  /** A hand-over to the socket service. */
  datatype Outbound =
    | UserEvent(userId: UserId, event: string, payload: Payload)   // socketService.emitToUser
    | EmergencyEvent(payload: Payload)                             // socketService.emitEmergencyAlert

  /** The live push of one notification to its user. */
  function LivePush(n: Notification): Outbound {
    UserEvent(n.userId, "notification", NotificationPayload(n))
  }

  /** The list stored under u; a missing key reads as the empty list. */
  function QueueOf(qs: Queues, u: UserId): seq<Notification> {
    if u in qs then qs[u] else []
  }

  /** Every list is non-empty and holds only its own user's notifications. */
  predicate QueueWellFormed(u: UserId, xs: seq<Notification>) {
    xs != [] && forall i :: 0 <= i < |xs| ==> xs[i].userId == u
  }

  predicate WellFormedQueues(qs: Queues) {
    forall u :: u in qs ==> QueueWellFormed(u, qs[u])
  }

  lemma WellFormedUpdate(qs: Queues, u: UserId, xs: seq<Notification>)
    requires WellFormedQueues(qs)
    ensures QueueWellFormed(u, xs) ==> WellFormedQueues(qs[u := xs])
    ensures WellFormedQueues(qs - {u})
  {
  }

  lemma AllReadWellFormed(u: UserId, xs: seq<Notification>)
    requires QueueWellFormed(u, xs)
    ensures QueueWellFormed(u, AllRead(xs))
  {
  }

  lemma RemoveAtWellFormed(u: UserId, xs: seq<Notification>, i: nat)
    requires QueueWellFormed(u, xs) && i < |xs|
    ensures |xs| > 1 ==> QueueWellFormed(u, RemoveAt(xs, i))
  {
  }

  function Min(a: int, b: int): int {
    if a <= b then a else b
  }

  /** LRANGE key 0 stop: a negative stop counts from the end of the list, and
      a stop past the end is clipped to it. */
  function LRangeFromHead(xs: seq<Notification>, stop: int): (r: seq<Notification>)
    ensures |r| <= |xs| && r == xs[..|r|]
  {
    var last := if stop < 0 then |xs| + stop else stop;
    if last < 0 then [] else xs[..Min(last + 1, |xs|)]
  }

  /** Selects the notifications with the given id. */
  function IdIs(id: string): Notification -> bool {
    (n: Notification) => n.id == id
  }

  /** markAsRead as a value: the first notification with the id is read. */
  function MarkedRead(xs: seq<Notification>, id: string): seq<Notification> {
    var k := FindIndex(xs, IdIs(id));
    if k < 0 then xs else xs[k := xs[k].(read := true)]
  }

  /** deleteNotification as a value: the first notification with the id is
      taken out. */
  function Deleted(xs: seq<Notification>, id: string): seq<Notification> {
    var k := FindIndex(xs, IdIs(id));
    if k < 0 then xs else RemoveAt(xs, k)
  }

  /** Every notification with its read flag set, in the same order. */
  function AllRead(xs: seq<Notification>): (r: seq<Notification>)
    ensures |r| == |xs|
    ensures forall i :: 0 <= i < |xs| ==> r[i] == xs[i].(read := true)
    decreases |xs|
  {
    if xs == [] then [] else [xs[0].(read := true)] + AllRead(xs[1..])
  }

  lemma AllReadSnoc(xs: seq<Notification>, i: nat)
    requires i < |xs|
    ensures AllRead(xs[..i + 1]) == AllRead(xs[..i]) + [xs[i].(read := true)]
  {
    var l := AllRead(xs[..i + 1]);
    var r := AllRead(xs[..i]) + [xs[i].(read := true)];
    forall j | 0 <= j < |l|
      ensures l[j] == r[j]
    {
      assert xs[..i + 1][j] == xs[j];
      if j < i {
        assert xs[..i][j] == xs[j];
      }
    }
  }

  /** The number of unread notifications (`filter(n => !n.read).length`). */
  function CountUnread(xs: seq<Notification>): (c: nat)
    ensures c <= |xs|
    ensures c == 0 <==> forall i :: 0 <= i < |xs| ==> xs[i].read
    decreases |xs|
  {
    if xs == [] then 0 else (if xs[0].read then 0 else 1) + CountUnread(xs[1..])
  }

  /** LREM key 1 v: the first element equal to v is removed. */
  function LRemFirst(xs: seq<Notification>, v: Notification): (r: seq<Notification>)
    ensures |r| == (if v in xs then |xs| - 1 else |xs|)
    decreases |xs|
  {
    if xs == [] then []
    else if xs[0] == v then xs[1..]
    else [xs[0]] + LRemFirst(xs[1..], v)
  }

  /** The store after LPUSH of n onto its user's list. */
  function Pushed(qs: Queues, n: Notification): Queues {
    qs[n.userId := [n] + QueueOf(qs, n.userId)]
  }

  /** The store after pushing ns[0], ..., ns[k - 1] in turn. */
  function PushFirst(qs: Queues, ns: seq<Notification>, k: nat): Queues
    requires k <= |ns|
  {
    if k == 0 then qs else Pushed(PushFirst(qs, ns, k - 1), ns[k - 1])
  }

  /** The live pushes of ns[0], ..., ns[k - 1] in turn. */
  function PushedLive(ns: seq<Notification>, k: nat): seq<Outbound>
    requires k <= |ns|
  {
    if k == 0 then [] else PushedLive(ns, k - 1) + [LivePush(ns[k - 1])]
  }

  /** One turn of the notifyEmergencyAlert loop, on the store. */
  lemma QueueStep(start: Queues, before: Queues, after: Queues, ns: seq<Notification>, i: nat, up: bool)
    requires i < |ns|
    requires before == if up then PushFirst(start, ns, i) else start
    requires after == if up then Pushed(before, ns[i]) else before
    ensures after == if up then PushFirst(start, ns, i + 1) else start
  {
  }

  /** One turn of the notifyEmergencyAlert loop, on the outbox. */
  lemma OutboxStep(start: seq<Outbound>, before: seq<Outbound>, after: seq<Outbound>,
                   ns: seq<Notification>, i: nat, attached: bool)
    requires i < |ns|
    requires before == start + if attached then PushedLive(ns, i) else []
    requires after == before + if attached then [LivePush(ns[i])] else []
    ensures after == start + if attached then PushedLive(ns, i + 1) else []
  {
  }

  /** The notifications of ns addressed to u, in order. */
  function AddressedTo(ns: seq<Notification>, u: UserId): (r: seq<Notification>)
    ensures forall i :: 0 <= i < |r| ==> r[i].userId == u
    decreases |ns|
  {
    if ns == [] then []
    else AddressedTo(ns[..|ns| - 1], u) + (if ns[|ns| - 1].userId == u then [ns[|ns| - 1]] else [])
  }

  function Reverse<T>(xs: seq<T>): (r: seq<T>)
    ensures |r| == |xs|
    decreases |xs|
  {
    if xs == [] then [] else [xs[|xs| - 1]] + Reverse(xs[..|xs| - 1])
  }

  /** The emergency notifications of notifyEmergencyAlert, one per listed
      user, in list order. */
  function EmergencyNotices(userIds: seq<UserId>, ids: seq<string>, times: seq<int>,
                            alertId: string, alertTitle: string): (r: seq<Notification>)
    requires |ids| == |userIds| && |times| == |userIds|
    ensures |r| == |userIds|
    ensures forall i :: 0 <= i < |r| ==>
      r[i] == Notification(ids[i], userIds[i], EmergencyNotice, "Emergency Alert", alertTitle, AlertRef(alertId), false, times[i])
    decreases |userIds|
  {
    if userIds == [] then []
    else
      [Notification(ids[0], userIds[0], EmergencyNotice, "Emergency Alert", alertTitle, AlertRef(alertId), false, times[0])]
      + EmergencyNotices(userIds[1..], ids[1..], times[1..], alertId, alertTitle)
  }

  // ---------------------------------------------------------------------
  // Properties of the list operations

  /** For a limit of at least one the read is the newest min(limit, n)
      notifications. */
  lemma LRangeLimit(xs: seq<Notification>, limit: int)
    requires limit >= 1
    ensures LRangeFromHead(xs, limit - 1) == xs[..Min(limit, |xs|)]
  {
  }

  /** A limit of 0 asks LRANGE for stop -1, which is the whole list. */
  lemma LRangeZeroLimitReadsAll(xs: seq<Notification>)
    ensures LRangeFromHead(xs, 0 - 1) == xs
  {
  }

  /** markAsRead changes at most the read flag of one notification: the first
      with the id, which becomes read; with no match nothing changes. */
  lemma MarkedReadEffect(xs: seq<Notification>, id: string)
    ensures var r := MarkedRead(xs, id);
      && |r| == |xs|
      && (forall i :: 0 <= i < |xs| ==> r[i] == xs[i] || r[i] == xs[i].(read := true))
      && (forall i :: 0 <= i < |xs| && r[i] != xs[i] ==>
            xs[i].id == id && forall j :: 0 <= j < i ==> xs[j].id != id)
      && (forall i :: 0 <= i < |xs| && xs[i].id == id && (forall j :: 0 <= j < i ==> xs[j].id != id) ==>
            r[i].read)
      && ((forall i :: 0 <= i < |xs| ==> xs[i].id != id) ==> r == xs)
  {
    var k := FindIndex(xs, IdIs(id));
    forall i | 0 <= i < |xs| && xs[i].id == id && (forall j :: 0 <= j < i ==> xs[j].id != id)
      ensures k == i
    {
      assert IdIs(id)(xs[i]);
    }
    forall i | 0 <= i < |xs| && xs[i].id == id
      ensures k != -1
    {
      assert IdIs(id)(xs[i]);
    }
  }

  /** Marking the same notification twice is marking it once. */
  lemma MarkedReadIdempotent(xs: seq<Notification>, id: string)
    ensures MarkedRead(MarkedRead(xs, id), id) == MarkedRead(xs, id)
  {
    var k := FindIndex(xs, IdIs(id));
    var r := MarkedRead(xs, id);
    if k >= 0 {
      assert forall j :: 0 <= j < |r| ==> r[j].id == xs[j].id;
      var k' := FindIndex(r, IdIs(id));
      assert IdIs(id)(r[k]);
      assert k' == k;
    } else {
      assert r == xs;
    }
  }

  /** Marking a notification read lowers the unread count by one exactly when
      that notification was unread. */
  lemma {:induction false} MarkedReadUnread(xs: seq<Notification>, id: string)
    ensures var k := FindIndex(xs, IdIs(id));
      CountUnread(MarkedRead(xs, id)) == CountUnread(xs) - (if k >= 0 && !xs[k].read then 1 else 0)
    decreases |xs|
  {
    if xs != [] && !IdIs(id)(xs[0]) {
      MarkedReadUnread(xs[1..], id);
      var k := FindIndex(xs[1..], IdIs(id));
      if k >= 0 {
        assert MarkedRead(xs, id)[1..] == MarkedRead(xs[1..], id);
      } else {
        assert MarkedRead(xs, id) == xs;
      }
    } else if xs != [] {
      assert MarkedRead(xs, id)[1..] == xs[1..];
    }
  }

  /** After markAllAsRead nothing is unread. */
  lemma {:induction false} AllReadNothingUnread(xs: seq<Notification>)
    ensures CountUnread(AllRead(xs)) == 0
  {
  }

  /** LREM of the element at position i, when no earlier element equals
      it, removes exactly that position. */
  lemma {:induction false} LRemFirstAt(xs: seq<Notification>, i: nat)
    requires i < |xs|
    requires forall j :: 0 <= j < i ==> xs[j] != xs[i]
    ensures LRemFirst(xs, xs[i]) == RemoveAt(xs, i)
    decreases i
  {
    if i > 0 {
      var v := xs[i];
      assert xs[1..][i - 1] == v;
      forall j | 0 <= j < i - 1
        ensures xs[1..][j] != v
      {
        assert xs[1..][j] == xs[j + 1];
      }
      LRemFirstAt(xs[1..], i - 1);
      assert RemoveAt(xs, i) == [xs[0]] + RemoveAt(xs[1..], i - 1);
    }
  }

  /** LREM of the first notification with the id removes exactly that
      position: every earlier one has another id, so none of them is equal. */
  lemma LRemFirstIsDeleted(xs: seq<Notification>, id: string, i: nat)
    requires i < |xs| && xs[i].id == id
    requires forall j :: 0 <= j < i ==> xs[j].id != id
    ensures LRemFirst(xs, xs[i]) == RemoveAt(xs, i)
    ensures Deleted(xs, id) == RemoveAt(xs, i)
  {
    LRemFirstAt(xs, i);
    assert IdIs(id)(xs[i]);
  }

  /** deleteNotification removes one notification, the first with the id,
      and keeps the others in order; an absent id is a no-op. */
  lemma DeletedEffect(xs: seq<Notification>, id: string)
    ensures (forall i :: 0 <= i < |xs| ==> xs[i].id != id) ==> Deleted(xs, id) == xs
    ensures (exists i :: 0 <= i < |xs| && xs[i].id == id) ==>
      && |Deleted(xs, id)| == |xs| - 1
      && multiset(Deleted(xs, id)) + multiset{xs[FindIndex(xs, IdIs(id))]} == multiset(xs)
      && xs[FindIndex(xs, IdIs(id))].id == id
  {
    if exists i :: 0 <= i < |xs| && xs[i].id == id {
      var i :| 0 <= i < |xs| && xs[i].id == id;
      assert IdIs(id)(xs[i]);
    }
  }

  lemma {:induction false} AddressedToAppend(ns: seq<Notification>, n: Notification, u: UserId)
    ensures AddressedTo(ns + [n], u) == AddressedTo(ns, u) + (if n.userId == u then [n] else [])
  {
    assert (ns + [n])[..|ns + [n]| - 1] == ns;
  }

  /** LPUSH puts n at the head of its own user's list and leaves every other
      list as it was. */
  lemma QueueOfPushed(qs: Queues, n: Notification, u: UserId)
    ensures QueueOf(Pushed(qs, n), u) == (if n.userId == u then [n] else []) + QueueOf(qs, u)
  {
    if n.userId != u {
      assert [] + QueueOf(qs, u) == QueueOf(qs, u);
    }
  }

  lemma ReverseSnoc<T>(a: seq<T>, x: T)
    ensures Reverse(a + [x]) == [x] + Reverse(a)
  {
    assert (a + [x])[..|a + [x]| - 1] == a;
  }

  /** After pushing the first k of ns in turn, each user's list starts with
      the pushed notifications addressed to that user, newest first, followed
      by what it held before. */
  lemma {:induction false} PushFirstQueue(qs: Queues, ns: seq<Notification>, k: nat, u: UserId)
    requires k <= |ns|
    ensures QueueOf(PushFirst(qs, ns, k), u) == Reverse(AddressedTo(ns[..k], u)) + QueueOf(qs, u)
  {
    if k == 0 {
      assert ns[..k] == [];
    } else {
      var n := ns[k - 1];
      var a := AddressedTo(ns[..k - 1], u);
      var mine: seq<Notification> := if n.userId == u then [n] else [];
      var before := QueueOf(qs, u);
      assert QueueOf(PushFirst(qs, ns, k - 1), u) == Reverse(a) + before by {
        PushFirstQueue(qs, ns, k - 1, u);
      }
      assert QueueOf(PushFirst(qs, ns, k), u) == mine + QueueOf(PushFirst(qs, ns, k - 1), u) by {
        QueueOfPushed(PushFirst(qs, ns, k - 1), n, u);
      }
      assert AddressedTo(ns[..k], u) == a + mine by {
        TakeSnoc(ns, k);
        AddressedToAppend(ns[..k - 1], n, u);
      }
      assert Reverse(a + mine) == mine + Reverse(a) by {
        if n.userId == u {
          ReverseSnoc(a, n);
        } else {
          assert a + mine == a;
        }
      }
      AppendAssoc(mine, Reverse(a), before);
    }
  }

  class NotificationService {
    /** whether a Redis client is connected */
    const storeUp: bool
    /** whether initialize has handed over a socket service */
    const socketsAttached: bool
    var queues: Queues
    /** every hand-over to the socket service, oldest first */
    var outbox: seq<Outbound>

    ghost predicate Valid()
      reads this
    {
      WellFormedQueues(queues)
    }

    /** The list of u as stored. */
    function Queue(u: UserId): seq<Notification>
      reads this
    {
      QueueOf(queues, u)
    }

    /** initialize: the socket service is attached and the store is up
        exactly when the connection succeeded; the lists already in the
        store are kept as they are. */
    constructor (connected: bool, stored: Queues)
      requires WellFormedQueues(stored)
      ensures Valid()
      ensures socketsAttached && storeUp == connected && queues == stored && outbox == []
    {
      socketsAttached := true;
      storeUp := connected;
      queues := stored;
      outbox := [];
    }

    /** createNotification: a fresh unread notification is pushed at the head
        of its user's list when the store is up, and handed to the socket
        service for its user either way. */
    method CreateNotification(userId: UserId, kind: NotificationKind, title: string, message: string,
                              data: NoticeData, id: string, now: int) returns (n: Notification)
      requires Valid()
      modifies this`queues, this`outbox
      ensures Valid()
      ensures n == Notification(id, userId, kind, title, message, data, false, now)
      ensures queues == if storeUp then Pushed(old(queues), n) else old(queues)
      ensures outbox == old(outbox) + if socketsAttached then [LivePush(n)] else []
    {
      n := Notification(id, userId, kind, title, message, data, false, now);
      if storeUp {
        queues := queues[userId := [n] + Queue(userId)];
      }
      if socketsAttached {
        outbox := outbox + [UserEvent(userId, "notification", NotificationPayload(n))];
      }
    }

    /** getUserNotifications: the newest notifications, as many as the limit
        allows; nothing when the store is down. */
    function GetUserNotifications(userId: UserId, limit: int): (r: seq<Notification>)
      reads this
      ensures !storeUp ==> r == []
      ensures |r| <= |Queue(userId)| && r == Queue(userId)[..|r|]
      ensures storeUp && limit >= 1 ==> |r| == Min(limit, |Queue(userId)|)
      ensures storeUp && limit == 0 ==> r == Queue(userId)
    {
      if storeUp then LRangeFromHead(Queue(userId), limit - 1) else []
    }

    /** markAsRead: the first notification with the id becomes read. */
    method MarkAsRead(userId: UserId, notificationId: string)
      requires Valid()
      modifies this`queues
      ensures Valid()
      ensures queues == if storeUp && userId in old(queues)
                        then old(queues)[userId := MarkedRead(old(queues)[userId], notificationId)]
                        else old(queues)
    {
      if !storeUp {
        return;
      }
      var xs := Queue(userId);
      var i := 0;
      while i < |xs|
        invariant 0 <= i <= |xs|
        invariant forall j :: 0 <= j < i ==> xs[j].id != notificationId
        invariant queues == old(queues)
      {
        if xs[i].id == notificationId {
          queues := queues[userId := xs[i := xs[i].(read := true)]];
          ghost var k := FindIndex(xs, IdIs(notificationId));
          assert IdIs(notificationId)(xs[i]);
          assert k == i;
          return;
        }
        i := i + 1;
      }
      assert FindIndex(xs, IdIs(notificationId)) == -1;
      if userId in queues {
        assert queues[userId := xs] == queues;
      }
    }

    /** markAllAsRead: the list is deleted and the same notifications are
        pushed back at the tail, in the same order, each marked read. */
    method MarkAllAsRead(userId: UserId)
      requires Valid()
      modifies this`queues
      ensures Valid()
      ensures queues == if storeUp && userId in old(queues)
                        then old(queues)[userId := AllRead(old(queues)[userId])]
                        else old(queues)
    {
      if !storeUp {
        return;
      }
      var xs := Queue(userId);
      ghost var base := queues - {userId};
      queues := queues - {userId};
      var i := 0;
      while i < |xs|
        invariant 0 <= i <= |xs|
        invariant queues == if i == 0 then base else base[userId := AllRead(xs[..i])]
      {
        AllReadSnoc(xs, i);
        queues := queues[userId := QueueOf(queues, userId) + [xs[i].(read := true)]];
        i := i + 1;
      }
      assert xs[..i] == xs;
      if userId in old(queues) {
        assert QueueWellFormed(userId, xs);
        AllReadWellFormed(userId, xs);
        WellFormedUpdate(old(queues), userId, AllRead(xs));
      } else {
        assert queues == old(queues);
      }
    }

    /** deleteNotification: the first notification with the id is removed
        with LREM; a list left empty disappears. */
    method DeleteNotification(userId: UserId, notificationId: string)
      requires Valid()
      modifies this`queues
      ensures Valid()
      ensures queues == if storeUp && userId in old(queues)
                        then (var r := Deleted(old(queues)[userId], notificationId);
                              if r == [] then old(queues) - {userId} else old(queues)[userId := r])
                        else old(queues)
    {
      if !storeUp {
        return;
      }
      var xs := Queue(userId);
      var i := 0;
      while i < |xs|
        invariant 0 <= i <= |xs|
        invariant forall j :: 0 <= j < i ==> xs[j].id != notificationId
        invariant queues == old(queues)
      {
        if xs[i].id == notificationId {
          LRemFirstIsDeleted(xs, notificationId, i);
          var rest := LRemFirst(xs, xs[i]);
          RemoveAtWellFormed(userId, xs, i);
          WellFormedUpdate(queues, userId, rest);
          if rest == [] {
            queues := queues - {userId};
          } else {
            queues := queues[userId := rest];
          }
          return;
        }
        i := i + 1;
      }
      assert FindIndex(xs, IdIs(notificationId)) == -1;
      if userId in queues {
        assert queues[userId := xs] == queues;
      }
    }

    /** getUnreadCount: the unread notifications of the list, 0 when the
        store is down. */
    function GetUnreadCount(userId: UserId): (c: nat)
      reads this
      ensures !storeUp ==> c == 0
      ensures c <= |Queue(userId)|
      ensures storeUp ==> (c == 0 <==> forall i :: 0 <= i < |Queue(userId)| ==> Queue(userId)[i].read)
    {
      if storeUp then CountUnread(Queue(userId)) else 0
    }

    /** notifyNewCase */
    method NotifyNewCase(userId: UserId, caseId: string, caseTitle: string, id: string, now: int)
      requires Valid()
      modifies this`queues, this`outbox
      ensures Valid()
      ensures var n := Notification(id, userId, CaseNotice, "New Case Assigned",
                                    "You have been assigned to case: " + caseTitle, CaseRef(caseId), false, now);
        && queues == (if storeUp then Pushed(old(queues), n) else old(queues))
        && outbox == old(outbox) + (if socketsAttached then [LivePush(n)] else [])
    {
      var _ := CreateNotification(userId, CaseNotice, "New Case Assigned",
                                  "You have been assigned to case: " + caseTitle, CaseRef(caseId), id, now);
    }

    /** notifyNewReferral */
    method NotifyNewReferral(userId: UserId, referralId: string, id: string, now: int)
      requires Valid()
      modifies this`queues, this`outbox
      ensures Valid()
      ensures var n := Notification(id, userId, ReferralNotice, "New Referral",
                                    "You have received a new referral", ReferralRef(referralId), false, now);
        && queues == (if storeUp then Pushed(old(queues), n) else old(queues))
        && outbox == old(outbox) + (if socketsAttached then [LivePush(n)] else [])
    {
      var _ := CreateNotification(userId, ReferralNotice, "New Referral",
                                  "You have received a new referral", ReferralRef(referralId), id, now);
    }

    /** notifyNewMessage */
    method NotifyNewMessage(userId: UserId, caseId: string, senderName: string, id: string, now: int)
      requires Valid()
      modifies this`queues, this`outbox
      ensures Valid()
      ensures var n := Notification(id, userId, MessageNotice, "New Message",
                                    senderName + " sent a message in a case discussion", CaseRef(caseId), false, now);
        && queues == (if storeUp then Pushed(old(queues), n) else old(queues))
        && outbox == old(outbox) + (if socketsAttached then [LivePush(n)] else [])
    {
      var _ := CreateNotification(userId, MessageNotice, "New Message",
                                  senderName + " sent a message in a case discussion", CaseRef(caseId), id, now);
    }

    /** notifyEmergencyAlert: one emergency notification per listed user, in
        list order, then one emergency broadcast. The i-th notification gets
        id ids[i] and time times[i]. */
    method NotifyEmergencyAlert(userIds: seq<UserId>, ids: seq<string>, times: seq<int>,
                                alertId: string, alertTitle: string)
      requires Valid()
      requires |ids| == |userIds| && |times| == |userIds|
      modifies this`queues, this`outbox
      ensures Valid()
      ensures var ns := EmergencyNotices(userIds, ids, times, alertId, alertTitle);
        && queues == (if storeUp then PushFirst(old(queues), ns, |ns|) else old(queues))
        && outbox == old(outbox) + (if socketsAttached
                                    then PushedLive(ns, |ns|) + [EmergencyEvent(AlertPayload(alertId, alertTitle))]
                                    else [])
    {
      ghost var ns := EmergencyNotices(userIds, ids, times, alertId, alertTitle);
      var i := 0;
      while i < |userIds|
        invariant 0 <= i <= |userIds|
        invariant Valid()
        invariant queues == if storeUp then PushFirst(old(queues), ns, i) else old(queues)
        invariant outbox == old(outbox) + if socketsAttached then PushedLive(ns, i) else []
      {
        ghost var queuesBefore, outboxBefore := queues, outbox;
        var n := CreateNotification(userIds[i], EmergencyNotice, "Emergency Alert", alertTitle,
                                    AlertRef(alertId), ids[i], times[i]);
        assert n == ns[i];
        QueueStep(old(queues), queuesBefore, queues, ns, i, storeUp);
        OutboxStep(old(outbox), outboxBefore, outbox, ns, i, socketsAttached);
        i := i + 1;
      }
      if socketsAttached {
        AppendAssoc(old(outbox), PushedLive(ns, |ns|), [EmergencyEvent(AlertPayload(alertId, alertTitle))]);
        outbox := outbox + [EmergencyEvent(AlertPayload(alertId, alertTitle))];
      }
    }
  }
}
