/** The connection registry of src/services/socketService.ts: the handshake
    gate, the `userSockets` map from user to socket ids kept by the
    connection and disconnect handlers, presence queries, and the events the
    service emits, recorded in a log instead of sent over socket.io. */
module Sockets {
  import opened Common

  /** A socket.io socket id. */
  type SocketId = string

  /** One event handed to socket.io. */
  datatype Emission =
    | ToSocket(socketId: SocketId, event: string, payload: Payload)  // io.to(socketId).emit
    | ToRoom(room: string, event: string, payload: Payload)          // io.to(room).emit
    | Broadcast(event: string, payload: Payload)                     // io.emit

  const EMERGENCY_ROOM: string := "emergency:alerts"

  datatype HandshakeError = NoTokenProvided | InvalidUser | InvalidToken

  /** String.prototype.replace with a string pattern: only the first
      occurrence, wherever it is, is replaced. */
  function ReplaceFirst(s: string, pat: string, rep: string): string
    requires pat != ""
    decreases |s|
  {
    if |s| < |pat| then s
    else if s[..|pat|] == pat then rep + s[|pat|..]
    else [s[0]] + ReplaceFirst(s[1..], pat, rep)
  }

  /** A header that starts with the pattern loses exactly that prefix. */
  lemma ReplaceFirstPrefix(pat: string, t: string)
    requires pat != ""
    ensures ReplaceFirst(pat + t, pat, "") == t
  {
    assert (pat + t)[..|pat|] == pat;
    assert (pat + t)[|pat|..] == t;
  }

  /** pat occurs in s starting at index i. */
  predicate OccursAt(s: string, pat: string, i: int) {
    0 <= i && i + |pat| <= |s| && s[i..i + |pat|] == pat
  }

  /** A string without the pattern anywhere is left as it is. */
  lemma {:induction false} ReplaceFirstAbsent(s: string, pat: string, rep: string)
    requires pat != ""
    requires forall i :: !OccursAt(s, pat, i)
    ensures ReplaceFirst(s, pat, rep) == s
    decreases |s|
  {
    if |s| >= |pat| {
      assert !OccursAt(s, pat, 0);
      assert s[0..|pat|] == s[..|pat|];
      forall i ensures !OccursAt(s[1..], pat, i) {
        if 0 <= i && i + |pat| <= |s[1..]| {
          assert s[1..][i..i + |pat|] == s[i + 1..i + 1 + |pat|];
          assert !OccursAt(s, pat, i + 1);
        }
      }
      ReplaceFirstAbsent(s[1..], pat, rep);
      assert s == [s[0]] + s[1..];
    }
  }

  /** The token of a handshake (line 30): `auth.token`, else the
      authorization header with its first "Bearer " removed. */
  function HandshakeToken(authToken: Option<string>, authHeader: Option<string>): Option<string> {
    if Present(authToken) then authToken
    else if authHeader.Some? then Some(ReplaceFirst(authHeader.value, "Bearer ", ""))
    else None
  }

  /** The handshake gate (lines 28-51): a missing token, a token the
      verifier refuses, and a missing or inactive user each fail; the claims
      are attached to the socket only when every check passes. The lookup
      is total here: a lookup that throws, which the source answers as an
      invalid token, is not modelled. */
  function Handshake(authToken: Option<string>, authHeader: Option<string>,
                     verify: string -> Option<Claims>, lookup: UserId -> Option<Account>)
    : (r: Result<Claims, HandshakeError>)
    ensures r.Ok? <==>
      var t := HandshakeToken(authToken, authHeader);
      && Present(t)
      && verify(t.value).Some?
      && lookup(verify(t.value).value.userId) == Some(Account(true))
    ensures r.Ok? ==> r.value == verify(HandshakeToken(authToken, authHeader).value).value
    ensures !Present(HandshakeToken(authToken, authHeader)) <==> r == Err(NoTokenProvided)
    ensures r == Err(InvalidToken) <==>
      Present(HandshakeToken(authToken, authHeader)) && verify(HandshakeToken(authToken, authHeader).value).None?
  {
    var t := HandshakeToken(authToken, authHeader);
    if !Present(t) then Err(NoTokenProvided)
    else match verify(t.value)
      case None => Err(InvalidToken)
      case Some(claims) =>
        if lookup(claims.userId) == Some(Account(true)) then Ok(claims) else Err(InvalidUser)
  }

  /** The socket ids tracked for u (`userSockets.get(u) || []`). */
  function SocketsOf(m: map<UserId, seq<SocketId>>, u: UserId): seq<SocketId> {
    if u in m then m[u] else []
  }

  /** No user is mapped to an empty list. */
  predicate NoEmptyEntries(m: map<UserId, seq<SocketId>>) {
    forall u :: u in m ==> m[u] != []
  }

  /** `sockets.filter(id => id !== s)` */
  function Without(ids: seq<SocketId>, s: SocketId): (r: seq<SocketId>)
    ensures |r| <= |ids|
    ensures forall x :: x in r <==> x in ids && x != s
    decreases |ids|
  {
    if ids == [] then []
    else (if ids[0] != s then [ids[0]] else []) + Without(ids[1..], s)
  }

  lemma {:induction false} WithoutAppend(a: seq<SocketId>, b: seq<SocketId>, s: SocketId)
    ensures Without(a + b, s) == Without(a, s) + Without(b, s)
    decreases |a|
  {
    if a == [] {
      assert a + b == b;
    } else {
      assert (a + b)[1..] == a[1..] + b;
      WithoutAppend(a[1..], b, s);
    }
  }

  lemma {:induction false} WithoutAbsent(ids: seq<SocketId>, s: SocketId)
    requires s !in ids
    ensures Without(ids, s) == ids
    decreases |ids|
  {
    if ids != [] {
      WithoutAbsent(ids[1..], s);
      assert ids == [ids[0]] + ids[1..];
    }
  }

  /** The map after the connection handler of a socket of u (lines 58-63). */
  function AfterConnect(m: map<UserId, seq<SocketId>>, u: UserId, s: SocketId): map<UserId, seq<SocketId>> {
    m[u := SocketsOf(m, u) + [s]]
  }

  /** The map after the disconnect handler of a socket of u (lines 127-138). */
  function AfterDisconnect(m: map<UserId, seq<SocketId>>, u: UserId, s: SocketId): map<UserId, seq<SocketId>> {
    var rest := Without(SocketsOf(m, u), s);
    if rest == [] then m - {u} else m[u := rest]
  }

  /** Connecting tracks the socket for u, keeps the invariant and leaves the
      other users alone. */
  lemma ConnectEffect(m: map<UserId, seq<SocketId>>, u: UserId, s: SocketId)
    requires NoEmptyEntries(m)
    ensures var m' := AfterConnect(m, u, s);
      && NoEmptyEntries(m')
      && SocketsOf(m', u) == SocketsOf(m, u) + [s]
      && (forall v :: v != u ==> SocketsOf(m', v) == SocketsOf(m, v))
  {
  }

  /** Disconnecting drops the socket from u's list; u stays online exactly
      when another socket of u is tracked; the other users are left alone and
      the invariant is kept. */
  lemma DisconnectEffect(m: map<UserId, seq<SocketId>>, u: UserId, s: SocketId)
    requires NoEmptyEntries(m)
    ensures var m' := AfterDisconnect(m, u, s);
      && NoEmptyEntries(m')
      && SocketsOf(m', u) == Without(SocketsOf(m, u), s)
      && (u in m' <==> exists x :: x in SocketsOf(m, u) && x != s)
      && (forall v :: v != u ==> SocketsOf(m', v) == SocketsOf(m, v))
  {
    var rest := Without(SocketsOf(m, u), s);
    if rest != [] {
      assert rest[0] in rest;
    }
  }

  /** Connecting a fresh socket and disconnecting it again restores the map;
      for a user without other sockets presence is offline again. */
  lemma ConnectDisconnectRoundTrip(m: map<UserId, seq<SocketId>>, u: UserId, s: SocketId)
    requires NoEmptyEntries(m)
    requires s !in SocketsOf(m, u)
    ensures AfterDisconnect(AfterConnect(m, u, s), u, s) == m
  {
    var old_ := SocketsOf(m, u);
    WithoutAppend(old_, [s], s);
    WithoutAbsent(old_, s);
    assert Without([s], s) == [];
    assert SocketsOf(AfterConnect(m, u, s), u) == old_ + [s];
    assert Without(old_ + [s], s) == old_;
    if old_ == [] {
      assert u !in m;
    }
  }

  /** One event per tracked socket, in the order of the list. */
  function FanOut(ids: seq<SocketId>, event: string, payload: Payload): (r: seq<Emission>)
    ensures |r| == |ids|
    ensures forall i :: 0 <= i < |ids| ==> r[i] == ToSocket(ids[i], event, payload)
    decreases |ids|
  {
    if ids == [] then [] else [ToSocket(ids[0], event, payload)] + FanOut(ids[1..], event, payload)
  }

  lemma FanOutSnoc(ids: seq<SocketId>, i: nat, event: string, payload: Payload)
    requires i < |ids|
    ensures FanOut(ids[..i + 1], event, payload) == FanOut(ids[..i], event, payload) + [ToSocket(ids[i], event, payload)]
  {
  }

  class SocketService {
    /** userId -> ids of the user's connected sockets */
    var userSockets: map<UserId, seq<SocketId>>
    /** every event handed to socket.io, oldest first */
    var log: seq<Emission>

    ghost predicate Valid()
      reads this
    {
      NoEmptyEntries(userSockets)
    }

    constructor ()
      ensures Valid() && userSockets == map[] && log == []
    {
      userSockets, log := map[], [];
    }

    /** The connection handler: the socket is appended to the user's list and
        user:online is broadcast on every connection, not only the first. */
    method OnConnection(socketId: SocketId, userId: Option<UserId>)
      requires Valid()
      modifies this
      ensures Valid()
      ensures Present(userId) ==>
        && userSockets == AfterConnect(old(userSockets), userId.value, socketId)
        && log == old(log) + [Broadcast("user:online", PresencePayload(userId.value))]
      ensures !Present(userId) ==> userSockets == old(userSockets) && log == old(log)
    {
      if Present(userId) {
        var sockets := SocketsOf(userSockets, userId.value);
        sockets := sockets + [socketId];
        userSockets := userSockets[userId.value := sockets];
        log := log + [Broadcast("user:online", PresencePayload(userId.value))];
      }
    }

    /** The disconnect handler: the socket is filtered out of the user's list;
        an emptied list is deleted and user:offline broadcast, otherwise the
        shorter list is stored and nothing is broadcast. */
    method OnDisconnect(socketId: SocketId, userId: Option<UserId>)
      requires Valid()
      modifies this
      ensures Valid()
      ensures Present(userId) ==>
        && userSockets == AfterDisconnect(old(userSockets), userId.value, socketId)
        && log == old(log) + (if userId.value in userSockets then []
                              else [Broadcast("user:offline", PresencePayload(userId.value))])
      ensures !Present(userId) ==> userSockets == old(userSockets) && log == old(log)
    {
      if Present(userId) {
        var u := userId.value;
        var sockets := SocketsOf(userSockets, u);
        var filtered := Without(sockets, socketId);
        if |filtered| == 0 {
          userSockets := userSockets - {u};
          log := log + [Broadcast("user:offline", PresencePayload(u))];
        } else {
          userSockets := userSockets[u := filtered];
        }
      }
    }

    /** emitToUser: one event per tracked socket of the user, none for an
        absent user. */
    method EmitToUser(userId: UserId, event: string, payload: Payload)
      modifies this`log
      ensures log == old(log) + FanOut(SocketsOf(userSockets, userId), event, payload)
    {
      if userId in userSockets {
        var sockets := userSockets[userId];
        var i := 0;
        while i < |sockets|
          invariant 0 <= i <= |sockets|
          invariant log == old(log) + FanOut(sockets[..i], event, payload)
        {
          FanOutSnoc(sockets, i, event, payload);
          AppendAssoc(old(log), FanOut(sockets[..i], event, payload), [ToSocket(sockets[i], event, payload)]);
          log := log + [ToSocket(sockets[i], event, payload)];
          i := i + 1;
        }
        assert sockets[..i] == sockets;
      }
    }

    /** emitEmergencyAlert: one event to the emergency room. */
    method EmitEmergencyAlert(payload: Payload)
      modifies this`log
      ensures log == old(log) + [ToRoom(EMERGENCY_ROOM, "emergency:alert", payload)]
    {
      log := log + [ToRoom(EMERGENCY_ROOM, "emergency:alert", payload)];
    }

    /** isUserOnline: u has a key, which under the invariant means at least
        one tracked socket. */
    function IsUserOnline(u: UserId): (online: bool)
      reads this
      requires Valid()
      ensures online <==> SocketsOf(userSockets, u) != []
    {
      u in userSockets
    }

    /** getOnlineUsers: every key of the map, each once. */
    method GetOnlineUsers() returns (users: seq<UserId>)
      ensures NoDup(users)
      ensures forall u :: u in users <==> u in userSockets
    {
      users := [];
      var pending := userSockets.Keys;
      while pending != {}
        invariant pending <= userSockets.Keys
        invariant NoDup(users)
        invariant forall u :: u in users <==> u in userSockets && u !in pending
        decreases pending
      {
        var u :| u in pending;
        users := users + [u];
        pending := pending - {u};
      }
    }
  }
}
