/**
 * The signaling coordinator of signaling-server.js. One process keeps two
 * in-memory maps, `activeUsers` (user id to socket id) and `activeCalls`
 * (call id to the two participants and their sockets), and runs one handler
 * per socket event. Handlers run one at a time to completion; each reads and
 * updates the maps and emits messages, which the model appends to an outbox.
 */
module Signaling {
  import opened Wrappers
  import opened Jwt

  type UserId = nat
  /** Socket.IO socket ids are non-empty strings, so a looked-up id is truthy exactly when it is present. */
  type SocketId = s: string | s != "" witness "s"
  type CallId = string
  /** An SDP offer or answer, or an ICE candidate: relayed without being read. */
  type Payload = string

  const PeerDisconnected := "peer-disconnected"
  const UserIsOffline := "User is offline"

  /** An `activeCalls` entry. */
  datatype Call = Call(caller: UserId, receiver: UserId, callerSocketId: SocketId, receiverSocketId: SocketId)

  /** The events the coordinator emits, with their payloads. */
  datatype Event =
    | UserOnline(userId: UserId)
    | IncomingCall(callId: CallId, callerId: UserId)
    | CallError(message: string)
    | OfferRelay(callId: CallId, offer: Payload, callerId: UserId)
    | AnswerRelay(callId: CallId, answer: Payload, receiverId: UserId)
    | IceCandidateRelay(callId: CallId, candidate: Payload, fromUserId: UserId)
    | CallAcceptedNotice(callId: CallId)
    | CallRejectedNotice(callId: CallId)
    | CallEnded(callId: CallId, reason: Option<string>)
    | UserOffline(userId: UserId)

  /** `io.to(socket).emit(...)` or `socket.emit(...)`, and `socket.broadcast.emit(...)` (everyone but the sender). */
  datatype Delivery = Unicast(to: SocketId, event: Event) | Broadcast(except: SocketId, event: Event)

  // ---------------------------------------------------------------------
  // The connection handshake (lines 19-34)

  /** What the handshake stores on the socket. */
  datatype Identity = Identity(userId: Option<UserId>, role: string)

  /**
   * `io.use(...)`: a connection without a token is refused with
   * 'Authentication error', one whose token the verifier refuses (expired
   * or otherwise) with 'Invalid token'.
   */
  function AuthenticateHandshake(token: Option<string>, verify: string -> TokenVerdict): (r: Result<Identity>)
    ensures r == Err("Authentication error") <==> token.None? || token.value == ""
    ensures r.Ok? <==> token.Some? && token.value != "" && verify(token.value).Verified?
    ensures r.Ok? ==> r.value.userId == verify(token.value).claims.userId && r.value.role != ""
    ensures r.Ok? ==> r.value.role == RoleOrDefault(verify(token.value).claims.role)
    ensures token.Some? && token.value != "" && !verify(token.value).Verified? ==> r == Err("Invalid token")
  {
    if token.None? || token.value == "" then Err("Authentication error")
    else
      match verify(token.value)
      case Verified(c) => Ok(Identity(c.userId, RoleOrDefault(c.role)))
      case _ => Err("Invalid token")
  }

  // ---------------------------------------------------------------------
  // What disconnect does to the calls, as functions of the state before it

  predicate Involves(c: Call, u: UserId) {
    c.caller == u || c.receiver == u
  }

  /** The socket of the participant that is not `u`. */
  function OtherSocket(c: Call, u: UserId): SocketId {
    if c.caller == u then c.receiverSocketId else c.callerSocketId
  }

  /** Call `k` exists and `u` takes part in it, so disconnecting `u` ends it. */
  predicate Ends(k: CallId, calls: map<CallId, Call>, u: UserId) {
    k in calls && Involves(calls[k], u)
  }

  predicate Distinct(s: seq<CallId>) {
    forall i, j :: 0 <= i < j < |s| ==> s[i] != s[j]
  }

  /** `order` lists the keys of `calls` once each: the iteration order of a JavaScript Map. */
  ghost predicate TracksKeys(order: seq<CallId>, calls: map<CallId, Call>) {
    Distinct(order) && forall k :: k in order <==> k in calls
  }

  /** `Map.delete` seen on the iteration order. */
  function Without(order: seq<CallId>, k: CallId): (r: seq<CallId>)
    ensures forall x :: x in r <==> x in order && x != k
    ensures Distinct(order) ==> Distinct(r)
    ensures k !in order ==> r == order
  {
    if order == [] then []
    else if order[0] == k then Without(order[1..], k)
    else
      var rest := Without(order[1..], k);
      DistinctCons(order[0], rest);
      DistinctCons(order[0], order[1..]);
      assert [order[0]] + order[1..] == order;
      [order[0]] + rest
  }

  lemma DistinctCons(x: CallId, s: seq<CallId>)
    ensures Distinct([x] + s) <==> x !in s && Distinct(s)
  {
    if x !in s && Distinct(s) {
      forall i, j | 0 <= i < j < |[x] + s| ensures ([x] + s)[i] != ([x] + s)[j] {
        if i == 0 {
          assert ([x] + s)[j] == s[j - 1];
        }
      }
    }
    if Distinct([x] + s) {
      forall j | 0 <= j < |s| ensures s[j] != x {
        assert ([x] + s)[0] == x && ([x] + s)[j + 1] == s[j];
      }
      forall i, j | 0 <= i < j < |s| ensures s[i] != s[j] {
        assert ([x] + s)[i + 1] == s[i] && ([x] + s)[j + 1] == s[j];
      }
    }
  }

  /** The calls that survive `u`'s disconnect. */
  function Survivors(calls: map<CallId, Call>, u: UserId): (r: map<CallId, Call>)
    ensures forall k :: k in r ==> !Involves(r[k], u)
    ensures forall k :: k in calls && !Involves(calls[k], u) ==> k in r && r[k] == calls[k]
    ensures r.Keys <= calls.Keys
  {
    map k | k in calls && !Involves(calls[k], u) :: calls[k]
  }

  /** The iteration order after `u`'s disconnect: the order of the surviving calls is kept. */
  function SurvivingOrder(order: seq<CallId>, calls: map<CallId, Call>, u: UserId): seq<CallId> {
    if order == [] then []
    else (if Ends(order[0], calls, u) then [] else [order[0]]) + SurvivingOrder(order[1..], calls, u)
  }

  /** The surviving order holds exactly the visited calls that do not end, each once if the order had no repeats. */
  lemma {:induction false} SurvivingMembers(order: seq<CallId>, calls: map<CallId, Call>, u: UserId)
    ensures forall k :: k in SurvivingOrder(order, calls, u) <==> k in order && !Ends(k, calls, u)
    ensures Distinct(order) ==> Distinct(SurvivingOrder(order, calls, u))
    decreases |order|
  {
    if order != [] {
      var rest := SurvivingOrder(order[1..], calls, u);
      SurvivingMembers(order[1..], calls, u);
      assert forall k :: k in order <==> k == order[0] || k in order[1..];
      assert [order[0]] + order[1..] == order;
      DistinctCons(order[0], order[1..]);
      if !Ends(order[0], calls, u) {
        DistinctCons(order[0], rest);
      }
    }
  }

  /** The notice the peer of call `k` gets when `u` disconnects, if `u` is in it. */
  function NoticeFor(k: CallId, calls: map<CallId, Call>, u: UserId): seq<Delivery> {
    if Ends(k, calls, u) then [Unicast(OtherSocket(calls[k], u), CallEnded(k, Some(PeerDisconnected)))] else []
  }

  /** The notices of `u`'s disconnect, in the iteration order of the calls. */
  function DisconnectNotices(order: seq<CallId>, calls: map<CallId, Call>, u: UserId): seq<Delivery> {
    if order == [] then [] else NoticeFor(order[0], calls, u) + DisconnectNotices(order[1..], calls, u)
  }

  lemma {:induction false} NoticesAppend(a: seq<CallId>, b: seq<CallId>, calls: map<CallId, Call>, u: UserId)
    ensures DisconnectNotices(a + b, calls, u) == DisconnectNotices(a, calls, u) + DisconnectNotices(b, calls, u)
    decreases |a|
  {
    if a == [] {
      assert a + b == b;
    } else {
      assert (a + b)[0] == a[0] && (a + b)[1..] == a[1..] + b;
      NoticesAppend(a[1..], b, calls, u);
    }
  }

  lemma {:induction false} SurvivingAppend(a: seq<CallId>, b: seq<CallId>, calls: map<CallId, Call>, u: UserId)
    ensures SurvivingOrder(a + b, calls, u) == SurvivingOrder(a, calls, u) + SurvivingOrder(b, calls, u)
    decreases |a|
  {
    if a == [] {
      assert a + b == b;
    } else {
      assert (a + b)[0] == a[0] && (a + b)[1..] == a[1..] + b;
      SurvivingAppend(a[1..], b, calls, u);
    }
  }

  lemma {:induction false} WithoutAppend(a: seq<CallId>, b: seq<CallId>, k: CallId)
    ensures Without(a + b, k) == Without(a, k) + Without(b, k)
    decreases |a|
  {
    if a == [] {
      assert a + b == b;
    } else {
      assert (a + b)[0] == a[0] && (a + b)[1..] == a[1..] + b;
      WithoutAppend(a[1..], b, k);
    }
  }

  /** Every notice goes to the other participant of a call the user was in, and says the peer disconnected. */
  lemma {:induction false} NoticesGoToPeers(order: seq<CallId>, calls: map<CallId, Call>, u: UserId)
    ensures forall d :: d in DisconnectNotices(order, calls, u) ==>
      exists k :: k in order && Ends(k, calls, u) && d == Unicast(OtherSocket(calls[k], u), CallEnded(k, Some(PeerDisconnected)))
    decreases |order|
  {
    if order != [] {
      NoticesGoToPeers(order[1..], calls, u);
      assert forall k :: k in order[1..] ==> k in order;
    }
  }

  /** Every call the user was in yields a notice to its other participant. */
  lemma {:induction false} EveryEndedCallNotified(order: seq<CallId>, calls: map<CallId, Call>, u: UserId)
    ensures forall k :: k in order && Ends(k, calls, u) ==>
      Unicast(OtherSocket(calls[k], u), CallEnded(k, Some(PeerDisconnected))) in DisconnectNotices(order, calls, u)
    decreases |order|
  {
    if order != [] {
      EveryEndedCallNotified(order[1..], calls, u);
      assert forall k :: k in order ==> k == order[0] || k in order[1..];
    }
  }

  /** Over an iteration order that lists each call once, an ended call's peer is told exactly once. */
  lemma {:induction false} EachPeerToldOnce(order: seq<CallId>, calls: map<CallId, Call>, u: UserId, k: CallId)
    requires Distinct(order) && k in order && Ends(k, calls, u)
    ensures multiset(DisconnectNotices(order, calls, u))[Unicast(OtherSocket(calls[k], u), CallEnded(k, Some(PeerDisconnected)))] == 1
    decreases |order|
  {
    var d := Unicast(OtherSocket(calls[k], u), CallEnded(k, Some(PeerDisconnected)));
    assert order == [order[0]] + order[1..];
    DistinctCons(order[0], order[1..]);
    var rest := DisconnectNotices(order[1..], calls, u);
    if order[0] == k {
      NoticesGoToPeers(order[1..], calls, u);
      assert d !in rest;
    } else {
      EachPeerToldOnce(order[1..], calls, u, k);
      assert d !in NoticeFor(order[0], calls, u);
    }
    assert DisconnectNotices(order, calls, u) == NoticeFor(order[0], calls, u) + rest;
  }

  /** Each visited call either yields one notice or survives: never both, never neither. */
  lemma {:induction false} NoticesPartitionOrder(order: seq<CallId>, calls: map<CallId, Call>, u: UserId)
    ensures |DisconnectNotices(order, calls, u)| + |SurvivingOrder(order, calls, u)| == |order|
    decreases |order|
  {
    if order != [] {
      NoticesPartitionOrder(order[1..], calls, u);
    }
  }

  /** The surviving order tracks the surviving calls, so the object invariant outlives a disconnect. */
  lemma SurvivorsTracked(order: seq<CallId>, calls: map<CallId, Call>, u: UserId)
    requires TracksKeys(order, calls)
    ensures TracksKeys(SurvivingOrder(order, calls, u), Survivors(calls, u))
  {
    SurvivingMembers(order, calls, u);
  }

  /** Disconnecting again ends nothing more: no call is left that involves the user. */
  lemma {:induction false} NothingLeftToEnd(order: seq<CallId>, calls: map<CallId, Call>, u: UserId)
    ensures DisconnectNotices(SurvivingOrder(order, calls, u), Survivors(calls, u), u) == []
    ensures Survivors(Survivors(calls, u), u) == Survivors(calls, u)
    ensures SurvivingOrder(SurvivingOrder(order, calls, u), Survivors(calls, u), u) == SurvivingOrder(order, calls, u)
    decreases |order|
  {
    if order != [] {
      NothingLeftToEnd(order[1..], calls, u);
      var head := if Ends(order[0], calls, u) then [] else [order[0]];
      var rest := SurvivingOrder(order[1..], calls, u);
      assert SurvivingOrder(order, calls, u) == head + rest;
      NoticesAppend(head, rest, Survivors(calls, u), u);
      SurvivingAppend(head, rest, Survivors(calls, u), u);
      if head != [] {
        assert head[1..] == [];
      }
    }
  }

  /** The calls left once the disconnect loop has visited the keys in `visited`. */
  function Pruned(calls: map<CallId, Call>, u: UserId, visited: seq<CallId>): map<CallId, Call> {
    map k | k in calls && !(k in visited && Involves(calls[k], u)) :: calls[k]
  }

  /** One more visited call adds its notice, if any, at the end. */
  lemma NoticesSnoc(order: seq<CallId>, calls: map<CallId, Call>, u: UserId, i: nat)
    requires i < |order|
    ensures DisconnectNotices(order[..i + 1], calls, u) == DisconnectNotices(order[..i], calls, u) + NoticeFor(order[i], calls, u)
  {
    var k := order[i];
    assert order[..i + 1] == order[..i] + [k];
    NoticesAppend(order[..i], [k], calls, u);
    assert DisconnectNotices([k], calls, u) == NoticeFor(k, calls, u) + DisconnectNotices([k][1..], calls, u);
  }

  /** One more visited call is kept at the end of the order, unless it ends. */
  lemma SurvivingSnoc(order: seq<CallId>, calls: map<CallId, Call>, u: UserId, i: nat)
    requires i < |order|
    ensures SurvivingOrder(order[..i + 1], calls, u) ==
      SurvivingOrder(order[..i], calls, u) + (if Ends(order[i], calls, u) then [] else [order[i]])
  {
    var k := order[i];
    assert order[..i + 1] == order[..i] + [k];
    SurvivingAppend(order[..i], [k], calls, u);
    assert SurvivingOrder([k], calls, u) ==
      (if Ends(k, calls, u) then [] else [k]) + SurvivingOrder([k][1..], calls, u);
  }

  /** In a list without repetitions, an element occurs neither before nor after its own position. */
  lemma DistinctAt(order: seq<CallId>, i: nat)
    requires Distinct(order) && i < |order|
    ensures order[i] !in order[..i] && order[i] !in order[i + 1..]
  {
    forall j | 0 <= j < i ensures order[..i][j] != order[i] { }
    forall j | i + 1 <= j < |order| ensures order[j] != order[i] { }
  }

  /** Deleting the visited key from "kept so far, then the unvisited rest". */
  lemma WithoutVisited(kept: seq<CallId>, order: seq<CallId>, i: nat)
    requires i < |order| && order[i] !in kept && order[i] !in order[i + 1..]
    ensures Without(kept + order[i..], order[i]) == kept + order[i + 1..]
  {
    var k := order[i];
    assert order[i..] == [k] + order[i + 1..];
    WithoutAppend(kept, order[i..], k);
    WithoutAppend([k], order[i + 1..], k);
    assert Without([k], k) == Without([k][1..], k) == [];
  }

  /** One more visited call is removed from the map if it ends. */
  lemma PrunedSnoc(calls: map<CallId, Call>, u: UserId, order: seq<CallId>, i: nat)
    requires i < |order|
    ensures Pruned(calls, u, order[..i + 1]) ==
      if Ends(order[i], calls, u) then Pruned(calls, u, order[..i]) - {order[i]} else Pruned(calls, u, order[..i])
  {
    assert order[..i + 1] == order[..i] + [order[i]];
    assert forall k :: k in order[..i + 1] <==> k in order[..i] || k == order[i];
  }

  /** The part of the coordinator the disconnect loop updates. */
  datatype Sweep = Sweep(calls: map<CallId, Call>, order: seq<CallId>, sent: seq<Delivery>)

  /** One turn of the disconnect loop, at key `k`: a call of `u`'s is ended and its peer told. */
  function Visit(s: Sweep, k: CallId, u: UserId): Sweep {
    if Ends(k, s.calls, u) then
      Sweep(s.calls - {k}, Without(s.order, k),
            s.sent + [Unicast(OtherSocket(s.calls[k], u), CallEnded(k, Some(PeerDisconnected)))])
    else s
  }

  /** The first `n` turns of the disconnect loop over `keys`. */
  function VisitFirst(s: Sweep, keys: seq<CallId>, n: nat, u: UserId): Sweep
    requires n <= |keys|
  {
    if n == 0 then s else Visit(VisitFirst(s, keys, n - 1, u), keys[n - 1], u)
  }

  /** The state after the first `n` turns, in terms of the state before the loop. */
  ghost predicate SweptUpTo(s: Sweep, start: Sweep, u: UserId, n: nat)
    requires n <= |start.order|
  {
    && s.calls == Pruned(start.calls, u, start.order[..n])
    && s.order == SurvivingOrder(start.order[..n], start.calls, u) + start.order[n..]
    && s.sent == start.sent + DisconnectNotices(start.order[..n], start.calls, u)
  }

  /** A turn at a key not visited before sees that key's call as it was before the loop. */
  lemma VisitUnvisited(s: Sweep, start: Sweep, u: UserId, n: nat)
    requires TracksKeys(start.order, start.calls) && n < |start.order| && SweptUpTo(s, start, u, n)
    ensures Ends(start.order[n], s.calls, u) == Ends(start.order[n], start.calls, u)
    ensures Ends(start.order[n], s.calls, u) ==> s.calls[start.order[n]] == start.calls[start.order[n]]
  {
    DistinctAt(start.order, n);
  }

  /** The calls after one more turn. */
  lemma VisitStepCalls(s: Sweep, start: Sweep, u: UserId, n: nat)
    requires TracksKeys(start.order, start.calls) && n < |start.order| && SweptUpTo(s, start, u, n)
    ensures Visit(s, start.order[n], u).calls == Pruned(start.calls, u, start.order[..n + 1])
  {
    VisitUnvisited(s, start, u, n);
    PrunedSnoc(start.calls, u, start.order, n);
  }

  /** Visiting a key that ends: it leaves the order, which it was in exactly once. */
  lemma OrderStepEnds(order: seq<CallId>, calls: map<CallId, Call>, u: UserId, n: nat)
    requires Distinct(order) && n < |order| && Ends(order[n], calls, u)
    ensures Without(SurvivingOrder(order[..n], calls, u) + order[n..], order[n]) ==
      SurvivingOrder(order[..n + 1], calls, u) + order[n + 1..]
  {
    SurvivingSnoc(order, calls, u, n);
    DistinctAt(order, n);
    SurvivingMembers(order[..n], calls, u);
    WithoutVisited(SurvivingOrder(order[..n], calls, u), order, n);
    assert SurvivingOrder(order[..n + 1], calls, u) == SurvivingOrder(order[..n], calls, u) + [];
  }

  /** Visiting a key that survives: the order is unchanged. */
  lemma OrderStepKeeps(order: seq<CallId>, calls: map<CallId, Call>, u: UserId, n: nat)
    requires n < |order| && !Ends(order[n], calls, u)
    ensures SurvivingOrder(order[..n + 1], calls, u) + order[n + 1..] == SurvivingOrder(order[..n], calls, u) + order[n..]
  {
    SurvivingSnoc(order, calls, u, n);
    assert order[n..] == [order[n]] + order[n + 1..];
  }

  /** The iteration order after one more turn. */
  lemma VisitStepOrder(s: Sweep, start: Sweep, u: UserId, n: nat)
    requires TracksKeys(start.order, start.calls) && n < |start.order| && SweptUpTo(s, start, u, n)
    ensures Visit(s, start.order[n], u).order == SurvivingOrder(start.order[..n + 1], start.calls, u) + start.order[n + 1..]
  {
    VisitUnvisited(s, start, u, n);
    if Ends(start.order[n], start.calls, u) {
      OrderStepEnds(start.order, start.calls, u, n);
    } else {
      OrderStepKeeps(start.order, start.calls, u, n);
    }
  }

  /** The notices after one more turn. */
  lemma VisitStepSent(s: Sweep, start: Sweep, u: UserId, n: nat)
    requires TracksKeys(start.order, start.calls) && n < |start.order| && SweptUpTo(s, start, u, n)
    ensures Visit(s, start.order[n], u).sent == start.sent + DisconnectNotices(start.order[..n + 1], start.calls, u)
  {
    VisitUnvisited(s, start, u, n);
    NoticesSnoc(start.order, start.calls, u, n);
  }

  /** One turn of the loop takes the state after `n` turns to the state after `n + 1`. */
  lemma VisitStep(s: Sweep, start: Sweep, u: UserId, n: nat)
    requires TracksKeys(start.order, start.calls) && n < |start.order| && SweptUpTo(s, start, u, n)
    ensures SweptUpTo(Visit(s, start.order[n], u), start, u, n + 1)
  {
    VisitStepCalls(s, start, u, n);
    VisitStepOrder(s, start, u, n);
    VisitStepSent(s, start, u, n);
  }

  /** The whole loop ends the user's calls, keeps the rest in order, and tells each peer once. */
  lemma {:induction false} VisitFirstMeetsSpec(start: Sweep, u: UserId, n: nat)
    requires TracksKeys(start.order, start.calls) && n <= |start.order|
    ensures SweptUpTo(VisitFirst(start, start.order, n, u), start, u, n)
  {
    if n == 0 {
      assert start.order[..0] == [];
      assert start.calls == Pruned(start.calls, u, []);
    } else {
      VisitFirstMeetsSpec(start, u, n - 1);
      VisitStep(VisitFirst(start, start.order, n - 1, u), start, u, n - 1);
    }
  }

  /** After the last turn, the state is the one the disconnect promises, and it is consistent. */
  lemma SweepComplete(start: Sweep, u: UserId)
    requires TracksKeys(start.order, start.calls)
    ensures VisitFirst(start, start.order, |start.order|, u) ==
      Sweep(Survivors(start.calls, u), SurvivingOrder(start.order, start.calls, u),
            start.sent + DisconnectNotices(start.order, start.calls, u))
    ensures TracksKeys(SurvivingOrder(start.order, start.calls, u), Survivors(start.calls, u))
  {
    VisitFirstMeetsSpec(start, u, |start.order|);
    assert start.order[..|start.order|] == start.order;
    assert Pruned(start.calls, u, start.order) == Survivors(start.calls, u);
    SurvivorsTracked(start.order, start.calls, u);
  }

  // ---------------------------------------------------------------------
  // The coordinator

  class Coordinator {
    /** userId -> socketId (line 15). */
    var activeUsers: map<UserId, SocketId>
    /** callId -> participants and their sockets (line 16). */
    var activeCalls: map<CallId, Call>
    /** The insertion order of `activeCalls`, which is the order a JavaScript Map iterates in. */
    var callOrder: seq<CallId>
    /** Every message emitted so far, oldest first. */
    var outbox: seq<Delivery>

    ghost predicate Valid()
      reads this
    {
      TracksKeys(callOrder, activeCalls)
    }

    constructor ()
      ensures Valid()
      ensures activeUsers == map[] && activeCalls == map[] && callOrder == [] && outbox == []
    {
      activeUsers := map[];
      activeCalls := map[];
      callOrder := [];
      outbox := [];
    }

    /** `io.on('connection')` (lines 39-43): the newest socket of a user replaces any earlier one. */
    method Connect(sid: SocketId, uid: UserId)
      requires Valid()
      modifies this`activeUsers, this`outbox
      ensures Valid()
      ensures activeUsers == old(activeUsers)[uid := sid]
      ensures outbox == old(outbox) + [Broadcast(sid, UserOnline(uid))]
    {
      activeUsers := activeUsers[uid := sid];
      outbox := outbox + [Broadcast(sid, UserOnline(uid))];
    }

    /**
     * 'call-init' (lines 46-66). A reachable receiver gets the call recorded
     * (replacing any call with the same id, which keeps its place in the
     * order) and an incoming-call notice; otherwise the caller gets an error.
     */
    method CallInit(sid: SocketId, uid: UserId, callId: CallId, receiverId: UserId)
      requires Valid()
      modifies this`activeCalls, this`callOrder, this`outbox
      ensures Valid()
      ensures receiverId in activeUsers ==>
        && activeCalls == old(activeCalls)[callId := Call(uid, receiverId, sid, activeUsers[receiverId])]
        && callOrder == (if callId in old(activeCalls) then old(callOrder) else old(callOrder) + [callId])
        && outbox == old(outbox) + [Unicast(activeUsers[receiverId], IncomingCall(callId, uid))]
      ensures receiverId !in activeUsers ==>
        && activeCalls == old(activeCalls) && callOrder == old(callOrder)
        && outbox == old(outbox) + [Unicast(sid, CallError(UserIsOffline))]
    {
      if receiverId in activeUsers {
        var receiverSocketId := activeUsers[receiverId];
        if callId !in activeCalls {
          callOrder := callOrder + [callId];
        }
        activeCalls := activeCalls[callId := Call(uid, receiverId, sid, receiverSocketId)];
        outbox := outbox + [Unicast(receiverSocketId, IncomingCall(callId, uid))];
      } else {
        outbox := outbox + [Unicast(sid, CallError(UserIsOffline))];
      }
    }

    /** 'offer' (lines 69-79): relayed to the call's receiver socket, tagged with the sender. */
    method Offer(sid: SocketId, uid: UserId, callId: CallId, offer: Payload)
      requires Valid()
      modifies this`outbox
      ensures Valid()
      ensures outbox == old(outbox) +
        if callId in activeCalls then [Unicast(activeCalls[callId].receiverSocketId, OfferRelay(callId, offer, uid))] else []
    {
      if callId in activeCalls {
        var call := activeCalls[callId];
        outbox := outbox + [Unicast(call.receiverSocketId, OfferRelay(callId, offer, uid))];
      }
    }

    /** 'answer' (lines 82-92): relayed to the call's caller socket, tagged with the sender. */
    method Answer(sid: SocketId, uid: UserId, callId: CallId, answer: Payload)
      requires Valid()
      modifies this`outbox
      ensures Valid()
      ensures outbox == old(outbox) +
        if callId in activeCalls then [Unicast(activeCalls[callId].callerSocketId, AnswerRelay(callId, answer, uid))] else []
    {
      if callId in activeCalls {
        var call := activeCalls[callId];
        outbox := outbox + [Unicast(call.callerSocketId, AnswerRelay(callId, answer, uid))];
      }
    }

    /** 'ice-candidate' (lines 95-105): addressed by user id, not by call; dropped when the target is away. */
    method IceCandidate(sid: SocketId, uid: UserId, callId: CallId, candidate: Payload, targetUserId: UserId)
      requires Valid()
      modifies this`outbox
      ensures Valid()
      ensures outbox == old(outbox) +
        if targetUserId in activeUsers then [Unicast(activeUsers[targetUserId], IceCandidateRelay(callId, candidate, uid))] else []
    {
      if targetUserId in activeUsers {
        var targetSocketId := activeUsers[targetUserId];
        outbox := outbox + [Unicast(targetSocketId, IceCandidateRelay(callId, candidate, uid))];
      }
    }

    /** 'call-accepted' (lines 108-114): only tells the caller; the call entry is not touched. */
    method CallAccepted(sid: SocketId, uid: UserId, callId: CallId)
      requires Valid()
      modifies this`outbox
      ensures Valid()
      ensures outbox == old(outbox) +
        if callId in activeCalls then [Unicast(activeCalls[callId].callerSocketId, CallAcceptedNotice(callId))] else []
    {
      if callId in activeCalls {
        var call := activeCalls[callId];
        outbox := outbox + [Unicast(call.callerSocketId, CallAcceptedNotice(callId))];
      }
    }

    /** 'call-rejected' (lines 117-125): tells the caller if the call exists, and deletes the id in any case. */
    method CallRejected(sid: SocketId, uid: UserId, callId: CallId)
      requires Valid()
      modifies this`activeCalls, this`callOrder, this`outbox
      ensures Valid()
      ensures activeCalls == old(activeCalls) - {callId}
      ensures callOrder == Without(old(callOrder), callId)
      ensures outbox == old(outbox) +
        if callId in old(activeCalls) then [Unicast(old(activeCalls)[callId].callerSocketId, CallRejectedNotice(callId))] else []
      ensures callId !in old(activeCalls) ==>
        activeCalls == old(activeCalls) && callOrder == old(callOrder) && outbox == old(outbox)
    {
      if callId in activeCalls {
        var call := activeCalls[callId];
        outbox := outbox + [Unicast(call.callerSocketId, CallRejectedNotice(callId))];
      }
      activeCalls := activeCalls - {callId};
      callOrder := Without(callOrder, callId);
    }

    /** 'call-end' (lines 128-138): both participants are told, caller first, and the call is removed. */
    method CallEnd(sid: SocketId, uid: UserId, callId: CallId)
      requires Valid()
      modifies this`activeCalls, this`callOrder, this`outbox
      ensures Valid()
      ensures callId in old(activeCalls) ==>
        && activeCalls == old(activeCalls) - {callId}
        && callOrder == Without(old(callOrder), callId)
        && outbox == old(outbox) + [Unicast(old(activeCalls)[callId].callerSocketId, CallEnded(callId, None)),
                                    Unicast(old(activeCalls)[callId].receiverSocketId, CallEnded(callId, None))]
      ensures callId !in old(activeCalls) ==>
        activeCalls == old(activeCalls) && callOrder == old(callOrder) && outbox == old(outbox)
    {
      if callId in activeCalls {
        var call := activeCalls[callId];
        outbox := outbox + [Unicast(call.callerSocketId, CallEnded(callId, None))];
        outbox := outbox + [Unicast(call.receiverSocketId, CallEnded(callId, None))];
        activeCalls := activeCalls - {callId};
        callOrder := Without(callOrder, callId);
      }
    }

    /**
     * 'disconnect' (lines 141-165). The user's registration is deleted
     * (whichever socket it points to), every call the user is in is ended
     * with a notice to the other participant, in iteration order, and the
     * user is announced offline. The loop walks a copy of the iteration
     * order and skips keys no longer present, which is what a live
     * JavaScript Map iterator does; the proof goes through `Visit`, one turn
     * of the loop, and `SweepComplete`.
     */
    method Disconnect(sid: SocketId, uid: UserId)
      requires Valid()
      modifies this`activeUsers, this`activeCalls, this`callOrder, this`outbox
      ensures Valid()
      ensures activeUsers == old(activeUsers) - {uid}
      ensures activeCalls == Survivors(old(activeCalls), uid)
      ensures callOrder == SurvivingOrder(old(callOrder), old(activeCalls), uid)
      ensures outbox == old(outbox) + DisconnectNotices(old(callOrder), old(activeCalls), uid) + [Broadcast(sid, UserOffline(uid))]
      ensures forall k :: k in activeCalls ==> !Involves(activeCalls[k], uid)
    {
      activeUsers := activeUsers - {uid};
      var order := callOrder;
      ghost var start := Sweep(activeCalls, callOrder, outbox);
      var i := 0;
      while i < |order|
        modifies this`activeCalls, this`callOrder, this`outbox
        invariant 0 <= i <= |order|
        invariant Sweep(activeCalls, callOrder, outbox) == VisitFirst(start, order, i, uid)
      {
        var callId := order[i];
        // A live Map iterator skips entries deleted before it reaches them.
        if callId in activeCalls {
          var call := activeCalls[callId];
          if call.caller == uid || call.receiver == uid {
            var otherSocketId := if call.caller == uid then call.receiverSocketId else call.callerSocketId;
            outbox := outbox + [Unicast(otherSocketId, CallEnded(callId, Some(PeerDisconnected)))];
            activeCalls := activeCalls - {callId};
            callOrder := Without(callOrder, callId);
          }
        }
        i := i + 1;
      }
      SweepComplete(start, uid);
      outbox := outbox + [Broadcast(sid, UserOffline(uid))];
    }
  }
}
