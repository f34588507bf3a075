/**
 * Whole conversations with the signaling coordinator, each run from a fresh
 * server and stated as the exact messages it emits and the state it leaves.
 */
module SignalingScenarios {
  import opened Wrappers
  import opened Signaling

  /**
   * Alice (user 1, socket "a") calls Bob (user 2, socket "b"); they exchange
   * offer, answer and one ICE candidate each way; Bob accepts; Alice hangs up.
   */
  method HappyPath() returns (trace: seq<Delivery>, calls: map<CallId, Call>, users: map<UserId, SocketId>)
    ensures trace == [
      Broadcast("a", UserOnline(1)),
      Broadcast("b", UserOnline(2)),
      Unicast("b", IncomingCall("c", 1)),
      Unicast("b", OfferRelay("c", "sdp-offer", 1)),
      Unicast("a", AnswerRelay("c", "sdp-answer", 2)),
      Unicast("b", IceCandidateRelay("c", "ice-a", 1)),
      Unicast("a", IceCandidateRelay("c", "ice-b", 2)),
      Unicast("a", CallAcceptedNotice("c")),
      Unicast("a", CallEnded("c", None)),
      Unicast("b", CallEnded("c", None))]
    ensures calls == map[]
    ensures users == map[1 := "a", 2 := "b"]
  {
    var server := new Coordinator();
    server.Connect("a", 1);
    server.Connect("b", 2);
    server.CallInit("a", 1, "c", 2);
    server.Offer("a", 1, "c", "sdp-offer");
    server.Answer("b", 2, "c", "sdp-answer");
    server.IceCandidate("a", 1, "c", "ice-a", 2);
    server.IceCandidate("b", 2, "c", "ice-b", 1);
    server.CallAccepted("b", 2, "c");
    server.CallEnd("a", 1, "c");
    trace, calls, users := server.outbox, server.activeCalls, server.activeUsers;
  }

  /** Calling a user who is not connected records nothing; relays for the unknown call are dropped. */
  method CallingOfflineUser() returns (trace: seq<Delivery>, calls: map<CallId, Call>)
    ensures trace == [Broadcast("a", UserOnline(1)), Unicast("a", CallError(UserIsOffline))]
    ensures calls == map[]
  {
    var server := new Coordinator();
    server.Connect("a", 1);
    server.CallInit("a", 1, "c", 2);
    server.Offer("a", 1, "c", "sdp-offer");
    server.IceCandidate("a", 1, "c", "ice-a", 2);
    server.CallEnd("a", 1, "c");
    trace, calls := server.outbox, server.activeCalls;
  }

  /**
   * Bob drops while Alice's call to him is still ringing: Alice is told the
   * peer disconnected, the call is gone, and everyone else hears Bob is offline.
   */
  method DisconnectWhileRinging() returns (trace: seq<Delivery>, calls: map<CallId, Call>, users: map<UserId, SocketId>)
    ensures trace == [
      Broadcast("a", UserOnline(1)),
      Broadcast("b", UserOnline(2)),
      Unicast("b", IncomingCall("c", 1)),
      Unicast("a", CallEnded("c", Some(PeerDisconnected))),
      Broadcast("b", UserOffline(2))]
    ensures calls == map[]
    ensures users == map[1 := "a"]
  {
    var server := new Coordinator();
    server.Connect("a", 1);
    server.Connect("b", 2);
    server.CallInit("a", 1, "c", 2);
    server.Disconnect("b", 2);
    assert DisconnectNotices(["c"], map["c" := Call(1, 2, "a", "b")], 2) ==
      [Unicast("a", CallEnded("c", Some(PeerDisconnected)))];
    trace, calls, users := server.outbox, server.activeCalls, server.activeUsers;
  }

  /**
   * Bob is online; Alice opens a second tab (socket "a2"), then closes the first one: the
   * registration is deleted by user id, so the open tab "a2" can no longer
   * be called, and closing it announces her offline a second time.
   */
  method StaleTabDisconnect() returns (trace: seq<Delivery>, usersAfterFirst: map<UserId, SocketId>, users: map<UserId, SocketId>)
    ensures usersAfterFirst == map[2 := "b"]
    ensures users == map[2 := "b"]
    ensures trace == [
      Broadcast("b", UserOnline(2)),
      Broadcast("a", UserOnline(1)),
      Broadcast("a2", UserOnline(1)),
      Broadcast("a", UserOffline(1)),
      Unicast("b", CallError(UserIsOffline)),
      Broadcast("a2", UserOffline(1))]
  {
    var server := new Coordinator();
    server.Connect("b", 2);
    server.Connect("a", 1);
    server.Connect("a2", 1);
    server.Disconnect("a", 1);
    usersAfterFirst := server.activeUsers;
    server.CallInit("b", 2, "c", 1);
    server.Disconnect("a2", 1);
    trace, users := server.outbox, server.activeUsers;
  }
}
