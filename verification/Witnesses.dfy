/** Concrete runs, from the start, that end as the code should not. */
module Witnesses {
  import opened Bytes
  import opened Messages
  import opened HubModel
  import opened Indices
  import opened ServerInvariants
  import opened References
  import At = Attribution

  const TOPIC: Topic := [84]

  function Then(env: Env, sv: Server, e: Event): Server {
    if Enabled(env, sv, e) then Step(env, sv, e) else sv
  }

  lemma RunSnoc(env: Env, events: seq<Event>, e: Event)
    ensures Run(env, events + [e]) == Then(env, Run(env, events), e)
    ensures events == [] ==> Run(env, events) == STARTING
  {
    assert (events + [e])[..|events|] == events;
  }

  // ---- Two clients ----

  /** Two clients connect and authenticate. */
  function TwoClients(authMethod: bytes, credentials: bytes): seq<Event> {
    [Opened(1, 1, [], [1]), Opened(2, 2, [], [2]),
     Received(1, AuthenticationRequest(authMethod, credentials)),
     Received(2, AuthenticationRequest(authMethod, credentials))]
  }

  function TwoPeople(user: bytes): People {
    map[1 := Info(1, [], [1], Some(user)), 2 := Info(2, [], [2], Some(user))]
  }

  lemma TwoConnected(env: Env, authMethod: bytes, credentials: bytes, user: bytes)
    requires env.authenticate(authMethod, credentials) == Accepted(user)
    ensures var sv := Run(env, TwoClients(authMethod, credentials));
      sv.people == TwoPeople(user) && sv.fds == map[1 := 1, 2 := 2] && sv.hub == EMPTY_HUB
  {
    hide Inv, Notify, OnNotification, OnUnicast, OnMulticast, OnDisconnected, Run;
    var q := TwoClients(authMethod, credentials);
    assert q[..1] == [] + [q[0]] && q[..2] == q[..1] + [q[1]] && q[..3] == q[..2] + [q[2]] && q == q[..3] + [q[3]];
    RunSnoc(env, [], q[0]);
    RunSnoc(env, q[..1], q[1]);
    RunSnoc(env, q[..2], q[2]);
    RunSnoc(env, q[..3], q[3]);
    var s1 := Then(env, STARTING, q[0]);
    assert s1.people == map[1 := Info(1, [], [1], None)] && s1.fds == map[1 := 1] && s1.hub == EMPTY_HUB;
    var s2 := Then(env, s1, q[1]);
    assert s2.people == map[1 := Info(1, [], [1], None), 2 := Info(2, [], [2], None)];
    assert s2.fds == map[1 := 1, 2 := 2] && s2.hub == EMPTY_HUB;
    var s3 := Then(env, s2, q[2]);
    assert s3.people == map[1 := Info(1, [], [1], Some(user)), 2 := Info(2, [], [2], None)];
  }

  // ---- Dangling and trespassing ----

  /** The two clients subscribe to one topic. */
  function TwoSubscribers(authMethod: bytes, credentials: bytes): seq<Event> {
    TwoClients(authMethod, credentials)
      + [Received(1, SubscriptionRequest(TOPIC, true))] + [Received(2, SubscriptionRequest(TOPIC, true))]
  }

  lemma TwoSubscribed(env: Env, authMethod: bytes, credentials: bytes, user: bytes)
    requires env.authenticate(authMethod, credentials) == Accepted(user)
    ensures var sv := Run(env, TwoSubscribers(authMethod, credentials));
      && sv.people == TwoPeople(user) && sv.fds == map[1 := 1, 2 := 2]
      && sv.hub.subs.of == map[TOPIC := map[1 := 1, 2 := 1]]
  {
    hide Inv, Notify, OnNotification, OnUnicast, OnMulticast, OnDisconnected, Run;
    var q, e := TwoClients(authMethod, credentials), Received(1, SubscriptionRequest(TOPIC, true));
    TwoConnected(env, authMethod, credentials, user);
    RunSnoc(env, q, e);
    RunSnoc(env, q + [e], Received(2, SubscriptionRequest(TOPIC, true)));
    assert Run(env, q + [e]).hub.subs.of == map[TOPIC := map[1 := 1]];
  }

  /** The first of them unsubscribes and leaves. */
  function OneLeaves(authMethod: bytes, credentials: bytes): seq<Event> {
    TwoSubscribers(authMethod, credentials) + [Received(1, SubscriptionRequest(TOPIC, false))] + [Closed(1)]
  }

  /** As written, it is still listed. */
  lemma DeadReferenceAsWritten(env: Env, authMethod: bytes, credentials: bytes, user: bytes)
    requires env.binding == ByCopy && env.authenticate(authMethod, credentials) == Accepted(user)
    ensures var sv := Run(env, OneLeaves(authMethod, credentials));
      && 1 in sv.hub.subs.Subscribers(TOPIC) && Dangling(sv, 1)
      && sv.people == map[2 := Info(2, [], [2], Some(user))] && sv.fds == map[2 := 2]
  {
    hide Inv, Run, OnDisconnected, OnMessage;
    TwoSubscribed(env, authMethod, credentials, user);
    var q := TwoSubscribers(authMethod, credentials);
    var e := Received(1, SubscriptionRequest(TOPIC, false));
    RunKeepsInv(env, q);
    RunSnoc(env, q, e);
    RunSnoc(env, q + [e], Closed(1));
    var sv := Run(env, q);
    assert 2 in sv.hub.subs.Subscribers(TOPIC);
    LostUnsubscription(env, sv, 1, TOPIC);
    MessageLeavesPeople(env, sv, 1, SubscriptionRequest(TOPIC, false));
    CloseEffect(env, Run(env, q + [e]), 1);
  }

  /** As written, whoever is given its address next is a subscriber without having authenticated. */
  lemma TrespasserAsWritten(env: Env, authMethod: bytes, credentials: bytes, user: bytes)
    requires env.binding == ByCopy && env.authenticate(authMethod, credentials) == Accepted(user)
    ensures var sv := Run(env, OneLeaves(authMethod, credentials) + [Opened(7, 1, [], [7])]);
      Trespasses(sv, 1) && 1 in sv.hub.subs.Subscribers(TOPIC)
  {
    hide Run;
    DeadReferenceAsWritten(env, authMethod, credentials, user);
    RunSnoc(env, OneLeaves(authMethod, credentials), Opened(7, 1, [], [7]));
  }

  // ---- A listener that is not recorded ----

  /** The two clients ask to listen under the same pattern. */
  function TwoListeners(authMethod: bytes, credentials: bytes, p: Pattern): seq<Event> {
    TwoClients(authMethod, credentials)
      + [Received(1, NotificationRequest(p, true))] + [Received(2, NotificationRequest(p, true))]
  }

  /** As written, the second of them is no listener, though the pattern is among its own. */
  lemma UnrecordedAsWritten(env: Env, authMethod: bytes, credentials: bytes, user: bytes, p: Pattern)
    requires env.binding == ByCopy && env.authenticate(authMethod, credentials) == Accepted(user) && env.isPattern(p)
    ensures var sv := Run(env, TwoListeners(authMethod, credentials, p));
      && sv.hub.notifs.ListeningTo(p) == {1} && sv.hub.notifs.PatternsOf(2) == {p}
      && Unrecorded(sv.hub.notifs, 2, p)
  {
    hide Inv, Notify, OnSubscription, OnUnicast, OnMulticast, OnDisconnected, Run, Snapshot;
    var q, e := TwoClients(authMethod, credentials), Received(1, NotificationRequest(p, true));
    TwoConnected(env, authMethod, credentials, user);
    RunSnoc(env, q, e);
    RunSnoc(env, q + [e], Received(2, NotificationRequest(p, true)));
    assert Run(env, q + [e]).hub.notifs.of == map[p := map[1 := 1]];
  }

  // ---- A client that has just connected ----

  lemma OneConnected(env: Env)
    ensures Run(env, [Opened(1, 1, [], [1])]) ==
      STARTING.(people := map[1 := Info(1, [], [1], None)], fds := map[1 := 1], outbox := map[1 := []])
  {
    hide Run;
    assert [] + [Opened(1, 1, [], [1])] == [Opened(1, 1, [], [1])];
    RunSnoc(env, [], Opened(1, 1, [], [1]));
  }

  /** Its first message is a subscription, which dereferences the null pointer. */
  lemma FirstMessageSubscribes(env: Env)
    ensures var sv := Run(env, [Opened(1, 1, [], [1])]);
      && Possible(sv, Received(1, SubscriptionRequest(TOPIC, true)))
      && OutcomeOf(env, sv, 1, SubscriptionRequest(TOPIC, true)) == NullDereferenced
  {
    hide Run;
    OneConnected(env);
  }

  /** Its credentials are rejected, and the answer waiting in its queue says that they were accepted. */
  lemma RejectedIsToldTrue(env: Env, authMethod: bytes, credentials: bytes)
    requires env.authenticate(authMethod, credentials) == Rejected
    ensures var sv := Run(env, [Opened(1, 1, [], [1])]);
      var e := Received(1, AuthenticationRequest(authMethod, credentials));
      && Possible(sv, e) && At.Misinforms(env, sv, e)
      && Step(env, sv, e).outbox == map[1 := [AuthenticationResponse(true)]]
      && !Known(Step(env, sv, e).people, 1)
  {
    hide Run;
    OneConnected(env);
    assert [] + [AuthenticationResponse(true)] == [AuthenticationResponse(true)];
  }
}
