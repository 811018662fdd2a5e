/**
  What the server says is so, with one exception: every message names a live, authenticated interactor
  and states a fact that the step makes or finds true, unless it answers a rejected authentication.
 */
module Attribution {
  import opened Bytes
  import opened Messages
  import opened HubModel
  import opened Indices
  import opened ServerInvariants
  import opened Sending
  import R = References
  import D = Data
  import LV = ListenerView

  /** `s` is connected under this user name and host. */
  ghost predicate SignedBy(people: People, s: Id, user: bytes, host: bytes) {
    Known(people, s) && people[s].user == Some(user) && people[s].host == host
  }

  /** A message to `r` is justified by the server before and after a step. */
  ghost predicate Genuine(before: Server, after: Server, r: Id, m: Message) {
    match m
    case ForwardedSubscriptionRequest(user, host, clientId, topic, isAdd) =>
      exists s :: SignedBy(before.people, s, user, host) && before.people[s].uuid == clientId &&
        if isAdd then s in after.hub.subs.Subscribers(topic)
        else s in before.hub.subs.Subscribers(topic) && after.hub.subs.Subscribers(topic) == {}
    case ForwardedMulticastData(user, host, topic, packets) =>
      && r in after.hub.subs.Subscribers(topic)
      && exists s :: SignedBy(before.people, s, user, host) &&
           (s in after.hub.pubs.PublishersOf(topic) || (packets == [] && before.hub.pubs.PublishersOf(topic) == {s}))
    case ForwardedUnicastData(user, host, clientId, topic, _) =>
      && r in before.people && before.people[r].uuid == clientId
      && exists s :: SignedBy(before.people, s, user, host) && s in after.hub.pubs.PublishersOf(topic)
    case AuthenticationResponse(success) => success ==> Known(after.people, r)
    case _ => false
  }

  // ---- Notices about subscriptions ----

  lemma NoticeIsGenuine(sv: Server, sv': Server, r: Id, s: Id, t: Topic, isAdd: bool)
    requires Known(sv.people, s)
    requires if isAdd then s in sv'.hub.subs.Subscribers(t)
             else s in sv.hub.subs.Subscribers(t) && sv'.hub.subs.Subscribers(t) == {}
    ensures Genuine(sv, sv', r, SubscriptionNotice(sv.people, s, t, isAdd))
  {
    assert SignedBy(sv.people, s, sv.people[s].user.value, sv.people[s].host);
  }

  /** While every subscriber is live, every entry of a snapshot names one. */
  lemma SnapshotIsGenuine(env: Env, sv: Server, sv': Server, r: Id, regex: Pattern, ts: seq<Topic>, m: Message)
    requires Orders(env) && R.Safe(sv) && sv'.hub.subs == sv.hub.subs
    requires m in Snapshot(env, sv.hub.subs, sv.people, regex, ts)
    ensures Genuine(sv, sv', r, m)
  {
    hide Genuine, Snapshot;
    LV.SnapshotEntries(env, sv.hub.subs, sv.people, regex, ts, m);
    var s, t :| t in ts && LV.IsEntry(env, sv.hub.subs, sv.people, regex, m, s, t);
    NoticeIsGenuine(sv, sv', r, s, t, true);
  }

  // ---- Requests ----

  lemma RequestIsGenuine(env: Env, sv: Server, id: Id, request: Message, r: Id, m: Message)
    requires Orders(env) && R.Safe(sv) && Known(sv.people, id) && ClientsKnown(sv)
    requires RequestSends(env, sv, id, request, r, m)
    ensures Genuine(sv, OnMessage(env, sv, id, request), r, m)
  {
    hide Snapshot, ClearanceFor, Notify, Notifs.Add, R.Safe, Orders;
    var sv' := OnMessage(env, sv, id, request);
    assert SignedBy(sv.people, id, sv.people[id].user.value, sv.people[id].host);
    match request
    case SubscriptionRequest(t, isAdd) =>
      NoticeIsGenuine(sv, sv', r, id, t, isAdd);
    case NotificationRequest(p, isAdd) =>
      var regexes := sv.hub.notifs.Add(env, id, p).regexes;
      SnapshotIsGenuine(env, sv, sv', r, regexes[p], env.topicOrder(sv.hub.subs.of.Keys), m);
    case UnicastData(clientId, t, packets) =>
      assert id in sv'.hub.pubs.PublishersOf(t);
    case MulticastData(t, packets) =>
      assert id in sv'.hub.pubs.PublishersOf(t);
    case _ =>
  }

  // ---- A disconnect ----

  lemma DepartureIsGenuine(env: Env, sv: Server, fd: int, r: Id, m: Message)
    requires Inv(env, sv) && Orders(env) && Possible(sv, Closed(fd)) && DepartureSends(env, sv, sv.fds[fd], r, m)
    ensures Genuine(sv, Step(env, sv, Closed(fd)), r, m)
  {
    hide Step, OnDisconnected, GoneList, StaleList, Subs.Drop, SubsInv, NotifsInv, PubsInv, Orders;
    var id, h, sv' := sv.fds[fd], sv.hub, Step(env, sv, Closed(fd));
    CloseEffect(env, sv, fd);
    GoneWereListed(env, h.subs, id);
    D.StaleTopics(env, h.pubs, id);
    assert IndexedKnown(sv, id);
    if t :| t in GoneList(env, h.subs, id) && m == SubscriptionNotice(sv.people, id, t, false) {
      NoticeIsGenuine(sv, sv', r, id, t, false);
    } else {
      assert SignedBy(sv.people, id, sv.people[id].user.value, sv.people[id].host);
    }
  }

  /** The topics announced as deserted had the departing interactor as a subscriber, and have none left. */
  lemma GoneWereListed(env: Env, subs: Subs, id: Id)
    requires SubsInv(subs) && Orders(env)
    ensures var gone := GoneList(env, subs, id);
      && (gone != [] ==> id in subs.topics)
      && forall t :: t in gone ==> id in subs.Subscribers(t) && subs.Drop(id).Subscribers(t) == {}
  {
    var q := env.topicOrder(subs.TopicsOf(id));
    assert Lists(q, subs.TopicsOf(id));
    LV.FilterLaw(q, subs.Deserted(id));
    var gone := GoneList(env, subs, id);
    if gone != [] {
      assert gone[0] in gone;
    }
    forall t | t in gone
      ensures id in subs.Subscribers(t)
    {
      assert SubsAt(subs, id, t);
    }
  }

  // ---- Authentication ----

  /** The answer to an authentication is always "true", which is so exactly when the credentials were accepted. */
  lemma AnswerExactness(env: Env, sv: Server, fd: int, authMethod: bytes, credentials: bytes)
    requires Inv(env, sv) && Possible(sv, Received(fd, AuthenticationRequest(authMethod, credentials)))
    requires !Known(sv.people, sv.fds[fd]) && env.authenticate(authMethod, credentials) != Threw
    ensures var id := sv.fds[fd];
      var sv' := Step(env, sv, Received(fd, AuthenticationRequest(authMethod, credentials)));
      && id in sv.outbox && sv'.outbox == sv.outbox[id := sv.outbox[id] + [AuthenticationResponse(true)]]
      && (Genuine(sv, sv', id, AuthenticationResponse(true)) <==> env.authenticate(authMethod, credentials).Accepted?)
  {
    hide SubsInv, NotifsInv, PubsInv;
  }

  /** The one event after which the server says what is not so. */
  predicate Misinforms(env: Env, sv: Server, e: Event) {
    && e.Received? && e.fd in sv.fds && !Known(sv.people, sv.fds[e.fd])
    && e.message.AuthenticationRequest?
    && env.authenticate(e.message.authMethod, e.message.credentials) == Rejected
  }

  // ---- Every step of every run ----

  /** While no dangling subscriber is listed, all that a step sends is genuine, unless it misinforms. */
  lemma StepIsGenuine(env: Env, sv: Server, e: Event)
    requires Inv(env, sv) && Orders(env) && Possible(sv, e) && R.Safe(sv)
    ensures var sv' := Step(env, sv, e);
      GrownBy((r, m) => Genuine(sv, sv', r, m), sv.outbox, sv'.outbox) <==> !Misinforms(env, sv, e)
  {
    hide Genuine, Inv, Step, Sends;
    var sv' := Step(env, sv, e);
    var sends, genuine := (r, m) => Sends(env, sv, e, r, m), (r, m) => Genuine(sv, sv', r, m);
    if Misinforms(env, sv, e) {
      FalseAnswer(env, sv, e);
    } else {
      QueuesOfPeople(env, sv);
      StepSends(env, sv, e);
      forall r, m | sends(r, m)
        ensures genuine(r, m)
      {
        SentIsGenuine(env, sv, e, r, m);
      }
      GrowsWeaker(sends, genuine, sv.outbox, sv'.outbox);
    }
  }

  lemma QueuesOfPeople(env: Env, sv: Server)
    requires Inv(env, sv)
    ensures sv.outbox.Keys == sv.people.Keys
  {
  }

  lemma FalseAnswer(env: Env, sv: Server, e: Event)
    requires Inv(env, sv) && Possible(sv, e) && Misinforms(env, sv, e)
    ensures var sv' := Step(env, sv, e);
      !GrownBy((r, m) => Genuine(sv, sv', r, m), sv.outbox, sv'.outbox)
  {
    hide SubsInv, NotifsInv, PubsInv;
    var id, sv' := sv.fds[e.fd], Step(env, sv, e);
    AnswerExactness(env, sv, e.fd, e.message.authMethod, e.message.credentials);
    assert sv'.outbox[id][|sv.outbox[id]|] == AuthenticationResponse(true);
  }

  lemma SentIsGenuine(env: Env, sv: Server, e: Event, r: Id, m: Message)
    requires Inv(env, sv) && Orders(env) && Possible(sv, e) && R.Safe(sv) && !Misinforms(env, sv, e)
    requires Sends(env, sv, e, r, m)
    ensures Genuine(sv, Step(env, sv, e), r, m)
  {
    hide RequestSends, DepartureSends, SubsInv, NotifsInv, PubsInv, OnMessage, OnDisconnected, R.Safe, Orders;
    match e
    case Received(fd, request) =>
      if Known(sv.people, sv.fds[fd]) {
        RequestIsGenuine(env, sv, sv.fds[fd], request, r, m);
      }
    case Closed(fd) => DepartureIsGenuine(env, sv, fd, r, m);
    case _ =>
  }

  /** With the maps bound by reference that is every step of every run. */
  lemma EveryMessageIsGenuine(env: Env, events: seq<Event>, e: Event)
    requires env.binding == ByReference && Orders(env) && Possible(Run(env, events), e)
    ensures var sv := Run(env, events); var sv' := Step(env, sv, e);
      GrownBy((r, m) => Genuine(sv, sv', r, m), sv.outbox, sv'.outbox) <==> !Misinforms(env, sv, e)
  {
    hide Inv, Run, Step, Genuine, GrownBy;
    var sv := Run(env, events);
    RunKeepsInv(env, events);
    forall s, t | s in sv.hub.subs.Subscribers(t)
      ensures Known(sv.people, s)
    {
      assert R.Mentions(sv.hub, s);
      R.NoDeadReferences(env, events, s);
    }
    StepIsGenuine(env, sv, e);
  }
}
