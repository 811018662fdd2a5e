/**
  What every run of the server keeps: the indices, who may be in them, and the exact events that
  break the rest when a map is bound by copy.
 */
module ServerInvariants {
  import opened Bytes
  import opened Messages
  import opened HubModel
  import opened Indices

  // ---- Who is connected ----

  /** Descriptors and interactors are in one-to-one correspondence and each has a queue. */
  ghost predicate Wired(sv: Server) {
    && sv.outbox.Keys == sv.people.Keys
    && (forall fd :: fd in sv.fds ==> sv.fds[fd] in sv.people && sv.people[sv.fds[fd]].fd == fd)
    && (forall id :: id in sv.people ==> sv.people[id].fd in sv.fds && sv.fds[sv.people[id].fd] == id)
    && (forall i, j :: i in sv.people && j in sv.people && sv.people[i].uuid == sv.people[j].uuid ==> i == j)
  }

  /** An interactor in an index is live and its user is set: `user()` is defined on it. */
  ghost predicate IndexedKnown(sv: Server, id: Id) {
    && (id in sv.hub.subs.topics ==> Known(sv.people, id))
    && (id in sv.hub.notifs.patterns ==> Known(sv.people, id))
    && (id in sv.hub.pubs.topics ==> Known(sv.people, id))
  }

  /** The hub's clients are live, authenticated and filed under their own uuid. */
  ghost predicate ClientsKnown(sv: Server) {
    forall u :: u in sv.hub.interactors ==>
      Known(sv.people, sv.hub.interactors[u]) && sv.people[sv.hub.interactors[u]].uuid == u
  }

  /** What holds after every run, also of the code as written. */
  ghost predicate Inv(env: Env, sv: Server) {
    && Wired(sv)
    && SubsInv(sv.hub.subs) && NotifsInv(env.binding, sv.hub.notifs) && PubsInv(sv.hub.pubs)
    && (forall id :: IndexedKnown(sv, id))
    && ClientsKnown(sv)
  }

  /** What holds besides when the two directions of each index agree. */
  ghost predicate Agree(sv: Server) {
    SubsAgree(sv.hub.subs) && NotifsAgree(sv.hub.notifs)
  }

  /** The requests whose effect is lost on a copy. */
  predicate Lost(sv: Server, e: Event) {
    && e.Received? && e.fd in sv.fds && Known(sv.people, sv.fds[e.fd])
    && match e.message
       case SubscriptionRequest(topic, isAdd) => !isAdd && Orphans(sv.hub.subs, sv.fds[e.fd], topic)
       case NotificationRequest(pattern, isAdd) => isAdd && Unrecorded(sv.hub.notifs, sv.fds[e.fd], pattern)
       case _ => false
  }

  // ---- The outbox keeps its keys ----

  lemma {:induction false} NotifyGoneKeys(
    env: Env, ns: Notifs, people: People, ob: Outbox, s: Id, ts: seq<Topic>)
    ensures NotifyGone(env, ns, people, ob, s, ts).Keys == ob.Keys
  {
    if ts != [] {
      NotifyGoneKeys(env, ns, people, ob, s, ts[..|ts| - 1]);
    }
  }

  lemma {:induction false} SendGoneKeys(subs: Subs, people: People, ob: Outbox, p: Id, ts: seq<Topic>)
    ensures SendGone(subs, people, ob, p, ts).Keys == ob.Keys
  {
    if ts != [] {
      SendGoneKeys(subs, people, ob, p, ts[..|ts| - 1]);
    }
  }

  // ---- One request ----

  /** The invariant, for a hub that has changed and an outbox that has only grown. */
  lemma HubChanged(env: Env, sv: Server, sv': Server, id: Id)
    requires Inv(env, sv) && Known(sv.people, id)
    requires sv'.people == sv.people && sv'.fds == sv.fds && sv'.outbox.Keys == sv.outbox.Keys
    requires sv'.hub.interactors == sv.hub.interactors
    requires SubsInv(sv'.hub.subs) && NotifsInv(env.binding, sv'.hub.notifs) && PubsInv(sv'.hub.pubs)
    requires sv'.hub.subs.topics.Keys <= sv.hub.subs.topics.Keys + {id}
    requires sv'.hub.notifs.patterns.Keys <= sv.hub.notifs.patterns.Keys + {id}
    requires sv'.hub.pubs.topics.Keys <= sv.hub.pubs.topics.Keys + {id}
    ensures Inv(env, sv')
  {
    hide SubsInv, NotifsInv, PubsInv;
    forall i
      ensures IndexedKnown(sv', i)
    {
      assert IndexedKnown(sv, i);
    }
  }

  /** A request keeps the invariant exactly when it does not leave a pattern without an expression. */
  lemma MessageKeepsInv(env: Env, sv: Server, id: Id, m: Message)
    requires Inv(env, sv) && Known(sv.people, id)
    ensures Inv(env, OnMessage(env, sv, id, m)) <==>
      !(m.NotificationRequest? && m.isAdd && sv.hub.notifs.AddThrows(env, m.topicPattern))
  {
    hide SubsInv, NotifsInv, PubsInv, Wired, ClientsKnown, IndexedKnown, Snapshot, Notifs.Listeners;
    var sv' := OnMessage(env, sv, id, m);
    match m
    case SubscriptionRequest(topic, isAdd) =>
      if isAdd {
        SubsAdd(sv.hub.subs, id, topic);
      } else {
        SubsRemove(sv.hub.subs, env.binding, id, topic);
      }
      HubChanged(env, sv, sv', id);
    case NotificationRequest(pattern, isAdd) =>
      if isAdd {
        NotifsAdd(env, sv.hub.notifs, id, pattern);
      } else {
        NotifsRemove(env.binding, sv.hub.notifs, id, pattern);
      }
      if !(isAdd && sv.hub.notifs.AddThrows(env, pattern)) {
        HubChanged(env, sv, sv', id);
      }
    case UnicastData(_, _, _) => DataKeepsInv(env, sv, id, m);
    case MulticastData(_, _) => DataKeepsInv(env, sv, id, m);
    case _ =>
  }

  lemma DataKeepsInv(env: Env, sv: Server, id: Id, m: Message)
    requires Inv(env, sv) && Known(sv.people, id) && (m.UnicastData? || m.MulticastData?)
    ensures Inv(env, OnMessage(env, sv, id, m))
  {
    hide SubsInv, NotifsInv, PubsInv, Wired, ClientsKnown, IndexedKnown;
    PubsAdd(sv.hub.pubs, id, m.topic);
    HubChanged(env, sv, OnMessage(env, sv, id, m), id);
  }

  // ---- One disconnect ----

  lemma CloseKeepsInv(env: Env, sv: Server, fd: int)
    requires Inv(env, sv) && Enabled(env, sv, Closed(fd))
    ensures Inv(env, Step(env, sv, Closed(fd)))
  {
    var id := sv.fds[fd];
    var sv' := Step(env, sv, Closed(fd));
    assert sv.people[id].fd == fd;
    SubsDrop(sv.hub.subs, id);
    NotifsDrop(env.binding, sv.hub.notifs, id);
    PubsDrop(sv.hub.pubs, id);
    CloseKeys(env, sv, fd);
    CloseEffect(env, sv, fd);
    hide SubsInv, NotifsInv, PubsInv, OnDisconnected, Step, Wired, ClientsKnown;
    CloseWiring(sv, sv', id);
    forall i
      ensures IndexedKnown(sv', i)
    {
      assert IndexedKnown(sv, i);
    }
  }

  lemma CloseWiring(sv: Server, sv': Server, id: Id)
    requires Wired(sv) && ClientsKnown(sv) && id in sv.people
    requires sv'.people == sv.people - {id} && sv'.fds == sv.fds - {sv.people[id].fd}
    requires sv'.outbox.Keys == sv.outbox.Keys - {id}
    requires sv'.hub.interactors == sv.hub.interactors - {sv.people[id].uuid}
    ensures Wired(sv') && ClientsKnown(sv')
  {
  }

  /** What a disconnect does, apart from the messages it sends. */
  lemma CloseEffect(env: Env, sv: Server, fd: int)
    requires Enabled(env, sv, Closed(fd))
    ensures var id := sv.fds[fd];
      var sv' := Step(env, sv, Closed(fd));
      && sv'.people == sv.people - {id} && sv'.fds == sv.fds - {fd} && sv'.specs == sv.specs
      && sv'.hub.subs == sv.hub.subs.Drop(id)
      && sv'.hub.notifs == sv.hub.notifs.Drop(id)
      && sv'.hub.pubs == sv.hub.pubs.Drop(id)
      && sv'.hub.interactors == sv.hub.interactors - {sv.people[id].uuid}
      && sv'.hub.subs.topics == sv.hub.subs.topics - {id}
      && sv'.hub.notifs.patterns == sv.hub.notifs.patterns - {id}
      && sv'.hub.pubs.topics == sv.hub.pubs.topics - {id}
  {
    hide NotifyGone, SendGone;
  }

  lemma CloseKeys(env: Env, sv: Server, fd: int)
    requires Wired(sv) && Enabled(env, sv, Closed(fd))
    ensures Step(env, sv, Closed(fd)).outbox.Keys == sv.outbox.Keys - {sv.fds[fd]}
  {
    var id, h := sv.fds[fd], sv.hub;
    var ob := sv.outbox - {id};
    var gone := GoneList(env, h.subs, id);
    NotifyGoneKeys(env, h.notifs, sv.people, ob, id, gone);
    SendGoneKeys(h.subs.Drop(id), sv.people, NotifyGone(env, h.notifs, sv.people, ob, id, gone), id,
      StaleList(env, h.pubs, id));
  }

  // ---- Every run ----

  /** Every event keeps the invariant, except exactly a request to listen that spoils the index. */
  lemma StepKeepsInv(env: Env, sv: Server, e: Event)
    requires Inv(env, sv) && Possible(sv, e)
    ensures Inv(env, Step(env, sv, e)) <==> !Spoils(env, sv, e)
  {
    match e
    case Opened(fd, id, host, uuid) => OpenKeepsInv(env, sv, e);
    case Received(fd, m) =>
      if Known(sv.people, sv.fds[fd]) {
        MessageKeepsInv(env, sv, sv.fds[fd], m);
      } else {
        AuthenticationKeepsInv(env, sv, e);
      }
    case Connected(id) => ConnectKeepsInv(env, sv, e);
    case Closed(fd) => CloseKeepsInv(env, sv, fd);
    case Reloaded(specs) =>
      hide SubsInv, NotifsInv, PubsInv;
      forall i
        ensures IndexedKnown(Step(env, sv, e), i)
      {
        assert IndexedKnown(sv, i);
      }
  }

  lemma OpenKeepsInv(env: Env, sv: Server, e: Event)
    requires Inv(env, sv) && Enabled(env, sv, e) && e.Opened?
    ensures Inv(env, Step(env, sv, e))
  {
    hide SubsInv, NotifsInv, PubsInv;
    forall i
      ensures IndexedKnown(Step(env, sv, e), i)
    {
      assert IndexedKnown(sv, i);
    }
  }

  lemma AuthenticationKeepsInv(env: Env, sv: Server, e: Event)
    requires Inv(env, sv) && Enabled(env, sv, e) && e.Received? && !Known(sv.people, sv.fds[e.fd])
    ensures Inv(env, Step(env, sv, e))
  {
    hide SubsInv, NotifsInv, PubsInv;
    forall i
      ensures IndexedKnown(Step(env, sv, e), i)
    {
      assert IndexedKnown(sv, i);
    }
  }

  lemma ConnectKeepsInv(env: Env, sv: Server, e: Event)
    requires Inv(env, sv) && Enabled(env, sv, e) && e.Connected?
    ensures Inv(env, Step(env, sv, e))
  {
    hide SubsInv, NotifsInv, PubsInv;
    forall i
      ensures IndexedKnown(Step(env, sv, e), i)
    {
      assert IndexedKnown(sv, i);
    }
  }

  /** The invariant of every run, of the code as written and of the code as intended. */
  lemma {:induction false} RunKeepsInv(env: Env, events: seq<Event>)
    ensures Inv(env, Run(env, events))
  {
    if events == [] {
      forall i, t
        ensures SubsAt(STARTING.hub.subs, i, t) && NotifsAt(env.binding, STARTING.hub.notifs, i, t)
        ensures PubsAt(STARTING.hub.pubs, i, t)
      {
      }
      assert forall i :: IndexedKnown(STARTING, i);
    } else {
      var before := Run(env, events[..|events| - 1]);
      RunKeepsInv(env, events[..|events| - 1]);
      if Enabled(env, before, events[|events| - 1]) {
        StepKeepsInv(env, before, events[|events| - 1]);
      }
    }
  }

  /** The two directions of an index stay in agreement exactly through the events not lost on a copy. */
  lemma StepKeepsAgreement(env: Env, sv: Server, e: Event)
    requires Inv(env, sv) && Enabled(env, sv, e) && Agree(sv)
    ensures Agree(Step(env, sv, e)) <==> !(env.binding == ByCopy && Lost(sv, e))
  {
    hide SubsAgree, NotifsAgree, SubsInv, NotifsInv, PubsInv;
    match e
    case Received(fd, m) =>
      var id := sv.fds[fd];
      if Known(sv.people, id) {
        match m
        case SubscriptionRequest(topic, isAdd) =>
          SubsAdd(sv.hub.subs, id, topic);
          SubsRemove(sv.hub.subs, env.binding, id, topic);
        case NotificationRequest(pattern, isAdd) =>
          NotifsAdd(env, sv.hub.notifs, id, pattern);
          NotifsRemove(env.binding, sv.hub.notifs, id, pattern);
        case _ =>
      }
    case Closed(fd) =>
      SubsDrop(sv.hub.subs, sv.fds[fd]);
      NotifsDrop(env.binding, sv.hub.notifs, sv.fds[fd]);
    case _ =>
  }

  /** With the maps bound by reference, the directions agree after every run. */
  lemma {:induction false} RunKeepsAgreement(env: Env, events: seq<Event>)
    requires env.binding == ByReference
    ensures Inv(env, Run(env, events)) && Agree(Run(env, events))
  {
    RunKeepsInv(env, events);
    if events == [] {
      assert forall s, t :: SubsAgreeAt(STARTING.hub.subs, s, t);
      assert forall l, p :: NotifsAgreeAt(STARTING.hub.notifs, l, p);
    } else {
      var before := Run(env, events[..|events| - 1]);
      RunKeepsAgreement(env, events[..|events| - 1]);
      if Enabled(env, before, events[|events| - 1]) {
        StepKeepsAgreement(env, before, events[|events| - 1]);
      }
    }
  }
}
