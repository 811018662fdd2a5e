/** Which interactors the hub can still reach, and whether they are there. */
module References {
  import opened Bytes
  import opened Messages
  import opened HubModel
  import opened Indices
  import opened ServerInvariants

  /** An interactor occurs in one of the seven maps of the hub. */
  ghost predicate Mentions(h: Hub, id: Id) {
    || (exists t :: id in h.subs.Subscribers(t))
    || id in h.subs.topics
    || (exists p :: id in h.notifs.ListeningTo(p))
    || id in h.notifs.patterns
    || (exists t :: id in h.pubs.PublishersOf(t))
    || id in h.pubs.topics
    || (exists u :: u in h.interactors && h.interactors[u] == id)
  }

  /** As written already, whoever is mentioned other than as a subscriber of a topic is known. */
  lemma MentionedIsKnown(env: Env, sv: Server, id: Id)
    requires Inv(env, sv) && Mentions(sv.hub, id)
    ensures Known(sv.people, id) || exists t :: id in sv.hub.subs.Subscribers(t) && t !in sv.hub.subs.TopicsOf(id)
  {
    var h := sv.hub;
    assert IndexedKnown(sv, id);
    if p :| id in h.notifs.ListeningTo(p) {
      assert NotifsAt(env.binding, h.notifs, id, p);
    } else if t :| id in h.pubs.PublishersOf(t) {
      assert PubsAt(h.pubs, id, t);
    } else if u :| u in h.interactors && h.interactors[u] == id {
    } else if t :| id in h.subs.Subscribers(t) {
      assert t in h.subs.TopicsOf(id) ==> id in h.subs.topics;
    }
  }

  /** In place, every interactor in any index is live and authenticated, after every run. */
  lemma NoDeadReferences(env: Env, events: seq<Event>, id: Id)
    requires env.binding == ByReference && Mentions(Run(env, events).hub, id)
    ensures Known(Run(env, events).people, id)
  {
    RunKeepsAgreement(env, events);
    var sv := Run(env, events);
    MentionedIsKnown(env, sv, id);
    forall t
      ensures id in sv.hub.subs.Subscribers(t) ==> t in sv.hub.subs.TopicsOf(id)
    {
      assert SubsAgreeAt(sv.hub.subs, id, t);
    }
  }

  /**
    After a disconnect the hub mentions the interactor exactly when it was listed under a topic that
    was not among its own: everything else is cleaned up, also as written.
   */
  lemma MentionedAfterClose(env: Env, events: seq<Event>, fd: int)
    requires var sv := Run(env, events); Enabled(env, sv, Closed(fd))
    ensures var sv := Run(env, events); var id, subs := sv.fds[fd], sv.hub.subs;
      Mentions(Step(env, sv, Closed(fd)).hub, id) <==>
      exists t :: id in subs.Subscribers(t) && t !in subs.TopicsOf(id)
  {
    RunKeepsInv(env, events);
    var sv := Run(env, events);
    var id := sv.fds[fd];
    var sv' := Step(env, sv, Closed(fd));
    CloseEffect(env, sv, fd);
    StepKeepsInv(env, sv, Closed(fd));
    forall t
      ensures id in sv'.hub.subs.Subscribers(t) <==> id in sv.hub.subs.Subscribers(t) && t !in sv.hub.subs.TopicsOf(id)
    {
      assert SubsAt(sv.hub.subs, id, t);
      SubsDropAt(sv.hub.subs, id, id, t);
    }
    if Mentions(sv'.hub, id) {
      MentionedIsKnown(env, sv', id);
    }
  }

  /** In place, a disconnect leaves no trace of the interactor. */
  lemma GoneAfterClose(env: Env, events: seq<Event>, fd: int)
    requires env.binding == ByReference
    requires var sv := Run(env, events); Enabled(env, sv, Closed(fd))
    ensures var sv := Run(env, events); !Mentions(Step(env, sv, Closed(fd)).hub, sv.fds[fd])
  {
    MentionedAfterClose(env, events, fd);
    RunKeepsAgreement(env, events);
    var sv := Run(env, events);
    var id := sv.fds[fd];
    forall t
      ensures id in sv.hub.subs.Subscribers(t) ==> t in sv.hub.subs.TopicsOf(id)
    {
      assert SubsAgreeAt(sv.hub.subs, id, t);
    }
  }

  /**
    As written, an unsubscription that is lost on the copy and a disconnect leave the subscriber
    listed although it is gone.
   */
  lemma LostUnsubscription(env: Env, sv: Server, fd: int, t: Topic)
    requires env.binding == ByCopy && Inv(env, sv) && Enabled(env, sv, Closed(fd))
    requires Known(sv.people, sv.fds[fd]) && Orphans(sv.hub.subs, sv.fds[fd], t)
    ensures var sv1 := Step(env, sv, Received(fd, SubscriptionRequest(t, false)));
      && Enabled(env, sv1, Closed(fd))
      && var sv2 := Step(env, sv1, Closed(fd));
      && sv.fds[fd] in sv2.hub.subs.Subscribers(t)
      && sv.fds[fd] !in sv2.people
  {
    var id := sv.fds[fd];
    var unsubscribe := Received(fd, SubscriptionRequest(t, false));
    StepKeepsInv(env, sv, unsubscribe);
    var sv1 := Step(env, sv, unsubscribe);
    assert sv1.hub.subs == sv.hub.subs.Remove(ByCopy, id, t);
    assert id in sv1.hub.subs.Subscribers(t) && t !in sv1.hub.subs.TopicsOf(id);
    CloseEffect(env, sv1, fd);
    assert SubsAt(sv1.hub.subs, id, t);
    SubsDropAt(sv1.hub.subs, id, id, t);
  }

  /** Every subscriber that a manager might dereference is live and authenticated. */
  ghost predicate Safe(sv: Server) {
    forall s, t :: s in sv.hub.subs.Subscribers(t) ==> Known(sv.people, s)
  }

  /** A departure that leaves the subscriber listed under a topic that was not among its own. */
  ghost predicate Dangles(sv: Server, e: Event) {
    e.Closed? && e.fd in sv.fds &&
    exists t :: sv.fds[e.fd] in sv.hub.subs.Subscribers(t) && t !in sv.hub.subs.TopicsOf(sv.fds[e.fd])
  }

  /** Dereferencing subscribers stays safe exactly until such a departure. */
  lemma StepKeepsSafe(env: Env, sv: Server, e: Event)
    requires Inv(env, sv) && Enabled(env, sv, e) && Safe(sv)
    ensures Safe(Step(env, sv, e)) <==> !Dangles(sv, e)
  {
    StepKeepsInv(env, sv, e);
    match e
    case Closed(fd) => CloseKeepsSafe(env, sv, fd);
    case Received(fd, m) =>
      if Known(sv.people, sv.fds[fd]) {
        MessageKeepsSafe(env, sv, sv.fds[fd], m);
      } else {
        SameSubscribersSafe(sv, Step(env, sv, e));
      }
    case _ => SameSubscribersSafe(sv, Step(env, sv, e));
  }

  lemma SameSubscribersSafe(sv: Server, sv': Server)
    requires Safe(sv) && sv'.hub.subs == sv.hub.subs
    requires forall id :: Known(sv.people, id) ==> Known(sv'.people, id)
    ensures Safe(sv')
  {
  }

  lemma CloseKeepsSafe(env: Env, sv: Server, fd: int)
    requires Inv(env, sv) && Enabled(env, sv, Closed(fd)) && Safe(sv)
    ensures Safe(Step(env, sv, Closed(fd))) <==> !Dangles(sv, Closed(fd))
  {
    var id, sv' := sv.fds[fd], Step(env, sv, Closed(fd));
    CloseEffect(env, sv, fd);
    hide Step, OnDisconnected;
    forall s, t
      ensures s in sv'.hub.subs.Subscribers(t) <==>
        s in sv.hub.subs.Subscribers(t) && (s == id ==> t !in sv.hub.subs.TopicsOf(s))
    {
      assert SubsAt(sv.hub.subs, s, t) && SubsAt(sv.hub.subs, id, t);
      SubsDropAt(sv.hub.subs, id, s, t);
    }
    if Dangles(sv, Closed(fd)) {
      var t :| id in sv.hub.subs.Subscribers(t) && t !in sv.hub.subs.TopicsOf(id);
      assert id in sv'.hub.subs.Subscribers(t) && !Known(sv'.people, id);
    } else {
      forall s, t | s in sv'.hub.subs.Subscribers(t)
        ensures Known(sv'.people, s)
      {
        assert s in sv.hub.subs.Subscribers(t) && s != id;
        assert Known(sv.people, s);
      }
    }
  }

  lemma MessageKeepsSafe(env: Env, sv: Server, id: Id, m: Message)
    requires Inv(env, sv) && Known(sv.people, id) && Safe(sv)
    ensures Safe(OnMessage(env, sv, id, m))
  {
    MessageLeavesPeople(env, sv, id, m);
    hide Notify, Snapshot, Multicast, ClearanceFor;
    var sv' := OnMessage(env, sv, id, m);
    forall s, t | s in sv'.hub.subs.Subscribers(t)
      ensures s == id || s in sv.hub.subs.Subscribers(t)
    {
    }
  }

  // ---- Authentication ----

  /** Listed as a subscriber of some topic. */
  ghost predicate Listed(sv: Server, id: Id) {
    exists t :: id in sv.hub.subs.Subscribers(t)
  }

  /** Listed though it is gone. */
  ghost predicate Dangling(sv: Server, id: Id) {
    id !in sv.people && Listed(sv, id)
  }

  /** Listed though it has not authenticated. */
  ghost predicate Trespasses(sv: Server, id: Id) {
    id in sv.people && sv.people[id].user == None && Listed(sv, id)
  }

  /**
    An interactor whose user is not set is in none of the maps of the hub, save that, as written, it may
    be listed as a subscriber; how that comes about is said below.
   */
  lemma AuthenticatedOnly(env: Env, events: seq<Event>, id: Id)
    requires var sv := Run(env, events); id in sv.people && sv.people[id].user == None
    ensures var sv := Run(env, events);
      && id !in sv.hub.subs.topics && id !in sv.hub.notifs.patterns && id !in sv.hub.pubs.topics
      && (forall p :: id !in sv.hub.notifs.ListeningTo(p)) && (forall t :: id !in sv.hub.pubs.PublishersOf(t))
      && (forall u :: u in sv.hub.interactors ==> sv.hub.interactors[u] != id)
      && (Mentions(sv.hub, id) <==> Trespasses(sv, id))
      && (env.binding == ByReference ==> !Mentions(sv.hub, id))
  {
    RunKeepsInv(env, events);
    var sv := Run(env, events);
    assert IndexedKnown(sv, id);
    forall p
      ensures id !in sv.hub.notifs.ListeningTo(p)
    {
      assert NotifsAt(env.binding, sv.hub.notifs, id, p);
    }
    forall t
      ensures id !in sv.hub.pubs.PublishersOf(t)
    {
      assert PubsAt(sv.hub.pubs, id, t);
    }
    if env.binding == ByReference && Mentions(sv.hub, id) {
      NoDeadReferences(env, events, id);
    }
  }

  /** No event lists or unlists an interactor whose user is not set, or that is gone. */
  lemma UnknownStaysAsListed(env: Env, sv: Server, e: Event, id: Id, t: Topic)
    requires Inv(env, sv) && Enabled(env, sv, e) && !Known(sv.people, id)
    ensures id in Step(env, sv, e).hub.subs.Subscribers(t) <==> id in sv.hub.subs.Subscribers(t)
  {
    hide Inv, OnMessage, OnDisconnected, Subs.Subscribers;
    match e
    case Closed(fd) => UnknownStaysOnClose(env, sv, fd, id, t);
    case Received(fd, m) =>
      if Known(sv.people, sv.fds[fd]) {
        MessageListsOnlySender(env, sv, sv.fds[fd], m, id, t);
      }
    case _ =>
  }

  lemma UnknownStaysOnClose(env: Env, sv: Server, fd: int, id: Id, t: Topic)
    requires Inv(env, sv) && Enabled(env, sv, Closed(fd)) && !Known(sv.people, id)
    ensures id in Step(env, sv, Closed(fd)).hub.subs.Subscribers(t) <==> id in sv.hub.subs.Subscribers(t)
  {
    hide OnDisconnected, Subs.Drop;
    CloseEffect(env, sv, fd);
    NoTopicsUnknown(env, sv, id);
    assert SubsAt(sv.hub.subs, id, t) && SubsAt(sv.hub.subs, sv.fds[fd], t);
    SubsDropAt(sv.hub.subs, sv.fds[fd], id, t);
  }

  lemma MessageListsOnlySender(env: Env, sv: Server, s: Id, m: Message, id: Id, t: Topic)
    requires id != s
    ensures id in OnMessage(env, sv, s, m).hub.subs.Subscribers(t) <==> id in sv.hub.subs.Subscribers(t)
  {
    hide Notify, Snapshot, Multicast, ClearanceFor, Notifs.Add, Notifs.Remove, Pubs.Add;
    hide Subs.Subscribers, Subs.Add, Subs.Remove, Subs.AddNotifies, Subs.RemoveNotifies;
    if m.SubscriptionRequest? {
      OthersStayListed(sv.hub.subs, env.binding, s, m.topic, id, t);
    }
  }

  lemma OthersStayListed(subs: Subs, binding: Binding, s: Id, t': Topic, id: Id, t: Topic)
    requires id != s
    ensures id in subs.Add(s, t').Subscribers(t) <==> id in subs.Subscribers(t)
    ensures id in subs.Remove(binding, s, t').Subscribers(t) <==> id in subs.Subscribers(t)
  {
  }

  /**
    Who dangles, and who trespasses, after an event: an interactor dangles from a departure that leaves it
    listed until its address is used again, and whoever uses it trespasses until it authenticates or leaves.
   */
  lemma StepLists(env: Env, sv: Server, e: Event, id: Id)
    requires Inv(env, sv) && Enabled(env, sv, e)
    ensures var sv' := Step(env, sv, e);
      Dangling(sv', id) <==>
      (Dangling(sv, id) && !(e.Opened? && e.id == id)) || (e.Closed? && sv.fds[e.fd] == id && Dangles(sv, e))
    ensures var sv' := Step(env, sv, e);
      Trespasses(sv', id) <==>
      (Trespasses(sv, id) && !Known(sv'.people, id) && id in sv'.people) ||
      (Dangling(sv, id) && e.Opened? && e.id == id)
  {
    var sv' := Step(env, sv, e);
    if Known(sv.people, id) {
      KnownLeaves(env, sv, e, id);
    } else {
      hide Enabled, Inv, OnMessage, OnDisconnected, OnFirstMessage;
      forall t
        ensures id in sv'.hub.subs.Subscribers(t) <==> id in sv.hub.subs.Subscribers(t)
      {
        UnknownStaysAsListed(env, sv, e, id, t);
      }
      assert Listed(sv', id) <==> Listed(sv, id);
      PeopleAfter(env, sv, e, id);
      NoTopicsUnknown(env, sv, id);
    }
  }

  lemma NoTopicsUnknown(env: Env, sv: Server, id: Id)
    requires Inv(env, sv) && !Known(sv.people, id)
    ensures sv.hub.subs.TopicsOf(id) == {}
  {
    assert IndexedKnown(sv, id);
  }

  /** Who is there after an event. */
  lemma PeopleAfter(env: Env, sv: Server, e: Event, id: Id)
    requires Inv(env, sv) && Enabled(env, sv, e)
    ensures id in Step(env, sv, e).people <==>
      (id in sv.people && !(e.Closed? && sv.fds[e.fd] == id)) || (e.Opened? && e.id == id)
    ensures e.Opened? && e.id == id ==> id !in sv.people && !Known(Step(env, sv, e).people, id)
  {
    hide Inv, OnSubscription, OnNotification, OnUnicast, OnMulticast, OnDisconnected;
    match e
    case Closed(fd) => CloseEffect(env, sv, fd);
    case Received(fd, m) => MessageLeavesPeople(env, sv, sv.fds[fd], m);
    case _ =>
  }

  /** Whoever has authenticated neither dangles nor trespasses, until a departure that leaves it listed. */
  lemma KnownLeaves(env: Env, sv: Server, e: Event, id: Id)
    requires Inv(env, sv) && Enabled(env, sv, e) && Known(sv.people, id)
    ensures !Trespasses(Step(env, sv, e), id)
    ensures Dangling(Step(env, sv, e), id) <==> e.Closed? && sv.fds[e.fd] == id && Dangles(sv, e)
  {
    hide Inv, OnMessage, OnDisconnected;
    PeopleAfter(env, sv, e, id);
    if id in Step(env, sv, e).people {
      UserIsFinal(env, sv, e, id);
    } else {
      LeavesListed(env, sv, e.fd);
    }
  }

  lemma LeavesListed(env: Env, sv: Server, fd: int)
    requires Inv(env, sv) && Enabled(env, sv, Closed(fd))
    ensures Listed(Step(env, sv, Closed(fd)), sv.fds[fd]) <==> Dangles(sv, Closed(fd))
  {
    hide OnDisconnected, Subs.Drop;
    var id, sv' := sv.fds[fd], Step(env, sv, Closed(fd));
    CloseEffect(env, sv, fd);
    forall t
      ensures id in sv'.hub.subs.Subscribers(t) <==> id in sv.hub.subs.Subscribers(t) && t !in sv.hub.subs.TopicsOf(id)
    {
      assert SubsAt(sv.hub.subs, id, t);
      SubsDropAt(sv.hub.subs, id, id, t);
    }
  }

  /** Event `i` of a run is a departure that leaves `id` listed. */
  ghost predicate DanglesAt(env: Env, events: seq<Event>, i: nat, id: Id)
    requires i < |events|
  {
    var sv := Run(env, events[..i]);
    Enabled(env, sv, events[i]) && events[i].Closed? && sv.fds[events[i].fd] == id && Dangles(sv, events[i])
  }

  /** Event `j` of a run gives the address `id` to a new interactor. */
  ghost predicate OpensAt(env: Env, events: seq<Event>, j: nat, id: Id)
    requires j < |events|
  {
    Enabled(env, Run(env, events[..j]), events[j]) && events[j].Opened? && events[j].id == id
  }

  /** Whoever dangles after a run has left in this way. */
  lemma {:induction false} HowDangling(env: Env, events: seq<Event>, id: Id) returns (i: nat)
    requires Dangling(Run(env, events), id)
    ensures i < |events| && DanglesAt(env, events, i, id)
  {
    var n := |events| - 1;
    var before, sv, e := events[..n], Run(env, events[..n]), events[n];
    RunKeepsInv(env, before);
    hide Inv, Step, Enabled, Dangles, Dangling;
    if Enabled(env, sv, e) {
      StepLists(env, sv, e, id);
    }
    if Dangling(sv, id) {
      i := HowDangling(env, before, id);
      assert before[..i] == events[..i] && before[i] == events[i];
    } else {
      i := n;
    }
  }

  /**
    As written, whoever is listed without having authenticated has the address of an interactor that left
    earlier and stayed listed.
   */
  lemma {:induction false} HowTrespassing(env: Env, events: seq<Event>, id: Id) returns (i: nat, j: nat)
    requires Trespasses(Run(env, events), id)
    ensures i < j < |events| && DanglesAt(env, events, i, id) && OpensAt(env, events, j, id)
  {
    var n := |events| - 1;
    var before, sv, e := events[..n], Run(env, events[..n]), events[n];
    RunKeepsInv(env, before);
    hide Inv, Step, Enabled, Dangles, Dangling, Trespasses;
    if Enabled(env, sv, e) {
      StepLists(env, sv, e, id);
    }
    if Trespasses(sv, id) {
      i, j := HowTrespassing(env, before, id);
      assert before[..j] == events[..j] && before[j] == events[j];
    } else {
      i := HowDangling(env, before, id);
      j := n;
    }
    assert before[..i] == events[..i] && before[i] == events[i];
  }

  /**
    While an interactor lives, its user is set by nothing but its own accepted authentication, is never
    unset or changed after that, and its identity is fixed.
   */
  lemma UserIsFinal(env: Env, sv: Server, e: Event, id: Id)
    requires Inv(env, sv) && Enabled(env, sv, e) && id in sv.people && id in Step(env, sv, e).people
    ensures var before, after := sv.people[id], Step(env, sv, e).people[id];
      && after.fd == before.fd && after.host == before.host && after.uuid == before.uuid
      && (before.user.Some? ==> after.user == before.user)
      && (before.user == None && after.user.Some? ==>
        && e.Received? && sv.fds[e.fd] == id && e.message.AuthenticationRequest?
        && env.authenticate(e.message.authMethod, e.message.credentials) == Accepted(after.user.value))
  {
    hide Inv, OnSubscription, OnNotification, OnUnicast, OnMulticast, OnDisconnected;
    match e
    case Closed(fd) => CloseEffect(env, sv, fd);
    case Received(fd, m) => MessageLeavesPeople(env, sv, sv.fds[fd], m);
    case _ =>
  }

  lemma MessageLeavesPeople(env: Env, sv: Server, id: Id, m: Message)
    ensures OnMessage(env, sv, id, m).people == sv.people
    ensures OnMessage(env, sv, id, m).fds == sv.fds && OnMessage(env, sv, id, m).specs == sv.specs
    ensures OnMessage(env, sv, id, m).hub.interactors == sv.hub.interactors
  {
    hide Notify, Snapshot, Multicast, ClearanceFor;
  }

  /** A client that never authenticated leaves without a trace: no index changes, nobody is told. */
  lemma UnauthenticatedDisconnect(env: Env, events: seq<Event>, fd: int)
    requires Orders(env)
    requires var sv := Run(env, events); Enabled(env, sv, Closed(fd)) && sv.people[sv.fds[fd]].user == None
    ensures var sv := Run(env, events); var id := sv.fds[fd];
      Step(env, sv, Closed(fd)) ==
        sv.(people := sv.people - {id}, fds := sv.fds - {fd}, outbox := sv.outbox - {id})
  {
    RunKeepsInv(env, events);
    var sv := Run(env, events);
    var id, h := sv.fds[fd], sv.hub;
    assert IndexedKnown(sv, id);
    DropNobody(h, id);
    assert h.interactors - {sv.people[id].uuid} == h.interactors;
    ListsNothing(env.topicOrder({}), {});
  }

  lemma DropNobody(h: Hub, id: Id)
    requires id !in h.subs.topics && id !in h.notifs.patterns && id !in h.pubs.topics
    ensures h.subs.Drop(id) == h.subs && h.notifs.Drop(id) == h.notifs && h.pubs.Drop(id) == h.pubs
    ensures h.subs.TopicsOf(id) == {}
  {
  }

  // ---- Unicast ----

  /** As the server is wired, nothing tells the hub about clients, so no unicast is ever delivered. */
  lemma {:induction false} UnicastNeedsConnected(env: Env, events: seq<Event>)
    requires forall e :: e in events ==> !e.Connected?
    ensures Run(env, events).hub.interactors == map[]
    ensures forall id, clientId, t, packets ::
      OnMessage(env, Run(env, events), id, UnicastData(clientId, t, packets)) == Run(env, events)
  {
    if events != [] {
      var before, e := events[..|events| - 1], events[|events| - 1];
      UnicastNeedsConnected(env, before);
      assert e in events;
      if Enabled(env, Run(env, before), e) && e.Closed? {
        CloseEffect(env, Run(env, before), e.fd);
      }
    }
  }
}
