/** Which messages a step sends to whom; every queue grows by these and by nothing else. */
module Sending {
  import opened Bytes
  import opened Messages
  import opened HubModel
  import opened ServerInvariants

  /** A request of `id` sends `m` to `r`. */
  ghost predicate RequestSends(env: Env, sv: Server, id: Id, request: Message, r: Id, m: Message) {
    match request
    case SubscriptionRequest(t, isAdd) =>
      && (if isAdd then sv.hub.subs.AddNotifies(id, t) else sv.hub.subs.RemoveNotifies(id, t))
      && m == SubscriptionNotice(sv.people, id, t, isAdd)
    case NotificationRequest(p, isAdd) =>
      var regexes := sv.hub.notifs.Add(env, id, p).regexes;
      && isAdd && r == id && p in regexes
      && m in Snapshot(env, sv.hub.subs, sv.people, regexes[p], env.topicOrder(sv.hub.subs.of.Keys))
    case UnicastData(clientId, t, packets) =>
      && clientId in sv.hub.interactors && r == sv.hub.interactors[clientId]
      && ClearanceFor(env, sv.specs, sv.people, id, r, t).Sends(packets)
      && m == ForwardedUnicastData(UserOf(sv.people, id), HostOf(sv.people, id), clientId, t,
                                   ClearanceFor(env, sv.specs, sv.people, id, r, t).Packets(packets))
    case MulticastData(t, packets) =>
      && r in sv.hub.subs.Subscribers(t)
      && m == MulticastTo(env, sv.specs, sv.people, id, r, t, packets)
    case _ => false
  }

  /** An authentication that did not throw is answered, and always with `true`. */
  ghost predicate Answers(env: Env, request: Message, m: Message) {
    && request.AuthenticationRequest?
    && env.authenticate(request.authMethod, request.credentials) != Threw
    && m == AuthenticationResponse(true)
  }

  /** The departure of `id` announces a topic it deserts, or a topic that it alone published. */
  ghost predicate DepartureSends(env: Env, sv: Server, id: Id, r: Id, m: Message) {
    || (exists t :: t in GoneList(env, sv.hub.subs, id) && m == SubscriptionNotice(sv.people, id, t, false))
    || (exists t :: t in StaleList(env, sv.hub.pubs, id) && r in sv.hub.subs.Drop(id).Subscribers(t) &&
                    m == PublisherGone(sv.people, id, t))
  }

  ghost predicate Sends(env: Env, sv: Server, e: Event, r: Id, m: Message)
    requires Possible(sv, e)
  {
    match e
    case Received(fd, request) =>
      var id := sv.fds[fd];
      if Known(sv.people, id) then RequestSends(env, sv, id, request, r, m)
      else r == id && Answers(env, request, m)
    case Closed(fd) => DepartureSends(env, sv, sv.fds[fd], r, m)
    case _ => false
  }

  /** Queues have only grown, and only by messages that may be sent to their owner. */
  ghost predicate GrownBy(may: (Id, Message) -> bool, ob: Outbox, ob': Outbox) {
    forall r :: r in ob && r in ob' ==>
      ob[r] <= ob'[r] && forall i :: |ob[r]| <= i < |ob'[r]| ==> may(r, ob'[r][i])
  }

  lemma GrowsTwice(may: (Id, Message) -> bool, ob: Outbox, ob1: Outbox, ob2: Outbox)
    requires GrownBy(may, ob, ob1) && GrownBy(may, ob1, ob2) && ob.Keys == ob1.Keys
    ensures GrownBy(may, ob, ob2)
  {
  }

  /** What may be sent may be said in weaker words. */
  lemma GrowsWeaker(may: (Id, Message) -> bool, may': (Id, Message) -> bool, ob: Outbox, ob': Outbox)
    requires GrownBy(may, ob, ob')
    requires forall r, m :: may(r, m) ==> may'(r, m)
    ensures GrownBy(may', ob, ob')
  {
  }

  lemma {:induction false} NotifyGoneGrows(
    may: (Id, Message) -> bool, env: Env, ns: Notifs, people: People, ob: Outbox, s: Id, ts: seq<Topic>)
    requires forall r, t :: t in ts ==> may(r, SubscriptionNotice(people, s, t, false))
    ensures NotifyGone(env, ns, people, ob, s, ts).Keys == ob.Keys
    ensures GrownBy(may, ob, NotifyGone(env, ns, people, ob, s, ts))
  {
    if ts != [] {
      var n := |ts| - 1;
      assert ts[n] in ts;
      NotifyGoneGrows(may, env, ns, people, ob, s, ts[..n]);
      GrowsTwice(may, ob, NotifyGone(env, ns, people, ob, s, ts[..n]), NotifyGone(env, ns, people, ob, s, ts));
    }
  }

  lemma {:induction false} SendGoneGrows(
    may: (Id, Message) -> bool, subs: Subs, people: People, ob: Outbox, p: Id, ts: seq<Topic>)
    requires forall r, t :: t in ts && r in subs.Subscribers(t) ==> may(r, PublisherGone(people, p, t))
    ensures SendGone(subs, people, ob, p, ts).Keys == ob.Keys
    ensures GrownBy(may, ob, SendGone(subs, people, ob, p, ts))
  {
    if ts != [] {
      var n := |ts| - 1;
      assert ts[n] in ts;
      SendGoneGrows(may, subs, people, ob, p, ts[..n]);
      GrowsTwice(may, ob, SendGone(subs, people, ob, p, ts[..n]), SendGone(subs, people, ob, p, ts));
    }
  }

  lemma DepartureGrows(env: Env, sv: Server, fd: int)
    requires Possible(sv, Closed(fd))
    ensures var may := (r, m) => DepartureSends(env, sv, sv.fds[fd], r, m);
      GrownBy(may, sv.outbox - {sv.fds[fd]}, Step(env, sv, Closed(fd)).outbox)
  {
    hide GrownBy, NotifyGone, SendGone, GoneList, StaleList, SubscriptionNotice, PublisherGone, Subs.Drop;
    var id, h := sv.fds[fd], sv.hub;
    var may := (r, m) => DepartureSends(env, sv, id, r, m);
    var ob, gone := sv.outbox - {id}, GoneList(env, h.subs, id);
    var ob1 := NotifyGone(env, h.notifs, sv.people, ob, id, gone);
    NotifyGoneGrows(may, env, h.notifs, sv.people, ob, id, gone);
    SendGoneGrows(may, h.subs.Drop(id), sv.people, ob1, id, StaleList(env, h.pubs, id));
    GrowsTwice(may, ob, ob1, SendGone(h.subs.Drop(id), sv.people, ob1, id, StaleList(env, h.pubs, id)));
  }

  lemma ListenGrows(env: Env, sv: Server, id: Id, p: Pattern)
    ensures var may := (r, m) => RequestSends(env, sv, id, NotificationRequest(p, true), r, m);
      GrownBy(may, sv.outbox, OnNotification(env, sv, id, p, true).outbox)
  {
    hide Snapshot, Notifs.Add;
    var ns := sv.hub.notifs.Add(env, id, p);
    if p in ns.regexes && id in sv.outbox {
      var q := sv.outbox[id];
      var ms := Snapshot(env, sv.hub.subs, sv.people, ns.regexes[p], env.topicOrder(sv.hub.subs.of.Keys));
      assert forall i :: |q| <= i < |q + ms| ==> (q + ms)[i] == ms[i - |q|] && ms[i - |q|] in ms;
    }
  }

  lemma RequestGrows(env: Env, sv: Server, id: Id, request: Message)
    ensures var may := (r, m) => RequestSends(env, sv, id, request, r, m);
      GrownBy(may, sv.outbox, OnMessage(env, sv, id, request).outbox)
  {
    hide Snapshot, ClearanceFor, MulticastTo, SubscriptionNotice;
    if request.NotificationRequest? && request.isAdd {
      ListenGrows(env, sv, id, request.topicPattern);
    }
  }

  /** Every queue that is there before and after a step has grown by what the step sends and nothing else. */
  lemma StepSends(env: Env, sv: Server, e: Event)
    requires Possible(sv, e) && sv.outbox.Keys == sv.people.Keys
    ensures var may := (r, m) => Sends(env, sv, e, r, m);
      GrownBy(may, sv.outbox, Step(env, sv, e).outbox)
  {
    hide RequestSends, DepartureSends, OnMessage, OnDisconnected;
    match e
    case Received(fd, request) =>
      if Known(sv.people, sv.fds[fd]) {
        RequestGrows(env, sv, sv.fds[fd], request);
      }
    case Closed(fd) =>
      DepartureGrows(env, sv, fd);
      DepartedQueue(env, sv, fd);
    case _ =>
  }

  lemma DepartedQueue(env: Env, sv: Server, fd: int)
    requires Possible(sv, Closed(fd)) && sv.outbox.Keys == sv.people.Keys
    ensures sv.fds[fd] !in Step(env, sv, Closed(fd)).outbox
  {
    var id, h := sv.fds[fd], sv.hub;
    var ob := sv.outbox - {id};
    NotifyGoneKeys(env, h.notifs, sv.people, ob, id, GoneList(env, h.subs, id));
    SendGoneKeys(h.subs.Drop(id), sv.people,
      NotifyGone(env, h.notifs, sv.people, ob, id, GoneList(env, h.subs, id)), id, StaleList(env, h.pubs, id));
  }
}
