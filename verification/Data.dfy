/** Who is sent which data: exactly what both sides are entitled to, and a last message from a publisher. */
module Data {
  import opened Bytes
  import opened Messages
  import opened HubModel
  import opened Indices
  import opened ServerInvariants
  import opened Sending
  import A = Authorization

  // ---- Filtering ----

  /** The positions of the packets that a set of entitlements lets through. */
  function Positions(packets: seq<DataPacket>, e: set<int32>): seq<int> {
    if packets == [] then []
    else
      var n := |packets| - 1;
      Positions(packets[..n], e) + if packets[n].entitlement in e then [n] else []
  }

  /** All the positions of entitled packets and no other, in order and each once. */
  ghost predicate ArePositions(q: seq<int>, packets: seq<DataPacket>, e: set<int32>) {
    && (forall i :: 0 <= i < |q| ==> IsEntitled(packets, q[i], e))
    && (forall i, j :: 0 <= i < j < |q| ==> q[i] < q[j])
    && (forall k :: IsEntitled(packets, k, e) ==> k in q)
  }

  predicate IsEntitled(packets: seq<DataPacket>, k: int, e: set<int32>) {
    0 <= k < |packets| && packets[k].entitlement in e
  }

  lemma {:induction false} PositionsLaw(packets: seq<DataPacket>, e: set<int32>)
    ensures ArePositions(Positions(packets, e), packets, e)
  {
    if packets != [] {
      var n := |packets| - 1;
      var q, q' := Positions(packets[..n], e), Positions(packets, e);
      PositionsLaw(packets[..n], e);
      forall k
        ensures IsEntitled(packets, k, e) <==> IsEntitled(packets[..n], k, e) || (k == n && packets[n].entitlement in e)
      {
      }
      forall i | 0 <= i < |q|
        ensures q'[i] == q[i] && q[i] < n
      {
        assert IsEntitled(packets[..n], q[i], e);
      }
    }
  }

  /** The filter gives the packets at these positions. */
  lemma {:induction false} EntitledLaw(packets: seq<DataPacket>, e: set<int32>)
    ensures var q, ps := Positions(packets, e), Entitled(packets, e);
      |ps| == |q| && forall i :: 0 <= i < |q| ==> 0 <= q[i] < |packets| && ps[i] == packets[q[i]]
  {
    if packets != [] {
      EntitledLaw(packets[..|packets| - 1], e);
    }
  }

  lemma {:induction false} EntitledPackets(packets: seq<DataPacket>, e: set<int32>)
    ensures forall p :: p in Entitled(packets, e) <==> p in packets && p.entitlement in e
  {
    if packets != [] {
      var n := |packets| - 1;
      assert packets == packets[..n] + [packets[n]];
      EntitledPackets(packets[..n], e);
    }
  }

  // ---- Multicast ----

  /**
    A multicast adds to the queue of every current subscriber one message with the packets both sides
    are entitled to, or nothing; it adds nothing to any other queue.
   */
  lemma MulticastExactness(env: Env, sv: Server, fd: int, t: Topic, packets: seq<DataPacket>, r: Id)
    requires Inv(env, sv) && Enabled(env, sv, Received(fd, MulticastData(t, packets)))
    requires Known(sv.people, sv.fds[fd]) && r in sv.people
    ensures var sv' := Step(env, sv, Received(fd, MulticastData(t, packets)));
      var p := sv.people[sv.fds[fd]];
      var published := A.FirstMatch(env.matches, sv.specs, p.user.value, t, A.PUBLISHER);
      var granted := A.FirstMatch(env.matches, sv.specs, UserOf(sv.people, r), t, A.SUBSCRIBER);
      && r in sv.outbox && r in sv'.outbox
      && sv'.hub.pubs == sv.hub.pubs.Add(sv.fds[fd], t) && sv'.hub.subs == sv.hub.subs
      && sv'.outbox[r] == sv.outbox[r] +
        if r in sv.hub.subs.Subscribers(t) && IsSent(published, granted, packets)
        then [ForwardedMulticastData(p.user.value, p.host, t, Entitled(packets, published * granted))]
        else []
  {
    hide A.FirstMatch, Entitled, SubsInv, NotifsInv, PubsInv;
    var c := ClearanceFor(env, sv.specs, sv.people, sv.fds[fd], r, t);
    SentIf(c, packets);
    assert sv.outbox[r] + [] == sv.outbox[r];
  }

  /**
    A unicast adds one message to the queue of the client it is for, if the hub was told about that
    client and both sides are cleared, and only then makes its sender a publisher of the topic. Two
    clients cannot both be meant, since uuids are unique.
   */
  lemma UnicastExactness(env: Env, sv: Server, fd: int, clientId: bytes, t: Topic, packets: seq<DataPacket>, r: Id)
    requires Inv(env, sv) && Enabled(env, sv, Received(fd, UnicastData(clientId, t, packets)))
    requires Known(sv.people, sv.fds[fd]) && r in sv.people
    ensures var sv' := Step(env, sv, Received(fd, UnicastData(clientId, t, packets)));
      var p := sv.people[sv.fds[fd]];
      var published := A.FirstMatch(env.matches, sv.specs, p.user.value, t, A.PUBLISHER);
      var granted := A.FirstMatch(env.matches, sv.specs, UserOf(sv.people, r), t, A.SUBSCRIBER);
      var meant := clientId in sv.hub.interactors && sv.people[r].uuid == clientId;
      && r in sv.outbox && r in sv'.outbox
      && sv'.outbox[r] == sv.outbox[r] +
        (if meant && IsSent(published, granted, packets)
         then [ForwardedUnicastData(p.user.value, p.host, clientId, t, Entitled(packets, published * granted))]
         else [])
      && (meant ==>
        sv'.hub.pubs == if IsSent(published, granted, packets) then sv.hub.pubs.Add(sv.fds[fd], t) else sv.hub.pubs)
      && (clientId !in sv.hub.interactors ==> sv' == sv)
  {
    hide A.FirstMatch, Entitled, SubsInv, NotifsInv, PubsInv, Pubs.Add, IsSent;
    var c := ClearanceFor(env, sv.specs, sv.people, sv.fds[fd], r, t);
    SentIf(c, packets);
    assert sv.outbox[r] + [] == sv.outbox[r];
    assert clientId in sv.hub.interactors ==> (sv.people[r].uuid == clientId <==> sv.hub.interactors[clientId] == r);
  }

  /** Common entitlements, unless the publisher has none at all, and a common packet, unless none was asked for. */
  ghost predicate IsSent(published: set<int32>, granted: set<int32>, packets: seq<DataPacket>) {
    && (published == {} || exists e :: e in published && e in granted)
    && (packets == [] || exists p :: p in packets && p.entitlement in published && p.entitlement in granted)
  }

  lemma SentIf(c: Clearance, packets: seq<DataPacket>)
    ensures c.Sends(packets) <==> IsSent(c.published, c.granted, packets)
  {
    EntitledPackets(packets, c.Common());
    if e :| e in c.published && e in c.granted {
      assert e in c.Common();
    }
    if c.Common() != {} {
      var e := AnyOf(c.Common());
      assert e in c.published && e in c.granted;
    }
    if p :| p in packets && p.entitlement in c.published && p.entitlement in c.granted {
      assert p in c.Packets(packets);
    }
    if c.Packets(packets) != [] {
      var p := c.Packets(packets)[0];
      assert p in c.Packets(packets);
    }
  }

  // ---- No step sends anybody data they are not entitled to ----

  /** The data in a message is cleared for its receiver and for the publisher it names. */
  ghost predicate Cleared(env: Env, specs: seq<A.AuthorizationSpec>, people: People, r: Id, m: Message) {
    m.ForwardedMulticastData? || m.ForwardedUnicastData? ==>
      forall p :: p in m.packets ==>
        && p.entitlement in A.FirstMatch(env.matches, specs, UserOf(people, r), m.topic, A.SUBSCRIBER)
        && p.entitlement in A.FirstMatch(env.matches, specs, m.user, m.topic, A.PUBLISHER)
  }

  lemma RequestIsCleared(env: Env, sv: Server, id: Id, request: Message, r: Id, m: Message)
    requires RequestSends(env, sv, id, request, r, m)
    ensures Cleared(env, sv.specs, sv.people, r, m)
  {
    hide A.FirstMatch, Entitled, Snapshot, Notifs.Add;
    match request
    case UnicastData(clientId, t, packets) =>
      EntitledPackets(packets, ClearanceFor(env, sv.specs, sv.people, id, r, t).Common());
    case MulticastData(t, packets) =>
      EntitledPackets(packets, ClearanceFor(env, sv.specs, sv.people, id, r, t).Common());
    case NotificationRequest(p, isAdd) =>
      var regexes := sv.hub.notifs.Add(env, id, p).regexes;
      SnapshotCleared(env, sv, regexes[p], env.topicOrder(sv.hub.subs.of.Keys));
    case _ =>
  }

  lemma {:induction false} SnapshotCleared(env: Env, sv: Server, regex: Pattern, ts: seq<Topic>)
    ensures forall m :: m in Snapshot(env, sv.hub.subs, sv.people, regex, ts) ==> m.ForwardedSubscriptionRequest?
  {
    if ts != [] {
      SnapshotCleared(env, sv, regex, ts[..|ts| - 1]);
    }
  }

  /** In every reachable state, whatever happens next, no queue receives a packet its owner may not see. */
  lemma Confidentiality(env: Env, events: seq<Event>, e: Event)
    requires Possible(Run(env, events), e)
    ensures var sv := Run(env, events);
      && (forall r :: r in sv.people && r in Step(env, sv, e).people ==> r in sv.outbox && r in Step(env, sv, e).outbox)
      && GrownBy((r, m) => Cleared(env, sv.specs, sv.people, r, m), sv.outbox, Step(env, sv, e).outbox)
  {
    hide Run, RequestSends, Cleared, GrownBy, SubsInv, NotifsInv, PubsInv, OnMessage, OnDisconnected;
    var sv := Run(env, events);
    RunKeepsInv(env, events);
    StepSends(env, sv, e);
    var sends, cleared := (r, m) => Sends(env, sv, e, r, m), (r, m) => Cleared(env, sv.specs, sv.people, r, m);
    forall r, m | sends(r, m)
      ensures cleared(r, m)
    {
      SentIsCleared(env, sv, e, r, m);
    }
    GrowsWeaker(sends, cleared, sv.outbox, Step(env, sv, e).outbox);
    KeepsQueues(env, sv, e);
  }

  lemma SentIsCleared(env: Env, sv: Server, e: Event, r: Id, m: Message)
    requires Possible(sv, e) && Sends(env, sv, e, r, m)
    ensures Cleared(env, sv.specs, sv.people, r, m)
  {
    hide RequestSends, A.FirstMatch, GoneList, StaleList, Subs.Drop;
    if e.Received? && Known(sv.people, sv.fds[e.fd]) {
      RequestIsCleared(env, sv, sv.fds[e.fd], e.message, r, m);
    }
  }

  /** Whoever stays keeps a queue. */
  lemma KeepsQueues(env: Env, sv: Server, e: Event)
    requires Inv(env, sv) && Possible(sv, e)
    ensures forall r :: r in sv.people && r in Step(env, sv, e).people ==>
      r in sv.outbox && r in Step(env, sv, e).outbox
  {
    StepKeepsInv(env, sv, e);
  }

  // ---- The last message from a publisher ----

  /** The topics of a list that `r` subscribes to. */
  function SubscribedTopics(subs: Subs, r: Id, ts: seq<Topic>): seq<Topic> {
    if ts == [] then []
    else
      var n := |ts| - 1;
      SubscribedTopics(subs, r, ts[..n]) + if r in subs.Subscribers(ts[n]) then [ts[n]] else []
  }

  /** The messages about a list of topics that a publisher has left. */
  function GoneMessages(people: People, p: Id, ts: seq<Topic>): (ms: seq<Message>)
    ensures |ms| == |ts| && forall i :: 0 <= i < |ts| ==> ms[i] == PublisherGone(people, p, ts[i])
  {
    seq(|ts|, i requires 0 <= i < |ts| => PublisherGone(people, p, ts[i]))
  }

  lemma {:induction false} SendGoneTo(subs: Subs, people: People, ob: Outbox, p: Id, ts: seq<Topic>, r: Id)
    requires r in ob
    ensures r in SendGone(subs, people, ob, p, ts)
    ensures SendGone(subs, people, ob, p, ts)[r] == ob[r] + GoneMessages(people, p, SubscribedTopics(subs, r, ts))
  {
    if ts != [] {
      var n := |ts| - 1;
      SendGoneTo(subs, people, ob, p, ts[..n], r);
      var before := SubscribedTopics(subs, r, ts[..n]);
      var now := SubscribedTopics(subs, r, ts);
      if r in subs.Subscribers(ts[n]) {
        assert GoneMessages(people, p, now) == GoneMessages(people, p, before) + [PublisherGone(people, p, ts[n])];
      }
    }
  }

  lemma {:induction false} SubscribedTopicsLaw(subs: Subs, r: Id, ts: seq<Topic>)
    requires forall i, j :: 0 <= i < j < |ts| ==> ts[i] != ts[j]
    ensures var q := SubscribedTopics(subs, r, ts);
      && (forall t :: t in q <==> t in ts && r in subs.Subscribers(t))
      && (forall i, j :: 0 <= i < j < |q| ==> q[i] != q[j])
  {
    if ts != [] {
      var n := |ts| - 1;
      assert ts == ts[..n] + [ts[n]];
      SubscribedTopicsLaw(subs, r, ts[..n]);
      assert ts[n] !in ts[..n];
    }
  }

  /**
    The last messages a disconnecting publisher causes: after the notices about its subscriptions,
    everybody else gets one empty message for each topic that they subscribe to and that nobody else
    publishes, and none for any other topic.
   */
  lemma PublisherLeaves(env: Env, sv: Server, fd: int, r: Id)
    returns (notices: seq<Message>, ts: seq<Topic>)
    requires Inv(env, sv) && Orders(env) && Enabled(env, sv, Closed(fd)) && r in sv.people && r != sv.fds[fd]
    ensures var id := sv.fds[fd];
      var sv' := Step(env, sv, Closed(fd));
      && r in sv.outbox && r in sv'.outbox
      && sv'.outbox[r] == sv.outbox[r] + notices + GoneMessages(sv.people, id, ts)
      && (forall m :: m in notices ==> m.ForwardedSubscriptionRequest?)
      && (forall t :: t in ts <==> sv.hub.pubs.PublishersOf(t) == {id} && r in sv'.hub.subs.Subscribers(t))
      && (forall i, j :: 0 <= i < j < |ts| ==> ts[i] != ts[j])
  {
    var id, h := sv.fds[fd], sv.hub;
    var ob := sv.outbox - {id};
    var stale := StaleList(env, h.pubs, id);
    var subs := h.subs.Drop(id);
    var gone := GoneList(env, h.subs, id);
    var ob1 := NotifyGone(env, h.notifs, sv.people, ob, id, gone);
    CloseOutbox(env, sv, fd);
    assert Step(env, sv, Closed(fd)).hub.subs == subs;
    assert PubsInv(h.pubs) && r in ob && ob[r] == sv.outbox[r];
    hide Step, OnDisconnected, NotifyGone, SendGone, SubscribedTopics, GoneMessages, GoneList, Inv, PubsInv, StaleList;
    NoticesTo(env, sv, ob, id, gone, r);
    SendGoneTo(subs, sv.people, ob1, id, stale, r);
    StaleTopics(env, h.pubs, id);
    SubscribedTopicsLaw(subs, r, stale);
    notices, ts := ob1[r][|ob[r]|..], SubscribedTopics(subs, r, stale);
    assert ob1[r] == ob[r] + notices;
  }

  lemma CloseOutbox(env: Env, sv: Server, fd: int)
    requires Enabled(env, sv, Closed(fd))
    ensures var id, h := sv.fds[fd], sv.hub;
      var gone := GoneList(env, h.subs, id);
      Step(env, sv, Closed(fd)).outbox ==
        SendGone(h.subs.Drop(id), sv.people,
                 NotifyGone(env, h.notifs, sv.people, sv.outbox - {id}, id, gone), id, StaleList(env, h.pubs, id))
  {
    hide NotifyGone;
  }

  lemma StaleTopics(env: Env, st: Pubs, id: Id)
    requires PubsInv(st) && Orders(env)
    ensures var stale := StaleList(env, st, id);
      && (stale != [] ==> id in st.topics)
      && (forall t :: t in stale <==> st.PublishersOf(t) == {id})
      && (forall i, j :: 0 <= i < j < |stale| ==> stale[i] != stale[j])
  {
    assert Lists(env.topicOrder(st.Stale(id)), st.Stale(id));
    forall t
      ensures t in st.Stale(id) <==> st.PublishersOf(t) == {id}
      ensures t in st.Stale(id) ==> id in st.topics
    {
      assert PubsAt(st, id, t);
      PubsDropAt(st, id, id, t);
    }
  }

  lemma {:induction false} NoticesTo(env: Env, sv: Server, ob: Outbox, s: Id, ts: seq<Topic>, r: Id)
    requires r in ob
    ensures var ob' := NotifyGone(env, sv.hub.notifs, sv.people, ob, s, ts);
      r in ob' && ob[r] <= ob'[r] && forall m :: m in ob'[r][|ob[r]|..] ==> m.ForwardedSubscriptionRequest?
  {
    if ts != [] {
      NoticesTo(env, sv, ob, s, ts[..|ts| - 1], r);
    }
  }
}
