/**
  What a listener can see. Folding everything it was sent since it was recorded under a pattern, the
  last message about a topic winning, gives exactly the topics of that pattern with subscribers.
 */
module ListenerView {
  import opened Bytes
  import opened Messages
  import opened HubModel
  import opened Indices
  import opened ServerInvariants
  import D = Data

  /** The last thing a list of messages says about a topic: subscribed, deserted, or nothing. */
  function LastSaid(ms: seq<Message>, t: Topic): Option<bool> {
    if ms == [] then None
    else
      var m := ms[|ms| - 1];
      if m.ForwardedSubscriptionRequest? && m.topic == t then Some(m.isAdd) else LastSaid(ms[..|ms| - 1], t)
  }

  lemma {:induction false} LastSaidConcat(a: seq<Message>, b: seq<Message>, t: Topic)
    ensures LastSaid(a + b, t) == if LastSaid(b, t).Some? then LastSaid(b, t) else LastSaid(a, t)
  {
    if b == [] {
      assert a + b == a;
    } else {
      assert (a + b)[..|a + b| - 1] == a + b[..|b| - 1];
      LastSaidConcat(a, b[..|b| - 1], t);
    }
  }

  lemma {:induction false} NothingSaid(ms: seq<Message>, t: Topic)
    requires forall m :: m in ms ==> !(m.ForwardedSubscriptionRequest? && m.topic == t)
    ensures LastSaid(ms, t) == None
  {
    if ms != [] {
      assert ms[|ms| - 1] in ms;
      NothingSaid(ms[..|ms| - 1], t);
    }
  }

  /** For the topics of a pattern, new messages say how things are now, or say nothing and nothing changed. */
  ghost predicate Tells(
    env: Env, p: Pattern, ms: seq<Message>, of: map<Topic, map<Id, int>>, of': map<Topic, map<Id, int>>)
  {
    forall t :: env.matches(p, t) ==>
      LastSaid(ms, t) == Some(t in of') || (LastSaid(ms, t) == None && (t in of' <==> t in of))
  }

  /** The view a list of messages gives of the topics of a pattern is exact. */
  ghost predicate Exact(env: Env, p: Pattern, ms: seq<Message>, of: map<Topic, map<Id, int>>) {
    forall t :: env.matches(p, t) ==> (LastSaid(ms, t) == Some(true) <==> t in of)
  }

  lemma ToldStaysExact(
    env: Env, p: Pattern, before: seq<Message>, ms: seq<Message>,
    of: map<Topic, map<Id, int>>, of': map<Topic, map<Id, int>>)
    requires Exact(env, p, before, of) && Tells(env, p, ms, of, of')
    ensures Exact(env, p, before + ms, of')
  {
    forall t | env.matches(p, t)
      ensures LastSaid(before + ms, t) == Some(true) <==> t in of'
    {
      LastSaidConcat(before, ms, t);
    }
  }

  // ---- One notice ----

  /** A recorded listener hears of every topic that matches its pattern. */
  lemma HearsOf(env: Env, ns: Notifs, l: Id, p: Pattern, t: Topic)
    requires NotifsInv(env.binding, ns) && l in ns.ListeningTo(p) && env.matches(p, t)
    ensures l in ns.Listeners(env, t)
  {
    assert NotifsAt(env.binding, ns, l, p);
  }

  /** What one notice adds to a queue. */
  function Heard(env: Env, ns: Notifs, people: People, s: Id, t: Topic, isAdd: bool, l: Id): seq<Message> {
    if l in ns.Listeners(env, t) then [SubscriptionNotice(people, s, t, isAdd)] else []
  }

  lemma HeardSays(env: Env, ns: Notifs, people: People, s: Id, t: Topic, isAdd: bool, l: Id, t': Topic)
    ensures LastSaid(Heard(env, ns, people, s, t, isAdd, l), t') ==
      if t' == t && l in ns.Listeners(env, t) then Some(isAdd) else None
  {
    var ms := Heard(env, ns, people, s, t, isAdd, l);
    if ms != [] {
      assert ms[..0] == [];
    }
  }

  // ---- A subscription request ----

  lemma SubscriptionTells(env: Env, sv: Server, s: Id, t: Topic, isAdd: bool, l: Id, p: Pattern)
    returns (ms: seq<Message>)
    requires Inv(env, sv) && l in sv.hub.notifs.ListeningTo(p) && l in sv.outbox
    ensures var sv' := OnSubscription(env, sv, s, t, isAdd);
      l in sv'.outbox && sv'.outbox[l] == sv.outbox[l] + ms && Tells(env, p, ms, sv.hub.subs.of, sv'.hub.subs.of)
  {
    var subs, ns := sv.hub.subs, sv.hub.notifs;
    var notifies := if isAdd then subs.AddNotifies(s, t) else subs.RemoveNotifies(s, t);
    ms := if notifies then Heard(env, ns, sv.people, s, t, isAdd, l) else [];
    var of, of' := subs.of, OnSubscription(env, sv, s, t, isAdd).hub.subs.of;
    forall t' | env.matches(p, t')
      ensures LastSaid(ms, t') == Some(t' in of') || (LastSaid(ms, t') == None && (t' in of' <==> t' in of))
    {
      HeardSays(env, ns, sv.people, s, t, isAdd, l, t');
      HearsOf(env, ns, l, p, t');
      assert SubsAt(subs, s, t);
    }
  }

  /**
    Listeners hear of a subscription exactly when its subscriber is new to the topic, and of an
    unsubscription exactly when the topic is left without subscribers; once, however many of their
    patterns match.
   */
  lemma NoticeExactness(env: Env, sv: Server, fd: int, t: Topic, isAdd: bool, l: Id)
    requires Inv(env, sv) && Enabled(env, sv, Received(fd, SubscriptionRequest(t, isAdd)))
    requires Known(sv.people, sv.fds[fd]) && l in sv.people
    ensures var sv' := Step(env, sv, Received(fd, SubscriptionRequest(t, isAdd)));
      var s := sv.people[sv.fds[fd]];
      var isNews := if isAdd then sv.fds[fd] !in sv.hub.subs.Subscribers(t)
                    else t in sv.hub.subs.of && t !in sv'.hub.subs.of;
      && l in sv.outbox && l in sv'.outbox
      && sv'.outbox[l] == sv.outbox[l] +
        if isNews && exists p :: l in sv.hub.notifs.ListeningTo(p) && env.matches(p, t)
        then [ForwardedSubscriptionRequest(s.user.value, s.host, s.uuid, t, isAdd)]
        else []
  {
    assert SubsAt(sv.hub.subs, sv.fds[fd], t);
    assert sv.outbox[l] + [] == sv.outbox[l];
    if p :| l in sv.hub.notifs.ListeningTo(p) && env.matches(p, t) {
      HearsOf(env, sv.hub.notifs, l, p, t);
    }
    if l in sv.hub.notifs.Listeners(env, t) {
      HeardUnderSome(env, sv.hub.notifs, l, t);
    }
  }

  lemma HeardUnderSome(env: Env, ns: Notifs, l: Id, t: Topic)
    requires NotifsInv(env.binding, ns) && l in ns.Listeners(env, t)
    ensures exists p :: l in ns.ListeningTo(p) && env.matches(p, t)
  {
    var p :| p in ns.regexes && env.matches(ns.regexes[p], t) && p in ns.of && l in ns.of[p];
    assert NotifsAt(env.binding, ns, l, p);
    assert l in ns.ListeningTo(p);
  }

  // ---- A snapshot ----

  /** The subscription of `s` to `t`, as a snapshot tells it. */
  ghost predicate IsEntry(env: Env, subs: Subs, people: People, regex: Pattern, m: Message, s: Id, t: Topic) {
    env.matches(regex, t) && s in subs.Subscribers(t) && m == SubscriptionNotice(people, s, t, true)
  }

  /** A snapshot has an entry for every subscriber of every topic listed that matches, and no other. */
  lemma {:induction false} SnapshotEntries(
    env: Env, subs: Subs, people: People, regex: Pattern, ts: seq<Topic>, m: Message)
    requires Orders(env)
    ensures m in Snapshot(env, subs, people, regex, ts) <==>
      exists s, t :: t in ts && IsEntry(env, subs, people, regex, m, s, t)
  {
    if ts != [] {
      hide IsEntry;
      var n := |ts| - 1;
      SnapshotEntries(env, subs, people, regex, ts[..n], m);
      LastEntries(env, subs, people, regex, ts[n], m);
      assert ts == ts[..n] + [ts[n]];
      if s, t :| t in ts[..n] && IsEntry(env, subs, people, regex, m, s, t) {
        assert t in ts;
      }
      if s :| IsEntry(env, subs, people, regex, m, s, ts[n]) {
        assert ts[n] in ts;
      }
    }
  }

  lemma LastEntries(env: Env, subs: Subs, people: People, regex: Pattern, t: Topic, m: Message)
    requires Orders(env)
    ensures (env.matches(regex, t) && m in SnapshotOf(people, t, env.idOrder(subs.Subscribers(t)))) <==>
      exists s :: IsEntry(env, subs, people, regex, m, s, t)
  {
    var ids := env.idOrder(subs.Subscribers(t));
    var ms := SnapshotOf(people, t, ids);
    assert Lists(ids, subs.Subscribers(t));
    if s :| IsEntry(env, subs, people, regex, m, s, t) {
      assert s in ids;
      var i :| 0 <= i < |ids| && ids[i] == s;
      assert ms[i] == m;
    }
    if env.matches(regex, t) && m in ms {
      var i :| 0 <= i < |ms| && ms[i] == m;
      assert ids[i] in ids;
      assert IsEntry(env, subs, people, regex, m, ids[i], t);
    }
  }

  lemma {:induction false} SnapshotOfSays(people: People, t: Topic, ids: seq<Id>, t': Topic)
    ensures LastSaid(SnapshotOf(people, t, ids), t') == if t' == t && ids != [] then Some(true) else None
  {
    if ids != [] {
      var n := |ids| - 1;
      var ms := SnapshotOf(people, t, ids);
      assert ms[..n] == SnapshotOf(people, t, ids[..n]);
      SnapshotOfSays(people, t, ids[..n], t');
    }
  }

  /** A snapshot says "subscribed" of every topic listed that matches and has subscribers, and no more. */
  lemma {:induction false} SnapshotSays(env: Env, subs: Subs, people: People, regex: Pattern, ts: seq<Topic>, t': Topic)
    requires Orders(env)
    ensures LastSaid(Snapshot(env, subs, people, regex, ts), t') ==
      if t' in ts && env.matches(regex, t') && subs.Subscribers(t') != {} then Some(true) else None
  {
    if ts != [] {
      var n := |ts| - 1;
      var t := ts[n];
      assert ts == ts[..n] + [t];
      SnapshotSays(env, subs, people, regex, ts[..n], t');
      var before := Snapshot(env, subs, people, regex, ts[..n]);
      var ids := env.idOrder(subs.Subscribers(t));
      var ms := if env.matches(regex, t) then SnapshotOf(people, t, ids) else [];
      ListsNothing(ids, subs.Subscribers(t));
      SnapshotOfSays(people, t, ids, t');
      LastSaidConcat(before, ms, t');
    }
  }

  /** The subscriptions that a snapshot tells, in its order. */
  function SnapshotPairs(env: Env, subs: Subs, regex: Pattern, ts: seq<Topic>): seq<(Topic, Id)> {
    if ts == [] then []
    else
      var t := ts[|ts| - 1];
      SnapshotPairs(env, subs, regex, ts[..|ts| - 1]) +
      if env.matches(regex, t) then PairsOf(t, env.idOrder(subs.Subscribers(t))) else []
  }

  function PairsOf(t: Topic, ids: seq<Id>): (q: seq<(Topic, Id)>)
    ensures |q| == |ids| && forall i :: 0 <= i < |ids| ==> q[i] == (t, ids[i])
  {
    seq(|ids|, i requires 0 <= i < |ids| => (t, ids[i]))
  }

  /** No pair twice, and exactly the pairs of a matching topic and a subscriber of it. */
  ghost predicate ListsPairs(env: Env, subs: Subs, regex: Pattern, ts: seq<Topic>, q: seq<(Topic, Id)>) {
    && (forall i, j :: 0 <= i < j < |q| ==> q[i] != q[j])
    && (forall x :: x in q <==> IsPair(env, subs, regex, ts, x))
  }

  ghost predicate IsPair(env: Env, subs: Subs, regex: Pattern, ts: seq<Topic>, x: (Topic, Id)) {
    x.0 in ts && env.matches(regex, x.0) && x.1 in subs.Subscribers(x.0)
  }

  lemma {:induction false} SnapshotPairsLaw(env: Env, subs: Subs, people: People, regex: Pattern, ts: seq<Topic>)
    requires Orders(env) && forall i, j :: 0 <= i < j < |ts| ==> ts[i] != ts[j]
    ensures var q, ms := SnapshotPairs(env, subs, regex, ts), Snapshot(env, subs, people, regex, ts);
      && ListsPairs(env, subs, regex, ts, q)
      && |ms| == |q| && forall i :: 0 <= i < |q| ==> ms[i] == SubscriptionNotice(people, q[i].1, q[i].0, true)
  {
    hide SubscriptionNotice, Subs.Subscribers;
    if ts != [] {
      var n := |ts| - 1;
      var t, ids := ts[n], env.idOrder(subs.Subscribers(ts[n]));
      assert ts == ts[..n] + [t] && t !in ts[..n];
      assert Lists(ids, subs.Subscribers(t));
      SnapshotPairsLaw(env, subs, people, regex, ts[..n]);
      MorePairs(env, subs, regex, ts[..n], t, SnapshotPairs(env, subs, regex, ts[..n]), ids);
    }
  }

  lemma MorePairs(env: Env, subs: Subs, regex: Pattern, ts: seq<Topic>, t: Topic, q: seq<(Topic, Id)>, ids: seq<Id>)
    requires ListsPairs(env, subs, regex, ts, q) && t !in ts && Lists(ids, subs.Subscribers(t))
    ensures ListsPairs(env, subs, regex, ts + [t], q + if env.matches(regex, t) then PairsOf(t, ids) else [])
  {
    hide Subs.Subscribers;
    var more := if env.matches(regex, t) then PairsOf(t, ids) else [];
    forall x
      ensures x in more <==> x.0 == t && env.matches(regex, t) && x.1 in subs.Subscribers(t)
    {
      if x.0 == t && env.matches(regex, t) && x.1 in ids {
        var i :| 0 <= i < |ids| && ids[i] == x.1;
        assert more[i] == x;
      }
    }
    forall i, j | 0 <= i < |q| && 0 <= j < |more|
      ensures q[i] != more[j]
    {
      assert q[i] in q && more[j] in more;
    }
  }

  /**
    A request to listen adds to the queue of the listener one message for each subscriber of each topic
    that matches, naming the subscriber, and no other; no other queue changes.
   */
  lemma SnapshotExactness(env: Env, sv: Server, fd: int, p: Pattern) returns (q: seq<(Topic, Id)>)
    requires Inv(env, sv) && Orders(env) && Enabled(env, sv, Received(fd, NotificationRequest(p, true)))
    requires Known(sv.people, sv.fds[fd])
    requires forall t, s :: s in sv.hub.subs.Subscribers(t) ==> Known(sv.people, s)
    ensures forall i, j :: 0 <= i < j < |q| ==> q[i] != q[j]
    ensures forall t, s :: (t, s) in q <==> env.matches(p, t) && s in sv.hub.subs.Subscribers(t)
    ensures var l := sv.fds[fd];
      var sv' := Step(env, sv, Received(fd, NotificationRequest(p, true)));
      && l in sv.outbox && sv'.outbox.Keys == sv.outbox.Keys
      && (forall r :: r in sv.outbox && r != l ==> sv'.outbox[r] == sv.outbox[r])
      && |sv'.outbox[l]| == |sv.outbox[l]| + |q| && sv.outbox[l] <= sv'.outbox[l]
      && forall i :: 0 <= i < |q| ==>
           Known(sv.people, q[i].1) &&
           var s := sv.people[q[i].1];
           sv'.outbox[l][|sv.outbox[l]| + i] ==
             ForwardedSubscriptionRequest(s.user.value, s.host, s.uuid, q[i].0, true)
  {
    var l, subs := sv.fds[fd], sv.hub.subs;
    var ts := env.topicOrder(subs.of.Keys);
    q := SnapshotPairs(env, subs, p, ts);
    SnapshotIsSent(env, sv, fd, p);
    assert Lists(ts, subs.of.Keys);
    hide Step, Inv, Snapshot, SnapshotPairs, Orders;
    SnapshotPairsLaw(env, subs, sv.people, p, ts);
    forall t, s
      ensures (t, s) in q <==> env.matches(p, t) && s in subs.Subscribers(t)
    {
      assert (t, s) in q <==> IsPair(env, subs, p, ts, (t, s));
    }
    forall i | 0 <= i < |q|
      ensures Known(sv.people, q[i].1)
    {
      assert q[i] in q && IsPair(env, subs, p, ts, q[i]);
    }
  }

  lemma SnapshotIsSent(env: Env, sv: Server, fd: int, p: Pattern)
    requires Inv(env, sv) && Enabled(env, sv, Received(fd, NotificationRequest(p, true)))
    requires Known(sv.people, sv.fds[fd])
    ensures var l := sv.fds[fd]; var sv' := Step(env, sv, Received(fd, NotificationRequest(p, true)));
      l in sv.outbox && sv'.outbox == sv.outbox[l := sv.outbox[l] +
        Snapshot(env, sv.hub.subs, sv.people, p, env.topicOrder(sv.hub.subs.of.Keys))]
  {
    hide Snapshot, SubsInv, PubsInv, ClientsKnown, IndexedKnown;
    assert NotifsAt(env.binding, sv.hub.notifs, sv.fds[fd], p);
  }

  lemma ListenTells(env: Env, sv: Server, id: Id, q: Pattern, l: Id, p: Pattern) returns (ms: seq<Message>)
    requires Inv(env, sv) && Orders(env) && l in sv.outbox
    ensures var sv' := OnNotification(env, sv, id, q, true);
      l in sv'.outbox && sv'.outbox[l] == sv.outbox[l] + ms && Tells(env, p, ms, sv.hub.subs.of, sv'.hub.subs.of)
  {
    var of := sv.hub.subs.of;
    var ns := sv.hub.notifs.Add(env, id, q);
    var ts := env.topicOrder(of.Keys);
    var tells := id == l && q in ns.regexes && !sv.hub.notifs.AddThrows(env, q);
    ms := if tells then Snapshot(env, sv.hub.subs, sv.people, ns.regexes[q], ts) else [];
    assert Lists(ts, of.Keys);
    forall t | env.matches(p, t)
      ensures LastSaid(ms, t) == None || (LastSaid(ms, t) == Some(true) && t in of)
    {
      if tells {
        SnapshotSays(env, sv.hub.subs, sv.people, ns.regexes[q], ts, t);
      }
    }
  }

  // ---- A disconnect ----

  /** Messages that say of a list of topics, as far as `l` listens to them, that they are deserted. */
  ghost predicate SaysGone(env: Env, ns: Notifs, ms: seq<Message>, ts: seq<Topic>, l: Id) {
    forall t :: LastSaid(ms, t) == (if t in ts && l in ns.Listeners(env, t) then Some(false) else None)
  }

  lemma {:induction false} GoneSays(env: Env, sv: Server, ob: Outbox, s: Id, ts: seq<Topic>, l: Id)
    returns (ms: seq<Message>)
    requires l in ob
    ensures var ob' := NotifyGone(env, sv.hub.notifs, sv.people, ob, s, ts);
      l in ob' && ob'[l] == ob[l] + ms
    ensures SaysGone(env, sv.hub.notifs, ms, ts, l)
  {
    ms := [];
    if ts != [] {
      var n := |ts| - 1;
      var before := GoneSays(env, sv, ob, s, ts[..n], l);
      var now := Heard(env, sv.hub.notifs, sv.people, s, ts[n], false, l);
      ms := before + now;
      assert ts == ts[..n] + [ts[n]];
      forall t
        ensures LastSaid(ms, t) == if t in ts && l in sv.hub.notifs.Listeners(env, t) then Some(false) else None
      {
        HeardSays(env, sv.hub.notifs, sv.people, s, ts[n], false, l, t);
        LastSaidConcat(before, now, t);
      }
    }
  }

  lemma {:induction false} FilterLaw<T>(q: seq<T>, s: set<T>)
    ensures forall x :: x in Filter(q, s) <==> x in q && x in s
  {
    if q != [] {
      assert q == q[..|q| - 1] + [q[|q| - 1]];
      FilterLaw(q[..|q| - 1], s);
    }
  }

  lemma {:induction false} FilterDistinct<T(!new)>(q: seq<T>, s: set<T>)
    requires forall i, j :: 0 <= i < j < |q| ==> q[i] != q[j]
    ensures forall i, j :: 0 <= i < j < |Filter(q, s)| ==> Filter(q, s)[i] != Filter(q, s)[j]
  {
    if q != [] {
      var n := |q| - 1;
      assert q == q[..n] + [q[n]] && q[n] !in q[..n];
      FilterDistinct(q[..n], s);
      FilterLaw(q[..n], s);
    }
  }

  /** Filtering keeps the order: what comes later was later before. */
  lemma {:induction false} FilterInOrder<T(!new)>(q: seq<T>, s: set<T>, i: nat, j: nat) returns (a: nat, b: nat)
    requires i < j < |Filter(q, s)|
    ensures a < b < |q| && q[a] == Filter(q, s)[i] && q[b] == Filter(q, s)[j]
  {
    var n := |q| - 1;
    var front := Filter(q[..n], s);
    if j < |front| {
      a, b := FilterInOrder(q[..n], s, i, j);
    } else {
      b := n;
      FilterLaw(q[..n], s);
      assert front[i] in front;
      a :| 0 <= a < n && q[..n][a] == front[i];
    }
  }

  lemma DesertedTopics(env: Env, subs: Subs, id: Id)
    requires Orders(env)
    ensures forall t :: t in subs.Drop(id).of <==> t in subs.of && t !in GoneList(env, subs, id)
    ensures forall t :: t in GoneList(env, subs, id) ==> t in subs.of
  {
    assert Lists(env.topicOrder(subs.TopicsOf(id)), subs.TopicsOf(id));
    FilterLaw(env.topicOrder(subs.TopicsOf(id)), subs.Deserted(id));
  }

  /** What a disconnect adds to the queue of somebody else: notices, then last messages from publishers. */
  lemma CloseQueue(env: Env, sv: Server, fd: int, l: Id) returns (notices: seq<Message>, last: seq<Message>)
    requires Enabled(env, sv, Closed(fd)) && l != sv.fds[fd] && l in sv.outbox
    ensures var sv' := Step(env, sv, Closed(fd));
      l in sv'.outbox && sv'.outbox[l] == sv.outbox[l] + (notices + last)
    ensures SaysGone(env, sv.hub.notifs, notices, GoneList(env, sv.hub.subs, sv.fds[fd]), l)
    ensures forall m :: m in last ==> !m.ForwardedSubscriptionRequest?
  {
    var id, h := sv.fds[fd], sv.hub;
    var ob, gone := sv.outbox - {id}, GoneList(env, h.subs, id);
    var ob1 := NotifyGone(env, h.notifs, sv.people, ob, id, gone);
    var subs, stale := h.subs.Drop(id), StaleList(env, h.pubs, id);
    D.CloseOutbox(env, sv, fd);
    last := D.GoneMessages(sv.people, id, D.SubscribedTopics(subs, l, stale));
    assert forall m :: m in last ==> !m.ForwardedSubscriptionRequest?;
    hide Enabled, Subs.Drop, OnDisconnected, Step, NotifyGone, SendGone, SaysGone;
    hide GoneList, StaleList, D.GoneMessages, D.SubscribedTopics;
    notices := GoneSays(env, sv, ob, id, gone, l);
    D.SendGoneTo(subs, sv.people, ob1, id, stale, l);
    Associative(ob[l], notices, last);
  }

  /** The notices about a list of deserted topics. */
  function GoneNotices(people: People, s: Id, ts: seq<Topic>): (ms: seq<Message>)
    ensures |ms| == |ts| && forall i :: 0 <= i < |ts| ==> ms[i] == SubscriptionNotice(people, s, ts[i], false)
  {
    seq(|ts|, i requires 0 <= i < |ts| => SubscriptionNotice(people, s, ts[i], false))
  }

  lemma {:induction false} NotifyGoneTo(
    env: Env, ns: Notifs, people: People, ob: Outbox, s: Id, ts: seq<Topic>, r: Id, heard: set<Topic>)
    requires r in ob && forall t :: t in ts ==> (t in heard <==> r in ns.Listeners(env, t))
    ensures var ob' := NotifyGone(env, ns, people, ob, s, ts);
      r in ob' && ob'[r] == ob[r] + GoneNotices(people, s, Filter(ts, heard))
  {
    hide Notifs.Listeners, SubscriptionNotice;
    if ts == [] {
      assert ob[r] + GoneNotices(people, s, []) == ob[r];
    } else {
      var n := |ts| - 1;
      var before, now := Filter(ts[..n], heard), Filter(ts, heard);
      assert ts[n] in ts;
      NotifyGoneTo(env, ns, people, ob, s, ts[..n], r, heard);
      if ts[n] in heard {
        assert GoneNotices(people, s, now) ==
          GoneNotices(people, s, before) + [SubscriptionNotice(people, s, ts[n], false)];
      }
    }
  }

  /**
    What a departure sends to anybody who stays, in order: one notice for each topic that it leaves without
    subscribers and that the receiver listens to, and then one empty message for each topic that nobody else
    publishes and that the receiver subscribes to.
   */
  lemma DepartureExactness(env: Env, sv: Server, fd: int, r: Id) returns (gone: seq<Topic>, stale: seq<Topic>)
    requires Inv(env, sv) && Orders(env) && Enabled(env, sv, Closed(fd)) && r in sv.people && r != sv.fds[fd]
    ensures forall i, j :: 0 <= i < j < |gone| ==> gone[i] != gone[j]
    ensures forall i, j :: 0 <= i < j < |stale| ==> stale[i] != stale[j]
    ensures var sv' := Step(env, sv, Closed(fd));
      && (forall t :: t in gone <==> t in sv.hub.subs.of && t !in sv'.hub.subs.of && Listens(env, sv, r, t))
      && (forall t :: t in stale <==>
           sv.hub.pubs.PublishersOf(t) == {sv.fds[fd]} && r in sv'.hub.subs.Subscribers(t))
    ensures var s := sv.people[sv.fds[fd]];
      gone != [] || stale != [] ==> s.user.Some?
    ensures var s, sv' := sv.people[sv.fds[fd]], Step(env, sv, Closed(fd));
      && r in sv.outbox && r in sv'.outbox && sv.outbox[r] <= sv'.outbox[r]
      && |sv'.outbox[r]| == |sv.outbox[r]| + |gone| + |stale|
      && (forall i :: 0 <= i < |gone| ==>
           sv'.outbox[r][|sv.outbox[r]| + i] ==
           ForwardedSubscriptionRequest(UserOf(sv.people, sv.fds[fd]), s.host, s.uuid, gone[i], false))
      && (forall i :: 0 <= i < |stale| ==>
           sv'.outbox[r][|sv.outbox[r]| + |gone| + i] ==
           ForwardedMulticastData(UserOf(sv.people, sv.fds[fd]), s.host, stale[i], []))
  {
    hide Inv, Orders, Step, GoneList, StaleList, Filter, D.SubscribedTopics, SubscriptionNotice, PublisherGone;
    hide Subs.Drop, Subs.Subscribers, Pubs.PublishersOf, Listens, Notifs.Listeners, UserOf;
    var id, h := sv.fds[fd], sv.hub;
    var list := GoneList(env, h.subs, id);
    var heard := set t | t in list && r in h.notifs.Listeners(env, t);
    gone := Filter(list, heard);
    stale := D.SubscribedTopics(h.subs.Drop(id), r, StaleList(env, h.pubs, id));
    DepartureTopics(env, sv, fd, r, heard);
    DepartureQueue(env, sv, fd, r, heard);
    CloseEffect(env, sv, fd);
    var notices, last := GoneNotices(sv.people, id, gone), D.GoneMessages(sv.people, id, stale);
    var q, q' := sv.outbox[r], Step(env, sv, Closed(fd)).outbox[r];
    assert q' == q + notices + last;
    forall i | 0 <= i < |gone|
      ensures q'[|q| + i] ==
        ForwardedSubscriptionRequest(UserOf(sv.people, id), sv.people[id].host, sv.people[id].uuid, gone[i], false)
    {
      NoticeFields(sv.people, id, gone[i], false);
    }
    forall i | 0 <= i < |stale|
      ensures q'[|q| + |gone| + i] == ForwardedMulticastData(UserOf(sv.people, id), sv.people[id].host, stale[i], [])
    {
      NoticeFields(sv.people, id, stale[i], false);
      AppendedAt(q, notices, last, i);
    }
  }

  lemma NoticeFields(people: People, s: Id, t: Topic, isAdd: bool)
    requires s in people
    ensures SubscriptionNotice(people, s, t, isAdd) ==
      ForwardedSubscriptionRequest(UserOf(people, s), people[s].host, people[s].uuid, t, isAdd)
    ensures PublisherGone(people, s, t) == ForwardedMulticastData(UserOf(people, s), people[s].host, t, [])
  {
  }

  lemma AppendedAt<T>(q: seq<T>, a: seq<T>, b: seq<T>, i: nat)
    requires i < |b|
    ensures (q + a + b)[|q| + |a| + i] == b[i]
  {
  }

  lemma DepartureQueue(env: Env, sv: Server, fd: int, r: Id, heard: set<Topic>)
    requires Inv(env, sv) && Enabled(env, sv, Closed(fd)) && r in sv.people && r != sv.fds[fd]
    requires var list := GoneList(env, sv.hub.subs, sv.fds[fd]);
      forall t :: t in heard <==> t in list && r in sv.hub.notifs.Listeners(env, t)
    ensures var id, h := sv.fds[fd], sv.hub;
      var gone := Filter(GoneList(env, h.subs, id), heard);
      var stale := D.SubscribedTopics(h.subs.Drop(id), r, StaleList(env, h.pubs, id));
      var sv' := Step(env, sv, Closed(fd));
      && r in sv.outbox && r in sv'.outbox
      && sv'.outbox[r] == sv.outbox[r] + GoneNotices(sv.people, id, gone) + D.GoneMessages(sv.people, id, stale)
  {
    hide OnDisconnected, GoneList, StaleList, Filter, D.SubscribedTopics, NotifyGone, SendGone, Subs.Drop;
    hide D.GoneMessages, Notifs.Listeners, GoneNotices;
    var id, h := sv.fds[fd], sv.hub;
    var ob, list := sv.outbox - {id}, GoneList(env, h.subs, id);
    D.CloseOutbox(env, sv, fd);
    NotifyGoneTo(env, h.notifs, sv.people, ob, id, list, r, heard);
    D.SendGoneTo(h.subs.Drop(id), sv.people, NotifyGone(env, h.notifs, sv.people, ob, id, list), id,
      StaleList(env, h.pubs, id), r);
  }

  /** One of the patterns of the listener matches the topic. */
  ghost predicate Listens(env: Env, sv: Server, l: Id, t: Topic) {
    exists p :: l in sv.hub.notifs.ListeningTo(p) && env.matches(p, t)
  }

  lemma ListensIsHeard(env: Env, sv: Server, l: Id, t: Topic)
    requires NotifsInv(env.binding, sv.hub.notifs)
    ensures Listens(env, sv, l, t) <==> l in sv.hub.notifs.Listeners(env, t)
  {
    if p :| l in sv.hub.notifs.ListeningTo(p) && env.matches(p, t) {
      HearsOf(env, sv.hub.notifs, l, p, t);
    }
    if l in sv.hub.notifs.Listeners(env, t) {
      HeardUnderSome(env, sv.hub.notifs, l, t);
    }
  }

  lemma DepartureTopics(env: Env, sv: Server, fd: int, r: Id, heard: set<Topic>)
    requires Inv(env, sv) && Orders(env) && Enabled(env, sv, Closed(fd))
    requires var list := GoneList(env, sv.hub.subs, sv.fds[fd]);
      forall t :: t in heard <==> t in list && r in sv.hub.notifs.Listeners(env, t)
    ensures var id, h := sv.fds[fd], sv.hub;
      var gone := Filter(GoneList(env, h.subs, id), heard);
      var stale := D.SubscribedTopics(h.subs.Drop(id), r, StaleList(env, h.pubs, id));
      && (forall i, j :: 0 <= i < j < |gone| ==> gone[i] != gone[j])
      && (forall i, j :: 0 <= i < j < |stale| ==> stale[i] != stale[j])
      && (forall t :: t in gone <==> t in h.subs.of && t !in h.subs.Drop(id).of && Listens(env, sv, r, t))
      && (forall t :: t in stale <==> h.pubs.PublishersOf(t) == {id} && r in h.subs.Drop(id).Subscribers(t))
      && (gone != [] || stale != [] ==> Known(sv.people, id))
  {
    var id, h := sv.fds[fd], sv.hub;
    var list, all := GoneList(env, h.subs, id), StaleList(env, h.pubs, id);
    GoneListLaw(env, h.subs, id);
    DesertedTopics(env, h.subs, id);
    D.StaleTopics(env, h.pubs, id);
    assert IndexedKnown(sv, id) && NotifsInv(env.binding, h.notifs);
    hide Inv, GoneList, StaleList, Subs.Drop, Subs.Subscribers, Pubs.PublishersOf, Listens, Notifs.Listeners;
    hide D.SubscribedTopics, Filter;
    FilterDistinct(list, heard);
    FilterLaw(list, heard);
    D.SubscribedTopicsLaw(h.subs.Drop(id), r, all);
    forall t
      ensures Listens(env, sv, r, t) <==> r in h.notifs.Listeners(env, t)
    {
      ListensIsHeard(env, sv, r, t);
    }
    var gone, stale := Filter(list, heard), D.SubscribedTopics(h.subs.Drop(id), r, all);
    if gone != [] {
      assert gone[0] in gone;
    }
    if stale != [] {
      assert stale[0] in stale;
    }
  }

  /** A departure deserts no topic twice, and none unless the departing client had topics. */
  lemma GoneListLaw(env: Env, subs: Subs, id: Id)
    requires Orders(env)
    ensures var list := GoneList(env, subs, id);
      && (forall i, j :: 0 <= i < j < |list| ==> list[i] != list[j])
      && forall t :: t in list ==> id in subs.topics
  {
    var q := env.topicOrder(subs.TopicsOf(id));
    assert Lists(q, subs.TopicsOf(id));
    FilterDistinct(q, subs.Deserted(id));
    FilterLaw(q, subs.Deserted(id));
  }

  lemma CloseTells(env: Env, sv: Server, fd: int, l: Id, p: Pattern) returns (ms: seq<Message>)
    requires Inv(env, sv) && Orders(env) && Enabled(env, sv, Closed(fd)) && l != sv.fds[fd]
    requires l in sv.hub.notifs.ListeningTo(p) && l in sv.outbox
    ensures var sv' := Step(env, sv, Closed(fd));
      l in sv'.outbox && sv'.outbox[l] == sv.outbox[l] + ms && Tells(env, p, ms, sv.hub.subs.of, sv'.hub.subs.of)
  {
    CloseEffect(env, sv, fd);
    hide Step, SaysGone, GoneList, Tells, NotifsInv, Orders;
    var notices, last := CloseQueue(env, sv, fd, l);
    DesertedTopics(env, sv.hub.subs, sv.fds[fd]);
    ms := notices + last;
    GoneTells(env, sv, l, p, notices, GoneList(env, sv.hub.subs, sv.fds[fd]), last,
      sv.hub.subs.of, sv.hub.subs.Drop(sv.fds[fd]).of);
  }

  lemma GoneTells(
    env: Env, sv: Server, l: Id, p: Pattern, notices: seq<Message>, gone: seq<Topic>, last: seq<Message>,
    of: map<Topic, map<Id, int>>, of': map<Topic, map<Id, int>>)
    requires NotifsInv(env.binding, sv.hub.notifs) && l in sv.hub.notifs.ListeningTo(p)
    requires SaysGone(env, sv.hub.notifs, notices, gone, l)
    requires forall m :: m in last ==> !m.ForwardedSubscriptionRequest?
    requires forall t :: t in of' <==> t in of && t !in gone
    requires forall t :: t in gone ==> t in of
    ensures Tells(env, p, notices + last, of, of')
  {
    hide NotifsInv;
    forall t | env.matches(p, t)
      ensures var ms := notices + last;
        LastSaid(ms, t) == Some(t in of') || (LastSaid(ms, t) == None && (t in of' <==> t in of))
    {
      NothingSaid(last, t);
      LastSaidConcat(notices, last, t);
      HearsOf(env, sv.hub.notifs, l, p, t);
    }
  }

  // ---- Any event ----

  lemma EventTells(env: Env, sv: Server, e: Event, l: Id, p: Pattern) returns (ms: seq<Message>)
    requires Inv(env, sv) && Orders(env) && Enabled(env, sv, e)
    requires l in sv.hub.notifs.ListeningTo(p) && l in Step(env, sv, e).hub.notifs.ListeningTo(p)
    ensures var sv' := Step(env, sv, e);
      && l in sv.outbox && l in sv'.outbox
      && sv'.outbox[l] == sv.outbox[l] + ms && Tells(env, p, ms, sv.hub.subs.of, sv'.hub.subs.of)
  {
    ListenerIsKnown(env, sv, l, p);
    ms := [];
    match e
    case Closed(fd) =>
      NotifsDropAt(env.binding, sv.hub.notifs, sv.fds[fd], l, p);
      CloseEffect(env, sv, fd);
      ms := CloseTells(env, sv, fd, l, p);
    case Received(fd, m) =>
      if Known(sv.people, sv.fds[fd]) {
        ms := MessageTells(env, sv, sv.fds[fd], m, l, p);
      }
    case _ =>
  }

  lemma ListenerIsKnown(env: Env, sv: Server, l: Id, p: Pattern)
    requires Inv(env, sv) && l in sv.hub.notifs.ListeningTo(p)
    ensures Known(sv.people, l) && l in sv.outbox
    ensures forall id :: NotifsAt(env.binding, sv.hub.notifs, id, p)
  {
    assert NotifsAt(env.binding, sv.hub.notifs, l, p) && IndexedKnown(sv, l);
  }

  lemma MessageTells(env: Env, sv: Server, id: Id, m: Message, l: Id, p: Pattern) returns (ms: seq<Message>)
    requires Inv(env, sv) && Orders(env) && l in sv.hub.notifs.ListeningTo(p) && l in sv.outbox
    ensures var sv' := OnMessage(env, sv, id, m);
      l in sv'.outbox && sv'.outbox[l] == sv.outbox[l] + ms && Tells(env, p, ms, sv.hub.subs.of, sv'.hub.subs.of)
  {
    ms := [];
    match m
    case SubscriptionRequest(topic, isAdd) =>
      ms := SubscriptionTells(env, sv, id, topic, isAdd, l, p);
    case NotificationRequest(pattern, isAdd) =>
      if isAdd {
        ms := ListenTells(env, sv, id, pattern, l, p);
      }
    case UnicastData(_, _, _) => ms := DataTells(env, sv, id, m, l, p);
    case MulticastData(_, _) => ms := DataTells(env, sv, id, m, l, p);
    case _ =>
  }

  lemma DataTells(env: Env, sv: Server, id: Id, m: Message, l: Id, p: Pattern) returns (ms: seq<Message>)
    requires l in sv.outbox && (m.UnicastData? || m.MulticastData?)
    ensures var sv' := OnMessage(env, sv, id, m);
      l in sv'.outbox && sv'.outbox[l] == sv.outbox[l] + ms && Tells(env, p, ms, sv.hub.subs.of, sv'.hub.subs.of)
  {
    hide ClearanceFor;
    var sv' := OnMessage(env, sv, id, m);
    var n := |sv.outbox[l]|;
    ms := sv'.outbox[l][n..];
    forall t
      ensures LastSaid(ms, t) == None
    {
      NothingSaid(ms, t);
    }
  }

  // ---- Being recorded ----

  /** The only event that makes anybody a listener is their own request, which comes with a snapshot. */
  lemma RecordedWithSnapshot(env: Env, sv: Server, e: Event, l: Id, p: Pattern) returns (ms: seq<Message>)
    requires Inv(env, sv) && Orders(env) && Enabled(env, sv, e)
    requires l !in sv.hub.notifs.ListeningTo(p) && l in Step(env, sv, e).hub.notifs.ListeningTo(p)
    ensures var sv' := Step(env, sv, e);
      && l in sv.outbox && l in sv'.outbox
      && sv'.outbox[l] == sv.outbox[l] + ms && Exact(env, p, ms, sv'.hub.subs.of)
  {
    assert NotifsAt(env.binding, sv.hub.notifs, l, p);
    RecordedBy(env, sv, e, l, p);
    hide NotifsInv, SubsInv, PubsInv, Snapshot, ClientsKnown, IndexedKnown;
    var ns, of := sv.hub.notifs.Add(env, l, p), sv.hub.subs.of;
    var ts := env.topicOrder(of.Keys);
    ms := Snapshot(env, sv.hub.subs, sv.people, ns.regexes[p], ts);
    assert ns.regexes[p] == p && Lists(ts, of.Keys);
    forall t | env.matches(p, t)
      ensures LastSaid(ms, t) == Some(true) <==> t in of
    {
      assert SubsAt(sv.hub.subs, 0, t);
      SnapshotSays(env, sv.hub.subs, sv.people, p, ts, t);
    }
  }

  lemma RecordedBy(env: Env, sv: Server, e: Event, l: Id, p: Pattern)
    requires Enabled(env, sv, e)
    requires l !in sv.hub.notifs.ListeningTo(p) && l in Step(env, sv, e).hub.notifs.ListeningTo(p)
    ensures e.Received? && sv.fds[e.fd] == l && e.message == NotificationRequest(p, true) && Known(sv.people, l)
  {
    hide Notifs.Add, Notifs.Remove, Notifs.Drop, Notifs.ListeningTo, Notify, Snapshot, Multicast, ClearanceFor;
    match e
    case Closed(fd) =>
      CloseEffect(env, sv, fd);
      hide OnDisconnected;
      DropRecordsNobody(sv.hub.notifs, sv.fds[fd], l, p);
    case Received(fd, m) =>
      if m.NotificationRequest? {
        AddRecords(env, sv.hub.notifs, sv.fds[fd], m.topicPattern, l, p);
        RemoveRecordsNobody(env.binding, sv.hub.notifs, sv.fds[fd], m.topicPattern, l, p);
      }
    case _ =>
  }

  lemma AddRecords(env: Env, st: Notifs, l': Id, p': Pattern, l: Id, p: Pattern)
    ensures l in st.Add(env, l', p').ListeningTo(p) ==> l in st.ListeningTo(p) || (l == l' && p == p')
  {
  }

  lemma RemoveRecordsNobody(binding: Binding, st: Notifs, l': Id, p': Pattern, l: Id, p: Pattern)
    ensures l in st.Remove(binding, l', p').ListeningTo(p) ==> l in st.ListeningTo(p)
  {
  }

  lemma DropRecordsNobody(st: Notifs, l': Id, l: Id, p: Pattern)
    ensures l in st.Drop(l').ListeningTo(p) ==> l in st.ListeningTo(p)
  {
  }

  // ---- The view over a run ----

  /** How long the queue of `l` was after the first `i` events. */
  function QueueLength(env: Env, events: seq<Event>, i: nat, l: Id): nat
    requires i <= |events|
  {
    var ob := Run(env, events[..i]).outbox;
    if l in ob then |ob[l]| else 0
  }

  /** `l` became a listener of `p` with event `i` and has been one ever since. */
  ghost predicate RecordedSince(env: Env, events: seq<Event>, i: nat, l: Id, p: Pattern)
    requires i < |events|
  {
    && l !in Run(env, events[..i]).hub.notifs.ListeningTo(p)
    && forall j :: i < j <= |events| ==> l in Run(env, events[..j]).hub.notifs.ListeningTo(p)
  }

  /**
    The listener's view, after any run, as written or as intended: everything sent to `l` since it was
    recorded under `p` shows exactly the topics matching `p` that have subscribers.
   */
  lemma {:induction false} ViewIsExact(env: Env, events: seq<Event>, i: nat, l: Id, p: Pattern)
    requires Orders(env) && i < |events| && RecordedSince(env, events, i, l, p)
    ensures var sv := Run(env, events); var start := QueueLength(env, events, i, l);
      l in sv.outbox && start <= |sv.outbox[l]| && Exact(env, p, sv.outbox[l][start..], sv.hub.subs.of)
  {
    var n := |events| - 1;
    var before, e := events[..n], events[n];
    var sv, start := Run(env, before), QueueLength(env, events, i, l);
    RunKeepsInv(env, before);
    RecordedBefore(env, events, i, l, p);
    hide Inv, Step, Exact, Tells, Notifs.ListeningTo, RecordedSince, Orders;
    if i == n {
      var ms := RecordedWithSnapshot(env, sv, e, l, p);
      DropOfConcat(sv.outbox[l], ms, start);
    } else {
      ViewIsExact(env, before, i, l, p);
      if Enabled(env, sv, e) {
        var ms := EventTells(env, sv, e, l, p);
        ToldStaysExact(env, p, sv.outbox[l][start..], ms, sv.hub.subs.of, Step(env, sv, e).hub.subs.of);
        DropOfConcat(sv.outbox[l], ms, start);
      }
    }
  }

  /** Being recorded since event `i`, seen from before the last event. */
  lemma RecordedBefore(env: Env, events: seq<Event>, i: nat, l: Id, p: Pattern)
    requires i < |events| && RecordedSince(env, events, i, l, p)
    ensures var before := events[..|events| - 1];
      var sv, sv' := Run(env, before), Run(env, events);
      && l in sv'.hub.notifs.ListeningTo(p)
      && (i == |before| ==> l !in sv.hub.notifs.ListeningTo(p) && Enabled(env, sv, events[i]))
      && (i < |before| ==> l in sv.hub.notifs.ListeningTo(p) && RecordedSince(env, before, i, l, p))
      && (i < |before| ==> QueueLength(env, before, i, l) == QueueLength(env, events, i, l))
  {
    var n := |events| - 1;
    assert events[..n + 1] == events;
    assert l in Run(env, events[..n + 1]).hub.notifs.ListeningTo(p);
    if i < n {
      assert l in Run(env, events[..n]).hub.notifs.ListeningTo(p);
      assert forall j :: 0 <= j <= n ==> events[..n][..j] == events[..j];
    }
  }

  /** Who asks to listen is a listener afterwards, except, as written, under a pattern somebody else has. */
  lemma RecordedOnRequest(env: Env, sv: Server, fd: int, p: Pattern)
    requires Inv(env, sv) && Enabled(env, sv, Received(fd, NotificationRequest(p, true)))
    requires Known(sv.people, sv.fds[fd])
    ensures sv.fds[fd] in Step(env, sv, Received(fd, NotificationRequest(p, true))).hub.notifs.ListeningTo(p) <==>
      !(env.binding == ByCopy && Unrecorded(sv.hub.notifs, sv.fds[fd], p))
  {
    assert NotifsAt(env.binding, sv.hub.notifs, sv.fds[fd], p);
  }
}
