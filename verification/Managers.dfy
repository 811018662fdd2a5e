/**
  The subscription manager and the notification manager, each of which calls the other, method by
  method against the model.
 */
module Managers {
  import opened Bytes
  import opened Messages
  import opened HubModel
  import opened Switchboards

  // ---- Finding listeners ----

  predicate HeardUnder(env: Env, ns: Notifs, p: Pattern, t: Topic, l: Id) {
    p in ns.regexes && env.matches(ns.regexes[p], t) && p in ns.of && l in ns.of[p]
  }

  /** The listeners that are found under a list of patterns. */
  function Found(env: Env, ns: Notifs, q: seq<Pattern>, t: Topic): set<Id> {
    if q == [] then {}
    else
      var p := q[|q| - 1];
      Found(env, ns, q[..|q| - 1], t) +
      if p in ns.regexes && env.matches(ns.regexes[p], t) && p in ns.of then ns.of[p].Keys else {}
  }

  lemma {:induction false} FoundLaw(env: Env, ns: Notifs, q: seq<Pattern>, t: Topic, l: Id)
    ensures l in Found(env, ns, q, t) <==> exists p :: p in q && HeardUnder(env, ns, p, t, l)
  {
    if q != [] {
      var n := |q| - 1;
      assert q == q[..n] + [q[n]];
      FoundLaw(env, ns, q[..n], t, l);
      assert l in Found(env, ns, q, t) <==> l in Found(env, ns, q[..n], t) || HeardUnder(env, ns, q[n], t, l);
    }
  }

  lemma AllFound(env: Env, ns: Notifs, q: seq<Pattern>, t: Topic)
    requires Lists(q, ns.regexes.Keys)
    ensures Found(env, ns, q, t) == ns.Listeners(env, t)
  {
    forall l
      ensures l in Found(env, ns, q, t) <==> l in ns.Listeners(env, t)
    {
      FoundLaw(env, ns, q, t, l);
      if p :| p in q && HeardUnder(env, ns, p, t, l) {
        assert l in ns.Listeners(env, t);
      }
      if l in ns.Listeners(env, t) {
        var p :| p in ns.regexes && env.matches(ns.regexes[p], t) && p in ns.of && l in ns.of[p];
        assert p in q && HeardUnder(env, ns, p, t, l);
      }
    }
  }

  // ---- Dropping an interactor from an index ----

  /** An index as it is once `s` has been taken off the keys in `done`. */
  ghost function DropFrom(of: map<Topic, map<Id, int>>, done: set<Topic>, s: Id): map<Topic, map<Id, int>> {
    map t | t in of && !(t in done && of[t].Keys <= {s}) :: if t in done then of[t] - {s} else of[t]
  }

  lemma DropNone(of: map<Topic, map<Id, int>>, s: Id)
    ensures DropFrom(of, {}, s) == of
  {
  }

  lemma DropNext(of: map<Topic, map<Id, int>>, done: set<Topic>, s: Id, t: Topic)
    requires t !in done
    ensures t !in of ==> t !in DropFrom(of, done, s) && DropFrom(of, done + {t}, s) == DropFrom(of, done, s)
    ensures t in of ==> t in DropFrom(of, done, s) && DropFrom(of, done, s)[t] == of[t]
    ensures t in of && of[t].Keys <= {s} ==> DropFrom(of, done + {t}, s) == DropFrom(of, done, s) - {t}
    ensures t in of && !(of[t].Keys <= {s}) ==>
      DropFrom(of, done + {t}, s) == DropFrom(of, done, s)[t := of[t] - {s}]
  {
  }

  /** The compiled patterns that remain once `l` has been taken off the patterns in `done`. */
  ghost function WithoutGone(
    of: map<Pattern, map<Id, int>>, regexes: map<Pattern, Pattern>, done: set<Pattern>, l: Id): map<Pattern, Pattern>
  {
    map p | p in regexes && !(p in done && p in of && of[p].Keys <= {l}) :: regexes[p]
  }

  lemma GoneNone(of: map<Pattern, map<Id, int>>, regexes: map<Pattern, Pattern>, l: Id)
    ensures WithoutGone(of, regexes, {}, l) == regexes
  {
  }

  lemma GoneNext(of: map<Pattern, map<Id, int>>, regexes: map<Pattern, Pattern>, done: set<Pattern>, l: Id, p: Pattern)
    ensures WithoutGone(of, regexes, done + {p}, l) ==
      if p in of && of[p].Keys <= {l} then WithoutGone(of, regexes, done, l) - {p}
      else WithoutGone(of, regexes, done, l)
  {
  }

  lemma SendNothing(ob: Outbox, l: Id)
    ensures SendSeq(ob, l, []) == ob
  {
    if l in ob {
      assert ob[l] + [] == ob[l];
    }
  }

  lemma SendOneMore(ob: Outbox, l: Id, a: seq<Message>, b: seq<Message>, m: Message)
    ensures SendTo(SendSeq(ob, l, a + b), l, m) == SendSeq(ob, l, a + (b + [m]))
  {
    if l in ob {
      assert ob[l] + (a + b) + [m] == ob[l] + (a + (b + [m]));
    }
  }

  // ---- Snapshots ----

  /** The subscribers of the topics that match, topic by topic. */
  function Matching(env: Env, subs: Subs, regex: Pattern, ts: seq<Topic>): seq<(Topic, seq<Id>)> {
    if ts == [] then []
    else
      var t := ts[|ts| - 1];
      Matching(env, subs, regex, ts[..|ts| - 1]) +
      if env.matches(regex, t) then [(t, env.idOrder(subs.Subscribers(t)))] else []
  }

  /** The messages that tell a new listener about these subscribers. */
  function MessagesFor(people: People, found: seq<(Topic, seq<Id>)>): seq<Message> {
    if found == [] then []
    else
      var (t, ids) := found[|found| - 1];
      MessagesFor(people, found[..|found| - 1]) + SnapshotOf(people, t, ids)
  }

  lemma {:induction false} MatchingIsSnapshot(env: Env, subs: Subs, people: People, regex: Pattern, ts: seq<Topic>)
    ensures MessagesFor(people, Matching(env, subs, regex, ts)) == Snapshot(env, subs, people, regex, ts)
  {
    if ts != [] {
      var n := |ts| - 1;
      MatchingIsSnapshot(env, subs, people, regex, ts[..n]);
      var found := Matching(env, subs, regex, ts);
      if env.matches(regex, ts[n]) {
        assert found[..|found| - 1] == Matching(env, subs, regex, ts[..n]);
      } else {
        assert found == Matching(env, subs, regex, ts[..n]);
        assert Snapshot(env, subs, people, regex, ts) == Snapshot(env, subs, people, regex, ts[..n]);
      }
    }
  }

  lemma MatchingNext(env: Env, subs: Subs, regex: Pattern, q: seq<Topic>, i: nat)
    requires i < |q|
    ensures Matching(env, subs, regex, q[..i + 1]) ==
      if env.matches(regex, q[i])
      then Matching(env, subs, regex, q[..i]) + [(q[i], env.idOrder(subs.Subscribers(q[i])))]
      else Matching(env, subs, regex, q[..i])
  {
    assert q[..i + 1][..i] == q[..i];
  }

  lemma {:induction false} MatchingLaw(env: Env, subs: Subs, regex: Pattern, ts: seq<Topic>)
    requires Orders(env)
    ensures forall f, id :: f in Matching(env, subs, regex, ts) && id in f.1 ==>
      f.0 in ts && env.matches(regex, f.0) && id in subs.Subscribers(f.0)
  {
    if ts != [] {
      var n := |ts| - 1;
      assert ts == ts[..n] + [ts[n]];
      MatchingLaw(env, subs, regex, ts[..n]);
      assert Lists(env.idOrder(subs.Subscribers(ts[n])), subs.Subscribers(ts[n]));
    }
  }

  class NotificationManager {
    var notifications: map<Pattern, map<Id, int>>
    var regexCache: map<Pattern, Pattern>
    var listenerTopicPatterns: map<Id, set<Pattern>>

    constructor ()
      ensures State() == Notifs(map[], map[], map[])
    {
      notifications, regexCache, listenerTopicPatterns := map[], map[], map[];
    }

    ghost function State(): Notifs
      reads this
    {
      Notifs(notifications, regexCache, listenerTopicPatterns)
    }

    /** Every listener that a notice about a topic would go to is live. */
    ghost predicate Reaches(env: Env, topic: Topic, people: People)
      reads this
    {
      State().Listeners(env, topic) <= people.Keys
    }

    method FindListeners(env: Env, topic: Topic) returns (listeners: set<Id>)
      requires Orders(env)
      ensures listeners == State().Listeners(env, topic)
    {
      listeners := {};
      var q := env.topicOrder(regexCache.Keys);
      for i := 0 to |q|
        invariant listeners == Found(env, State(), q[..i], topic)
      {
        NextElement(q, regexCache.Keys, i);
        var p := q[i];
        if env.matches(regexCache[p], topic) && p in notifications {
          listeners := listeners + notifications[p].Keys;
        }
      }
      assert q[..|q|] == q;
      AllFound(env, State(), q, topic);
    }

    method Notify(env: Env, net: Switchboard, s: Id, topic: Topic, isAdd: bool)
      requires Orders(env) && Known(net.people, s) && Reaches(env, topic, net.people)
      modifies net`outbox
      ensures net.outbox == HubModel.Notify(env, State(), net.people, old(net.outbox), s, topic, isAdd)
    {
      var listeners := FindListeners(env, topic);
      if listeners == {} {
        SendAllNone(net.outbox, SubscriptionNotice(net.people, s, topic, isAdd));
        return;
      }
      var message := ForwardedSubscriptionRequest(net.User(s), net.Host(s), net.Uuid(s), topic, isAdd);
      net.SendToAll(env, listeners, message);
    }

    /** Returns false when the pattern does not compile and the exception leaves the rest undone. */
    method Record(env: Env, l: Id, p: Pattern) returns (ok: bool)
      modifies this
      ensures State() == old(State()).Add(env, l, p)
      ensures ok <==> !old(State()).AddThrows(env, p)
    {
      if p !in notifications {
        // New topic pattern.
        notifications := notifications[p := map[l := 1]];
        if !env.isPattern(p) {
          return false;
        }
        regexCache := regexCache[p := p];
      } else {
        // Existing topic pattern. `auto listeners`: a copy, unless it is meant to be a reference.
        var listeners := notifications[p];
        if l !in listeners {
          listeners := listeners[l := 1];
        } else {
          listeners := listeners[l := listeners[l] + 1];
        }
        if env.binding == ByReference {
          notifications := notifications[p := listeners];
        }
      }
      // The reverse lookup.
      if l !in listenerTopicPatterns {
        assert {} + {p} == {p};
        listenerTopicPatterns := listenerTopicPatterns[l := {p}];
      } else {
        listenerTopicPatterns := listenerTopicPatterns[l := listenerTopicPatterns[l] + {p}];
      }
      return true;
    }

    method AddListener(env: Env, net: Switchboard, sm: SubscriptionManager, l: Id, p: Pattern) returns (ok: bool)
      requires Orders(env) && l in net.people
      requires forall t, s :: env.matches(p, t) && s in sm.State().Subscribers(t) ==> Known(net.people, s)
      requires p in regexCache ==> regexCache[p] == p
      modifies this, net`outbox
      ensures State() == old(State()).Add(env, l, p)
      ensures ok <==> !old(State()).AddThrows(env, p)
      ensures net.outbox == (if ok && p in regexCache
        then SendSeq(old(net.outbox), l,
               Snapshot(env, sm.State(), net.people, p, env.topicOrder(sm.subscriptions.Keys)))
        else old(net.outbox))
    {
      ok := Record(env, l, p);
      assert p in regexCache ==> regexCache[p] == p;
      hide Notifs.Add, Snapshot, Matching, MessagesFor;
      // Notify the listener of existing subscriptions.
      if ok && p in regexCache {
        var found := sm.FindMatchingSubscriptions(env, regexCache[p]);
        MatchingIsSnapshot(env, sm.State(), net.people, p, env.topicOrder(sm.subscriptions.Keys));
        MatchingLaw(env, sm.State(), p, env.topicOrder(sm.subscriptions.Keys));
        SendSnapshot(net, l, found);
      }
    }

    method SendSnapshot(net: Switchboard, l: Id, found: seq<(Topic, seq<Id>)>)
      requires l in net.people
      requires forall f, id :: f in found && id in f.1 ==> Known(net.people, id)
      modifies net`outbox
      ensures net.outbox == SendSeq(old(net.outbox), l, MessagesFor(net.people, found))
    {
      SendNothing(net.outbox, l);
      for i := 0 to |found|
        invariant net.outbox == SendSeq(old(net.outbox), l, MessagesFor(net.people, found[..i]))
      {
        assert found[..i + 1][..i] == found[..i];
        ghost var before := MessagesFor(net.people, found[..i]);
        var (topic, subscribers) := found[i];
        assert SnapshotOf(net.people, topic, subscribers[..0]) == [];
        assert before + [] == before;
        for j := 0 to |subscribers|
          invariant net.outbox ==
            SendSeq(old(net.outbox), l, before + SnapshotOf(net.people, topic, subscribers[..j]))
        {
          var s := subscribers[j];
          assert found[i] in found && s in found[i].1;
          var message := ForwardedSubscriptionRequest(net.User(s), net.Host(s), net.Uuid(s), topic, true);
          SendOneMore(old(net.outbox), l, before, SnapshotOf(net.people, topic, subscribers[..j]), message);
          assert SnapshotOf(net.people, topic, subscribers[..j + 1]) ==
            SnapshotOf(net.people, topic, subscribers[..j]) + [message];
          net.Send(l, message);
        }
        assert subscribers[..|subscribers|] == subscribers;
      }
      assert found[..|found|] == found;
    }

    method RemoveListener(env: Env, l: Id, p: Pattern)
      modifies this
      ensures State() == old(State()).Remove(env.binding, l, p)
    {
      if p !in notifications {
        return;
      }
      hide RemoveFrom;
      // `auto listeners`: a copy, unless it is meant to be a reference.
      var listeners := notifications[p];
      if l !in listeners {
        return;
      }
      listeners := listeners[l := listeners[l] - 1];
      if env.binding == ByReference {
        notifications := notifications[p := listeners];
      }
      if listeners[l] > 0 {
        return;
      }
      ghost var before := old(notifications)[p];
      listeners := listeners - {l};
      assert listeners == before - {l};
      ErasedEmpty(before, l);
      if env.binding == ByReference {
        notifications := notifications[p := listeners];
      }
      if listeners == map[] {
        notifications := notifications - {p};
        assert notifications == old(notifications) - {p};
        regexCache := regexCache - {p};
      }
      RemovePattern(l, p);
    }

    /** The reverse lookup of a request to stop listening. */
    method RemovePattern(l: Id, p: Pattern)
      modifies this`listenerTopicPatterns
      ensures listenerTopicPatterns == RemoveFrom(old(listenerTopicPatterns), l, p)
    {
      if l !in listenerTopicPatterns {
        return;
      }
      var patterns := listenerTopicPatterns[l] - {p};
      listenerTopicPatterns := listenerTopicPatterns[l := patterns];
      if patterns == {} {
        listenerTopicPatterns := listenerTopicPatterns - {l};
        assert listenerTopicPatterns == old(listenerTopicPatterns) - {l};
      }
    }

    method OnListen(env: Env, net: Switchboard, sm: SubscriptionManager, l: Id, p: Pattern, isAdd: bool)
      returns (ok: bool)
      requires Orders(env) && l in net.people
      requires forall t, s :: env.matches(p, t) && s in sm.State().Subscribers(t) ==> Known(net.people, s)
      requires p in regexCache ==> regexCache[p] == p
      modifies this, net`outbox
      ensures State() == (if isAdd then old(State()).Add(env, l, p) else old(State()).Remove(env.binding, l, p))
      ensures ok <==> !(isAdd && old(State()).AddThrows(env, p))
      ensures net.outbox == (if isAdd && ok && p in regexCache
        then SendSeq(old(net.outbox), l,
               Snapshot(env, sm.State(), net.people, p, env.topicOrder(sm.subscriptions.Keys)))
        else old(net.outbox))
    {
      ok := true;
      if isAdd {
        ok := AddListener(env, net, sm, l, p);
      } else {
        RemoveListener(env, l, p);
      }
    }

    method OnInteractorClosed(env: Env, l: Id)
      requires Orders(env)
      modifies this
      ensures State() == old(State()).Drop(l)
    {
      if l !in listenerTopicPatterns {
        assert State() == old(State()).Drop(l);
        return;
      }
      var patterns := listenerTopicPatterns[l];
      var q := env.topicOrder(patterns);
      ghost var of, regexes := notifications, regexCache;
      DropNone(of, l);
      GoneNone(of, regexes, l);
      for i := 0 to |q|
        invariant notifications == DropFrom(of, Elements(q[..i]), l)
        invariant regexCache == WithoutGone(of, regexes, Elements(q[..i]), l)
        invariant listenerTopicPatterns == old(listenerTopicPatterns)
      {
        hide DropFrom, WithoutGone;
        NextElement(q, patterns, i);
        DropNext(of, Elements(q[..i]), l, q[i]);
        GoneNext(of, regexes, Elements(q[..i]), l, q[i]);
        var p := q[i];
        if p in notifications {
          ErasedEmpty(of[p], l);
          notifications := notifications[p := notifications[p] - {l}];
          if notifications[p] == map[] {
            notifications := notifications - {p};
            assert notifications == DropFrom(of, Elements(q[..i]), l) - {p};
            regexCache := regexCache - {p};
          }
        }
      }
      AllElements(q, patterns);
      listenerTopicPatterns := listenerTopicPatterns - {l};
      assert DropFrom(of, patterns, l) == old(State()).Drop(l).of;
      assert WithoutGone(of, regexes, patterns, l) == old(State()).Drop(l).regexes;
    }
  }

  class SubscriptionManager {
    var subscriptions: map<Topic, map<Id, int>>
    var subscriberTopics: map<Id, set<Topic>>

    constructor ()
      ensures State() == Subs(map[], map[])
    {
      subscriptions, subscriberTopics := map[], map[];
    }

    ghost function State(): Subs
      reads this
    {
      Subs(subscriptions, subscriberTopics)
    }

    method AddSubscription(env: Env, net: Switchboard, nm: NotificationManager, s: Id, topic: Topic)
      requires Orders(env) && Known(net.people, s) && nm.Reaches(env, topic, net.people)
      modifies this, net`outbox
      ensures State() == old(State()).Add(s, topic)
      ensures net.outbox == (if old(State()).AddNotifies(s, topic)
        then Notify(env, nm.State(), net.people, old(net.outbox), s, topic, true) else old(net.outbox))
    {
      if topic !in subscriptions {
        // New topic.
        subscriptions := subscriptions[topic := map[s := 1]];
        nm.Notify(env, net, s, topic, true);
      } else {
        // Existing topic, bound by reference.
        var subscribers := subscriptions[topic];
        if s !in subscribers {
          subscriptions := subscriptions[topic := subscribers[s := 1]];
          nm.Notify(env, net, s, topic, true);
        } else {
          subscriptions := subscriptions[topic := subscribers[s := subscribers[s] + 1]];
        }
      }
      // The reverse lookup.
      if s !in subscriberTopics {
        assert {} + {topic} == {topic};
        subscriberTopics := subscriberTopics[s := {topic}];
      } else {
        subscriberTopics := subscriberTopics[s := subscriberTopics[s] + {topic}];
      }
    }

    method RemoveSubscription(env: Env, net: Switchboard, nm: NotificationManager, s: Id, topic: Topic)
      requires Orders(env) && Known(net.people, s) && nm.Reaches(env, topic, net.people)
      modifies this, net`outbox
      ensures State() == old(State()).Remove(env.binding, s, topic)
      ensures net.outbox == (if old(State()).RemoveNotifies(s, topic)
        then Notify(env, nm.State(), net.people, old(net.outbox), s, topic, false) else old(net.outbox))
    {
      if topic !in subscriptions {
        return;
      }
      hide RemoveFrom, HubModel.Notify, Notifs.Listeners;
      // `auto subscribers`: a copy, unless it is meant to be a reference.
      var subscribers := subscriptions[topic];
      if s !in subscribers {
        return;
      }
      subscribers := subscribers[s := subscribers[s] - 1];
      if env.binding == ByReference {
        subscriptions := subscriptions[topic := subscribers];
      }
      if subscribers[s] > 0 {
        return;
      }
      ghost var before := old(subscriptions)[topic];
      subscribers := subscribers - {s};
      assert subscribers == before - {s};
      ErasedEmpty(before, s);
      if env.binding == ByReference {
        subscriptions := subscriptions[topic := subscribers];
      }
      if subscribers == map[] {
        subscriptions := subscriptions - {topic};
        assert subscriptions == old(subscriptions) - {topic};
        nm.Notify(env, net, s, topic, false);
      }
      RemoveTopic(s, topic);
    }

    /** The reverse lookup of an unsubscription. */
    method RemoveTopic(s: Id, topic: Topic)
      modifies this`subscriberTopics
      ensures subscriberTopics == RemoveFrom(old(subscriberTopics), s, topic)
    {
      if s !in subscriberTopics {
        return;
      }
      var topics := subscriberTopics[s] - {topic};
      subscriberTopics := subscriberTopics[s := topics];
      if topics == {} {
        subscriberTopics := subscriberTopics - {s};
        assert subscriberTopics == old(subscriberTopics) - {s};
      }
    }

    /** One topic of a departing subscriber. */
    method DropFromTopic(env: Env, net: Switchboard, nm: NotificationManager, s: Id, topic: Topic)
      requires Orders(env) && Known(net.people, s) && nm.Reaches(env, topic, net.people)
      modifies this`subscriptions, net`outbox
      ensures topic !in old(subscriptions) ==> subscriptions == old(subscriptions)
      ensures topic in old(subscriptions) && old(subscriptions)[topic].Keys <= {s} ==>
        && subscriptions == old(subscriptions) - {topic}
        && net.outbox == Notify(env, nm.State(), net.people, old(net.outbox), s, topic, false)
      ensures topic in old(subscriptions) && !(old(subscriptions)[topic].Keys <= {s}) ==>
        subscriptions == old(subscriptions)[topic := old(subscriptions)[topic] - {s}]
      ensures !(topic in old(subscriptions) && old(subscriptions)[topic].Keys <= {s}) ==> net.outbox == old(net.outbox)
    {
      if topic in subscriptions {
        ErasedEmpty(subscriptions[topic], s);
        subscriptions := subscriptions[topic := subscriptions[topic] - {s}];
        if subscriptions[topic] == map[] {
          subscriptions := subscriptions - {topic};
          assert subscriptions == old(subscriptions) - {topic};
          nm.Notify(env, net, s, topic, false);
        }
      }
    }

    method RemoveInteractor(env: Env, net: Switchboard, nm: NotificationManager, s: Id)
      requires Orders(env)
      requires s in subscriberTopics ==> Known(net.people, s)
      requires forall t :: t in State().TopicsOf(s) ==> nm.Reaches(env, t, net.people)
      modifies this, net`outbox
      ensures State() == old(State()).Drop(s)
      ensures net.outbox ==
        NotifyGone(env, nm.State(), net.people, old(net.outbox), s, GoneList(env, old(State()), s))
    {
      if s !in subscriberTopics {
        ListsNothing(env.topicOrder({}), {});
        return;
      }
      var topics := subscriberTopics[s];
      var q := env.topicOrder(topics);
      ghost var of, deserted := subscriptions, State().Deserted(s);
      DropNone(of, s);
      for i := 0 to |q|
        invariant subscriptions == DropFrom(of, Elements(q[..i]), s) && subscriberTopics == old(subscriberTopics)
        invariant net.outbox ==
          NotifyGone(env, nm.State(), net.people, old(net.outbox), s, Filter(q[..i], deserted))
      {
        hide DropFrom, NotifyGone, Filter, Notify, Notifs.Listeners;
        NextElement(q, topics, i);
        DropNext(of, Elements(q[..i]), s, q[i]);
        FilterNext(q, i, deserted);
        NotifyGoneNext(env, nm.State(), net.people, old(net.outbox), s, Filter(q[..i], deserted), q[i]);
        DropFromTopic(env, net, nm, s, q[i]);
      }
      AllElements(q, topics);
      assert q[..|q|] == q;
      subscriberTopics := subscriberTopics - {s};
      assert DropFrom(of, topics, s) == old(State()).Drop(s).of;
    }

    method FindSubscribers(env: Env, topic: Topic) returns (subscribers: set<Id>)
      requires Orders(env)
      ensures subscribers == State().Subscribers(topic)
    {
      subscribers := {};
      if topic in subscriptions {
        var q := env.idOrder(subscriptions[topic].Keys);
        for i := 0 to |q|
          invariant subscribers == Elements(q[..i])
        {
          NextElement(q, subscriptions[topic].Keys, i);
          subscribers := subscribers + {q[i]};
        }
        AllElements(q, subscriptions[topic].Keys);
      }
    }

    method FindMatchingSubscriptions(env: Env, regex: Pattern) returns (found: seq<(Topic, seq<Id>)>)
      requires Orders(env)
      ensures found == Matching(env, State(), regex, env.topicOrder(subscriptions.Keys))
    {
      found := [];
      var q := env.topicOrder(subscriptions.Keys);
      for i := 0 to |q|
        invariant found == Matching(env, State(), regex, q[..i])
      {
        NextElement(q, subscriptions.Keys, i);
        MatchingNext(env, State(), regex, q, i);
        var topic := q[i];
        if env.matches(regex, topic) {
          var ids := env.idOrder(subscriptions[topic].Keys);
          var interactors: seq<Id> := [];
          for j := 0 to |ids|
            invariant interactors == ids[..j]
          {
            interactors := interactors + [ids[j]];
          }
          assert ids[..|ids|] == ids;
          found := found + [(topic, interactors)];
        }
      }
      assert q[..|q|] == q;
    }

    method OnSubscription(env: Env, net: Switchboard, nm: NotificationManager, s: Id, topic: Topic, isAdd: bool)
      requires Orders(env) && Known(net.people, s) && nm.Reaches(env, topic, net.people)
      modifies this, net`outbox
      ensures State() == (if isAdd then old(State()).Add(s, topic) else old(State()).Remove(env.binding, s, topic))
      ensures net.outbox ==
        (if (if isAdd then old(State()).AddNotifies(s, topic) else old(State()).RemoveNotifies(s, topic))
         then Notify(env, nm.State(), net.people, old(net.outbox), s, topic, isAdd) else old(net.outbox))
    {
      if isAdd {
        AddSubscription(env, net, nm, s, topic);
      } else {
        RemoveSubscription(env, net, nm, s, topic);
      }
    }
  }
}
