/** The publisher manager, method by method against the model. */
module PublisherManagers {
  import opened Bytes
  import opened Messages
  import opened HubModel
  import opened Switchboards
  import opened Managers
  import A = Authorization
  import D = Data

  /** The publishers of every topic once `p` has been erased from the topics in `done`. */
  ghost function EraseFrom(of: map<Topic, set<Id>>, done: set<Topic>, p: Id): map<Topic, set<Id>> {
    map t | t in of :: if t in done then of[t] - {p} else of[t]
  }

  /** The topics among those in `done` that are left without publishers. */
  ghost function LeftStale(of: map<Topic, set<Id>>, done: set<Topic>, p: Id): set<Topic> {
    set t | t in done && t in of && of[t] <= {p}
  }

  lemma EraseNext(of: map<Topic, set<Id>>, done: set<Topic>, p: Id, t: Topic)
    requires t in of && t !in done
    ensures EraseFrom(of, {}, p) == of && LeftStale(of, {}, p) == {}
    ensures EraseFrom(of, done, p)[t] == of[t]
    ensures EraseFrom(of, done + {t}, p) == EraseFrom(of, done, p)[t := of[t] - {p}]
    ensures LeftStale(of, done + {t}, p) == LeftStale(of, done, p) + if of[t] <= {p} then {t} else {}
    ensures of[t] - {p} == {} <==> of[t] <= {p}
  {
    if of[t] - {p} == {} {
      assert of[t] <= (of[t] - {p}) + {p};
    }
  }

  lemma MulticastNone(
    env: Env, specs: seq<A.AuthorizationSpec>, people: People, ob: Outbox, p: Id, t: Topic, packets: seq<DataPacket>)
    ensures Multicast(env, specs, people, {}, ob, p, t, packets) == ob
  {
  }

  lemma MulticastNext(
    env: Env, specs: seq<A.AuthorizationSpec>, people: People, ids: set<Id>, r: Id, ob: Outbox,
    p: Id, t: Topic, packets: seq<DataPacket>)
    requires r !in ids
    ensures Multicast(env, specs, people, ids + {r}, ob, p, t, packets) ==
      if ClearanceFor(env, specs, people, p, r, t).Sends(packets)
      then SendTo(Multicast(env, specs, people, ids, ob, p, t, packets), r,
                  MulticastTo(env, specs, people, p, r, t, packets))
      else Multicast(env, specs, people, ids, ob, p, t, packets)
  {
    hide ClearanceFor, MulticastTo;
  }

  lemma SendGoneNext(subs: Subs, people: People, ob: Outbox, p: Id, q: seq<Topic>, i: nat)
    requires i < |q|
    ensures SendGone(subs, people, ob, p, q[..i + 1]) ==
      SendAll(SendGone(subs, people, ob, p, q[..i]), subs.Subscribers(q[i]), PublisherGone(people, p, q[i]))
  {
    assert q[..i + 1][..i] == q[..i];
  }

  /** Recording a publisher twice is recording it once. */
  lemma AddedAgain(st: Pubs, p: Id, t: Topic)
    ensures st.Add(p, t).Add(p, t) == st.Add(p, t)
  {
    var st' := st.Add(p, t);
    assert st'.of[t] + {p} == st'.of[t] && st'.topics[p] + {t} == st'.topics[p];
  }

  class PublisherManager {
    const authorizationManager: A.AuthorizationManager
    var topicPublishers: map<Topic, set<Id>>
    var publisherTopics: map<Id, set<Topic>>

    constructor (am: A.AuthorizationManager)
      ensures authorizationManager == am && State() == Pubs(map[], map[])
    {
      authorizationManager := am;
      topicPublishers, publisherTopics := map[], map[];
    }

    ghost function State(): Pubs
      reads this
    {
      Pubs(topicPublishers, publisherTopics)
    }

    /** The rules in force, however the cache has been filled. */
    ghost function Rules(): seq<A.AuthorizationSpec>
      reads authorizationManager, authorizationManager.repository
    {
      authorizationManager.repository.specs
    }

    ghost predicate Sound(env: Env)
      reads authorizationManager, authorizationManager.repository, authorizationManager.repository.cache
    {
      authorizationManager.State().Sound(env.matches)
    }

    method Entitlements(env: Env, user: bytes, topic: Topic, role: A.Role) returns (e: set<int32>)
      requires Sound(env)
      modifies authorizationManager.repository.cache
      ensures Sound(env) && e == A.FirstMatch(env.matches, Rules(), user, topic, role)
    {
      A.ConsultIsSound(authorizationManager.State(), env.matches, user, topic, role);
      e := authorizationManager.Entitlements(env.matches, user, topic, role);
    }

    method AddPublisher(p: Id, topic: Topic)
      modifies this`topicPublishers, this`publisherTopics
      ensures State() == old(State()).Add(p, topic)
    {
      if topic in topicPublishers {
        topicPublishers := topicPublishers[topic := topicPublishers[topic] + {p}];
      } else {
        assert {} + {p} == {p};
        topicPublishers := topicPublishers[topic := {p}];
      }
      if p in publisherTopics {
        publisherTopics := publisherTopics[p := publisherTopics[p] + {topic}];
      } else {
        assert {} + {topic} == {topic};
        publisherTopics := publisherTopics[p := {topic}];
      }
    }

    method GetAuthorizedData(packets: seq<DataPacket>, e: set<int32>) returns (authorized: seq<DataPacket>)
      ensures authorized == Entitled(packets, e)
    {
      authorized := [];
      for i := 0 to |packets|
        invariant authorized == Entitled(packets[..i], e)
      {
        assert packets[..i + 1][..i] == packets[..i];
        if packets[i].IsAuthorized(e) {
          authorized := authorized + [packets[i]];
        }
      }
      assert packets[..|packets|] == packets;
    }

    /** Both lookups, the filter and the two reasons to send nothing. */
    method Authorize(
      env: Env, net: Switchboard, published: set<int32>, p: Id, r: Id, topic: Topic, packets: seq<DataPacket>)
      returns (sends: bool, authorized: seq<DataPacket>)
      requires Sound(env) && Known(net.people, p) && Known(net.people, r)
      requires published == A.FirstMatch(env.matches, Rules(), net.User(p), topic, A.PUBLISHER)
      modifies authorizationManager.repository.cache
      ensures Sound(env)
      ensures var c := ClearanceFor(env, Rules(), net.people, p, r, topic);
        sends == c.Sends(packets) && authorized == c.Packets(packets)
    {
      hide A.FirstMatch, Entitled;
      var granted := Entitlements(env, net.User(r), topic, A.SUBSCRIBER);
      var common := published * granted;
      authorized := GetAuthorizedData(packets, common);
      sends := !(published != {} && common == {}) && !(packets != [] && authorized == []);
    }

    method OnSendUnicast(
      env: Env, net: Switchboard, interactors: map<bytes, Id>, p: Id, clientId: bytes, topic: Topic,
      packets: seq<DataPacket>)
      requires Sound(env) && Known(net.people, p)
      requires clientId in interactors ==> Known(net.people, interactors[clientId])
      modifies this`topicPublishers, this`publisherTopics, net`outbox, authorizationManager.repository.cache
      ensures Sound(env)
      ensures var delivered := clientId in interactors &&
          ClearanceFor(env, Rules(), net.people, p, interactors[clientId], topic).Sends(packets);
        && State() == (if delivered then old(State()).Add(p, topic) else old(State()))
        && net.outbox == (if delivered
          then SendTo(old(net.outbox), interactors[clientId],
            ForwardedUnicastData(net.User(p), net.Host(p), clientId, topic,
              ClearanceFor(env, Rules(), net.people, p, interactors[clientId], topic).Packets(packets)))
          else old(net.outbox))
    {
      if clientId !in interactors {
        return;
      }
      hide ClearanceFor, Entitled, Pubs.Add;
      var receiver := interactors[clientId];
      var published := Entitlements(env, net.User(p), topic, A.PUBLISHER);
      var sends, authorized := Authorize(env, net, published, p, receiver, topic, packets);
      if !sends {
        return;
      }
      AddPublisher(p, topic);
      net.Send(receiver, ForwardedUnicastData(net.User(p), net.Host(p), clientId, topic, authorized));
    }

    method OnSendMulticast(
      env: Env, net: Switchboard, sm: SubscriptionManager, p: Id, topic: Topic, packets: seq<DataPacket>)
      requires Orders(env) && Sound(env) && Known(net.people, p)
      requires forall r :: r in sm.State().Subscribers(topic) ==> Known(net.people, r)
      modifies this`topicPublishers, this`publisherTopics, net`outbox, authorizationManager.repository.cache
      ensures Sound(env) && State() == old(State()).Add(p, topic)
      ensures net.outbox ==
        Multicast(env, Rules(), net.people, sm.State().Subscribers(topic), old(net.outbox), p, topic, packets)
    {
      hide ClearanceFor, Multicast, MulticastTo, Entitled, Pubs.Add;
      ghost var st := State();
      MulticastNone(env, Rules(), net.people, net.outbox, p, topic, packets);
      AddPublisher(p, topic);
      var subscribers := sm.FindSubscribers(env, topic);
      if subscribers == {} {
        return;
      }
      var published := Entitlements(env, net.User(p), topic, A.PUBLISHER);
      var hasPublished := false;
      var q := env.idOrder(subscribers);
      assert Elements(q[..0]) == {};
      for i := 0 to |q|
        invariant Sound(env) && State() == st.Add(p, topic)
        invariant net.outbox ==
          Multicast(env, Rules(), net.people, Elements(q[..i]), old(net.outbox), p, topic, packets)
      {
        NextElement(q, subscribers, i);
        MulticastNext(env, Rules(), net.people, Elements(q[..i]), q[i], old(net.outbox), p, topic, packets);
        var sends, authorized := Authorize(env, net, published, p, q[i], topic, packets);
        if sends {
          SendResponse(env, net, p, q[i], topic, packets, authorized);
          hasPublished := true;
        }
      }
      AllElements(q, subscribers);
      if hasPublished {
        AddedAgain(st, p, topic);
        AddPublisher(p, topic);
      }
    }

    method SendResponse(
      env: Env, net: Switchboard, p: Id, r: Id, topic: Topic, ghost packets: seq<DataPacket>,
      authorized: seq<DataPacket>)
      requires Known(net.people, p) && Known(net.people, r)
      requires authorized == ClearanceFor(env, Rules(), net.people, p, r, topic).Packets(packets)
      modifies net`outbox
      ensures net.outbox == SendTo(old(net.outbox), r, MulticastTo(env, Rules(), net.people, p, r, topic, packets))
    {
      hide ClearanceFor, Entitled;
      net.Send(r, ForwardedMulticastData(net.User(p), net.Host(p), topic, authorized));
    }

    method OnInteractorClosed(env: Env, net: Switchboard, sm: SubscriptionManager, p: Id)
      requires Orders(env)
      requires p in publisherTopics ==> Known(net.people, p)
      requires p in publisherTopics ==>
        forall t :: t in State().Stale(p) ==> sm.State().Subscribers(t) <= net.people.Keys
      modifies this`topicPublishers, this`publisherTopics, net`outbox
      ensures State() == old(State()).Drop(p)
      ensures net.outbox == SendGone(sm.State(), net.people, old(net.outbox), p, StaleList(env, old(State()), p))
    {
      if p !in publisherTopics {
        return;
      }
      ghost var st := State();
      var stale := EraseEverywhere(env, p);
      publisherTopics := publisherTopics - {p};
      var q := env.topicOrder(stale);
      for i := 0 to |q|
        invariant topicPublishers == EraseFrom(st.of, st.of.Keys, p) - Elements(q[..i])
        invariant publisherTopics == st.topics - {p}
        invariant net.outbox == SendGone(sm.State(), net.people, old(net.outbox), p, q[..i])
      {
        hide SendGone, EraseFrom;
        NextElement(q, stale, i);
        SendGoneNext(sm.State(), net.people, old(net.outbox), p, q, i);
        ghost var before := topicPublishers;
        topicPublishers := topicPublishers - {q[i]};
        assert before - {q[i]} == EraseFrom(st.of, st.of.Keys, p) - Elements(q[..i + 1]);
        AnnounceGone(env, net, sm, p, q[i]);
      }
      AllElements(q, stale);
      assert q[..|q|] == q;
      assert EraseFrom(st.of, st.of.Keys, p) - stale == st.Drop(p).of;
    }

    /** The first loop of a departure: erase the publisher everywhere, remembering topics left empty. */
    method EraseEverywhere(env: Env, p: Id) returns (stale: set<Topic>)
      requires Orders(env)
      modifies this`topicPublishers
      ensures topicPublishers == EraseFrom(old(topicPublishers), old(topicPublishers).Keys, p)
      ensures stale == old(State()).Stale(p)
    {
      ghost var of := topicPublishers;
      var q := env.topicOrder(topicPublishers.Keys);
      stale := {};
      assert EraseFrom(of, {}, p) == of;
      for i := 0 to |q|
        invariant topicPublishers == EraseFrom(of, Elements(q[..i]), p)
        invariant stale == LeftStale(of, Elements(q[..i]), p)
      {
        NextElement(q, of.Keys, i);
        EraseNext(of, Elements(q[..i]), p, q[i]);
        hide EraseFrom, LeftStale;
        topicPublishers := topicPublishers[q[i] := topicPublishers[q[i]] - {p}];
        if topicPublishers[q[i]] == {} {
          stale := stale + {q[i]};
        }
      }
      AllElements(q, of.Keys);
    }

    /** An empty message to every subscriber of a topic that has lost its last publisher. */
    method AnnounceGone(env: Env, net: Switchboard, sm: SubscriptionManager, p: Id, topic: Topic)
      requires Orders(env) && Known(net.people, p) && sm.State().Subscribers(topic) <= net.people.Keys
      modifies net`outbox
      ensures net.outbox == SendAll(old(net.outbox), sm.State().Subscribers(topic), PublisherGone(net.people, p, topic))
    {
      var subscribers := sm.FindSubscribers(env, topic);
      if subscribers == {} {
        SendAllNone(net.outbox, PublisherGone(net.people, p, topic));
        return;
      }
      var message := ForwardedMulticastData(net.User(p), net.Host(p), topic, []);
      net.SendToAll(env, subscribers, message);
    }

    method ReloadAuthorizations(env: Env, file: A.FileAnswer) returns (ok: bool)
      requires Sound(env)
      modifies authorizationManager
      ensures Sound(env)
      ensures var selected := A.Selected(authorizationManager.hasFile, file, authorizationManager.commandLine);
        && (ok <==> selected.Some?)
        && Rules() == if ok then selected.value else old(Rules())
      ensures ok ==> fresh(authorizationManager.repository) && fresh(authorizationManager.repository.cache)
      ensures !ok ==> authorizationManager.repository == old(authorizationManager.repository)
    {
      ok := authorizationManager.Load(file);
    }
  }
}
