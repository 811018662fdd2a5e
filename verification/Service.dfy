/**
  The hub and the distributor as objects. Every event takes the step of the model, and every pointer
  followed on the way is live as long as the listed subscribers are.
 */
module Service {
  import opened Bytes
  import opened Messages
  import opened HubModel
  import opened Switchboards
  import opened Managers
  import opened PublisherManagers
  import opened Indices
  import SI = ServerInvariants
  import R = References
  import D = Data
  import A = Authorization

  class HubService {
    const env: Env
    const net: Switchboard
    const sm: SubscriptionManager
    const nm: NotificationManager
    const pm: PublisherManager
    var interactors: map<bytes, Id>

    constructor (env: Env, net: Switchboard, am: A.AuthorizationManager)
      ensures this.env == env && this.net == net && this.pm.authorizationManager == am
      ensures fresh(sm) && fresh(nm) && fresh(pm) && State() == EMPTY_HUB
    {
      this.env, this.net := env, net;
      sm := new SubscriptionManager();
      nm := new NotificationManager();
      pm := new PublisherManager(am);
      interactors := map[];
    }

    ghost function State(): Hub
      reads this, sm, nm, pm
    {
      Hub(sm.State(), nm.State(), pm.State(), interactors)
    }

    /** The whole server as seen from the hub, with the descriptors of its owner. */
    ghost function Whole(fds: map<int, Id>): Server
      reads this, net, sm, nm, pm, pm.authorizationManager, pm.authorizationManager.repository
    {
      Server(net.people, fds, State(), net.outbox, pm.Rules())
    }

    /** What the hub relies on: the invariant of the server, sound rules and live subscribers. */
    ghost predicate Valid(fds: map<int, Id>)
      reads this, net, sm, nm, pm, pm.authorizationManager, pm.authorizationManager.repository,
        pm.authorizationManager.repository.cache
    {
      && Orders(env) && pm.Sound(env)
      && SI.Inv(env, Whole(fds)) && R.Safe(Whole(fds))
    }

    /** Returns false for a message that throws, which is exactly when the model says so. */
    method OnMessage(id: Id, m: Message, ghost fds: map<int, Id>) returns (ok: bool)
      requires Valid(fds) && Known(net.people, id)
      modifies sm, nm, pm, net`outbox, pm.authorizationManager.repository.cache
      ensures pm.Sound(env) && Whole(fds) == HubModel.OnMessage(env, old(Whole(fds)), id, m)
      ensures OutcomeOf(env, old(Whole(fds)), id, m) == if ok then Completed else Thrown
    {
      hide Notify, Snapshot, Multicast, ClearanceFor, SI.Inv, R.Safe, Orders, SendTo, SendSeq;
      hide Subs.Add, Subs.Remove, Subs.AddNotifies, Subs.RemoveNotifies, Notifs.Add, Notifs.Remove, Notifs.AddThrows;
      EveryoneKnown(fds);
      ok := true;
      match m
      case SubscriptionRequest(topic, isAdd) =>
        ListenersReached(topic, fds);
        sm.OnSubscription(env, net, nm, id, topic, isAdd);
      case NotificationRequest(pattern, isAdd) =>
        RegexesCompiled(id, pattern, fds);
        ok := nm.OnListen(env, net, sm, id, pattern, isAdd);
      case UnicastData(clientId, topic, packets) =>
        pm.OnSendUnicast(env, net, interactors, id, clientId, topic, packets);
      case MulticastData(topic, packets) =>
        pm.OnSendMulticast(env, net, sm, id, topic, packets);
      case _ =>
        ok := false;
    }

    lemma EveryoneKnown(fds: map<int, Id>)
      requires Valid(fds)
      ensures forall u :: u in interactors ==> Known(net.people, interactors[u])
      ensures forall t, s :: s in sm.State().Subscribers(t) ==> Known(net.people, s)
    {
      assert SI.ClientsKnown(Whole(fds));
      forall t, s | s in sm.State().Subscribers(t)
        ensures Known(net.people, s)
      {
        assert s in Whole(fds).hub.subs.Subscribers(t);
      }
    }

    lemma ListenersReached(topic: Topic, fds: map<int, Id>)
      requires Valid(fds)
      ensures nm.Reaches(env, topic, net.people)
    {
      forall l | l in nm.State().Listeners(env, topic)
        ensures l in net.people
      {
        var p :| p in nm.regexCache && p in nm.notifications && l in nm.notifications[p];
        assert l in nm.State().ListeningTo(p);
        assert NotifsAt(env.binding, nm.State(), l, p);
        assert SI.IndexedKnown(Whole(fds), l);
      }
    }

    lemma RegexesCompiled(l: Id, p: Pattern, fds: map<int, Id>)
      requires Valid(fds)
      ensures p in nm.regexCache ==> nm.regexCache[p] == p
      ensures var regexes := nm.State().Add(env, l, p).regexes; p in regexes ==> regexes[p] == p
    {
      assert NotifsAt(env.binding, nm.State(), 0, p);
    }

    /** Listeners are reached and the departing interactor can be named wherever it must be. */
    ghost predicate Departable(id: Id)
      reads this, net, sm, nm, pm
    {
      && id in net.people
      && (id in sm.subscriberTopics ==> Known(net.people, id))
      && (id in pm.publisherTopics ==> Known(net.people, id))
      && (forall t :: nm.Reaches(env, t, net.people))
      && (forall t, s :: s in sm.State().Subscribers(t) ==> s in net.people)
    }

    /** Subscriptions, then listeners, then publishers, then the hub's own map. */
    method OnDisconnected(id: Id, ghost fds: map<int, Id>)
      requires Orders(env) && Departable(id)
      modifies this, sm, nm, pm, net`outbox
      ensures Whole(fds) == HubModel.OnDisconnected(env, old(Whole(fds)), id)
      ensures net.people == old(net.people)
    {
      hide NotifyGone, SendGone, Notifs.Drop, Pubs.Drop, Notifs.Listeners, Filter;
      ghost var h := State();
      assert forall t, s :: s in h.subs.Subscribers(t) ==> s in net.people;
      sm.RemoveInteractor(env, net, nm, id);
      nm.OnInteractorClosed(env, id);
      forall t
        ensures sm.State().Subscribers(t) <= net.people.Keys
      {
        RestStaysLive(h.subs, net.people, id, t);
      }
      pm.OnInteractorClosed(env, net, sm, id);
      interactors := interactors - {net.Uuid(id)};
    }

    lemma RestStaysLive(subs: Subs, people: People, id: Id, t: Topic)
      requires forall u, s :: s in subs.Subscribers(u) ==> s in people
      ensures subs.Drop(id).Subscribers(t) <= people.Keys
    {
      forall s | s in subs.Drop(id).Subscribers(t)
        ensures s in people
      {
        assert s in subs.Subscribers(t);
      }
    }

    lemma IsDepartable(id: Id, fds: map<int, Id>)
      requires Valid(fds) && id in net.people
      ensures Departable(id)
    {
      assert SI.IndexedKnown(Whole(fds), id);
      forall t
        ensures nm.Reaches(env, t, net.people)
      {
        ListenersReached(t, fds);
      }
      forall t, s | s in sm.State().Subscribers(t)
        ensures s in net.people
      {
        assert s in Whole(fds).hub.subs.Subscribers(t);
        assert Known(Whole(fds).people, s);
      }
    }

    method OnConnected(id: Id)
      requires id in net.people
      modifies this`interactors
      ensures var uuid := net.people[id].uuid;
        interactors == if uuid in old(interactors) then old(interactors) else old(interactors)[uuid := id]
    {
      if net.Uuid(id) !in interactors {
        interactors := interactors[net.Uuid(id) := id];
      }
    }
  }

  /** The owner of the interactors. */
  class Distributor {
    const hub: HubService
    var fds: map<int, Id>

    constructor (env: Env, am: A.AuthorizationManager)
      requires Orders(env) && am.State() == A.Repository([], map[])
      ensures fresh(hub) && hub.env == env && Valid() && State() == STARTING
    {
      var net := new Switchboard();
      hub := new HubService(env, net, am);
      fds := map[];
      new;
      SI.RunKeepsInv(env, []);
    }

    ghost function State(): Server
      reads this, hub, hub.net, hub.sm, hub.nm, hub.pm, hub.pm.authorizationManager,
        hub.pm.authorizationManager.repository
    {
      hub.Whole(fds)
    }

    ghost predicate Valid()
      reads this, hub, hub.net, hub.sm, hub.nm, hub.pm, hub.pm.authorizationManager,
        hub.pm.authorizationManager.repository, hub.pm.authorizationManager.repository.cache
    {
      hub.Valid(fds)
    }

    /** A new descriptor: a handler in the poller and an interactor here. */
    method OnOpen(fd: int, id: Id, host: bytes, uuid: bytes)
      requires Valid() && Possible(State(), Opened(fd, id, host, uuid))
      modifies this`fds, hub.net
      ensures State() == Step(hub.env, old(State()), Opened(fd, id, host, uuid)) && Valid()
      ensures hub.net.people == old(hub.net.people)[id := Info(fd := fd, host := host, uuid := uuid, user := None)]
      ensures fds == old(fds)[fd := id] && hub.net.outbox == old(hub.net.outbox)[id := []]
    {
      ghost var sv, e := State(), Opened(fd, id, host, uuid);
      SI.StepKeepsInv(hub.env, sv, e);
      R.StepKeepsSafe(hub.env, sv, e);
      hub.net.outbox := hub.net.outbox[id := []];
      hub.net.people := hub.net.people[id := Info(fd, host, uuid, None)];
      fds := fds[fd := id];
    }

    /**
      Interactor::process_message: authenticate first, then pass everything to the hub. Only a request
      that leaves a pattern without an expression does harm.
     */
    method OnRead(fd: int, m: Message) returns (outcome: Outcome)
      requires Valid() && Possible(State(), Received(fd, m))
      modifies hub.net, hub.sm, hub.nm, hub.pm, hub.pm.authorizationManager.repository.cache
      ensures State() == Step(hub.env, old(State()), Received(fd, m))
      ensures outcome == OutcomeOf(hub.env, old(State()), old(fds[fd]), m)
      ensures Valid() <==> !Spoils(hub.env, old(State()), Received(fd, m))
    {
      hide SI.Inv, R.Safe, Spoils, OnFirstMessage, HubModel.OnMessage, OutcomeOf;
      ghost var sv, e := State(), Received(fd, m);
      SI.StepKeepsInv(hub.env, sv, e);
      if !Spoils(hub.env, sv, e) {
        KeepsSafe(hub.env, sv, e);
      }
      var id := fds[fd];
      if hub.net.people[id].user == None {
        outcome := Authenticate(id, m);
      } else {
        var ok := hub.OnMessage(id, m, fds);
        outcome := if ok then Completed else Thrown;
      }
    }

    lemma KeepsSafe(env: Env, sv: Server, e: Event)
      requires SI.Inv(env, sv) && R.Safe(sv) && Enabled(env, sv, e) && !e.Closed?
      ensures R.Safe(Step(env, sv, e))
    {
      R.StepKeepsSafe(env, sv, e);
    }

    /** The first branch marks the handler closed and goes on to dereference the null pointer. */
    method Authenticate(id: Id, m: Message) returns (outcome: Outcome)
      requires id in hub.net.people && hub.net.people[id].user == None
      modifies hub.net
      ensures State() == OnFirstMessage(hub.env, old(State()), id, m)
      ensures outcome == OutcomeOf(hub.env, old(State()), id, m)
    {
      var request := AsAuthenticationRequest(m);
      if request == None {
        return NullDereferenced;
      }
      var net := hub.net;
      match hub.env.authenticate(request.value.0, request.value.1) {
        case Threw =>
          return Thrown;
        case Rejected =>
          net.Send(id, AuthenticationResponse(true));
        case Accepted(user) =>
          net.people := net.people[id := net.people[id].(user := Some(user))];
          net.Send(id, AuthenticationResponse(true));
      }
      return Completed;
    }

    /** The handler is gone already; the hub is told while the interactor still lives. */
    method OnClose(fd: int)
      requires Valid() && Possible(State(), Closed(fd))
      modifies this`fds, hub, hub.net, hub.sm, hub.nm, hub.pm
      ensures State() == Step(hub.env, old(State()), Closed(fd))
      ensures Valid() <==> !R.Dangles(old(State()), Closed(fd))
    {
      ghost var sv := State();
      SI.StepKeepsInv(hub.env, sv, Closed(fd));
      R.StepKeepsSafe(hub.env, sv, Closed(fd));
      hub.IsDepartable(fds[fd], fds);
      hide SI.Inv, R.Safe, R.Dangles, Step, Possible, Orders;
      Forget(fd);
    }

    method Forget(fd: int)
      requires Orders(hub.env) && Possible(State(), Closed(fd)) && hub.Departable(fds[fd])
      modifies this`fds, hub, hub.net, hub.sm, hub.nm, hub.pm
      ensures State() == Step(hub.env, old(State()), Closed(fd))
    {
      hide Known, HubModel.OnDisconnected;
      var id := fds[fd];
      hub.net.outbox := hub.net.outbox - {id};
      hub.OnDisconnected(id, fds);
      hub.net.people := hub.net.people - {id};
      fds := fds - {fd};
    }

    /** A reload; if the password file or the authorization file cannot be read the rules stay as they were. */
    method OnInterrupt(passwordsLoad: bool, file: A.FileAnswer) returns (ok: bool)
      requires Valid()
      modifies hub.pm.authorizationManager
      ensures Valid()
      ensures var am := hub.pm.authorizationManager;
        var selected := A.Selected(am.hasFile, file, am.commandLine);
        && (ok <==> passwordsLoad && selected.Some?)
        && State() == (if ok then Step(hub.env, old(State()), Reloaded(selected.value)) else old(State()))
        && hub.pm.Rules() == (if ok then selected.value else old(hub.pm.Rules()))
    {
      if !passwordsLoad {
        return false;
      }
      ghost var sv := State();
      ok := hub.pm.ReloadAuthorizations(hub.env, file);
      ghost var e := Reloaded(hub.pm.Rules());
      SI.StepKeepsInv(hub.env, sv, e);
      R.StepKeepsSafe(hub.env, sv, e);
    }

    method OnConnected(id: Id)
      requires Valid() && Possible(State(), Connected(id))
      modifies hub
      ensures State() == Step(hub.env, old(State()), Connected(id)) && Valid()
      ensures hub.net.people[id].uuid in hub.interactors && hub.interactors[hub.net.people[id].uuid] == id
    {
      ghost var sv := State();
      SI.StepKeepsInv(hub.env, sv, Connected(id));
      R.StepKeepsSafe(hub.env, sv, Connected(id));
      hub.OnConnected(id);
    }
  }
}
