/**
  The hub as a state machine over values: three indices, who is connected, and what was sent to whom.

  An `Interactor*` of the source is an `Id`, and the live interactors are the keys of `People`; an id
  that is no key is a dangling pointer. What an interactor is sent goes into its handler's queue, so
  the outbox is one sequence of messages for every id that has a handler.
 */
module HubModel {
  import opened Bytes
  import opened Messages
  import A = Authorization

  type Id = int
  type Topic = bytes
  type Pattern = bytes

  datatype Info = Info(fd: int, host: bytes, uuid: bytes, user: Option<bytes>)

  type People = map<Id, Info>
  type Outbox = map<Id, seq<Message>>

  /**
    Three lines of the source bind a map found in an index with `auto`, which copies it, where the
    sibling line binds it with `auto&`. `ByCopy` is the code as written, `ByReference` the evident intent.
   */
  datatype Binding = ByCopy | ByReference

  datatype Authenticated = Accepted(user: bytes) | Rejected | Threw

  /** What the model takes from outside: regular expressions, iteration orders, authentication. */
  datatype Env = Env(
    binding: Binding,
    matches: A.Matcher,
    isPattern: Pattern -> bool,
    topicOrder: set<bytes> -> seq<bytes>,
    idOrder: set<Id> -> seq<Id>,
    authenticate: (bytes, bytes) -> Authenticated)

  /** A sequence that lists a set, as iteration over an ordered container does. */
  ghost predicate Lists<T(!new)>(q: seq<T>, s: set<T>) {
    && (forall x :: x in q <==> x in s)
    && (forall i, j :: 0 <= i < j < |q| ==> q[i] != q[j])
  }

  lemma ListsNothing<T(!new)>(q: seq<T>, s: set<T>)
    requires Lists(q, s)
    ensures q == [] <==> s == {}
  {
    if q != [] {
      assert q[0] in s;
    }
  }

  ghost predicate Orders(env: Env) {
    && (forall s :: Lists(env.topicOrder(s), s))
    && (forall s :: Lists(env.idOrder(s), s))
  }

  // ---- Multi-maps: no key has an empty value ----

  function AddTo<K, V>(m: map<K, set<V>>, k: K, v: V): map<K, set<V>> {
    m[k := (if k in m then m[k] else {}) + {v}]
  }

  function RemoveFrom<K, V>(m: map<K, set<V>>, k: K, v: V): map<K, set<V>> {
    if k !in m then m
    else if m[k] - {v} == {} then m - {k}
    else m[k := m[k] - {v}]
  }

  /** How often `id` is counted under `k`; not at all when it is absent. */
  function CountOf<K>(m: map<K, map<Id, int>>, k: K, id: Id): int {
    if k in m && id in m[k] then m[k][id] else 0
  }

  // ---- Sending ----

  function UserOf(people: People, id: Id): bytes {
    if id in people && people[id].user.Some? then people[id].user.value else []
  }

  function HostOf(people: People, id: Id): bytes {
    if id in people then people[id].host else []
  }

  function UuidOf(people: People, id: Id): bytes {
    if id in people then people[id].uuid else []
  }

  /** Whether `user()` is defined: the pointer is live and its user is set. */
  predicate Known(people: People, id: Id) {
    id in people && people[id].user.Some?
  }

  /** A message to an interactor without a handler goes nowhere. */
  function SendTo(ob: Outbox, id: Id, m: Message): Outbox {
    if id in ob then ob[id := ob[id] + [m]] else ob
  }

  function SendAll(ob: Outbox, ids: set<Id>, m: Message): Outbox {
    map id | id in ob :: if id in ids then ob[id] + [m] else ob[id]
  }

  function SendSeq(ob: Outbox, id: Id, ms: seq<Message>): Outbox {
    if id in ob then ob[id := ob[id] + ms] else ob
  }

  // ---- Subscriptions ----

  datatype Subs = Subs(of: map<Topic, map<Id, int>>, topics: map<Id, set<Topic>>) {

    function Subscribers(t: Topic): set<Id> {
      if t in of then of[t].Keys else {}
    }

    function Add(s: Id, t: Topic): Subs {
      var m := if t in of then of[t] else map[];
      Subs(of[t := m[s := CountOf(of, t, s) + 1]], AddTo(topics, s, t))
    }

    /** Only a subscriber that is new to the topic is announced. */
    predicate AddNotifies(s: Id, t: Topic) {
      s !in Subscribers(t)
    }

    function Remove(binding: Binding, s: Id, t: Topic): Subs {
      if s !in Subscribers(t) then this
      else if of[t][s] > 1 then
        if binding == ByReference then this.(of := of[t := of[t][s := of[t][s] - 1]]) else this
      else if Subscribers(t) == {s} then
        Subs(of - {t}, RemoveFrom(topics, s, t))
      else
        Subs(if binding == ByReference then of[t := of[t] - {s}] else of, RemoveFrom(topics, s, t))
    }

    /** Only the last subscriber's last unsubscription is announced. */
    predicate RemoveNotifies(s: Id, t: Topic) {
      Subscribers(t) == {s} && of[t][s] <= 1
    }

    function TopicsOf(s: Id): set<Topic> {
      if s in topics then topics[s] else {}
    }

    /** The topics that a departing subscriber leaves without subscribers. */
    function Deserted(s: Id): set<Topic> {
      set t | t in TopicsOf(s) && t in of && of[t].Keys <= {s}
    }

    function Drop(s: Id): Subs {
      Subs(map t | t in of && t !in Deserted(s) :: if t in TopicsOf(s) then of[t] - {s} else of[t], topics - {s})
    }
  }

  // ---- Notifications ----

  datatype Notifs = Notifs(
    of: map<Pattern, map<Id, int>>,
    regexes: map<Pattern, Pattern>,
    patterns: map<Id, set<Pattern>>)
  {
    function ListeningTo(p: Pattern): set<Id> {
      if p in of then of[p].Keys else {}
    }

    function Listeners(env: Env, t: Topic): set<Id> {
      set p, l | p in regexes && env.matches(regexes[p], t) && p in of && l in of[p] :: l
    }

    function Add(env: Env, l: Id, p: Pattern): Notifs {
      if p !in of then
        // An invalid pattern throws after the first insertion.
        if env.isPattern(p) then Notifs(of[p := map[l := 1]], regexes[p := p], AddTo(patterns, l, p))
        else this.(of := of[p := map[l := 1]])
      else
        Notifs(
          if env.binding == ByReference then of[p := of[p][l := CountOf(of, p, l) + 1]] else of,
          regexes,
          AddTo(patterns, l, p))
    }

    predicate AddThrows(env: Env, p: Pattern) {
      p !in of && !env.isPattern(p)
    }

    function Remove(binding: Binding, l: Id, p: Pattern): Notifs {
      if p !in of || l !in of[p] then this
      else if of[p][l] > 1 then
        if binding == ByReference then this.(of := of[p := of[p][l := of[p][l] - 1]]) else this
      else if of[p].Keys == {l} then
        Notifs(of - {p}, regexes - {p}, RemoveFrom(patterns, l, p))
      else
        Notifs(
          if binding == ByReference then of[p := of[p] - {l}] else of,
          regexes,
          RemoveFrom(patterns, l, p))
    }

    function PatternsOf(l: Id): set<Pattern> {
      if l in patterns then patterns[l] else {}
    }

    function Deserted(l: Id): set<Pattern> {
      set p | p in PatternsOf(l) && p in of && of[p].Keys <= {l}
    }

    function Drop(l: Id): Notifs {
      var gone := Deserted(l);
      Notifs(
        map p | p in of && p !in gone :: if p in PatternsOf(l) then of[p] - {l} else of[p],
        regexes - gone,
        patterns - {l})
    }
  }

  function SubscriptionNotice(people: People, s: Id, t: Topic, isAdd: bool): Message {
    ForwardedSubscriptionRequest(UserOf(people, s), HostOf(people, s), UuidOf(people, s), t, isAdd)
  }

  /** Tell every listener whose pattern matches, once each. */
  function Notify(env: Env, ns: Notifs, people: People, ob: Outbox, s: Id, t: Topic, isAdd: bool): Outbox {
    SendAll(ob, ns.Listeners(env, t), SubscriptionNotice(people, s, t, isAdd))
  }

  /** Tell the listeners that a list of topics has lost its subscribers, in order. */
  function NotifyGone(env: Env, ns: Notifs, people: People, ob: Outbox, s: Id, ts: seq<Topic>): Outbox {
    if ts == [] then ob
    else
      Notify(env, ns, people, NotifyGone(env, ns, people, ob, s, ts[..|ts| - 1]), s, ts[|ts| - 1], false)
  }

  function Filter<T>(q: seq<T>, s: set<T>): seq<T> {
    if q == [] then []
    else Filter(q[..|q| - 1], s) + if q[|q| - 1] in s then [q[|q| - 1]] else []
  }

  /** What a new listener is told at once: every subscriber of every topic that matches, in order. */
  function Snapshot(env: Env, subs: Subs, people: People, regex: Pattern, ts: seq<Topic>): seq<Message> {
    if ts == [] then []
    else
      var t := ts[|ts| - 1];
      Snapshot(env, subs, people, regex, ts[..|ts| - 1]) +
      if env.matches(regex, t) then SnapshotOf(people, t, env.idOrder(subs.Subscribers(t))) else []
  }

  function SnapshotOf(people: People, t: Topic, ids: seq<Id>): (ms: seq<Message>)
    ensures |ms| == |ids|
  {
    seq(|ids|, i requires 0 <= i < |ids| => SubscriptionNotice(people, ids[i], t, true))
  }

  // ---- Publishers ----

  datatype Pubs = Pubs(of: map<Topic, set<Id>>, topics: map<Id, set<Topic>>) {

    function PublishersOf(t: Topic): set<Id> {
      if t in of then of[t] else {}
    }

    function TopicsOf(p: Id): set<Topic> {
      if p in topics then topics[p] else {}
    }

    function Add(p: Id, t: Topic): Pubs {
      Pubs(AddTo(of, t, p), AddTo(topics, p, t))
    }

    /** The topics whose sole publisher is departing. */
    function Stale(p: Id): set<Topic> {
      set t | t in of && of[t] <= {p}
    }

    function Drop(p: Id): Pubs {
      if p !in topics then this
      else Pubs(map t | t in of && t !in Stale(p) :: of[t] - {p}, topics - {p})
    }
  }

  function PublisherGone(people: People, p: Id, t: Topic): Message {
    ForwardedMulticastData(UserOf(people, p), HostOf(people, p), t, [])
  }

  function SendGone(subs: Subs, people: People, ob: Outbox, p: Id, ts: seq<Topic>): Outbox {
    if ts == [] then ob
    else
      var t := ts[|ts| - 1];
      SendAll(SendGone(subs, people, ob, p, ts[..|ts| - 1]), subs.Subscribers(t), PublisherGone(people, p, t))
  }

  /** The topics a departure leaves without subscribers, in the order in which they are announced. */
  function GoneList(env: Env, subs: Subs, id: Id): seq<Topic> {
    Filter(env.topicOrder(subs.TopicsOf(id)), subs.Deserted(id))
  }

  /** The topics a departure leaves without publishers, in the order in which they are announced. */
  function StaleList(env: Env, st: Pubs, id: Id): seq<Topic> {
    if id in st.topics then env.topicOrder(st.Stale(id)) else []
  }

  // ---- Data ----

  /** The packets a set of entitlements lets through, in order. */
  function Entitled(packets: seq<DataPacket>, e: set<int32>): seq<DataPacket> {
    if packets == [] then []
    else
      var n := |packets| - 1;
      Entitled(packets[..n], e) + if packets[n].IsAuthorized(e) then [packets[n]] else []
  }

  /** What a publisher and a receiver are both entitled to, and whether anything is sent at all. */
  datatype Clearance = Clearance(published: set<int32>, granted: set<int32>) {

    function Common(): set<int32> {
      published * granted
    }

    function Packets(request: seq<DataPacket>): seq<DataPacket> {
      Entitled(request, Common())
    }

    predicate Sends(request: seq<DataPacket>) {
      && (published == {} || Common() != {})
      && (request == [] || Packets(request) != [])
    }
  }

  function ClearanceFor(
    env: Env, specs: seq<A.AuthorizationSpec>, people: People, publisher: Id, receiver: Id, t: Topic): Clearance
  {
    Clearance(
      A.FirstMatch(env.matches, specs, UserOf(people, publisher), t, A.PUBLISHER),
      A.FirstMatch(env.matches, specs, UserOf(people, receiver), t, A.SUBSCRIBER))
  }

  // ---- The hub ----

  datatype Hub = Hub(subs: Subs, notifs: Notifs, pubs: Pubs, interactors: map<bytes, Id>)

  const EMPTY_HUB := Hub(Subs(map[], map[]), Notifs(map[], map[], map[]), Pubs(map[], map[]), map[])

  /** The whole server: who is connected, through which descriptor, the hub, the queues and the rules. */
  datatype Server = Server(
    people: People,
    fds: map<int, Id>,
    hub: Hub,
    outbox: Outbox,
    specs: seq<A.AuthorizationSpec>)

  const STARTING := Server(map[], map[], EMPTY_HUB, map[], [])

  function OnSubscription(env: Env, sv: Server, s: Id, t: Topic, isAdd: bool): Server {
    var h := sv.hub;
    if isAdd then
      sv.(hub := h.(subs := h.subs.Add(s, t)),
          outbox := if h.subs.AddNotifies(s, t) then Notify(env, h.notifs, sv.people, sv.outbox, s, t, true)
                    else sv.outbox)
    else
      sv.(hub := h.(subs := h.subs.Remove(env.binding, s, t)),
          outbox := if h.subs.RemoveNotifies(s, t) then Notify(env, h.notifs, sv.people, sv.outbox, s, t, false)
                    else sv.outbox)
  }

  function OnNotification(env: Env, sv: Server, l: Id, p: Pattern, isAdd: bool): Server {
    var h := sv.hub;
    if isAdd then
      var ns := h.notifs.Add(env, l, p);
      sv.(hub := h.(notifs := ns),
          outbox := if p in ns.regexes && !h.notifs.AddThrows(env, p)
                    then SendSeq(sv.outbox, l,
                                 Snapshot(env, h.subs, sv.people, ns.regexes[p], env.topicOrder(h.subs.of.Keys)))
                    else sv.outbox)
    else
      sv.(hub := h.(notifs := h.notifs.Remove(env.binding, l, p)))
  }

  function OnMulticast(env: Env, sv: Server, p: Id, t: Topic, packets: seq<DataPacket>): Server {
    var h := sv.hub;
    sv.(hub := h.(pubs := h.pubs.Add(p, t)),
        outbox := Multicast(env, sv.specs, sv.people, h.subs.Subscribers(t), sv.outbox, p, t, packets))
  }

  function MulticastTo(
    env: Env, specs: seq<A.AuthorizationSpec>, people: People, p: Id, r: Id, t: Topic, packets: seq<DataPacket>)
    : Message
  {
    ForwardedMulticastData(
      UserOf(people, p), HostOf(people, p), t, ClearanceFor(env, specs, people, p, r, t).Packets(packets))
  }

  function Multicast(
    env: Env, specs: seq<A.AuthorizationSpec>, people: People, subscribers: set<Id>, ob: Outbox,
    p: Id, t: Topic, packets: seq<DataPacket>): Outbox
  {
    map r | r in ob ::
      if r in subscribers && ClearanceFor(env, specs, people, p, r, t).Sends(packets)
      then ob[r] + [MulticastTo(env, specs, people, p, r, t, packets)]
      else ob[r]
  }

  /** Unicast data goes to a client the hub was told about; a publisher is recorded only if it is sent. */
  function OnUnicast(env: Env, sv: Server, p: Id, clientId: bytes, t: Topic, packets: seq<DataPacket>): Server {
    var h := sv.hub;
    if clientId !in h.interactors then sv
    else
      var r := h.interactors[clientId];
      var c := ClearanceFor(env, sv.specs, sv.people, p, r, t);
      if !c.Sends(packets) then sv
      else
        sv.(hub := h.(pubs := h.pubs.Add(p, t)),
            outbox := SendTo(sv.outbox, r,
              ForwardedUnicastData(UserOf(sv.people, p), HostOf(sv.people, p), clientId, t, c.Packets(packets))))
  }

  /** Message types a client has no business sending throw, which leaves the hub as it was. */
  function OnMessage(env: Env, sv: Server, id: Id, m: Message): Server {
    match m
    case SubscriptionRequest(topic, isAdd) => OnSubscription(env, sv, id, topic, isAdd)
    case NotificationRequest(pattern, isAdd) => OnNotification(env, sv, id, pattern, isAdd)
    case UnicastData(clientId, topic, packets) => OnUnicast(env, sv, id, clientId, topic, packets)
    case MulticastData(topic, packets) => OnMulticast(env, sv, id, topic, packets)
    case _ => sv
  }

  /**
    Subscriptions go first, with their notices; then listeners; then publishers, whose notices reach
    the subscribers that remain.
   */
  function OnDisconnected(env: Env, sv: Server, id: Id): Server {
    var h := sv.hub;
    var subs := h.subs.Drop(id);
    var ob := NotifyGone(env, h.notifs, sv.people, sv.outbox, id, GoneList(env, h.subs, id));
    sv.(hub := Hub(subs, h.notifs.Drop(id), h.pubs.Drop(id), h.interactors - {UuidOf(sv.people, id)}),
        outbox := SendGone(subs, sv.people, ob, id, StaleList(env, h.pubs, id)))
  }

  /** A failed authentication is answered like a successful one, but leaves the user unset. */
  function OnAuthenticate(env: Env, sv: Server, id: Id, authMethod: bytes, credentials: bytes): Server
    requires id in sv.people
  {
    match env.authenticate(authMethod, credentials)
    case Threw => sv
    case Rejected => sv.(outbox := SendTo(sv.outbox, id, AuthenticationResponse(true)))
    case Accepted(user) =>
      sv.(people := sv.people[id := sv.people[id].(user := Some(user))],
          outbox := SendTo(sv.outbox, id, AuthenticationResponse(true)))
  }

  /** `dynamic_cast<AuthenticationRequest*>`: method and credentials, or the null pointer. */
  function AsAuthenticationRequest(m: Message): Option<(bytes, bytes)> {
    if m.AuthenticationRequest? then Some((m.authMethod, m.credentials)) else None
  }

  /** Dereferencing the null pointer is undefined; here it changes nothing. */
  function OnFirstMessage(env: Env, sv: Server, id: Id, m: Message): Server
    requires id in sv.people
  {
    match AsAuthenticationRequest(m)
    case None => sv
    case Some(request) => OnAuthenticate(env, sv, id, request.0, request.1)
  }

  /** How processing a message ends. */
  datatype Outcome = Completed | Thrown | NullDereferenced

  function OutcomeOf(env: Env, sv: Server, id: Id, m: Message): Outcome {
    if !Known(sv.people, id) then
      match AsAuthenticationRequest(m)
      case None => NullDereferenced
      case Some(request) => if env.authenticate(request.0, request.1) == Threw then Thrown else Completed
    else
      match m
      case SubscriptionRequest(_, _) => Completed
      case NotificationRequest(p, isAdd) => if isAdd && sv.hub.notifs.AddThrows(env, p) then Thrown else Completed
      case UnicastData(_, _, _) => Completed
      case MulticastData(_, _) => Completed
      case _ => Thrown
  }

  // ---- Events ----

  datatype Event =
    | Opened(fd: int, id: Id, host: bytes, uuid: bytes)
    | Received(fd: int, message: Message)
    | Connected(id: Id)
    | Closed(fd: int)
    | Reloaded(specs: seq<A.AuthorizationSpec>)

  /**
    Accepted descriptors and generated uuids are new and an interactor has an address of its own; a
    client the hub is told about is authenticated.
   */
  predicate Possible(sv: Server, e: Event) {
    match e
    case Opened(fd, id, _, uuid) =>
      fd !in sv.fds && id !in sv.people && (forall i :: i in sv.people ==> sv.people[i].uuid != uuid)
    case Received(fd, _) => fd in sv.fds && sv.fds[fd] in sv.people
    case Connected(id) => Known(sv.people, id)
    case Closed(fd) => fd in sv.fds && sv.fds[fd] in sv.people
    case Reloaded(_) => true
  }

  /** A request to listen under a new pattern that does not compile: it leaves a pattern without an expression. */
  predicate Spoils(env: Env, sv: Server, e: Event) {
    e.Received? && e.fd in sv.fds && Known(sv.people, sv.fds[e.fd]) &&
    e.message.NotificationRequest? && e.message.isAdd && sv.hub.notifs.AddThrows(env, e.message.topicPattern)
  }

  /** What the runs below are made of. */
  predicate Enabled(env: Env, sv: Server, e: Event) {
    Possible(sv, e) && !Spoils(env, sv, e)
  }

  function Step(env: Env, sv: Server, e: Event): Server
    requires Possible(sv, e)
  {
    match e
    case Opened(fd, id, host, uuid) =>
      sv.(people := sv.people[id := Info(fd, host, uuid, None)], fds := sv.fds[fd := id],
          outbox := sv.outbox[id := []])
    case Received(fd, m) =>
      var id := sv.fds[fd];
      if sv.people[id].user == None then OnFirstMessage(env, sv, id, m) else OnMessage(env, sv, id, m)
    case Connected(id) =>
      // std::map::insert keeps what is there.
      var h, uuid := sv.hub, sv.people[id].uuid;
      sv.(hub := h.(interactors := if uuid in h.interactors then h.interactors else h.interactors[uuid := id]))
    case Closed(fd) =>
      // The handler is gone before the hub is told, the interactor only afterwards.
      var id := sv.fds[fd];
      var sv' := OnDisconnected(env, sv.(outbox := sv.outbox - {id}), id);
      sv'.(people := sv'.people - {id}, fds := sv'.fds - {fd})
    case Reloaded(specs) => sv.(specs := specs)
  }

  /** The server after a run; an event that is not enabled does not happen. */
  function Run(env: Env, events: seq<Event>): Server {
    if events == [] then STARTING
    else
      var sv, e := Run(env, events[..|events| - 1]), events[|events| - 1];
      if Enabled(env, sv, e) then Step(env, sv, e) else sv
  }
}
