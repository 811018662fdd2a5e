/** Reference counts are history: what is stored is what the requests since the connection add up to. */
module Histories {
  import opened Bytes
  import opened Messages
  import opened HubModel
  import opened Indices
  import opened ServerInvariants
  import opened References

  /** A count after one more request: up by one, or down by one but not below zero. */
  function Counted(n: int, isAdd: bool): int {
    if isAdd then n + 1 else if n > 0 then n - 1 else 0
  }

  /** What the requests of `s` on topic `t` since it last connected add up to. */
  function Subscribed(env: Env, events: seq<Event>, s: Id, t: Topic): int {
    if events == [] then 0
    else
      var before, e := events[..|events| - 1], events[|events| - 1];
      var n, sv := Subscribed(env, before, s, t), Run(env, before);
      if !Enabled(env, sv, e) then n
      else
        match e
        case Opened(_, id, _, _) => if id == s then 0 else n
        case Closed(fd) => if sv.fds[fd] == s then 0 else n
        case Received(fd, m) =>
          if sv.fds[fd] == s && Known(sv.people, s) && m.SubscriptionRequest? && m.topic == t
          then Counted(n, m.isAdd) else n
        case _ => n
  }

  /** The same for the requests of `l` to listen to pattern `p`. */
  function Listened(env: Env, events: seq<Event>, l: Id, p: Pattern): int {
    if events == [] then 0
    else
      var before, e := events[..|events| - 1], events[|events| - 1];
      var n, sv := Listened(env, before, l, p), Run(env, before);
      if !Enabled(env, sv, e) then n
      else
        match e
        case Opened(_, id, _, _) => if id == l then 0 else n
        case Closed(fd) => if sv.fds[fd] == l then 0 else n
        case Received(fd, m) =>
          if sv.fds[fd] == l && Known(sv.people, l) && m.NotificationRequest? && m.topicPattern == p
          then Counted(n, m.isAdd) else n
        case _ => n
  }

  /** A newcomer is nowhere yet, whatever address it was given. */
  lemma NewcomerUncounted(env: Env, sv: Server, id: Id, t: Topic, p: Pattern)
    requires Inv(env, sv) && Agree(sv) && id !in sv.people
    ensures CountOf(sv.hub.subs.of, t, id) == 0 && CountOf(sv.hub.notifs.of, p, id) == 0
  {
    assert IndexedKnown(sv, id);
    assert SubsAgreeAt(sv.hub.subs, id, t);
    assert NotifsAt(env.binding, sv.hub.notifs, id, p);
  }

  lemma RequestCounts(env: Env, sv: Server, id: Id, m: Message, s: Id, t: Topic, p: Pattern)
    requires Inv(env, sv) && env.binding == ByReference && Known(sv.people, id)
    requires !(m.NotificationRequest? && m.isAdd && sv.hub.notifs.AddThrows(env, m.topicPattern))
    ensures CountOf(OnMessage(env, sv, id, m).hub.subs.of, t, s) ==
      (if m.SubscriptionRequest? && id == s && m.topic == t
       then Counted(CountOf(sv.hub.subs.of, t, s), m.isAdd) else CountOf(sv.hub.subs.of, t, s))
    ensures CountOf(OnMessage(env, sv, id, m).hub.notifs.of, p, s) ==
      (if m.NotificationRequest? && id == s && m.topicPattern == p
       then Counted(CountOf(sv.hub.notifs.of, p, s), m.isAdd) else CountOf(sv.hub.notifs.of, p, s))
  {
    hide Notify, Snapshot, Multicast, ClearanceFor;
    assert SubsAt(sv.hub.subs, s, t) && NotifsAt(env.binding, sv.hub.notifs, s, p);
    match m
    case SubscriptionRequest(topic, isAdd) =>
      assert SubsAt(sv.hub.subs, id, topic);
      SubsAddAt(sv.hub.subs, id, topic, s, t);
      SubsRemoveAt(sv.hub.subs, ByReference, id, topic, s, t);
    case NotificationRequest(pattern, isAdd) =>
      assert NotifsAt(env.binding, sv.hub.notifs, id, pattern);
      if isAdd {
        NotifsAddAt(env, sv.hub.notifs, id, pattern, s, p);
      } else {
        NotifsRemoveAt(env.binding, sv.hub.notifs, id, pattern, s, p);
      }
    case _ =>
  }

  lemma CloseCounts(env: Env, sv: Server, fd: int, s: Id, t: Topic, p: Pattern)
    requires Inv(env, sv) && Agree(sv) && Enabled(env, sv, Closed(fd))
    ensures var sv' := Step(env, sv, Closed(fd)); var id := sv.fds[fd];
      && CountOf(sv'.hub.subs.of, t, s) == (if id == s then 0 else CountOf(sv.hub.subs.of, t, s))
      && CountOf(sv'.hub.notifs.of, p, s) == (if id == s then 0 else CountOf(sv.hub.notifs.of, p, s))
  {
    var id := sv.fds[fd];
    CloseEffect(env, sv, fd);
    assert SubsAt(sv.hub.subs, s, t) && SubsAt(sv.hub.subs, id, t) && SubsAgreeAt(sv.hub.subs, id, t);
    SubsDropAt(sv.hub.subs, id, s, t);
    assert NotifsAt(env.binding, sv.hub.notifs, s, p) && NotifsAt(env.binding, sv.hub.notifs, id, p);
    NotifsDropAt(env.binding, sv.hub.notifs, id, s, p);
  }

  /** In place, for every interleaving with other clients, the stored counts are the history. */
  lemma {:induction false} CountsAreHistory(env: Env, events: seq<Event>, s: Id, t: Topic, p: Pattern)
    requires env.binding == ByReference
    ensures CountOf(Run(env, events).hub.subs.of, t, s) == Subscribed(env, events, s, t)
    ensures CountOf(Run(env, events).hub.notifs.of, p, s) == Listened(env, events, s, p)
  {
    if events != [] {
      var before, e := events[..|events| - 1], events[|events| - 1];
      var sv := Run(env, before);
      CountsAreHistory(env, before, s, t, p);
      RunKeepsAgreement(env, before);
      if Enabled(env, sv, e) {
        hide Inv, Agree, CountOf, OnMessage, OnDisconnected;
        match e
        case Opened(_, id, _, _) =>
          NewcomerUncounted(env, sv, id, t, p);
        case Received(fd, m) =>
          if Known(sv.people, sv.fds[fd]) {
            RequestCounts(env, sv, sv.fds[fd], m, s, t, p);
          }
        case Closed(fd) =>
          CloseCounts(env, sv, fd, s, t, p);
        case _ =>
      }
    }
  }

  /** As written, a subscriber that shares its topic keeps its count however often it unsubscribes. */
  lemma CountStuckAsWritten(env: Env, sv: Server, fd: int, t: Topic)
    requires env.binding == ByCopy && Inv(env, sv)
    requires Enabled(env, sv, Received(fd, SubscriptionRequest(t, false))) && Known(sv.people, sv.fds[fd])
    ensures var sv' := Step(env, sv, Received(fd, SubscriptionRequest(t, false)));
      var n := CountOf(sv.hub.subs.of, t, sv.fds[fd]);
      CountOf(sv'.hub.subs.of, t, sv.fds[fd]) == Counted(n, false) <==>
      n == 0 || (n == 1 && sv.hub.subs.Subscribers(t) == {sv.fds[fd]})
  {
    assert SubsAt(sv.hub.subs, sv.fds[fd], t);
  }

  // ---- Authentication is history as well ----

  /** Whether the client behind a descriptor has had an authentication accepted since it connected. */
  function LoggedIn(env: Env, events: seq<Event>, fd: int): bool {
    if events == [] then false
    else
      var before, e := events[..|events| - 1], events[|events| - 1];
      var was := LoggedIn(env, before, fd);
      if !Enabled(env, Run(env, before), e) then was
      else
        match e
        case Opened(f, _, _, _) => was && f != fd
        case Closed(f) => was && f != fd
        case Received(f, m) =>
          was || (f == fd && m.AuthenticationRequest? && env.authenticate(m.authMethod, m.credentials).Accepted?)
        case _ => was
  }

  lemma {:induction false} LoggedInLaw(env: Env, events: seq<Event>, fd: int)
    ensures var sv := Run(env, events);
      LoggedIn(env, events, fd) <==> fd in sv.fds && Known(sv.people, sv.fds[fd])
  {
    if events != [] {
      var before, e := events[..|events| - 1], events[|events| - 1];
      LoggedInLaw(env, before, fd);
      RunKeepsInv(env, before);
      if Enabled(env, Run(env, before), e) {
        LoggedInStep(env, Run(env, before), e, fd);
      }
    }
  }

  lemma LoggedInStep(env: Env, sv: Server, e: Event, fd: int)
    requires Inv(env, sv) && Enabled(env, sv, e)
    ensures var sv' := Step(env, sv, e);
      var was := fd in sv.fds && Known(sv.people, sv.fds[fd]);
      var now := fd in sv'.fds && Known(sv'.people, sv'.fds[fd]);
      match e
      case Opened(f, _, _, _) => now == (was && f != fd)
      case Closed(f) => now == (was && f != fd)
      case Received(f, m) =>
        now == (was ||
          (f == fd && m.AuthenticationRequest? && env.authenticate(m.authMethod, m.credentials).Accepted?))
      case _ => now == was
  {
    hide SubsInv, NotifsInv, PubsInv, OnMessage, OnDisconnected;
    assert Wired(sv);
    match e
    case Closed(f) => CloseEffect(env, sv, f);
    case Received(f, m) => MessageLeavesPeople(env, sv, sv.fds[f], m);
    case _ =>
  }

  // ---- Who is connected is history as well ----

  /**
    What the events say of the interactor `id`: the descriptor, host and uuid it was opened with, and the
    user of its first accepted authentication; nothing before it is opened and after it is closed.
   */
  function Registered(env: Env, events: seq<Event>, id: Id): Option<Info> {
    if events == [] then None
    else
      var before, e := events[..|events| - 1], events[|events| - 1];
      var was := Registered(env, before, id);
      if !Enabled(env, Run(env, before), e) then was
      else
        match e
        case Opened(fd, i, host, uuid) => if i == id then Some(Info(fd, host, uuid, None)) else was
        case Closed(fd) => if was.Some? && was.value.fd == fd then None else was
        case Received(fd, m) =>
          if was.Some? && was.value.fd == fd && was.value.user == None && m.AuthenticationRequest? then
            match env.authenticate(m.authMethod, m.credentials)
            case Accepted(user) => Some(was.value.(user := Some(user)))
            case _ => was
          else was
        case _ => was
  }

  lemma {:induction false} RegisteredLaw(env: Env, events: seq<Event>, id: Id)
    ensures var sv := Run(env, events);
      Registered(env, events, id) == if id in sv.people then Some(sv.people[id]) else None
  {
    if events != [] {
      var before, e := events[..|events| - 1], events[|events| - 1];
      RegisteredLaw(env, before, id);
      RunKeepsInv(env, before);
      if Enabled(env, Run(env, before), e) {
        RecordAfter(env, Run(env, before), e, id);
      }
    }
  }

  /** How one event changes the record of an interactor. */
  lemma RecordAfter(env: Env, sv: Server, e: Event, id: Id)
    requires Inv(env, sv) && Enabled(env, sv, e)
    ensures var was := if id in sv.people then Some(sv.people[id]) else None;
      var sv' := Step(env, sv, e);
      var now := if id in sv'.people then Some(sv'.people[id]) else None;
      match e
      case Opened(fd, i, host, uuid) => now == (if i == id then Some(Info(fd, host, uuid, None)) else was)
      case Closed(fd) => now == (if was.Some? && was.value.fd == fd then None else was)
      case Received(fd, m) =>
        if was.Some? && was.value.fd == fd && was.value.user == None && m.AuthenticationRequest? then
          match env.authenticate(m.authMethod, m.credentials)
          case Accepted(user) => now == Some(was.value.(user := Some(user)))
          case _ => now == was
        else now == was
      case _ => now == was
  {
    hide SubsInv, NotifsInv, PubsInv, OnMessage, OnDisconnected;
    assert Wired(sv);
    match e
    case Closed(fd) => CloseEffect(env, sv, fd);
    case Received(fd, m) => MessageLeavesPeople(env, sv, sv.fds[fd], m);
    case _ =>
  }

  // ---- The rules and the clients of the hub ----

  /** The rules in force are those of the last reload; before the first there are none. */
  lemma {:induction false} RulesAreLastReload(env: Env, events: seq<Event>, k: nat)
    requires k <= |events| && forall j :: k <= j < |events| ==> !events[j].Reloaded?
    requires k > 0 ==> events[k - 1].Reloaded?
    ensures Run(env, events).specs == if k > 0 then events[k - 1].specs else []
  {
    hide Step, Inv, Spoils;
    if events != [] && k < |events| {
      var n := |events| - 1;
      RulesAreLastReload(env, events[..n], k);
      RulesStay(env, Run(env, events[..n]), events[n]);
    } else if events != [] {
      ReloadTakesEffect(env, Run(env, events[..k - 1]), events[k - 1]);
    }
  }

  lemma ReloadTakesEffect(env: Env, sv: Server, e: Event)
    requires e.Reloaded?
    ensures Enabled(env, sv, e) && Step(env, sv, e).specs == e.specs
  {
  }

  lemma RulesStay(env: Env, sv: Server, e: Event)
    requires !e.Reloaded?
    ensures Enabled(env, sv, e) ==> Step(env, sv, e).specs == sv.specs
  {
    hide OnMessage, OnDisconnected;
    if Enabled(env, sv, e) {
      match e
      case Closed(fd) => CloseEffect(env, sv, fd);
      case Received(fd, m) => MessageLeavesPeople(env, sv, sv.fds[fd], m);
      case _ =>
    }
  }

  /** Whether the hub has been told about an interactor since it was opened. */
  function Announced(env: Env, events: seq<Event>, id: Id): bool {
    if events == [] then false
    else
      var before, e := events[..|events| - 1], events[|events| - 1];
      var was, sv := Announced(env, before, id), Run(env, before);
      if !Enabled(env, sv, e) then was
      else
        match e
        case Connected(i) => was || i == id
        case Closed(fd) => was && sv.fds[fd] != id
        case _ => was
  }

  /** A client the hub can send a unicast to. */
  ghost predicate IsClient(sv: Server, id: Id) {
    id in sv.people && sv.people[id].uuid in sv.hub.interactors && sv.hub.interactors[sv.people[id].uuid] == id
  }

  /** The clients the hub can send a unicast to are those it was told about and that are still there. */
  lemma {:induction false} ClientsAreAnnounced(env: Env, events: seq<Event>, id: Id)
    ensures Announced(env, events, id) <==> IsClient(Run(env, events), id)
  {
    if events != [] {
      var before, e := events[..|events| - 1], events[|events| - 1];
      ClientsAreAnnounced(env, before, id);
      RunKeepsInv(env, before);
      if Enabled(env, Run(env, before), e) {
        AnnouncedAfter(env, Run(env, before), e, id);
      }
    }
  }

  lemma AnnouncedAfter(env: Env, sv: Server, e: Event, id: Id)
    requires Inv(env, sv) && Enabled(env, sv, e)
    ensures var sv' := Step(env, sv, e);
      match e
      case Connected(i) => IsClient(sv', id) == (IsClient(sv, id) || i == id)
      case Closed(fd) => IsClient(sv', id) == (IsClient(sv, id) && sv.fds[fd] != id)
      case _ => IsClient(sv', id) == IsClient(sv, id)
  {
    hide SubsInv, NotifsInv, PubsInv, OnMessage, OnDisconnected;
    assert Wired(sv) && ClientsKnown(sv);
    match e
    case Closed(fd) => CloseEffect(env, sv, fd);
    case Received(fd, m) => MessageLeavesPeople(env, sv, sv.fds[fd], m);
    case _ =>
  }

  /** Exactly which messages throw. */
  lemma ThrownExactly(env: Env, sv: Server, id: Id, m: Message)
    ensures OutcomeOf(env, sv, id, m) == Thrown <==>
      if id in sv.people && sv.people[id].user.Some? then
        || m.AuthenticationRequest? || m.AuthenticationResponse? || m.ForwardedSubscriptionRequest?
        || m.ForwardedMulticastData? || m.ForwardedUnicastData?
        || (m.NotificationRequest? && m.isAdd && m.topicPattern !in sv.hub.notifs.of && !env.isPattern(m.topicPattern))
      else m.AuthenticationRequest? && env.authenticate(m.authMethod, m.credentials) == Threw
  {
  }

  /**
    Processing a message dereferences the null pointer exactly when it is no request to authenticate and
    comes before the first accepted one; no index and no queue changes.
   */
  lemma NullDereference(env: Env, events: seq<Event>, fd: int, m: Message)
    requires Possible(Run(env, events), Received(fd, m))
    ensures var sv := Run(env, events);
      && (OutcomeOf(env, sv, sv.fds[fd], m) == NullDereferenced <==>
          !LoggedIn(env, events, fd) && !m.AuthenticationRequest?)
      && (OutcomeOf(env, sv, sv.fds[fd], m) == NullDereferenced ==> Step(env, sv, Received(fd, m)) == sv)
  {
    hide Run, LoggedIn;
    LoggedInLaw(env, events, fd);
  }

  /** A message that throws changes nothing, unless it leaves a pattern without an expression. */
  lemma ThrownChangesNothing(env: Env, sv: Server, fd: int, m: Message)
    requires Possible(sv, Received(fd, m)) && OutcomeOf(env, sv, sv.fds[fd], m) == Thrown
    ensures Step(env, sv, Received(fd, m)) == sv <==> !Spoils(env, sv, Received(fd, m))
  {
    hide Notify, Snapshot, Multicast, ClearanceFor;
    if Spoils(env, sv, Received(fd, m)) {
      assert m.topicPattern in Step(env, sv, Received(fd, m)).hub.notifs.of;
    }
  }
}
