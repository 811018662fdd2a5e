/**
  The poller's handlers and the distributor's interactors in lockstep. Closing only marks a handler;
  the sweep at the end of an iteration erases the handler first and then tells the distributor.
 */
module Pollers {
  import opened Bytes
  import opened HubModel
  import opened Switchboards
  import opened Service
  import SI = ServerInvariants
  import R = References
  import I = Indices
  import LV = ListenerView

  datatype Handler = Handler(isListener: bool, isOpen: bool)

  /** The server after a list of descriptors has been closed, in order; listeners have no interactor. */
  ghost function AfterCloses(env: Env, sv: Server, q: seq<int>): Server {
    if q == [] then sv
    else
      var before, e := AfterCloses(env, sv, q[..|q| - 1]), Closed(q[|q| - 1]);
      if Possible(before, e) then Step(env, before, e) else before
  }

  /** Nobody who leaves stays listed as a subscriber. */
  ghost predicate NoneDangles(env: Env, sv: Server, q: seq<int>) {
    forall i :: 0 <= i < |q| ==> !R.Dangles(AfterCloses(env, sv, q[..i]), Closed(q[i]))
  }

  lemma NoneDanglesNext(env: Env, sv: Server, q: seq<int>, i: nat)
    requires i < |q|
    ensures NoneDangles(env, sv, q[..i + 1]) <==>
      NoneDangles(env, sv, q[..i]) && !R.Dangles(AfterCloses(env, sv, q[..i]), Closed(q[i]))
    ensures NoneDangles(env, sv, q) ==> NoneDangles(env, sv, q[..i])
  {
    hide R.Dangles, AfterCloses;
    assert forall j :: 0 <= j <= i ==> q[..i + 1][..j] == q[..j];
    assert forall j :: 0 <= j <= i ==> q[..i][..j] == q[..j];
    assert q[..i + 1][i] == q[i];
  }

  /** With the maps bound by reference, nobody ever does. */
  lemma {:induction false} AgreementMeansNoneDangles(env: Env, sv: Server, q: seq<int>)
    requires env.binding == ByReference && SI.Inv(env, sv) && SI.Agree(sv)
    ensures NoneDangles(env, sv, q)
    ensures SI.Inv(env, AfterCloses(env, sv, q)) && SI.Agree(AfterCloses(env, sv, q))
  {
    hide SI.Inv, Step, Possible;
    if q != [] {
      var n := |q| - 1;
      var before, e := AfterCloses(env, sv, q[..n]), Closed(q[n]);
      AgreementMeansNoneDangles(env, sv, q[..n]);
      AgreementMeansSafeToLeave(before, q[n]);
      forall i | 0 <= i < |q|
        ensures !R.Dangles(AfterCloses(env, sv, q[..i]), Closed(q[i]))
      {
        assert i < n ==> q[..n][..i] == q[..i] && q[..n][i] == q[i];
      }
      if Possible(before, e) {
        SI.StepKeepsInv(env, before, e);
        SI.StepKeepsAgreement(env, before, e);
      }
    }
  }

  lemma AgreementMeansSafeToLeave(sv: Server, fd: int)
    requires SI.Agree(sv)
    ensures !R.Dangles(sv, Closed(fd))
  {
    if fd in sv.fds {
      forall t
        ensures sv.fds[fd] in sv.hub.subs.Subscribers(t) ==> t in sv.hub.subs.TopicsOf(sv.fds[fd])
      {
        assert I.SubsAgreeAt(sv.hub.subs, sv.fds[fd], t);
      }
    }
  }

  /** The descriptors whose handlers are closed. */
  function ClosedFds(handlers: map<int, Handler>): set<int> {
    set fd | fd in handlers && !handlers[fd].isOpen
  }

  /** The handlers that remain once those of a list of descriptors have been erased. */
  function Without(handlers: map<int, Handler>, q: seq<int>): map<int, Handler> {
    map fd | fd in handlers && fd !in q :: handlers[fd]
  }

  lemma FilterLists<T(!new)>(q: seq<T>, all: set<T>, s: set<T>)
    requires Lists(q, all) && s <= all
    ensures Lists(Filter(q, s), s)
  {
    LV.FilterDistinct(q, s);
    LV.FilterLaw(q, s);
  }

  lemma WithoutNext(handlers: map<int, Handler>, q: seq<int>, i: nat)
    requires i < |q|
    ensures Without(handlers, q[..i + 1]) == Without(handlers, q[..i]) - {q[i]}
  {
    assert q[..i + 1] == q[..i] + [q[i]];
  }

  lemma OpenRemain(handlers: map<int, Handler>, q: seq<int>)
    requires Lists(q, ClosedFds(handlers))
    ensures Without(handlers, q) == map fd | fd in handlers && handlers[fd].isOpen :: handlers[fd]
    ensures Without(handlers, []) == handlers
  {
    forall fd | fd in handlers
      ensures fd in q <==> !handlers[fd].isOpen
    {
      assert fd in ClosedFds(handlers) <==> fd in q;
    }
  }

  lemma StillThere(handlers: map<int, Handler>, q: seq<int>, i: nat)
    requires Lists(q, ClosedFds(handlers)) && i < |q|
    ensures q[i] in Without(handlers, q[..i])
  {
    assert q[i] in q;
    assert q[i] in ClosedFds(handlers);
  }

  /** Exactly the handlers that are no listeners have an interactor. */
  ghost predicate Matched(handlers: map<int, Handler>, fds: map<int, Id>) {
    forall fd :: fd in fds <==> fd in handlers && !handlers[fd].isListener
  }

  class Poller {
    const client: Distributor
    var handlers: map<int, Handler>

    constructor (client: Distributor)
      requires client.Valid() && client.fds == map[]
      ensures this.client == client && handlers == map[] && Valid()
    {
      this.client := client;
      handlers := map[];
    }

    ghost predicate Valid()
      reads this, client, client.hub, client.hub.net, client.hub.sm, client.hub.nm, client.hub.pm,
        client.hub.pm.authorizationManager, client.hub.pm.authorizationManager.repository,
        client.hub.pm.authorizationManager.repository.cache
    {
      client.Valid() && Matched(handlers, client.fds)
    }

    method AddHandler(fd: int, handler: Handler, id: Id, host: bytes, uuid: bytes)
      requires Valid() && fd !in handlers
      requires !handler.isListener ==> Possible(client.State(), Opened(fd, id, host, uuid))
      modifies this`handlers, client`fds, client.hub.net
      ensures Valid() && handlers == old(handlers)[fd := handler]
      ensures client.State() ==
        if handler.isListener then old(client.State())
        else Step(client.hub.env, old(client.State()), Opened(fd, id, host, uuid))
    {
      handlers := handlers[fd := handler];
      if !handler.isListener {
        client.OnOpen(fd, id, host, uuid);
      }
    }

    /** Only a mark: whatever is sent to this descriptor before the sweep is still queued. */
    method Close(fd: int)
      requires Valid()
      modifies this`handlers
      ensures Valid() && client.State() == old(client.State())
      ensures handlers.Keys == old(handlers).Keys
      ensures ClosedFds(handlers) == ClosedFds(old(handlers)) + if fd in handlers then {fd} else {}
    {
      if fd in handlers {
        handlers := handlers[fd := handlers[fd].(isOpen := false)];
      }
    }

    /** `order` is the order in which the map of handlers is walked. */
    method FindClosedHandlerFds(order: seq<int>) returns (closed: seq<int>)
      requires Lists(order, handlers.Keys)
      ensures closed == Filter(order, ClosedFds(handlers)) && Lists(closed, ClosedFds(handlers))
    {
      closed := [];
      for i := 0 to |order|
        invariant closed == Filter(order[..i], ClosedFds(handlers))
      {
        hide Filter;
        FilterNext(order, i, ClosedFds(handlers));
        if !handlers[order[i]].isOpen {
          closed := closed + [order[i]];
        }
      }
      assert order[..|order|] == order;
      FilterLists(order, handlers.Keys, ClosedFds(handlers));
    }

    /**
      The sweep takes the server through one departure after the other, and leaves exactly the open
      handlers and their interactors. A departure that leaves somebody dangling must be the last; the
      server is sound afterwards exactly when none does.
     */
    method RemoveClosedHandlers(order: seq<int>)
      requires Valid() && Lists(order, handlers.Keys)
      requires var q := Filter(order, ClosedFds(handlers));
        q != [] ==> NoneDangles(client.hub.env, client.State(), q[..|q| - 1])
      modifies this`handlers, client`fds, client.hub, client.hub.net, client.hub.sm, client.hub.nm, client.hub.pm
      ensures Matched(handlers, client.fds)
      ensures handlers == map fd | fd in old(handlers) && old(handlers)[fd].isOpen :: old(handlers)[fd]
      ensures var q := Filter(order, ClosedFds(old(handlers)));
        && client.State() == AfterCloses(client.hub.env, old(client.State()), q)
        && (Valid() <==> NoneDangles(client.hub.env, old(client.State()), q))
    {
      hide Step, Possible, Filter, Lists, Without, ClosedFds, Matched, R.Dangles, SI.Inv, R.Safe, NoneDangles;
      var closed := FindClosedHandlerFds(order);
      ghost var sv, env := client.State(), client.hub.env;
      OpenRemain(handlers, closed);
      NobodyLeft(env, sv);
      assert closed[..0] == [];
      for i := 0 to |closed|
        invariant Matched(handlers, client.fds) && handlers == Without(old(handlers), closed[..i])
        invariant client.State() == AfterCloses(env, sv, closed[..i])
        invariant Valid() <==> NoneDangles(env, sv, closed[..i])
      {
        assert closed[..i + 1][..i] == closed[..i];
        assert closed[..|closed| - 1][..i] == closed[..i];
        FrontNeverDangles(env, sv, closed[..|closed| - 1], i);
        NoneDanglesNext(env, sv, closed, i);
        WithoutNext(old(handlers), closed, i);
        StillThere(old(handlers), closed, i);
        Sweep(closed[i]);
      }
      assert closed[..|closed|] == closed;
    }

    /** The handler goes first, then the interactor it stood for. */
    method Sweep(fd: int)
      requires Valid() && fd in handlers
      modifies this`handlers, client`fds, client.hub, client.hub.net, client.hub.sm, client.hub.nm, client.hub.pm
      ensures Matched(handlers, client.fds) && handlers == old(handlers) - {fd}
      ensures Valid() <==> !R.Dangles(old(client.State()), Closed(fd))
      ensures client.State() ==
        if Possible(old(client.State()), Closed(fd))
        then Step(client.hub.env, old(client.State()), Closed(fd)) else old(client.State())
    {
      hide Step, R.Safe, I.SubsInv, I.NotifsInv, I.PubsInv;
      ghost var sv := client.State();
      assert SI.Wired(sv);
      var handler := handlers[fd];
      handlers := handlers - {fd};
      if !handler.isListener {
        SI.CloseEffect(client.hub.env, sv, fd);
        client.OnClose(fd);
        assert client.State().fds == sv.fds - {fd};
      }
    }
  }

  lemma NobodyLeft(env: Env, sv: Server)
    ensures NoneDangles(env, sv, []) && AfterCloses(env, sv, []) == sv
  {
  }

  lemma FrontNeverDangles(env: Env, sv: Server, front: seq<int>, i: nat)
    requires NoneDangles(env, sv, front) && i <= |front|
    ensures NoneDangles(env, sv, front[..i])
  {
    if i < |front| {
      NoneDanglesNext(env, sv, front, i);
    } else {
      assert front[..i] == front;
    }
  }
}
