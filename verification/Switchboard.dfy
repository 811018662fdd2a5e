/** The live interactors and their queues, and the two loops that every manager shares. */
module Switchboards {
  import opened Bytes
  import opened Messages
  import opened HubModel

  /** The elements of a sequence. */
  ghost function Elements<T>(q: seq<T>): set<T> {
    set x | x in q
  }

  /** One step through a list: the next element is new, and joins those seen. */
  lemma NextElement<T(!new)>(q: seq<T>, s: set<T>, i: nat)
    requires Lists(q, s) && i < |q|
    ensures q[i] in s && q[i] !in Elements(q[..i])
    ensures Elements(q[..i + 1]) == Elements(q[..i]) + {q[i]}
    ensures q[..i + 1][..i] == q[..i]
  {
    assert q[..i + 1] == q[..i] + [q[i]];
  }

  lemma AllElements<T(!new)>(q: seq<T>, s: set<T>)
    requires Lists(q, s)
    ensures Elements(q[..|q|]) == s
  {
    assert q[..|q|] == q;
  }

  lemma SendAllNext(ob: Outbox, ids: set<Id>, id: Id, m: Message)
    requires id !in ids
    ensures SendTo(SendAll(ob, ids, m), id, m) == SendAll(ob, ids + {id}, m)
  {
  }

  lemma SendAllNone(ob: Outbox, m: Message)
    ensures SendAll(ob, {}, m) == ob
  {
  }

  /** Erasing an interactor leaves nothing exactly when there was nobody else. */
  lemma ErasedEmpty(m: map<Id, int>, id: Id)
    ensures m - {id} == map[] <==> m.Keys <= {id}
    ensures m.Keys <= {id} && id in m ==> m.Keys == {id}
  {
    assert (m - {id}).Keys == m.Keys - {id};
    if m - {id} == map[] {
      forall k | k in m.Keys
        ensures k in {id}
      {
        assert k != id ==> k in m.Keys - {id};
      }
    }
  }

  lemma FilterNext<T>(q: seq<T>, i: nat, s: set<T>)
    requires i < |q|
    ensures Filter(q[..i + 1], s) == if q[i] in s then Filter(q[..i], s) + [q[i]] else Filter(q[..i], s)
  {
    assert q[..i + 1][..i] == q[..i];
  }

  lemma NotifyGoneNext(env: Env, ns: Notifs, people: People, ob: Outbox, s: Id, ts: seq<Topic>, t: Topic)
    ensures NotifyGone(env, ns, people, ob, s, ts + [t])
         == Notify(env, ns, people, NotifyGone(env, ns, people, ob, s, ts), s, t, false)
  {
    assert (ts + [t])[..|ts|] == ts;
  }

  class Switchboard {
    var people: People
    var outbox: Outbox

    constructor ()
      ensures people == map[] && outbox == map[]
    {
      people, outbox := map[], map[];
    }

    /** Dereferences the optional user, so it must be there and the pointer must be live. */
    function User(id: Id): bytes
      requires Known(people, id)
      reads this
    {
      people[id].user.value
    }

    function Host(id: Id): bytes
      requires id in people
      reads this
    {
      people[id].host
    }

    function Uuid(id: Id): bytes
      requires id in people
      reads this
    {
      people[id].uuid
    }

    /** Interactor::send, through the poller to the handler's queue if there still is one. */
    method Send(id: Id, m: Message)
      requires id in people
      modifies this`outbox
      ensures outbox == SendTo(old(outbox), id, m)
    {
      if id in outbox {
        outbox := outbox[id := outbox[id] + [m]];
      }
    }

    /** `for (auto x : ids) x->send(m)`. */
    method SendToAll(env: Env, ids: set<Id>, m: Message)
      requires Orders(env) && ids <= people.Keys
      modifies this`outbox
      ensures outbox == SendAll(old(outbox), ids, m)
    {
      var q := env.idOrder(ids);
      SendAllNone(outbox, m);
      for i := 0 to |q|
        invariant outbox == SendAll(old(outbox), Elements(q[..i]), m)
      {
        NextElement(q, ids, i);
        SendAllNext(old(outbox), Elements(q[..i]), q[i], m);
        Send(q[i], m);
      }
      AllElements(q, ids);
    }
  }
}
