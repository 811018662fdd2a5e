/**
  The three indices, operation by operation: what each keeps between its two directions, and where
  binding a map by copy makes a difference. Everything is said of one pair of an interactor and a
  topic (or pattern) at a time.
 */
module Indices {
  import opened Bytes
  import opened HubModel

  lemma OneMore<T>(a: set<T>, x: T) returns (y: T)
    requires !(a <= {x})
    ensures y in a && y != x
  {
    y :| y in a && y !in {x};
  }

  lemma AnyOf<T>(a: set<T>) returns (y: T)
    requires a != {}
    ensures y in a
  {
    y :| y in a;
  }

  // ---- Subscriptions ----

  /** Counts are positive, nothing is empty, and every topic of a subscriber lists the subscriber. */
  ghost predicate SubsAt(st: Subs, s: Id, t: Topic) {
    && (s in st.Subscribers(t) ==> st.of[t][s] >= 1)
    && (t in st.of ==> st.of[t].Keys != {})
    && (s in st.topics ==> st.topics[s] != {})
    && (t in st.TopicsOf(s) ==> s in st.Subscribers(t))
  }

  ghost predicate SubsInv(st: Subs) {
    forall s, t :: SubsAt(st, s, t)
  }

  /** The other direction: every subscriber of a topic has the topic. */
  ghost predicate SubsAgreeAt(st: Subs, s: Id, t: Topic) {
    s in st.Subscribers(t) ==> t in st.TopicsOf(s)
  }

  ghost predicate SubsAgree(st: Subs) {
    forall s, t :: SubsAgreeAt(st, s, t)
  }

  /** An unsubscription whose decrement is lost: the last of a subscriber that is not alone. */
  predicate Orphans(st: Subs, s: Id, t: Topic) {
    s in st.Subscribers(t) && st.of[t][s] <= 1 && st.Subscribers(t) != {s}
  }

  lemma SubsAddAt(st: Subs, s: Id, t: Topic, s': Id, t': Topic)
    requires SubsAt(st, s', t') && SubsAt(st, s, t)
    ensures SubsAt(st.Add(s, t), s', t')
    ensures SubsAgreeAt(st, s', t') ==> SubsAgreeAt(st.Add(s, t), s', t')
    ensures CountOf(st.Add(s, t).of, t', s') ==
      CountOf(st.of, t', s') + (if t' == t && s' == s then 1 else 0)
  {
  }

  lemma SubsAdd(st: Subs, s: Id, t: Topic)
    requires SubsInv(st)
    ensures SubsInv(st.Add(s, t))
    ensures SubsAgree(st) ==> SubsAgree(st.Add(s, t))
  {
    hide SubsAt, SubsAgreeAt;
    forall s', t'
      ensures SubsAt(st.Add(s, t), s', t')
      ensures SubsAgreeAt(st, s', t') ==> SubsAgreeAt(st.Add(s, t), s', t')
    {
      SubsAddAt(st, s, t, s', t');
    }
  }

  lemma SubsRemoveAt(st: Subs, binding: Binding, s: Id, t: Topic, s': Id, t': Topic)
    requires SubsAt(st, s', t') && SubsAt(st, s, t)
    ensures SubsAt(st.Remove(binding, s, t), s', t')
    ensures SubsAgreeAt(st, s', t') && !(binding == ByCopy && Orphans(st, s, t)) ==>
      SubsAgreeAt(st.Remove(binding, s, t), s', t')
    ensures binding == ByReference ==>
      CountOf(st.Remove(binding, s, t).of, t', s') ==
      if t' == t && s' == s && CountOf(st.of, t, s) > 0 then CountOf(st.of, t, s) - 1 else CountOf(st.of, t', s')
    ensures binding == ByCopy ==>
      CountOf(st.Remove(binding, s, t).of, t', s') ==
      if t' == t && s' == s && CountOf(st.of, t, s) == 1 && st.Subscribers(t) == {s} then 0
      else CountOf(st.of, t', s')
  {
  }

  /** Agreement survives an unsubscription exactly when the decrement is not lost on an orphan. */
  lemma SubsRemove(st: Subs, binding: Binding, s: Id, t: Topic)
    requires SubsInv(st)
    ensures SubsInv(st.Remove(binding, s, t))
    ensures SubsAgree(st) ==>
      (SubsAgree(st.Remove(binding, s, t)) <==> !(binding == ByCopy && Orphans(st, s, t)))
  {
    var st' := st.Remove(binding, s, t);
    if binding == ByCopy && Orphans(st, s, t) {
      assert !SubsAgreeAt(st', s, t);
    }
    hide SubsAt, SubsAgreeAt;
    forall s', t'
      ensures SubsAt(st', s', t')
      ensures SubsAgreeAt(st, s', t') && !(binding == ByCopy && Orphans(st, s, t)) ==> SubsAgreeAt(st', s', t')
    {
      SubsRemoveAt(st, binding, s, t, s', t');
    }
  }

  /** The copy makes no difference exactly when there is nothing to remove or nothing would be left. */
  lemma SubsRemoveByCopy(st: Subs, s: Id, t: Topic)
    requires SubsInv(st)
    ensures st.Remove(ByCopy, s, t) == st.Remove(ByReference, s, t)
      <==> s !in st.Subscribers(t) || (st.Subscribers(t) == {s} && CountOf(st.of, t, s) == 1)
  {
    assert SubsAt(st, s, t);
    SubsRemoveAt(st, ByReference, s, t, s, t);
    if s in st.Subscribers(t) && !(st.Subscribers(t) == {s} && CountOf(st.of, t, s) == 1) {
      assert CountOf(st.Remove(ByCopy, s, t).of, t, s) == CountOf(st.of, t, s);
    }
  }

  lemma SubsDropAt(st: Subs, s: Id, s': Id, t': Topic)
    requires SubsAt(st, s', t') && SubsAt(st, s, t')
    ensures SubsAt(st.Drop(s), s', t')
    ensures SubsAgreeAt(st, s', t') ==> SubsAgreeAt(st.Drop(s), s', t')
    ensures s' in st.Drop(s).Subscribers(t') <==> s' in st.Subscribers(t') && (s' == s ==> t' !in st.TopicsOf(s))
    ensures s' != s ==> CountOf(st.Drop(s).of, t', s') == CountOf(st.of, t', s')
  {
    var st' := st.Drop(s);
    if t' in st'.of && t' in st.TopicsOf(s) {
      assert !(st.of[t'].Keys <= {s});
      var x := OneMore(st.of[t'].Keys, s);
      assert x in st'.of[t'];
    }
  }

  lemma SubsDrop(st: Subs, s: Id)
    requires SubsInv(st)
    ensures SubsInv(st.Drop(s)) && s !in st.Drop(s).topics
    ensures SubsAgree(st) ==> SubsAgree(st.Drop(s))
  {
    hide SubsAt, SubsAgreeAt;
    forall s', t'
      ensures SubsAt(st.Drop(s), s', t')
      ensures SubsAgreeAt(st, s', t') ==> SubsAgreeAt(st.Drop(s), s', t')
    {
      SubsDropAt(st, s, s', t');
    }
  }

  // ---- Listeners ----

  /**
    Patterns and compiled expressions have the same keys, and every listener of a pattern has the
    pattern. By copy, a pattern has exactly one listener, counted once.
   */
  ghost predicate NotifsAt(binding: Binding, st: Notifs, l: Id, p: Pattern) {
    && (p in st.regexes <==> p in st.of)
    && (p in st.regexes ==> st.regexes[p] == p)
    && (l in st.ListeningTo(p) ==> st.of[p][l] >= 1 && p in st.PatternsOf(l))
    && (p in st.of ==> st.of[p].Keys != {})
    && (l in st.patterns ==> st.patterns[l] != {})
    && (binding == ByCopy && l in st.ListeningTo(p) ==> st.of[p][l] == 1 && st.of[p].Keys == {l})
  }

  ghost predicate NotifsInv(binding: Binding, st: Notifs) {
    forall l, p :: NotifsAt(binding, st, l, p)
  }

  /** The other direction: every pattern of a listener lists the listener. */
  ghost predicate NotifsAgreeAt(st: Notifs, l: Id, p: Pattern) {
    p in st.PatternsOf(l) ==> l in st.ListeningTo(p)
  }

  ghost predicate NotifsAgree(st: Notifs) {
    forall l, p :: NotifsAgreeAt(st, l, p)
  }

  /** A request to listen that goes unrecorded: the pattern has another listener. */
  predicate Unrecorded(st: Notifs, l: Id, p: Pattern) {
    p in st.of && l !in st.ListeningTo(p)
  }

  lemma NotifsAddAt(env: Env, st: Notifs, l: Id, p: Pattern, l': Id, p': Pattern)
    requires NotifsAt(env.binding, st, l', p') && NotifsAt(env.binding, st, l, p)
    requires p in st.of || env.isPattern(p)
    ensures NotifsAt(env.binding, st.Add(env, l, p), l', p')
    ensures NotifsAgreeAt(st, l', p') && !(env.binding == ByCopy && Unrecorded(st, l, p)) ==>
      NotifsAgreeAt(st.Add(env, l, p), l', p')
    ensures env.binding == ByReference ==>
      CountOf(st.Add(env, l, p).of, p', l') == CountOf(st.of, p', l') + (if p' == p && l' == l then 1 else 0)
  {
  }

  /** Agreement survives a request to listen exactly when the request is recorded. */
  lemma NotifsAdd(env: Env, st: Notifs, l: Id, p: Pattern)
    requires NotifsInv(env.binding, st)
    ensures NotifsInv(env.binding, st.Add(env, l, p)) <==> p in st.of || env.isPattern(p)
    ensures (p in st.of || env.isPattern(p)) && NotifsAgree(st) ==>
      (NotifsAgree(st.Add(env, l, p)) <==> !(env.binding == ByCopy && Unrecorded(st, l, p)))
  {
    var st' := st.Add(env, l, p);
    assert NotifsAt(env.binding, st, l, p);
    if p !in st.of && !env.isPattern(p) {
      assert !NotifsAt(env.binding, st', l, p);
    } else {
      if env.binding == ByCopy && Unrecorded(st, l, p) {
        assert !NotifsAgreeAt(st', l, p);
      }
      hide NotifsAt, NotifsAgreeAt;
      forall l', p'
        ensures NotifsAt(env.binding, st', l', p')
        ensures NotifsAgreeAt(st, l', p') && !(env.binding == ByCopy && Unrecorded(st, l, p)) ==>
          NotifsAgreeAt(st', l', p')
      {
        NotifsAddAt(env, st, l, p, l', p');
      }
    }
  }

  lemma NotifsRemoveAt(binding: Binding, st: Notifs, l: Id, p: Pattern, l': Id, p': Pattern)
    requires NotifsAt(binding, st, l', p') && NotifsAt(binding, st, l, p)
    ensures NotifsAt(binding, st.Remove(binding, l, p), l', p')
    ensures NotifsAgreeAt(st, l', p') ==> NotifsAgreeAt(st.Remove(binding, l, p), l', p')
    ensures CountOf(st.Remove(binding, l, p).of, p', l') ==
      if p' == p && l' == l && CountOf(st.of, p, l) > 0 then CountOf(st.of, p, l) - 1 else CountOf(st.of, p', l')
  {
  }

  /** As a pattern has one listener by copy, removing it by copy is removing it. */
  lemma NotifsRemove(binding: Binding, st: Notifs, l: Id, p: Pattern)
    requires NotifsInv(binding, st)
    ensures NotifsInv(binding, st.Remove(binding, l, p))
    ensures NotifsAgree(st) ==> NotifsAgree(st.Remove(binding, l, p))
    ensures st.Remove(binding, l, p) == st.Remove(ByReference, l, p)
  {
    assert NotifsAt(binding, st, l, p);
    hide NotifsAgreeAt;
    forall l', p'
      ensures NotifsAt(binding, st.Remove(binding, l, p), l', p')
      ensures NotifsAgreeAt(st, l', p') ==> NotifsAgreeAt(st.Remove(binding, l, p), l', p')
    {
      NotifsRemoveAt(binding, st, l, p, l', p');
    }
  }

  lemma NotifsDropAt(binding: Binding, st: Notifs, l: Id, l': Id, p': Pattern)
    requires NotifsAt(binding, st, l', p') && NotifsAt(binding, st, l, p')
    ensures NotifsAt(binding, st.Drop(l), l', p')
    ensures NotifsAgreeAt(st, l', p') ==> NotifsAgreeAt(st.Drop(l), l', p')
    ensures l' in st.Drop(l).ListeningTo(p') <==> l' in st.ListeningTo(p') && l' != l
    ensures l' != l ==> CountOf(st.Drop(l).of, p', l') == CountOf(st.of, p', l')
  {
    var st' := st.Drop(l);
    if p' in st'.of && p' in st.PatternsOf(l) {
      assert !(st.of[p'].Keys <= {l});
      var x := OneMore(st.of[p'].Keys, l);
      assert x in st'.of[p'];
    }
  }

  lemma NotifsDrop(binding: Binding, st: Notifs, l: Id)
    requires NotifsInv(binding, st)
    ensures NotifsInv(binding, st.Drop(l)) && l !in st.Drop(l).patterns
    ensures NotifsAgree(st) ==> NotifsAgree(st.Drop(l))
  {
    hide NotifsAt, NotifsAgreeAt;
    forall l', p'
      ensures NotifsAt(binding, st.Drop(l), l', p')
      ensures NotifsAgreeAt(st, l', p') ==> NotifsAgreeAt(st.Drop(l), l', p')
    {
      NotifsDropAt(binding, st, l, l', p');
    }
  }

  // ---- Publishers ----

  /** The two directions are inverse to each other and nothing is empty. */
  ghost predicate PubsAt(st: Pubs, p: Id, t: Topic) {
    && (t in st.of ==> st.of[t] != {})
    && (p in st.topics ==> st.topics[p] != {})
    && (p in st.PublishersOf(t) <==> t in st.TopicsOf(p))
  }

  ghost predicate PubsInv(st: Pubs) {
    forall p, t :: PubsAt(st, p, t)
  }

  lemma PubsAddAt(st: Pubs, p: Id, t: Topic, p': Id, t': Topic)
    requires PubsAt(st, p', t')
    ensures PubsAt(st.Add(p, t), p', t')
    ensures p' in st.Add(p, t).PublishersOf(t') <==> p' in st.PublishersOf(t') || (p' == p && t' == t)
  {
  }

  lemma PubsAdd(st: Pubs, p: Id, t: Topic)
    requires PubsInv(st)
    ensures PubsInv(st.Add(p, t))
  {
    hide PubsAt;
    forall p', t'
      ensures PubsAt(st.Add(p, t), p', t')
    {
      PubsAddAt(st, p, t, p', t');
    }
  }

  /** Dropping a publisher: a topic is stale exactly when nobody else publishes it. */
  lemma PubsDropAt(st: Pubs, p: Id, p': Id, t': Topic)
    requires PubsAt(st, p', t') && PubsAt(st, p, t')
    ensures PubsAt(st.Drop(p), p', t')
    ensures p' in st.Drop(p).PublishersOf(t') <==> p' in st.PublishersOf(t') && p' != p
    ensures t' in st.Stale(p) <==> st.PublishersOf(t') == {p}
    ensures t' in st.Stale(p) ==> p in st.topics && t' !in st.Drop(p).of
  {
    if t' in st.of {
      if t' in st.Stale(p) {
        var x := AnyOf(st.of[t']);
        assert st.of[t'] == {p};
      } else {
        var x := OneMore(st.of[t'], p);
        assert p in st.topics ==> x in st.Drop(p).of[t'];
      }
    }
  }

  lemma PubsDrop(st: Pubs, p: Id)
    requires PubsInv(st)
    ensures PubsInv(st.Drop(p)) && p !in st.Drop(p).topics
  {
    hide PubsAt;
    forall p', t'
      ensures PubsAt(st.Drop(p), p', t')
    {
      PubsDropAt(st, p, p', t');
    }
  }
}
