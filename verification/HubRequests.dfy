/**
 * What consumers asked for, read off the history of calls alone: who is subscribed to what, and so which
 * keys the hub holds and whom each tick goes to.
 */
module HubRequests {
  import opened Wrappers
  import opened HubSpec
  import opened FeedProtocol
  import M = MarketDataHub

  /** Each live subscription, under the number it was given, with what it last asked for. */
  datatype Requests = Requests(nextId: nat, live: map<nat, Subscriber>)

  ghost function KeysAsked(live: map<nat, Subscriber>): set<string> {
    set id, k | id in live && k in live[id].keys :: k
  }

  /** One call: taken unless more than 2000 keys would then be asked for. */
  ghost function Asked(r: Requests, s: Step): Requests {
    match s
    case SubscribeStep(who) =>
      var live := r.live[r.nextId := who];
      if |KeysAsked(live)| <= 2000 then Requests(r.nextId + 1, live) else r
    case UpdateStep(id, keys) =>
      if id !in r.live then r
      else
        var live := r.live[id := r.live[id].(keys := keys)];
        if |KeysAsked(live)| <= 2000 then r.(live := live) else r
    case CloseStep(id) => r.(live := r.live - {id})
    case ShutdownStep => r.(live := map[])
    case _ => r
  }

  ghost function AskedBy(steps: seq<Step>): Requests {
    if steps == [] then Requests(0, map[]) else Asked(AskedBy(steps[..|steps| - 1]), steps[|steps| - 1])
  }

  ghost predicate Has(subs: seq<Entry>, e: Entry) {
    exists i :: 0 <= i < |subs| && subs[i] == e
  }

  /** The subscriber list, oldest first, holds exactly the live subscriptions. */
  ghost predicate Mirrors(subs: seq<Entry>, nextId: nat, r: Requests) {
    && nextId == r.nextId && M.IdsOrdered(subs, nextId)
    && (forall id, who :: Has(subs, Entry(id, who)) <==> id in r.live && r.live[id] == who)
  }

  lemma {:induction false} MirroredKeys(subs: seq<Entry>, nextId: nat, r: Requests)
    requires Mirrors(subs, nextId, r)
    ensures AllKeys(subs) == KeysAsked(r.live)
  {
    forall k ensures k in AllKeys(subs) <==> k in KeysAsked(r.live) {
      AllKeysMembers(subs, k);
      if k in KeysAsked(r.live) {
        var id :| id in r.live && k in r.live[id].keys;
        assert Has(subs, Entry(id, r.live[id]));
      }
      if i :| 0 <= i < |subs| && k in subs[i].who.keys {
        assert Has(subs, Entry(subs[i].id, subs[i].who));
      }
    }
  }

  lemma {:induction false} HasMore(subs: seq<Entry>, last: Entry, e: Entry)
    ensures Has(subs + [last], e) <==> Has(subs, e) || e == last
  {
    if Has(subs, e) {
      var i :| 0 <= i < |subs| && subs[i] == e;
      assert (subs + [last])[i] == e;
    }
    assert (subs + [last])[|subs|] == last;
  }

  /** With distinct numbers, the entry of a number is the one at its place. */
  lemma {:induction false} HasOthers(subs: seq<Entry>, nextId: nat, at: nat, e: Entry)
    requires M.IdsOrdered(subs, nextId) && at < |subs|
    ensures Has(Without(subs, at), e) <==> Has(subs, e) && e.id != subs[at].id
  {
    var rest := Without(subs, at);
    assert forall j :: 0 <= j < |rest| ==> rest[j] == if j < at then subs[j] else subs[j + 1];
    if Has(rest, e) {
      var j :| 0 <= j < |rest| && rest[j] == e;
      assert subs[if j < at then j else j + 1] == e;
    }
    if Has(subs, e) && e.id != subs[at].id {
      var i :| 0 <= i < |subs| && subs[i] == e;
      assert rest[if i < at then i else i - 1] == e;
    }
  }

  lemma {:induction false} HasUpdated(subs: seq<Entry>, nextId: nat, at: nat, now: Entry, e: Entry)
    requires M.IdsOrdered(subs, nextId) && at < |subs| && now.id == subs[at].id
    ensures Has(subs[at := now], e) <==> if e.id == now.id then e == now else Has(subs, e)
  {
    var after := subs[at := now];
    assert after[at] == now;
    if e.id != now.id && Has(subs, e) {
      var i :| 0 <= i < |subs| && subs[i] == e;
      assert after[i] == e;
    }
    if Has(after, e) {
      var i :| 0 <= i < |after| && after[i] == e;
      assert i != at ==> subs[i] == e;
    }
  }

  lemma {:induction false} SubscribeMirrors(subs: seq<Entry>, r: Requests, who: Subscriber, after: Requests)
    requires Mirrors(subs, r.nextId, r) && after == Requests(r.nextId + 1, r.live[r.nextId := who])
    ensures Mirrors(subs + [Entry(r.nextId, who)], r.nextId + 1, after)
  {
    M.IdsKept(subs, r.nextId, |subs|, who);
    forall id, w
      ensures Has(subs + [Entry(r.nextId, who)], Entry(id, w)) <==> id in after.live && after.live[id] == w
    {
      HasMore(subs, Entry(r.nextId, who), Entry(id, w));
      if id == r.nextId && Has(subs, Entry(id, w)) {
        assert false;
      }
    }
  }

  lemma {:induction false} UpdateMirrors(subs: seq<Entry>, r: Requests, at: nat, keys: set<string>, now: Entry,
      after: Requests)
    requires Mirrors(subs, r.nextId, r) && at < |subs| && now == Entry(subs[at].id, subs[at].who.(keys := keys))
    requires now.id in r.live && after == r.(live := r.live[now.id := r.live[now.id].(keys := keys)])
    ensures Mirrors(subs[at := now], r.nextId, after)
  {
    M.IdsKept(subs, r.nextId, at, now.who);
    assert Has(subs, Entry(subs[at].id, subs[at].who));
    forall id, w ensures Has(subs[at := now], Entry(id, w)) <==> id in after.live && after.live[id] == w {
      HasUpdated(subs, r.nextId, at, now, Entry(id, w));
    }
  }

  lemma {:induction false} CloseMirrors(subs: seq<Entry>, r: Requests, at: nat, after: Requests)
    requires Mirrors(subs, r.nextId, r) && at < |subs| && after == r.(live := r.live - {subs[at].id})
    ensures Mirrors(Without(subs, at), r.nextId, after)
  {
    M.IdsKept(subs, r.nextId, at, subs[at].who);
    forall id, w ensures Has(Without(subs, at), Entry(id, w)) <==> id in after.live && after.live[id] == w {
      HasOthers(subs, r.nextId, at, Entry(id, w));
    }
  }

  /** A subscription is open exactly when its number is in the list. */
  lemma {:induction false} LiveIsListed(subs: seq<Entry>, r: Requests, id: nat)
    requires Mirrors(subs, r.nextId, r)
    ensures IndexOf(subs, id).Some? <==> id in r.live
  {
    var at := IndexOf(subs, id);
    if at.Some? {
      assert Has(subs, Entry(id, subs[at.value].who));
    }
    if id in r.live {
      assert Has(subs, Entry(id, r.live[id]));
    }
  }

  lemma {:induction false} SubscribeStepMirrors(w: World, who: Subscriber, r: Requests)
    requires Mirrors(w.hub.subscribers, w.hub.nextId, r)
    ensures
      var hub := AfterSubscribe(w.hub, who).hub;
      Mirrors(hub.subscribers, hub.nextId, Asked(r, SubscribeStep(who)))
  {
    var more, after := w.hub.subscribers + [Entry(r.nextId, who)], Requests(r.nextId + 1, r.live[r.nextId := who]);
    SubscribeMirrors(w.hub.subscribers, r, who, after);
    MirroredKeys(more, r.nextId + 1, after);
    SubscribedList(w.hub, who, more);
    assert Asked(r, SubscribeStep(who)) == if |AllKeys(more)| <= 2000 then after else r;
  }

  lemma {:induction false} SubscribedList(h: Hub, who: Subscriber, more: seq<Entry>)
    requires more == h.subscribers + [Entry(h.nextId, who)]
    ensures
      var hub := AfterSubscribe(h, who).hub;
      && hub.subscribers == (if |AllKeys(more)| <= 2000 then more else h.subscribers)
      && hub.nextId == (if |AllKeys(more)| <= 2000 then h.nextId + 1 else h.nextId)
  {}

  lemma {:induction false} UpdateStepMirrors(w: World, id: nat, keys: set<string>, r: Requests)
    requires Mirrors(w.hub.subscribers, w.hub.nextId, r)
    ensures
      var hub := AfterUpdate(w.hub, id, keys).hub;
      Mirrors(hub.subscribers, hub.nextId, Asked(r, UpdateStep(id, keys)))
  {
    var subs, at := w.hub.subscribers, IndexOf(w.hub.subscribers, id);
    LiveIsListed(subs, r, id);
    if at.Some? {
      var now := Entry(id, subs[at.value].who.(keys := keys));
      var after := r.(live := r.live[id := r.live[id].(keys := keys)]);
      UpdateMirrors(subs, r, at.value, keys, now, after);
      MirroredKeys(subs[at.value := now], r.nextId, after);
    }
  }

  lemma {:induction false} CloseStepMirrors(w: World, id: nat, r: Requests)
    requires Mirrors(w.hub.subscribers, w.hub.nextId, r)
    ensures
      var hub := AfterClose(w.hub, id).hub;
      Mirrors(hub.subscribers, hub.nextId, Asked(r, CloseStep(id)))
  {
    var subs, at := w.hub.subscribers, IndexOf(w.hub.subscribers, id);
    LiveIsListed(subs, r, id);
    if at.Some? {
      CloseMirrors(subs, r, at.value, r.(live := r.live - {id}));
    } else {
      assert r.live - {id} == r.live;
    }
  }

  lemma {:induction false} StepMirrors(w: World, s: Step, r: Requests)
    requires Mirrors(w.hub.subscribers, w.hub.nextId, r)
    ensures Mirrors(Next(w, s).hub.subscribers, Next(w, s).hub.nextId, Asked(r, s))
  {
    match s
    case SubscribeStep(who) => SubscribeStepMirrors(w, who, r);
    case UpdateStep(id, keys) => UpdateStepMirrors(w, id, keys, r);
    case CloseStep(id) => CloseStepMirrors(w, id, r);
    case _ =>
  }

  lemma {:induction false} HubMirrors(steps: seq<Step>)
    ensures Mirrors(Run(IDLE, steps).hub.subscribers, Run(IDLE, steps).hub.nextId, AskedBy(steps))
  {
    if steps != [] {
      var front := steps[..|steps| - 1];
      HubMirrors(front);
      StepMirrors(Run(IDLE, front), steps[|steps| - 1], AskedBy(front));
    }
  }

  /** Some open subscription asks for the key with that callback. */
  ghost predicate Wants(live: map<nat, Subscriber>, k: string, callback: int) {
    exists id :: id in live && k in live[id].keys && live[id].onTick == callback
  }

  lemma {:induction false} MirroredCallback(subs: seq<Entry>, nextId: nat, r: Requests, k: string, c: int)
    requires Mirrors(subs, nextId, r)
    ensures c in Callbacks(subs, k) <==> Wants(r.live, k, c)
  {
    CallbacksMembers(subs, k, c);
    if i :| 0 <= i < |subs| && k in subs[i].who.keys && subs[i].who.onTick == c {
      assert Has(subs, Entry(subs[i].id, subs[i].who));
    }
    if id :| id in r.live && k in r.live[id].keys && r.live[id].onTick == c {
      assert Has(subs, Entry(id, r.live[id]));
    }
  }

  /**
   * Over every run: the hub holds exactly the keys last asked for by the subscriptions still open, and a tick
   * of a key goes to a callback exactly when one of those subscriptions asks for the key with it.
   */
  lemma {:induction false} HoldsWhatIsAsked(steps: seq<Step>)
    ensures
      var subs, live := Run(IDLE, steps).hub.subscribers, AskedBy(steps).live;
      && AllKeys(subs) == KeysAsked(live)
      && (forall id, who :: Has(subs, Entry(id, who)) <==> id in live && live[id] == who)
      && (forall k, c :: c in Callbacks(subs, k) <==> Wants(live, k, c))
  {
    var hub, r := Run(IDLE, steps).hub, AskedBy(steps);
    HubMirrors(steps);
    MirroredKeys(hub.subscribers, hub.nextId, r);
    forall k, c ensures c in Callbacks(hub.subscribers, k) <==> Wants(r.live, k, c) {
      MirroredCallback(hub.subscribers, hub.nextId, r, k, c);
    }
  }
}
