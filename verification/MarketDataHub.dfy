/**
 * src/swingdash/services/market_data_hub.py: reference counts and routing tables, changed in place,
 * proved to do what module HubSpec says.
 */
module MarketDataHub {
  import opened Wrappers
  import opened Ordering
  import opened HubSpec

  type Counts = map<string, nat>

  function CountIn(counts: Counts, k: string): nat {
    if k in counts then counts[k] else 0
  }

  function Retained(counts: Counts, keys: set<string>): Counts {
    map k | k in counts.Keys + keys :: CountIn(counts, k) + if k in keys then 1 else 0
  }

  function Released(counts: Counts, keys: set<string>): Counts {
    map k | k in counts && !(k in keys && counts[k] <= 1) :: if k in keys then (counts[k] - 1) as nat else counts[k]
  }

  /** The keys that have no holder. */
  function Unheld(counts: Counts, keys: set<string>): set<string> {
    set k | k in keys && CountIn(counts, k) == 0
  }

  /** The keys that have no holder once each loses one. */
  function LastHeld(counts: Counts, keys: set<string>): set<string> {
    set k | k in keys && CountIn(counts, k) <= 1
  }

  /** The counts a list of subscribers stands for: no key with none. */
  ghost predicate Counts?(counts: Counts, subs: seq<Entry>) {
    && counts.Keys == AllKeys(subs)
    && forall k :: k in counts ==> counts[k] == Holders(subs, k)
  }

  ghost predicate Routes?(routes: map<string, seq<int>>, subs: seq<Entry>) {
    && routes.Keys == AllKeys(subs)
    && forall k :: k in routes ==> routes[k] == Callbacks(subs, k)
  }

  ghost predicate IdsOrdered(subs: seq<Entry>, nextId: nat) {
    && (forall i :: 0 <= i < |subs| ==> subs[i].id < nextId)
    && (forall i, j :: 0 <= i < j < |subs| ==> subs[i].id < subs[j].id)
  }

  lemma IdsKept(subs: seq<Entry>, nextId: nat, i: nat, who: Subscriber)
    requires IdsOrdered(subs, nextId)
    ensures IdsOrdered(subs + [Entry(nextId, who)], nextId + 1)
    ensures i < |subs| ==> IdsOrdered(subs[i := Entry(subs[i].id, who)], nextId) && IdsOrdered(Without(subs, i), nextId)
  {
    if i < |subs| {
      var rest := Without(subs, i);
      assert forall j :: 0 <= j < |rest| ==> rest[j] == if j < i then subs[j] else subs[j + 1];
    }
  }

  lemma AddedCounts(counts: Counts, subs: seq<Entry>, e: Entry)
    requires Counts?(counts, subs)
    ensures Counts?(Retained(counts, e.who.keys), subs + [e])
    ensures AllKeys(subs + [e]) == counts.Keys + e.who.keys
  {
    forall k
      ensures k in AllKeys(subs + [e]) <==> k in counts.Keys + e.who.keys
      ensures Holders(subs + [e], k) == CountIn(counts, k) + if k in e.who.keys then 1 else 0
    {
      HoldersSnoc(subs, e, k);
      HoldersPositive(subs, k);
      HoldersPositive(subs + [e], k);
    }
  }

  lemma UpdatedCounts(counts: Counts, subs: seq<Entry>, i: nat, e: Entry)
    requires Counts?(counts, subs) && i < |subs|
    ensures var old_, new_ := subs[i].who.keys, e.who.keys;
      Counts?(Released(Retained(counts, new_ - old_), old_ - new_), subs[i := e])
      && AllKeys(subs[i := e]) == (counts.Keys + (new_ - old_)) - LastHeld(counts, old_ - new_)
  {
    var subs' := subs[i := e];
    forall k
      ensures k in AllKeys(subs') <==> Holders(subs', k) > 0
      ensures k in counts <==> Holders(subs, k) > 0
      ensures Holders(subs', k) + (if k in subs[i].who.keys then 1 else 0) ==
        Holders(subs, k) + (if k in e.who.keys then 1 else 0)
    {
      HoldersUpdated(subs, i, e, k);
      HoldersPositive(subs, k);
      HoldersPositive(subs', k);
    }
  }

  lemma ClosedCounts(counts: Counts, subs: seq<Entry>, i: nat)
    requires Counts?(counts, subs) && i < |subs|
    ensures Counts?(Released(counts, subs[i].who.keys), Without(subs, i))
  {
    forall k
      ensures k in AllKeys(Without(subs, i)) <==> Holders(Without(subs, i), k) > 0
      ensures k in counts <==> Holders(subs, k) > 0
      ensures Holders(subs, k) == Holders(Without(subs, i), k) + if k in subs[i].who.keys then 1 else 0
    {
      HoldersAround(subs, i, k);
      HoldersPositive(subs, k);
      HoldersPositive(Without(subs, i), k);
    }
  }

  /** The subscriber of that number holds exactly these keys now; everything else of the list is as it was. */
  ghost predicate KeysReplaced(before: seq<Entry>, after: seq<Entry>, id: nat, keys: set<string>) {
    && |after| == |before|
    && forall i :: 0 <= i < |before| ==>
         && after[i].id == before[i].id
         && after[i].who == if before[i].id == id then before[i].who.(keys := keys) else before[i].who
  }

  lemma ReplacedOne(subs: seq<Entry>, nextId: nat, id: nat, keys: set<string>, after: seq<Entry>)
    requires IdsOrdered(subs, nextId)
    requires
      var at := IndexOf(subs, id);
      after == if at.Some? then subs[at.value := Entry(id, subs[at.value].who.(keys := keys))] else subs
    ensures KeysReplaced(subs, after, id, keys)
  {}

  /** A key has a route exactly when somebody holds it, and the route reaches exactly its holders' callbacks. */
  lemma RoutesReach(routes: map<string, seq<int>>, subs: seq<Entry>, k: string, callback: int)
    requires Routes?(routes, subs)
    ensures k in routes <==> exists i :: 0 <= i < |subs| && k in subs[i].who.keys
    ensures k in routes ==>
      (callback in routes[k] <==>
        exists i :: 0 <= i < |subs| && k in subs[i].who.keys && subs[i].who.onTick == callback)
  {
    AllKeysMembers(subs, k);
    CallbacksMembers(subs, k, callback);
  }

  /** Counting `extra` in and `dropped` out leads to the counts of a list that fits. */
  ghost predicate Ready(counts: Counts, subs: seq<Entry>, extra: set<string>, dropped: set<string>, next: nat) {
    && NoZeros(counts) && extra !! dropped && dropped <= counts.Keys
    && Counts?(Released(Retained(counts, extra), dropped), subs)
    && IdsOrdered(subs, next) && Fits(subs)
  }

  lemma ReadyToAdd(counts: Counts, subs: seq<Entry>, nextId: nat, who: Subscriber)
    requires Counts?(counts, subs) && IdsOrdered(subs, nextId) && Fits(subs + [Entry(nextId, who)])
    ensures Ready(counts, subs + [Entry(nextId, who)], who.keys, {}, nextId + 1)
  {
    CountsHaveNoZeros(counts, subs);
    AddedCounts(counts, subs, Entry(nextId, who));
    ReleasedNone(Retained(counts, who.keys));
    IdsKept(subs, nextId, 0, who);
  }

  lemma ReadyToReplace(counts: Counts, subs: seq<Entry>, nextId: nat, at: nat, e: Entry)
    requires Counts?(counts, subs) && IdsOrdered(subs, nextId) && at < |subs| && e.id == subs[at].id
    requires Fits(subs[at := e])
    ensures Ready(counts, subs[at := e], e.who.keys - subs[at].who.keys, subs[at].who.keys - e.who.keys, nextId)
  {
    CountsHaveNoZeros(counts, subs);
    HeldKeys(subs, at);
    UpdatedCounts(counts, subs, at, e);
    IdsKept(subs, nextId, at, e.who);
  }

  lemma ReadyToRemove(counts: Counts, subs: seq<Entry>, nextId: nat, at: nat)
    requires Counts?(counts, subs) && IdsOrdered(subs, nextId) && at < |subs| && Fits(subs)
    ensures Ready(counts, Without(subs, at), {}, subs[at].who.keys, nextId)
  {
    CountsHaveNoZeros(counts, subs);
    ClosedCounts(counts, subs, at);
    HeldKeys(subs, at);
    RetainedNone(counts);
    IdsKept(subs, nextId, at, subs[at].who);
    FewerSubscribersFit(subs, at);
  }

  class MarketDataHub {
    var nextId: nat
    var subscribers: seq<Entry>
    var refcounts: Counts
    /** The feed thread reads it without the lock, so it is only ever replaced. */
    var routes: map<string, seq<int>>
    var statusListeners: seq<int>
    var connectionListeners: seq<int>
    var feed: Option<nat>
    var feedsMade: nat
    /** Everything the transports were told, oldest first. */
    var calls: seq<FeedCall>

    function State(): Hub
      reads this
    {
      Hub(nextId, subscribers, feed, feedsMade)
    }

    /** The tables describe the subscribers. */
    ghost predicate TablesValid()
      reads this`nextId, this`subscribers, this`refcounts, this`routes, this`statusListeners, this`connectionListeners
    {
      && IdsOrdered(subscribers, nextId)
      && Counts?(refcounts, subscribers)
      && |refcounts| <= 2000
      && Routes?(routes, subscribers)
      && statusListeners == StatusListeners(subscribers)
      && connectionListeners == ConnectionListeners(subscribers)
    }

    /** Someone to serve means there is a feed, and feeds are numbered as they are made. */
    ghost predicate FeedValid()
      reads this`subscribers, this`feed, this`feedsMade
    {
      && (feed.Some? ==> feed.value < feedsMade)
      && (subscribers != [] ==> feed.Some?)
    }

    ghost predicate Valid()
      reads this
    {
      TablesValid() && FeedValid()
    }

    constructor ()
      ensures Valid() && State() == Hub(0, [], None, 0) && calls == []
    {
      nextId, subscribers, refcounts, routes := 0, [], map[], map[];
      statusListeners, connectionListeners := [], [];
      feed, feedsMade, calls := None, 0, [];
    }

    /** `_retain`: one more holder of each key; returns the keys nobody held before. */
    method Retain(keys: set<string>) returns (newlyNeeded: set<string>)
      modifies this`refcounts
      ensures refcounts == Retained(old(refcounts), keys)
      ensures newlyNeeded == Unheld(old(refcounts), keys)
    {
      newlyNeeded := {};
      var each := ListSet(keys);
      ghost var before, done := refcounts, {};
      RetainedNone(before);
      for i := 0 to |each|
        invariant done <= keys && forall j :: 0 <= j < |each| ==> (each[j] in done <==> j < i)
        invariant refcounts == Retained(before, done)
        invariant newlyNeeded == Unheld(before, done)
      {
        var key := each[i];
        var count := CountIn(refcounts, key);
        RetainedOneMore(before, done, key);
        if count == 0 {
          newlyNeeded := newlyNeeded + {key};
        }
        refcounts := refcounts[key := count + 1];
        done := done + {key};
      }
      AllDone(each, keys, done);
    }

    /** `_release`: one holder fewer of each key; returns the keys nobody holds any more, or never did. */
    method Release(keys: set<string>) returns (noLongerNeeded: set<string>)
      modifies this`refcounts
      ensures refcounts == Released(old(refcounts), keys)
      ensures noLongerNeeded == LastHeld(old(refcounts), keys)
    {
      noLongerNeeded := {};
      var each := ListSet(keys);
      ghost var before, done := refcounts, {};
      ReleasedNone(before);
      for i := 0 to |each|
        invariant done <= keys && forall j :: 0 <= j < |each| ==> (each[j] in done <==> j < i)
        invariant refcounts == Released(before, done)
        invariant noLongerNeeded == LastHeld(before, done)
      {
        var key := each[i];
        ReleasedOneMore(before, done, key);
        var count := CountIn(refcounts, key) - 1;
        if count <= 0 {
          refcounts := refcounts - {key};
          noLongerNeeded := noLongerNeeded + {key};
        } else {
          refcounts := refcounts[key := count];
        }
        done := done + {key};
      }
      AllDone(each, keys, done);
    }

    /** `_check_capacity`: how many keys there would be. */
    function CountAfter(extra: set<string>, released: set<string>): nat
      reads this`refcounts
    {
      |(refcounts.Keys + extra) - LastHeld(refcounts, released)|
    }

    /** `_rebuild_routes`: the routing table and the listeners, from the subscribers. */
    method RebuildRoutes()
      modifies this`routes, this`statusListeners, this`connectionListeners
      ensures Routes?(routes, subscribers)
      ensures statusListeners == StatusListeners(subscribers)
      ensures connectionListeners == ConnectionListeners(subscribers)
    {
      var table: map<string, seq<int>> := map[];
      var onStatus: seq<int>, onConnection: seq<int> := [], [];
      assert subscribers[..0] == [];
      for i := 0 to |subscribers|
        invariant Routes?(table, subscribers[..i])
        invariant onStatus == StatusListeners(subscribers[..i])
        invariant onConnection == ConnectionListeners(subscribers[..i])
      {
        assert subscribers[..i + 1][..i] == subscribers[..i];
        assert subscribers[..i + 1] == subscribers[..i] + [subscribers[i]];
        table := AddRoutes(table, subscribers[..i], subscribers[i]);
        onStatus := onStatus + Given(subscribers[i].who.onStatus);
        onConnection := onConnection + Given(subscribers[i].who.onConnection);
      }
      assert subscribers[..|subscribers|] == subscribers;
      routes, statusListeners, connectionListeners := table, onStatus, onConnection;
    }

    /** Tells an existing feed which keys nobody needs any more, then which are newly needed. */
    method Announce(removed: set<string>, added: set<string>, ghost before: set<string>, ghost after: set<string>)
      requires removed == before - after && added == after - before
      modifies this`calls
      ensures calls == old(calls) + Changes(feed, before, after)
    {
      assert calls + [] == calls;
      if feed.Some? {
        if removed != {} {
          calls := calls + [Unsubscribe(feed.value, removed)];
        }
        if added != {} {
          calls := calls + [FeedCall.Subscribe(feed.value, added)];
        }
      }
    }

    /**
     * A new consumer. Rejected, with nothing changed, exactly when the hub would hold more than
     * 2000 keys; the first one starts the connection with the full set.
     */
    method Subscribe(keys: set<string>, onTick: int, onStatus: Option<int>, onConnection: Option<int>)
      returns (r: Result<Subscription, nat>)
      requires Valid()
      modifies this
      ensures Valid()
      ensures var o := AfterSubscribe(old(State()), Subscriber(keys, onTick, onStatus, onConnection));
        State() == o.hub && calls == old(calls) + o.calls && r.Ok? == o.accepted
      ensures r.Err? ==> r.error > 2000 && r.error == |old(refcounts).Keys + keys|
      ensures r.Err? ==> refcounts == old(refcounts) && routes == old(routes)
      ensures r.Ok? ==>
        subscribers == old(subscribers) + [Entry(old(nextId), Subscriber(keys, onTick, onStatus, onConnection))]
      ensures r.Ok? ==> fresh(r.value) && r.value.hub == this && r.value.id == old(nextId) && !r.value.closed
    {
      var who := Subscriber(keys, onTick, onStatus, onConnection);
      var after := CountAfter(keys, {});
      CountWithNew(refcounts, subscribers, Entry(nextId, who), after);
      if after > MAX_INSTRUMENTS {
        assert calls + [] == calls;
        return Err(after);
      }
      var id := AddSubscriber(who);
      var handle := new Subscription(this, id);
      r := Ok(handle);
    }

    /** Adjusts the counts to a new subscriber list; returns the keys that appeared and vanished. */
    method Rebalance(extra: set<string>, dropped: set<string>, ghost subs: seq<Entry>)
      returns (added: set<string>, removed: set<string>)
      requires NoZeros(refcounts) && extra !! dropped && dropped <= refcounts.Keys
      requires Counts?(Released(Retained(refcounts, extra), dropped), subs)
      modifies this`refcounts
      ensures Counts?(refcounts, subs)
      ensures added == refcounts.Keys - old(refcounts).Keys
      ensures removed == old(refcounts).Keys - refcounts.Keys
    {
      KeysBalanced(refcounts, extra, dropped);
      added := Retain(extra);
      removed := Release(dropped);
    }

    /** Counts, subscribers and routes for a new list; returns the keys that appeared and vanished. */
    method InstallTables(subs: seq<Entry>, extra: set<string>, dropped: set<string>, next: nat)
      returns (added: set<string>, removed: set<string>)
      requires Ready(refcounts, subs, extra, dropped, next)
      modifies this`nextId, this`refcounts, this`subscribers, this`routes, this`statusListeners,
        this`connectionListeners
      ensures TablesValid() && subscribers == subs && nextId == next
      ensures added == AllKeys(subs) - old(refcounts).Keys && removed == old(refcounts).Keys - AllKeys(subs)
    {
      added, removed := Rebalance(extra, dropped, subs);
      nextId, subscribers := next, subs;
      RebuildRoutes();
      assert |refcounts| == |refcounts.Keys|;
    }

    /** What `subscribe`, `update` and `close` share: the tables, then the feed. */
    method Install(subs: seq<Entry>, extra: set<string>, dropped: set<string>, next: nat)
      requires refcounts.Keys == AllKeys(subscribers) && Ready(refcounts, subs, extra, dropped, next)
      modifies this`nextId, this`refcounts, this`subscribers, this`routes, this`statusListeners,
        this`connectionListeners, this`calls
      ensures TablesValid() && subscribers == subs && nextId == next
      ensures calls == old(calls) + Changes(feed, AllKeys(old(subscribers)), AllKeys(subs))
    {
      ghost var before := refcounts.Keys;
      var added, removed := InstallTables(subs, extra, dropped, next);
      Announce(removed, added, before, AllKeys(subs));
    }

    method AddEntry(who: Subscriber) returns (id: nat)
      requires TablesValid() && Fits(subscribers + [Entry(nextId, who)])
      modifies this`nextId, this`refcounts, this`subscribers, this`routes, this`statusListeners,
        this`connectionListeners, this`calls
      ensures TablesValid()
      ensures id == old(nextId) && nextId == id + 1 && subscribers == old(subscribers) + [Entry(id, who)]
      ensures calls == old(calls) + Changes(feed, AllKeys(old(subscribers)), AllKeys(subscribers))
    {
      id := nextId;
      ReadyToAdd(refcounts, subscribers, nextId, who);
      Install(subscribers + [Entry(id, who)], who.keys, {}, id + 1);
    }

    /** `subscribe` once the capacity check has passed. */
    method AddSubscriber(who: Subscriber) returns (id: nat)
      requires Valid() && Fits(subscribers + [Entry(nextId, who)])
      modifies this
      ensures Valid() && id == old(nextId) && subscribers == old(subscribers) + [Entry(id, who)]
      ensures State() == AfterSubscribe(old(State()), who).hub
      ensures calls == old(calls) + AfterSubscribe(old(State()), who).calls
    {
      SubscribeAccepted(State(), who);
      if feed.None? {
        id := AddFirst(who);
      } else {
        id := AddEntry(who);
      }
    }

    method AddFirst(who: Subscriber) returns (id: nat)
      requires TablesValid() && Fits(subscribers + [Entry(nextId, who)]) && feed.None?
      modifies this
      ensures TablesValid() && FeedValid()
      ensures id == old(nextId) && nextId == id + 1 && subscribers == old(subscribers) + [Entry(id, who)]
      ensures feed == Some(old(feedsMade)) && feedsMade == old(feedsMade) + 1
      ensures calls == old(calls) + [Start(old(feedsMade), AllKeys(subscribers))]
    {
      ghost var said := calls;
      id := AddEntry(who);
      assert said + [] == said;
      StartFeed();
    }

    /** Makes a feed and starts it on every key held so far. */
    method StartFeed()
      requires feed.None?
      modifies this`feed, this`feedsMade, this`calls
      ensures feed == Some(old(feedsMade)) && feedsMade == old(feedsMade) + 1 && FeedValid()
      ensures calls == old(calls) + [Start(old(feedsMade), refcounts.Keys)]
    {
      feed := Some(feedsMade);
      feedsMade := feedsMade + 1;
      calls := calls + [Start(feed.value, refcounts.Keys)];
    }

    /** A consumer changes its keys; only keys nobody held before, or nobody holds any more, reach the feed. */
    method Update(id: nat, keys: set<string>) returns (r: Result<(), nat>)
      requires Valid()
      modifies this
      ensures Valid()
      ensures var o := AfterUpdate(old(State()), id, keys);
        State() == o.hub && calls == old(calls) + o.calls && r.Ok? == o.accepted
      ensures r.Err? ==> r.error > 2000 && refcounts == old(refcounts) && routes == old(routes)
      ensures r.Ok? ==> KeysReplaced(old(subscribers), subscribers, id, keys)
    {
      var at := IndexOf(subscribers, id);
      assert calls + [] == calls;
      if at.None? {
        ReplacedOne(subscribers, nextId, id, keys, subscribers);
        return Ok(());
      }
      var current := subscribers[at.value].who;
      UpdatedCounts(refcounts, subscribers, at.value, Entry(id, current.(keys := keys)));
      var after := CountAfter(keys - current.keys, current.keys - keys);
      if after > MAX_INSTRUMENTS {
        return Err(after);
      }
      ReplacedOne(subscribers, nextId, id, keys, subscribers[at.value := Entry(id, current.(keys := keys))]);
      ReplaceKeys(at.value, keys);
      r := Ok(());
    }

    /** `_update` once the capacity check has passed. */
    method ReplaceKeys(at: nat, keys: set<string>)
      requires Valid() && at < |subscribers|
      requires Fits(subscribers[at := Entry(subscribers[at].id, subscribers[at].who.(keys := keys))])
      modifies this
      ensures Valid()
      ensures
        var entry := Entry(old(subscribers)[at].id, old(subscribers)[at].who.(keys := keys));
        var subs := old(subscribers)[at := entry];
        State() == old(State()).(subscribers := subs)
        && calls == old(calls) + Changes(old(feed), AllKeys(old(subscribers)), AllKeys(subs))
    {
      var current := subscribers[at];
      var entry := Entry(current.id, current.who.(keys := keys));
      ReadyToReplace(refcounts, subscribers, nextId, at, entry);
      Install(subscribers[at := entry], keys - current.who.keys, current.who.keys - keys, nextId);
    }

    /** A consumer goes away; the socket stays open. */
    method CloseSubscriber(id: nat)
      requires Valid()
      modifies this
      ensures Valid()
      ensures var o := AfterClose(old(State()), id);
        State() == o.hub && calls == old(calls) + o.calls
    {
      var at := IndexOf(subscribers, id);
      assert calls + [] == calls;
      if at.Some? {
        RemoveSubscriber(at.value);
      }
    }

    method RemoveSubscriber(at: nat)
      requires Valid() && at < |subscribers|
      modifies this
      ensures Valid()
      ensures State() == old(State()).(subscribers := Without(old(subscribers), at))
      ensures calls ==
        old(calls) + Changes(old(feed), AllKeys(old(subscribers)), AllKeys(Without(old(subscribers), at)))
    {
      var keys := subscribers[at].who.keys;
      assert |refcounts| == |refcounts.Keys|;
      ReadyToRemove(refcounts, subscribers, nextId, at);
      Install(Without(subscribers, at), {}, keys, nextId);
    }

    /** The connected handler, under the lock: the transport and the full set of keys at this moment. */
    method CopyForResend() returns (target: Option<nat>, keys: set<string>)
      requires Valid()
      ensures target == feed && keys == AllKeys(subscribers)
    {
      target, keys := feed, refcounts.Keys;
    }

    /** The connected handler, outside the lock: sends what was copied, whatever has happened since. */
    method Resend(target: Option<nat>, keys: set<string>)
      modifies this`calls
      ensures calls == old(calls) + if target.Some? && keys != {} then [FeedCall.Subscribe(target.value, keys)] else []
    {
      if target.Some? && keys != {} {
        calls := calls + [FeedCall.Subscribe(target.value, keys)];
      } else {
        assert calls + [] == calls;
      }
    }

    /** `close`: forget every consumer and stop the feed. */
    method Shutdown()
      requires Valid()
      modifies this
      ensures Valid() && State() == AfterShutdown(old(State())).hub
      ensures calls == old(calls) + AfterShutdown(old(State())).calls
      ensures refcounts == map[] && routes == map[]
    {
      var was := feed;
      feed, subscribers, refcounts := None, [], map[];
      RebuildRoutes();
      assert calls + [] == calls;
      if was.Some? {
        calls := calls + [Stop(was.value)];
      }
    }
  }

  /** A consumer's live interest; using it after `Close` does nothing. */
  class Subscription {
    const hub: MarketDataHub
    const id: nat
    var closed: bool

    constructor (hub: MarketDataHub, id: nat)
      ensures this.hub == hub && this.id == id && !closed
    {
      this.hub, this.id, closed := hub, id, false;
    }

    method Update(keys: set<string>) returns (r: Result<(), nat>)
      requires hub.Valid()
      modifies hub
      ensures hub.Valid()
      ensures
        var o := if old(closed) then Outcome(old(hub.State()), [], true) else AfterUpdate(old(hub.State()), id, keys);
        hub.State() == o.hub && hub.calls == old(hub.calls) + o.calls && r.Ok? == o.accepted
      ensures r.Ok? && !old(closed) ==> KeysReplaced(old(hub.subscribers), hub.subscribers, id, keys)
    {
      r := Ok(());
      assert hub.calls + [] == hub.calls;
      if !closed {
        r := hub.Update(id, keys);
      }
    }

    method Close()
      requires hub.Valid()
      modifies this, hub
      ensures hub.Valid() && closed
      ensures var o := if old(closed) then Outcome(old(hub.State()), [], true) else AfterClose(old(hub.State()), id);
        hub.State() == o.hub && hub.calls == old(hub.calls) + o.calls
    {
      assert hub.calls + [] == hub.calls;
      if !closed {
        closed := true;
        hub.CloseSubscriber(id);
      }
    }
  }

  lemma CountsHaveNoZeros(counts: Counts, subs: seq<Entry>)
    requires Counts?(counts, subs)
    ensures NoZeros(counts)
  {
    forall k | k in counts ensures counts[k] > 0 {
      HoldersPositive(subs, k);
    }
  }

  lemma SubscribeAccepted(h: Hub, who: Subscriber)
    requires Fits(h.subscribers + [Entry(h.nextId, who)])
    ensures var o, subs := AfterSubscribe(h, who), h.subscribers + [Entry(h.nextId, who)];
      && o.hub.subscribers == subs && o.hub.nextId == h.nextId + 1
      && (h.feed.None? ==> o.hub.feed == Some(h.feedsMade) && o.hub.feedsMade == h.feedsMade + 1
                           && o.calls == [Start(h.feedsMade, AllKeys(subs))])
      && (h.feed.Some? ==> o.hub.feed == h.feed && o.hub.feedsMade == h.feedsMade
                           && o.calls == Changes(h.feed, AllKeys(h.subscribers), AllKeys(subs)))
  {}

  /** The keys there would be with one more subscriber. */
  lemma CountWithNew(counts: Counts, subs: seq<Entry>, e: Entry, after: nat)
    requires Counts?(counts, subs) && after == |(counts.Keys + e.who.keys) - LastHeld(counts, {})|
    ensures after == |AllKeys(subs + [e])| == |counts.Keys + e.who.keys|
  {
    AddedCounts(counts, subs, e);
    assert (counts.Keys + e.who.keys) - LastHeld(counts, {}) == counts.Keys + e.who.keys;
  }

  ghost predicate NoZeros(counts: Counts) {
    forall k :: k in counts ==> counts[k] > 0
  }

  lemma AllDone(each: seq<string>, keys: set<string>, done: set<string>)
    requires Lists(each, keys) && done <= keys
    requires forall j :: 0 <= j < |each| ==> each[j] in done
    ensures done == keys
  {
    forall k | k in keys ensures k in done {
      assert k in each;
    }
  }

  lemma RetainedNone(counts: Counts)
    ensures Retained(counts, {}) == counts
  {}

  lemma ReleasedNone(counts: Counts)
    ensures Released(counts, {}) == counts
  {}

  lemma RetainedOneMore(counts: Counts, done: set<string>, key: string)
    requires key !in done
    ensures var now := Retained(counts, done);
      CountIn(now, key) == CountIn(counts, key) && Retained(counts, done + {key}) == now[key := CountIn(now, key) + 1]
  {}

  lemma ReleasedOneMore(counts: Counts, done: set<string>, key: string)
    requires key !in done
    ensures var now, count := Released(counts, done), CountIn(counts, key);
      && CountIn(now, key) == count
      && Released(counts, done + {key}) == if count <= 1 then now - {key} else now[key := count - 1]
  {}

  /** What retaining and releasing report, for counts without zeros: the keys that appear and vanish. */
  lemma KeysBalanced(counts: Counts, extra: set<string>, dropped: set<string>)
    requires NoZeros(counts) && extra !! dropped && dropped <= counts.Keys
    ensures var after := Released(Retained(counts, extra), dropped);
      && Unheld(counts, extra) == after.Keys - counts.Keys
      && LastHeld(Retained(counts, extra), dropped) == counts.Keys - after.Keys
  {}

  /** A callback goes last in the route of each of these keys. */
  ghost predicate Extended(table: map<string, seq<int>>, keys: set<string>, onTick: int, r: map<string, seq<int>>) {
    && r.Keys == table.Keys + keys
    && forall k :: k in r ==> r[k] == (if k in table then table[k] else []) + if k in keys then [onTick] else []
  }

  lemma ExtendedMore(table: map<string, seq<int>>, done: set<string>, onTick: int, r: map<string, seq<int>>,
      key: string)
    requires Extended(table, done, onTick, r) && key !in done
    ensures Extended(table, done + {key}, onTick, r[key := (if key in r then r[key] else []) + [onTick]])
  {}

  lemma RoutesJoined(table: map<string, seq<int>>, subs: seq<Entry>, e: Entry, r: map<string, seq<int>>)
    requires Routes?(table, subs) && Extended(table, e.who.keys, e.who.onTick, r)
    ensures Routes?(r, subs + [e])
  {
    assert (subs + [e])[..|subs|] == subs;
    forall k ensures k !in table ==> Callbacks(subs, k) == [] {
      HoldersPositive(subs, k);
    }
  }

  /** The inner loop of `_rebuild_routes`: one subscriber's callback joins the route of each of its keys. */
  method AddRoutes(table: map<string, seq<int>>, ghost subs: seq<Entry>, e: Entry) returns (r: map<string, seq<int>>)
    requires Routes?(table, subs)
    ensures Routes?(r, subs + [e])
  {
    r := table;
    var each := ListSet(e.who.keys);
    ghost var done := {};
    for i := 0 to |each|
      invariant done <= e.who.keys && forall j :: 0 <= j < |each| ==> (each[j] in done <==> j < i)
      invariant Extended(table, done, e.who.onTick, r)
    {
      var key := each[i];
      ExtendedMore(table, done, e.who.onTick, r, key);
      r := r[key := (if key in r then r[key] else []) + [e.who.onTick]];
      done := done + {key};
    }
    AllDone(each, e.who.keys, done);
    RoutesJoined(table, subs, e, r);
  }
}
