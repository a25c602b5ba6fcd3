/**
 * What the control plane of src/swingdash/services/market_data_hub.py does, without reference counts:
 * a list of subscribers, the set of keys they hold, and the calls a change of that set makes.
 */
module HubSpec {
  import opened Wrappers

  // The most keys one connection may subscribe to.
  const MAX_INSTRUMENTS := 2000

  /** A consumer: its instruments and its callbacks, each callback named by a number. */
  datatype Subscriber = Subscriber(keys: set<string>, onTick: int, onStatus: Option<int>, onConnection: Option<int>)

  /** One entry of the insertion-ordered dictionary of subscribers. */
  datatype Entry = Entry(id: nat, who: Subscriber)

  /** Calls on a feed transport. Transports are numbered in the order they are made. */
  datatype FeedCall =
    | Start(feed: nat, keys: set<string>)
    | Subscribe(feed: nat, keys: set<string>)
    | Unsubscribe(feed: nat, keys: set<string>)
    | Stop(feed: nat)

  datatype Hub = Hub(nextId: nat, subscribers: seq<Entry>, feed: Option<nat>, feedsMade: nat)

  /** Every key some subscriber holds. */
  function AllKeys(subs: seq<Entry>): set<string> {
    if subs == [] then {} else AllKeys(subs[..|subs| - 1]) + subs[|subs| - 1].who.keys
  }

  /** How many subscribers hold `k`. */
  function Holders(subs: seq<Entry>, k: string): nat {
    if subs == [] then 0
    else Holders(subs[..|subs| - 1], k) + if k in subs[|subs| - 1].who.keys then 1 else 0
  }

  /** The tick callbacks of the subscribers holding `k`, in subscription order. */
  function Callbacks(subs: seq<Entry>, k: string): seq<int> {
    if subs == [] then []
    else
      var front, last := Callbacks(subs[..|subs| - 1], k), subs[|subs| - 1].who;
      if k in last.keys then front + [last.onTick] else front
  }

  function Given(callback: Option<int>): seq<int> {
    if callback.Some? then [callback.value] else []
  }

  function StatusListeners(subs: seq<Entry>): seq<int> {
    if subs == [] then []
    else StatusListeners(subs[..|subs| - 1]) + Given(subs[|subs| - 1].who.onStatus)
  }

  function ConnectionListeners(subs: seq<Entry>): seq<int> {
    if subs == [] then []
    else ConnectionListeners(subs[..|subs| - 1]) + Given(subs[|subs| - 1].who.onConnection)
  }

  function IndexOf(subs: seq<Entry>, id: nat): (r: Option<nat>)
    ensures r.Some? ==> r.value < |subs| && subs[r.value].id == id
    ensures r.None? ==> forall i :: 0 <= i < |subs| ==> subs[i].id != id
  {
    if subs == [] then None
    else if subs[|subs| - 1].id == id then Some(|subs| - 1)
    else IndexOf(subs[..|subs| - 1], id)
  }

  function Without(subs: seq<Entry>, i: nat): seq<Entry>
    requires i < |subs|
  {
    subs[..i] + subs[i + 1..]
  }

  predicate Fits(subs: seq<Entry>) {
    |AllKeys(subs)| <= MAX_INSTRUMENTS
  }

  /** The feed hears of a change only through the keys that appear in, or vanish from, the whole set. */
  function Changes(feed: Option<nat>, before: set<string>, after: set<string>): seq<FeedCall> {
    if feed.None? then []
    else
      (if before - after != {} then [Unsubscribe(feed.value, before - after)] else [])
      + (if after - before != {} then [Subscribe(feed.value, after - before)] else [])
  }

  datatype Outcome = Outcome(hub: Hub, calls: seq<FeedCall>, accepted: bool)

  function AfterSubscribe(h: Hub, who: Subscriber): Outcome {
    var subs := h.subscribers + [Entry(h.nextId, who)];
    if !Fits(subs) then Outcome(h, [], false)
    else if h.feed.None? then
      Outcome(Hub(h.nextId + 1, subs, Some(h.feedsMade), h.feedsMade + 1), [Start(h.feedsMade, AllKeys(subs))], true)
    else
      Outcome(h.(nextId := h.nextId + 1, subscribers := subs),
              Changes(h.feed, AllKeys(h.subscribers), AllKeys(subs)), true)
  }

  function AfterUpdate(h: Hub, id: nat, keys: set<string>): Outcome {
    var at := IndexOf(h.subscribers, id);
    if at.None? then Outcome(h, [], true)
    else
      var who := h.subscribers[at.value].who.(keys := keys);
      var subs := h.subscribers[at.value := Entry(id, who)];
      if !Fits(subs) then Outcome(h, [], false)
      else Outcome(h.(subscribers := subs), Changes(h.feed, AllKeys(h.subscribers), AllKeys(subs)), true)
  }

  function AfterClose(h: Hub, id: nat): Outcome {
    var at := IndexOf(h.subscribers, id);
    if at.None? then Outcome(h, [], true)
    else
      var subs := Without(h.subscribers, at.value);
      Outcome(h.(subscribers := subs), Changes(h.feed, AllKeys(h.subscribers), AllKeys(subs)), true)
  }

  function AfterShutdown(h: Hub): Outcome {
    Outcome(h.(subscribers := [], feed := None), if h.feed.Some? then [Stop(h.feed.value)] else [], true)
  }

  // --- facts about the subscriber list -----------------------------------------------------

  lemma HoldersSnoc(subs: seq<Entry>, e: Entry, k: string)
    ensures Holders(subs + [e], k) == Holders(subs, k) + if k in e.who.keys then 1 else 0
  {
    assert (subs + [e])[..|subs + [e]| - 1] == subs;
  }

  lemma {:induction false} HoldersAppend(a: seq<Entry>, b: seq<Entry>, k: string)
    ensures Holders(a + b, k) == Holders(a, k) + Holders(b, k)
  {
    if b == [] {
      assert a + b == a;
    } else {
      var front, last := b[..|b| - 1], b[|b| - 1];
      HoldersAppend(a, front, k);
      assert a + b == (a + front) + [last] && b == front + [last];
      HoldersSnoc(a + front, last, k);
      HoldersSnoc(front, last, k);
    }
  }

  lemma HoldersAround(subs: seq<Entry>, i: nat, k: string)
    requires i < |subs|
    ensures Holders(subs, k) == Holders(Without(subs, i), k) + if k in subs[i].who.keys then 1 else 0
  {
    assert subs == subs[..i] + ([subs[i]] + subs[i + 1..]);
    HoldersAppend(subs[..i], [subs[i]] + subs[i + 1..], k);
    HoldersAppend([subs[i]], subs[i + 1..], k);
    HoldersAppend(subs[..i], subs[i + 1..], k);
    assert [] + [subs[i]] == [subs[i]];
    HoldersSnoc([], subs[i], k);
  }

  lemma HoldersUpdated(subs: seq<Entry>, i: nat, e: Entry, k: string)
    requires i < |subs|
    ensures Holders(subs[i := e], k) + (if k in subs[i].who.keys then 1 else 0)
      == Holders(subs, k) + (if k in e.who.keys then 1 else 0)
  {
    HoldersAround(subs, i, k);
    HoldersAround(subs[i := e], i, k);
    assert Without(subs[i := e], i) == Without(subs, i);
  }

  lemma {:induction false} HoldersPositive(subs: seq<Entry>, k: string)
    ensures Holders(subs, k) > 0 <==> k in AllKeys(subs)
    ensures |Callbacks(subs, k)| == Holders(subs, k)
  {
    if subs != [] {
      HoldersPositive(subs[..|subs| - 1], k);
    }
  }

  lemma {:induction false} AllKeysMembers(subs: seq<Entry>, k: string)
    ensures k in AllKeys(subs) <==> exists i :: 0 <= i < |subs| && k in subs[i].who.keys
  {
    if subs != [] {
      var front, last := subs[..|subs| - 1], subs[|subs| - 1];
      AllKeysMembers(front, k);
      if i :| 0 <= i < |subs| && k in subs[i].who.keys {
        assert i < |front| ==> front[i] == subs[i];
      }
      if k in AllKeys(front) {
        var i :| 0 <= i < |front| && k in front[i].who.keys;
        assert subs[i] == front[i];
      }
    }
  }

  lemma {:induction false} CallbacksMembers(subs: seq<Entry>, k: string, callback: int)
    ensures callback in Callbacks(subs, k) <==>
      exists i :: 0 <= i < |subs| && k in subs[i].who.keys && subs[i].who.onTick == callback
  {
    if subs != [] {
      var front, last := subs[..|subs| - 1], subs[|subs| - 1];
      CallbacksMembers(front, k, callback);
      if i :| 0 <= i < |subs| && k in subs[i].who.keys && subs[i].who.onTick == callback {
        assert i < |front| ==> front[i] == subs[i];
      }
      if i :| 0 <= i < |front| && k in front[i].who.keys && front[i].who.onTick == callback {
        assert subs[i] == front[i];
      }
    }
  }

  lemma {:induction false} HeldKeys(subs: seq<Entry>, i: nat)
    requires i < |subs|
    ensures subs[i].who.keys <= AllKeys(subs)
  {
    if i < |subs| - 1 {
      HeldKeys(subs[..|subs| - 1], i);
    }
  }

  lemma FewerSubscribersFit(subs: seq<Entry>, i: nat)
    requires i < |subs| && Fits(subs)
    ensures Fits(Without(subs, i))
  {
    forall k | k in AllKeys(Without(subs, i)) ensures k in AllKeys(subs) {
      HoldersAround(subs, i, k);
      HoldersPositive(subs, k);
      HoldersPositive(Without(subs, i), k);
    }
    SubsetSize(AllKeys(Without(subs, i)), AllKeys(subs));
  }

  lemma SubsetSize(a: set<string>, b: set<string>)
    requires a <= b
    ensures |a| <= |b|
  {
    assert b == a + (b - a);
    assert |b| == |a| + |b - a|;
  }
}
