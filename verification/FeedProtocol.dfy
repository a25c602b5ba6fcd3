/**
 * The hub's connected handler as a protocol (src/swingdash/services/market_data_hub.py): control-plane
 * calls run whole, under the lock; the handler copies the keys under the lock but sends them outside
 * it, so other steps may run in between. Every interleaving keeps the feed covering what is wanted.
 */
module FeedProtocol {
  import opened Wrappers
  import opened HubSpec

  /** A transport's socket: open or not, which opening this is, and what the server has subscribed. */
  datatype Socket = Socket(up: bool, epoch: nat, upstream: set<string>)

  /** One run of the connected handler. */
  datatype Handler =
    | Fired
    | Copied(target: Option<nat>, keys: set<string>)
    | Sent

  datatype Firing = Firing(feed: nat, epoch: nat)

  datatype World = World(hub: Hub, sockets: map<nat, Socket>, handlers: map<Firing, Handler>)

  datatype Step =
    // under the lock
    | SubscribeStep(who: Subscriber)
    | UpdateStep(id: nat, keys: set<string>)
    | CloseStep(id: nat)
    | ShutdownStep
    // the socket: opening starts the handler; the server may know any of the keys the SDK sent itself
    | Open(feed: nat, initial: set<string>)
    | Drop(feed: nat)
    // the handler
    | Copy(firing: Firing)
    | Send(firing: Firing)

  /** A call reaches the server only while the socket is open. */
  function AfterCall(sockets: map<nat, Socket>, call: FeedCall): map<nat, Socket> {
    match call
    case Start(f, _) => sockets[f := Socket(false, 0, {})]
    case Subscribe(f, keys) =>
      if f in sockets && sockets[f].up then sockets[f := sockets[f].(upstream := sockets[f].upstream + keys)]
      else sockets
    case Unsubscribe(f, keys) =>
      if f in sockets && sockets[f].up then sockets[f := sockets[f].(upstream := sockets[f].upstream - keys)]
      else sockets
    case Stop(_) => sockets  // sent after the lock is released: a later Drop step
  }

  function AfterCalls(sockets: map<nat, Socket>, calls: seq<FeedCall>): map<nat, Socket> {
    if calls == [] then sockets
    else AfterCall(AfterCalls(sockets, calls[..|calls| - 1]), calls[|calls| - 1])
  }

  function Control(w: World, o: Outcome): World {
    World(o.hub, AfterCalls(w.sockets, o.calls), w.handlers)
  }

  function Next(w: World, s: Step): World {
    match s
    case SubscribeStep(who) => Control(w, AfterSubscribe(w.hub, who))
    case UpdateStep(id, keys) => Control(w, AfterUpdate(w.hub, id, keys))
    case CloseStep(id) => Control(w, AfterClose(w.hub, id))
    case ShutdownStep => Control(w, AfterShutdown(w.hub))
    case Open(f, initial) =>
      if f in w.sockets && !w.sockets[f].up then
        var epoch := w.sockets[f].epoch + 1;
        World(w.hub, w.sockets[f := Socket(true, epoch, initial)], w.handlers[Firing(f, epoch) := Fired])
      else w
    case Drop(f) =>
      if f in w.sockets then w.(sockets := w.sockets[f := Socket(false, w.sockets[f].epoch, {})]) else w
    case Copy(h) =>
      if h in w.handlers && w.handlers[h].Fired? then
        w.(handlers := w.handlers[h := Copied(w.hub.feed, AllKeys(w.hub.subscribers))])
      else w
    case Send(h) =>
      if h in w.handlers && w.handlers[h].Copied? then
        var target := w.handlers[h].target;
        var keys := w.handlers[h].keys;
        var calls := if target.Some? && keys != {} then [Subscribe(target.value, keys)] else [];
        World(w.hub, AfterCalls(w.sockets, calls), w.handlers[h := Sent])
      else w
  }

  function Run(w: World, steps: seq<Step>): World {
    if steps == [] then w else Next(Run(w, steps[..|steps| - 1]), steps[|steps| - 1])
  }

  const IDLE := World(Hub(0, [], None, 0), map[], map[])

  ghost predicate WellFormed(w: World) {
    && (forall f :: f in w.sockets ==> f < w.hub.feedsMade)
    && (w.hub.feed.Some? ==> w.hub.feed.value in w.sockets)
    && (w.hub.subscribers != [] ==> w.hub.feed.Some?)
    && (forall h :: h in w.handlers ==> h.feed in w.sockets && h.epoch <= w.sockets[h.feed].epoch)
    && (forall f :: f in w.sockets && w.sockets[f].up ==> Firing(f, w.sockets[f].epoch) in w.handlers)
  }

  /** The handler of the opening the hub's feed is in. */
  function Current(w: World, f: nat): Firing
    requires f in w.sockets
  {
    Firing(f, w.sockets[f].epoch)
  }

  /** What the open feed has, or is still about to be sent, includes every key a subscriber holds. */
  ghost predicate Covering(w: World)
    requires WellFormed(w)
  {
    w.hub.feed.Some? && w.sockets[w.hub.feed.value].up ==>
      var f := w.hub.feed.value;
      var wanted, upstream := AllKeys(w.hub.subscribers), w.sockets[f].upstream;
      match w.handlers[Current(w, f)]
      case Fired => true
      case Copied(target, keys) => target == Some(f) && wanted <= upstream + keys
      case Sent => wanted <= upstream
  }

  ghost predicate Inv(w: World) {
    WellFormed(w) && Covering(w)
  }

  lemma OneCall(sockets: map<nat, Socket>, call: FeedCall)
    ensures AfterCalls(sockets, [call]) == AfterCall(sockets, call)
    ensures AfterCalls(sockets, []) == sockets
  {
    assert [call][..0] == [];
  }

  // --- the control plane ------------------------------------------------------------------------

  /** Telling a socket the changes moves what it has by the same difference. */
  lemma ChangesApplied(sockets: map<nat, Socket>, f: nat, before: set<string>, after: set<string>)
    requires f in sockets
    ensures var s := AfterCalls(sockets, Changes(Some(f), before, after));
      && s.Keys == sockets.Keys
      && (forall g :: g in sockets && g != f ==> s[g] == sockets[g])
      && s[f].up == sockets[f].up && s[f].epoch == sockets[f].epoch
      && (sockets[f].up ==> s[f].upstream == (sockets[f].upstream - (before - after)) + (after - before))
  {
    var drop := if before - after != {} then [Unsubscribe(f, before - after)] else [];
    var add := if after - before != {} then [FeedCall.Subscribe(f, after - before)] else [];
    var calls := drop + add;
    assert AfterCalls(sockets, []) == sockets;
    var mid := AfterCalls(sockets, drop);
    if drop != [] {
      assert drop[..0] == [];
    }
    if add != [] {
      assert calls[..|calls| - 1] == drop && calls[|calls| - 1] == add[0];
    } else {
      assert calls == drop;
    }
  }

  lemma NoFeedNoCalls(sockets: map<nat, Socket>, before: set<string>, after: set<string>)
    ensures AfterCalls(sockets, Changes(None, before, after)) == sockets
  {}

  /** A control step that keeps the feed and tells it the changed keys keeps the invariant. */
  lemma KeysChanged(w: World, w': World)
    requires Inv(w)
    requires w'.hub.feed == w.hub.feed && w'.hub.feedsMade == w.hub.feedsMade && w'.handlers == w.handlers
    requires w'.hub.subscribers != [] ==> w'.hub.feed.Some?
    requires w'.sockets ==
      AfterCalls(w.sockets, Changes(w.hub.feed, AllKeys(w.hub.subscribers), AllKeys(w'.hub.subscribers)))
    ensures Inv(w')
  {
    var before, after := AllKeys(w.hub.subscribers), AllKeys(w'.hub.subscribers);
    if w.hub.feed.Some? {
      ChangesApplied(w.sockets, w.hub.feed.value, before, after);
    } else {
      NoFeedNoCalls(w.sockets, before, after);
    }
  }

  /** An outcome that keeps the feed and makes the calls of its changed keys. */
  lemma ChangesKeep(w: World, o: Outcome)
    requires Inv(w) && o.hub.feed == w.hub.feed && o.hub.feedsMade == w.hub.feedsMade
    requires o.hub.subscribers != [] ==> o.hub.feed.Some?
    requires o.calls == Changes(w.hub.feed, AllKeys(w.hub.subscribers), AllKeys(o.hub.subscribers))
    ensures Inv(Control(w, o))
  {
    KeysChanged(w, Control(w, o));
  }

  /** A new feed starts closed, so nothing is promised of it yet. */
  lemma NewFeedKeeps(w: World, hub: Hub)
    requires Inv(w) && w.hub.feed.None?
    requires hub.feed == Some(w.hub.feedsMade) && hub.feedsMade == w.hub.feedsMade + 1
    ensures Inv(World(hub, w.sockets[w.hub.feedsMade := Socket(false, 0, {})], w.handlers))
  {
    assert w.hub.feedsMade !in w.sockets;
  }

  lemma FirstSubscribeKeeps(w: World, who: Subscriber)
    requires Inv(w) && w.hub.feed.None? && AfterSubscribe(w.hub, who).accepted
    ensures Inv(Next(w, SubscribeStep(who)))
  {
    var o := AfterSubscribe(w.hub, who);
    OneCall(w.sockets, o.calls[0]);
    NewFeedKeeps(w, o.hub);
    assert AfterCalls(w.sockets, o.calls) == w.sockets[w.hub.feedsMade := Socket(false, 0, {})];
  }

  lemma RejectedSubscribeKeeps(w: World, who: Subscriber)
    requires Inv(w) && !AfterSubscribe(w.hub, who).accepted
    ensures Inv(Next(w, SubscribeStep(who)))
  {
    assert AfterCalls(w.sockets, []) == w.sockets;
    assert Next(w, SubscribeStep(who)) == w;
  }

  lemma SubscribeKeeps(w: World, who: Subscriber)
    requires Inv(w)
    ensures Inv(Next(w, SubscribeStep(who)))
  {
    if !AfterSubscribe(w.hub, who).accepted {
      RejectedSubscribeKeeps(w, who);
    } else if w.hub.feed.None? {
      FirstSubscribeKeeps(w, who);
    } else {
      ChangesKeep(w, AfterSubscribe(w.hub, who));
    }
  }

  lemma UpdateKeeps(w: World, id: nat, keys: set<string>)
    requires Inv(w)
    ensures Inv(Next(w, UpdateStep(id, keys)))
  {
    var o := AfterUpdate(w.hub, id, keys);
    if o.hub != w.hub {
      KeysChanged(w, Next(w, UpdateStep(id, keys)));
    } else {
      NoChangeNoCalls(w, o);
    }
  }

  lemma NoChangeNoCalls(w: World, o: Outcome)
    requires Inv(w) && o.hub == w.hub
    requires o.calls == [] || o.calls == Changes(w.hub.feed, AllKeys(w.hub.subscribers), AllKeys(o.hub.subscribers))
    ensures Inv(Control(w, o))
  {
    if o.calls != [] {
      KeysChanged(w, Control(w, o));
    }
  }

  lemma CloseKeeps(w: World, id: nat)
    requires Inv(w)
    ensures Inv(Next(w, CloseStep(id)))
  {
    var o := AfterClose(w.hub, id);
    if IndexOf(w.hub.subscribers, id).Some? {
      KeysChanged(w, Next(w, CloseStep(id)));
    } else {
      NoChangeNoCalls(w, o);
    }
  }

  lemma ShutdownKeeps(w: World)
    requires Inv(w)
    ensures Inv(Next(w, ShutdownStep))
  {
    var calls := AfterShutdown(w.hub).calls;
    if calls != [] {
      OneCall(w.sockets, calls[0]);
    }
    assert AfterCalls(w.sockets, calls) == w.sockets;
  }

  lemma SendKeeps(w: World, h: Firing)
    requires Inv(w)
    ensures Inv(Next(w, Send(h)))
  {
    if h in w.handlers && w.handlers[h].Copied? {
      var target, keys := w.handlers[h].target, w.handlers[h].keys;
      var calls := if target.Some? && keys != {} then [FeedCall.Subscribe(target.value, keys)] else [];
      if calls != [] {
        OneCall(w.sockets, calls[0]);
        assert Next(w, Send(h)).sockets == AfterCall(w.sockets, calls[0]);
      } else {
        assert Next(w, Send(h)).sockets == w.sockets;
      }
    }
  }

  /** Every step of any thread keeps the invariant. */
  lemma StepKeeps(w: World, s: Step)
    requires Inv(w)
    ensures Inv(Next(w, s))
  {
    match s
    case SubscribeStep(who) => SubscribeKeeps(w, who);
    case UpdateStep(id, keys) => UpdateKeeps(w, id, keys);
    case CloseStep(id) => CloseKeeps(w, id);
    case ShutdownStep => ShutdownKeeps(w);
    case Open(f, initial) =>
    case Drop(f) =>
    case Copy(h) =>
    case Send(h) => SendKeeps(w, h);
  }

  /**
   * Over every run: from the moment the handler of the current opening has sent, until the socket drops,
   * nothing wanted is missing upstream.
   */
  lemma {:induction false} FeedCoversWanted(steps: seq<Step>)
    ensures var w := Run(IDLE, steps);
      && Inv(w)
      && (w.hub.feed.Some? && w.sockets[w.hub.feed.value].up
          && w.handlers[Current(w, w.hub.feed.value)].Sent? ==>
            AllKeys(w.hub.subscribers) <= w.sockets[w.hub.feed.value].upstream)
  {
    if steps != [] {
      FeedCoversWanted(steps[..|steps| - 1]);
      StepKeeps(Run(IDLE, steps[..|steps| - 1]), steps[|steps| - 1]);
    }
  }

  /** The subscriber list never outgrows the feed's limit, whatever was asked. */
  lemma {:induction false} CapacityHolds(steps: seq<Step>)
    ensures |AllKeys(Run(IDLE, steps).hub.subscribers)| <= 2000
  {
    if steps != [] {
      var w, s := Run(IDLE, steps[..|steps| - 1]), steps[|steps| - 1];
      CapacityHolds(steps[..|steps| - 1]);
      if s.CloseStep? {
        var at := IndexOf(w.hub.subscribers, s.id);
        if at.Some? {
          FewerSubscribersFit(w.hub.subscribers, at.value);
        }
      }
    }
  }
}
