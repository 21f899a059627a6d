/** Subscriber fan-out: a table of bounded channels, one per subscriber. A publish offers the event to
    every channel in the table and closes and removes those that are full. The bridge keeps three such
    tables, the server one per session. Each step is one lock-held region or one channel operation.
    Sending on a closed channel and closing a channel twice panic; the model counts the panics. */
module Hubs {
  /** A channel, with the number of events published before it was made and what its subscriber has
      taken out of it. */
  datatype Channel<T> = Channel(capacity: nat, buffer: seq<T>, closed: bool, since: nat, received: seq<T>)

  /** All channels ever made, by subscription id; `subs` is the table, and `detached` the channels that
      closing the bridge has taken out of the table and not yet closed. */
  datatype Hub<T> = Hub(
    closed: bool,
    nextSubID: nat,
    channels: map<nat, Channel<T>>,
    subs: set<nat>,
    detached: set<nat>,
    published: seq<T>,
    panics: nat)

  function NewHub<T>(): (h: Hub<T>)
    ensures !h.closed && h.channels == map[] && h.published == [] && h.panics == 0 && h.nextSubID == 0
  {
    Hub(false, 0, map[], {}, {}, [], 0)
  }

  // ----- channel operations -----

  predicate HasRoom<T>(ch: Channel<T>) {
    |ch.buffer| < ch.capacity
  }

  /** The non-blocking send; a full channel is closed instead. */
  function Offer<T>(ch: Channel<T>, event: T): Channel<T> {
    if HasRoom(ch) then ch.(buffer := ch.buffer + [event]) else ch.(closed := true)
  }

  function Close<T>(h: Hub<T>, id: nat): Hub<T> {
    if id !in h.channels || h.channels[id].closed then h.(panics := h.panics + 1)
    else h.(channels := h.channels[id := h.channels[id].(closed := true)])
  }

  // ----- steps -----

  datatype Step<T> =
    | Subscribe(buffer: int)
    | Publish(event: T)
    | Remove(id: nat)
    | CloseAll
    | DetachAll
    | CloseDetached(id: nat)
    | Receive(id: nat)

  function SubscribeNext<T>(h: Hub<T>, buffer: int, defaultBuffer: nat): Hub<T> {
    var size: nat := if buffer <= 0 then defaultBuffer else buffer;
    var id := h.nextSubID + 1;
    if h.closed then h
    else h.(nextSubID := id, channels := h.channels[id := Channel(size, [], false, |h.published|, [])],
            subs := h.subs + {id})
  }

  /** The channels after the registered ones in `ids` were offered the event. */
  function OfferTo<T>(channels: map<nat, Channel<T>>, ids: set<nat>, event: T): map<nat, Channel<T>> {
    map id | id in channels :: if id in ids then Offer(channels[id], event) else channels[id]
  }

  /** Those of the given subscribers whose channel has no room. */
  function Full<T>(channels: map<nat, Channel<T>>, ids: set<nat>): set<nat> {
    set id | id in ids && id in channels && !HasRoom(channels[id])
  }

  function ClosedAmong<T>(channels: map<nat, Channel<T>>, ids: set<nat>): set<nat> {
    set id | id in ids && id in channels && channels[id].closed
  }

  function PublishNext<T>(h: Hub<T>, event: T): Hub<T> {
    h.(published := h.published + [event],
       channels := OfferTo(h.channels, h.subs, event),
       subs := h.subs - Full(h.channels, h.subs),
       panics := h.panics + |ClosedAmong(h.channels, h.subs)|)
  }

  function RemoveNext<T>(h: Hub<T>, id: nat): Hub<T> {
    if id !in h.subs then h else Close(h.(subs := h.subs - {id}), id)
  }

  function CloseAllNext<T>(h: Hub<T>): Hub<T> {
    h.(channels := map id | id in h.channels ::
                     if id in h.subs then h.channels[id].(closed := true) else h.channels[id],
       panics := h.panics + |ClosedAmong(h.channels, h.subs)|,
       subs := {})
  }

  function DetachAllNext<T>(h: Hub<T>): Hub<T> {
    if h.closed then h else h.(closed := true, detached := h.detached + h.subs, subs := {})
  }

  function CloseDetachedNext<T>(h: Hub<T>, id: nat): Hub<T> {
    if id !in h.detached then h else Close(h.(detached := h.detached - {id}), id)
  }

  /** The subscriber takes the oldest event; a closed channel is still drained. */
  function ReceiveNext<T>(h: Hub<T>, id: nat): Hub<T> {
    if id !in h.channels || h.channels[id].buffer == [] then h
    else
      var ch := h.channels[id];
      h.(channels := h.channels[id := ch.(buffer := ch.buffer[1..], received := ch.received + [ch.buffer[0]])])
  }

  function Next<T>(h: Hub<T>, a: Step<T>, defaultBuffer: nat): Hub<T> {
    match a
    case Subscribe(buffer) => SubscribeNext(h, buffer, defaultBuffer)
    case Publish(event) => PublishNext(h, event)
    case Remove(id) => RemoveNext(h, id)
    case CloseAll => CloseAllNext(h)
    case DetachAll => DetachAllNext(h)
    case CloseDetached(id) => CloseDetachedNext(h, id)
    case Receive(id) => ReceiveNext(h, id)
  }

  // ----- invariant -----

  function UpTo<T>(ch: Channel<T>): nat {
    ch.since + |ch.received| + |ch.buffer|
  }

  /** Received and buffered events are the run published since the subscription. */
  ghost predicate IsRun<T>(ch: Channel<T>, published: seq<T>) {
    UpTo(ch) <= |published| && ch.received + ch.buffer == published[ch.since..UpTo(ch)]
  }

  /** The run reaches up to now for a channel in the table; a channel is open exactly while it is in the
      table or about to be closed. */
  ghost predicate ChannelOk<T>(h: Hub<T>, id: nat)
    requires id in h.channels
  {
    var ch := h.channels[id];
    && IsRun(ch, h.published) && |ch.buffer| <= ch.capacity
    && (id in h.subs ==> UpTo(ch) == |h.published|)
    && (ch.closed <==> id !in h.subs && id !in h.detached)
    && id <= h.nextSubID
  }

  ghost predicate Inv<T>(h: Hub<T>) {
    && h.panics == 0
    && h.subs + h.detached <= h.channels.Keys && h.subs !! h.detached
    && (forall id | id in h.channels :: ChannelOk(h, id))
    && (h.closed ==> h.subs == {})
  }

  lemma RunGrows<T>(ch: Channel<T>, published: seq<T>, event: T)
    requires IsRun(ch, published)
    ensures IsRun(ch, published + [event])
    ensures UpTo(ch) == |published| ==> IsRun(ch.(buffer := ch.buffer + [event]), published + [event])
  {
    assert ch.received + (ch.buffer + [event]) == ch.received + ch.buffer + [event];
  }

  lemma RunReceives<T>(ch: Channel<T>, published: seq<T>)
    requires IsRun(ch, published) && ch.buffer != []
    ensures IsRun(ch.(buffer := ch.buffer[1..], received := ch.received + [ch.buffer[0]]), published)
  {
    assert ch.received + [ch.buffer[0]] + ch.buffer[1..] == ch.received + ch.buffer;
  }

  lemma NoneClosed<T>(h: Hub<T>)
    requires Inv(h)
    ensures ClosedAmong(h.channels, h.subs) == {}
  {
    forall id | id in h.subs ensures !h.channels[id].closed { assert ChannelOk(h, id); }
  }

  lemma PublishKeepsInv<T>(h: Hub<T>, event: T)
    requires Inv(h)
    ensures Inv(PublishNext(h, event))
  {
    var h' := PublishNext(h, event);
    NoneClosed(h);
    forall id | id in h'.channels ensures ChannelOk(h', id) {
      assert ChannelOk(h, id);
      RunGrows(h.channels[id], h.published, event);
    }
  }

  lemma CloseAllKeepsChannel<T>(h: Hub<T>, id: nat)
    requires id in h.channels && ChannelOk(h, id) && h.subs !! h.detached
    ensures ChannelOk(CloseAllNext(h), id)
  {
    assert IsRun(h.channels[id].(closed := true), h.published);
  }

  lemma CloseAllKeepsInv<T>(h: Hub<T>)
    requires Inv(h)
    ensures Inv(CloseAllNext(h))
  {
    NoneClosed(h);
    forall id | id in h.channels ensures ChannelOk(CloseAllNext(h), id) {
      CloseAllKeepsChannel(h, id);
    }
  }

  lemma ReceiveKeepsInv<T>(h: Hub<T>, id: nat)
    requires Inv(h)
    ensures Inv(ReceiveNext(h, id))
  {
    if id in h.channels && h.channels[id].buffer != [] {
      assert ChannelOk(h, id);
      RunReceives(h.channels[id], h.published);
      forall j | j in h.channels ensures ChannelOk(ReceiveNext(h, id), j) { assert ChannelOk(h, j); }
    }
  }

  lemma SubscribeKeepsInv<T>(h: Hub<T>, buffer: int, defaultBuffer: nat)
    requires Inv(h)
    ensures Inv(SubscribeNext(h, buffer, defaultBuffer))
  {
    var h' := SubscribeNext(h, buffer, defaultBuffer);
    if !h.closed {
      var id := h.nextSubID + 1;
      FreshID(h);
      forall j | j in h'.channels ensures ChannelOk(h', j) { assert j != id ==> ChannelOk(h, j); }
    }
  }

  lemma FreshID<T>(h: Hub<T>)
    requires Inv(h)
    ensures forall id | id in h.channels :: id <= h.nextSubID
  {
    forall id | id in h.channels ensures id <= h.nextSubID { assert ChannelOk(h, id); }
  }

  /** Closing a channel that has just left the table or the detached ones. */
  lemma CloseKeepsInv<T>(h: Hub<T>, h1: Hub<T>, id: nat)
    requires Inv(h) && (id in h.subs || id in h.detached)
    requires h1 == h.(subs := h.subs - {id}, detached := h.detached - {id})
    ensures Inv(Close(h1, id))
  {
    var h' := Close(h1, id);
    assert ChannelOk(h, id);
    assert IsRun(h.channels[id].(closed := true), h.published);
    forall j | j in h'.channels ensures ChannelOk(h', j) { assert ChannelOk(h, j); }
  }

  lemma RemoveKeepsInv<T>(h: Hub<T>, id: nat)
    requires Inv(h)
    ensures Inv(RemoveNext(h, id))
  {
    if id in h.subs {
      assert h.detached - {id} == h.detached;
      CloseKeepsInv(h, h.(subs := h.subs - {id}), id);
    }
  }

  lemma DetachAllKeepsInv<T>(h: Hub<T>)
    requires Inv(h)
    ensures Inv(DetachAllNext(h))
  {
    var h' := DetachAllNext(h);
    forall j | j in h'.channels ensures ChannelOk(h', j) { assert ChannelOk(h, j); }
  }

  lemma NextKeepsInv<T>(h: Hub<T>, a: Step<T>, defaultBuffer: nat)
    requires Inv(h)
    ensures Inv(Next(h, a, defaultBuffer))
  {
    match a
    case Subscribe(buffer) => SubscribeKeepsInv(h, buffer, defaultBuffer);
    case Publish(event) => PublishKeepsInv(h, event);
    case Remove(id) => RemoveKeepsInv(h, id);
    case CloseAll => CloseAllKeepsInv(h);
    case DetachAll => DetachAllKeepsInv(h);
    case CloseDetached(id) =>
      if id in h.detached {
        assert h.subs - {id} == h.subs;
        CloseKeepsInv(h, h.(detached := h.detached - {id}), id);
      }
    case Receive(id) => ReceiveKeepsInv(h, id);
  }

  ghost function Run<T>(steps: seq<Step<T>>, defaultBuffer: nat): (h: Hub<T>)
    ensures Inv(h)
  {
    if steps == [] then NewHub()
    else
      var h := Run(steps[..|steps| - 1], defaultBuffer);
      NextKeepsInv(h, steps[|steps| - 1], defaultBuffer);
      Next(h, steps[|steps| - 1], defaultBuffer)
  }

  /** In every interleaving: what a subscriber has received and what its channel still holds are exactly
      the contiguous run of events published since it subscribed, complete as long as it is registered;
      no channel is ever sent to after closing or closed twice. */
  lemma ReceivedAndBufferedAreARun<T>(steps: seq<Step<T>>, defaultBuffer: nat, id: nat)
    requires id in Run(steps, defaultBuffer).channels
    ensures var h := Run(steps, defaultBuffer);
            var ch := h.channels[id];
            && UpTo(ch) <= |h.published| && ch.received + ch.buffer == h.published[ch.since..UpTo(ch)]
            && (id in h.subs ==> UpTo(ch) == |h.published|)
            && h.panics == 0
  {
    assert ChannelOk(Run(steps, defaultBuffer), id);
  }

  function After<T>(h: Hub<T>, steps: seq<Step<T>>, defaultBuffer: nat): Hub<T>
    decreases |steps|
  {
    if steps == [] then h else After(Next(h, steps[0], defaultBuffer), steps[1..], defaultBuffer)
  }

  lemma {:induction false} OutsideStaysOutside<T>(h: Hub<T>, steps: seq<Step<T>>, defaultBuffer: nat, id: nat)
    requires Inv(h) && id in h.channels && id !in h.subs
    ensures var h' := After(h, steps, defaultBuffer);
            && id in h'.channels && id !in h'.subs
            && h'.channels[id].received + h'.channels[id].buffer == h.channels[id].received + h.channels[id].buffer
    decreases |steps|
  {
    if steps != [] {
      var h1 := Next(h, steps[0], defaultBuffer);
      NextKeepsInv(h, steps[0], defaultBuffer);
      assert ChannelOk(h, id);
      StepLeavesOutside(h, steps[0], defaultBuffer, id);
      OutsideStaysOutside(h1, steps[1..], defaultBuffer, id);
    }
  }

  lemma StepLeavesOutside<T>(h: Hub<T>, a: Step<T>, defaultBuffer: nat, id: nat)
    requires id in h.channels && id !in h.subs && id <= h.nextSubID
    ensures var h' := Next(h, a, defaultBuffer);
            && id in h'.channels && id !in h'.subs
            && h'.channels[id].received + h'.channels[id].buffer == h.channels[id].received + h.channels[id].buffer
  {
    if a.Receive? && a.id == id && h.channels[id].buffer != [] {
      var ch := h.channels[id];
      assert ch.received + [ch.buffer[0]] + ch.buffer[1..] == ch.received + ch.buffer;
    }
  }

  /** The step that takes a channel out of the table leaves its contents alone. */
  lemma LeavingKeepsContents<T>(h: Hub<T>, a: Step<T>, defaultBuffer: nat, id: nat)
    requires Inv(h) && id in h.subs && id !in Next(h, a, defaultBuffer).subs
    ensures var h' := Next(h, a, defaultBuffer);
            && id in h'.channels
            && h'.channels[id].received == h.channels[id].received && h'.channels[id].buffer == h.channels[id].buffer
  {
    assert ChannelOk(h, id);
  }

  /** A removal of any cause (overflow, unsubscribing, or closing the hub) only cuts the tail: over any
      continuation the subscriber receives, or still finds in its channel, exactly what was published from its
      subscription to the removal. */
  lemma RemovalOnlyCutsTheTail<T>(h: Hub<T>, a: Step<T>, later: seq<Step<T>>, defaultBuffer: nat, id: nat)
    requires Inv(h) && id in h.subs && id !in Next(h, a, defaultBuffer).subs
    ensures var h' := After(Next(h, a, defaultBuffer), later, defaultBuffer);
            && id in h'.channels && id !in h'.subs
            && h'.channels[id].received + h'.channels[id].buffer == h.published[h.channels[id].since..]
  {
    NextKeepsInv(h, a, defaultBuffer);
    assert ChannelOk(h, id);
    LeavingKeepsContents(h, a, defaultBuffer, id);
    OutsideStaysOutside(Next(h, a, defaultBuffer), later, defaultBuffer, id);
  }

  /** In particular when a publish finds the channel full: the event that did not fit is not among them. */
  lemma OverflowOnlyCutsTheTail<T>(h: Hub<T>, event: T, later: seq<Step<T>>, defaultBuffer: nat, id: nat)
    requires Inv(h) && id in h.subs && !HasRoom(h.channels[id])
    ensures var h' := After(PublishNext(h, event), later, defaultBuffer);
            && id in h'.channels && id !in h'.subs
            && h'.channels[id].received + h'.channels[id].buffer == h.published[h.channels[id].since..]
  {
    RemovalOnlyCutsTheTail(h, Publish(event), later, defaultBuffer, id);
  }

  // ----- the table itself -----

  /** Map iteration visits the keys in any order. */
  method AnyKey<K>(keys: set<K>) returns (key: K)
    requires |keys| != 0
    ensures key in keys
  {
    key :| key in keys;
  }

  /** A channel as the table holds it, without its history. */
  datatype Port<T> = Port(capacity: nat, buffer: seq<T>, closed: bool)

  function PortOf<T>(ch: Channel<T>): Port<T> {
    Port(ch.capacity, ch.buffer, ch.closed)
  }

  function Offered<T>(port: Port<T>, event: T): Port<T> {
    if |port.buffer| < port.capacity then port.(buffer := port.buffer + [event]) else port.(closed := true)
  }

  ghost predicate Tied<T>(ports: map<nat, Port<T>>, channels: map<nat, Channel<T>>) {
    ports.Keys == channels.Keys && forall id | id in ports :: ports[id] == PortOf(channels[id])
  }

  predicate RoomyPort<T>(port: Port<T>) {
    |port.buffer| < port.capacity
  }

  /** The ports after these subscribers were offered the event. */
  function OfferPorts<T>(ports: map<nat, Port<T>>, ids: set<nat>, event: T): map<nat, Port<T>> {
    map id | id in ports :: if id in ids then Offered(ports[id], event) else ports[id]
  }

  function Roomy<T>(ports: map<nat, Port<T>>, ids: set<nat>): set<nat> {
    set id | id in ids && id in ports && RoomyPort(ports[id])
  }

  lemma OfferedIsPublished<T>(h: Hub<T>, ports: map<nat, Port<T>>, event: T)
    requires Tied(ports, h.channels) && h.subs <= ports.Keys
    ensures Tied(OfferPorts(ports, h.subs, event), PublishNext(h, event).channels)
    ensures Roomy(ports, h.subs) == PublishNext(h, event).subs
  {
    forall id ensures id in Roomy(ports, h.subs) <==> id in h.subs - Full(h.channels, h.subs) {
      if id in h.subs { assert ports[id] == PortOf(h.channels[id]); }
    }
  }

  lemma OfferPortsStep<T>(ports: map<nat, Port<T>>, done: set<nat>, event: T, id: nat)
    requires id in ports && id !in done
    ensures OfferPorts(ports, done, event)[id] == ports[id]
    ensures OfferPorts(ports, done + {id}, event) == OfferPorts(ports, done, event)[id := Offered(ports[id], event)]
    ensures Roomy(ports, done + {id}) == Roomy(ports, done) + if RoomyPort(ports[id]) then {id} else {}
    ensures id !in Roomy(ports, done)
  {
  }

  lemma OfferPortsNone<T>(ports: map<nat, Port<T>>, event: T)
    ensures OfferPorts(ports, {}, event) == ports && Roomy(ports, {}) == {}
  {
  }

  lemma RemoveTies<T>(h: Hub<T>, id: nat, ports: map<nat, Port<T>>)
    requires Inv(h) && Tied(ports, h.channels) && id in h.subs
    ensures RemoveNext(h, id) == h.(subs := h.subs - {id},
                                    channels := h.channels[id := h.channels[id].(closed := true)])
    ensures Tied(ports[id := ports[id].(closed := true)], RemoveNext(h, id).channels)
  {
    assert ChannelOk(h, id);
  }

  lemma NoneLeft<K>(all: set<K>)
    ensures all - all == {} && all + {} == all && all - {} == all
  {
  }

  lemma OneLess<K>(all: set<K>, ids: set<K>, id: K)
    requires id in ids && ids <= all
    ensures (all - ids) + {id} == all - (ids - {id})
  {
  }

  lemma Move<K>(from: set<K>, to: set<K>, x: K)
    requires x in from && x !in to
    ensures (from - {x}) + (to + {x}) == from + to && (from + to) - {x} == (from - {x}) + to
  {
  }

  class Table<T> {
    const defaultBuffer: nat
    var closed: bool
    var nextSubID: nat
    var ports: map<nat, Port<T>>
    var subs: set<nat>
    /** The table with the history of its channels and of all publishes. */
    ghost var hub: Hub<T>

    ghost predicate Valid()
      reads this
    {
      && Inv(hub)
      && hub.closed == closed && hub.nextSubID == nextSubID && hub.subs == subs
      && Tied(ports, hub.channels)
    }

    constructor (defaultBuffer: nat)
      ensures Valid() && hub == NewHub() && this.defaultBuffer == defaultBuffer
    {
      this.defaultBuffer := defaultBuffer;
      closed, nextSubID, ports, subs, hub := false, 0, map[], {}, NewHub();
    }

    method AddSub(buffer: int) returns (id: nat, ok: bool)
      requires Valid()
      modifies this
      ensures Valid() && hub == SubscribeNext(old(hub), buffer, defaultBuffer)
      ensures ok == !old(closed) && (ok ==> id in subs && id !in old(ports))
    {
      SubscribeKeepsInv(hub, buffer, defaultBuffer);
      FreshID(hub);
      hub := SubscribeNext(hub, buffer, defaultBuffer);
      if closed {
        return 0, false;
      }
      nextSubID := nextSubID + 1;
      var size := if buffer <= 0 then defaultBuffer else buffer;
      ports := ports[nextSubID := Port(size, [], false)];
      subs := subs + {nextSubID};
      return nextSubID, true;
    }

    method Publish(event: T)
      requires Valid()
      modifies this
      ensures Valid() && hub == PublishNext(old(hub), event)
    {
      PublishKeepsInv(hub, event);
      OfferedIsPublished(hub, ports, event);
      OfferAll(event);
      hub := PublishNext(hub, event);
    }

    /** The loop over the table, with `ids` still to come and `done` behind it. */
    ghost predicate Offering(before: map<nat, Port<T>>, ids: set<nat>, done: set<nat>, event: T)
      reads this
    {
      && ids !! done && ids <= before.Keys
      && ports == OfferPorts(before, done, event) && subs == ids + Roomy(before, done)
    }

    method OfferAll(event: T)
      requires subs <= ports.Keys
      modifies this`ports, this`subs
      ensures ports == OfferPorts(old(ports), old(subs), event) && subs == Roomy(old(ports), old(subs))
    {
      ghost var all := subs;
      var ids := subs;
      OfferPortsNone(ports, event);
      NoneLeft(all);
      while |ids| != 0
        invariant ids <= all && Offering(old(ports), ids, all - ids, event)
      {
        var id := OfferNext(ids, event, old(ports), all - ids);
        OneLess(all, ids, id);
        ids := ids - {id};
      }
    }

    /** One turn of the loop. */
    method OfferNext(ids: set<nat>, event: T, ghost before: map<nat, Port<T>>, ghost done: set<nat>) returns (id: nat)
      requires |ids| != 0 && Offering(before, ids, done, event)
      modifies this`ports, this`subs
      ensures id in ids && Offering(before, ids - {id}, done + {id}, event)
    {
      id := AnyKey(ids);
      OfferPortsStep(before, done, event, id);
      Move(ids, Roomy(before, done), id);
      OfferOne(id, event);
    }

    /** The non-blocking send to one subscriber. */
    method OfferOne(id: nat, event: T)
      requires id in subs && id in ports
      modifies this`ports, this`subs
      ensures ports == old(ports)[id := Offered(old(ports)[id], event)]
      ensures subs == if RoomyPort(old(ports)[id]) then old(subs) else old(subs) - {id}
    {
      var port := ports[id];
      if |port.buffer| < port.capacity {
        ports := ports[id := port.(buffer := port.buffer + [event])];
      } else {
        ports := ports[id := port.(closed := true)];
        subs := subs - {id};
      }
    }

    method Remove(id: nat)
      requires Valid()
      modifies this
      ensures Valid() && hub == RemoveNext(old(hub), id)
    {
      if id !in subs {
        return;
      }
      RemoveKeepsInv(hub, id);
      RemoveTies(hub, id, ports);
      hub := RemoveNext(hub, id);
      subs := subs - {id};
      ports := ports[id := ports[id].(closed := true)];
    }

    /** Closing the bridge, under its lock. */
    method DetachAll() returns (taken: set<nat>)
      requires Valid()
      modifies this
      ensures Valid() && hub == DetachAllNext(old(hub))
      ensures taken == if old(closed) then {} else old(subs)
    {
      DetachAllKeepsInv(hub);
      hub := DetachAllNext(hub);
      if closed {
        return {};
      }
      closed := true;
      taken := subs;
      subs := {};
    }
  }
}
